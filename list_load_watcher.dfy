/** The load trigger of composableActions/ListLoadWatcher.kt: the `isReadyToLoad` value derived from a lazy
    list's (or grid's) layout and the iterator's state, and the `onLoadNext` calls its snapshot flow makes. */
module ListLoadWatcher {
  import opened Wrappers
  import opened FetchIterator

  /** A visible item of a lazy list or grid; only its position in the data is read. */
  datatype ItemInfo = ItemInfo(index: int)

  /** `LazyListState.layoutInfo`: the visible items, in order, and the number of items. */
  datatype ListLayoutInfo = ListLayoutInfo(visibleItemsInfo: seq<ItemInfo>, totalItemsCount: int)

  /** `LazyGridState.layoutInfo`, read the same way. */
  datatype GridLayoutInfo = GridLayoutInfo(visibleItemsInfo: seq<ItemInfo>, totalItemsCount: int)

  /** `lastOrNull()?.index`. */
  function LastIndex(visible: seq<ItemInfo>): Option<int> {
    if visible == [] then None else Some(visible[|visible| - 1].index)
  }

  /** One past the last visible item, counting a list with nothing visible as if item 0 were. */
  function LastVisibleIndex(visible: seq<ItemInfo>): int {
    LastIndex(visible).GetOr(0) + 1
  }

  /** The load zone spelled out: with an item visible, the last visible one is among the last three items
      (or past the end); with none visible, the list holds at most three items. */
  predicate InLoadZone(visible: seq<ItemInfo>, totalItemsCount: int) {
    && (visible == [] ==> totalItemsCount <= 3)
    && (visible != [] ==> visible[|visible| - 1].index >= totalItemsCount - 3)
  }

  /** The rule both watchers derive: in the load zone of the last three items, and the iterator idle. It is
      never ready while a page is loading or once the iterator is consumed. */
  predicate ReadyToLoad(visible: seq<ItemInfo>, totalItemsCount: int, loadState: IteratorState): (ready: bool)
    ensures ready <==> loadState == IDLE && InLoadZone(visible, totalItemsCount)
  {
    var isLoadZone := LastVisibleIndex(visible) > totalItemsCount - 3;
    var isIdle := loadState == IDLE;
    isLoadZone && isIdle
  }

  /** `isReadyToLoad` of `ListLoadWatcher`. */
  predicate ListIsReadyToLoad(layout: ListLayoutInfo, loadState: IteratorState): (ready: bool)
    ensures ready <==> loadState == IDLE && InLoadZone(layout.visibleItemsInfo, layout.totalItemsCount)
  {
    ReadyToLoad(layout.visibleItemsInfo, layout.totalItemsCount, loadState)
  }

  /** `isReadyToLoad` of `ListGridLoadWatcher`. */
  predicate GridIsReadyToLoad(layout: GridLayoutInfo, loadState: IteratorState): (ready: bool)
    ensures ready <==> loadState == IDLE && InLoadZone(layout.visibleItemsInfo, layout.totalItemsCount)
  {
    ReadyToLoad(layout.visibleItemsInfo, layout.totalItemsCount, loadState)
  }

  /** An empty list with nothing visible asks for its first page as soon as the iterator is idle. */
  lemma EmptyIdleListIsReady()
    ensures ListIsReadyToLoad(ListLayoutInfo([], 0), IDLE)
    ensures GridIsReadyToLoad(GridLayoutInfo([], 0), IDLE)
  {
  }

  /** The list and the grid watcher decide alike on the same layout. */
  lemma WatchersAgree(list: ListLayoutInfo, grid: GridLayoutInfo, loadState: IteratorState)
    requires list.visibleItemsInfo == grid.visibleItemsInfo && list.totalItemsCount == grid.totalItemsCount
    ensures ListIsReadyToLoad(list, loadState) == GridIsReadyToLoad(grid, loadState)
  {
  }

  /** A reading of the watcher: the layout and the iterator state of one frame. */
  datatype Frame = Frame(layout: ListLayoutInfo, loadState: IteratorState)

  /** The value of `isReadyToLoad` at each frame. */
  function Readings(frames: seq<Frame>): seq<bool> {
    seq(|frames|, k requires 0 <= k < |frames| => ListIsReadyToLoad(frames[k].layout, frames[k].loadState))
  }

  /** `snapshotFlow`: the first value, then a value whenever it differs from the one before. */
  function Emissions(xs: seq<bool>): (r: seq<bool>)
    ensures |r| <= |xs|
    ensures r == [] <==> xs == []
    ensures r != [] ==> r[|r| - 1] == xs[|xs| - 1]
    ensures forall k :: 0 < k < |r| ==> r[k] != r[k - 1]
  {
    if xs == [] then []
    else
      var front := Emissions(xs[..|xs| - 1]);
      if front != [] && front[|front| - 1] == xs[|xs| - 1] then front else front + [xs[|xs| - 1]]
  }

  /** `.filter { it }` then `collect { onLoadNext() }`: one call per true emission. */
  function LoadCalls(emitted: seq<bool>): nat {
    if emitted == [] then 0
    else LoadCalls(emitted[..|emitted| - 1]) + (if emitted[|emitted| - 1] then 1 else 0)
  }

  /** The frames at which the watcher becomes ready: the first frame if ready, and each later frame that is
      ready after one that was not. */
  function RisingEdges(xs: seq<bool>): nat {
    if xs == [] then 0
    else
      var front := xs[..|xs| - 1];
      RisingEdges(front) + (if xs[|xs| - 1] && (front == [] || !front[|front| - 1]) then 1 else 0)
  }

  /** `onLoadNext` is called once each time the watcher becomes ready, and at no other frame
      (the debounce, which can only drop calls, is not modelled). */
  lemma {:induction false} CallsAtRisingEdges(xs: seq<bool>)
    ensures LoadCalls(Emissions(xs)) == RisingEdges(xs)
    decreases |xs|
  {
    if xs != [] {
      var front, x := xs[..|xs| - 1], xs[|xs| - 1];
      CallsAtRisingEdges(front);
      var e := Emissions(front);
      var step := if x && (front == [] || !front[|front| - 1]) then 1 else 0;
      assert RisingEdges(xs) == RisingEdges(front) + step;
      if e != [] && e[|e| - 1] == x {
        assert Emissions(xs) == e;
        assert front[|front| - 1] == x;
        assert step == 0;
      } else {
        assert Emissions(xs) == e + [x];
        assert (e + [x])[..|e|] == e;
        assert LoadCalls(e + [x]) == LoadCalls(e) + (if x then 1 else 0);
        assert front != [] ==> front[|front| - 1] != x;
      }
    }
  }

  /** No frame ready, no call: in particular none while the iterator stays busy or consumed. */
  lemma {:induction false} NoCallWhileNeverReady(frames: seq<Frame>)
    requires forall k :: 0 <= k < |frames| ==> frames[k].loadState != IDLE
    ensures LoadCalls(Emissions(Readings(frames))) == 0
  {
    var xs := Readings(frames);
    CallsAtRisingEdges(xs);
    NoRisingEdge(xs);
  }

  lemma {:induction false} NoRisingEdge(xs: seq<bool>)
    requires forall k :: 0 <= k < |xs| ==> !xs[k]
    ensures RisingEdges(xs) == 0
    decreases |xs|
  {
    if xs != [] {
      NoRisingEdge(xs[..|xs| - 1]);
    }
  }

  /** A watcher that stays ready over many frames calls `onLoadNext` once, not once per frame. */
  lemma {:induction false} SteadyReadinessCallsOnce(xs: seq<bool>)
    requires xs != []
    requires forall k :: 0 <= k < |xs| ==> xs[k]
    ensures LoadCalls(Emissions(xs)) == 1
    decreases |xs|
  {
    CallsAtRisingEdges(xs);
    SteadyRising(xs);
  }

  lemma {:induction false} SteadyRising(xs: seq<bool>)
    requires xs != []
    requires forall k :: 0 <= k < |xs| ==> xs[k]
    ensures RisingEdges(xs) == 1
    decreases |xs|
  {
    if |xs| > 1 {
      SteadyRising(xs[..|xs| - 1]);
    }
  }
}
