/** The paged fetch iterator (network/FetchIteratorState.kt): it calls a page function with a growing page
    index, appends every page it gets to `list`, and stops at the first empty page or error.

    The coroutine that the source launches for each fetch is split into two events: `FetchNext` starts a job
    (and records it as the live one) and `Complete(j)` is that job's body running to its end, which changes
    nothing unless job `j` is still live. Cancelling a job (`job?.cancel()`) is clearing `jobActive`. */
module FetchIterator {
  import opened Wrappers
  import opened Responses

  datatype IteratorState = IDLE | LOADING | CONSUMED

  /** All the fields of an iterator except its page function. `job` is the last job launched (Kotlin keeps
      the reference after the job ends), `jobActive` says whether that job is still neither cancelled nor
      finished, and `jobsLaunched` numbers the jobs, so that every job has its own identity. */
  datatype Snapshot<T> = Snapshot(list: seq<T>, index: int, state: IteratorState, error: Option<string>,
                                  job: Option<nat>, jobActive: bool, jobsLaunched: nat)

  /** What a client of the iterator sees. */
  datatype View<T> = View(list: seq<T>, index: int, state: IteratorState, error: Option<string>)

  function ViewOf<T>(s: Snapshot<T>): View<T> {
    View(s.list, s.index, s.state, s.error)
  }

  /** The invariant every operation keeps: an error is only stored in the CONSUMED state (and after a
      page was attempted); the iterator is LOADING exactly while a job is live; job numbers are never reused. */
  predicate Inv<T>(s: Snapshot<T>) {
    && s.index >= 0
    && (s.error.Some? ==> s.state == CONSUMED && s.index >= 1)
    && (s.state == LOADING <==> s.job.Some? && s.jobActive)
    && (s.jobActive ==> s.job.Some?)
    && (s.job.Some? ==> s.job.value < s.jobsLaunched)
  }

  /** Job `j` is the one the iterator is waiting for. */
  predicate IsLive<T>(s: Snapshot<T>, j: nat) {
    s.job == Some(j) && s.jobActive
  }

  /** A new iterator over an initial `list` (the constructor's default is empty). */
  function Initial<T>(list: seq<T>): (s: Snapshot<T>)
    ensures Inv(s) && s.state == IDLE && s.index == 0 && s.error == None && s.list == list
  {
    Snapshot(list, 0, IDLE, None, None, false, 0)
  }

  /** `fetchNext()`: nothing unless IDLE; otherwise LOADING, with a fresh job live. */
  function FetchNextStep<T>(s: Snapshot<T>): (r: Snapshot<T>)
    ensures s.state != IDLE ==> r == s
    ensures s.state == IDLE ==> r.state == LOADING && IsLive(r, s.jobsLaunched)
                                && ViewOf(r) == ViewOf(s).(state := LOADING)
    ensures Inv(s) ==> Inv(r)
  {
    if s.state != IDLE then s
    else s.(state := LOADING, job := Some(s.jobsLaunched), jobActive := true, jobsLaunched := s.jobsLaunched + 1)
  }

  /** The end of job `j`, whose call of the page function answered `res`. */
  function CompleteStep<T>(s: Snapshot<T>, j: nat, res: Response<seq<T>>): (r: Snapshot<T>)
    ensures !IsLive(s, j) ==> r == s
    ensures IsLive(s, j) && res.Success? && res.data != [] ==>
      ViewOf(r) == View(s.list + res.data, s.index + 1, IDLE, s.error)
    ensures IsLive(s, j) && res.Success? && res.data == [] ==>
      ViewOf(r) == View(s.list, s.index + 1, CONSUMED, s.error)
    ensures IsLive(s, j) && res.Error? ==>
      ViewOf(r) == View(s.list, s.index + 1, CONSUMED, Some(res.message))
    ensures IsLive(s, j) ==> !r.jobActive
    ensures Inv(s) ==> Inv(r)
  {
    if !IsLive(s, j) then s
    else
      match res
      case Success(data) =>
        s.(list := s.list + data, state := if |data| == 0 then CONSUMED else IDLE, index := s.index + 1,
           jobActive := false)
      case Error(message, _) =>
        s.(error := Some(message), state := CONSUMED, index := s.index + 1, jobActive := false)
  }

  /** Kotlin's `Int.coerceAtLeast(min)`. */
  function CoerceAtLeast(x: int, min: int): (r: int)
    ensures r >= min && (r == x || r == min)
    ensures x >= min ==> r == x
  {
    if x < min then min else x
  }

  /** `job?.cancel()`: what a client sees is unchanged, and no job is live any more, so a completion that
      arrives afterwards, of whichever job, is ignored (`CompleteStep` changes nothing for a job not live). */
  function CancelStep<T>(s: Snapshot<T>): (r: Snapshot<T>)
    ensures ViewOf(r) == ViewOf(s) && r.job == s.job && r.jobsLaunched == s.jobsLaunched
    ensures forall j: nat :: !IsLive(r, j)
  {
    s.(jobActive := false)
  }

  /** `reset()`: cancel the job, then an empty list, page 0, IDLE and no error. */
  function ResetStep<T>(s: Snapshot<T>): (r: Snapshot<T>)
    ensures ViewOf(r) == View([], 0, IDLE, None) && !r.jobActive
    ensures r.job == s.job && r.jobsLaunched == s.jobsLaunched
    ensures Inv(s) ==> Inv(r)
  {
    CancelStep(s).(list := [], index := 0, state := IDLE, error := None)
  }

  /** `reloadFailedLastLoad()`: nothing unless an error is stored; otherwise cancel the job, step the index
      back one page (not below 0), clear the error, return to IDLE and fetch again. After a failure this asks
      again for the page that failed, with the list as it was and a fresh live job. */
  function ReloadStep<T>(s: Snapshot<T>): (r: Snapshot<T>)
    ensures s.error.None? ==> r == s
    ensures Inv(s) && s.error.Some? ==>
      && r.state == LOADING && IsLive(r, s.jobsLaunched)
      && ViewOf(r) == View(s.list, s.index - 1, LOADING, None)
    ensures Inv(s) ==> Inv(r)
  {
    if s.error.None? then s
    else FetchNextStep(CancelStep(s).(index := CoerceAtLeast(s.index - 1, 0), state := IDLE, error := None))
  }

  /** State (at most one fetch in flight): a second `fetchNext()` before the first completes does nothing. */
  lemma FetchNextIdempotent<T>(s: Snapshot<T>)
    ensures FetchNextStep(FetchNextStep(s)) == FetchNextStep(s)
  {
  }

  /** After `reset()`, whatever job was live can no longer touch the iterator, even once a new fetch started. */
  lemma StaleCompletionIgnored<T>(s: Snapshot<T>, j: nat, res: Response<seq<T>>)
    requires Inv(s) && IsLive(s, j)
    ensures CompleteStep(ResetStep(s), j, res) == ResetStep(s)
    ensures CompleteStep(FetchNextStep(ResetStep(s)), j, res) == FetchNextStep(ResetStep(s))
  {
    var t := FetchNextStep(ResetStep(s));
    assert t.job == Some(s.jobsLaunched) && j < s.jobsLaunched;
  }

  /** Recovery is idempotent: failing on a page, retrying and then succeeding leaves the iterator exactly as
      if the page had succeeded the first time (no page is duplicated or skipped). */
  lemma RetryRecovers<T>(s: Snapshot<T>, j: nat, failure: Response<seq<T>>, data: seq<T>)
    requires Inv(s) && IsLive(s, j) && s.error.None? && failure.Error?
    ensures var retry := ReloadStep(CompleteStep(s, j, failure));
      && retry.job.Some?
      && ViewOf(CompleteStep(retry, retry.job.value, Success(data))) == ViewOf(CompleteStep(s, j, Success(data)))
  {
    var failed := CompleteStep(s, j, failure);
    assert ViewOf(failed) == View(s.list, s.index + 1, CONSUMED, Some(failure.message));
  }

  /** One turn of the UI loop: `fetchNext()`, then the job it started runs with the answer of `fn`. */
  function Round<T>(s: Snapshot<T>, fn: int -> Response<seq<T>>): Snapshot<T> {
    var t := FetchNextStep(s);
    if t.job.Some? then CompleteStep(t, t.job.value, fn(t.index)) else t
  }

  /** `n` turns of the UI loop. */
  function Rounds<T>(s: Snapshot<T>, fn: int -> Response<seq<T>>, n: nat): Snapshot<T>
    decreases n
  {
    if n == 0 then s else Rounds(Round(s, fn), fn, n - 1)
  }

  /** The items of pages `from .. from + k - 1`, in order. */
  function Pages<T>(fn: int -> Response<seq<T>>, from: int, k: nat): seq<T>
    decreases k
  {
    if k == 0 then []
    else (match fn(from) case Success(d) => d case Error(_, _) => []) + Pages(fn, from + 1, k - 1)
  }

  predicate NonEmptyPage<T>(r: Response<seq<T>>) {
    r.Success? && r.data != []
  }

  /** The error an ending page leaves stored: its message if it failed, none if it was empty. */
  function EndError<T>(r: Response<seq<T>>): Option<string> {
    if r.Error? then Some(r.message) else None
  }

  /** A turn that meets a non-empty page appends it and leaves the iterator idle, one page further on. */
  lemma RoundOnNonEmptyPage<T>(s: Snapshot<T>, fn: int -> Response<seq<T>>)
    requires Inv(s) && s.state == IDLE && s.error.None? && NonEmptyPage(fn(s.index))
    ensures ViewOf(Round(s, fn)) == View(s.list + fn(s.index).data, s.index + 1, IDLE, None)
    ensures Inv(Round(s, fn))
  {
    var t := FetchNextStep(s);
    assert t.job == Some(s.jobsLaunched) && IsLive(t, s.jobsLaunched) && t.index == s.index;
  }

  /** A turn that meets an empty or failing page consumes the iterator, one page further on. */
  lemma RoundOnLastPage<T>(s: Snapshot<T>, fn: int -> Response<seq<T>>)
    requires Inv(s) && s.state == IDLE && s.error.None?
    requires fn(s.index) == Success([]) || fn(s.index).Error?
    ensures ViewOf(Round(s, fn)) == View(s.list, s.index + 1, CONSUMED, EndError(fn(s.index)))
    ensures Inv(Round(s, fn))
  {
    var t := FetchNextStep(s);
    assert t.job == Some(s.jobsLaunched) && IsLive(t, s.jobsLaunched) && t.index == s.index;
    assert s.list + [] == s.list;
  }

  /** Termination and index accounting: when pages `i .. i + k - 1` are non-empty and page `i + k` is empty
      or fails, `k + 1` turns from an idle iterator that holds no error collect exactly those pages in order,
      step the index past the ending page, and end CONSUMED, with the ending page's error if it failed. */
  lemma {:induction false} RoundsConsume<T>(s: Snapshot<T>, fn: int -> Response<seq<T>>, k: nat)
    requires Inv(s) && s.state == IDLE && s.error.None?
    requires forall q :: s.index <= q < s.index + k ==> NonEmptyPage(fn(q))
    requires fn(s.index + k) == Success([]) || fn(s.index + k).Error?
    ensures ViewOf(Rounds(s, fn, k + 1))
         == View(s.list + Pages(fn, s.index, k), s.index + k + 1, CONSUMED, EndError(fn(s.index + k)))
    ensures Inv(Rounds(s, fn, k + 1))
    decreases k
  {
    var t := Round(s, fn);
    if k == 0 {
      RoundOnLastPage(s, fn);
      assert Rounds(s, fn, 1) == t;
      assert s.list + Pages(fn, s.index, 0) == s.list;
    } else {
      assert NonEmptyPage(fn(s.index));
      RoundOnNonEmptyPage(s, fn);
      RoundsConsume(t, fn, k - 1);
      assert Rounds(s, fn, k + 1) == Rounds(t, fn, k);
      assert Pages(fn, s.index, k) == fn(s.index).data + Pages(fn, s.index + 1, k - 1);
      assert s.list + Pages(fn, s.index, k) == t.list + Pages(fn, t.index, k - 1);
    }
  }

  /** A CONSUMED iterator stays as it is, however many more turns the UI takes. */
  lemma {:induction false} ConsumedIsTerminal<T>(s: Snapshot<T>, fn: int -> Response<seq<T>>, n: nat)
    requires Inv(s) && s.state == CONSUMED
    ensures Rounds(s, fn, n) == s
    decreases n
  {
    if n > 0 {
      assert Round(s, fn) == s;
      ConsumedIsTerminal(s, fn, n - 1);
    }
  }

  class FetchIteratorState<T> {
    var list: seq<T>
    var index: int
    var job: Option<nat>
    var jobActive: bool
    var jobsLaunched: nat
    var state: IteratorState
    var error: Option<string>
    /** The page function: the page that `fn(index)` answers. */
    var fn: int -> Response<seq<T>>

    function Fields(): Snapshot<T>
      reads this
    {
      Snapshot(list, index, state, error, job, jobActive, jobsLaunched)
    }

    predicate Valid()
      reads this
    {
      Inv(Fields())
    }

    constructor (list: seq<T>, fn: int -> Response<seq<T>>)
      ensures Valid() && Fields() == Initial(list) && this.fn == fn
    {
      this.list := list;
      this.fn := fn;
      index := 0;
      job := None;
      jobActive := false;
      jobsLaunched := 0;
      state := IDLE;
      error := None;
    }

    method Reset()
      requires Valid()
      modifies this
      ensures Valid() && Fields() == ResetStep(old(Fields())) && fn == old(fn)
    {
      jobActive := false;
      list := [];
      index := 0;
      state := IDLE;
      error := None;
    }

    method ReloadFailedLastLoad()
      requires Valid()
      modifies this
      ensures Valid() && Fields() == ReloadStep(old(Fields())) && fn == old(fn)
    {
      if error == None {
        return;
      }
      jobActive := false;
      index := CoerceAtLeast(index - 1, 0);
      state := IDLE;
      error := None;
      FetchNext();
    }

    method FetchNext()
      requires Valid()
      modifies this
      ensures Valid() && Fields() == FetchNextStep(old(Fields())) && fn == old(fn)
    {
      if state != IDLE {
        return;
      }
      state := LOADING;
      job := Some(jobsLaunched);
      jobActive := true;
      jobsLaunched := jobsLaunched + 1;
    }

    /** The body of job `j`: it calls the page function for the current page, and applies the answer only if
        `j` has not been cancelled in the meantime. */
    method Complete(j: nat)
      requires Valid()
      modifies this
      ensures Valid() && Fields() == CompleteStep(old(Fields()), j, old(fn)(old(index))) && fn == old(fn)
    {
      var res := fn(index);
      if !(job == Some(j) && jobActive) {
        return;
      }
      match res {
        case Success(data) =>
          list := list + data;
          state := if |data| == 0 then CONSUMED else IDLE;
        case Error(message, _) =>
          error := Some(message);
          state := CONSUMED;
      }
      index := index + 1;
      jobActive := false;
    }

    method SetFunction(fn: int -> Response<seq<T>>)
      requires Valid()
      modifies this
      ensures Valid() && Fields() == old(Fields()) && this.fn == fn
    {
      this.fn := fn;
    }
  }
}
