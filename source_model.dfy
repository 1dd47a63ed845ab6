/** What the site adapters share: the metadata they produce, `PagedList`, the URL builder calls they make,
    and fetched pages as plain data. A page is never parsed here: a `Document` holds what the adapter's
    selectors pick out of it (listing entries, the pagination control, chapter links, the description). */
module SourceModel {
  import opened Wrappers
  import opened Text
  import Scraper

  /** Kotlin's `Int`. */
  newtype int32 = x: int | -0x8000_0000 <= x < 0x8000_0000

  const IntMax: int32 := 0x7FFF_FFFF
  const IntMin: int32 := -0x8000_0000

  /** `val page = index + 1`, with Kotlin's wrap-around at `Int.MAX_VALUE`. */
  function PageOf(index: int32): (page: int32)
    ensures index != IntMax ==> page as int == index as int + 1
    ensures index == IntMax ==> page == IntMin
  {
    if index == IntMax then IntMin else index + 1
  }

  /** The wire page is the first one exactly for index 0, and different indices ask for different pages. */
  lemma PageOfFirstAndInjective(index: int32, other: int32)
    ensures PageOf(index) == 1 <==> index == 0
    ensures PageOf(index) == PageOf(other) ==> index == other
  {
  }

  datatype BookMetadata = BookMetadata(title: string, url: string, coverImageUrl: string)

  datatype ChapterMetadata = ChapterMetadata(title: string, url: string)

  datatype PagedList<T> = PagedList(list: seq<T>, index: int32, isLastPage: bool)

  /** `PagedList.createEmpty(index)`: no items, and nothing after it. */
  function CreateEmpty<T>(index: int32): (p: PagedList<T>)
    ensures p.list == [] && p.index == index && p.isLastPage
  {
    PagedList([], index, true)
  }

  /** A URL under construction: a base string, the path segments added to it and the query pairs added to
      it, in the order they were added. */
  datatype Url = Url(base: string, path: seq<string>, query: seq<(string, string)>)

  /** `toUrlBuilderSafe()` (and `toUrlBuilder()` when it succeeds). */
  function ToUrlBuilder(s: string): Url {
    Url(s, [], [])
  }

  /** `addPath(segments...)`. */
  function AddPath(u: Url, segments: seq<string>): (r: Url)
    ensures r.base == u.base && r.path == u.path + segments && r.query == u.query
  {
    u.(path := u.path + segments)
  }

  /** `add(pairs...)`: query pairs are appended, order kept, repeats allowed. */
  function Add(u: Url, pairs: seq<(string, string)>): (r: Url)
    ensures r.base == u.base && r.path == u.path && r.query == u.query + pairs
  {
    u.(query := u.query + pairs)
  }

  /** `ifCase(condition) { block }`. */
  function IfCase(u: Url, condition: bool, block: Url -> Url): Url {
    if condition then block(u) else u
  }

  /** What an HTTP request is sent to: a built URL as text followed by `suffix`, or a string used as it is. */
  datatype Target = Built(url: Url, suffix: string) | Literal(text: string)

  datatype Request = Get(target: Target) | Post(target: Target)

  /** A child element of a pagination control: its tag name and its classes. */
  datatype Child = Child(tag: string, classes: set<string>)

  /** A link element: its text, its attributes, and the `src` of the first `img[src]` inside it. */
  datatype Anchor = Anchor(text: string, attributes: map<string, string>, image: Option<string>)

  /** jsoup's `attr(name)`: the empty string when the attribute is absent. */
  function Attr(a: Anchor, name: string): (v: string)
    ensures name in a.attributes ==> v == a.attributes[name]
    ensures name !in a.attributes ==> v == ""
  {
    if name in a.attributes then a.attributes[name] else ""
  }

  /** One listing entry: the adapter's link inside it, if any, and the `src` of its cover image, if any. */
  datatype Entry = Entry(link: Option<Anchor>, image: Option<string>)

  /** A fetched page, reduced to what the adapter's selectors find in it. */
  datatype Document = Document(entries: seq<Entry>, pagination: Option<seq<Child>>, chapterLinks: seq<Anchor>,
                               description: Option<string>)

  /** The book a listing link stands for; a missing cover is the empty string. */
  function BookOf(link: Anchor, titleAttribute: string, cover: Option<string>): BookMetadata {
    BookMetadata(Attr(link, titleAttribute), Attr(link, "href"), cover.GetOr(""))
  }

  /** Kotlin's `mapNotNull`: the values `f` gives, in order, skipping the nulls. */
  function MapNotNull<A, B(!new)>(xs: seq<A>, f: A -> Option<B>): (r: seq<B>)
    ensures |r| <= |xs|
    ensures forall y :: y in r <==> exists i :: 0 <= i < |xs| && f(xs[i]) == Some(y)
    decreases |xs|
  {
    if xs == [] then []
    else
      var rest := MapNotNull(xs[1..], f);
      assert forall i :: 1 <= i < |xs| ==> xs[i] == xs[1..][i - 1];
      Kept(f(xs[0])) + rest
  }

  /** What `mapNotNull` keeps of one element: its value, or nothing for a null. */
  function Kept<B>(o: Option<B>): seq<B> {
    if o.Some? then [o.value] else []
  }

  /** `mapNotNull` works piece by piece, so it keeps the order of what it keeps. */
  lemma {:induction false} MapNotNullAppend<A, B(!new)>(xs: seq<A>, ys: seq<A>, f: A -> Option<B>)
    ensures MapNotNull(xs + ys, f) == MapNotNull(xs, f) + MapNotNull(ys, f)
    decreases |xs|
  {
    if xs != [] {
      var zs := xs + ys;
      assert zs[0] == xs[0] && zs[1..] == xs[1..] + ys;
      MapNotNullAppend(xs[1..], ys, f);
      assert MapNotNull(zs, f) == Kept(f(xs[0])) + MapNotNull(zs[1..], f);
    } else {
      assert xs + ys == ys;
    }
  }

  /** When `f` keeps nothing (every entry lacks a link), nothing is listed. */
  lemma MapNotNullNone<A, B(!new)>(xs: seq<A>, f: A -> Option<B>)
    requires forall i :: 0 <= i < |xs| ==> f(xs[i]).None?
    ensures MapNotNull(xs, f) == []
  {
  }

  /** Whether a listing entry holds the adapter's link. */
  predicate HasLink(e: Entry) {
    e.link.Some?
  }

  /** Where an adapter looks for a book's cover: in the whole entry, or inside its link. */
  datatype CoverSource = InEntry | InLink

  /** The book a linked entry stands for, titled by `titleAttribute`, with its cover found as `from` says. */
  function LinkedBook(e: Entry, titleAttribute: string, from: CoverSource): BookMetadata
    requires HasLink(e)
  {
    BookOf(e.link.value, titleAttribute, if from == InEntry then e.image else e.link.value.image)
  }

  /** The books of entries that all hold a link, one per entry, in order. */
  function Books(linked: seq<Entry>, titleAttribute: string, from: CoverSource): seq<BookMetadata>
    requires forall k :: 0 <= k < |linked| ==> HasLink(linked[k])
  {
    seq(|linked|, k requires 0 <= k < |linked| => LinkedBook(linked[k], titleAttribute, from))
  }

  /** A reading of a listing page that does not go through `mapNotNull`: keep the entries that hold a link, in
      their order, and make each into its book. */
  function LinkedBooks(entries: seq<Entry>, titleAttribute: string, from: CoverSource): seq<BookMetadata> {
    Books(Scraper.Filter(entries, HasLink), titleAttribute, from)
  }

  lemma BooksCons(e: Entry, linked: seq<Entry>, titleAttribute: string, from: CoverSource)
    requires HasLink(e) && forall k :: 0 <= k < |linked| ==> HasLink(linked[k])
    ensures Books([e] + linked, titleAttribute, from)
         == [LinkedBook(e, titleAttribute, from)] + Books(linked, titleAttribute, from)
  {
    var a := Books([e] + linked, titleAttribute, from);
    var b := [LinkedBook(e, titleAttribute, from)] + Books(linked, titleAttribute, from);
    forall k | 0 <= k < |a| ensures a[k] == b[k] {
      if k > 0 {
        assert ([e] + linked)[k] == linked[k - 1];
      }
    }
  }

  /** An adapter's `mapNotNull` over its entries gives exactly that listing, when its per-entry rule drops the
      entries without a link and otherwise makes the linked book. */
  lemma {:induction false} ListingIsLinkedBooks(entries: seq<Entry>, toBook: Entry -> Option<BookMetadata>,
                                                titleAttribute: string, from: CoverSource)
    requires forall e :: toBook(e).Some? <==> HasLink(e)
    requires forall e :: HasLink(e) ==> toBook(e) == Some(LinkedBook(e, titleAttribute, from))
    ensures MapNotNull(entries, toBook) == LinkedBooks(entries, titleAttribute, from)
    decreases |entries|
  {
    if entries != [] {
      var e, rest := entries[0], entries[1..];
      ListingIsLinkedBooks(rest, toBook, titleAttribute, from);
      assert MapNotNull(entries, toBook) == Kept(toBook(e)) + MapNotNull(rest, toBook);
      var linked := Scraper.Filter(rest, HasLink);
      if HasLink(e) {
        assert Kept(toBook(e)) == [LinkedBook(e, titleAttribute, from)];
        assert Scraper.Filter(entries, HasLink) == [e] + linked;
        BooksCons(e, linked, titleAttribute, from);
      } else {
        assert Kept(toBook(e)) == [];
        assert Scraper.Filter(entries, HasLink) == linked;
      }
    }
  }

  /** Kotlin's `reversed()`: element `k` of the result is element `|s| - 1 - k` of the input. */
  function Reverse<T>(s: seq<T>): (r: seq<T>)
    ensures |r| == |s|
    ensures forall k :: 0 <= k < |s| ==> r[k] == s[|s| - 1 - k]
    decreases |s|
  {
    if s == [] then []
    else
      var r := Reverse(s[1..]) + [s[0]];
      assert forall k :: 0 <= k < |s| - 1 ==> r[k] == s[1..][|s| - 2 - k];
      r
  }

  lemma ReverseInvolution<T>(s: seq<T>)
    ensures Reverse(Reverse(s)) == s
  {
  }

  /** A chapter link's chapter: its text and its `href`. */
  function ChapterOf(a: Anchor): ChapterMetadata {
    ChapterMetadata(a.text, Attr(a, "href"))
  }

  /** `map { ChapterMetadata(it.text(), it.attr("href")) }`: one chapter per link, in the site's order. */
  function Chapters(links: seq<Anchor>): seq<ChapterMetadata> {
    seq(|links|, i requires 0 <= i < |links| => ChapterOf(links[i]))
  }

  /** `chapters` holds one chapter per link, the site's last link first. */
  predicate InReverseSiteOrder(chapters: seq<ChapterMetadata>, links: seq<Anchor>) {
    && |chapters| == |links|
    && forall k :: 0 <= k < |links| ==> chapters[k] == ChapterOf(links[|links| - 1 - k])
  }

  /** Every adapter's chapter pipeline: the chapters of the links, then `reversed()`; a site that lists newest
      first yields oldest first. */
  function ChapterList(links: seq<Anchor>): (r: seq<ChapterMetadata>)
    ensures InReverseSiteOrder(r, links)
  {
    Reverse(Chapters(links))
  }

  /** A site listing that is already oldest first, reversed, gives back that order exactly. */
  lemma ChapterListOfReversed(links: seq<Anchor>)
    ensures ChapterList(Reverse(links)) == Chapters(links)
  {
    var m := Chapters(links);
    var mr := Chapters(Reverse(links));
    assert mr == Reverse(m);
    ReverseInvolution(m);
  }
}
