/** The BestLightNovel source adapter (scraper/sources/BestLightNovel.kt). Unlike the others, its listing
    parse `parseToBooks` may throw, and its callers use `tryFlatConnect`. */
module BestLightNovel {
  import opened Wrappers
  import opened Text
  import opened Responses
  import opened NetworkErrors
  import opened SourceModel
  import Scraper

  const Id := "best_light_novel"
  const BaseUrl := "https://bestlightnovel.com/"
  const CatalogUrl := "https://bestlightnovel.com/novel_list"

  const Info := Scraper.Source(Id, BaseUrl, Some(CatalogUrl), Scraper.Catalog, Some(Scraper.English))

  /** What Kotlin's `List.first()` throws on an empty list: a `NoSuchElementException`, not a timeout.
      Its stack frames are not modelled; its trace is its first line. */
  const EmptyListException := Exception(false, Some("List is empty."), "java.util.NoSuchElementException: List is empty.")

  /** `getChapterTitle`: this site offers no chapter title. */
  function GetChapterTitle(doc: Document): Option<string> {
    None
  }

  /** The chapter index is the book page itself, fetched with `bookUrl` as it is. */
  function ChapterListRequest(bookUrl: string): Request {
    Get(Literal(bookUrl))
  }

  /** `getChapterList`: the book page's chapter links, last one first; a failed fetch is the classified error. */
  function GetChapterList(bookUrl: string, server: Request -> Outcome<Document>): (r: Response<seq<ChapterMetadata>>)
    ensures var got := server(Get(Literal(bookUrl)));
      && (got.Returned? ==> r.Success? && InReverseSiteOrder(r.data, got.value.chapterLinks))
      && (got.Threw? ==> r == Error(ErrorMessage("", got.exception), got.exception))
  {
    TryConnect("", MapOutcome(server(ChapterListRequest(bookUrl)), (d: Document) => ChapterList(d.chapterLinks)))
  }

  /** The `div.phan-trang` rule: `children().takeLast(2).first()` is the next-to-last child, or the only one;
      the page is the last one when that child has the class `pageselect` (or the control is absent). With no
      children at all `first()` throws. */
  function IsLastPage(pagination: Option<seq<Child>>): (r: Outcome<bool>)
    ensures pagination.None? ==> r == Returned(true)
    ensures pagination.Some? && pagination.value == [] ==> r == Threw(EmptyListException)
    ensures pagination.Some? && |pagination.value| == 1 ==>
      r == Returned("pageselect" in pagination.value[0].classes)
    ensures pagination.Some? && |pagination.value| >= 2 ==>
      r == Returned("pageselect" in pagination.value[|pagination.value| - 2].classes)
  {
    match pagination
    case None => Returned(true)
    case Some(children) =>
      var lastTwo := if |children| <= 2 then children else children[|children| - 2..];
      if lastTwo == [] then Threw(EmptyListException) else Returned("pageselect" in lastTwo[0].classes)
  }

  /** An `.update_item.list_category` entry: dropped without an `a[href]` link; titled by the link's `title`;
      its cover the first `img[src]` of the entry, or "". */
  function ToBook(e: Entry): Option<BookMetadata> {
    match e.link
    case None => None
    case Some(link) => Some(BookOf(link, "title", e.image))
  }

  /** The books of a catalog or search page: exactly its entries that hold a link, in order, titled by `title`. */
  function ListedBooks(entries: seq<Entry>): (books: seq<BookMetadata>)
    ensures books == LinkedBooks(entries, "title", InEntry)
  {
    ListingIsLinkedBooks(entries, ToBook, "title", InEntry);
    MapNotNull(entries, ToBook)
  }

  /** `parseToBooks`: a pagination control without children makes it throw; any other page is a success that
      lists the linked entries, with the verdict of the pagination rule. */
  function ParseToBooks(doc: Document, index: int32): (r: Outcome<Response<PagedList<BookMetadata>>>)
    ensures doc.pagination == Some([]) ==> r == Threw(EmptyListException)
    ensures doc.pagination != Some([]) ==>
      && IsLastPage(doc.pagination).Returned?
      && r == Returned(Success(PagedList(LinkedBooks(doc.entries, "title", InEntry), index,
                                         IsLastPage(doc.pagination).value)))
  {
    var books := ListedBooks(doc.entries);
    MapOutcome(IsLastPage(doc.pagination), (last: bool) => Success(PagedList(books, index, last)))
  }

  /** The query of a later catalog page: `type`, `category`, `state` and `page`, added in that order. */
  function NewestPage(u: Url, page: int32): Url {
    Add(Add(Add(Add(u, [("type", "newest")]), [("category", "all")]), [("state", "all")]),
        [("page", IntToString(page as int))])
  }

  /** Page 1 is the catalog URL; a later page carries the `NewestPage` query. */
  function CatalogListRequest(index: int32): Request {
    var page := PageOf(index);
    Get(Built(IfCase(ToUrlBuilder(CatalogUrl), page != 1, (u: Url) => NewestPage(u, page)), ""))
  }

  /** What `tryFlatConnect { parseToBooks(get(url)) }` makes of the server's answer: a failed fetch and a
      childless pagination control are both classified errors; any other page is its listing. */
  predicate FetchedListing(r: Response<PagedList<BookMetadata>>, got: Outcome<Document>, index: int32) {
    && (got.Threw? ==> r == Error(ErrorMessage("", got.exception), got.exception))
    && (got.Returned? && got.value.pagination == Some([]) ==>
          r == Error(ErrorMessage("", EmptyListException), EmptyListException))
    && (got.Returned? && got.value.pagination != Some([]) ==>
          r == Success(PagedList(LinkedBooks(got.value.entries, "title", InEntry), index,
                                 IsLastPage(got.value.pagination).value)))
  }

  /** `getCatalogList`: the catalog page's listing, or the classified error of the fetch or of the parse. */
  function GetCatalogList(index: int32, server: Request -> Outcome<Document>): (r: Response<PagedList<BookMetadata>>)
    ensures FetchedListing(r, server(CatalogListRequest(index)), index)
  {
    TryFlatConnect("", BindOutcome(server(CatalogListRequest(index)), (d: Document) => ParseToBooks(d, index)))
  }

  /** The search URL: `baseUrl` + "search_novels" + the input with every space made "_", and the query `page`
      after page 1. */
  function SearchRequest(index: int32, input: string): Request {
    var page := PageOf(index);
    var url := AddPath(ToUrlBuilder(BaseUrl), ["search_novels", ReplaceChar(input, ' ', '_')]);
    Get(Built(IfCase(url, page != 1, (u: Url) => Add(u, [("page", IntToString(page as int))])), ""))
  }

  /** `getCatalogSearch`: a blank input is answered with the empty page at any index, whatever `server` would
      say and outside `tryFlatConnect`; any other input is fetched and read like a catalog page. */
  function GetCatalogSearch(index: int32, input: string, server: Request -> Outcome<Document>)
    : (r: Response<PagedList<BookMetadata>>)
    ensures IsBlank(input) ==> r == Success(CreateEmpty(index))
    ensures !IsBlank(input) ==> FetchedListing(r, server(SearchRequest(index, input)), index)
  {
    if IsBlank(input) then Success(CreateEmpty(index))
    else TryFlatConnect("", BindOutcome(server(SearchRequest(index, input)), (d: Document) => ParseToBooks(d, index)))
  }

  /** A pagination control without children turns a page that arrived into an "Unknown error", not a page:
      `first()` throws a `NoSuchElementException`, which is no timeout. */
  lemma EmptyPaginationFails(index: int32, server: Request -> Outcome<Document>)
    requires server(CatalogListRequest(index)).Returned?
    requires server(CatalogListRequest(index)).value.pagination == Some([])
    ensures GetCatalogList(index, server) == Error(UnknownMessage("", EmptyListException), EmptyListException)
    ensures StartsWith(GetCatalogList(index, server).message, "Unknown error.")
  {
    TimeoutClassification("", EmptyListException);
  }

  /** Any other search is sent, with the spaces of the input made underscores, and the page as a query only
      after page 1. */
  lemma SearchShape(index: int32, input: string)
    requires 0 <= index < IntMax
    ensures var path := ["search_novels", ReplaceChar(input, ' ', '_')];
      && (index == 0 ==> SearchRequest(index, input) == Get(Built(Url(BaseUrl, path, []), "")))
      && (index > 0 ==>
            SearchRequest(index, input) == Get(Built(Url(BaseUrl, path, [("page", NatToString(index as int + 1))]), "")))
    ensures forall i :: 0 <= i < |SearchRequest(index, input).target.url.path[1]| ==>
      SearchRequest(index, input).target.url.path[1][i] != ' '
  {
    var path := ["search_novels", ReplaceChar(input, ' ', '_')];
    assert [] + path == path;
    if index > 0 {
      assert IntToString(PageOf(index) as int) == NatToString(index as int + 1);
      assert [] + [("page", NatToString(index as int + 1))] == [("page", NatToString(index as int + 1))];
    }
  }

  /** Page 1 of the catalog is the catalog URL; later pages add the four query pairs in order. */
  lemma CatalogRequestUrl(index: int32)
    requires 0 <= index < IntMax
    ensures index == 0 ==> CatalogListRequest(index) == Get(Built(Url(CatalogUrl, [], []), ""))
    ensures index > 0 ==>
      CatalogListRequest(index)
      == Get(Built(Url(CatalogUrl, [], [("type", "newest"), ("category", "all"), ("state", "all"),
                                        ("page", NatToString(index as int + 1))]), ""))
  {
    if index > 0 {
      var p := NatToString(index as int + 1);
      assert IntToString(PageOf(index) as int) == p;
      var u0 := ToUrlBuilder(CatalogUrl);
      var u1 := Add(u0, [("type", "newest")]);
      assert u1.query == [("type", "newest")];
      var u2 := Add(u1, [("category", "all")]);
      assert u2.query == [("type", "newest"), ("category", "all")];
      var u3 := Add(u2, [("state", "all")]);
      assert u3.query == [("type", "newest"), ("category", "all"), ("state", "all")];
      var u4 := Add(u3, [("page", p)]);
      assert u4 == Url(CatalogUrl, [], [("type", "newest"), ("category", "all"), ("state", "all"), ("page", p)]);
    }
  }
}
