/** The WuxiaWorld source adapter (scraper/sources/WuxiaWorld.kt), in the same form as the MTLNovel one:
    the request each operation sends and what it makes of the answer `server` gives. */
module WuxiaWorld {
  import opened Wrappers
  import opened Text
  import opened Responses
  import opened NetworkErrors
  import opened SourceModel
  import Scraper

  const Id := "wuxia_world"
  const BaseUrl := "https://wuxiaworld.site/"
  /** Declared, but the catalog listing below builds its own URL and does not use it. */
  const CatalogUrl := "https://wuxiaworld.site/novel/?m_orderby=trending"

  const Info := Scraper.Source(Id, BaseUrl, Some(CatalogUrl), Scraper.Catalog, Some(Scraper.English))

  /** The chapter index is fetched with a POST to `bookUrl` + "ajax" + "chapters". */
  function ChapterListRequest(bookUrl: string): Request {
    Post(Built(AddPath(AddPath(ToUrlBuilder(bookUrl), ["ajax"]), ["chapters"]), ""))
  }

  /** `getChapterList`: a POST to ".../ajax/chapters", whose links come out last one first; a failed fetch is
      the classified error. */
  function GetChapterList(bookUrl: string, server: Request -> Outcome<Document>): (r: Response<seq<ChapterMetadata>>)
    ensures var got := server(Post(Built(Url(bookUrl, ["ajax", "chapters"], []), "")));
      && (got.Returned? ==> r.Success? && InReverseSiteOrder(r.data, got.value.chapterLinks))
      && (got.Threw? ==> r == Error(ErrorMessage("", got.exception), got.exception))
  {
    assert [] + ["ajax"] + ["chapters"] == ["ajax", "chapters"];
    TryConnect("", MapOutcome(server(ChapterListRequest(bookUrl)), (d: Document) => ChapterList(d.chapterLinks)))
  }

  /** The catalog page `index + 1`: `baseUrl` + "novel", then "page" and the number unless it is page 1, then
      the query `m_orderby=alphabet`. */
  function CatalogListRequest(index: int32): Request {
    var page := PageOf(index);
    var url := IfCase(AddPath(ToUrlBuilder(BaseUrl), ["novel"]), page != 1,
                      (u: Url) => AddPath(u, ["page", IntToString(page as int)]));
    Get(Built(Add(url, [("m_orderby", "alphabet")]), ""))
  }

  /** The last page is the one without a `div.nav-previous.float-left` element; the model's `pagination`
      field of a WuxiaWorld page stands for that element. */
  function IsLastPage(navPrevious: Option<seq<Child>>): bool {
    navPrevious.None?
  }

  /** A `.page-item-detail` (catalog) or `.c-tabs-item__content` (search) entry: dropped without an
      `a[href]` link; titled by the link's `title`; its cover the first `img[src]` of the entry, or "". */
  function ToBook(e: Entry): Option<BookMetadata> {
    match e.link
    case None => None
    case Some(link) => Some(BookOf(link, "title", e.image))
  }

  /** The books of a catalog or search page: exactly its entries that hold a link, in order, titled by `title`. */
  function ListedBooks(entries: seq<Entry>): (books: seq<BookMetadata>)
    ensures books == LinkedBooks(entries, "title", InEntry)
  {
    ListingIsLinkedBooks(entries, ToBook, "title", InEntry);
    MapNotNull(entries, ToBook)
  }

  /** `getCatalogList`: a page that arrived is the listing of its linked entries, the last page exactly when it
      has no "previous" navigation; a failed fetch is the classified error. */
  function GetCatalogList(index: int32, server: Request -> Outcome<Document>): (r: Response<PagedList<BookMetadata>>)
    ensures var got := server(CatalogListRequest(index));
      && (got.Returned? ==>
            r == Success(PagedList(LinkedBooks(got.value.entries, "title", InEntry), index,
                                   got.value.pagination.None?)))
      && (got.Threw? ==> r == Error(ErrorMessage("", got.exception), got.exception))
  {
    TryConnect("", MapOutcome(server(CatalogListRequest(index)),
      (d: Document) => PagedList(ListedBooks(d.entries), index, IsLastPage(d.pagination))))
  }

  /** The search query pairs, in the order they are added. */
  function SearchQuery(input: string): seq<(string, string)> {
    [("s", input), ("post_type", "wp-manga"), ("op", ""), ("author", ""), ("artist", ""), ("release", ""),
     ("adult", "")]
  }

  /** The search request: only for page 1 (any index but 0 sends nothing), and for any input, blank too. */
  function SearchRequest(index: int32, input: string): Option<Request> {
    var page := PageOf(index);
    if page != 1 then None
    else
      var url := IfCase(ToUrlBuilder(BaseUrl), page > 1, (u: Url) => AddPath(u, ["page", IntToString(page as int)]));
      Some(Get(Built(Add(url, SearchQuery(input)), "")))
  }

  /** `getCatalogSearch`: any index but 0 is answered with the empty page whatever `server` would say; index 0
      sends one request, for any input, blank too, to the base URL with the seven query pairs and no page
      segment, and is a single, last page of the linked entries. */
  function GetCatalogSearch(index: int32, input: string, server: Request -> Outcome<Document>)
    : (r: Response<PagedList<BookMetadata>>)
    ensures index != 0 ==> r == Success(CreateEmpty(index))
    ensures index == 0 ==>
      var got := server(Get(Built(Url(BaseUrl, [], SearchQuery(input)), "")));
      && (got.Returned? ==> r == Success(PagedList(LinkedBooks(got.value.entries, "title", InEntry), index, true)))
      && (got.Threw? ==> r == Error(ErrorMessage("", got.exception), got.exception))
    ensures r.Success? ==> r.data.index == index && r.data.isLastPage
  {
    assert [] + SearchQuery(input) == SearchQuery(input);
    PageOfFirstAndInjective(index, 0);
    match SearchRequest(index, input)
    case None => TryConnect("", Returned(CreateEmpty(index)))
    case Some(request) =>
      TryConnect("", MapOutcome(server(request), (d: Document) => PagedList(ListedBooks(d.entries), index, true)))
  }

  /** The catalog URL never starts from the declared `catalogUrl`, and carries the page segments only after
      page 1. */
  lemma CatalogRequestUrl(index: int32)
    requires 0 <= index < IntMax
    ensures index == 0 ==>
      CatalogListRequest(index) == Get(Built(Url(BaseUrl, ["novel"], [("m_orderby", "alphabet")]), ""))
    ensures index > 0 ==>
      CatalogListRequest(index)
      == Get(Built(Url(BaseUrl, ["novel", "page", NatToString(index as int + 1)], [("m_orderby", "alphabet")]), ""))
    ensures CatalogListRequest(index).target.url.base != CatalogUrl
  {
    assert [] + ["novel"] == ["novel"];
    assert [] + [("m_orderby", "alphabet")] == [("m_orderby", "alphabet")];
    if index > 0 {
      assert IntToString(PageOf(index) as int) == NatToString(index as int + 1);
      assert ["novel"] + ["page", NatToString(index as int + 1)] == ["novel", "page", NatToString(index as int + 1)];
    }
  }
}
