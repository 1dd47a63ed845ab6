/** The MTLNovel source adapter (scraper/sources/MTLNovel.kt). Each operation is the request it sends,
    given as a function of its arguments, and what it makes of the server's answer; the network is the
    parameter `server`, so an operation that sends no request is one whose result does not depend on it. */
module MTLNovel {
  import opened Wrappers
  import opened Text
  import opened Responses
  import opened NetworkErrors
  import opened SourceModel
  import Scraper

  const Id := "mtlnovel"
  const BaseUrl := "https://www.mtlnovel.com/"
  const CatalogUrl := "https://www.mtlnovel.com/alltime-rank/"
  const SearchEndpoint := "https://www.mtlnovel.com/wp-admin/admin-ajax.php"

  const Info := Scraper.Source(Id, BaseUrl, Some(CatalogUrl), Scraper.Catalog, Some(Scraper.English))

  /** `getChapterTitle`: this site offers no chapter title. */
  function GetChapterTitle(doc: Document): Option<string> {
    None
  }

  /** `getBookDescription`: the book page's `.desc` text, or null when it has none. The text extraction
      itself is foreign; `doc.description` stands for its result. */
  function GetBookDescription(bookUrl: string, server: Request -> Outcome<Document>): (r: Response<Option<string>>)
    ensures var got := server(Get(Literal(bookUrl)));
      && (got.Returned? ==> r == Success(got.value.description))
      && (got.Threw? ==> r == Error(ErrorMessage("", got.exception), got.exception))
  {
    TryConnect("", MapOutcome(server(Get(Literal(bookUrl))), (d: Document) => d.description))
  }

  /** The chapter index is `bookUrl` plus the segment "chapter-list" and a closing "/". */
  function ChapterListRequest(bookUrl: string): Request {
    Get(Built(AddPath(ToUrlBuilder(bookUrl), ["chapter-list"]), "/"))
  }

  /** `getChapterList`: the chapter index page's links, last one first; a failed fetch is the classified error. */
  function GetChapterList(bookUrl: string, server: Request -> Outcome<Document>): (r: Response<seq<ChapterMetadata>>)
    ensures var got := server(Get(Built(Url(bookUrl, ["chapter-list"], []), "/")));
      && (got.Returned? ==> r.Success? && InReverseSiteOrder(r.data, got.value.chapterLinks))
      && (got.Threw? ==> r == Error(ErrorMessage("", got.exception), got.exception))
  {
    assert [] + ["chapter-list"] == ["chapter-list"];
    TryConnect("", MapOutcome(server(ChapterListRequest(bookUrl)), (d: Document) => ChapterList(d.chapterLinks)))
  }

  /** The catalog page `index + 1`: the catalog URL itself for page 1, then ".../page/<page>". */
  function CatalogListRequest(index: int32): Request {
    var page := PageOf(index);
    Get(Built(IfCase(ToUrlBuilder(CatalogUrl), page != 1, (u: Url) => AddPath(u, ["page", IntToString(page as int)])), ""))
  }

  /** The `div#pagination` rule: the last page unless the control exists and its last child is not a `span`. */
  function IsLastPage(pagination: Option<seq<Child>>): bool {
    match pagination
    case None => true
    case Some(children) => if children == [] then true else children[|children| - 1].tag == "span"
  }

  /** A `.box.wide` entry: dropped without an `a.list-title[href]` link; its title is the link's `aria-label`,
      its cover the first `amp-img[src]` of the entry, or "" when there is none. */
  function ToBook(e: Entry): Option<BookMetadata> {
    match e.link
    case None => None
    case Some(link) => Some(BookOf(link, "aria-label", e.image))
  }

  /** The books of a catalog page: exactly its entries that hold a link, in order, titled by `aria-label`. */
  function ListedBooks(entries: seq<Entry>): (books: seq<BookMetadata>)
    ensures books == LinkedBooks(entries, "aria-label", InEntry)
  {
    ListingIsLinkedBooks(entries, ToBook, "aria-label", InEntry);
    MapNotNull(entries, ToBook)
  }

  /** `getCatalogList`: a page that arrived is the listing of its linked entries, with its index and the
      pagination verdict; a failed fetch is the classified error. */
  function GetCatalogList(index: int32, server: Request -> Outcome<Document>): (r: Response<PagedList<BookMetadata>>)
    ensures var got := server(CatalogListRequest(index));
      && (got.Returned? ==>
            r == Success(PagedList(LinkedBooks(got.value.entries, "aria-label", InEntry), index,
                                   IsLastPage(got.value.pagination))))
      && (got.Threw? ==> r == Error(ErrorMessage("", got.exception), got.exception))
  {
    TryConnect("", MapOutcome(server(CatalogListRequest(index)),
      (d: Document) => PagedList(ListedBooks(d.entries), index, IsLastPage(d.pagination))))
  }

  /** The autosuggest query pairs, in the order they are added. */
  function SearchQuery(input: string): seq<(string, string)> {
    [("action", "autosuggest"), ("q", input), ("__amp_source_origin", "https://www.mtlnovel.com")]
  }

  /** The autosuggest request, sent only for a non-blank input on the first index. */
  function SearchRequest(index: int32, input: string): Option<Request> {
    if IsBlank(input) || index > 0 then None
    else Some(Get(Built(Add(ToUrlBuilder(SearchEndpoint), SearchQuery(input)), "")))
  }

  /** `getCatalogSearch`. The answer is JSON; `api` stands for the request together with the JSON decoding,
      which is foreign, and gives the books it lists. A blank input or a later index is answered with the
      empty page whatever `api` would say; any other search is one request to the autosuggest endpoint, and
      what it answers is a single, last page. */
  function GetCatalogSearch(index: int32, input: string, api: Request -> Outcome<seq<BookMetadata>>)
    : (r: Response<PagedList<BookMetadata>>)
    ensures IsBlank(input) || index > 0 ==> r == Success(CreateEmpty(index))
    ensures !IsBlank(input) && index <= 0 ==>
      var got := api(Get(Built(Url(SearchEndpoint, [], SearchQuery(input)), "")));
      && (got.Returned? ==> r == Success(PagedList(got.value, index, true)))
      && (got.Threw? ==> r == Error(ErrorMessage("", got.exception), got.exception))
    ensures r.Success? ==> r.data.index == index && r.data.isLastPage
  {
    assert [] + SearchQuery(input) == SearchQuery(input);
    match SearchRequest(index, input)
    case None => TryConnect("", Returned(CreateEmpty(index)))
    case Some(request) =>
      TryConnect("", MapOutcome(api(request), (books: seq<BookMetadata>) => PagedList(books, index, true)))
  }

  /** Page 1 is the catalog URL unchanged; every later page adds the segments "page" and its number. */
  lemma CatalogRequestUrl(index: int32)
    requires 0 <= index < IntMax
    ensures index == 0 ==> CatalogListRequest(index) == Get(Built(Url(CatalogUrl, [], []), ""))
    ensures index > 0 ==>
      CatalogListRequest(index) == Get(Built(Url(CatalogUrl, ["page", NatToString(index as int + 1)], []), ""))
  {
    var page := PageOf(index);
    if index > 0 {
      assert IntToString(page as int) == NatToString(index as int + 1);
      assert [] + ["page", NatToString(index as int + 1)] == ["page", NatToString(index as int + 1)];
    }
  }

  /** Different catalog indices ask for different URLs, so no page is requested for another. */
  lemma CatalogRequestInjective(i: int32, j: int32)
    requires CatalogListRequest(i) == CatalogListRequest(j)
    ensures i == j
  {
    var pi, pj := PageOf(i), PageOf(j);
    if pi != 1 && pj != 1 {
      var ui := AddPath(ToUrlBuilder(CatalogUrl), ["page", IntToString(pi as int)]);
      var uj := AddPath(ToUrlBuilder(CatalogUrl), ["page", IntToString(pj as int)]);
      assert ui.path[1] == uj.path[1];
      IntToStringInjective(pi as int, pj as int);
    }
    PageOfFirstAndInjective(i, j);
  }

  /** A book page without a `.desc` element succeeds with no description. */
  lemma DescriptionAbsent(bookUrl: string, server: Request -> Outcome<Document>)
    requires server(Get(Literal(bookUrl))).Returned? && server(Get(Literal(bookUrl))).value.description.None?
    ensures GetBookDescription(bookUrl, server) == Success(None)
  {
  }
}
