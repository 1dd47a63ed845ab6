/** The 1stKissNovel source adapter (scraper/sources/_1stKissNovel.kt). */
module FirstKissNovel {
  import opened Wrappers
  import opened Text
  import opened Responses
  import opened NetworkErrors
  import opened SourceModel
  import Scraper

  const Id := "1stkissnovel"
  const CatalogUrl := "https://1stkissnovel.love/novel/?m_orderby=alphabet"
  const BaseUrl := "https://1stkissnovel.love/"

  const Info := Scraper.Source(Id, BaseUrl, Some(CatalogUrl), Scraper.Catalog, Some(Scraper.English))

  /** The chapter index is fetched with a POST to `bookUrl` + "ajax" + "chapters". */
  function ChapterListRequest(bookUrl: string): Request {
    Post(Built(AddPath(ToUrlBuilder(bookUrl), ["ajax", "chapters"]), ""))
  }

  /** `getChapterList`: a POST to ".../ajax/chapters", whose links come out last one first; a failed fetch is
      the classified error. */
  function GetChapterList(bookUrl: string, server: Request -> Outcome<Document>): (r: Response<seq<ChapterMetadata>>)
    ensures var got := server(Post(Built(Url(bookUrl, ["ajax", "chapters"], []), "")));
      && (got.Returned? ==> r.Success? && InReverseSiteOrder(r.data, got.value.chapterLinks))
      && (got.Threw? ==> r == Error(ErrorMessage("", got.exception), got.exception))
  {
    assert [] + ["ajax", "chapters"] == ["ajax", "chapters"];
    TryConnect("", MapOutcome(server(ChapterListRequest(bookUrl)), (d: Document) => ChapterList(d.chapterLinks)))
  }

  /** Page 1 is the catalog URL string itself; a later page is `baseUrl` + "novel"/"page"/<page> with the
      query `m_orderby=alphabet`. */
  function CatalogListRequest(index: int32): Request {
    var page := PageOf(index);
    if page == 1 then Get(Literal(CatalogUrl))
    else Get(Built(Add(AddPath(ToUrlBuilder(BaseUrl), ["novel", "page", IntToString(page as int)]),
                       [("m_orderby", "alphabet")]), ""))
  }

  /** The `div.wp-pagenavi` rule, for catalog and search alike: the last page unless the control exists and
      has a last child without the class `current`. */
  function IsLastPage(pagination: Option<seq<Child>>): bool {
    match pagination
    case None => true
    case Some(children) => if children == [] then true else "current" in children[|children| - 1].classes
  }

  /** Entries without an `a[href]` link are dropped; the cover is the first `img[src]` inside the link
      itself, or "". */
  function ToBook(e: Entry): Option<BookMetadata> {
    match e.link
    case None => None
    case Some(link) => Some(BookOf(link, "title", link.image))
  }

  /** The books of a catalog or search page: exactly its entries that hold a link, in order, titled by `title`
      and with the cover found inside the link. */
  function ListedBooks(entries: seq<Entry>): (books: seq<BookMetadata>)
    ensures books == LinkedBooks(entries, "title", InLink)
  {
    ListingIsLinkedBooks(entries, ToBook, "title", InLink);
    MapNotNull(entries, ToBook)
  }

  function ParsePage(doc: Document, index: int32): PagedList<BookMetadata> {
    PagedList(ListedBooks(doc.entries), index, IsLastPage(doc.pagination))
  }

  /** `getCatalogList`: a page that arrived is the listing of its linked entries, with its index and the
      pagination verdict; a failed fetch is the classified error. */
  function GetCatalogList(index: int32, server: Request -> Outcome<Document>): (r: Response<PagedList<BookMetadata>>)
    ensures var got := server(CatalogListRequest(index));
      && (got.Returned? ==>
            r == Success(PagedList(LinkedBooks(got.value.entries, "title", InLink), index,
                                   IsLastPage(got.value.pagination))))
      && (got.Threw? ==> r == Error(ErrorMessage("", got.exception), got.exception))
  {
    TryConnect("", MapOutcome(server(CatalogListRequest(index)), (d: Document) => ParsePage(d, index)))
  }

  /** Search always sends a request: `baseUrl`, "page"/<page> unless page 1, then `s` and `post_type`. */
  function SearchRequest(index: int32, input: string): Request {
    var page := PageOf(index);
    var url := IfCase(ToUrlBuilder(BaseUrl), page != 1, (u: Url) => AddPath(u, ["page", IntToString(page as int)]));
    Get(Built(Add(Add(url, [("s", input)]), [("post_type", "wp-manga")]), ""))
  }

  /** `getCatalogSearch`: no short cut; the answer to the request is read like a catalog page, pagination
      included, and a failed fetch is the classified error. */
  function GetCatalogSearch(index: int32, input: string, server: Request -> Outcome<Document>)
    : (r: Response<PagedList<BookMetadata>>)
    ensures var got := server(SearchRequest(index, input));
      && (got.Returned? ==>
            r == Success(PagedList(LinkedBooks(got.value.entries, "title", InLink), index,
                                   IsLastPage(got.value.pagination))))
      && (got.Threw? ==> r == Error(ErrorMessage("", got.exception), got.exception))
  {
    TryConnect("", MapOutcome(server(SearchRequest(index, input)), (d: Document) => ParsePage(d, index)))
  }

  /** Page 1 is exactly the catalog URL; later pages are built from the base URL. */
  lemma CatalogRequestUrl(index: int32)
    requires 0 <= index < IntMax
    ensures index == 0 ==> CatalogListRequest(index) == Get(Literal(CatalogUrl))
    ensures index > 0 ==>
      CatalogListRequest(index)
      == Get(Built(Url(BaseUrl, ["novel", "page", NatToString(index as int + 1)], [("m_orderby", "alphabet")]), ""))
  {
    if index > 0 {
      assert IntToString(PageOf(index) as int) == NatToString(index as int + 1);
      assert [] + ["novel", "page", NatToString(index as int + 1)] == ["novel", "page", NatToString(index as int + 1)];
      assert [] + [("m_orderby", "alphabet")] == [("m_orderby", "alphabet")];
    }
  }

  /** Search has no short cut: every index and every input, blank too, is sent to the site, with `s` before
      `post_type` and a page segment only after page 1. */
  lemma SearchRequestShape(index: int32, input: string)
    requires 0 <= index < IntMax
    ensures index == 0 ==>
      SearchRequest(index, input) == Get(Built(Url(BaseUrl, [], [("s", input), ("post_type", "wp-manga")]), ""))
    ensures index > 0 ==>
      SearchRequest(index, input)
      == Get(Built(Url(BaseUrl, ["page", NatToString(index as int + 1)], [("s", input), ("post_type", "wp-manga")]), ""))
  {
    assert [] + [("s", input)] + [("post_type", "wp-manga")] == [("s", input), ("post_type", "wp-manga")];
    if index > 0 {
      assert IntToString(PageOf(index) as int) == NatToString(index as int + 1);
      assert [] + ["page", NatToString(index as int + 1)] == ["page", NatToString(index as int + 1)];
    }
  }

  /** Catalog and search pages end by the same `div.wp-pagenavi` rule and list the same way. */
  lemma CatalogAndSearchParseAlike(index: int32, input: string, server: Request -> Outcome<Document>)
    requires server(SearchRequest(index, input)) == server(CatalogListRequest(index))
    ensures GetCatalogSearch(index, input, server) == GetCatalogList(index, server)
  {
  }
}
