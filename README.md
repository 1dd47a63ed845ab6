# A verified model of the NovelDokusha scraping core

NovelDokusha is an Android reader for web novels. It turns novel sites into catalogs, searches, chapter
lists and readable chapters. This project models the sequential core of its scraping layer in Dafny, and
proves what that core promises:

- **The paged fetch iterator** (`FetchIteratorState`) asks a page function for page 0, 1, 2, … and appends
  each answer to a list. It stops on an empty page or an error, and it can be reset or retried.
- **Network error classification** (`tryConnect`, `tryFlatConnect`, `specifyNetworkErrors`) turns a thrown
  exception into a `Response.Error`. The error carries a fixed multi-line message, which depends on whether
  the exception was a socket timeout.
- **The source registry lookup** (`Scraper`) finds the first registered source or database whose base URL
  a given URL lies under. It also lists the catalogs and their languages.
- **Four site adapters**: MTLNovel, WuxiaWorld, 1stKissNovel and BestLightNovel. For each one the model
  covers the URL it builds for a catalog page, a search and a chapter list; when it sends no request at all;
  how it reads a listing page (entries without links dropped, missing covers as ""); its last-page rule
  over the pagination control; and the reversal of the chapter list.
- **The load trigger** of the list and grid watchers decides when the UI asks the iterator for the next
  page.
- **The stored-URL check** `isValid` decides which book and chapter URLs are kept.

Conventions of the model:

- The network is a parameter `server: Request -> Outcome<Document>`. An adapter operation is the request it
  builds, together with what it makes of the server's answer or exception. "No request is sent" is stated
  as "the result does not depend on `server`".
- A fetched page is plain data: its listing entries (an optional link and an optional cover), its
  pagination control as `Option<seq<Child>>` (each child a tag and a set of classes), its chapter links and
  its description.
- The adapters' page index is a Kotlin `Int` (`int32`). Their page number `index + 1` wraps at
  `Int.MAX_VALUE` as the JVM does.
- The iterator is a class. Its methods are proved against step functions over a `Snapshot` of its fields.
  Launching and cancelling its coroutine are explicit events: `FetchNext` starts job `j`, and `Complete(j)`
  ends it.

The modules are `Wrappers`, `Text` (Kotlin string helpers), `Responses`, `NetworkErrors`, `FetchIterator`,
`SourceModel` (the data shared by the adapters), `Scraper`, `MTLNovel`, `WuxiaWorld`, `FirstKissNovel`,
`BestLightNovel`, `Adapters` (the four adapters compared), `ListLoadWatcher` and `Repository`.

## Model

| member | source | states |
|---|---|---|
| FetchIterator.Initial | app/src/main/java/my/noveldokusha/network/FetchIteratorState.kt:22-33 | a new iterator is idle at page 0 with no error, over its initial list, and satisfies the iterator invariant |
| FetchIterator.FetchNextStep | app/src/main/java/my/noveldokusha/network/FetchIteratorState.kt:53-57 | unless the iterator is idle nothing changes; otherwise it becomes LOADING with a fresh live job, and the invariant is kept |
| FetchIterator.CompleteStep | app/src/main/java/my/noveldokusha/network/FetchIteratorState.kt:58-71 | a completion of a cancelled or superseded job changes nothing; a non-empty page is appended and the iterator is idle again; an empty page consumes it; an error is recorded and consumes it; the page index always advances by one; the invariant is kept |
| FetchIterator.CoerceAtLeast | app/src/main/java/my/noveldokusha/network/FetchIteratorState.kt:47 | `coerceAtLeast`: the result is at least the minimum, and it is the input whenever the input already is |
| FetchIterator.CancelStep | app/src/main/java/my/noveldokusha/network/FetchIteratorState.kt:36 | `job?.cancel()`: no job stays live, so no later completion can reach the iterator, and list, index, state, error and job count are unchanged |
| FetchIterator.ResetStep | app/src/main/java/my/noveldokusha/network/FetchIteratorState.kt:35-41 | a reset leaves an empty idle iterator at page 0 without error, with its job cancelled, and keeps the invariant |
| FetchIterator.ReloadStep | app/src/main/java/my/noveldokusha/network/FetchIteratorState.kt:43-51 | without an error nothing changes; after a failure the iterator is LOADING again at the page that failed (the index one back, not below 0), with its list kept, the error cleared and a fresh live job; the invariant is kept |
| FetchIterator.FetchNextIdempotent | app/src/main/java/my/noveldokusha/network/FetchIteratorState.kt:53-55 | a second `fetchNext` while loading launches nothing |
| FetchIterator.StaleCompletionIgnored | app/src/main/java/my/noveldokusha/network/FetchIteratorState.kt:36-59 | a job cancelled by a reset cannot touch the iterator afterwards, even after a new fetch has started |
| FetchIterator.RetryRecovers | app/src/main/java/my/noveldokusha/network/FetchIteratorState.kt:43-72 | failing a page, retrying and then succeeding ends in the same list, index, state and error as succeeding at the first try |
| FetchIterator.RoundsConsume | app/src/main/java/my/noveldokusha/network/FetchIteratorState.kt:20-72 | fetching from an idle iterator whose function answers k non-empty pages and then an empty page or an error ends after k + 1 rounds: CONSUMED, the k pages appended in order, the index advanced by k + 1, and the error being that of the last answer, if any |
| FetchIterator.ConsumedIsTerminal | app/src/main/java/my/noveldokusha/network/FetchIteratorState.kt:54 | a consumed iterator stays as it is, however often it is asked to fetch and complete |
| FetchIterator.FetchIteratorState.constructor | app/src/main/java/my/noveldokusha/network/FetchIteratorState.kt:22-33 | the fields are those of `Initial` |
| FetchIterator.FetchIteratorState.Reset | app/src/main/java/my/noveldokusha/network/FetchIteratorState.kt:35-41 | the new fields are `ResetStep` of the old ones; the page function is kept |
| FetchIterator.FetchIteratorState.ReloadFailedLastLoad | app/src/main/java/my/noveldokusha/network/FetchIteratorState.kt:43-51 | the new fields are `ReloadStep` of the old ones |
| FetchIterator.FetchIteratorState.FetchNext | app/src/main/java/my/noveldokusha/network/FetchIteratorState.kt:53-57 | the new fields are `FetchNextStep` of the old ones |
| FetchIterator.FetchIteratorState.Complete | app/src/main/java/my/noveldokusha/network/FetchIteratorState.kt:57-71 | the new fields are `CompleteStep` of the old ones, for the answer of the page function at the old index |
| FetchIterator.FetchIteratorState.SetFunction | app/src/main/java/my/noveldokusha/network/FetchIteratorState.kt:74-76 | only the page function changes |
| Responses.TryAsResponse | app/src/main/java/my/noveldokusha/network/TryConnect.kt:12 | a value returned becomes a success, an exception thrown becomes an error carrying that exception |
| Responses.Flatten | app/src/main/java/my/noveldokusha/network/TryConnect.kt:12 | a success that holds a response becomes that response; an error stays the same error |
| Responses.FlatMapError | app/src/main/java/my/noveldokusha/network/TryConnect.kt:21 | a success passes through untouched; only an error is handed to the function |
| NetworkErrors.SpecifyNetworkErrors | app/src/main/java/my/noveldokusha/network/TryConnect.kt:20-53 | a success is unchanged; an error keeps its exception and gets the timeout or unknown message |
| NetworkErrors.TryConnect | app/src/main/java/my/noveldokusha/network/TryConnect.kt:14-17 | a returned value is a success; a thrown exception is an error with the classified message |
| NetworkErrors.TryFlatConnect | app/src/main/java/my/noveldokusha/network/TryConnect.kt:9-12 | a returned success passes through; a returned error and a thrown exception are both reclassified like a thrown one |
| NetworkErrors.TimeoutClassification | app/src/main/java/my/noveldokusha/network/TryConnect.kt:22-51 | the message starts with "Timeout error." exactly for socket timeouts and with "Unknown error." exactly for every other exception |
| NetworkErrors.BlankInfoPlaceholder | app/src/main/java/my/noveldokusha/network/TryConnect.kt:28-41 | with blank extra info the message is the fixed text with "No info" (timeout) or "No Info" (other) |
| NetworkErrors.MessageEndings | app/src/main/java/my/noveldokusha/network/TryConnect.kt:30-47 | a timeout message ends with the exception message, any other ends with the stack trace |
| NetworkErrors.TimeoutMessage | app/src/main/java/my/noveldokusha/network/TryConnect.kt:24-32 | the timeout message: "Timeout error.", the info (or "No info") and the exception message, as labelled blocks separated by blank lines |
| NetworkErrors.UnknownMessage | app/src/main/java/my/noveldokusha/network/TryConnect.kt:37-48 | any other message: "Unknown error.", the info (or "No Info"), the message and the stack trace, as labelled blocks separated by blank lines |
| Text.IfBlank | app/src/main/java/my/noveldokusha/network/TryConnect.kt:28 | `ifBlank`: the fallback exactly when the text is blank, the text itself otherwise |
| Text.JoinCons | app/src/main/java/my/noveldokusha/network/TryConnect.kt:32 | `joinToString`: a head joined to a non-empty tail is the head, the separator, then the tail joined |
| Scraper.WithTrailingSlash | app/src/main/java/my/noveldokusha/scraper/Scraper.kt:31-32 | the result ends with "/", and is the input if it already did or the input plus "/" if not |
| Scraper.IsCompatibleWithBaseUrl | app/src/main/java/my/noveldokusha/scraper/Scraper.kt:30-34 | the URL is compatible exactly when it starts with the slashed base, or lacks a final slash and plus "/" is the slashed base |
| Scraper.CompatibleIffBelowBase | app/src/main/java/my/noveldokusha/scraper/Scraper.kt:30-34 | for a base without its slash, a URL is compatible exactly when it is the base or starts with the base plus "/" |
| Scraper.BaseIsCompatibleWithItself | app/src/main/java/my/noveldokusha/scraper/Scraper.kt:30-34 | a base, with or without the slash, is compatible with itself with or without the slash |
| Scraper.NoMatchAcrossHostBoundary | app/src/main/java/my/noveldokusha/scraper/Scraper.kt:30-34 | "https://a.comx/p" is not under "https://a.com" |
| Scraper.Find | app/src/main/java/my/noveldokusha/scraper/Scraper.kt:36-43 | `find`: none when no element matches, otherwise the first matching element |
| Scraper.Filter | app/src/main/java/my/noveldokusha/scraper/Scraper.kt:27 | `filterIsInstance`: no longer than the input, only passing elements, every passing element kept, and the input itself when all pass |
| Scraper.FilterAppend | app/src/main/java/my/noveldokusha/scraper/Scraper.kt:27 | filtering keeps the order: filtering two lists joined is the two filtered lists joined |
| Scraper.SourcesCatalogsList | app/src/main/java/my/noveldokusha/scraper/Scraper.kt:27 | a source is listed exactly when it is registered and a catalog; a registry of catalogs only is listed whole, in order |
| Scraper.GetCompatibleSource | app/src/main/java/my/noveldokusha/scraper/Scraper.kt:36-37 | none exactly when no registered source is compatible; otherwise a compatible source at some position before which none is |
| Scraper.GetCompatibleSourceCatalog | app/src/main/java/my/noveldokusha/scraper/Scraper.kt:39-40 | equal to searching all sources for the first compatible catalog: none exactly when there is none, otherwise one before which no source is a compatible catalog |
| Scraper.GetCompatibleDatabase | app/src/main/java/my/noveldokusha/scraper/Scraper.kt:42-43 | none exactly when no registered database is compatible; otherwise a compatible database at some position before which none is |
| Scraper.SourcesCatalogsLanguagesList | app/src/main/java/my/noveldokusha/scraper/Scraper.kt:28 | a language is listed exactly when some registered catalog declares it |
| Scraper.FindInFilter | app/src/main/java/my/noveldokusha/scraper/Scraper.kt:27-40 | searching the filtered list is searching the whole list for elements that pass both tests |
| SourceModel.PageOf | app/src/main/java/my/noveldokusha/scraper/sources/MTLNovel.kt:90 | `index + 1` as a Kotlin `Int`: one more, except at `Int.MAX_VALUE`, where it wraps to `Int.MIN_VALUE` |
| SourceModel.PageOfFirstAndInjective | app/src/main/java/my/noveldokusha/scraper/sources/MTLNovel.kt:90-92 | page 1 is index 0 and no other, and distinct indices give distinct pages |
| SourceModel.AddPath | app/src/main/java/my/noveldokusha/scraper/sources/MTLNovel.kt:70 | `addPath` appends the segments in order and changes nothing else |
| SourceModel.Add | app/src/main/java/my/noveldokusha/scraper/sources/MTLNovel.kt:127-129 | `add` appends the query pairs in order and changes nothing else |
| SourceModel.MapNotNull | app/src/main/java/my/noveldokusha/scraper/sources/MTLNovel.kt:96-103 | `mapNotNull`: at most as long as the input; a value is in the result exactly when some element maps to it |
| SourceModel.MapNotNullAppend | app/src/main/java/my/noveldokusha/scraper/sources/MTLNovel.kt:96-103 | `mapNotNull` of two listings joined is the two results joined |
| SourceModel.ListingIsLinkedBooks | app/src/main/java/my/noveldokusha/scraper/sources/MTLNovel.kt:96-103 | a `mapNotNull` that drops exactly the entries without a link and maps the others to their book is the same as filtering the linked entries first and then mapping each to its book |
| SourceModel.Reverse | app/src/main/java/my/noveldokusha/scraper/sources/MTLNovel.kt:82 | `reversed`: the same length, element k of the result being element n-1-k of the input |
| SourceModel.ReverseInvolution | app/src/main/java/my/noveldokusha/scraper/sources/MTLNovel.kt:82 | reversing twice gives the input back |
| SourceModel.ChapterList | app/src/main/java/my/noveldokusha/scraper/sources/MTLNovel.kt:73-82 | one chapter per site link, chapter k being the link n-1-k with its text as title and its `href` as URL |
| SourceModel.ChapterListOfReversed | app/src/main/java/my/noveldokusha/scraper/sources/MTLNovel.kt:73-82 | a site listing its chapters newest first yields them oldest first |
| Text.NatToString | app/src/main/java/my/noveldokusha/scraper/sources/MTLNovel.kt:92 | `"$page"` of a non-negative page: decimal digits only, with no leading zero |
| Text.NatToStringRoundTrip | app/src/main/java/my/noveldokusha/scraper/sources/MTLNovel.kt:92 | reading the digits back gives the number |
| Text.IntToStringInjective | app/src/main/java/my/noveldokusha/scraper/sources/MTLNovel.kt:92 | different numbers print differently |
| MTLNovel.GetBookDescription | app/src/main/java/my/noveldokusha/scraper/sources/MTLNovel.kt:49-61 | the book page is fetched as it is; an arrived page gives its description, none when it has no `.desc`; a failed fetch is the error with the classified message and the exception |
| MTLNovel.DescriptionAbsent | app/src/main/java/my/noveldokusha/scraper/sources/MTLNovel.kt:54 | a description that is missing is a success with none, not an error |
| MTLNovel.GetChapterList | app/src/main/java/my/noveldokusha/scraper/sources/MTLNovel.kt:63-84 | the request goes to the book URL plus "chapter-list" and a closing "/"; an arrived page gives its links in reverse site order; a failed fetch is the classified error |
| MTLNovel.ListedBooks | app/src/main/java/my/noveldokusha/scraper/sources/MTLNovel.kt:95-103 | the books of a page are those of its entries that hold a link, in order, titled by `aria-label`, with the entry's cover or "" |
| MTLNovel.GetCatalogList | app/src/main/java/my/noveldokusha/scraper/sources/MTLNovel.kt:86-115 | an arrived catalog page is a success with its linked entries, its index and the `div#pagination` verdict (last unless the last child is not a `span`); a failed fetch is the classified error |
| MTLNovel.GetCatalogSearch | app/src/main/java/my/noveldokusha/scraper/sources/MTLNovel.kt:117-159 | a blank input or an index above 0 answers the empty page without a request; otherwise one request with the three autosuggest pairs in order, whose books are a single last page, or the classified error |
| MTLNovel.CatalogRequestUrl | app/src/main/java/my/noveldokusha/scraper/sources/MTLNovel.kt:90-94 | page 1 is the catalog URL unchanged; a later page appends "page" and the page number |
| MTLNovel.CatalogRequestInjective | app/src/main/java/my/noveldokusha/scraper/sources/MTLNovel.kt:90-94 | different indices request different catalog URLs |
| WuxiaWorld.CatalogRequestUrl | app/src/main/java/my/noveldokusha/scraper/sources/WuxiaWorld.kt:76-81 | the catalog is the base URL plus "novel", then "page" and the number after page 1, then `m_orderby=alphabet`; the configured catalog URL is not used |
| WuxiaWorld.GetChapterList | app/src/main/java/my/noveldokusha/scraper/sources/WuxiaWorld.kt:54-70 | a POST to the book URL plus "ajax" and "chapters"; an arrived page gives its links in reverse site order; a failed fetch is the classified error |
| WuxiaWorld.ListedBooks | app/src/main/java/my/noveldokusha/scraper/sources/WuxiaWorld.kt:84-96 | the books of a page are those of its entries that hold a link, in order, titled by `title`, with the entry's cover or "" |
| WuxiaWorld.GetCatalogList | app/src/main/java/my/noveldokusha/scraper/sources/WuxiaWorld.kt:72-105 | an arrived catalog page is a success with its linked entries and its index, the last page exactly when it has no "previous" navigation; a failed fetch is the classified error |
| WuxiaWorld.GetCatalogSearch | app/src/main/java/my/noveldokusha/scraper/sources/WuxiaWorld.kt:107-149 | any index but 0 answers the empty page without a request; index 0 requests the base URL with the seven query pairs in order and no page segment, for blank input too, and is a single last page of the linked entries, or the classified error |
| FirstKissNovel.CatalogRequestUrl | app/src/main/java/my/noveldokusha/scraper/sources/_1stKissNovel.kt:80-88 | page 1 is the catalog URL as text; a later page is the base URL plus "novel", "page" and the number, with `m_orderby=alphabet` |
| FirstKissNovel.GetChapterList | app/src/main/java/my/noveldokusha/scraper/sources/_1stKissNovel.kt:56-74 | a POST to the book URL plus "ajax" and "chapters"; an arrived page gives its links in reverse site order; a failed fetch is the classified error |
| FirstKissNovel.ListedBooks | app/src/main/java/my/noveldokusha/scraper/sources/_1stKissNovel.kt:91-100 | the books of a page are those of its entries that hold a link, in order, titled by `title`, with the cover found inside the link or "" |
| FirstKissNovel.GetCatalogList | app/src/main/java/my/noveldokusha/scraper/sources/_1stKissNovel.kt:76-109 | an arrived catalog page is a success with its linked entries, its index and the `div.wp-pagenavi` verdict (last unless the last child lacks `current`); a failed fetch is the classified error |
| FirstKissNovel.GetCatalogSearch | app/src/main/java/my/noveldokusha/scraper/sources/_1stKissNovel.kt:111-142 | the search request is always sent; an arrived page is read like a catalog page, with the same last-page rule; a failed fetch is the classified error |
| FirstKissNovel.SearchRequestShape | app/src/main/java/my/noveldokusha/scraper/sources/_1stKissNovel.kt:116-121 | a search is always sent, blank or not: the base URL, "page" and the number after page 1, then `s` and `post_type` in that order |
| FirstKissNovel.CatalogAndSearchParseAlike | app/src/main/java/my/noveldokusha/scraper/sources/_1stKissNovel.kt:101-140 | catalog and search read the same page into the same result, with the same last-page rule |
| BestLightNovel.IsLastPage | app/src/main/java/my/noveldokusha/scraper/sources/BestLightNovel.kt:119-123 | absent pagination is the last page; with children it is the last exactly when the next-to-last child (or the only one) has the class `pageselect`; with no children it throws "List is empty." |
| BestLightNovel.GetChapterList | app/src/main/java/my/noveldokusha/scraper/sources/BestLightNovel.kt:62-68 | the book page itself is fetched; an arrived page gives its links in reverse site order; a failed fetch is the classified error |
| BestLightNovel.ListedBooks | app/src/main/java/my/noveldokusha/scraper/sources/BestLightNovel.kt:104-113 | the books of a page are those of its entries that hold a link, in order, titled by `title`, with the entry's cover or "" |
| BestLightNovel.ParseToBooks | app/src/main/java/my/noveldokusha/scraper/sources/BestLightNovel.kt:102-127 | a pagination control without children throws the `NoSuchElementException`; any other page is a success with the linked entries, the index and the verdict of the pagination rule |
| BestLightNovel.GetCatalogList | app/src/main/java/my/noveldokusha/scraper/sources/BestLightNovel.kt:70-84 | a failed fetch and a childless pagination control are both classified errors; any other arrived page is its listing with the pagination verdict |
| BestLightNovel.GetCatalogSearch | app/src/main/java/my/noveldokusha/scraper/sources/BestLightNovel.kt:86-100 | a blank input answers the empty page at any index without a request and without error wrapping; any other input is fetched and read like a catalog page |
| BestLightNovel.EmptyPaginationFails | app/src/main/java/my/noveldokusha/scraper/sources/BestLightNovel.kt:70-123 | a fetched catalog page whose pagination has no children becomes an "Unknown error." response carrying the `NoSuchElementException` |
| BestLightNovel.SearchShape | app/src/main/java/my/noveldokusha/scraper/sources/BestLightNovel.kt:92-97 | a search goes to the base URL plus "search_novels" and the input with its spaces made "_", with `page` only after page 1; the path segment holds no space |
| BestLightNovel.CatalogRequestUrl | app/src/main/java/my/noveldokusha/scraper/sources/BestLightNovel.kt:74-81 | page 1 is the catalog URL unchanged; a later page adds `type`, `category`, `state` and `page` in that order |
| Text.ReplaceChar | app/src/main/java/my/noveldokusha/scraper/sources/BestLightNovel.kt:96 | `replace(" ", "_")`: the same length, every space made "_", every other character kept |
| Adapters.BasesDisjoint | app/src/main/java/my/noveldokusha/scraper/sources/MTLNovel.kt:29 | the four adapters' base URLs end in "/" and none lies under another |
| Adapters.LookupFindsOwner | app/src/main/java/my/noveldokusha/scraper/Scraper.kt:36-40 | with the four adapters registered, a URL under one adapter's base is answered by that adapter, by both lookups |
| Adapters.BlankSearchDiffers | app/src/main/java/my/noveldokusha/scraper/sources/BestLightNovel.kt:90 | a blank first-page search: MTLNovel and BestLightNovel answer the empty page without a request, while WuxiaWorld and 1stKissNovel send one |
| Adapters.LastPageRulesDiffer | app/src/main/java/my/noveldokusha/scraper/sources/_1stKissNovel.kt:144-147 | one control, a single plain `span`, is the last page for MTLNovel and not for 1stKissNovel or BestLightNovel; for WuxiaWorld the argument stands for `div.nav-previous.float-left`, whose presence means a later page |
| Adapters.SameChapterRequest | app/src/main/java/my/noveldokusha/scraper/sources/WuxiaWorld.kt:58-63 | WuxiaWorld and 1stKissNovel request a chapter list identically (WuxiaWorld's null URL builder is not modelled; see "## Left out") |
| ListLoadWatcher.ReadyToLoad | app/src/main/java/my/noveldokusha/composableActions/ListLoadWatcher.kt:22-27 | ready exactly when the iterator is idle and either nothing is visible in a list of at most three items, or the last visible item is among the last three |
| ListLoadWatcher.ListIsReadyToLoad | app/src/main/java/my/noveldokusha/composableActions/ListLoadWatcher.kt:20-29 | the list watcher's `isReadyToLoad`: idle and in the load zone, and nothing else |
| ListLoadWatcher.GridIsReadyToLoad | app/src/main/java/my/noveldokusha/composableActions/ListLoadWatcher.kt:48-57 | the grid watcher's `isReadyToLoad`: idle and in the load zone, and nothing else |
| ListLoadWatcher.EmptyIdleListIsReady | app/src/main/java/my/noveldokusha/composableActions/ListLoadWatcher.kt:22-26 | an empty list with nothing visible is ready as soon as the iterator is idle, for both watchers |
| ListLoadWatcher.WatchersAgree | app/src/main/java/my/noveldokusha/composableActions/ListLoadWatcher.kt:20-57 | the list and grid watchers decide identically on the same layout |
| ListLoadWatcher.Emissions | app/src/main/java/my/noveldokusha/composableActions/ListLoadWatcher.kt:32 | `snapshotFlow` emits something exactly when there are readings, ends with the latest reading, and never emits the same value twice in a row |
| ListLoadWatcher.CallsAtRisingEdges | app/src/main/java/my/noveldokusha/composableActions/ListLoadWatcher.kt:31-36 | `onLoadNext` is called once each time the watcher becomes ready, and never otherwise |
| ListLoadWatcher.NoCallWhileNeverReady | app/src/main/java/my/noveldokusha/composableActions/ListLoadWatcher.kt:31-36 | while the iterator is never idle, `onLoadNext` is never called |
| ListLoadWatcher.SteadyReadinessCallsOnce | app/src/main/java/my/noveldokusha/composableActions/ListLoadWatcher.kt:31-36 | staying ready over many frames calls `onLoadNext` once |
| Repository.MatchesDotStar | app/src/main/java/my/noveldokusha/repository/Repository.kt:91 | `.*` up to the end matches exactly the texts without a line terminator |
| Repository.IsValidUrl | app/src/main/java/my/noveldokusha/repository/Repository.kt:91 | the matcher accepts exactly the URLs that start with "http://", "https://" or "local://" and go on with a single line |
| Repository.ValidExamples | app/src/main/java/my/noveldokusha/repository/Repository.kt:91 | "https://a.com", "http://x" and the bare "local://" are valid |
| Repository.OtherSchemesInvalid | app/src/main/java/my/noveldokusha/repository/Repository.kt:91 | "ftp://…" and the upper-case "HTTP://…" are not valid |
| Repository.SeparatorRequired | app/src/main/java/my/noveldokusha/repository/Repository.kt:91 | "http:/x" and "httpss://x" are not valid |
| Repository.LineBreakInvalid | app/src/main/java/my/noveldokusha/repository/Repository.kt:91 | a newline after the scheme makes the URL invalid |
| Repository.IsValidBook | app/src/main/java/my/noveldokusha/repository/Repository.kt:91 | a book is valid exactly when its URL follows the scheme rule |
| Repository.IsValidChapter | app/src/main/java/my/noveldokusha/repository/Repository.kt:92-93 | a chapter is valid exactly when its URL follows the scheme rule |
| Repository.BookAndChapterAlike | app/src/main/java/my/noveldokusha/repository/Repository.kt:91-93 | a book and a chapter with the same URL are judged alike |

## Left out

- The network, jsoup and Gson are not modelled. A fetched page is abstract data, and selectors, `text()`,
  `attr()` and `TextExtractor` are its fields. MTLNovel's search answer is abstract too: the `api` parameter
  stands for the request together with its JSON decoding.
- `getChapterText`, `getBookCoverImageUrl` and, apart from MTLNovel's, `getBookDescription` are not modelled.
  They are single-selector extractions or DOM text, and the removal of nodes from a description is a DOM
  mutation.
- URLs are not rendered to text. A request holds the base, the path segments and the query pairs in
  order, so percent-encoding and the exact `toString` of the URL builder are not modelled.
- WuxiaWorld's chapter list uses `toUrlBuilder()`, which may give null. On a malformed book URL the app
  would then post to the text "null". The model always builds the URL.
- An exception's stack trace is an abstract string. `stackTraceToString()` and its frames are not modelled.
- The coroutine scope, the dispatchers, `isActive` and the `debounce` of the watchers are not modelled.
  Each is either an explicit step (start, complete, cancel) or left out. A debounce can only drop calls of
  `onLoadNext`.
- FetchIterator.FetchIteratorState.Complete: the page function is applied to the index and function at
  completion. In the app a coroutine reads them when it starts; the two readings differ only if
  `setFunction` is called while a page is loading.
- FetchIterator.CompleteStep: `index += 1` is an unbounded integer here. It does not wrap after 2^31 pages,
  as a Kotlin `Int` would.
- `isLastPage` plays no part in `FetchIteratorState`; it stops only on an empty page or an error.
- Only MTLNovel and BestLightNovel short-circuit a blank search; WuxiaWorld and 1stKissNovel send the
  request. `Adapters.BlankSearchDiffers` states the difference.
- `PagedList.createEmpty`, `Response`, `tryAsResponse`, `flatten`, `flatMapError` and the URL-builder helpers
  are not part of this model as source. They are given the meaning their use implies, and an empty page is
  marked as the last one.
- The registry entries the app actually configures (NovelUpdates, BakaUpdates) are not part of this model.
  The registry is a parameter.
- The `CatalogRequestUrl` lemmas of all four adapters, `FirstKissNovel.SearchRequestShape` and
  `BestLightNovel.SearchShape` spell out the URL for 0 <= index < Int.MAX_VALUE only,
  with the page written in decimal. For a negative or the largest index, the functions still build the
  URL from the wrapped page number, but no lemma spells that URL out.
