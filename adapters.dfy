/** The four English catalog adapters side by side: each owns its own part of the web, and where their rules
    differ (the blank search, the last-page heuristic) the differences are pinned down. */
module Adapters {
  import opened Wrappers
  import opened Text
  import opened Responses
  import opened SourceModel
  import Scraper
  import MTLNovel
  import WuxiaWorld
  import FirstKissNovel
  import BestLightNovel

  /** A registry listing the four adapters in the given order. */
  function RegistryOf(sources: seq<Scraper.Source>): Scraper.Registry {
    Scraper.Registry([], sources)
  }

  const All: seq<Scraper.Source> := [MTLNovel.Info, WuxiaWorld.Info, FirstKissNovel.Info, BestLightNovel.Info]

  /** Two prefixes of the same string are prefixes of each other. */
  lemma PrefixesNest(a: string, b: string, s: string)
    requires StartsWith(s, a) && StartsWith(s, b) && |a| <= |b|
    ensures StartsWith(b, a)
  {
    assert b[..|a|] == s[..|a|];
  }

  /** No URL is compatible with two bases of which neither lies below the other. */
  lemma ExclusiveBases(url: string, a: string, b: string)
    requires EndsWith(a, "/") && EndsWith(b, "/")
    requires !StartsWith(a, b) && !StartsWith(b, a)
    ensures !(Scraper.IsCompatibleWithBaseUrl(url, a) && Scraper.IsCompatibleWithBaseUrl(url, b))
  {
    var u := Scraper.WithTrailingSlash(url);
    if Scraper.IsCompatibleWithBaseUrl(url, a) && Scraper.IsCompatibleWithBaseUrl(url, b) {
      if |a| <= |b| { PrefixesNest(a, b, u); } else { PrefixesNest(b, a, u); }
    }
  }

  /** The two characters after "https://" in each adapter's base URL, in the order of `All`. */
  const Keys: seq<string> := ["ww", "wu", "1s", "be"]

  lemma BaseKey(i: nat)
    requires i < |All|
    ensures |All[i].baseUrl| >= 10 && All[i].baseUrl[8..10] == Keys[i]
    ensures EndsWith(All[i].baseUrl, "/")
  {
    var x := All[i].baseUrl;
    assert x[|x| - 1] == '/';
  }

  /** The base URLs of the adapters end in "/" and none lies below another: the two characters after
      "https://" tell them apart. */
  lemma BasesDisjoint(i: nat, j: nat)
    requires i < |All| && j < |All| && i != j
    ensures EndsWith(All[i].baseUrl, "/")
    ensures !StartsWith(All[i].baseUrl, All[j].baseUrl)
  {
    BaseKey(i);
    BaseKey(j);
    var x, y := All[i].baseUrl, All[j].baseUrl;
    assert Keys[i] != Keys[j];
  }

  /** A URL below one adapter's base is below no other adapter's base. */
  lemma OnlyOwnerCompatible(url: string, i: nat)
    requires i < |All| && Scraper.IsCompatibleWithBaseUrl(url, All[i].baseUrl)
    ensures forall j :: 0 <= j < |All| && Scraper.IsCompatibleWithBaseUrl(url, All[j].baseUrl) ==> j == i
  {
    forall j | 0 <= j < |All| && j != i
      ensures !Scraper.IsCompatibleWithBaseUrl(url, All[j].baseUrl)
    {
      BasesDisjoint(i, j);
      BasesDisjoint(j, i);
      ExclusiveBases(url, All[i].baseUrl, All[j].baseUrl);
    }
  }

  /** `find` answers the only element that passes the test. */
  lemma FindOnly<T>(xs: seq<T>, p: T -> bool, i: nat)
    requires i < |xs| && p(xs[i])
    requires forall j :: 0 <= j < |xs| && p(xs[j]) ==> j == i
    ensures Scraper.Find(xs, p) == Some(xs[i])
  {
  }

  /** In any registry, a source that is the only compatible one is the one the lookups answer. */
  lemma UniqueCompatible(registry: Scraper.Registry, url: string, i: nat)
    requires i < |registry.sourcesList|
    requires Scraper.IsCompatibleWithBaseUrl(url, registry.sourcesList[i].baseUrl)
    requires forall j :: (0 <= j < |registry.sourcesList|
      && Scraper.IsCompatibleWithBaseUrl(url, registry.sourcesList[j].baseUrl)) ==> j == i
    ensures Scraper.GetCompatibleSource(registry, url) == Some(registry.sourcesList[i])
    ensures Scraper.IsCatalog(registry.sourcesList[i]) ==>
      Scraper.GetCompatibleSourceCatalog(registry, url) == Some(registry.sourcesList[i])
  {
    FindOnly(registry.sourcesList, Scraper.CompatibleSource(url), i);
    if Scraper.IsCatalog(registry.sourcesList[i]) {
      FindOnly(registry.sourcesList, Scraper.CompatibleCatalog(url), i);
    }
  }

  /** With all four registered, a URL below one adapter's base is answered by that adapter, by both the
      source and the catalog lookup. */
  lemma LookupFindsOwner(url: string, i: nat)
    requires i < |All| && Scraper.IsCompatibleWithBaseUrl(url, All[i].baseUrl)
    ensures Scraper.GetCompatibleSource(RegistryOf(All), url) == Some(All[i])
    ensures Scraper.GetCompatibleSourceCatalog(RegistryOf(All), url) == Some(All[i])
  {
    OnlyOwnerCompatible(url, i);
    assert Scraper.IsCatalog(All[i]);
    UniqueCompatible(RegistryOf(All), url, i);
  }

  /** A blank first-page search: MTLNovel and BestLightNovel answer without a request, WuxiaWorld and
      1stKissNovel send one all the same. */
  lemma BlankSearchDiffers(input: string, server: Request -> Outcome<Document>,
                           api: Request -> Outcome<seq<BookMetadata>>)
    requires IsBlank(input)
    ensures MTLNovel.GetCatalogSearch(0, input, api) == Success(CreateEmpty(0))
    ensures BestLightNovel.GetCatalogSearch(0, input, server) == Success(CreateEmpty(0))
    ensures WuxiaWorld.SearchRequest(0, input).Some?
    ensures server(WuxiaWorld.SearchRequest(0, input).value).Threw? ==>
      WuxiaWorld.GetCatalogSearch(0, input, server).Error?
    ensures server(FirstKissNovel.SearchRequest(0, input)).Threw? ==>
      FirstKissNovel.GetCatalogSearch(0, input, server).Error?
  {
  }

  /** The last-page heuristics disagree on one pagination control: a single plain `span`. For WuxiaWorld the
      argument stands for the `div.nav-previous.float-left` element it looks up, not a pagination list. */
  lemma LastPageRulesDiffer()
    ensures var only := Some([Child("span", {})]);
      && MTLNovel.IsLastPage(only)
      && !FirstKissNovel.IsLastPage(only)
      && BestLightNovel.IsLastPage(only) == Returned(false)
      && !WuxiaWorld.IsLastPage(only)
  {
  }

  /** WuxiaWorld and 1stKissNovel ask for a chapter list the same way. */
  lemma SameChapterRequest(bookUrl: string)
    ensures WuxiaWorld.ChapterListRequest(bookUrl) == FirstKissNovel.ChapterListRequest(bookUrl)
  {
    var u := WuxiaWorld.ChapterListRequest(bookUrl).target.url;
    assert u.path == [] + ["ajax"] + ["chapters"];
    assert [] + ["ajax"] + ["chapters"] == ["ajax", "chapters"];
    assert FirstKissNovel.ChapterListRequest(bookUrl).target.url.path == [] + ["ajax", "chapters"];
  }
}
