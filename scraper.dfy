/** The registry of sources and databases (scraper/Scraper.kt) and its URL-to-adapter lookup. */
module Scraper {
  import opened Wrappers
  import opened Text

  datatype LanguageCode = LanguageCode(name: string)

  const English := LanguageCode("ENGLISH")

  /** `SourceInterface.Catalog` sources can list and search a catalog; the others cannot. */
  datatype SourceKind = Catalog | Generic

  /** A source adapter's identity fields. */
  datatype Source = Source(id: string, baseUrl: string, catalogUrl: Option<string>, kind: SourceKind,
                           language: Option<LanguageCode>)

  datatype Database = Database(id: string, baseUrl: string)

  /** The registry: both lists are Kotlin `setOf(...)`, whose iteration order is the order written. */
  datatype Registry = Registry(databasesList: seq<Database>, sourcesList: seq<Source>)

  /** One "/" appended unless the string already ends with one. */
  function WithTrailingSlash(s: string): (r: string)
    ensures EndsWith(r, "/")
    ensures EndsWith(s, "/") ==> r == s
    ensures !EndsWith(s, "/") ==> r == s + "/"
  {
    if EndsWith(s, "/") then s else s + "/"
  }

  /** `url.isCompatibleWithBaseUrl(baseUrl)`: with `b` the base ended by "/", the URL lies under `b`, or it is
      `b` without that last "/". */
  predicate IsCompatibleWithBaseUrl(url: string, baseUrl: string): (r: bool)
    ensures var b := WithTrailingSlash(baseUrl);
      r <==> StartsWith(url, b) || (!EndsWith(url, "/") && url + "/" == b)
  {
    SlashedPrefix(url, WithTrailingSlash(baseUrl));
    StartsWith(WithTrailingSlash(url), WithTrailingSlash(baseUrl))
  }

  /** Appending the slash to a URL that lacks one adds exactly one candidate prefix: the whole slashed URL. */
  lemma SlashedPrefix(url: string, b: string)
    ensures StartsWith(WithTrailingSlash(url), b) <==> StartsWith(url, b) || (!EndsWith(url, "/") && url + "/" == b)
  {
    var u := WithTrailingSlash(url);
    if !EndsWith(url, "/") {
      assert u == url + "/";
      if |b| <= |url| {
        assert u[..|b|] == url[..|b|];
      }
    }
  }

  /** Kotlin's `find`: the first element that satisfies `p`, or none. */
  function Find<T>(xs: seq<T>, p: T -> bool): (r: Option<T>)
    ensures r.None? <==> forall i :: 0 <= i < |xs| ==> !p(xs[i])
    ensures r.Some? ==> exists i :: 0 <= i < |xs| && xs[i] == r.value && p(xs[i])
                                    && forall j :: 0 <= j < i ==> !p(xs[j])
    decreases |xs|
  {
    if xs == [] then None
    else if p(xs[0]) then Some(xs[0])
    else
      var r := Find(xs[1..], p);
      assert forall i :: 1 <= i < |xs| ==> xs[i] == xs[1..][i - 1];
      r
  }

  /** Kotlin's `filter`: the elements that pass, and only those. */
  function Filter<T(!new)>(xs: seq<T>, p: T -> bool): (r: seq<T>)
    ensures |r| <= |xs|
    ensures forall i :: 0 <= i < |r| ==> p(r[i])
    ensures forall x :: x in r <==> x in xs && p(x)
    ensures (forall i :: 0 <= i < |xs| ==> p(xs[i])) ==> r == xs
    decreases |xs|
  {
    if xs == [] then []
    else
      assert forall i :: 1 <= i < |xs| ==> xs[i] == xs[1..][i - 1];
      if p(xs[0]) then [xs[0]] + Filter(xs[1..], p)
      else Filter(xs[1..], p)
  }

  /** `filter` works piece by piece, so what it keeps stays in its order. */
  lemma {:induction false} FilterAppend<T(!new)>(xs: seq<T>, ys: seq<T>, p: T -> bool)
    ensures Filter(xs + ys, p) == Filter(xs, p) + Filter(ys, p)
    decreases |xs|
  {
    if xs == [] {
      assert xs + ys == ys;
    } else {
      var zs := xs + ys;
      assert zs[0] == xs[0] && zs[1..] == xs[1..] + ys;
      FilterAppend(xs[1..], ys, p);
    }
  }

  predicate IsCatalog(s: Source) {
    s.kind == Catalog
  }

  /** `sourcesCatalogsList`: the catalog sources and no others; a registry of catalogs only is listed whole. */
  function SourcesCatalogsList(registry: Registry): (r: seq<Source>)
    ensures forall s :: s in r <==> s in registry.sourcesList && IsCatalog(s)
    ensures (forall i :: 0 <= i < |registry.sourcesList| ==> IsCatalog(registry.sourcesList[i])) ==>
      r == registry.sourcesList
  {
    Filter(registry.sourcesList, IsCatalog)
  }

  /** `sourcesCatalogsLanguagesList`: the languages the catalogs declare. */
  function SourcesCatalogsLanguagesList(registry: Registry): (r: set<LanguageCode>)
    ensures forall l :: l in r <==> exists s :: s in registry.sourcesList && IsCatalog(s) && s.language == Some(l)
  {
    set s | s in SourcesCatalogsList(registry) && s.language.Some? :: s.language.value
  }

  /** The test the source lookups apply to each source: is `url` under its base? */
  function CompatibleSource(url: string): Source -> bool {
    (s: Source) => IsCompatibleWithBaseUrl(url, s.baseUrl)
  }

  /** Both tests of the catalog lookup at once: a catalog, and `url` under its base. */
  function CompatibleCatalog(url: string): Source -> bool {
    (s: Source) => IsCatalog(s) && IsCompatibleWithBaseUrl(url, s.baseUrl)
  }

  /** `getCompatibleSource`: the first registered source whose base the URL lies under, or none if there is no
      such source. */
  function GetCompatibleSource(registry: Registry, url: string): (r: Option<Source>)
    ensures var xs := registry.sourcesList;
      r.None? <==> forall i :: 0 <= i < |xs| ==> !IsCompatibleWithBaseUrl(url, xs[i].baseUrl)
    ensures var xs := registry.sourcesList;
      r.Some? ==> exists i :: 0 <= i < |xs| && xs[i] == r.value && IsCompatibleWithBaseUrl(url, xs[i].baseUrl)
                              && forall j :: 0 <= j < i ==> !IsCompatibleWithBaseUrl(url, xs[j].baseUrl)
  {
    var p := CompatibleSource(url);
    assert forall s :: p(s) == IsCompatibleWithBaseUrl(url, s.baseUrl);
    Find(registry.sourcesList, p)
  }

  /** `getCompatibleSourceCatalog`: searching the catalogs is searching all sources for the first one that is a
      catalog and that the URL lies under. */
  function GetCompatibleSourceCatalog(registry: Registry, url: string): (r: Option<Source>)
    ensures r == Find(registry.sourcesList, CompatibleCatalog(url))
    ensures var xs := registry.sourcesList;
      r.None? <==> forall i :: 0 <= i < |xs| ==> !(IsCatalog(xs[i]) && IsCompatibleWithBaseUrl(url, xs[i].baseUrl))
    ensures var xs := registry.sourcesList;
      r.Some? ==> exists i :: 0 <= i < |xs| && xs[i] == r.value && IsCatalog(xs[i])
                              && IsCompatibleWithBaseUrl(url, xs[i].baseUrl)
                              && forall j :: 0 <= j < i ==> !(IsCatalog(xs[j]) && IsCompatibleWithBaseUrl(url, xs[j].baseUrl))
  {
    FindInFilter(registry.sourcesList, IsCatalog, CompatibleSource(url), CompatibleCatalog(url));
    Find(SourcesCatalogsList(registry), CompatibleSource(url))
  }

  /** `getCompatibleDatabase`: the first registered database whose base the URL lies under, or none. */
  function GetCompatibleDatabase(registry: Registry, url: string): (r: Option<Database>)
    ensures var xs := registry.databasesList;
      r.None? <==> forall i :: 0 <= i < |xs| ==> !IsCompatibleWithBaseUrl(url, xs[i].baseUrl)
    ensures var xs := registry.databasesList;
      r.Some? ==> exists i :: 0 <= i < |xs| && xs[i] == r.value && IsCompatibleWithBaseUrl(url, xs[i].baseUrl)
                              && forall j :: 0 <= j < i ==> !IsCompatibleWithBaseUrl(url, xs[j].baseUrl)
  {
    var p := (d: Database) => IsCompatibleWithBaseUrl(url, d.baseUrl);
    assert forall d :: p(d) == IsCompatibleWithBaseUrl(url, d.baseUrl);
    Find(registry.databasesList, p)
  }

  /** For a base without its trailing slash, a URL is compatible exactly when it is the base itself or goes
      on below it after a "/": the appended slash is a path boundary, so "https://a.com" does not own
      "https://a.comx/p". */
  lemma CompatibleIffBelowBase(url: string, base: string)
    requires !EndsWith(base, "/")
    ensures IsCompatibleWithBaseUrl(url, base) <==> url == base || StartsWith(url, base + "/")
  {
    var b := base + "/";
    var u := WithTrailingSlash(url);
    if IsCompatibleWithBaseUrl(url, base) && !EndsWith(url, "/") && url != base {
      assert u == url + "/";
      assert url[..|b|] == u[..|b|];
    }
    if StartsWith(url, b) {
      assert u[..|b|] == url[..|b|];
    }
  }

  /** A URL equal to a base, with or without the trailing slash on either side, is compatible with it. */
  lemma BaseIsCompatibleWithItself(base: string)
    requires !EndsWith(base, "/")
    ensures IsCompatibleWithBaseUrl(base, base)
    ensures IsCompatibleWithBaseUrl(base + "/", base)
    ensures IsCompatibleWithBaseUrl(base, base + "/")
    ensures IsCompatibleWithBaseUrl(base + "/", base + "/")
  {
    assert EndsWith(base + "/", "/");
  }

  lemma NoMatchAcrossHostBoundary()
    ensures !IsCompatibleWithBaseUrl("https://a.comx/p", "https://a.com")
  {
    CompatibleIffBelowBase("https://a.comx/p", "https://a.com");
    assert "https://a.comx/p"[13] != "https://a.com/"[13];
  }

  /** Searching a filtered list is searching the whole list for the first element both tests accept. */
  lemma {:induction false} FindInFilter<T(!new)>(xs: seq<T>, keep: T -> bool, p: T -> bool, both: T -> bool)
    requires forall x :: both(x) == (keep(x) && p(x))
    ensures Find(Filter(xs, keep), p) == Find(xs, both)
    decreases |xs|
  {
    if xs != [] {
      FindInFilter(xs[1..], keep, p, both);
      if keep(xs[0]) {
        assert Filter(xs, keep) == [xs[0]] + Filter(xs[1..], keep);
        assert ([xs[0]] + Filter(xs[1..], keep))[1..] == Filter(xs[1..], keep);
      }
    }
  }
}
