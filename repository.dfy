/** The stored-URL check `isValid` of repository/Repository.kt: a book or chapter URL is kept when the whole
    URL matches the Java regular expression `^(https?|local)://.*`. */
module Repository {
  import opened Wrappers
  import opened Text

  /** The characters Java's `.` does not match without the DOTALL flag: the line terminators. */
  predicate IsLineTerminator(c: char) {
    c == '\n' || c == '\r' || c == '\U{85}' || c == '\U{2028}' || c == '\U{2029}'
  }

  /** `.*` followed by the end of the input: every remaining character is matched by `.`. */
  function MatchesDotStar(rest: string): (r: bool)
    ensures r <==> forall k :: 0 <= k < |rest| ==> !IsLineTerminator(rest[k])
  {
    rest == [] || (!IsLineTerminator(rest[0]) && MatchesDotStar(rest[1..]))
  }

  /** The anchored part `(https?|local)://`, read left to right: where the remainder starts, if it matches. */
  function SchemePrefix(url: string): (r: Option<nat>)
    ensures r.Some? ==> r.value <= |url|
  {
    if StartsWith(url, "local://") then Some(8)
    else if !StartsWith(url, "http") then None
    else
      var afterHttp := if |url| > 4 && url[4] == 's' then 5 else 4;
      if StartsWith(url[afterHttp..], "://") then Some(afterHttp + 3) else None
  }

  /** The schemes the pattern admits. */
  const Schemes: seq<string> := ["http", "https", "local"]

  /** A reference reading of the pattern: one of the schemes, then "://", then a line of any text. */
  ghost predicate IsSchemeUrl(url: string) {
    exists k :: 0 <= k < |Schemes| && StartsWith(url, Schemes[k] + "://")
      && forall i :: |Schemes[k]| + 3 <= i < |url| ==> !IsLineTerminator(url[i])
  }

  /** A URL that starts with a scheme and "://" has its remainder right after them. */
  lemma SchemePrefixOf(url: string, k: nat)
    requires k < |Schemes| && StartsWith(url, Schemes[k] + "://")
    ensures SchemePrefix(url) == Some(|Schemes[k]| + 3)
  {
    var n := |Schemes[k]| + 3;
    assert url[..n] == Schemes[k] + "://";
    if k < 2 {
      assert !StartsWith(url, "local://") by { assert url[0] == 'h'; }
      assert url[..4] == "http";
      var after := n - 3;
      assert url[4] == (if k == 1 then 's' else ':');
      assert url[after..][..3] == url[after..n];
    }
  }

  /** The remainder the matcher finds follows one of the schemes and "://". */
  lemma SchemePrefixSound(url: string) returns (k: nat)
    requires SchemePrefix(url).Some?
    ensures k < |Schemes| && StartsWith(url, Schemes[k] + "://")
    ensures SchemePrefix(url) == Some(|Schemes[k]| + 3)
  {
    var n := SchemePrefix(url).value;
    if StartsWith(url, "local://") {
      k := 2;
    } else {
      k := n - 7;
      assert url[..4] == "http";
      assert url[n - 3..][..3] == "://";
      assert url[..n] == Schemes[k] + "://";
    }
  }

  /** The rest of a URL matches `.*` exactly when it holds no line terminator. */
  lemma RemainderLine(url: string, n: nat)
    requires n <= |url|
    ensures MatchesDotStar(url[n..]) <==> forall i :: n <= i < |url| ==> !IsLineTerminator(url[i])
  {
    assert forall i :: n <= i < |url| ==> url[i] == url[n..][i - n];
  }

  /** A URL the anchored prefix does not match is not of the reference reading either. */
  lemma NoSchemePrefix(url: string)
    requires SchemePrefix(url).None?
    ensures !IsSchemeUrl(url)
  {
    if IsSchemeUrl(url) {
      var k :| 0 <= k < |Schemes| && StartsWith(url, Schemes[k] + "://")
        && forall i :: |Schemes[k]| + 3 <= i < |url| ==> !IsLineTerminator(url[i]);
      SchemePrefixOf(url, k);
    }
  }

  /** Once the prefix matched, the URL is of the reference reading exactly when its remainder is one line. */
  lemma SchemeRemainder(url: string, n: nat)
    requires SchemePrefix(url) == Some(n)
    ensures IsSchemeUrl(url) <==> MatchesDotStar(url[n..])
  {
    var k := SchemePrefixSound(url);
    RemainderLine(url, n);
    if IsSchemeUrl(url) {
      var k' :| 0 <= k' < |Schemes| && StartsWith(url, Schemes[k'] + "://")
        && forall i :: |Schemes[k']| + 3 <= i < |url| ==> !IsLineTerminator(url[i]);
      SchemePrefixOf(url, k');
    }
  }

  /** `url.matches("^(https?|local)://.*")`: the prefix, then only characters `.` matches. It accepts exactly
      the URLs of the reference reading. */
  function IsValidUrl(url: string): (r: bool)
    ensures r <==> IsSchemeUrl(url)
  {
    match SchemePrefix(url)
    case None => NoSchemePrefix(url); false
    case Some(n) => SchemeRemainder(url, n); MatchesDotStar(url[n..])
  }

  /** Each admitted scheme followed by "://" is valid, even with nothing after it. */
  lemma ValidExamples()
    ensures IsValidUrl("https://a.com")
    ensures IsValidUrl("http://x")
    ensures IsValidUrl("local://")
  {
    HttpsExample();
    HttpExample();
    LocalExample();
  }

  lemma HttpsExample()
    ensures IsValidUrl("https://a.com")
  {
    ValidExample("https://a.com", 1);
  }

  lemma HttpExample()
    ensures IsValidUrl("http://x")
  {
    ValidExample("http://x", 0);
  }

  lemma LocalExample()
    ensures IsValidUrl("local://")
  {
    ValidExample("local://", 2);
  }

  lemma ValidExample(url: string, k: nat)
    requires k < |Schemes| && StartsWith(url, Schemes[k] + "://")
    requires forall i :: |Schemes[k]| + 3 <= i < |url| ==> '\r' < url[i] < '\U{85}'
    ensures IsValidUrl(url)
  {
    SchemePrefixOf(url, k);
    RemainderLine(url, |Schemes[k]| + 3);
  }

  /** Another scheme, or an admitted one in upper case, is not valid. */
  lemma OtherSchemesInvalid()
    ensures !IsValidUrl("ftp://example.com")
    ensures !IsValidUrl("HTTP://example.com")
  {
    assert !StartsWith("ftp://example.com", "http") by { assert "ftp://example.com"[0] != 'h'; }
    assert !StartsWith("ftp://example.com", "local://") by { assert "ftp://example.com"[0] != 'l'; }
    assert !StartsWith("HTTP://example.com", "http") by { assert "HTTP://example.com"[0] != 'h'; }
    assert !StartsWith("HTTP://example.com", "local://") by { assert "HTTP://example.com"[0] != 'l'; }
  }

  /** The scheme must be followed by exactly "://". */
  lemma SeparatorRequired()
    ensures !IsValidUrl("http:/x")
    ensures !IsValidUrl("httpss://x")
  {
    assert SchemePrefix("http:/x") == None by {
      assert "http:/x"[4..] == ":/x";
      assert !StartsWith(":/x", "://") by { assert ":/x"[2] != "://"[2]; }
    }
    assert SchemePrefix("httpss://x") == None by {
      assert "httpss://x"[5..] == "s://x";
      assert !StartsWith("s://x", "://") by { assert "s://x"[0] != "://"[0]; }
    }
  }

  /** A line break after the scheme makes the URL invalid: `.` does not match it. */
  lemma LineBreakInvalid()
    ensures !IsValidUrl("https://a\nb")
  {
    assert SchemePrefix("https://a\nb") == Some(8);
    assert "https://a\nb"[8..][1] == '\n';
  }

  /** A stored book; only its URL is judged. */
  datatype Book = Book(title: string, url: string)

  /** A stored chapter; only its URL is judged. */
  datatype Chapter = Chapter(title: string, url: string, bookUrl: string)

  /** `isValid(book)`. */
  function IsValidBook(book: Book): (r: bool)
    ensures r <==> IsSchemeUrl(book.url)
  {
    IsValidUrl(book.url)
  }

  /** `isValid(chapter)`. */
  function IsValidChapter(chapter: Chapter): (r: bool)
    ensures r <==> IsSchemeUrl(chapter.url)
  {
    IsValidUrl(chapter.url)
  }

  /** A book and a chapter at the same URL are judged alike, whatever their other fields. */
  lemma BookAndChapterAlike(book: Book, chapter: Chapter)
    requires book.url == chapter.url
    ensures IsValidBook(book) == IsValidChapter(chapter)
  {
  }
}
