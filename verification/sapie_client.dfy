/**
 * The pure decisions inside SapieClient's network methods: whether a book
 * can be downloaded and with which form values, the name the download is
 * saved under, how a next-page link becomes a URL, which ranking a ranking
 * type selects and the shape of the book-detail URL.
 *
 * Sessions, HTTP requests, HTML parsing and the Content-Disposition parsing
 * are not part of this model: a filename found in the response headers is a
 * parameter, and so are the session tokens.
 */
module SapieClient {
  import opened Strings

  // ------------------------------------------------------------------ download

  /** A session token, or "" when the session does not hold it. */
  function Token(tokens: map<string, string>, key: string): string
  {
    if key in tokens then tokens[key] else ""
  }

  /** An override that is present and non-empty wins over the default. */
  function Chosen(over: Option<string>, default: string): (r: string)
    ensures over.Some? && over.value != "" ==> r == over.value
    ensures over.None? || over.value == "" ==> r == default
  {
    if over.Some? && over.value != "" then over.value else default
  }

  /** The form download_book posts. */
  datatype DownloadForm = DownloadForm(
    s00101: string, s00102: string, s00103: string, rtntme: string,
    s00202: string, s00215: string, s00224: string, s00263: string)

  /** What download_book does before any request: refuse, or post a form. */
  datatype DownloadStart = NotLoggedIn | NotDownloadable | Post(form: DownloadForm)

  /** An id that names no downloadable content: empty, or "0". */
  predicate NoContentId(bookId: string)
  {
    bookId == "" || bookId == "0"
  }

  /**
   * The first steps of download_book: log-in check, book id check, then the
   * form values, which depend on whether the format is DAISY.
   */
  function StartDownload(loggedIn: bool, bookId: string, bookFormat: string,
                         s00202Override: Option<string>, s00215Override: Option<string>,
                         tokens: map<string, string>): DownloadStart
  {
    if !loggedIn then NotLoggedIn
    else if NoContentId(bookId) then NotDownloadable
    else
      var daisy := bookFormat == "DAISY";
      var s00101 := if daisy then "J31DWN21" else "J31DWN17";
      var s00202 := Chosen(s00202Override, if daisy then "22" else "11");
      var returnPage := if daisy then "J01LST11" else "J01LST01";
      var s00215 := Chosen(s00215Override, "1");
      Post(DownloadForm(s00101, Token(tokens, "S00102"), Token(tokens, "S00103"), Token(tokens, "RTNTME"),
                        s00202, s00215, bookId, returnPage))
  }

  /**
   * A request is posted exactly for a logged-in session and an id other than
   * "" and "0"; it asks for that id, carries the session's tokens, and its
   * action, return page and default S00202 follow the format.
   */
  lemma StartDownloadCases(loggedIn: bool, bookId: string, bookFormat: string,
                           s00202Override: Option<string>, s00215Override: Option<string>,
                           tokens: map<string, string>)
    ensures var r := StartDownload(loggedIn, bookId, bookFormat, s00202Override, s00215Override, tokens);
      && (r.Post? <==> loggedIn && bookId != "" && bookId != "0")
      && (r.NotLoggedIn? <==> !loggedIn)
      && (r.Post? ==>
            && r.form.s00224 == bookId
            && r.form.s00102 == Token(tokens, "S00102") && r.form.s00103 == Token(tokens, "S00103")
            && r.form.rtntme == Token(tokens, "RTNTME")
            && (bookFormat == "DAISY" ==> r.form.s00101 == "J31DWN21" && r.form.s00263 == "J01LST11")
            && (bookFormat != "DAISY" ==> r.form.s00101 == "J31DWN17" && r.form.s00263 == "J01LST01")
            && (s00202Override.None? || s00202Override.value == "" ==>
                  r.form.s00202 == (if bookFormat == "DAISY" then "22" else "11"))
            && (s00202Override.Some? && s00202Override.value != "" ==> r.form.s00202 == s00202Override.value)
            && (s00215Override.None? || s00215Override.value == "" ==> r.form.s00215 == "1")
            && (s00215Override.Some? && s00215Override.value != "" ==> r.form.s00215 == s00215Override.value))
  {
  }

  // ------------------------------------------------------------------ filename

  /** The name used when the response names no file: the same for both formats. */
  function FallbackFilename(bookId: string): string
  {
    "sapie_book_" + bookId + ".zip"
  }

  /** The header's filename when it is non-empty, else the fallback. */
  function ChosenFilename(headerName: Option<string>, bookId: string): string
  {
    Chosen(headerName, FallbackFilename(bookId))
  }

  /** A character the sanitiser keeps: one of "-_.() ", an ASCII letter or digit, or beyond ASCII. */
  predicate Allowed(c: char)
  {
    c in "-_.() " || 'a' <= c <= 'z' || 'A' <= c <= 'Z' || '0' <= c <= '9' || c as int > 127
  }

  /** Each character not allowed becomes '_'. */
  function Sanitize(name: string): (r: string)
    ensures |r| == |name|
  {
    seq(|name|, k requires 0 <= k < |name| => if Allowed(name[k]) then name[k] else '_')
  }

  /**
   * Sanitising keeps the length and every allowed character, leaves only
   * allowed characters, and a second pass changes nothing.
   */
  lemma SanitizeProperties(name: string)
    ensures forall k :: 0 <= k < |name| ==> Allowed(name[k]) ==> Sanitize(name)[k] == name[k]
    ensures forall k :: 0 <= k < |name| ==> Allowed(Sanitize(name)[k])
    ensures Sanitize(Sanitize(name)) == Sanitize(name)
    ensures (forall k :: 0 <= k < |name| ==> Allowed(name[k])) ==> Sanitize(name) == name
  {
    assert Allowed('_');
  }

  /** The name cut to a stem of at most 100 characters, its extension kept. */
  function Truncated(name: string): string
  {
    var (stem, ext) := Splitext(name);
    (if |stem| > 100 then stem[..100] else stem) + ext
  }

  /**
   * Truncation keeps the extension as the suffix and the first 100
   * characters of the stem; a stem of at most 100 characters is untouched.
   */
  lemma TruncatedKeepsExtension(name: string)
    ensures var (stem, ext) := Splitext(name);
      && EndsWith(Truncated(name), ext)
      && StartsWith(Truncated(name), stem[..Min(|stem|, 100)])
      && |Truncated(name)| == Min(|stem|, 100) + |ext|
      && (|stem| <= 100 ==> Truncated(name) == name)
  {
    var (stem, ext) := Splitext(name);
    var cut := if |stem| > 100 then stem[..100] else stem;
    SplitextParts(name);
    EndsWithAppend(cut, ext);
    assert (cut + ext)[..|cut|] == cut;
  }

  /** The name download_book saves under. */
  function SaveName(headerName: Option<string>, bookId: string): string
  {
    Truncated(Sanitize(ChosenFilename(headerName, bookId)))
  }

  /** A character that is an ASCII letter or digit. */
  predicate AsciiAlnum(c: char)
  {
    'a' <= c <= 'z' || 'A' <= c <= 'Z' || '0' <= c <= '9'
  }

  /** The fallback name of an alphanumeric id of at most 89 characters splits at ".zip". */
  lemma FallbackSplit(bookId: string)
    requires forall k :: 0 <= k < |bookId| ==> AsciiAlnum(bookId[k])
    ensures Splitext(FallbackFilename(bookId)) == ("sapie_book_" + bookId, ".zip")
  {
    var p := FallbackFilename(bookId);
    var stem := "sapie_book_" + bookId;
    assert p == stem + ".zip";
    var n := |p|;
    assert p[n - 4] == '.' && p[n - 3] == 'z' && p[n - 2] == 'i' && p[n - 1] == 'p';
    forall k | 0 <= k < n ensures p[k] != '/' && p[k] != '\\' {
      if k < 11 {
        assert p[k] == "sapie_book_"[k];
      } else if k < n - 4 {
        assert p[k] == bookId[k - 11];
      } else {
        assert p[k] == ".zip"[k - (n - 4)];
      }
    }
    var back, fwd := RFind(p, '\\'), RFind(p, '/');
    assert back == -1 && fwd == -1;
    var dot := RFind(p, '.');
    assert dot == n - 4;
    assert p[0] != '.';
    assert p[..dot] == stem && p[dot..] == ".zip";
  }

  /**
   * Without a header filename, an alphanumeric id of at most 89 characters
   * is saved as "sapie_book_{id}.zip" unchanged by sanitising and truncation.
   */
  lemma FallbackNameKept(bookId: string)
    requires forall k :: 0 <= k < |bookId| ==> AsciiAlnum(bookId[k])
    requires |bookId| <= 89
    ensures SaveName(None, bookId) == "sapie_book_" + bookId + ".zip"
  {
    var p := FallbackFilename(bookId);
    forall k | 0 <= k < |p| ensures Allowed(p[k]) {
      if k < 11 {
        assert p[k] == "sapie_book_"[k];
      } else if k < |p| - 4 {
        assert p[k] == bookId[k - 11];
      } else {
        assert p[k] == ".zip"[k - (|p| - 4)];
      }
    }
    SanitizeProperties(p);
    FallbackSplit(bookId);
  }

  // ----------------------------------------------------------------- URLs

  const CgiBase: string := "https://library.sapie.or.jp/cgi-bin/"

  /** search: the next-page link as is when it starts with "http", else under the CGI directory. */
  function NextPageUrl(href: string): string
  {
    if StartsWith(href, "http") then href else CgiBase + href
  }

  /** The result is always absolute, resolving it again changes nothing, and a relative link stays its suffix. */
  lemma NextPageUrlAbsolute(href: string)
    ensures StartsWith(NextPageUrl(href), "http")
    ensures NextPageUrl(NextPageUrl(href)) == NextPageUrl(href)
    ensures !StartsWith(href, "http") ==> EndsWith(NextPageUrl(href), href)
  {
    if !StartsWith(href, "http") {
      assert CgiBase[..4] == "http";
      assert (CgiBase + href)[..4] == CgiBase[..4];
      EndsWithAppend(CgiBase, href);
    }
  }

  /** get_popular_books: a ranking's S00201 parameter, book type and display name. */
  datatype Ranking = Ranking(s00201: string, bookType: string, name: string)

  const RankingMap: map<string, Ranking> := map[
    "braille_download" := Ranking("1", "braille", "点字ダウンロード"),
    "daisy_download" := Ranking("3", "daisy", "デイジーダウンロード"),
    "daisy_play" := Ranking("4", "daisy", "デイジー再生"),
    "braille_request" := Ranking("21", "braille", "点字オンラインリクエスト"),
    "daisy_request" := Ranking("22", "daisy", "録音オンラインリクエスト")]

  /** The ranking a type selects; an unknown type selects the braille download ranking. */
  function RankingFor(rankingType: string): Ranking
  {
    if rankingType in RankingMap then RankingMap[rankingType] else Ranking("1", "braille", "点字ダウンロード")
  }

  /**
   * An unknown type behaves as "braille_download"; every ranking is of
   * braille or DAISY books, and its S00201 parameter tells which.
   */
  lemma RankingChoice(rankingType: string)
    ensures rankingType !in RankingMap ==> RankingFor(rankingType) == RankingFor("braille_download")
    ensures RankingFor(rankingType).bookType in {"braille", "daisy"}
    ensures RankingFor(rankingType).bookType == "daisy" <==> RankingFor(rankingType).s00201 in {"3", "4", "22"}
  {
  }

  /** Distinct known ranking types ask for distinct S00201 values. */
  lemma RankingsDistinct(a: string, b: string)
    requires a in RankingMap && b in RankingMap && a != b
    ensures RankingMap[a].s00201 != RankingMap[b].s00201
  {
  }

  /** get_book_details: the detail page URL; the S00221 field appears only when given. */
  function DetailUrl(base: string, tokens: map<string, string>, s00221: string, s00222: string): string
  {
    var head := base + "?" + "S00101=J00DTL01&" + "S00102=" + Token(tokens, "S00102") + "&"
      + "S00103=" + Token(tokens, "S00103") + "&";
    var tail := "S00222=" + s00222 + "&" + "RTNTME=" + Token(tokens, "RTNTME");
    if s00221 != "" then head + "S00221=" + s00221 + "&" + tail else head + tail
  }

  /** The page the client asks for details on. */
  const LibraryBaseUrl: string := "https://library.sapie.or.jp/cgi-bin/CN1MN1"

  /**
   * The two URL shapes differ only by the "S00221={s00221}&" field: the URL
   * without it is the URL with it, field removed, and a given S00221 appears
   * in the URL.
   */
  lemma DetailUrlField(tokens: map<string, string>, s00221: string, s00222: string)
    requires s00221 != ""
    ensures var field := "S00221=" + s00221 + "&";
      var withField := DetailUrl(LibraryBaseUrl, tokens, s00221, s00222);
      var without := DetailUrl(LibraryBaseUrl, tokens, "", s00222);
      exists i :: 0 <= i <= |without| && withField == without[..i] + field + without[i..]
    ensures Occurs(DetailUrl(LibraryBaseUrl, tokens, s00221, s00222), "S00221=" + s00221)
  {
    var head := LibraryBaseUrl + "?" + "S00101=J00DTL01&" + "S00102=" + Token(tokens, "S00102") + "&"
      + "S00103=" + Token(tokens, "S00103") + "&";
    var tail := "S00222=" + s00222 + "&" + "RTNTME=" + Token(tokens, "RTNTME");
    var field := "S00221=" + s00221 + "&";
    var without := head + tail;
    assert without[..|head|] == head && without[|head|..] == tail;
    assert DetailUrl(LibraryBaseUrl, tokens, s00221, s00222) == head + field + tail;
    assert head + field + tail == without[..|head|] + field + without[|head|..];
    assert DetailUrl(LibraryBaseUrl, tokens, "", s00222) == without;
    var u := head + field + tail;
    assert u[|head|..|head| + |"S00221=" + s00221|] == "S00221=" + s00221;
    assert OccursAt(u, "S00221=" + s00221, |head|);
  }
}
