/**
 * The string logic of the YouTube helpers: recognising a video URL, pulling the
 * 11-character video id out of it, and the `youtube-` prefix that turns a video
 * id into a modal id and back.
 */
module YouTube {
  import opened Wrappers

  /** The prefix of the modal id `appendModal` writes for a video. */
  const PREFIX: string := "youtube-"

  /** What `'youtube-' + videoId` gives when `parseId` found nothing. */
  const UNDEFINED: string := "undefined"

  /** The characters a JavaScript `.` does not match. */
  predicate IsLineTerminator(c: char) {
    c == '\n' || c == '\r' || c == '\U{2028}' || c == '\U{2029}'
  }

  /**
   * A JavaScript regular-expression `.`: any character but a line terminator.
   * It is applied to one character, where JavaScript without the `u` flag
   * applies it to one UTF-16 code unit; the two agree on the Basic
   * Multilingual Plane.
   */
  predicate Dot(c: char) {
    !IsLineTerminator(c)
  }

  /** `\w`. */
  predicate IsWordChar(c: char) {
    'a' <= c <= 'z' || 'A' <= c <= 'Z' || '0' <= c <= '9' || c == '_'
  }

  // ---------------------------------------------------------------------------
  // Recognition: the pattern `^(https?://)?(www.)?(youtube.com|youtu.?be)/.+$`
  // (the string literal's `\.`, `\:` and `\/` lose their backslashes, so each
  // `.` matches any character but a line terminator).
  // ---------------------------------------------------------------------------

  /** `/.+$`: a slash followed by at least one character, none a line terminator. */
  predicate PathRest(t: string) {
    |t| >= 2 && t[0] == '/' && forall i :: 1 <= i < |t| ==> Dot(t[i])
  }

  /** `(youtube.com|youtu.?be)` followed by the path, tried alternative by alternative. */
  predicate HostThenPath(t: string) {
    || (|t| >= 11 && t[..7] == "youtube" && Dot(t[7]) && t[8..11] == "com" && PathRest(t[11..]))
    || (|t| >= 8 && t[..5] == "youtu" && Dot(t[5]) && t[6..8] == "be" && PathRest(t[8..]))
    || (|t| >= 7 && t[..7] == "youtube" && PathRest(t[7..]))
  }

  /** `(www.)?` followed by host and path: with the optional group, then without it. */
  predicate WwwThenRest(t: string) {
    || (|t| >= 4 && t[..3] == "www" && Dot(t[3]) && HostThenPath(t[4..]))
    || HostThenPath(t)
  }

  /** Whether `openStr.match(youtube.test)` succeeds. */
  predicate IsYouTubeUrl(s: string) {
    || WwwThenRest(s)
    || (|s| >= 7 && s[..7] == "http://" && WwwThenRest(s[7..]))
    || (|s| >= 8 && s[..8] == "https://" && WwwThenRest(s[8..]))
  }

  // The language of the same pattern, one group at a time, as a reference.

  predicate Scheme(x: string) {
    x == "" || x == "http://" || x == "https://"
  }

  predicate Www(x: string) {
    x == "" || (|x| == 4 && x[..3] == "www" && Dot(x[3]))
  }

  predicate Host(x: string) {
    || (|x| == 11 && x[..7] == "youtube" && Dot(x[7]) && x[8..] == "com")
    || (|x| == 8 && x[..5] == "youtu" && Dot(x[5]) && x[6..] == "be")
    || x == "youtube"
  }

  ghost predicate HostPathSplit(t: string) {
    exists k :: 0 <= k <= |t| && Host(t[..k]) && PathRest(t[k..])
  }

  ghost predicate WwwSplit(t: string) {
    exists j :: 0 <= j <= |t| && Www(t[..j]) && HostPathSplit(t[j..])
  }

  /** `s` is a scheme, an optional `www.`, a host and a path, in that order. */
  ghost predicate InUrlLanguage(s: string) {
    exists i :: 0 <= i <= |s| && Scheme(s[..i]) && WwwSplit(s[i..])
  }

  lemma HostThenPathIsSplit(t: string)
    ensures HostThenPath(t) <==> HostPathSplit(t)
  {
    if HostThenPath(t) {
      if |t| >= 11 && t[..7] == "youtube" && Dot(t[7]) && t[8..11] == "com" && PathRest(t[11..]) {
        assert Host(t[..11]);
      } else if |t| >= 8 && t[..5] == "youtu" && Dot(t[5]) && t[6..8] == "be" && PathRest(t[8..]) {
        assert Host(t[..8]);
      } else {
        assert Host(t[..7]);
      }
    }
    if HostPathSplit(t) {
      var k :| 0 <= k <= |t| && Host(t[..k]) && PathRest(t[k..]);
      assert t[..k][..7] == t[..7];
      assert t[..k][..5] == t[..5];
    }
  }

  lemma WwwThenRestIsSplit(t: string)
    ensures WwwThenRest(t) <==> WwwSplit(t)
  {
    HostThenPathIsSplit(t);
    if |t| >= 4 {
      HostThenPathIsSplit(t[4..]);
    }
    if WwwThenRest(t) {
      if |t| >= 4 && t[..3] == "www" && Dot(t[3]) && HostThenPath(t[4..]) {
        assert Www(t[..4]);
      } else {
        assert Www(t[..0]) && t[0..] == t;
      }
    }
    if WwwSplit(t) {
      var j :| 0 <= j <= |t| && Www(t[..j]) && HostPathSplit(t[j..]);
      if j != 0 {
        assert t[..j][..3] == t[..3];
      }
    }
  }

  /**
   * The recognition test accepts exactly the strings of the pattern's
   * language: the alternatives it tries in order cover every way of splitting
   * the string into scheme, `www.`, host and path.
   */
  lemma IsYouTubeUrlMatchesLanguage(s: string)
    ensures IsYouTubeUrl(s) <==> InUrlLanguage(s)
  {
    RecognisedInLanguage(s);
    LanguageRecognised(s);
  }

  lemma RecognisedInLanguage(s: string)
    ensures IsYouTubeUrl(s) ==> InUrlLanguage(s)
  {
    if WwwThenRest(s) {
      WwwThenRestIsSplit(s);
      assert Scheme(s[..0]) && s[0..] == s;
    } else if |s| >= 7 && s[..7] == "http://" && WwwThenRest(s[7..]) {
      WwwThenRestIsSplit(s[7..]);
      assert Scheme(s[..7]);
    } else if |s| >= 8 && s[..8] == "https://" && WwwThenRest(s[8..]) {
      WwwThenRestIsSplit(s[8..]);
      assert Scheme(s[..8]);
    }
  }

  lemma LanguageRecognised(s: string)
    ensures InUrlLanguage(s) ==> IsYouTubeUrl(s)
  {
    if InUrlLanguage(s) {
      var i :| 0 <= i <= |s| && Scheme(s[..i]) && WwwSplit(s[i..]);
      WwwThenRestIsSplit(s[i..]);
      assert |s[..i]| == i;
      if i == 0 {
        assert s[0..] == s;
      } else if i == 7 {
        assert s[..7] == "http://";
      } else {
        assert i == 8 && s[..8] == "https://";
      }
    }
  }

  // ---------------------------------------------------------------------------
  // Id extraction: the pattern
  // `^.*((youtu.be\/)|(v\/)|(\/u\/\w\/)|(embed\/)|(watch\?))\??v?=?([^#\&\?]*).*`
  // and the length-11 check on its seventh group.
  // ---------------------------------------------------------------------------

  /**
   * The length of the marker alternative that matches at `p`, or 0. The five
   * alternatives begin with different characters, so at most one matches.
   */
  function MarkerLength(s: string, p: nat): (n: nat)
    requires p <= |s|
    ensures n == 0 || (n in {2, 5, 6, 9} && p + n <= |s|)
  {
    var t := s[p..];
    if |t| >= 9 && t[..5] == "youtu" && Dot(t[5]) && t[6..9] == "be/" then 9
    else if |t| >= 2 && t[..2] == "v/" then 2
    else if |t| >= 5 && t[..3] == "/u/" && IsWordChar(t[3]) && t[4] == '/' then 5
    else if |t| >= 6 && t[..6] == "embed/" then 6
    else if |t| >= 6 && t[..6] == "watch?" then 6
    else 0
  }

  /**
   * The alternatives of the marker group, one disjunct each, as a reference:
   * the alternative of length `m` matches the `m` characters at `p`.
   */
  predicate MarkerAt(s: string, p: nat, m: nat) {
    p + m <= |s| &&
    var w := s[p..p + m];
    || (m == 9 && w[..5] == "youtu" && Dot(w[5]) && w[6..] == "be/")
    || (m == 2 && w == "v/")
    || (m == 5 && w[..3] == "/u/" && IsWordChar(w[3]) && w[4] == '/')
    || (m == 6 && w == "embed/")
    || (m == 6 && w == "watch?")
  }

  /**
   * `MarkerLength` is the length of the one alternative matching at `p`: no
   * other length matches there, and 0 means none matches.
   */
  lemma MarkerLengthMatchesAlternatives(s: string, p: nat)
    requires p <= |s|
    ensures MarkerLength(s, p) > 0 ==> MarkerAt(s, p, MarkerLength(s, p))
    ensures forall m :: MarkerAt(s, p, m) ==> m == MarkerLength(s, p)
    ensures MarkerLength(s, p) == 0 ==> forall m :: !MarkerAt(s, p, m)
  {
    var t := s[p..];
    forall m: nat | MarkerAt(s, p, m)
      ensures m == MarkerLength(s, p)
    {
      var w := s[p..p + m];
      assert w == t[..m];
      if m == 9 {
        assert w[..5] == t[..5] && w[5] == t[5] && w[6..] == t[6..9];
      } else if m == 5 {
        assert w[..3] == t[..3] && w[3] == t[3] && w[4] == t[4];
        assert t[..2] != "v/" by { assert t[0] == '/'; }
      } else if m == 6 {
        assert t[..2] != "v/" by { assert t[0] == w[0]; }
        assert t[..3] != "/u/" by { assert t[0] == w[0]; }
      } else {
        assert w[0] == 'v';
      }
    }
    var n := MarkerLength(s, p);
    if n > 0 {
      var w := s[p..p + n];
      assert w == t[..n];
      if n == 9 { assert w[..5] == t[..5] && w[5] == t[5] && w[6..] == t[6..9]; }
      if n == 5 { assert w[..3] == t[..3] && w[3] == t[3] && w[4] == t[4]; }
    }
  }

  /** How far the leading `.*` can reach: up to the first line terminator. */
  function LineEnd(s: string): (n: nat)
    ensures n <= |s|
    ensures forall i :: 0 <= i < n ==> !IsLineTerminator(s[i])
    ensures n < |s| ==> IsLineTerminator(s[n])
  {
    if s == [] || IsLineTerminator(s[0]) then 0 else 1 + LineEnd(s[1..])
  }

  /**
   * The greedy `^.*` backtracks from its longest reach, so the match uses the
   * last position below `n` where a marker matches.
   */
  function LastMarkerBelow(s: string, n: nat): (r: Option<nat>)
    requires n <= |s|
    ensures r.Some? ==> r.value < n && MarkerLength(s, r.value) > 0
    ensures r.Some? ==> forall q :: r.value < q < n ==> MarkerLength(s, q) == 0
    ensures r.None? ==> forall q :: 0 <= q < n ==> MarkerLength(s, q) == 0
  {
    if n == 0 then None
    else if MarkerLength(s, n - 1) > 0 then Some(n - 1)
    else LastMarkerBelow(s, n - 1)
  }

  /** The words `\??v?=?` matches. */
  const OPTIONAL_WORDS: set<string> := {"", "?", "v", "=", "?v", "?=", "v=", "?v="}

  /** `\??v?=?`, each taken greedily: the longest word of the pattern at `q`. */
  function SkipOptionals(s: string, q: nat): (r: nat)
    requires q <= |s|
    ensures q <= r <= |s| && s[q..r] in OPTIONAL_WORDS
    ensures r < |s| ==> s[q..r] + [s[r]] !in OPTIONAL_WORDS
  {
    var a := if q < |s| && s[q] == '?' then q + 1 else q;
    var b := if a < |s| && s[a] == 'v' then a + 1 else a;
    var r := if b < |s| && s[b] == '=' then b + 1 else b;
    assert s[q..r] in OPTIONAL_WORDS by {
      var w := s[q..r];
      assert |w| == r - q && forall k :: 0 <= k < |w| ==> w[k] == s[q + k];
      if r == q {
        assert w == "";
      } else if r == q + 3 {
        assert w == "?v=";
      } else if r == q + 1 {
        assert w == [s[q]] && s[q] in "?v=";
      } else if a == q {
        assert w == "v=";
      } else if b == a {
        assert w == "?=";
      } else {
        assert w == "?v";
      }
    }
    assert r < |s| ==> s[q..r] + [s[r]] !in OPTIONAL_WORDS by {
      if r < |s| {
        var w := s[q..r] + [s[r]];
        assert |w| == r - q + 1 && w[r - q] == s[r] && forall k :: 0 <= k < r - q ==> w[k] == s[q + k];
        if r == q {
          assert w[0] != '?' && w[0] != 'v' && w[0] != '=';
        } else if r == q + 1 {
          assert w[0] == '?' ==> w[1] != 'v' && w[1] != '=';
          assert w[0] == 'v' ==> w[1] != '=';
          assert w != "?v" && w != "?=" && w != "v=";
        } else if r == q + 2 {
          assert w[..2] == "?v" ==> w[2] != '=';
          assert w != "?v=";
        }
      }
    }
    r
  }

  /** A character of `[^#\&\?]`. */
  predicate IsIdChar(c: char) {
    c != '#' && c != '&' && c != '?'
  }

  /** `([^#\&\?]*)` taken greedily: the longest prefix of `t` without `#`, `&` or `?`. */
  function IdRun(t: string): (r: string)
    ensures r <= t
    ensures forall i :: 0 <= i < |r| ==> IsIdChar(r[i])
    ensures |r| < |t| ==> !IsIdChar(t[|r|])
  {
    if t == [] || !IsIdChar(t[0]) then [] else [t[0]] + IdRun(t[1..])
  }

  /** The seventh group when the marker matched at `p`. */
  function GroupAfter(s: string, p: nat): (g: string)
    requires p <= |s| && MarkerLength(s, p) > 0
    ensures var q := SkipOptionals(s, p + MarkerLength(s, p));
      && g <= s[q..]
      && (forall i :: 0 <= i < |g| ==> IsIdChar(g[i]))
      && (q + |g| < |s| ==> !IsIdChar(s[q + |g|]))
  {
    IdRun(s[SkipOptionals(s, p + MarkerLength(s, p))..])
  }

  /**
   * `parseId`: the video id, or None where the source returns `undefined`.
   * The length test counts characters, not UTF-16 code units.
   */
  function ParseId(url: string): (id: Option<string>)
    ensures id.Some? ==> |id.value| == 11 && forall i :: 0 <= i < 11 ==> IsIdChar(id.value[i])
  {
    match LastMarkerBelow(url, LineEnd(url))
    case None => None
    case Some(p) => var v := GroupAfter(url, p); if |v| == 11 then Some(v) else None
  }

  /**
   * When the last marker on the first line is at `p`, the id is the run of
   * id characters after it (and after `?`, `v`, `=`), if that run has 11
   * characters; markers earlier in the URL do not matter.
   */
  lemma ParseIdUsesLastMarker(url: string, p: nat)
    requires p < LineEnd(url) && MarkerLength(url, p) > 0
    requires forall q :: p < q < LineEnd(url) ==> MarkerLength(url, q) == 0
    ensures ParseId(url) == if |GroupAfter(url, p)| == 11 then Some(GroupAfter(url, p)) else None
  {
    assert LastMarkerBelow(url, LineEnd(url)) == Some(p);
  }

  /** With no marker on the first line there is no id. */
  lemma ParseIdWithoutMarker(url: string)
    requires forall q :: 0 <= q < LineEnd(url) ==> MarkerLength(url, q) == 0
    ensures ParseId(url) == None
  {
  }

  // ---------------------------------------------------------------------------
  // Worked cases of both patterns: watch URLs
  // ---------------------------------------------------------------------------

  /** A watch URL without its video id; the `watch?` marker starts at index 24. */
  const WATCH_URL: string := "https://www.youtube.com/watch?v="

  /** The characters YouTube uses in video ids. */
  predicate IsVideoIdChar(c: char) {
    IsWordChar(c) || c == '-'
  }

  predicate IsVideoId(id: string) {
    |id| == 11 && forall i :: 0 <= i < 11 ==> IsVideoIdChar(id[i])
  }

  /** Every marker ends in `/` or `?` and only `/u/` starts with `/`: none starts at `q` without one of those after it. */
  lemma NoMarkerWithoutSlash(s: string, q: nat)
    requires q < |s| && s[q] != '/'
    requires forall i :: q < i < |s| ==> s[i] != '/' && s[i] != '?'
    ensures MarkerLength(s, q) == 0
  {
    var t := s[q..];
    if |t| >= 9 { assert t[6..9][2] == t[8] == s[q + 8]; }
    if |t| >= 6 { assert t[..6][5] == t[5] == s[q + 5]; }
    if |t| >= 2 { assert t[..2][1] == t[1] == s[q + 1]; }
    if |t| >= 5 { assert t[..3][0] == t[0]; }
  }

  lemma WatchUrlParts()
    ensures WATCH_URL[..8] == "https://" && WATCH_URL[8..11] == "www" && WATCH_URL[12..19] == "youtube"
    ensures WATCH_URL[20..23] == "com" && WATCH_URL[24..30] == "watch?"
  {
    WatchScheme();
    WatchHost();
    WatchPath();
  }

  // One slice of the literal per lemma: each is cheap alone.
  lemma WatchScheme()
    ensures WATCH_URL[..8] == "https://"
  {
    assert WATCH_URL[..8] == [WATCH_URL[0], WATCH_URL[1], WATCH_URL[2], WATCH_URL[3], WATCH_URL[4], WATCH_URL[5], WATCH_URL[6], WATCH_URL[7]];
  }

  lemma WatchHost()
    ensures WATCH_URL[8..11] == "www" && WATCH_URL[12..19] == "youtube" && WATCH_URL[20..23] == "com"
  {
    var host := "www.youtube.com";
    assert WATCH_URL == "https://" + host + "/watch?v=";
    assert WATCH_URL[8..23] == host;
    assert host[..3] == "www" && host[4..11] == "youtube" && host[12..] == "com";
    assert WATCH_URL[8..11] == WATCH_URL[8..23][..3];
    assert WATCH_URL[12..19] == WATCH_URL[8..23][4..11];
    assert WATCH_URL[20..23] == WATCH_URL[8..23][12..];
  }

  lemma WatchPath()
    ensures WATCH_URL[24..30] == "watch?"
  {
    assert WATCH_URL[24..30] == [WATCH_URL[24], WATCH_URL[25], WATCH_URL[26], WATCH_URL[27], WATCH_URL[28], WATCH_URL[29]];
  }

  lemma WatchUrlShape(id: string)
    requires |id| == 11
    ensures var url := WATCH_URL + id;
      && |url| == 43 && url[..8] == "https://" && url[8..11] == "www" && url[11] == '.'
      && url[12..19] == "youtube" && url[19] == '.' && url[20..23] == "com" && url[23] == '/'
      && url[24..30] == "watch?" && url[25] == 'a' && url[26] == 't' && url[27] == 'c' && url[28] == 'h'
      && url[29] == '?' && url[30] == 'v' && url[31] == '=' && url[32..] == id
  {
    var url := WATCH_URL + id;
    assert url[..32] == WATCH_URL;
    WatchUrlParts();
    assert url[..8] == WATCH_URL[..8];
    assert url[8..11] == WATCH_URL[8..11];
    assert url[12..19] == WATCH_URL[12..19];
    assert url[20..23] == WATCH_URL[20..23];
    assert url[24..30] == WATCH_URL[24..30];
  }

  lemma WatchUrlOneLine(id: string)
    requires IsVideoId(id)
    ensures forall i :: 0 <= i < |WATCH_URL + id| ==> !IsLineTerminator((WATCH_URL + id)[i])
  {
    var url := WATCH_URL + id;
    forall i | 0 <= i < |url| ensures !IsLineTerminator(url[i]) {
      if i >= 32 {
        assert url[i] == id[i - 32];
      } else {
        assert url[i] == WATCH_URL[i] && WATCH_URL[i] in WATCH_URL;
      }
    }
  }

  lemma NoMarkerInId(id: string, q: nat)
    requires IsVideoId(id) && 30 <= q < 43
    ensures MarkerLength(WATCH_URL + id, q) == 0
  {
    var url := WATCH_URL + id;
    WatchUrlShape(id);
    forall i | q < i < |url| ensures url[i] != '/' && url[i] != '?' {
      if i >= 32 { assert url[i] == id[i - 32]; }
    }
    if q >= 32 { assert url[q] == id[q - 32]; }
    NoMarkerWithoutSlash(url, q);
  }

  lemma NoMarkerInQuery(id: string, q: nat)
    requires |id| == 11 && 24 < q < 30
    ensures MarkerLength(WATCH_URL + id, q) == 0
  {
    var url := WATCH_URL + id;
    WatchUrlShape(id);
    assert url[q..][0] == url[q];
  }

  lemma WatchGroup(id: string)
    requires IsVideoId(id)
    ensures MarkerLength(WATCH_URL + id, 24) == 6 && GroupAfter(WATCH_URL + id, 24) == id
  {
    var url := WATCH_URL + id;
    WatchUrlShape(id);
    assert url[24..][..6] == url[24..30];
    assert SkipOptionals(url, 30) == 32;
  }

  /** `parseId` returns the id of every watch URL `https://www.youtube.com/watch?v=<id>`. */
  lemma WatchUrlYieldsId(id: string)
    requires IsVideoId(id)
    ensures ParseId(WATCH_URL + id) == Some(id)
  {
    var url := WATCH_URL + id;
    WatchUrlOneLine(id);
    WatchGroup(id);
    forall q | 24 < q < 43 ensures MarkerLength(url, q) == 0 {
      if q >= 30 {
        NoMarkerInId(id, q);
      } else {
        NoMarkerInQuery(id, q);
      }
    }
    ParseIdUsesLastMarker(url, 24);
  }

  /** Every watch URL passes the recognition test. */
  lemma WatchUrlRecognised(id: string)
    requires IsVideoId(id)
    ensures IsYouTubeUrl(WATCH_URL + id)
  {
    var url := WATCH_URL + id;
    WatchUrlShape(id);
    WatchUrlOneLine(id);
    var u := url[8..][4..];
    assert u == url[12..];
    assert u[..7] == url[12..19] && u[8..11] == url[20..23];
    assert PathRest(u[11..]) by {
      forall i | 1 <= i < |u[11..]| ensures Dot(u[11..][i]) {
        assert u[11..][i] == url[23 + i];
      }
    }
    assert HostThenPath(u);
    assert url[8..][..3] == url[8..11];
  }

  lemma ExampleIdIsVideoId()
    ensures IsVideoId("dQw4w9WgXcQ")
  {
    forall i | 0 <= i < 11 ensures IsVideoIdChar("dQw4w9WgXcQ"[i]) {
      assert "dQw4w9WgXcQ"[i] in "dQw4w9WgXcQ";
    }
  }

  lemma ExampleUrl()
    ensures WATCH_URL + "dQw4w9WgXcQ" == "https://www.youtube.com/watch?v=dQw4w9WgXcQ"
  {
  }

  /** `https://www.youtube.com/watch?v=dQw4w9WgXcQ` is recognised and yields `dQw4w9WgXcQ`. */
  lemma ParseIdExample()
    ensures IsYouTubeUrl("https://www.youtube.com/watch?v=dQw4w9WgXcQ")
    ensures ParseId("https://www.youtube.com/watch?v=dQw4w9WgXcQ") == Some("dQw4w9WgXcQ")
  {
    ExampleUrl();
    ExampleIdIsVideoId();
    WatchUrlYieldsId("dQw4w9WgXcQ");
    WatchUrlRecognised("dQw4w9WgXcQ");
  }

  /** A host part must start with `y` (or `w` for `www.`). */
  lemma NoHostStart(t: string)
    requires t != [] && t[0] != 'y' && t[0] != 'w'
    ensures !WwwThenRest(t)
  {
    if |t| >= 5 { assert t[..5][0] == t[0]; }
    if |t| >= 7 { assert t[..7][0] == t[0]; }
    if |t| >= 4 { assert t[..3][0] == t[0]; }
  }

  /** A URL of another site is not a video trigger, so the button opens a plain modal. */
  lemma OtherSiteNotRecognised()
    ensures !IsYouTubeUrl("https://example.com/video")
  {
    var s := "https://example.com/video";
    NoHostStart(s);
    NoHostStart(s[7..]);
    NoHostStart(s[8..]);
  }

  // ---------------------------------------------------------------------------
  // Modal ids of video modals
  // ---------------------------------------------------------------------------

  /** `pat` occurs in `s` at index `j`. */
  predicate OccursAt(s: string, pat: string, j: nat) {
    j + |pat| <= |s| && s[j..j + |pat|] == pat
  }

  /** Occurrences in `s[1..]` are those in `s` shifted left by one. */
  lemma OccursShift(s: string, pat: string)
    requires s != []
    ensures forall j: nat :: 1 <= j ==> (OccursAt(s, pat, j) <==> OccursAt(s[1..], pat, j - 1))
  {
    forall j: nat | 1 <= j
      ensures OccursAt(s, pat, j) <==> OccursAt(s[1..], pat, j - 1)
    {
      if j + |pat| <= |s| {
        assert s[1..][j - 1..j - 1 + |pat|] == s[j..j + |pat|];
      }
    }
  }

  /** The first index where `pat` occurs in `s`. */
  function FirstIndex(s: string, pat: string): (r: Option<nat>)
    ensures r.Some? ==> OccursAt(s, pat, r.value)
    ensures r.Some? ==> forall j: nat :: j < r.value ==> !OccursAt(s, pat, j)
    ensures r.None? ==> forall j: nat :: !OccursAt(s, pat, j)
    decreases |s|
  {
    if OccursAt(s, pat, 0) then Some(0)
    else if |s| <= |pat| then None
    else
      OccursShift(s, pat);
      match FirstIndex(s[1..], pat)
      case None => None
      case Some(i) => Some(i + 1)
  }

  /** `s.replace(pat, '')` with a string pattern: only the first occurrence goes. */
  function RemoveFirst(s: string, pat: string): (r: string)
    ensures FirstIndex(s, pat).None? ==> r == s
    ensures FirstIndex(s, pat).Some? ==>
      var i := FirstIndex(s, pat).value; r == s[..i] + s[i + |pat|..]
    decreases |s|
  {
    if OccursAt(s, pat, 0) then s[|pat|..]
    else if |s| <= |pat| then s
    else [s[0]] + RemoveFirst(s[1..], pat)
  }

  /** The video id `appendModal` works with: the parsed id, or `"undefined"`. */
  function VideoKey(url: string): (v: string)
    ensures v == UNDEFINED <==> ParseId(url).None?
    ensures ParseId(url).Some? ==> v == ParseId(url).value && |v| == 11
  {
    match ParseId(url)
    case Some(id) => id
    case None => UNDEFINED
  }

  /** The modal id `appendModal` writes into the button and the new modal. */
  function ModalIdFor(url: string): string {
    PREFIX + VideoKey(url)
  }

  /** Stripping the first `youtube-` from `'youtube-' + v` gives `v` back. */
  lemma StripPrefixRoundTrip(v: string)
    ensures RemoveFirst(PREFIX + v, PREFIX) == v
  {
    assert (PREFIX + v)[..|PREFIX|] == PREFIX;
  }

  /**
   * The modal id written for a URL leads `youtube.open` and `youtube.close`
   * back to the video id the player table is keyed by.
   */
  lemma ModalIdRoundTrip(url: string)
    ensures RemoveFirst(ModalIdFor(url), PREFIX) == VideoKey(url)
  {
    StripPrefixRoundTrip(VideoKey(url));
  }
}
