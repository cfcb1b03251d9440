/**
 * The part of Python's `urllib.parse.urlparse` that the audience rule reads:
 * the scheme and the network location of a URL (Python 3.12 `urlsplit`).
 */
module Urls {

  /** The scheme and netloc of a URL, as `urlparse(url).scheme` and `.netloc`. */
  datatype UrlParts = UrlParts(scheme: string, netloc: string)

  /** The characters that end a netloc. */
  const NETLOC_DELIMITERS: set<char> := {'/', '?', '#'}

  predicate IsAsciiLetter(c: char) {
    'a' <= c <= 'z' || 'A' <= c <= 'Z'
  }

  /** Python's `urllib.parse.scheme_chars`: letters, digits, "+", "-" and ".". */
  predicate IsSchemeChar(c: char) {
    IsAsciiLetter(c) || '0' <= c <= '9' || c == '+' || c == '-' || c == '.'
  }

  /** What `urlsplit` accepts as a scheme: non-empty, a letter first, scheme characters only. */
  predicate IsScheme(s: string) {
    |s| > 0 && IsAsciiLetter(s[0]) && forall j :: 0 <= j < |s| ==> IsSchemeChar(s[j])
  }

  function LowerChar(c: char): char {
    if 'A' <= c <= 'Z' then (c as int + 32) as char else c
  }

  /** `str.lower()` on text made of ASCII characters. */
  function LowerAscii(s: string): (r: string)
    ensures |r| == |s|
    ensures forall j :: 0 <= j < |s| ==> r[j] == LowerChar(s[j])
  {
    seq(|s|, j requires 0 <= j < |s| => LowerChar(s[j]))
  }

  /** The index of the first character of `s` that lies in `stop`, or `|s|` when there is none. */
  function FirstIndex(s: string, stop: set<char>): (i: nat)
    ensures i <= |s|
    ensures forall j :: 0 <= j < i ==> s[j] !in stop
    ensures i < |s| ==> s[i] in stop
  {
    if |s| == 0 then 0
    else if s[0] in stop then 0
    else 1 + FirstIndex(s[1..], stop)
  }

  /** The index of the first ":" of a URL, where `urlsplit` looks for the end of a scheme. */
  function ColonIndex(url: string): nat {
    FirstIndex(url, {':'})
  }

  /** Whether `urlsplit` takes the text before the first ":" as the scheme. */
  predicate HasScheme(url: string) {
    ColonIndex(url) < |url| && IsScheme(url[..ColonIndex(url)])
  }

  /** What `urlsplit` goes on to parse once the scheme and its ":" are removed. */
  function AfterScheme(url: string): string {
    if HasScheme(url) then url[ColonIndex(url) + 1..] else url
  }

  /** The netloc of what follows the scheme: after a leading "//", up to the first delimiter. */
  function NetlocOf(rest: string): (n: string)
    ensures forall j :: 0 <= j < |n| ==> n[j] !in NETLOC_DELIMITERS
  {
    if |rest| >= 2 && rest[..2] == "//" then rest[2..2 + FirstIndex(rest[2..], NETLOC_DELIMITERS)]
    else ""
  }

  /**
   * `urlsplit(url)` restricted to scheme and netloc: the scheme is the text before the
   * first ":" when that text is a valid scheme (lower-cased), and the netloc is what
   * follows a leading "//" up to the first "/", "?" or "#", port and user info included.
   */
  function SplitUrl(url: string): (p: UrlParts)
    ensures forall j :: 0 <= j < |p.scheme| ==> p.scheme[j] != ':' && !('A' <= p.scheme[j] <= 'Z')
    ensures forall j :: 0 <= j < |p.netloc| ==> p.netloc[j] !in NETLOC_DELIMITERS
  {
    var scheme := if HasScheme(url) then LowerAscii(url[..ColonIndex(url)]) else "";
    UrlParts(scheme, NetlocOf(AfterScheme(url)))
  }

  /** Splitting stops at the first stop character: characters before it do not matter. */
  lemma {:induction false} FirstIndexAfter(a: string, b: string, stop: set<char>)
    requires forall j :: 0 <= j < |a| ==> a[j] !in stop
    ensures FirstIndex(a + b, stop) == |a| + FirstIndex(b, stop)
  {
    if |a| > 0 {
      assert (a + b)[1..] == a[1..] + b;
      FirstIndexAfter(a[1..], b, stop);
    } else {
      assert a + b == b;
    }
  }

  /** The text before the first ":" of scheme ":" tail is the scheme, and tail is what follows. */
  lemma SchemeSplit(scheme: string, tail: string)
    requires IsScheme(scheme)
    ensures HasScheme(scheme + ":" + tail)
    ensures (scheme + ":" + tail)[..ColonIndex(scheme + ":" + tail)] == scheme
    ensures AfterScheme(scheme + ":" + tail) == tail
  {
    var url := scheme + ":" + tail;
    assert url == scheme + (":" + tail);
    FirstIndexAfter(scheme, ":" + tail, {':'});
    assert ColonIndex(url) == |scheme|;
    assert url[..|scheme|] == scheme;
    assert url[|scheme| + 1..] == tail;
  }

  /** After "//", the netloc runs to the first delimiter, which is where rest begins. */
  lemma NetlocSplit(netloc: string, rest: string)
    requires forall j :: 0 <= j < |netloc| ==> netloc[j] !in NETLOC_DELIMITERS
    requires rest == [] || rest[0] in NETLOC_DELIMITERS
    ensures NetlocOf("//" + netloc + rest) == netloc
  {
    var tail := "//" + netloc + rest;
    assert tail[..2] == "//";
    assert tail[2..] == netloc + rest;
    FirstIndexAfter(netloc, rest, NETLOC_DELIMITERS);
    assert (netloc + rest)[..|netloc|] == netloc;
  }

  /**
   * Round trip: a URL assembled as scheme "://" netloc rest, where the netloc holds no
   * delimiter and rest is empty or starts with one, splits back into that scheme
   * (lower-cased) and exactly that netloc.
   */
  lemma SplitJoined(scheme: string, netloc: string, rest: string)
    requires IsScheme(scheme)
    requires forall j :: 0 <= j < |netloc| ==> netloc[j] !in NETLOC_DELIMITERS
    requires rest == [] || rest[0] in NETLOC_DELIMITERS
    ensures SplitUrl(scheme + "://" + netloc + rest) == UrlParts(LowerAscii(scheme), netloc)
  {
    var tail := "//" + netloc + rest;
    assert scheme + "://" + netloc + rest == scheme + ":" + tail;
    SchemeSplit(scheme, tail);
    NetlocSplit(netloc, rest);
  }
}
