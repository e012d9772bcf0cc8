/**
 * The URL handling of the rediscovery engine: `urlparse` reduced to the
 * `scheme://netloc/path?query` split of section 3 of RFC 3986 (with the
 * few clean-ups Python applies first), and the helpers built on it:
 * `homepage`, `host_norm`, `same_site`, `is_url`, `is_pdf`, the CivicPlus
 * page-id pattern, the relative join the engine uses, and the unwrapping
 * of a Granicus `splash` query parameter.
 */
module Urls {
  import opened Text
  import opened Wrappers
  import opened JsonData

  datatype Parts = Parts(scheme: string, netloc: string, path: string, query: string)

  predicate IsAsciiAlpha(c: char) { 'a' <= c <= 'z' || 'A' <= c <= 'Z' }

  predicate IsSchemeChar(c: char) {
    IsAsciiAlpha(c) || IsDigit(c) || c == '+' || c == '-' || c == '.'
  }

  /** urlsplit first drops leading C0 controls and spaces ... */
  function LStripC0(s: string): string {
    if |s| > 0 && s[0] <= ' ' then LStripC0(s[1..]) else s
  }

  /** ... and then removes every tab, carriage return and line feed. */
  function DropTabNewline(s: string): (r: string)
    ensures |r| <= |s|
  {
    if s == [] then []
    else if s[0] in {'\t', '\r', '\n'} then DropTabNewline(s[1..])
    else [s[0]] + DropTabNewline(s[1..])
  }

  /** No tab, carriage return or line feed survives. */
  lemma {:induction false} DropTabNewlineClean(s: string)
    ensures forall i :: 0 <= i < |DropTabNewline(s)| ==> DropTabNewline(s)[i] !in {'\t', '\r', '\n'}
  {
    if s != [] {
      DropTabNewlineClean(s[1..]);
    }
  }

  /** The schemes for which `urlparse` splits `;params` off the path. */
  const UsesParams: seq<string> := ["", "ftp", "hdl", "prospero", "http", "imap", "https",
    "shttp", "rtsp", "rtsps", "rtspu", "sip", "sips", "mms", "sftp", "tel"]

  /** `urlsplit(url)`: scheme (lower-cased), netloc, path and query. */
  function Urlsplit(url: string): Parts {
    var u := DropTabNewline(LStripC0(url));
    var i := Find(u, ':');
    var hasScheme := 0 < i < |u| && IsAsciiAlpha(u[0]) && forall k :: 0 <= k < i ==> IsSchemeChar(u[k]);
    var scheme := if hasScheme then Lower(u[..i]) else "";
    var rest := if hasScheme then u[i + 1..] else u;
    var hasNetloc := |rest| >= 2 && rest[..2] == "//";
    var n := if hasNetloc then 2 + FindAny(rest[2..], {'/', '?', '#'}) else 0;
    var netloc := if hasNetloc then rest[2..n] else "";
    var afterNetloc := rest[n..];
    var beforeFragment := afterNetloc[..Find(afterNetloc, '#')];
    var q := Find(beforeFragment, '?');
    Parts(scheme, netloc, beforeFragment[..q],
          if q < |beforeFragment| then beforeFragment[q + 1..] else "")
  }

  /** `_splitparams`: the path up to the first `;` after its last `/`. */
  function PathWithoutParams(path: string): string {
    var slash := RFind(path, '/');
    if slash >= 0 then
      var k := Find(path[slash..], ';');
      path[..slash + k]
    else path[..Find(path, ';')]
  }

  /** `urlparse(url)`: as `urlsplit`, with `;params` cut from the path. */
  function Urlparse(url: string): Parts {
    var p := Urlsplit(url);
    if p.scheme in UsesParams then p.(path := PathWithoutParams(p.path)) else p
  }

  function PathOf(url: string): string { Urlparse(url).path }

  /** `is_url(v)`: a string that, stripped and lower-cased, starts http:// or https://. */
  predicate IsUrlText(s: string) {
    var l := Lower(Strip(s));
    StartsWith(l, "http://") || StartsWith(l, "https://")
  }

  predicate IsUrl(v: Json) {
    v.JStr? && IsUrlText(v.s)
  }

  /** `homepage(url)`: `scheme://netloc/` of the stripped URL, if it has both. */
  function Homepage(url: string): (r: Option<string>)
    ensures r.Some? ==> EndsWith(r.value, "/") && Urlparse(Strip(url)).netloc != ""
  {
    if Strip(url) == "" then None
    else
      var p := Urlparse(Strip(url));
      if p.scheme == "" || p.netloc == "" then None
      else Some(p.scheme + "://" + p.netloc + "/")
  }

  /** `host_norm(url)`: the lower-cased netloc without a leading `www.`. */
  function HostNorm(url: string): (r: string)
    ensures !StartsWith(Lower(Urlparse(url).netloc), "www.") ==> r == Lower(Urlparse(url).netloc)
  {
    var h := Lower(Urlparse(url).netloc);
    if StartsWith(h, "www.") then h[4..] else h
  }

  /** A homepage exists exactly when the stripped URL has a scheme and a host, and is `scheme://host/`. */
  lemma HomepageValue(url: string)
    ensures var p := Urlparse(Strip(url));
      Homepage(url).Some? <==> Strip(url) != "" && p.scheme != "" && p.netloc != ""
    ensures var p := Urlparse(Strip(url));
      Homepage(url).Some? ==> Homepage(url).value == p.scheme + "://" + p.netloc + "/"
  {
  }

  /** A host that starts with `www.` loses exactly that prefix. */
  lemma HostNormStripsWww(url: string)
    ensures var h := Lower(Urlparse(url).netloc);
      StartsWith(h, "www.") ==> "www." + HostNorm(url) == h
  {
    var h := Lower(Urlparse(url).netloc);
    if StartsWith(h, "www.") {
      assert h == h[..4] + h[4..];
    }
  }

  /** `same_site(a, b)`: both have the same non-empty normalised host. */
  predicate SameSite(a: string, b: string) {
    HostNorm(a) != "" && HostNorm(a) == HostNorm(b)
  }

  /** `is_pdf(url)`: the lower-cased URL, up to its first `?`, ends in `.pdf`. */
  predicate IsPdf(url: string) {
    var l := Lower(url);
    EndsWith(l[..Find(l, '?')], ".pdf")
  }

  /** The number of ASCII digits `s` starts with. */
  function LeadingDigits(s: string): (r: nat)
    ensures r <= |s|
    ensures r < |s| ==> !IsDigit(s[r])
  {
    if s != [] && IsDigit(s[0]) then 1 + LeadingDigits(s[1..]) else 0
  }

  /** The counted prefix is all digits. */
  lemma {:induction false} LeadingDigitsAreDigits(s: string)
    ensures forall i :: 0 <= i < LeadingDigits(s) ==> IsDigit(s[i])
  {
    if s != [] && IsDigit(s[0]) {
      LeadingDigitsAreDigits(s[1..]);
    }
  }

  /**
   * `CIVICPLUS_PAGEID_RE.match(path)` for `^/\d{2,6}/`: a slash, two to six
   * digits and a slash. A longer digit run cannot match, because the
   * character after any shorter prefix of it is a digit, not a slash.
   */
  predicate IsPageIdPath(path: string) {
    |path| > 0 && path[0] == '/' &&
    var d := LeadingDigits(path[1..]);
    2 <= d <= 6 && 1 + d < |path| && path[1 + d] == '/'
  }

  /** The directory part of a path (up to and including its last `/`). */
  function Directory(path: string): string {
    var slash := RFind(path, '/');
    if slash < 0 then "/" else path[..slash + 1]
  }

  /**
   * `urljoin(base, rel)` for a relative reference `rel` without a leading
   * slash: the merge rule of section 5.2.3 of RFC 3986.
   */
  function Join(base: string, rel: string): string {
    JoinRoot(base) + rel
  }

  /** `scheme://netloc` of `base` and the directory of its path. */
  function JoinRoot(base: string): string {
    var p := Urlsplit(base);
    p.scheme + "://" + p.netloc + Directory(p.path)
  }

  function HexValue(c: char): int {
    if '0' <= c <= '9' then c as int - '0' as int
    else if 'a' <= c <= 'f' then c as int - 'a' as int + 10
    else if 'A' <= c <= 'F' then c as int - 'A' as int + 10
    else -1
  }

  /** `unquote(s)`: every `%XX` escape of an ASCII character is decoded. */
  function Unquote(s: string): string
    decreases |s|
  {
    if |s| >= 3 && s[0] == '%' && HexValue(s[1]) >= 0 && HexValue(s[2]) >= 0
       && HexValue(s[1]) * 16 + HexValue(s[2]) < 128
    then [(HexValue(s[1]) * 16 + HexValue(s[2])) as char] + Unquote(s[3..])
    else if s == [] then []
    else [s[0]] + Unquote(s[1..])
  }

  function PlusToSpace(s: string): (r: string)
    ensures |r| == |s|
  {
    seq(|s|, i requires 0 <= i < |s| => if s[i] == '+' then ' ' else s[i])
  }

  lemma PlusToSpaceAppend(a: string, b: string)
    ensures PlusToSpace(a + b) == PlusToSpace(a) + PlusToSpace(b)
  {
    assert forall i :: 0 <= i < |a + b| ==> PlusToSpace(a + b)[i] == (PlusToSpace(a) + PlusToSpace(b))[i];
  }

  /** The characters `quote_plus` never escapes. */
  predicate IsUnreserved(c: char) {
    IsAsciiAlpha(c) || IsDigit(c) || c == '_' || c == '.' || c == '-' || c == '~'
  }

  const HexDigits := "0123456789ABCDEF"

  /** How `quote_plus` writes one character: space as `+`, reserved ASCII as `%XX`. */
  function QuoteChar(c: char): (r: string)
    ensures |r| > 0
  {
    if c == ' ' then "+"
    else if IsUnreserved(c) || c as int >= 128 then [c]
    else ['%', HexDigits[c as int / 16], HexDigits[c as int % 16]]
  }

  /** `quote_plus(s)`, the value encoding of `urlencode`. */
  function QuotePlus(s: string): string {
    if s == [] then [] else QuoteChar(s[0]) + QuotePlus(s[1..])
  }

  lemma HexDigitValue(k: int)
    requires 0 <= k < 16
    ensures HexValue(HexDigits[k]) == k
  {
  }

  /** Decoding undoes the encoding of one character, whatever follows it. */
  lemma DecodeQuoteChar(c: char, rest: string)
    ensures Unquote(PlusToSpace(QuoteChar(c)) + rest) == [c] + Unquote(rest)
  {
    var e := QuoteChar(c);
    if c != ' ' && !IsUnreserved(c) && c as int < 128 {
      HexDigitValue(c as int / 16);
      HexDigitValue(c as int % 16);
      assert PlusToSpace(e) == e;
      assert (e + rest)[3..] == rest;
    } else {
      assert PlusToSpace(e) == [c];
      assert ([c] + rest)[1..] == rest;
    }
  }

  /**
   * `unquote_plus(quote_plus(s)) == s`: what `urlencode` writes into a query,
   * `parse_qs` reads back unchanged.
   */
  lemma {:induction false} QuotePlusRoundTrip(s: string)
    ensures Unquote(PlusToSpace(QuotePlus(s))) == s
  {
    if s != [] {
      PlusToSpaceAppend(QuoteChar(s[0]), QuotePlus(s[1..]));
      DecodeQuoteChar(s[0], PlusToSpace(QuotePlus(s[1..])));
      QuotePlusRoundTrip(s[1..]);
    }
  }

  /** One `name=value` field of a query, as `parse_qsl` keeps it (blank values dropped). */
  function QueryField(field: string): Option<(string, string)> {
    var e := Find(field, '=');
    if e + 1 >= |field| then None
    else Some((Unquote(PlusToSpace(field[..e])), Unquote(PlusToSpace(field[e + 1..]))))
  }

  /** `parse_qs(query).get(name, [None])[0]`: the first value given for `name`. */
  function QueryValue(query: string, name: string): Option<string>
    decreases |query|
  {
    if query == [] then None
    else
      var amp := Find(query, '&');
      var f := QueryField(query[..amp]);
      if f.Some? && f.value.0 == name then Some(f.value.1)
      else if amp < |query| then QueryValue(query[amp + 1..], name)
      else None
  }

  /**
   * `unwrap_granicus_splash(url)`: the `splash` query parameter of `url`,
   * percent-decoded once more, when that is itself a URL.
   */
  function UnwrapSplash(url: string): (r: Option<string>)
    ensures r.Some? ==> IsUrlText(r.value)
  {
    match QueryValue(Urlparse(url).query, "splash")
    case None => None
    case Some(v) =>
      if v == "" then None
      else if IsUrlText(Unquote(v)) then Some(Unquote(v))
      else None
  }

  /**
   * The splash target is the first `splash` parameter, decoded once more,
   * and it is returned whenever that decoded value is a URL.
   */
  lemma UnwrapSplashIsDecodedParameter(url: string)
    ensures var v := QueryValue(Urlparse(url).query, "splash");
      UnwrapSplash(url).Some? <==> v.Some? && IsUrlText(Unquote(v.value))
    ensures var v := QueryValue(Urlparse(url).query, "splash");
      UnwrapSplash(url).Some? ==> v.Some? && UnwrapSplash(url).value == Unquote(v.value)
  {
    var v := QueryValue(Urlparse(url).query, "splash");
    if v.Some? && v.value == "" {
      assert Unquote("") == "";
      assert !IsUrlText("");
    }
  }
}
