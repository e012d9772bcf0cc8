/**
 * `validate_candidate`: fetch a candidate and decide whether it is an
 * acceptable employment page — same-site or an ATS vendor, not social,
 * not blocked by an interstitial, not a soft 404.
 */
module Validation {
  import opened Text
  import opened Wrappers
  import opened Urls
  import opened Http
  import opened Signals

  /** The reason code of a verdict. */
  datatype Reason =
    | FetchError(message: string)  // "fetch_error: ..."
    | HttpStatus(code: int)        // "status_<code>"
    | BlockedOrInterstitial
    | Soft404
    | SocialBlocked
    | OffsiteNotAts
    | Accepted                     // "ok"
    | SplashToAts                  // "ok_granicus_splash_to_ats"
  {
    predicate IsOk() { Accepted? || SplashToAts? }
  }

  /** `(ok, final_url, reason, blocked_reason)`. */
  datatype Verdict = Verdict(ok: bool, final: Option<string>, reason: Reason, blocked: Option<string>)

  /**
   * An ATS candidate under `/careers/` whose redirect collapsed to the site
   * root keeps its own URL as the final one.
   */
  function RestoreCareersPath(url: string, final: string): (r: string)
    ensures r == url || r == final
    ensures r != final ==> IsAts(url)
  {
    if IsAts(url) && StartsWith(PathOf(url), "/careers/") && PathOf(final) in {"", "/"} then url
    else final
  }

  /**
   * The original URL replaces the final one exactly when an ATS request
   * under `/careers/` collapsed to the site root.
   */
  lemma RestoreCareersPathExact(url: string, final: string)
    ensures RestoreCareersPath(url, final) == url || RestoreCareersPath(url, final) == final
    ensures RestoreCareersPath(url, final) != final <==>
      url != final && IsAts(url) && StartsWith(PathOf(url), "/careers/") && PathOf(final) in {"", "/"}
  {
  }

  /** The final URL the validator reasons about, after the careers-path restoration. */
  function FinalOf(url: string, resp: Response): string {
    RestoreCareersPath(url, resp.FinalUrl(url))
  }

  /**
   * The interstitial signature of an HTML page, ignoring the JavaScript
   * notice that legitimate ATS pages carry.
   */
  function BlockSignature(resp: Response, final: string): (r: Option<string>)
    ensures r.Some? ==> r.value in BlockedPatterns
    ensures r.Some? && IsAts(final) ==> r.value !in JavascriptNotices
  {
    var ctype := resp.LowerType();
    if Contains(ctype, "text/html") || ctype == "" then
      var b := BlockedReason(resp.body);
      if b.Some? && b.value in JavascriptNotices && IsAts(final) then None else b
    else None
  }

  /**
   * An HTML (or untyped) response is blocked exactly when the page shows a
   * signature, unless that signature is a JavaScript notice on an ATS page;
   * the signature reported is the page's first one.
   */
  lemma BlockSignatureExact(resp: Response, final: string)
    ensures var ctype := resp.LowerType();
      var b := BlockedReason(resp.body);
      BlockSignature(resp, final).Some? <==>
        (Contains(ctype, "text/html") || ctype == "") && b.Some? && !(b.value in JavascriptNotices && IsAts(final))
    ensures BlockSignature(resp, final).Some? ==> BlockSignature(resp, final) == BlockedReason(resp.body)
  {
  }

  /** What the validator observes about a fetched candidate, test by test. */
  datatype Observed = Observed(
    final: string, atsSplash: Option<string>, status: int,
    block: Option<string>, soft404: bool, social: bool, sameSite: bool, ats: bool)

  function Observe(url: string, base: string, resp: Response): Observed {
    var final := FinalOf(url, resp);
    var splash := UnwrapSplash(final);
    Observed(final, if splash.Some? && IsAts(splash.value) then splash else None, resp.status,
             BlockSignature(resp, final), LooksSoft404(resp), IsSocial(final),
             SameSite(final, base), IsAts(final))
  }

  /** The rule cascade of the validator, in the order the source applies it. */
  function Decide(o: Observed): (v: Verdict)
    ensures v.ok <==> v.reason.IsOk()
    ensures v.reason == SplashToAts <==> o.atsSplash.Some? && v.final == o.atsSplash
    ensures v.reason == Accepted ==>
      v.final == Some(o.final) && !o.social && (o.sameSite || o.ats)
    ensures v.blocked.Some? <==> v.reason == BlockedOrInterstitial
    ensures v.final.Some?
  {
    if o.atsSplash.Some? then Verdict(true, o.atsSplash, SplashToAts, None)
    else if o.status >= 400 then Verdict(false, Some(o.final), HttpStatus(o.status), None)
    else if o.block.Some? then Verdict(false, Some(o.final), BlockedOrInterstitial, o.block)
    else if o.soft404 then Verdict(false, Some(o.final), Soft404, None)
    else if o.social then Verdict(false, Some(o.final), SocialBlocked, None)
    else if !o.sameSite && !o.ats then Verdict(false, Some(o.final), OffsiteNotAts, None)
    else Verdict(true, Some(o.final), Accepted, None)
  }

  /**
   * `validate_candidate(url, base_home)`. Every accepted final URL is an
   * ATS URL or on the base site; only the splash short-circuit may accept
   * without the social test.
   */
  function Validate(url: string, base: string, web: Web): (v: Verdict)
    ensures v.ok <==> v.reason.IsOk()
    ensures v.ok ==> v.final.Some? && (IsAts(v.final.value) || SameSite(v.final.value, base))
    ensures v.ok && v.reason == Accepted ==> !IsSocial(v.final.value)
    ensures v.reason == SplashToAts ==> IsAts(v.final.value) && IsUrlText(v.final.value)
    ensures v.blocked.Some? <==> v.reason == BlockedOrInterstitial
    ensures v.final.None? <==> v.reason.FetchError?
  {
    match web(url)
    case TransportError(e) => Verdict(false, None, FetchError(e), None)
    case Fetched(resp) => Decide(Observe(url, base, resp))
  }

  /**
   * The splash short-circuit is tried before the status test: a final URL
   * whose splash parameter names an ATS page is accepted even on a 4xx/5xx.
   */
  lemma SplashBeforeStatus(url: string, base: string, web: Web)
    requires web(url).Fetched? && web(url).resp.status >= 400
    requires UnwrapSplash(FinalOf(url, web(url).resp)).Some?
    requires IsAts(UnwrapSplash(FinalOf(url, web(url).resp)).value)
    ensures Validate(url, base, web) == Verdict(true, UnwrapSplash(FinalOf(url, web(url).resp)), SplashToAts, None)
  {
  }

  /** A soft-404 page with no splash target and no interstitial is rejected as a soft 404. */
  lemma Soft404Rejected(url: string, base: string, web: Web)
    requires web(url).Fetched? && LooksSoft404(web(url).resp)
    requires var final := FinalOf(url, web(url).resp);
      (UnwrapSplash(final).None? || !IsAts(UnwrapSplash(final).value))
      && BlockSignature(web(url).resp, final).None?
    ensures !Validate(url, base, web).ok && Validate(url, base, web).reason == Soft404
  {
  }
}
