/**
 * The engine's read-only keyword tables and the content tests built on
 * them: social and applicant-tracking (ATS) domains, the employment
 * vocabulary, bot-interstitial signatures and the soft-404 signature.
 */
module Signals {
  import opened Text
  import opened Wrappers
  import opened Http

  const EmploymentKeywords: seq<string> := [
    "employment", "employment opportunities",
    "jobs", "job", "job openings", "job opportunities",
    "careers", "career opportunities",
    "human resources", "hr",
    "vacancies", "openings",
    "apply", "application"]

  const StrongLabels: seq<string> := [
    "employment opportunities", "job openings", "career opportunities", "human resources"]

  const NegativeKeywords: seq<string> := [
    "departments", "department", "about", "contact", "news", "calendar",
    "events", "agenda", "minutes", "meetings", "boards", "commissions"]

  const AtsHints: seq<string> := [
    "governmentjobs.com", "neogov.com", "appone.com", "paycomonline.net",
    "jobapscloud.com", "frontlineeducation.com", "applitrack.com"]

  const SocialDomains: seq<string> := [
    "facebook.com", "twitter.com", "x.com", "instagram.com", "youtube.com", "linkedin.com"]

  /** The alternatives of the case-insensitive soft-404 regular expression. */
  const Soft404Phrases: seq<string> := [
    "page not found", "404", "the page you requested", "does not exist", "not be found"]

  const BlockedPatterns: seq<string> := [
    "checking your browser", "ddos protection", "attention required", "cloudflare",
    "please enable javascript", "enable javascript", "enable cookies", "access denied",
    "temporarily unavailable", "verify you are human"]

  /** The patterns that legitimate ATS pages show in a `<noscript>`. */
  const JavascriptNotices: seq<string> := ["enable javascript", "please enable javascript"]

  const ApplicationHints: seq<string> := [
    "application for employment", "employment application", "job application",
    "application", "fillable", "empapp", "employment-app"]

  /** How much of a body the soft-404 search reads. */
  const Soft404Window: nat := 250000

  /** `is_social(url)`. */
  predicate IsSocial(url: string) { ContainsAny(Lower(url), SocialDomains) }

  /** `is_ats(url)`. */
  predicate IsAts(url: string) { ContainsAny(Lower(url), AtsHints) }

  /** `kw_hit(s)`. */
  predicate KwHit(s: string) { ContainsAny(Lower(s), EmploymentKeywords) }

  /**
   * `blocked_reason(html)`: the first signature, in table order, found in
   * the lower-cased page; `None` exactly when no signature occurs.
   */
  function BlockedReason(html: string): (r: Option<string>)
    ensures r.Some? ==> r.value in BlockedPatterns && Contains(Lower(html), r.value)
    ensures r.None? <==> !ContainsAny(Lower(html), BlockedPatterns)
  {
    var i := FirstContained(Lower(html), BlockedPatterns);
    FirstContainedIsFirst(Lower(html), BlockedPatterns);
    if i < |BlockedPatterns| then Some(BlockedPatterns[i]) else None
  }

  /**
   * The reported signature is the first one of the table that occurs in the
   * lower-cased page, and there is none exactly when none occurs.
   */
  lemma BlockedReasonIsFirst(html: string)
    ensures BlockedReason(html).None? <==> forall j :: 0 <= j < |BlockedPatterns| ==> !Contains(Lower(html), BlockedPatterns[j])
    ensures BlockedReason(html).Some? ==> Contains(Lower(html), BlockedReason(html).value)
    ensures BlockedReason(html).Some? ==>
      exists i :: 0 <= i < |BlockedPatterns| && BlockedPatterns[i] == BlockedReason(html).value &&
        forall j :: 0 <= j < i ==> !Contains(Lower(html), BlockedPatterns[j])
  {
    var i := FirstContained(Lower(html), BlockedPatterns);
    FirstContainedIsFirst(Lower(html), BlockedPatterns);
    if i < |BlockedPatterns| {
      assert BlockedPatterns[i] == BlockedReason(html).value;
    }
  }

  /** Content types the engine treats as HTML for the soft-404 test. */
  predicate HtmlishForSoft404(ctype: string) {
    Contains(ctype, "text/html") || Contains(ctype, "application/xhtml") || ctype == ""
  }

  /**
   * `looks_soft404(resp)`: a 200 response whose type is HTML-ish or absent
   * and whose first 250,000 characters mention a not-found phrase, in any
   * (ASCII) case.
   */
  predicate LooksSoft404(resp: Response) {
    && resp.status == 200
    && HtmlishForSoft404(resp.LowerType())
    && ContainsAny(Lower(resp.body[..if |resp.body| < Soft404Window then |resp.body| else Soft404Window]),
                   Soft404Phrases)
  }

  /** `h_resp and h_resp.status_code < 400 and not looks_soft404(h_resp)`. */
  predicate Usable(f: Fetch) {
    f.Fetched? && f.resp.status < 400 && !LooksSoft404(f.resp)
  }
}
