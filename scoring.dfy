/**
 * The integer heuristics of the engine: `score_candidate`, which ranks
 * candidate links, and the confidence and page-type classification given
 * to an accepted replacement.
 */
module Scoring {
  import opened Text
  import opened Urls
  import opened Signals
  import opened Platforms

  /** Provenance tag: which generation strategy produced a candidate. */
  datatype Source =
    | CivicPlusPath | CivicLiftPath | GranicusPath
    | HomepageLink | NavFooterLink | QuickLinks | CivicPlusSearch
    | FallbackHome | AtsFallback
  {
    function Name(): string {
      match this
      case CivicPlusPath => "civicplus_path"
      case CivicLiftPath => "civiclift_path"
      case GranicusPath => "granicus_path"
      case HomepageLink => "homepage_link"
      case NavFooterLink => "nav_footer_link"
      case QuickLinks => "quicklinks"
      case CivicPlusSearch => "civicplus_search"
      case FallbackHome => "fallback_home"
      case AtsFallback => "ats_fallback"
    }

    /** `source in {"civicplus_path", "civiclift_path", "granicus_path"}`. */
    predicate IsTemplatePath() {
      CivicPlusPath? || CivicLiftPath? || GranicusPath?
    }
  }

  /** The path tokens that signal an employment page in a URL. */
  const PathTokens: seq<string> := ["employment", "jobs", "careers", "human-resources"]

  const SocialVeto := -10000

  /** The +30 page-id bonus: a CivicPlus page id and a job word in the URL. */
  predicate PageIdJobUrl(url: string) {
    var u := Lower(url);
    IsPageIdPath(PathOf(url)) && (Contains(u, "employment") || Contains(u, "job") || Contains(u, "career"))
  }

  /** The test behind each additive rule of `score_candidate`. */
  datatype Signs = Signs(
    sameSite: bool, ats: bool, template: bool, keyword: bool, strongLabel: bool,
    pageIdJob: bool, pdf: bool, pathToken: bool, jobsModule: bool,
    noisyUrl: bool, noisyLabel: bool)

  function SignsOf(url: string, caption: string, base: string, source: Source): Signs {
    var u, t := Lower(url), Lower(caption);
    Signs(
      SameSite(url, base), IsAts(url), source.IsTemplatePath(),
      KwHit(u) || KwHit(t), ContainsAny(t, StrongLabels),
      PageIdJobUrl(url), IsPdf(url),
      ContainsAny(u, PathTokens), Contains(u, "jobs.aspx"),
      ContainsAny(u, NegativeKeywords) && !KwHit(u),
      ContainsAny(t, NegativeKeywords) && !KwHit(t))
  }

  /** The sum of the rule weights that apply. */
  function Points(g: Signs): (s: int)
    ensures -50 <= s <= 230
  {
    (if g.sameSite then 40 else 0)
    + (if g.ats then 45 else 0)
    + (if g.template then 20 else 0)
    + (if g.keyword then 50 else 0)
    + (if g.strongLabel then 15 else 0)
    + (if g.pageIdJob then 30 else 0)
    - (if g.pdf then 25 else 0)
    + (if g.pathToken then 10 else 0)
    + (if g.jobsModule then 20 else 0)
    - (if g.noisyUrl then 15 else 0)
    - (if g.noisyLabel then 10 else 0)
  }

  /**
   * `score_candidate(url, label, base_home, source)`: a social URL is vetoed
   * with exactly -10000, whatever the caption, base or source; every other
   * candidate scores between -50 and 230.
   */
  function ScoreCandidate(url: string, caption: string, base: string, source: Source): (s: int)
    ensures s == SocialVeto <==> IsSocial(url)
    ensures !IsSocial(url) ==> -50 <= s <= 230
  {
    if IsSocial(url) then SocialVeto else Points(SignsOf(url, caption, base, source))
  }

  /**
   * The confidence of a replacement URL: 70, +15 for a path token, +10 for
   * a CivicPlus page id, at least 85 for an ATS vendor, at most 75 for a
   * PDF, at most 95 overall.
   */
  function Confidence(newUrl: string): (c: int)
    ensures 70 <= c <= 95
    ensures IsPdf(newUrl) ==> c <= 75
    ensures IsAts(newUrl) && !IsPdf(newUrl) ==> c >= 85
  {
    ClampConfidence(
      70 + (if ContainsAny(Lower(newUrl), PathTokens) then 15 else 0)
         + (if IsPageIdPath(PathOf(newUrl)) then 10 else 0),
      IsAts(newUrl), IsPdf(newUrl))
  }

  /** `max(conf, 85)` for a vendor, then `min(conf, 75)` for a PDF, then `min(conf, 95)`. */
  function ClampConfidence(conf: int, ats: bool, pdf: bool): (c: int)
    requires 70 <= conf
    ensures 70 <= c <= 95
    ensures pdf ==> c <= 75
    ensures ats && !pdf ==> c >= 85
  {
    var c1 := if ats && conf < 85 then 85 else conf;
    var c2 := if pdf && c1 > 75 then 75 else c1;
    if c2 > 95 then 95 else c2
  }

  datatype PageType = AtsVendor | ModulePage | HrPage | PdfPosting | GenericPage | EphemeralPosts {
    /** The value written to `employment_page_type`. */
    function Name(): string {
      match this
      case AtsVendor => "ats_vendor"
      case ModulePage => "module_page"
      case HrPage => "hr_page"
      case PdfPosting => "pdf_posting"
      case GenericPage => "page"
      case EphemeralPosts => "ephemeral_posts"
    }
  }

  /**
   * The page type of an accepted replacement: a vendor page first, then a
   * CivicPlus module page, an HR page, a PDF posting, a generic page.
   */
  function ClassifyPage(newUrl: string, platform: Platform, notes: string): (t: PageType)
    ensures t == AtsVendor <==> IsAts(newUrl)
    ensures t == ModulePage ==> platform == CivicPlus
    ensures t == PdfPosting ==> IsPdf(newUrl)
    ensures t != EphemeralPosts
  {
    var low := Lower(newUrl);
    if IsAts(newUrl) then AtsVendor
    else if platform == CivicPlus && (Contains(low, "jobs.aspx") || IsPageIdPath(PathOf(newUrl))) then ModulePage
    else if Contains(low, "human-resources") || Contains(Lower(notes), "human resources") then HrPage
    else if IsPdf(newUrl) then PdfPosting
    else GenericPage
  }

  /**
   * Each page type is chosen exactly when every earlier test of the cascade
   * fails and its own test holds.
   */
  lemma ClassifyPageCascade(newUrl: string, platform: Platform, notes: string)
    ensures var t := ClassifyPage(newUrl, platform, notes);
      var low := Lower(newUrl);
      var modulePage := platform == CivicPlus && (Contains(low, "jobs.aspx") || IsPageIdPath(PathOf(newUrl)));
      var hr := Contains(low, "human-resources") || Contains(Lower(notes), "human resources");
      && (t == AtsVendor <==> IsAts(newUrl))
      && (t == ModulePage <==> !IsAts(newUrl) && modulePage)
      && (t == HrPage <==> !IsAts(newUrl) && !modulePage && hr)
      && (t == PdfPosting <==> !IsAts(newUrl) && !modulePage && !hr && IsPdf(newUrl))
      && (t == GenericPage <==> !IsAts(newUrl) && !modulePage && !hr && !IsPdf(newUrl))
  {
  }
}
