/**
 * `rediscover_for_town`: the per-record state machine of the engine. It
 * normalises the town homepage, gates on the recorded status, gathers and
 * ranks candidates, validates the best, and writes the replacement (and an
 * application-form PDF) back into the record, in place.
 */
module Rediscovery {
  import opened Wrappers
  import opened JsonData
  import opened Text
  import opened Urls
  import opened Http
  import opened Platforms
  import opened Signals
  import opened Scoring
  import opened Validation
  import opened Discovery
  import opened Selection
  import opened Application

  const TownKey := "Town"
  const WebsiteKey := "Town Website"
  const EmploymentKey := "Employment Page URL"
  const NotesKey := "Notes"
  const StatusKey := "employment_url_status_code"
  const Soft404Key := "employment_url_soft404"
  const PlatformKey := "platform_detected"
  const PageTypeKey := "employment_page_type"
  const BlockedKey := "employment_url_last_blocked_reason"
  const FinalKey := "employment_url_final"
  const CheckedKey := "employment_url_last_checked_at"
  const ChangeReasonKey := "employment_url_change_reason"
  const ConfidenceKey := "employment_url_confidence"
  const MethodKey := "employment_url_discovery_method"
  const ScoreKey := "employment_url_discovery_score"
  const ValidationKey := "employment_url_validation_reason"
  const ApplicationKey := "Application Form URL"
  const ApplicationOriginalKey := "Application Form URL (original)"
  const ApplicationFinalKey := "application_url_final"
  const ApplicationCheckedKey := "application_url_last_checked_at"
  const ApplicationReasonKey := "application_url_change_reason"
  const ApplicationConfidenceKey := "application_url_confidence"

  /** `REDISCOVER_IF_SOFT404_TRUE`. */
  const RediscoverIfSoft404 := true

  /** The confidence reported by the CivicLift fallback. */
  const EphemeralConfidence := 60

  /** The confidence written for an application PDF found on the employment page. */
  const ApplicationConfidence := 85

  /** `application_url_change_reason` of a found application PDF. */
  const ApplicationFoundReason := "application_pdf_found_on_employment_page"

  // ------------------------------------------------------------------
  // Gates
  // ------------------------------------------------------------------

  /** `status in DO_NOT_REWRITE_IF_STATUS_IN`: a bot block is likely. */
  predicate BotBlockStatus(status: Json) {
    status == JNum(401) || status == JNum(403)
  }

  /** `status in REDISCOVER_IF_STATUS_IN`: 404, 410, -1, or no status at all. */
  predicate BrokenStatus(status: Json) {
    status == JNull || status == JNum(404) || status == JNum(410) || status == JNum(-1)
  }

  /**
   * `should_attempt(rec)`: never on a bot-block status; otherwise exactly
   * when the status marks the page broken or the soft-404 flag is set.
   */
  function ShouldAttempt(rec: Record): (b: bool)
    ensures b <==> (!BotBlockStatus(Get(rec, StatusKey)) &&
                    (BrokenStatus(Get(rec, StatusKey)) || Truthy(Get(rec, Soft404Key))))
  {
    var status := Get(rec, StatusKey);
    var soft404 := Truthy(Get(rec, Soft404Key));
    if BotBlockStatus(status) then false
    else if BrokenStatus(status) then true
    else if RediscoverIfSoft404 && soft404 then true
    else false
  }

  // ------------------------------------------------------------------
  // Record updates
  // ------------------------------------------------------------------

  /** `homepage(url) or fallback`; a homepage always ends in "/", so it is never empty. */
  function HomepageOr(url: string, fallback: Json): Json {
    match Homepage(url)
    case Some(h) => JStr(h)
    case None => fallback
  }

  /**
   * Make "Town Website" a homepage: from itself when it is a URL, else from
   * the employment URL when that is one. Nothing else changes.
   */
  function NormalizeHomepage(rec: Record): (r: Record)
    ensures forall k :: k != WebsiteKey ==> (k in r <==> k in rec) && Get(r, k) == Get(rec, k)
    ensures IsUrl(Get(rec, WebsiteKey)) ==> IsUrl(Get(r, WebsiteKey)) || Get(r, WebsiteKey).JStr?
  {
    var site := Get(rec, WebsiteKey);
    var emp := Get(rec, EmploymentKey);
    if IsUrl(site) then rec[WebsiteKey := HomepageOr(site.s, site)]
    else if IsUrl(emp) then rec[WebsiteKey := HomepageOr(emp.s, site)]
    else rec
  }

  /**
   * The new "Town Website": the homepage of the site when the site is a URL
   * (the site itself when it has none); otherwise the homepage of the
   * employment URL when that is one (else the old value, `null` when it
   * was missing); a record with neither URL is left alone.
   */
  lemma NormalizeHomepageValue(rec: Record)
    ensures var site := Get(rec, WebsiteKey);
      IsUrl(site) ==>
        Get(NormalizeHomepage(rec), WebsiteKey) == (if Homepage(site.s).Some? then JStr(Homepage(site.s).value) else site)
    ensures var site := Get(rec, WebsiteKey);
      var emp := Get(rec, EmploymentKey);
      !IsUrl(site) && IsUrl(emp) ==>
        WebsiteKey in NormalizeHomepage(rec) &&
        Get(NormalizeHomepage(rec), WebsiteKey) == (if Homepage(emp.s).Some? then JStr(Homepage(emp.s).value) else site)
    ensures !IsUrl(Get(rec, WebsiteKey)) && !IsUrl(Get(rec, EmploymentKey)) ==> NormalizeHomepage(rec) == rec
    ensures forall k :: k != WebsiteKey ==>
      (k in NormalizeHomepage(rec) <==> k in rec) && Get(NormalizeHomepage(rec), k) == Get(rec, k)
  {
  }

  /** The keys `update_record` writes. */
  const UpdatedKeys: set<string> := {PlatformKey, EmploymentKey, FinalKey, CheckedKey, ChangeReasonKey,
                                     ConfidenceKey, MethodKey, ScoreKey, ValidationKey}

  /** The keys an application-PDF refresh writes. */
  const ApplicationKeys: set<string> := {ApplicationKey, ApplicationOriginalKey, ApplicationFinalKey,
                                         ApplicationCheckedKey, ApplicationReasonKey, ApplicationConfidenceKey}

  /** The keys a run may write without replacing the employment URL. */
  const BookkeepingKeys: set<string> := {WebsiteKey, PlatformKey, PageTypeKey, BlockedKey}

  /** `update_record(...)`: the nine fields describing an accepted replacement. */
  function UpdatedFields(rec: Record, newEmp: string, platform: Platform, changeReason: string,
                         confidence: int, discoveryMethod: string, discoveryScore: int,
                         validationReason: string, now: string): (r: Record)
    ensures r.Keys == rec.Keys + UpdatedKeys
    ensures r[EmploymentKey] == JStr(newEmp) && r[FinalKey] == JStr(newEmp)
    ensures r[ConfidenceKey] == JNum(confidence)
    ensures forall k :: k in rec && k !in UpdatedKeys ==> r[k] == rec[k]
  {
    rec[PlatformKey := JStr(platform.Name())]
       [EmploymentKey := JStr(newEmp)]
       [FinalKey := JStr(newEmp)]
       [CheckedKey := JStr(now)]
       [ChangeReasonKey := JStr(changeReason)]
       [ConfidenceKey := JNum(confidence)]
       [MethodKey := JStr(discoveryMethod)]
       [ScoreKey := JNum(discoveryScore)]
       [ValidationKey := JStr(validationReason)]
  }

  /**
   * `update_record` writes exactly its nine keys, each holding the platform
   * name, the new URL, the time or the argument given; every other key is kept.
   */
  lemma UpdatedFieldsValues(rec: Record, newEmp: string, platform: Platform, changeReason: string,
                            confidence: int, discoveryMethod: string, discoveryScore: int,
                            validationReason: string, now: string)
    ensures var r := UpdatedFields(rec, newEmp, platform, changeReason, confidence, discoveryMethod,
                                   discoveryScore, validationReason, now);
      && r.Keys == rec.Keys + UpdatedKeys
      && (forall k :: k in rec && k !in UpdatedKeys ==> r[k] == rec[k])
      && r[EmploymentKey] == JStr(newEmp) && r[FinalKey] == JStr(newEmp)
      && r[ConfidenceKey] == JNum(confidence)
      && r[PlatformKey] == JStr(platform.Name())
      && r[CheckedKey] == JStr(now)
      && r[ChangeReasonKey] == JStr(changeReason)
      && r[MethodKey] == JStr(discoveryMethod)
      && r[ScoreKey] == JNum(discoveryScore)
      && r[ValidationKey] == JStr(validationReason)
  {
  }

  /**
   * Record a found application PDF. A string "Application Form URL" is
   * first saved under "Application Form URL (original)", but only when no
   * original was saved before.
   */
  function WithApplicationPdf(rec: Record, pdf: string, now: string): (r: Record)
    ensures ApplicationOriginalKey in rec ==> ApplicationOriginalKey in r && r[ApplicationOriginalKey] == rec[ApplicationOriginalKey]
    ensures ApplicationOriginalKey !in rec && Get(rec, ApplicationKey).JStr? ==>
      Get(r, ApplicationOriginalKey) == Get(rec, ApplicationKey)
    ensures Get(r, ApplicationKey) == JStr(pdf)
    ensures forall k :: k !in ApplicationKeys ==>
      (k in r <==> k in rec) && Get(r, k) == Get(rec, k)
  {
    var saved :=
      if ApplicationOriginalKey !in rec && Get(rec, ApplicationKey).JStr? then
        rec[ApplicationOriginalKey := rec[ApplicationKey]]
      else rec;
    saved[ApplicationKey := JStr(pdf)]
         [ApplicationFinalKey := JStr(pdf)]
         [ApplicationCheckedKey := JStr(now)]
         [ApplicationReasonKey := JStr(ApplicationFoundReason)]
         [ApplicationConfidenceKey := JNum(ApplicationConfidence)]
  }

  /**
   * A found application PDF is stored as the application URL and its final
   * URL, with the time, the finder's reason and confidence 85. A string old
   * value is saved as the original unless one was saved before; no original
   * is created from anything else. No other key changes.
   */
  lemma ApplicationPdfWrites(rec: Record, pdf: string, now: string)
    ensures var r := WithApplicationPdf(rec, pdf, now);
      && r[ApplicationKey] == JStr(pdf)
      && r[ApplicationFinalKey] == JStr(pdf)
      && r[ApplicationCheckedKey] == JStr(now)
      && r[ApplicationReasonKey] == JStr(ApplicationFoundReason)
      && r[ApplicationConfidenceKey] == JNum(ApplicationConfidence)
    ensures var r := WithApplicationPdf(rec, pdf, now);
      && (ApplicationOriginalKey in rec ==> ApplicationOriginalKey in r && r[ApplicationOriginalKey] == rec[ApplicationOriginalKey])
      && (ApplicationOriginalKey !in rec && Get(rec, ApplicationKey).JStr? ==>
            ApplicationOriginalKey in r && r[ApplicationOriginalKey] == rec[ApplicationKey])
      && (ApplicationOriginalKey !in rec && !Get(rec, ApplicationKey).JStr? ==> ApplicationOriginalKey !in r)
    ensures forall k :: k !in ApplicationKeys ==>
      (k in WithApplicationPdf(rec, pdf, now) <==> k in rec) && Get(WithApplicationPdf(rec, pdf, now), k) == Get(rec, k)
  {
  }

  // ------------------------------------------------------------------
  // The per-record decision
  // ------------------------------------------------------------------

  /** The report row of one record. */
  datatype Row =
    | Skipped(town: Json)                                        // reason "missing_town_homepage"
    | BotBlocked(town: Json, status: Json, platform: Platform)   // reason "status_<status>_bot_block_likely"
    | NotMarkedBroken(town: Json, platform: Platform)            // reason "employment_not_marked_broken"
    | NeedsReview(town: Json, platform: Platform, blocked: Option<string>)  // reason "no_candidate_validated"
    | Ephemeral(town: Json, platform: Platform, newUrl: string, confidence: int)  // "no_stable_employment_page_detected_ephemeral_posts"
    | Updated(town: Json, platform: Platform, oldUrl: Json, newUrl: string, confidence: int,
              source: Source, pageType: PageType)
  {
    function Action(): string {
      match this
      case Skipped(_) => "skipped"
      case BotBlocked(_, _, _) => "no_change"
      case NotMarkedBroken(_, _) => "no_change"
      case NeedsReview(_, _, _) => "needs_review"
      case Ephemeral(_, _, _, _) => "updated"
      case Updated(_, _, _, _, _, _, _) => "updated"
    }
  }

  /** The row, and the record as the state machine leaves it. */
  datatype Outcome = Outcome(row: Row, rec: Record)

  /** `rec.get("Town") or "(unknown)"`. */
  function TownOf(rec: Record): Json {
    if Truthy(Get(rec, TownKey)) then Get(rec, TownKey) else JStr("(unknown)")
  }

  /** The validator of one run, for the site `base`. */
  function ValidatorFor(base: string, web: Web): Checker {
    u => Validate(u, base, web)
  }

  /** The candidates, de-duplicated, scored and ranked. */
  function RankedCandidates(platform: Platform, base: string, town: string, web: Web): seq<Scored> {
    Ranked(ScoreAll(Deduped(Candidates(platform, base, town, web)), base))
  }

  /** The state of the validation loop after the best 40. */
  function Selected(platform: Platform, base: string, town: string, web: Web): Tally {
    Tallied(Trials(Top(RankedCandidates(platform, base, town, web)), ValidatorFor(base, web)))
  }

  /** The network-dependent search: the validation loop's final state for a platform, homepage and town. */
  type Selector = (Platform, string, string) -> Tally

  /** The network-dependent application-PDF finder, for an employment URL and a homepage. */
  type Finder = (string, string) -> PdfResult

  function SelectorFor(web: Web): Selector {
    (platform, base, town) => Selected(platform, base, town, web)
  }

  function FinderFor(web: Web): Finder {
    (url, base) => FindApplicationPdf(url, base, web)
  }

  /** The validation reason of an accepted candidate. */
  function AcceptedReason(r: Reason): string {
    if r.SplashToAts? then "ok_granicus_splash_to_ats" else "ok"
  }

  /** The application fields and the employment fields are written under different keys. */
  lemma KeysDistinct()
    ensures EmploymentKey !in ApplicationKeys
    ensures ApplicationKey !in UpdatedKeys && ApplicationOriginalKey !in UpdatedKeys
    ensures ApplicationKey !in BookkeepingKeys && ApplicationOriginalKey !in BookkeepingKeys
  {
  }

  /** A saved "Application Form URL (original)" is still there, unchanged. */
  predicate OriginalKept(rec: Record, r: Record) {
    ApplicationOriginalKey in rec ==> ApplicationOriginalKey in r && r[ApplicationOriginalKey] == rec[ApplicationOriginalKey]
  }

  /** With no original saved, a changed string application URL was saved as the original first. */
  predicate OriginalSaved(rec: Record, r: Record) {
    ApplicationOriginalKey !in rec && Get(rec, ApplicationKey).JStr? && Get(r, ApplicationKey) != Get(rec, ApplicationKey) ==>
      Get(r, ApplicationOriginalKey) == Get(rec, ApplicationKey)
  }

  /**
   * No candidate was accepted: a CivicLift site is reported as posting
   * ephemeral pages (its employment URL stays as it was); any other needs
   * review, with the last blocked reason when one was seen.
   */
  function NothingAccepted(rec: Record, town: Json, platform: Platform, base: string,
                           lastBlocked: Option<string>): (o: Outcome)
    ensures o.row.Ephemeral? <==> platform == CivicLift
    ensures o.row.Ephemeral? ==>
      o.row.platform == platform && o.row.newUrl == base && o.row.confidence == EphemeralConfidence &&
      o.rec == rec[PageTypeKey := JStr(EphemeralPosts.Name())]
    ensures !o.row.Ephemeral? ==> o.row.NeedsReview?
    ensures o.row.NeedsReview? ==>
      o.row.blocked == (if lastBlocked.Some? && lastBlocked.value != "" then lastBlocked else None) &&
      o.rec == (if o.row.blocked.Some? then rec[BlockedKey := JStr(o.row.blocked.value)] else rec)
  {
    KeysDistinct();
    if platform == CivicLift then
      Outcome(Ephemeral(town, platform, base, EphemeralConfidence), rec[PageTypeKey := JStr(EphemeralPosts.Name())])
    else if lastBlocked.Some? && lastBlocked.value != "" then
      Outcome(NeedsReview(town, platform, lastBlocked), rec[BlockedKey := JStr(lastBlocked.value)])
    else
      Outcome(NeedsReview(town, platform, None), rec)
  }

  /** The finder is consulted only for an HTML employment page on the town's own site. */
  predicate SeeksApplication(newEmp: string, base: string) {
    !IsPdf(newEmp) && SameSite(newEmp, base)
  }

  /** The record after the application-form refresh, given the finder's answer `found`. */
  function WithFound(rec: Record, found: PdfResult, now: string): (r: Record)
    ensures forall k :: k !in ApplicationKeys ==> (k in r <==> k in rec) && Get(r, k) == Get(rec, k)
    ensures OriginalKept(rec, r) && OriginalSaved(rec, r)
    ensures Get(r, ApplicationKey) != Get(rec, ApplicationKey) ==>
      found.pdf.Some? && Get(r, ApplicationKey) == JStr(found.pdf.value)
    ensures found.pdf.Some? && found.pdf.value != "" ==> Get(r, ApplicationKey) == JStr(found.pdf.value)
    ensures !(found.pdf.Some? && found.pdf.value != "") ==> r == rec
  {
    if found.pdf.Some? && found.pdf.value != "" then WithApplicationPdf(rec, found.pdf.value, now) else rec
  }

  /** The record after the optional application-form refresh for the new employment URL. */
  function RefreshApplication(rec: Record, newEmp: string, base: string, find: Finder, now: string): (r: Record)
    ensures forall k :: k !in ApplicationKeys ==> (k in r <==> k in rec) && Get(r, k) == Get(rec, k)
    ensures OriginalKept(rec, r) && OriginalSaved(rec, r)
    ensures Get(r, ApplicationKey) != Get(rec, ApplicationKey) ==>
      SeeksApplication(newEmp, base) && find(newEmp, base).pdf.Some? &&
      Get(r, ApplicationKey) == JStr(find(newEmp, base).pdf.value)
    ensures SeeksApplication(newEmp, base) && find(newEmp, base).pdf.Some? && find(newEmp, base).pdf.value != "" ==>
      Get(r, ApplicationKey) == JStr(find(newEmp, base).pdf.value)
    ensures !SeeksApplication(newEmp, base) ==> r == rec
  {
    if SeeksApplication(newEmp, base) then WithFound(rec, find(newEmp, base), now) else rec
  }

  /** An accepted pick replaces the employment URL. */
  function Replace(rec: Record, town: Json, platform: Platform, base: string, p: Pick,
                   find: Finder, now: string): (o: Outcome)
    ensures o.row.Updated? && o.row.newUrl == p.final && o.row.source == p.source
    ensures 70 <= o.row.confidence <= 95
    ensures IsPdf(p.final) ==> o.row.confidence <= 75
    ensures IsAts(p.final) && !IsPdf(p.final) ==> o.row.confidence >= 85
  {
    KeysDistinct();
    var newEmp := p.final;
    var conf := Confidence(newEmp);
    var pt := ClassifyPage(newEmp, platform, TextOf(Get(rec, NotesKey)));
    var oldEmp := Get(rec, EmploymentKey);
    var updated := UpdatedFields(rec[PageTypeKey := JStr(pt.Name())], newEmp, platform,
                                 "rediscovered_from_" + p.source.Name(), conf, p.source.Name(),
                                 p.score, AcceptedReason(p.reason), now);
    Outcome(Updated(town, platform, if Truthy(oldEmp) then oldEmp else JStr(""), newEmp, conf, p.source, pt),
            RefreshApplication(updated, newEmp, base, find, now))
  }

  /**
   * A replacement keeps a saved original application URL, saves the old one
   * before changing it, and changes it only to the finder's PDF.
   */
  lemma ReplaceApplication(rec: Record, town: Json, platform: Platform, base: string, p: Pick,
                           find: Finder, now: string)
    ensures var o := Replace(rec, town, platform, base, p, find, now);
      && OriginalKept(rec, o.rec) && OriginalSaved(rec, o.rec)
      && (Get(o.rec, ApplicationKey) != Get(rec, ApplicationKey) ==>
            SeeksApplication(p.final, base) && find(p.final, base).pdf.Some? &&
            Get(o.rec, ApplicationKey) == JStr(find(p.final, base).pdf.value))
      && (SeeksApplication(p.final, base) && find(p.final, base).pdf.Some? && find(p.final, base).pdf.value != "" ==>
            Get(o.rec, ApplicationKey) == JStr(find(p.final, base).pdf.value))
  {
    KeysDistinct();
  }

  /** A replacement writes the accepted URL as the employment URL. */
  lemma ReplaceWritesEmployment(rec: Record, town: Json, platform: Platform, base: string, p: Pick,
                                find: Finder, now: string)
    ensures Get(Replace(rec, town, platform, base, p, find, now).rec, EmploymentKey) == JStr(p.final)
  {
    KeysDistinct();
  }

  /** The fields of a replacement, for any page type, confidence and pick. */
  lemma ReplacedFields(rec: Record, pt: PageType, newEmp: string, platform: Platform, changeReason: string,
                       confidence: int, discoveryMethod: string, discoveryScore: int,
                       validationReason: string, base: string, find: Finder, now: string)
    ensures var r := RefreshApplication(UpdatedFields(rec[PageTypeKey := JStr(pt.Name())], newEmp, platform,
                                                      changeReason, confidence, discoveryMethod, discoveryScore,
                                                      validationReason, now), newEmp, base, find, now);
      && Get(r, ConfidenceKey) == JNum(confidence)
      && Get(r, PageTypeKey) == JStr(pt.Name())
      && Get(r, FinalKey) == JStr(newEmp)
      && Get(r, MethodKey) == JStr(discoveryMethod)
      && Get(r, ScoreKey) == JNum(discoveryScore)
      && forall k :: k !in UpdatedKeys && k !in ApplicationKeys && k != PageTypeKey ==>
           (k in r <==> k in rec) && Get(r, k) == Get(rec, k)
  {
    var marked := rec[PageTypeKey := JStr(pt.Name())];
    var updated := UpdatedFields(marked, newEmp, platform, changeReason, confidence, discoveryMethod,
                                 discoveryScore, validationReason, now);
    UpdatedFieldsValues(marked, newEmp, platform, changeReason, confidence, discoveryMethod,
                        discoveryScore, validationReason, now);
    assert PageTypeKey !in UpdatedKeys;
    assert ConfidenceKey !in ApplicationKeys && PageTypeKey !in ApplicationKeys && FinalKey !in ApplicationKeys;
    assert MethodKey !in ApplicationKeys && ScoreKey !in ApplicationKeys;
  }

  /**
   * A replacement stores what its row reports: the confidence, the page
   * type, and the pick's final URL, source and score. Every key outside
   * those `update_record`, the page type and the application refresh write
   * is kept.
   */
  lemma ReplaceRecord(rec: Record, town: Json, platform: Platform, base: string, p: Pick,
                      find: Finder, now: string)
    ensures var o := Replace(rec, town, platform, base, p, find, now);
      && Get(o.rec, ConfidenceKey) == JNum(o.row.confidence)
      && Get(o.rec, PageTypeKey) == JStr(o.row.pageType.Name())
      && Get(o.rec, FinalKey) == JStr(p.final)
      && Get(o.rec, MethodKey) == JStr(p.source.Name())
      && Get(o.rec, ScoreKey) == JNum(p.score)
    ensures var o := Replace(rec, town, platform, base, p, find, now);
      forall k :: k !in UpdatedKeys && k !in ApplicationKeys && k != PageTypeKey ==>
        (k in o.rec <==> k in rec) && Get(o.rec, k) == Get(rec, k)
  {
    var conf := Confidence(p.final);
    var pt := ClassifyPage(p.final, platform, TextOf(Get(rec, NotesKey)));
    ReplacedFields(rec, pt, p.final, platform, "rediscovered_from_" + p.source.Name(), conf,
                   p.source.Name(), p.score, AcceptedReason(p.reason), base, find, now);
  }

  /**
   * After the validation loop ended in `t`: write the chosen pick (an HTML
   * page before any PDF) or the fallback.
   */
  function Attempt(rec: Record, town: Json, platform: Platform, base: string, t: Tally,
                   find: Finder, now: string): Outcome
  {
    match Chosen(t)
    case None => NothingAccepted(rec, town, platform, base, t.lastBlocked)
    case Some(p) => Replace(rec, town, platform, base, p, find, now)
  }

  /** The fallback row keeps the employment URL and marks the page type. */
  lemma AttemptEphemeral(rec: Record, town: Json, platform: Platform, base: string, t: Tally,
                         find: Finder, now: string)
    ensures var o := Attempt(rec, town, platform, base, t, find, now);
      o.row.Ephemeral? ==>
        && platform == CivicLift && o.row.platform == platform && o.row.newUrl == base
        && o.row.confidence == 60
        && Get(o.rec, PageTypeKey) == JStr("ephemeral_posts")
        && Get(o.rec, EmploymentKey) == Get(rec, EmploymentKey)
  {
    assert EphemeralPosts.Name() == "ephemeral_posts";
  }

  /** Only a replacement refreshes the application form, and only with the finder's PDF. */
  lemma AttemptApplication(rec: Record, town: Json, platform: Platform, base: string, t: Tally,
                           find: Finder, now: string)
    ensures var o := Attempt(rec, town, platform, base, t, find, now);
      && OriginalKept(rec, o.rec) && OriginalSaved(rec, o.rec)
      && (Get(o.rec, ApplicationKey) != Get(rec, ApplicationKey) ==>
            o.row.Updated? && SeeksApplication(o.row.newUrl, base) && find(o.row.newUrl, base).pdf.Some? &&
            Get(o.rec, ApplicationKey) == JStr(find(o.row.newUrl, base).pdf.value))
      && (o.row.Updated? && SeeksApplication(o.row.newUrl, base) && find(o.row.newUrl, base).pdf.Some? &&
          find(o.row.newUrl, base).pdf.value != "" ==>
            Get(o.rec, ApplicationKey) == JStr(find(o.row.newUrl, base).pdf.value))
  {
    match Chosen(t)
    case None =>
      var o := NothingAccepted(rec, town, platform, base, t.lastBlocked);
      KeysDistinct();
      assert Get(o.rec, ApplicationKey) == Get(rec, ApplicationKey);
      assert Get(o.rec, ApplicationOriginalKey) == Get(rec, ApplicationOriginalKey);
      assert ApplicationOriginalKey in o.rec <==> ApplicationOriginalKey in rec;
    case Some(p) =>
      ReplaceApplication(rec, town, platform, base, p, find, now);
  }

  /** A review request stores the blocked reason it reports. */
  lemma AttemptNeedsReview(rec: Record, town: Json, platform: Platform, base: string, t: Tally,
                           find: Finder, now: string)
    ensures var o := Attempt(rec, town, platform, base, t, find, now);
      o.row.NeedsReview? && o.row.blocked.Some? ==>
        o.row.blocked.value != "" && Get(o.rec, BlockedKey) == JStr(o.row.blocked.value)
  {
  }

  /** `rediscover_for_town(rec)`, with the network-dependent search and finder given. */
  function RediscoverWith(rec: Record, select: Selector, find: Finder, now: string): Outcome {
    var town := TownOf(rec);
    var r1 := NormalizeHomepage(rec);
    var base := Get(r1, WebsiteKey);
    if !IsUrl(base) then Outcome(Skipped(town), r1)
    else
      var platform := DetectPlatform(r1);
      var r2 := r1[PlatformKey := JStr(platform.Name())];
      var status := Get(r2, StatusKey);
      if BotBlockStatus(status) then Outcome(BotBlocked(town, status, platform), r2)
      else if !ShouldAttempt(r2) then Outcome(NotMarkedBroken(town, platform), r2)
      else Attempt(r2, town, platform, base.s, select(platform, base.s, TextOf(town)), find, now)
  }

  /** `rediscover_for_town(rec)` over the network `web`: the row and the new record. */
  function Rediscover(rec: Record, web: Web, now: string): Outcome {
    RediscoverWith(rec, SelectorFor(web), FinderFor(web), now)
  }

  // ------------------------------------------------------------------
  // Properties of the decision
  // ------------------------------------------------------------------

  /** The homepage the run works from. */
  function BaseOf(rec: Record): Json {
    Get(NormalizeHomepage(rec), WebsiteKey)
  }

  /** The record as it reaches the gates: homepage normalised, platform written. */
  function Gated(rec: Record): Record {
    var r1 := NormalizeHomepage(rec);
    r1[PlatformKey := JStr(DetectPlatform(r1).Name())]
  }

  /** The gates change only the homepage and the platform fields. */
  lemma GatedFrame(rec: Record, k: string)
    requires k != WebsiteKey && k != PlatformKey
    ensures (k in Gated(rec) <==> k in rec) && Get(Gated(rec), k) == Get(rec, k)
  {
  }

  /** The four ways a run ends, in terms of the gated record. */
  lemma RediscoverWithUnfolds(rec: Record, select: Selector, find: Finder, now: string)
    ensures !IsUrl(BaseOf(rec)) ==>
      RediscoverWith(rec, select, find, now) == Outcome(Skipped(TownOf(rec)), NormalizeHomepage(rec))
    ensures IsUrl(BaseOf(rec)) && BotBlockStatus(Get(Gated(rec), StatusKey)) ==>
      RediscoverWith(rec, select, find, now) ==
        Outcome(BotBlocked(TownOf(rec), Get(Gated(rec), StatusKey), DetectPlatform(NormalizeHomepage(rec))), Gated(rec))
    ensures IsUrl(BaseOf(rec)) && !BotBlockStatus(Get(Gated(rec), StatusKey)) && !ShouldAttempt(Gated(rec)) ==>
      RediscoverWith(rec, select, find, now) ==
        Outcome(NotMarkedBroken(TownOf(rec), DetectPlatform(NormalizeHomepage(rec))), Gated(rec))
    ensures IsUrl(BaseOf(rec)) && !BotBlockStatus(Get(Gated(rec), StatusKey)) && ShouldAttempt(Gated(rec)) ==>
      var platform := DetectPlatform(NormalizeHomepage(rec));
      RediscoverWith(rec, select, find, now) ==
        Attempt(Gated(rec), TownOf(rec), platform, BaseOf(rec).s,
                select(platform, BaseOf(rec).s, TextOf(TownOf(rec))), find, now)
  {
  }

  /**
   * A 401/403 record with a homepage is left alone: the row is "no_change",
   * the employment URL is kept, and nothing is fetched (the outcome is the
   * same whatever the search and the finder would answer), even when the
   * soft-404 flag is set.
   */
  lemma BotBlockedIsNoChange(rec: Record, select: Selector, find: Finder,
                             select': Selector, find': Finder, now: string)
    requires IsUrl(BaseOf(rec)) && BotBlockStatus(Get(rec, StatusKey))
    ensures RediscoverWith(rec, select, find, now).row.BotBlocked?
    ensures RediscoverWith(rec, select, find, now).row.Action() == "no_change"
    ensures RediscoverWith(rec, select, find, now) == RediscoverWith(rec, select', find', now)
    ensures Get(RediscoverWith(rec, select, find, now).rec, EmploymentKey) == Get(rec, EmploymentKey)
  {
    RediscoverWithUnfolds(rec, select, find, now);
  }

  /**
   * Past the 401/403 gate, candidates are looked for exactly when the status
   * marks the page broken (404, 410, -1 or none) or the soft-404 flag is set.
   */
  lemma AttemptGate(rec: Record, select: Selector, find: Finder, now: string)
    requires IsUrl(BaseOf(rec)) && !BotBlockStatus(Get(rec, StatusKey))
    ensures RediscoverWith(rec, select, find, now).row.NotMarkedBroken? <==>
      !(BrokenStatus(Get(rec, StatusKey)) || Truthy(Get(rec, Soft404Key)))
  {
    RediscoverWithUnfolds(rec, select, find, now);
  }

  /** A record without a homepage is skipped, changed only in "Town Website". */
  lemma NoHomepageSkipped(rec: Record, select: Selector, find: Finder, now: string)
    requires !IsUrl(BaseOf(rec))
    ensures RediscoverWith(rec, select, find, now).row.Skipped?
    ensures forall k :: k != WebsiteKey ==>
      (k in RediscoverWith(rec, select, find, now).rec <==> k in rec) && Get(RediscoverWith(rec, select, find, now).rec, k) == Get(rec, k)
  {
  }

  /**
   * Unless the row is "updated" with a replacement, only the homepage, the
   * detected platform, the page type and the last blocked reason may change:
   * the employment URL and every other field stay as they were.
   */
  lemma OnlyReplacementRewrites(rec: Record, select: Selector, find: Finder, now: string)
    ensures var o := RediscoverWith(rec, select, find, now);
      !o.row.Updated? ==>
        forall k :: k !in BookkeepingKeys ==> (k in o.rec <==> k in rec) && Get(o.rec, k) == Get(rec, k)
  {
    RediscoverWithUnfolds(rec, select, find, now);
  }

  /**
   * A replacement stores its URL as the employment URL, with a confidence of
   * 70 to 95: at most 75 for a PDF, at least 85 for an ATS page.
   */
  lemma ReplacementConfidence(rec: Record, select: Selector, find: Finder, now: string)
    ensures var o := RediscoverWith(rec, select, find, now);
      o.row.Updated? ==>
        && Get(o.rec, EmploymentKey) == JStr(o.row.newUrl)
        && 70 <= o.row.confidence <= 95
        && (IsPdf(o.row.newUrl) ==> o.row.confidence <= 75)
        && (IsAts(o.row.newUrl) && !IsPdf(o.row.newUrl) ==> o.row.confidence >= 85)
  {
    RediscoverWithUnfolds(rec, select, find, now);
    var o := RediscoverWith(rec, select, find, now);
    if o.row.Updated? {
      var platform := DetectPlatform(NormalizeHomepage(rec));
      var t := select(platform, BaseOf(rec).s, TextOf(TownOf(rec)));
      ReplaceWritesEmployment(Gated(rec), TownOf(rec), platform, BaseOf(rec).s, Chosen(t).value, find, now);
    }
  }

  /** The search only ever chooses an ATS URL or a page of the homepage's own site. */
  ghost predicate SelectsAccepted(select: Selector) {
    forall platform, base, town :: Chosen(select(platform, base, town)).Some? ==>
      IsAts(Chosen(select(platform, base, town)).value.final) ||
      SameSite(Chosen(select(platform, base, town)).value.final, base)
  }

  /** The real search, ranking and validating over the network, has that property. */
  lemma SearchSelectsAccepted(web: Web)
    ensures SelectsAccepted(SelectorFor(web))
  {
    forall platform, base, town
      ensures Chosen(SelectorFor(web)(platform, base, town)).Some? ==>
        IsAts(Chosen(SelectorFor(web)(platform, base, town)).value.final) ||
        SameSite(Chosen(SelectorFor(web)(platform, base, town)).value.final, base)
    {
      ChosenAccepted(RankedCandidates(platform, base, town, web), base, web, ValidatorFor(base, web));
    }
  }

  /** A replacement is an ATS URL or a page of the town's own site. */
  lemma ReplacementIsAccepted(rec: Record, select: Selector, find: Finder, now: string)
    requires SelectsAccepted(select)
    ensures var o := RediscoverWith(rec, select, find, now);
      o.row.Updated? ==> IsAts(o.row.newUrl) || SameSite(o.row.newUrl, TextOf(BaseOf(rec)))
  {
    RediscoverWithUnfolds(rec, select, find, now);
    var o := RediscoverWith(rec, select, find, now);
    if o.row.Updated? {
      var platform := DetectPlatform(NormalizeHomepage(rec));
      var t := select(platform, BaseOf(rec).s, TextOf(TownOf(rec)));
      assert Chosen(t).Some?;
    }
  }

  /**
   * The application form is refreshed only for a replacement that is an
   * HTML page of the town's own site, and then holds the finder's PDF;
   * an "Application Form URL (original)" once saved is never overwritten,
   * and when none was saved, a replaced string "Application Form URL" is
   * first saved under it.
   */
  lemma ApplicationRefresh(rec: Record, select: Selector, find: Finder, now: string)
    ensures var o := RediscoverWith(rec, select, find, now);
      Get(o.rec, ApplicationKey) != Get(rec, ApplicationKey) ==>
        o.row.Updated? && SeeksApplication(o.row.newUrl, TextOf(BaseOf(rec))) &&
        find(o.row.newUrl, TextOf(BaseOf(rec))).pdf.Some? &&
        Get(o.rec, ApplicationKey) == JStr(find(o.row.newUrl, TextOf(BaseOf(rec))).pdf.value)
    ensures var o := RediscoverWith(rec, select, find, now);
      var base := TextOf(BaseOf(rec));
      o.row.Updated? && SeeksApplication(o.row.newUrl, base) && find(o.row.newUrl, base).pdf.Some? &&
      find(o.row.newUrl, base).pdf.value != "" ==>
        Get(o.rec, ApplicationKey) == JStr(find(o.row.newUrl, base).pdf.value)
    ensures OriginalKept(rec, RediscoverWith(rec, select, find, now).rec)
    ensures OriginalSaved(rec, RediscoverWith(rec, select, find, now).rec)
  {
    KeysDistinct();
    GatedFrame(rec, ApplicationKey);
    GatedFrame(rec, ApplicationOriginalKey);
    RediscoverWithUnfolds(rec, select, find, now);
    if IsUrl(BaseOf(rec)) && !BotBlockStatus(Get(Gated(rec), StatusKey)) && ShouldAttempt(Gated(rec)) {
      var platform := DetectPlatform(NormalizeHomepage(rec));
      AttemptApplication(Gated(rec), TownOf(rec), platform, BaseOf(rec).s,
                         select(platform, BaseOf(rec).s, TextOf(TownOf(rec))), find, now);
    }
  }

  /**
   * The CivicLift fallback: when nothing is accepted on a CivicLift site the
   * row reports the homepage, the page type becomes "ephemeral_posts", and
   * the employment URL is kept.
   */
  lemma EphemeralFallback(rec: Record, select: Selector, find: Finder, now: string)
    ensures var o := RediscoverWith(rec, select, find, now);
      o.row.Ephemeral? ==>
        && o.row.platform == CivicLift && DetectPlatform(NormalizeHomepage(rec)) == CivicLift
        && JStr(o.row.newUrl) == BaseOf(rec) && o.row.confidence == 60
        && Get(o.rec, PageTypeKey) == JStr("ephemeral_posts")
        && Get(o.rec, EmploymentKey) == Get(rec, EmploymentKey)
        && o.row.Action() == "updated"
  {
    RediscoverWithUnfolds(rec, select, find, now);
    if IsUrl(BaseOf(rec)) && !BotBlockStatus(Get(Gated(rec), StatusKey)) && ShouldAttempt(Gated(rec)) {
      GatedFrame(rec, EmploymentKey);
      var platform := DetectPlatform(NormalizeHomepage(rec));
      AttemptEphemeral(Gated(rec), TownOf(rec), platform, BaseOf(rec).s,
                       select(platform, BaseOf(rec).s, TextOf(TownOf(rec))), find, now);
    }
  }

  /**
   * A "needs_review" row reports the last blocked reason the validation loop
   * kept, and the record then stores it in "employment_url_last_blocked_reason".
   */
  lemma NeedsReviewKeepsBlocked(rec: Record, select: Selector, find: Finder, now: string)
    ensures var o := RediscoverWith(rec, select, find, now);
      o.row.NeedsReview? && o.row.blocked.Some? ==>
        o.row.blocked.value != "" && Get(o.rec, BlockedKey) == JStr(o.row.blocked.value)
  {
    RediscoverWithUnfolds(rec, select, find, now);
    if IsUrl(BaseOf(rec)) && !BotBlockStatus(Get(Gated(rec), StatusKey)) && ShouldAttempt(Gated(rec)) {
      var platform := DetectPlatform(NormalizeHomepage(rec));
      AttemptNeedsReview(Gated(rec), TownOf(rec), platform, BaseOf(rec).s,
                         select(platform, BaseOf(rec).s, TextOf(TownOf(rec))), find, now);
    }
  }

  // ------------------------------------------------------------------
  // The record, updated in place
  // ------------------------------------------------------------------

  /** A town record, a JSON object the engine updates in place. */
  class TownRecord {
    var fields: Record

    constructor(fields0: Record)
      ensures fields == fields0
    {
      fields := fields0;
    }

    /** `update_record(rec, ...)`. */
    method UpdateRecord(newEmp: string, platform: Platform, changeReason: string, confidence: int,
                        discoveryMethod: string, discoveryScore: int, validationReason: string, now: string)
      modifies this
      ensures fields == UpdatedFields(old(fields), newEmp, platform, changeReason, confidence,
                                      discoveryMethod, discoveryScore, validationReason, now)
    {
      fields := fields[PlatformKey := JStr(platform.Name())];
      fields := fields[EmploymentKey := JStr(newEmp)];
      fields := fields[FinalKey := JStr(newEmp)];
      fields := fields[CheckedKey := JStr(now)];
      fields := fields[ChangeReasonKey := JStr(changeReason)];
      fields := fields[ConfidenceKey := JNum(confidence)];
      fields := fields[MethodKey := JStr(discoveryMethod)];
      fields := fields[ScoreKey := JNum(discoveryScore)];
      fields := fields[ValidationKey := JStr(validationReason)];
    }

    /** Record the finder's answer `found`, in place. */
    method RecordApplicationPdf(found: PdfResult, now: string)
      modifies this
      ensures fields == WithFound(old(fields), found, now)
    {
      if found.pdf.Some? && found.pdf.value != "" {
        var pdf := found.pdf.value;
        if ApplicationOriginalKey !in fields && Get(fields, ApplicationKey).JStr? {
          fields := fields[ApplicationOriginalKey := fields[ApplicationKey]];
        }
        fields := fields[ApplicationKey := JStr(pdf)];
        fields := fields[ApplicationFinalKey := JStr(pdf)];
        fields := fields[ApplicationCheckedKey := JStr(now)];
        fields := fields[ApplicationReasonKey := JStr(ApplicationFoundReason)];
        fields := fields[ApplicationConfidenceKey := JNum(ApplicationConfidence)];
      }
    }

    /** No candidate was accepted: the CivicLift fallback, or a review request. */
    method RecordNoChoice(town: Json, platform: Platform, base: string, lastBlocked: Option<string>)
      returns (row: Row)
      modifies this
      ensures Outcome(row, fields) == NothingAccepted(old(fields), town, platform, base, lastBlocked)
    {
      if platform == CivicLift {
        fields := fields[PageTypeKey := JStr(EphemeralPosts.Name())];
        return Ephemeral(town, platform, base, EphemeralConfidence);
      }
      if lastBlocked.Some? && lastBlocked.value != "" {
        fields := fields[BlockedKey := JStr(lastBlocked.value)];
        return NeedsReview(town, platform, lastBlocked);
      }
      return NeedsReview(town, platform, None);
    }

    /** Write the accepted pick `p`, then look for its application form. */
    method RecordReplacement(town: Json, platform: Platform, base: string, p: Pick, web: Web, now: string)
      returns (row: Row)
      modifies this
      ensures Outcome(row, fields) == Replace(old(fields), town, platform, base, p, FinderFor(web), now)
    {
      var newEmp := p.final;
      var oldEmp := Get(fields, EmploymentKey);
      var conf := Confidence(newEmp);
      var pageType := ClassifyPage(newEmp, platform, TextOf(Get(fields, NotesKey)));
      fields := fields[PageTypeKey := JStr(pageType.Name())];
      UpdateRecord(newEmp, platform, "rediscovered_from_" + p.source.Name(), conf, p.source.Name(),
                   p.score, AcceptedReason(p.reason), now);
      if !IsPdf(newEmp) && SameSite(newEmp, base) {
        var found := FindApplicationPdfOnPage(newEmp, base, web);
        RecordApplicationPdf(found, now);
      }
      row := Updated(town, platform, if Truthy(oldEmp) then oldEmp else JStr(""), newEmp, conf, p.source, pageType);
    }

    /** `rediscover_for_town(rec)`: returns the report row and updates the record. */
    method RediscoverForTown(web: Web, now: string) returns (row: Row)
      modifies this
      ensures Outcome(row, fields) == Rediscover(old(fields), web, now)
    {
      var town := TownOf(fields);
      var site := Get(fields, WebsiteKey);
      if IsUrl(site) {
        fields := fields[WebsiteKey := HomepageOr(site.s, site)];
      } else {
        var emp := Get(fields, EmploymentKey);
        if IsUrl(emp) {
          fields := fields[WebsiteKey := HomepageOr(emp.s, site)];
        }
      }
      assert fields == NormalizeHomepage(old(fields));
      var base := Get(fields, WebsiteKey);
      if !IsUrl(base) {
        return Skipped(town);
      }
      var platform := DetectPlatform(fields);
      fields := fields[PlatformKey := JStr(platform.Name())];
      var status := Get(fields, StatusKey);
      if BotBlockStatus(status) {
        return BotBlocked(town, status, platform);
      }
      if !ShouldAttempt(fields) {
        return NotMarkedBroken(town, platform);
      }
      row := AttemptForTown(town, platform, base.s, web, now);
    }

    /**
     * The rest of `rediscover_for_town` once the gates are passed: gather,
     * dedupe, score and validate the candidates, then write the chosen one
     * or the fallback.
     */
    method AttemptForTown(town: Json, platform: Platform, base: string, web: Web, now: string)
      returns (row: Row)
      modifies this
      ensures Outcome(row, fields) ==
        Attempt(old(fields), town, platform, base, SelectorFor(web)(platform, base, TextOf(town)), FinderFor(web), now)
    {
      var cand := GatherCandidates(platform, base, TextOf(town), web);
      var deduped := Dedupe(cand);
      var ranked := Ranked(ScoreAll(deduped, base));
      var t := ValidateTop(ranked, ValidatorFor(base, web));
      assert t == SelectorFor(web)(platform, base, TextOf(town));
      var chosen := Chosen(t);
      if chosen.None? {
        row := RecordNoChoice(town, platform, base, t.lastBlocked);
      } else {
        row := RecordReplacement(town, platform, base, chosen.value, web, now);
      }
    }
  }
}
