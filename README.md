# Employment-link rediscovery and conservative merge, modelled in Dafny

This project models the two decision components of a small data pipeline. The pipeline keeps a
list of Connecticut municipalities together with the URLs of their employment pages.

* **Rediscovery** (`rediscover_employment_links_v3.py`) takes one town record whose "Employment
  Page URL" looks broken.
  * It normalises the town homepage and detects the site platform (CivicPlus, CivicLift, Granicus
    or other).
  * It generates candidate links from template paths and crawled pages, de-duplicates them and
    scores them.
  * It sorts them stably by descending score, then validates the best 40 against their HTTP
    responses. It keeps the best accepted HTML page, or else the best accepted PDF.
  * It computes a confidence and a page type, and rewrites the record in place.
  * It may also refresh the "Application Form URL" from a PDF found on the new page.
* **Merge** (`merge_rediscovered_into_canonical.py`) folds a rediscovered data set into the
  canonical one.
  * It normalises both documents, dict-shaped or list-shaped, into maps keyed by normalised town
    name.
  * It decides per town whether to add, skip, merge or leave the record alone (noop).
  * It merges records field by field under a conservative overwrite policy.
  * It rebuilds the canonical document in its original shape.

Modules, in dependency order:

| file | module | models |
|---|---|---|
| `json.dfy` | `Wrappers`, `JsonData` | Option/Result, JSON values, Python `==` and truthiness on them |
| `text.dfy` | `Text` | ASCII `lower`, `strip`, substring search, whitespace collapsing |
| `http.dfy` | `Http` | an HTTP response (final URL, status, content type, body, extracted anchors) and the web as a function from URL to response |
| `urls.dfy` | `Urls` | `urlsplit`/`urlparse`, `homepage`, `host_norm`, `same_site`, `is_pdf`, page-id pattern, `urljoin` of a relative path, `parse_qs`/`unquote` for the splash parameter |
| `signals.dfy` | `Signals` | keyword tables, `is_social`, `is_ats`, `kw_hit`, `blocked_reason`, `looks_soft404` |
| `platform.dfy` | `Platforms` | `detect_platform` |
| `scoring.dfy` | `Scoring` | `score_candidate`, the confidence arithmetic, the page-type classification |
| `validation.dfy` | `Validation` | `validate_candidate` |
| `discovery.dfy` | `Discovery` | the `discover_*` generators and `granicus_ats_fallback_candidates` |
| `selection.dfy` | `Selection` | de-duplication, stable ranking, the top-40 validation loop, the best-HTML/best-PDF choice |
| `application.dfy` | `Application` | `find_application_pdf` |
| `rediscover.dfy` | `Rediscovery` | `should_attempt`, `update_record`, `rediscover_for_town` (the class `TownRecord` holds the mutable record) |
| `merge_keys.dfy` | `MergeKeys` | `norm_town_name`, `guess_town_field`, `is_urlish_key`, `looks_like_url`, `deep_get_status` |
| `field_merge.dfy` | `FieldMerge` | `MergePolicy`, `keys_allowed_to_overwrite`, `merge_record` |
| `containers.dfy` | `Containers` | `normalize_to_map`, `rebuild_original_from_map` |
| `promotion.dfy` | `Promotion` | the per-town decision loop of the merge `main` |

Where the code works in place, the model works in place too, and each method is proved equal to a
specification function.
* Loops that append to a candidate list, the de-duplication loop, the validation loop, the PDF
  scan, `merge_record`, `normalize_to_map`, the rebuild and the merge `main` loop are all methods
  with loop invariants.
* Each method's specification function carries the lemmas.
* `rediscover_for_town` is a method of `TownRecord`. It updates `fields` and is proved to produce
  exactly the row and record of the function `Rediscover`.

The network is one parameter: `Web`, a total function from a requested URL to a transport error or
a response. The response already carries the anchors that HTML parsing would extract. Most
rediscovery lemmas are stated over `RediscoverWith`, which takes the selection stage and the PDF
finder as function parameters, so they hold for any web. `SearchSelectsAccepted` connects them to
the real validator.

Behaviour of the code that the model follows, where a reader might expect otherwise:
* The CivicLift fallback reports action `updated` with the homepage as `new_employment_url`. It
  sets only `employment_page_type` to `ephemeral_posts` and leaves "Employment Page URL" as it
  was (`EphemeralFallback`).
* The homepage normalisation of "Town Website" and the `platform_detected` field are written
  before the gates, so they change even on `no_change` rows. A `needs_review` row with a blocked
  reason also writes `employment_url_last_blocked_reason` (`OnlyReplacementRewrites`).
* The records written by the rediscovery script carry no `status`, `merge_status`,
  `result_status`, `result`, `rediscovery`, `rediscovered` or `meta` key. Their status therefore
  reads as `unknown`, and under the default policy (promote only `updated`) the merge skips them
  (`DefaultSkipsUnmarked`).
* In a dict-shaped canonical document, a value that is not an object is wrapped as
  `{"value": v}` by normalisation. The rebuild writes the merged map back for every town it holds,
  and the merged map starts as a copy of the whole canonical map. So every such value comes out
  wrapped, even when nothing was merged (`AsRecord`, `RebuildKeepsShape`). The round trip holds
  only when every value is an object (`RebuildDictRoundTrip`).
* With `allow_new_towns`, a promoted town that canonical lacks is added to the merged map and gets
  an `added` report row. But the rebuild walks only the canonical document, so the town is never
  written to the output (`NewTownsRule`, `MergeKeepsShape`). The comment at
  merge_rediscovered_into_canonical.py:258 promises to append such towns; the `missing` list
  computed for that at line 259 is never used.

## Model

| member | source | states |
|---|---|---|
| Urls.HomepageValue | rediscover_employment_links_v3.py:171-177 | a homepage exists exactly when the stripped URL is non-empty and has both a scheme and a netloc, and it is then `scheme://netloc/` |
| Urls.HostNorm | rediscover_employment_links_v3.py:180-185 | a netloc without a `www.` prefix is returned lower-cased and otherwise unchanged |
| Urls.HostNormStripsWww | rediscover_employment_links_v3.py:180-185 | a lower-cased netloc starting with `www.` is returned without exactly that prefix |
| Urls.LeadingDigitsAreDigits | rediscover_employment_links_v3.py:131 | the digit run measured for the page-id pattern `^/\d{2,6}/` consists of digits and stops at the first non-digit |
| Urls.QuotePlusRoundTrip | rediscover_employment_links_v3.py:271-274 | decoding a query value (`+` to space, then `%XX`) gives back exactly what `urlencode` wrote |
| Urls.UnwrapSplashIsDecodedParameter | rediscover_employment_links_v3.py:467-479 | a target exists exactly when the first `splash` query parameter, percent-decoded once more, is an http(s) URL, and it is then that decoded value |
| Signals.BlockedReasonIsFirst | rediscover_employment_links_v3.py:153-158 | the reason is the first pattern, in table order, that occurs in the lower-cased page; there is none exactly when no pattern occurs |
| Platforms.Classify | rediscover_employment_links_v3.py:278-305 | a declared platform decides before any URL hint; within each stage civicplus precedes civiclift precedes granicus; "other" exactly when nothing matches |
| Platforms.DeclaredFieldDecides | rediscover_employment_links_v3.py:285-291 | once the platform field names a platform, the URLs in the record cannot change the result |
| Scoring.Points | rediscover_employment_links_v3.py:316-356 | the non-social score always lies in [-50, 230] |
| Scoring.ScoreCandidate | rediscover_employment_links_v3.py:308-356 | the score is -10000 exactly when the URL contains a social domain, whatever the label, base or source; otherwise it lies in [-50, 230] |
| Scoring.ClampConfidence | rediscover_employment_links_v3.py:771-775 | after the ATS floor and the PDF and 95 caps, a confidence of at least 70 lies in [70, 95], is at most 75 for a PDF and at least 85 for a non-PDF ATS URL |
| Scoring.Confidence | rediscover_employment_links_v3.py:765-775 | the confidence of a new URL lies in [70, 95]; it is at most 75 for a PDF and at least 85 for an ATS URL that is not a PDF |
| Scoring.ClassifyPage | rediscover_employment_links_v3.py:777-787 | the page type is `ats_vendor` exactly for ATS URLs; `module_page` only on CivicPlus; `pdf_posting` only for PDFs; never `ephemeral_posts` |
| Scoring.ClassifyPageCascade | rediscover_employment_links_v3.py:777-787 | each type is chosen exactly when its own test holds and every earlier test fails: ATS, then a CivicPlus `jobs.aspx` or page-id URL, then `human-resources` in the URL or "human resources" in the notes, then a PDF, else `page` |
| Validation.RestoreCareersPathExact | rediscover_employment_links_v3.py:374-381 | the final URL is either kept or replaced by the requested one, and it is replaced exactly when an ATS request under `/careers/` ended at a root path (`""` or `/`) |
| Validation.BlockSignature | rediscover_employment_links_v3.py:393-404 | a block is a listed pattern, and a JavaScript notice never blocks an ATS final URL |
| Validation.BlockSignatureExact | rediscover_employment_links_v3.py:393-404 | an HTML or untyped response is blocked exactly when its page shows a pattern that is not a JavaScript notice on an ATS final URL, and the block is the page's first pattern; other content types are never blocked |
| Validation.Decide | rediscover_employment_links_v3.py:384-417 | ok exactly for the two accepting reasons; splash acceptance exactly when an ATS splash target exists, and it returns that target; plain acceptance only for a non-social URL that is same-site or ATS; a blocked reason exactly on the blocked rejection |
| Validation.Validate | rediscover_employment_links_v3.py:359-417 | an accepted final URL is ATS or same-site with the base; a non-splash acceptance is never social; a splash acceptance is an ATS URL; no final URL exactly on a transport error |
| Validation.SplashBeforeStatus | rediscover_employment_links_v3.py:384-390 | a splash to an ATS URL is accepted even when the status is 400 or more |
| Validation.Soft404Rejected | rediscover_employment_links_v3.py:406-407 | an unblocked soft-404 page without an ATS splash is rejected as `soft404` |
| Discovery.AppendTemplates | rediscover_employment_links_v3.py:507-508 | the loop appends exactly one candidate per template path, in table order, to the list it was given |
| Discovery.AppendMatching | rediscover_employment_links_v3.py:516-519 | the loop appends exactly the links its filter keeps, in page order |
| Discovery.MatchingSound | rediscover_employment_links_v3.py:516-522 | every candidate comes from a link on the page that the filter keeps, with the stage's source tag |
| Discovery.MatchingComplete | rediscover_employment_links_v3.py:516-522 | every link on the page that the filter keeps becomes a candidate |
| Discovery.CrawlHomepage | rediscover_employment_links_v3.py:510-522 | the homepage stage appends the kept page links, then the kept nav/footer links, and nothing when the fetch is unusable |
| Discovery.CrawlQuickLinks | rediscover_employment_links_v3.py:524-531 | the QuickLinks stage appends the kept links of that page |
| Discovery.CrawlSearchPage | rediscover_employment_links_v3.py:535-541 | one search page contributes its kept links, or nothing when unusable |
| Discovery.CrawlSearch | rediscover_employment_links_v3.py:533-541 | the search loop appends each search page's contribution in query order |
| Discovery.DiscoverCivicPlus | rediscover_employment_links_v3.py:500-543 | the CivicPlus generator yields templates, homepage, QuickLinks and search candidates in that order |
| Discovery.CivicLiftCandidates | rediscover_employment_links_v3.py:546-572 | the CivicLift list is never empty and always ends with the homepage as `fallback_home` |
| Discovery.DiscoverCivicLift | rediscover_employment_links_v3.py:546-572 | the method yields exactly the CivicLift list |
| Discovery.DiscoverGranicus | rediscover_employment_links_v3.py:575-598 | crawled ATS/keyword links first, then the three Granicus template paths |
| Discovery.DiscoverOther | rediscover_employment_links_v3.py:601-619 | only homepage and nav/footer links with a keyword or a "human resources" label |
| Discovery.Slug | rediscover_employment_links_v3.py:491 | the slug holds only lower-case letters and digits |
| Discovery.SlugChar | rediscover_employment_links_v3.py:491 | one character contributes its lower-case form when that is a letter `a`-`z` or a digit, and nothing otherwise |
| Discovery.SlugAppend | rediscover_employment_links_v3.py:491 | the slug of a concatenation is the concatenation of the slugs, so every kept character stays, in order |
| Discovery.GovernmentJobsIsAts | rediscover_employment_links_v3.py:493-494 | every GovernmentJobs careers URL is an ATS URL |
| Discovery.AtsFallbackCandidates | rediscover_employment_links_v3.py:487-495 | two fallback candidates, `https://www.governmentjobs.com/careers/` followed by the slug and "ct", then by the slug alone; both are ATS URLs tagged `ats_fallback` |
| Discovery.GatherCandidates | rediscover_employment_links_v3.py:680-692 | the candidate list is the platform's generator output, with the ATS fallbacks appended for Granicus |
| Selection.Dedupe | rediscover_employment_links_v3.py:694-704 | the de-duplication loop computes exactly `Deduped` |
| Selection.DedupedUrls | rediscover_employment_links_v3.py:697-704 | a URL is kept iff some candidate is a URL whose stripped form it is |
| Selection.DedupedIsFirstOccurrences | rediscover_employment_links_v3.py:695-704 | the result is the first occurrence of each stripped URL, in input order, with that occurrence's label and source |
| Selection.DedupedDistinct | rediscover_employment_links_v3.py:701-703 | no URL appears twice |
| Selection.DedupedClean | rediscover_employment_links_v3.py:698-700 | every kept URL is a URL and is stripped |
| Selection.RankedDescending | rediscover_employment_links_v3.py:707-708 | the ranking is in descending score and is a permutation of the scored list |
| Selection.RankedStable | rediscover_employment_links_v3.py:708 | for every score, candidates with that score keep their relative order (a stable sort) |
| Selection.Top | rediscover_employment_links_v3.py:715 | a prefix of the ranking: all of it when it has at most 40 entries, exactly the first 40 otherwise |
| Selection.ValidateTop | rediscover_employment_links_v3.py:710-734 | the loop's best HTML, best PDF and last blocked reason are the fold of one step per top-40 candidate |
| Selection.TalliedBest | rediscover_employment_links_v3.py:728-734 | the kept HTML page (PDF) is the earliest-ranked among the highest-scoring accepted ones of its kind; there is none exactly when none was accepted |
| Selection.TalliedLastBlocked | rediscover_employment_links_v3.py:721-723 | the last blocked reason comes from the last validated candidate that reported one; there is none exactly when none did |
| Selection.IneligibleIgnored | rediscover_employment_links_v3.py:716-719 | a candidate scoring below 0 or social is never validated and changes nothing |
| Selection.Chosen | rediscover_employment_links_v3.py:736 | an HTML page wins over any PDF; a PDF only when no HTML page was kept |
| Selection.ChosenAccepted | rediscover_employment_links_v3.py:721-736 | the chosen URL is ATS or same-site with the base; it is a PDF only if no HTML page in the top 40 was accepted |
| Application.PdfScore | rediscover_employment_links_v3.py:444-452 | a PDF link scores between 0 and 20 + 25 per hint + 10 |
| Application.MentionsApplicationIsConfident | rediscover_employment_links_v3.py:448-457 | a link whose text mentions "application" always reaches the threshold 35 |
| Application.NoHintNotConfident | rediscover_employment_links_v3.py:446-457 | a link matching no application hint never reaches the threshold, same-site or not |
| Application.PdfLinks | rediscover_employment_links_v3.py:437 | only PDF links of the page, no more than the page has |
| Application.PdfLinksComplete | rediscover_employment_links_v3.py:437 | every PDF link of the page is kept |
| Application.FirstMaxIsFirstOfMax | rediscover_employment_links_v3.py:453-455 | the strict `>` scan returns a maximum, and every earlier element is strictly smaller |
| Application.BestPdfIndexIsFirstMax | rediscover_employment_links_v3.py:441-455 | the best PDF scores at least as much as every PDF link and more than every earlier one |
| Application.ScanPdfs | rediscover_employment_links_v3.py:441-455 | the scan starting from -999 ends with no PDF for an empty list, else the first maximum and its score |
| Application.BestPdf | rediscover_employment_links_v3.py:441-455 | the best PDF and its score are those of the first highest-scoring PDF link |
| Application.FindApplicationPdf | rediscover_employment_links_v3.py:420-464 | a PDF is returned exactly on the found outcome, and only when the page was fetched, the best PDF scores at least 35 and validates; the result is its final URL, ATS or same-site |
| Application.FindApplicationPdfOnPage | rediscover_employment_links_v3.py:420-464 | the method computes exactly `FindApplicationPdf` |
| Rediscovery.ShouldAttempt | rediscover_employment_links_v3.py:623-632 | attempt iff the status is not 401/403 and (it is 404, 410, absent/None or -1, or the soft-404 flag is truthy) |
| Rediscovery.NormalizeHomepageValue | rediscover_employment_links_v3.py:659-664 | "Town Website" becomes the homepage of the site when the site is a URL (the site itself when it has none); otherwise, when the employment URL is a URL, its homepage (else the old value, `null` when missing); with neither URL the record is unchanged; no other key changes |
| Rediscovery.UpdatedFieldsValues | rediscover_employment_links_v3.py:635-654 | exactly the nine keys are written: the platform name, the new URL twice, the time `now`, and the change reason, confidence, discovery method, discovery score and validation reason given; everything else is kept |
| Rediscovery.ApplicationPdfWrites | rediscover_employment_links_v3.py:803-810 | the PDF becomes the application URL and its final URL, with the time `now`, the finder's "found" reason and confidence 85; a present "(original)" is never clobbered, an absent one receives a string old value and is not created from any other value; non-application keys are kept |
| Rediscovery.NothingAccepted | rediscover_employment_links_v3.py:736-759 | with nothing chosen: CivicLift yields the ephemeral row with the homepage and confidence 60, and only the page type written; any other platform yields needs_review, recording a non-empty last blocked reason |
| Rediscovery.WithFound | rediscover_employment_links_v3.py:802-810 | a non-empty found PDF becomes the application URL; without one the record is unchanged; the application URL changes only to a found PDF; "(original)" kept or saved |
| Rediscovery.RefreshApplication | rediscover_employment_links_v3.py:800-810 | the application URL changes exactly when the new page is a same-site non-PDF and the finder returns a non-empty PDF, which becomes the value; the record is unchanged for any other page |
| Rediscovery.Replace | rediscover_employment_links_v3.py:761-798 | a replacement row carries the chosen final URL and source, with confidence in [70, 95], at most 75 for a PDF and at least 85 for a non-PDF ATS URL |
| Rediscovery.ReplaceApplication | rediscover_employment_links_v3.py:800-810 | a replacement keeps or saves the original application URL, stores the finder's non-empty PDF for a same-site non-PDF page, and changes it to nothing else |
| Rediscovery.ReplaceWritesEmployment | rediscover_employment_links_v3.py:789-798 | the record's "Employment Page URL" becomes the chosen final URL |
| Rediscovery.ReplaceRecord | rediscover_employment_links_v3.py:761-810 | a replacement stores the row's confidence and page type, and the pick's final URL, source (as discovery method) and score; every key outside the nine `update_record` keys, the page type and the application keys is kept |
| Rediscovery.AttemptEphemeral | rediscover_employment_links_v3.py:738-749 | the ephemeral row arises only on CivicLift, reports the homepage with confidence 60, writes `ephemeral_posts`, and keeps the employment URL |
| Rediscovery.AttemptApplication | rediscover_employment_links_v3.py:800-810 | in an attempt the application URL changes only on an update whose page is same-site non-PDF, and only to the found PDF; such an update with a non-empty found PDF stores it |
| Rediscovery.AttemptNeedsReview | rediscover_employment_links_v3.py:750-758 | a reported blocked reason is non-empty and is written to the record |
| Rediscovery.RediscoverWithUnfolds | rediscover_employment_links_v3.py:656-692 | the four paths: skipped without a homepage URL; no_change for 401/403; no_change when not marked broken; otherwise an attempt on the normalised record |
| Rediscovery.BotBlockedIsNoChange | rediscover_employment_links_v3.py:673-675 | a 401/403 record yields no_change, the outcome does not depend on the selection stage or finder (no candidates are generated), and the employment URL is unchanged, whatever the soft-404 flag |
| Rediscovery.AttemptGate | rediscover_employment_links_v3.py:677-678 | past the 401/403 gate, the row is "not marked broken" iff the status is not 404/410/None/-1 and the soft-404 flag is falsy |
| Rediscovery.NoHomepageSkipped | rediscover_employment_links_v3.py:666-668 | without a homepage URL the row is skipped and only "Town Website" may change |
| Rediscovery.OnlyReplacementRewrites | rediscover_employment_links_v3.py:656-822 | unless the row is a replacement, every key other than "Town Website", `platform_detected`, `employment_page_type` and the blocked reason is untouched |
| Rediscovery.ReplacementConfidence | rediscover_employment_links_v3.py:761-798 | on a replacement the record holds the new URL and the confidence lies in [70, 95], at most 75 for a PDF, at least 85 for a non-PDF ATS URL |
| Rediscovery.SearchSelectsAccepted | rediscover_employment_links_v3.py:714-736 | the real selection stage only chooses URLs that passed the validator |
| Rediscovery.ReplacementIsAccepted | rediscover_employment_links_v3.py:727-736 | a rewritten employment URL is an ATS URL or same-site with the homepage |
| Rediscovery.ApplicationRefresh | rediscover_employment_links_v3.py:800-810 | the application URL changes only on an update to a same-site non-PDF page with a found PDF, and every such update with a non-empty found PDF stores it; the first "(original)" is never clobbered, and an absent one saves the old string |
| Rediscovery.EphemeralFallback | rediscover_employment_links_v3.py:736-749 | an ephemeral row is CivicLift, reports the homepage with confidence 60 and action `updated`, writes `ephemeral_posts`, and keeps the employment URL |
| Rediscovery.NeedsReviewKeepsBlocked | rediscover_employment_links_v3.py:750-758 | a needs_review row with a blocked reason records it in the record |
| Rediscovery.TownRecord.UpdateRecord | rediscover_employment_links_v3.py:635-654 | the in-place update leaves the record as `UpdatedFields` of the old one |
| Rediscovery.TownRecord.RecordApplicationPdf | rediscover_employment_links_v3.py:802-810 | the in-place application update leaves the record as `WithFound` of the old one |
| Rediscovery.TownRecord.RecordNoChoice | rediscover_employment_links_v3.py:736-759 | the row and new record are those of `NothingAccepted` |
| Rediscovery.TownRecord.RecordReplacement | rediscover_employment_links_v3.py:761-821 | the row and new record are those of `Replace` with the real PDF finder |
| Rediscovery.TownRecord.AttemptForTown | rediscover_employment_links_v3.py:680-821 | from candidate gathering on, the row and new record are those of `Attempt` with the real selection and finder |
| Rediscovery.TownRecord.RediscoverForTown | rediscover_employment_links_v3.py:656-822 | the row returned and the record left behind are exactly `Rediscover` of the old record |
| MergeKeys.NormTownNameShape | merge_rediscovered_into_canonical.py:54-58 | the normalised name has no upper-case letter, no leading or trailing whitespace and no whitespace run other than one space |
| MergeKeys.NormTownNameIdempotent | merge_rediscovered_into_canonical.py:54-58 | normalising twice is normalising once |
| MergeKeys.NormTownNameFixed | merge_rediscovered_into_canonical.py:54-58 | a name already in normal form is unchanged |
| MergeKeys.GuessTownField | merge_rediscovered_into_canonical.py:60-65 | the field found is one of the six candidates and holds non-blank text; none exactly when no candidate does |
| MergeKeys.GuessTownFieldIsFirst | merge_rediscovered_into_canonical.py:62-64 | no earlier candidate field holds non-blank text |
| MergeKeys.UrlishIgnoresCase | merge_rediscovered_into_canonical.py:67-82 | URL-ish key detection does not depend on letter case |
| MergeKeys.UrlIsNotBlank | merge_rediscovered_into_canonical.py:84-88 | a URL-looking value is a string that is not blank |
| MergeKeys.DirectStatusIsFirstString | merge_rediscovered_into_canonical.py:98-101 | the status is the value of the first key holding a string, stripped and lower-cased; none exactly when no key holds a string |
| MergeKeys.DeepGetStatusLookup | merge_rediscovered_into_canonical.py:90-109 | only an object has a status, stripped and lower-cased: its direct status when one of the three status keys holds a string, else the deep status of the first of "result", "rediscovery", "rediscovered", "meta" that is an object with a non-empty status; none when there is no such key |
| MergeKeys.NestedStatus | merge_rediscovered_into_canonical.py:103-108 | a nested status is non-empty, stripped and lower-cased |
| MergeKeys.NestedStatusIsFirstHit | merge_rediscovered_into_canonical.py:103-108 | the nested status is the deep status under the first key holding an object with a non-empty status; none exactly when no key does |
| MergeKeys.DirectStatusWins | merge_rediscovered_into_canonical.py:98-101 | a string `status` key decides before any nested object |
| MergeKeys.StatusOf | merge_rediscovered_into_canonical.py:365 | the status used by the merge is never empty |
| MergeKeys.StatusIsClean | merge_rediscovered_into_canonical.py:365 | it is `unknown` or a stripped, lower-cased status |
| MergeKeys.UnmarkedStatusIsUnknown | merge_rediscovered_into_canonical.py:90-109 | a record without any status or nested key has status `unknown` |
| FieldMerge.PolicyFromFlags | merge_rediscovered_into_canonical.py:332-339 | promoted statuses default to `updated`, otherwise are the lower-cased arguments; URL-only mode is the negation of overwrite-all; no allowlist; the default protected fields |
| FieldMerge.KeysAllowedToOverwrite | merge_rediscovered_into_canonical.py:181-188 | an allowed key is never protected, lies in the allowlist when one is set, and is URL-ish in URL-only mode; a key is refused only for one of those three reasons |
| FieldMerge.MergeRecord | merge_rediscovered_into_canonical.py:190-232 | the loop computes exactly the merged record and the changes map of the overwrite policy, from a copy of the canonical record |
| FieldMerge.UnwrittenKept | merge_rediscovered_into_canonical.py:204-230 | a key the policy does not write keeps its canonical presence and value |
| FieldMerge.ProtectedFieldsKept | merge_rediscovered_into_canonical.py:182-183 | protected fields are never changed |
| FieldMerge.AllowlistBounds | merge_rediscovered_into_canonical.py:184-185 | with an allowlist, no key outside it changes |
| FieldMerge.StatusFieldKept | merge_rediscovered_into_canonical.py:206-207 | without the status flag, no key named "status" in any case changes |
| FieldMerge.VendorFieldsKept | merge_rediscovered_into_canonical.py:202-213 | without the vendor flag, no vendor/service/platform/provider key (any case) changes |
| FieldMerge.UrlOnlyGuards | merge_rediscovered_into_canonical.py:218-226 | in URL-only mode every change is to a URL-ish key (without allowlist), never to a blank string, and a URL-ish key whose old value is a URL or missing only changes to a URL |
| FieldMerge.ChangesExact | merge_rediscovered_into_canonical.py:198-232 | the changes map holds exactly the keys whose merged value differs (Python `==`) from the canonical one, as (old, new) pairs with new the rediscovered value; every other key is kept as is |
| FieldMerge.MergeIdempotent | merge_rediscovered_into_canonical.py:204-232 | merging the same rediscovered record into the merged result reports no changes and returns it unchanged |
| FieldMerge.NoChangesNoEdit | merge_rediscovered_into_canonical.py:228-230 | no changes means the merged record is the canonical record |
| Containers.CollectValid | merge_rediscovered_into_canonical.py:131-162 | the insertion order lists each town of the map exactly once |
| Containers.CollectKeys | merge_rediscovered_into_canonical.py:133-161 | a town is in the map iff some slot produced it |
| Containers.CollectLastWins | merge_rediscovered_into_canonical.py:139-161 | the last slot for a town decides its record |
| Containers.AsRecord | merge_rediscovered_into_canonical.py:136-138 | an object is kept, any other value is wrapped as `{"value": v}` |
| Containers.ListTownField | merge_rediscovered_into_canonical.py:146-151 | the town field is one of the candidate fields; none exactly when no object item has one |
| Containers.Normalize | merge_rediscovered_into_canonical.py:124-164 | the method computes exactly `NormalizeToMap` |
| Containers.CollectDict | merge_rediscovered_into_canonical.py:131-140 | the dict loop builds exactly the map of its slots |
| Containers.FindTownField | merge_rediscovered_into_canonical.py:146-151 | the discovery loop finds exactly the first guessable item's field |
| Containers.CollectList | merge_rediscovered_into_canonical.py:155-162 | the list loop builds exactly the map of its slots |
| Containers.NormalizedMapValid | merge_rediscovered_into_canonical.py:124-162 | every key of a normalised map is in normal form and the order lists each once |
| Containers.ListWithoutTownIsError | merge_rediscovered_into_canonical.py:152-153 | a list root fails exactly when no object item carries a town field |
| Containers.ListLaterRecordWins | merge_rediscovered_into_canonical.py:155-161 | the last list record with a given normalised town is the one stored |
| Containers.DictLaterKeyWins | merge_rediscovered_into_canonical.py:133-139 | the last dict key with a given normalised town supplies the stored record |
| Containers.DictTownsExactly | merge_rediscovered_into_canonical.py:131-140 | the dict map's towns are exactly the normalised keys |
| Containers.ListTownsExactly | merge_rediscovered_into_canonical.py:155-162 | the list map's towns are exactly the normalised non-blank town fields |
| Containers.Rebuild | merge_rediscovered_into_canonical.py:239-285 | the method computes exactly `RebuildOriginal` |
| Containers.RebuildKeepsShape | merge_rediscovered_into_canonical.py:245-285 | a dict keeps its keys in order, each valued from the new map when its town is there and unchanged otherwise; a list keeps its length and order, an object item whose normalised town is in the new map is replaced by that record, and an item changes only that way; no other town appears |
| Containers.RebuildListRoundTrip | merge_rediscovered_into_canonical.py:124-285 | rebuilding a list from its own map with distinct towns returns the original list |
| Containers.RebuildDictRoundTrip | merge_rediscovered_into_canonical.py:131-261 | rebuilding an object-valued dict with distinct normalised towns from its own map returns the original |
| Promotion.DecisionTable | merge_rediscovered_into_canonical.py:367-421 | a new town is added iff new towns are allowed and its status is promoted, else skipped; an unpromoted known town is skipped; a promoted one is merged iff the merge reports changes (with those fields), else noop |
| Promotion.FirstKeyForIsFirst | merge_rediscovered_into_canonical.py:350-356 | the label is the first dict key whose normalised name is the town; there is none exactly when no key normalises to it |
| Promotion.RowsAt | merge_rediscovered_into_canonical.py:347-421 | the i-th report row is the decision for the i-th rediscovered town |
| Promotion.PromoteTown | merge_rediscovered_into_canonical.py:348-421 | one turn of the loop reports the decision's row and stores its record |
| Promotion.PromoteTowns | merge_rediscovered_into_canonical.py:343-421 | the loop leaves the merged map and the rows of the decision table, in rediscovered order |
| Promotion.PromoteInOrder | merge_rediscovered_into_canonical.py:347-421 | the loop over a town order applies each town's decision to a copy of the canonical map |
| Promotion.MergedStep | merge_rediscovered_into_canonical.py:367-401 | one town's decision changes only its own entry of the merged map |
| Promotion.ListedTowns | merge_rediscovered_into_canonical.py:347 | the loop visits every rediscovered town |
| Promotion.UnpromotedTownsKept | merge_rediscovered_into_canonical.py:387-395 | a canonical town that is not rediscovered or not promoted keeps its record |
| Promotion.NewTownsRule | merge_rediscovered_into_canonical.py:367-385 | a town absent from canonical enters the merged map iff new towns are allowed and it was rediscovered with a promoted status, and then holds the rediscovered record; the rebuild writes back only canonical entries, so such a town never reaches the output document (`MergeKeepsShape`) |
| Promotion.PromotedTownsMerged | merge_rediscovered_into_canonical.py:397-401 | a promoted canonical town holds the merged record |
| Promotion.ProtectedFieldsSurvive | merge_rediscovered_into_canonical.py:343-401 | every canonical town survives, with its protected fields unchanged |
| Promotion.NoNewTownsByDefault | merge_rediscovered_into_canonical.py:367-385 | without `allow_new_towns` the towns are exactly the canonical ones |
| Promotion.PromotionIdempotent | merge_rediscovered_into_canonical.py:343-421 | promoting the same rediscovered data into the output again changes nothing |
| Promotion.SelfMergeNoChanges | merge_rediscovered_into_canonical.py:228 | merging a record into itself reports no changes |
| Promotion.DefaultSkipsUnmarked | merge_rediscovered_into_canonical.py:332-395 | under the default policy a record without any status key is skipped and nothing is stored |
| Promotion.RunMerge | merge_rediscovered_into_canonical.py:329-424 | normalise both documents, run the loop, rebuild: exactly `MergeDocuments` |
| Promotion.MergeKeepsShape | merge_rediscovered_into_canonical.py:239-424 | the output keeps the canonical root shape, length and dict keys in order, with one report row per rediscovered town |
| Promotion.DistinctOrderSize | merge_rediscovered_into_canonical.py:347 | the rediscovered order has one entry per town |
| Promotion.UnsupportedRootFails | merge_rediscovered_into_canonical.py:164 | a root that is neither an object nor a list is the "Unsupported JSON root type" error, the canonical document checked first |

## Left out

- Network I/O (`get`, `requests`, TLS, timeouts, `time.sleep` pacing) is modelled as a `Web`
  parameter. It is a total function from URL to response, so fetching the same URL twice gives
  the same response.
- HTML parsing (`extract_links`, `extract_links_with_selector`, BeautifulSoup): each response
  carries its two anchor lists as absolute (URL, caption) pairs.
- Timestamps (`now_utc_iso`, `datetime.now`) are a `now` string parameter. The code calls
  `now_utc_iso()` separately for `employment_url_last_checked_at` and
  `application_url_last_checked_at` (rediscover_employment_links_v3.py:648 and 808), so the two
  can differ; the model writes the same `now` into both.
- The search URLs of `civicplus_search_urls` (rediscover_employment_links_v3.py:268-275) are
  literal constants holding the encoded queries. `urljoin` is modelled only for a relative path
  without a leading slash onto a homepage, as in section 5.2.3 of RFC 3986.
- `unquote` and `parse_qs` decode only `%XX` escapes of ASCII characters. Multi-byte UTF-8
  escapes are not modelled.
- The ValueError that `urlparse` raises on a malformed IPv6 netloc is not modelled.
- Case folding is ASCII only: `lower()` maps A-Z and leaves every other character alone.
  Whitespace for `strip()` and `\s` is Python's `str.isspace` set.
- JSON numbers are integers: floats are not modelled, and Python's `1 == True` equality is kept.
- Discovery.GatherCandidates: a "Town" value that is not a string reads as the empty string. For a
  truthy non-string "Town" the code raises an `AttributeError` instead: first in the per-record
  loop of `main` (`.strip()` at rediscover_employment_links_v3.py:854), and also in
  `(town or "").lower()` on the Granicus path (line 491). The run stops there; the model has no
  outcome for a crashed run.
- Rediscovery.Replace: a "Notes" value that is not a string reads as the empty string. For a truthy
  non-string "Notes" the code raises an `AttributeError` at `.lower()`
  (rediscover_employment_links_v3.py:782), once the earlier page-type tests have failed, and the
  run stops.
- Rediscovery.ShouldAttempt: a list or object "employment_url_status_code" is treated as a status
  that matches no set. The code tests it with `in` against a Python set
  (rediscover_employment_links_v3.py:626), which raises `TypeError: unhashable type`. The
  per-record loop (line 858) does not catch it, so the run stops. The model has no outcome for a
  crashed run.
- Rediscovery.RediscoverWithUnfolds: for a list or object status, the model takes an ordinary path
  (an attempt when the soft-404 flag is truthy, else `no_change`). The code stops with a
  `TypeError` at the 401/403 test on line 674 first.
- Rediscovery.AttemptGate: its verdict covers list and object statuses too, whereas the code never
  reaches the gate for them because line 674 raises a `TypeError` first.
- The incomplete first definition of `granicus_ats_fallback_candidates`
  (rediscover_employment_links_v3.py:481-486) is dead code, replaced at line 487.
- The CLI shells are not modelled: argument parsing, JSON and CSV reading and writing,
  `write_report_csv`, the audit JSON, progress printing, and the per-record loop and town filter
  of the rediscovery `main`.
- Report rows keep town, action, status and the set of changed fields. The reason text, the
  timestamp and the `;`-joined sorting of the changed fields are not modelled, and neither is the
  `*new*` marker that an `added` row carries as its changed fields
  (merge_rediscovered_into_canonical.py:374); the model gives that row an empty set.
- The "List-shaped data missing town_key_field" error (merge_rediscovered_into_canonical.py:268-269)
  cannot occur after a successful normalisation, so it is not modelled.
- Non-string keys of a dict root cannot occur in JSON. The `missing` list
  (merge_rediscovered_into_canonical.py:259) is computed and never used, so it is not modelled.
- `copy.deepcopy` is value semantics here, so the canonical input is never shared with the
  result. Key order inside a record is not modelled; the order of the root container is.
- `check_urls.py` and `ct municipal jobs.py` are not part of this model.
- Platforms.Declared: a truthy "ATS or Platform (if known)" value that is not a string reads as
  the empty string. The code calls `.strip()` on it and raises an `AttributeError`
  (rediscover_employment_links_v3.py:285) that the per-record loop does not catch (line 857), so
  the whole run stops. The model has no outcome for a crashed run.
- Platforms.UrlBlob: a truthy "Town Website" or "Employment Page URL" that is not a string reads
  as the empty string. The f-string at rediscover_employment_links_v3.py:296 writes its Python
  text form (such as `123`) into the blob instead.
- Urls.IsPageIdPath: the page-id digits are the ASCII digits `0`-`9`. The `\d` of the pattern at
  rediscover_employment_links_v3.py:131 also matches the other Unicode decimal digits.
