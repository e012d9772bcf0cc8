/**
 * The per-platform candidate generators `discover_civicplus`,
 * `discover_civiclift`, `discover_granicus`, `discover_other` and
 * `granicus_ats_fallback_candidates`. Each generator is a function giving
 * the candidate list, and a method that builds the list by appending in
 * loops, as the source does, proved to produce that list.
 */
module Discovery {
  import opened Text
  import opened Urls
  import opened Http
  import opened Signals
  import opened Scoring
  import opened Platforms

  /** `(url, label, source)`. */
  datatype Candidate = Candidate(url: string, caption: string, source: Source)

  /** The relative search references `"Search?" + urlencode({"searchPhrase": p})` for the phrases
      "employment", "jobs", "Employment Opportunities" and "human resources", in that order. */
  const SearchQueries: seq<string> := [
    "Search?searchPhrase=employment",
    "Search?searchPhrase=jobs",
    "Search?searchPhrase=Employment+Opportunities",
    "Search?searchPhrase=human+resources"]

  /** `civicplus_search_urls(base_home)`: one search URL per phrase, in order. */
  function CivicPlusSearchUrls(base: string): seq<string> {
    seq(|SearchQueries|, i requires 0 <= i < |SearchQueries| => Join(base, SearchQueries[i]))
  }

  /** A template page: its reference relative to the site root, and its label. */
  datatype Template = Template(rel: string, caption: string)

  /** The CivicPlus template pages: for each of the source's paths, the path without its leading
      slash and the label `CIVICPLUS_PATH:` followed by the path. */
  const CivicPlusTemplates: seq<Template> := [
    Template("Jobs.aspx", "CIVICPLUS_PATH:/Jobs.aspx"),
    Template("jobs.aspx", "CIVICPLUS_PATH:/jobs.aspx"),
    Template("Employment", "CIVICPLUS_PATH:/Employment"),
    Template("employment", "CIVICPLUS_PATH:/employment"),
    Template("Employment-Opportunities", "CIVICPLUS_PATH:/Employment-Opportunities"),
    Template("employment-opportunities", "CIVICPLUS_PATH:/employment-opportunities"),
    Template("Careers", "CIVICPLUS_PATH:/Careers"),
    Template("careers", "CIVICPLUS_PATH:/careers"),
    Template("Human-Resources", "CIVICPLUS_PATH:/Human-Resources"),
    Template("human-resources", "CIVICPLUS_PATH:/human-resources"),
    Template("QuickLinks.aspx", "CIVICPLUS_PATH:/QuickLinks.aspx"),
    Template("quicklinks.aspx", "CIVICPLUS_PATH:/quicklinks.aspx"),
    Template("211/Departments", "CIVICPLUS_PATH:/211/Departments")]

  /** The CivicLift template pages, labelled `CIVICLIFT_PATH:` and the path. */
  const CivicLiftTemplates: seq<Template> := [
    Template("employment", "CIVICLIFT_PATH:/employment"),
    Template("job-openings", "CIVICLIFT_PATH:/job-openings"),
    Template("jobs", "CIVICLIFT_PATH:/jobs"),
    Template("career-opportunities", "CIVICLIFT_PATH:/career-opportunities"),
    Template("careers", "CIVICLIFT_PATH:/careers")]

  /** The Granicus template pages, labelled `GRANICUS_PATH:` and the path. */
  const GranicusTemplates: seq<Template> := [
    Template("government/human-resources", "GRANICUS_PATH:/government/human-resources"),
    Template("government/human-resources/city-jobs", "GRANICUS_PATH:/government/human-resources/city-jobs"),
    Template("jobs", "GRANICUS_PATH:/jobs")]

  /** `(urljoin(base_home, rel), label, source)`. */
  function TemplateCandidate(base: string, t: Template, src: Source): Candidate {
    Candidate(Join(base, t.rel), t.caption, src)
  }

  /** One candidate per template, in table order. */
  function Templates(base: string, ts: seq<Template>, src: Source): (r: seq<Candidate>)
    ensures |r| == |ts|
  {
    if ts == [] then []
    else Templates(base, ts[..|ts| - 1], src) + [TemplateCandidate(base, ts[|ts| - 1], src)]
  }

  method AppendTemplates(cand: seq<Candidate>, base: string, ts: seq<Template>, src: Source)
    returns (out: seq<Candidate>)
    ensures out == cand + Templates(base, ts, src)
  {
    out := cand;
    for i := 0 to |ts|
      invariant out == cand + Templates(base, ts[..i], src)
    {
      assert ts[..i + 1][..i] == ts[..i];
      out := out + [TemplateCandidate(base, ts[i], src)];
    }
    assert ts[..|ts|] == ts;
  }

  /** The keep-test each crawl applies to an extracted link. */
  datatype LinkFilter =
    | KeywordOrPageId      // CivicPlus homepage, nav/footer and search crawls
    | KeywordOrJobsModule  // CivicPlus QuickLinks crawl
    | KeywordOnly          // CivicLift homepage crawl
    | AtsOrKeyword         // Granicus homepage crawl
    | KeywordOrHrLabel     // generic homepage crawl

  predicate Keeps(f: LinkFilter, l: Link) {
    var kw := KwHit(l.url) || KwHit(l.caption);
    match f
    case KeywordOrPageId => kw || IsPageIdPath(PathOf(l.url))
    case KeywordOrJobsModule => kw || Contains(Lower(l.url), "jobs.aspx")
    case KeywordOnly => kw
    case AtsOrKeyword => IsAts(l.url) || kw
    case KeywordOrHrLabel => kw || Contains(Lower(l.caption), "human resources")
  }

  /** The links that pass `f`, in page order, tagged with `src`. */
  function Matching(links: seq<Link>, f: LinkFilter, src: Source): seq<Candidate> {
    if links == [] then []
    else
      var l := links[|links| - 1];
      Matching(links[..|links| - 1], f, src) + (if Keeps(f, l) then [Candidate(l.url, l.caption, src)] else [])
  }

  method AppendMatching(cand: seq<Candidate>, links: seq<Link>, f: LinkFilter, src: Source)
    returns (out: seq<Candidate>)
    ensures out == cand + Matching(links, f, src)
  {
    out := cand;
    for i := 0 to |links|
      invariant out == cand + Matching(links[..i], f, src)
    {
      MatchingStep(cand, links, f, src, i);
      if Keeps(f, links[i]) {
        out := out + [Candidate(links[i].url, links[i].caption, src)];
      }
    }
    assert links[..|links|] == links;
  }

  /** One more link appends its candidate exactly when it passes the filter. */
  lemma MatchingStep(cand: seq<Candidate>, links: seq<Link>, f: LinkFilter, src: Source, i: nat)
    requires i < |links|
    ensures cand + Matching(links[..i + 1], f, src) ==
      cand + Matching(links[..i], f, src) + (if Keeps(f, links[i]) then [Candidate(links[i].url, links[i].caption, src)] else [])
  {
    assert links[..i + 1][..i] == links[..i];
  }

  /** Every crawled candidate passed the crawl's filter and carries its tag. */
  lemma {:induction false} MatchingSound(links: seq<Link>, f: LinkFilter, src: Source)
    ensures forall c :: c in Matching(links, f, src) ==>
      c.source == src && Keeps(f, Link(c.url, c.caption)) && Link(c.url, c.caption) in links
  {
    if links != [] {
      MatchingSound(links[..|links| - 1], f, src);
    }
  }

  /** Every link that passes the filter becomes a candidate. */
  lemma {:induction false} MatchingComplete(links: seq<Link>, f: LinkFilter, src: Source)
    ensures forall l :: l in links && Keeps(f, l) ==> Candidate(l.url, l.caption, src) in Matching(links, f, src)
  {
    if links != [] {
      var init := links[..|links| - 1];
      MatchingComplete(init, f, src);
      forall l | l in links && Keeps(f, l)
        ensures Candidate(l.url, l.caption, src) in Matching(links, f, src)
      {
        if l !in init {
          assert l == links[|links| - 1];
        }
      }
    }
  }

  /**
   * The homepage crawl: when the homepage fetch is usable, all its matching
   * links, then its matching nav/footer links.
   */
  function HomepageCrawl(base: string, web: Web, f: LinkFilter): seq<Candidate> {
    var h := web(base);
    if Usable(h) then Matching(h.resp.links, f, HomepageLink) + Matching(h.resp.navLinks, f, NavFooterLink)
    else []
  }

  method CrawlHomepage(cand: seq<Candidate>, base: string, web: Web, f: LinkFilter)
    returns (out: seq<Candidate>)
    ensures out == cand + HomepageCrawl(base, web, f)
  {
    out := cand;
    var h := web(base);
    if Usable(h) {
      out := AppendMatching(out, h.resp.links, f, HomepageLink);
      out := AppendMatching(out, h.resp.navLinks, f, NavFooterLink);
    }
  }

  /** The QuickLinks crawl of CivicPlus. */
  function QuickLinksCrawl(base: string, web: Web): seq<Candidate> {
    var q := web(Join(base, "QuickLinks.aspx"));
    if Usable(q) then Matching(q.resp.links, KeywordOrJobsModule, QuickLinks) else []
  }

  /** The matching links of one site-search results page. */
  function SearchPage(web: Web, url: string): seq<Candidate> {
    var s := web(url);
    if Usable(s) then Matching(s.resp.links, KeywordOrPageId, CivicPlusSearch) else []
  }

  /** The site-search crawl of CivicPlus over the given search URLs, in order. */
  function SearchCrawl(web: Web, urls: seq<string>): seq<Candidate> {
    if urls == [] then []
    else SearchCrawl(web, urls[..|urls| - 1]) + SearchPage(web, urls[|urls| - 1])
  }

  /** One more search URL appends its results page. */
  lemma SearchCrawlStep(cand: seq<Candidate>, web: Web, urls: seq<string>, i: nat)
    requires i < |urls|
    ensures cand + SearchCrawl(web, urls[..i]) + SearchPage(web, urls[i]) == cand + SearchCrawl(web, urls[..i + 1])
  {
    assert urls[..i + 1][..i] == urls[..i];
  }

  function CivicPlusCandidates(base: string, web: Web): seq<Candidate> {
    Templates(base, CivicPlusTemplates, CivicPlusPath)
    + HomepageCrawl(base, web, KeywordOrPageId)
    + QuickLinksCrawl(base, web)
    + SearchCrawl(web, CivicPlusSearchUrls(base))
  }

  method CrawlQuickLinks(cand: seq<Candidate>, base: string, web: Web) returns (out: seq<Candidate>)
    ensures out == cand + QuickLinksCrawl(base, web)
  {
    out := cand;
    var q := web(Join(base, "QuickLinks.aspx"));
    if Usable(q) {
      out := AppendMatching(out, q.resp.links, KeywordOrJobsModule, QuickLinks);
    }
  }

  method CrawlSearchPage(cand: seq<Candidate>, web: Web, url: string) returns (out: seq<Candidate>)
    ensures out == cand + SearchPage(web, url)
  {
    out := cand;
    var s := web(url);
    if Usable(s) {
      out := AppendMatching(out, s.resp.links, KeywordOrPageId, CivicPlusSearch);
    }
  }

  method CrawlSearch(cand: seq<Candidate>, web: Web, urls: seq<string>) returns (out: seq<Candidate>)
    ensures out == cand + SearchCrawl(web, urls)
  {
    out := cand;
    for i := 0 to |urls|
      invariant out == cand + SearchCrawl(web, urls[..i])
    {
      SearchCrawlStep(cand, web, urls, i);
      out := CrawlSearchPage(out, web, urls[i]);
    }
    assert urls[..|urls|] == urls;
  }

  /** `discover_civicplus(base_home)`. */
  method DiscoverCivicPlus(base: string, web: Web) returns (cand: seq<Candidate>)
    ensures cand == CivicPlusCandidates(base, web)
  {
    ghost var t := Templates(base, CivicPlusTemplates, CivicPlusPath);
    cand := AppendTemplates([], base, CivicPlusTemplates, CivicPlusPath);
    assert cand == t;
    cand := CrawlHomepage(cand, base, web, KeywordOrPageId);
    cand := CrawlQuickLinks(cand, base, web);
    var urls := CivicPlusSearchUrls(base);
    cand := CrawlSearch(cand, web, urls);
  }

  /** The homepage itself, kept as the CivicLift last resort. */
  function FallbackHomeCandidate(base: string): Candidate {
    Candidate(base, "CIVICLIFT_FALLBACK_HOME", FallbackHome)
  }

  function CivicLiftCandidates(base: string, web: Web): (r: seq<Candidate>)
    ensures |r| > 0 && r[|r| - 1] == FallbackHomeCandidate(base)
  {
    Templates(base, CivicLiftTemplates, CivicLiftPath)
    + HomepageCrawl(base, web, KeywordOnly)
    + [FallbackHomeCandidate(base)]
  }

  /** `discover_civiclift(base_home)`. */
  method DiscoverCivicLift(base: string, web: Web) returns (cand: seq<Candidate>)
    ensures cand == CivicLiftCandidates(base, web)
  {
    cand := AppendTemplates([], base, CivicLiftTemplates, CivicLiftPath);
    cand := CrawlHomepage(cand, base, web, KeywordOnly);
    cand := cand + [FallbackHomeCandidate(base)];
  }

  function GranicusCandidates(base: string, web: Web): seq<Candidate> {
    HomepageCrawl(base, web, AtsOrKeyword)
    + Templates(base, GranicusTemplates, GranicusPath)
  }

  /** `discover_granicus(base_home)`. */
  method DiscoverGranicus(base: string, web: Web) returns (cand: seq<Candidate>)
    ensures cand == GranicusCandidates(base, web)
  {
    cand := CrawlHomepage([], base, web, AtsOrKeyword);
    cand := AppendTemplates(cand, base, GranicusTemplates, GranicusPath);
  }

  function OtherCandidates(base: string, web: Web): seq<Candidate> {
    HomepageCrawl(base, web, KeywordOrHrLabel)
  }

  /** `discover_other(base_home)`. */
  method DiscoverOther(base: string, web: Web) returns (cand: seq<Candidate>)
    ensures cand == OtherCandidates(base, web)
  {
    cand := CrawlHomepage([], base, web, KeywordOrHrLabel);
  }

  predicate IsSlugChar(c: char) { 'a' <= c <= 'z' || IsDigit(c) }

  /** `re.sub(r"[^a-z0-9]+", "", town.lower())`. */
  function Slug(town: string): (r: string)
    ensures forall i :: 0 <= i < |r| ==> IsSlugChar(r[i])
  {
    if town == [] then []
    else
      var c := LowerChar(town[0]);
      (if IsSlugChar(c) then [c] else []) + Slug(town[1..])
  }

  /** The slug of one character: the lower-cased character when it is a letter or digit, else nothing. */
  lemma SlugChar(c: char)
    ensures Slug([c]) == if IsSlugChar(LowerChar(c)) then [LowerChar(c)] else []
  {
    assert [c][1..] == [];
  }

  /** The slug keeps the order of the name: the slug of a concatenation concatenates the slugs. */
  lemma {:induction false} SlugAppend(a: string, b: string)
    ensures Slug(a + b) == Slug(a) + Slug(b)
  {
    if a == [] {
      assert a + b == b;
    } else {
      assert (a + b)[0] == a[0];
      assert (a + b)[1..] == a[1..] + b;
      SlugAppend(a[1..], b);
    }
  }

  const GovernmentJobsCareers := "https://www.governmentjobs.com/careers/"

  /** A lower-case vendor domain inside a lower-case prefix makes an ATS URL. */
  lemma HintInfixIsAts(pre: string, k: nat, tail: string)
    requires k < |AtsHints|
    requires forall i :: 0 <= i < |pre| ==> !IsUpper(pre[i])
    requires forall i :: 0 <= i < |AtsHints[k]| ==> !IsUpper(AtsHints[k][i])
    ensures IsAts(pre + AtsHints[k] + tail)
  {
    var hint := AtsHints[k];
    assert Lower(pre + hint + tail) == pre + hint + Lower(tail) by {
      LowerAppend(pre + hint, tail);
      LowerAppend(pre, hint);
      LowerOfLower(pre);
      LowerOfLower(hint);
    }
    ContainsInfix(pre, hint, Lower(tail));
  }

  /** Any URL under the GovernmentJobs careers root is an ATS URL. */
  lemma GovernmentJobsIsAts(rest: string)
    ensures IsAts(GovernmentJobsCareers + rest)
  {
    var pre := "https://www.";
    assert GovernmentJobsCareers + rest == pre + AtsHints[0] + ("/careers/" + rest);
    HintInfixIsAts(pre, 0, "/careers/" + rest);
  }

  /** `granicus_ats_fallback_candidates(town)`: GovernmentJobs slugs with and without "ct". */
  function AtsFallbackCandidates(town: string): (r: seq<Candidate>)
    ensures |r| == 2
    ensures r[0].url == GovernmentJobsCareers + Slug(town) + "ct"
    ensures r[1].url == GovernmentJobsCareers + Slug(town)
    ensures forall c :: c in r ==> c.source == AtsFallback && IsAts(c.url)
  {
    var slug := Slug(town);
    GovernmentJobsIsAts(slug + "ct");
    GovernmentJobsIsAts(slug);
    assert GovernmentJobsCareers + (slug + "ct") == GovernmentJobsCareers + slug + "ct";
    [Candidate(GovernmentJobsCareers + (slug + "ct"), "ATS_FALLBACK:governmentjobs_slug_ct", AtsFallback),
     Candidate(GovernmentJobsCareers + slug, "ATS_FALLBACK:governmentjobs_slug", AtsFallback)]
  }

  /** The candidates gathered for a platform; Granicus adds the ATS slug guesses. */
  function Candidates(platform: Platform, base: string, town: string, web: Web): seq<Candidate> {
    match platform
    case CivicPlus => CivicPlusCandidates(base, web)
    case CivicLift => CivicLiftCandidates(base, web)
    case Granicus => GranicusCandidates(base, web) + AtsFallbackCandidates(town)
    case Other => OtherCandidates(base, web)
  }

  /** The generation step of `rediscover_for_town`: dispatch on the platform. */
  method GatherCandidates(platform: Platform, base: string, town: string, web: Web)
    returns (cand: seq<Candidate>)
    ensures cand == Candidates(platform, base, town, web)
  {
    if platform == CivicPlus {
      cand := DiscoverCivicPlus(base, web);
    } else if platform == CivicLift {
      cand := DiscoverCivicLift(base, web);
    } else if platform == Granicus {
      cand := DiscoverGranicus(base, web);
      cand := cand + AtsFallbackCandidates(town);
    } else {
      cand := DiscoverOther(base, web);
    }
  }
}
