/**
 * `find_application_pdf`: look on an employment page for the PDF that is
 * most plausibly its application form, and accept it only with enough
 * evidence and a successful validation.
 */
module Application {
  import opened Wrappers
  import opened Text
  import opened Urls
  import opened Http
  import opened Signals
  import opened Validation

  /** The reason code returned beside the PDF. */
  datatype PdfOutcome =
    | EmploymentFetchError(message: string)  // "employment_fetch_error: ..."
    | EmploymentNotOk(status: int)           // "employment_not_ok: <status>"
    | EmploymentNotHtml
    | NoPdfLinks
    | Found                                  // "application_pdf_found_on_employment_page"
    | CandidateInvalid(reason: Reason)       // "application_pdf_candidate_invalid:<reason>"
    | NoConfidentPdf

  /** `(pdf_url, reason)`. */
  datatype PdfResult = PdfResult(pdf: Option<string>, outcome: PdfOutcome)

  /** The least score a PDF needs before it is validated. */
  const ConfidentScore := 35

  /** The score before the first PDF is seen. */
  const NoScore := -999

  /** 25 points for each hint that occurs in `hay`. */
  function HintPoints(hay: string, hints: seq<string>): (n: nat)
    ensures n <= 25 * |hints|
  {
    if hints == [] then 0
    else (if Contains(hay, hints[0]) then 25 else 0) + HintPoints(hay, hints[1..])
  }

  /** The text a PDF link is judged on: its URL and its label, lower-cased. */
  function Haystack(l: Link): string {
    Lower(l.url + " " + l.caption)
  }

  /**
   * The score of a PDF link: 20 when it is on the base site, 25 per
   * application hint in its text, 10 more when the text says "application".
   */
  function PdfScore(l: Link, base: string): (s: int)
    ensures 0 <= s <= 20 + 25 * |ApplicationHints| + 10
  {
    (if SameSite(l.url, base) then 20 else 0)
    + HintPoints(Haystack(l), ApplicationHints)
    + (if Contains(Haystack(l), "application") then 10 else 0)
  }

  /** "application" is one of the hints: when the text says it, it earns 25 for the hint and 10 more. */
  lemma {:induction false} HintPointsFromOne(hay: string, hints: seq<string>, k: nat)
    requires k < |hints| && Contains(hay, hints[k])
    ensures HintPoints(hay, hints) >= 25
  {
    if k > 0 {
      HintPointsFromOne(hay, hints[1..], k - 1);
    }
  }

  /** A PDF whose URL or label says "application" is always confident enough. */
  lemma MentionsApplicationIsConfident(l: Link, base: string)
    requires Contains(Haystack(l), "application")
    ensures PdfScore(l, base) >= ConfidentScore
  {
    assert ApplicationHints[3] == "application";
    HintPointsFromOne(Haystack(l), ApplicationHints, 3);
  }

  lemma {:induction false} NoHintNoPoints(hay: string, hints: seq<string>)
    requires forall k :: 0 <= k < |hints| ==> !Contains(hay, hints[k])
    ensures HintPoints(hay, hints) == 0
  {
    if hints != [] {
      NoHintNoPoints(hay, hints[1..]);
    }
  }

  /** A PDF that matches no hint scores at most 20 and is never confident enough. */
  lemma NoHintNotConfident(l: Link, base: string)
    requires forall k :: 0 <= k < |ApplicationHints| ==> !Contains(Haystack(l), ApplicationHints[k])
    ensures PdfScore(l, base) < ConfidentScore
  {
    NoHintNoPoints(Haystack(l), ApplicationHints);
    assert ApplicationHints[3] == "application";
  }

  /** `[(u, t) for u, t in links if is_pdf(u)]`. */
  function PdfLinks(links: seq<Link>): (r: seq<Link>)
    ensures |r| <= |links|
    ensures forall l :: l in r ==> l in links && IsPdf(l.url)
  {
    if links == [] then []
    else (if IsPdf(links[0].url) then [links[0]] else []) + PdfLinks(links[1..])
  }

  /** Every PDF link is kept. */
  lemma {:induction false} PdfLinksComplete(links: seq<Link>)
    ensures forall l :: l in links && IsPdf(l.url) ==> l in PdfLinks(links)
  {
    if links != [] {
      PdfLinksComplete(links[1..]);
      assert forall l :: l in links ==> l == links[0] || l in links[1..];
    }
  }

  /** The scores of the PDF links under `score`, in order. */
  function ScoresBy(pdfs: seq<Link>, score: Link -> int): (r: seq<int>)
    ensures |r| == |pdfs|
    decreases |pdfs|
  {
    if pdfs == [] then []
    else ScoresBy(pdfs[..|pdfs| - 1], score) + [score(pdfs[|pdfs| - 1])]
  }

  /** The `i`-th score is the score of the `i`-th PDF link. */
  lemma {:induction false} ScoresByAt(pdfs: seq<Link>, score: Link -> int, i: nat)
    requires i < |pdfs|
    ensures ScoresBy(pdfs, score)[i] == score(pdfs[i])
    decreases |pdfs|
  {
    if i < |pdfs| - 1 {
      ScoresByAt(pdfs[..|pdfs| - 1], score, i);
    }
  }

  /** The scores of the PDF links, in order. */
  function PdfScores(pdfs: seq<Link>, base: string): (r: seq<int>)
    ensures |r| == |pdfs|
  {
    ScoresBy(pdfs, l => PdfScore(l, base))
  }

  /**
   * The index a left-to-right scan of the first `n` scores ends on, when
   * only a strictly higher score replaces the best so far.
   */
  function FirstMax(s: seq<int>, n: nat): (i: nat)
    requires 0 < n <= |s|
    ensures i < n
  {
    if n == 1 then 0
    else
      var k := FirstMax(s, n - 1);
      if s[n - 1] > s[k] then n - 1 else k
  }

  /** The scan ends on the first of the highest scores. */
  lemma {:induction false} FirstMaxIsFirstOfMax(s: seq<int>, n: nat)
    requires 0 < n <= |s|
    ensures forall j :: 0 <= j < n ==> s[j] <= s[FirstMax(s, n)]
    ensures forall j :: 0 <= j < FirstMax(s, n) ==> s[j] < s[FirstMax(s, n)]
  {
    if n > 1 {
      FirstMaxIsFirstOfMax(s, n - 1);
    }
  }

  /** The PDF link the scoring loop keeps. */
  function BestPdfIndex(pdfs: seq<Link>, base: string): (i: nat)
    requires pdfs != []
    ensures i < |pdfs|
  {
    FirstMax(PdfScores(pdfs, base), |pdfs|)
  }

  /** The kept PDF scores highest, and it is the first one with that score. */
  lemma BestPdfIndexIsFirstMax(pdfs: seq<Link>, base: string)
    requires pdfs != []
    ensures forall j :: 0 <= j < |pdfs| ==>
      PdfScore(pdfs[j], base) <= PdfScore(pdfs[BestPdfIndex(pdfs, base)], base)
    ensures forall j :: 0 <= j < BestPdfIndex(pdfs, base) ==>
      PdfScore(pdfs[j], base) < PdfScore(pdfs[BestPdfIndex(pdfs, base)], base)
  {
    var sc := PdfScores(pdfs, base);
    FirstMaxIsFirstOfMax(sc, |pdfs|);
    forall j | 0 <= j < |pdfs| ensures PdfScore(pdfs[j], base) == sc[j] {
      ScoresByAt(pdfs, l => PdfScore(l, base), j);
    }
  }

  /**
   * The scoring loop, with `best` and `best_score`: a link replaces the best
   * so far only when its score is strictly higher.
   */
  method ScanPdfs(pdfs: seq<Link>, score: Link -> int) returns (best: Option<string>, bestScore: int, ghost bi: nat)
    requires forall l :: score(l) > NoScore
    ensures pdfs == [] ==> best == None && bestScore == NoScore
    ensures pdfs != [] ==>
      bi == FirstMax(ScoresBy(pdfs, score), |pdfs|) &&
      best == Some(pdfs[bi].url) && bestScore == score(pdfs[bi])
  {
    best := None;
    bestScore := NoScore;
    ghost var sc := ScoresBy(pdfs, score);
    bi := 0;
    for i := 0 to |pdfs|
      invariant i == 0 ==> best == None && bestScore == NoScore
      invariant i > 0 ==> (bi < i && bi == FirstMax(sc, i) && best == Some(pdfs[bi].url) && bestScore == sc[bi])
    {
      var l := pdfs[i];
      var s := score(l);
      ScoresByAt(pdfs, score, i);
      if s > bestScore {
        bestScore := s;
        best := Some(l.url);
        bi := i;
      }
    }
    if pdfs != [] {
      ScoresByAt(pdfs, score, bi);
    }
  }

  /** The scoring loop over the PDF links of a page, scored by `score(a)`. */
  method BestPdf(pdfs: seq<Link>, base: string) returns (best: Option<string>, bestScore: int)
    ensures pdfs == [] ==> best == None && bestScore == NoScore
    ensures pdfs != [] ==>
      best == Some(pdfs[BestPdfIndex(pdfs, base)].url) &&
      bestScore == PdfScore(pdfs[BestPdfIndex(pdfs, base)], base)
  {
    ghost var bi;
    best, bestScore, bi := ScanPdfs(pdfs, l => PdfScore(l, base));
  }

  /**
   * `find_application_pdf(employment_url, base_home)`. A PDF is returned
   * only when the best-scoring PDF link of a usable HTML page reaches the
   * threshold and passes the validator.
   */
  function FindApplicationPdf(employmentUrl: string, base: string, web: Web): (r: PdfResult)
    ensures r.pdf.Some? <==> r.outcome == Found
    ensures r.outcome == Found ==>
      web(employmentUrl).Fetched? &&
      var pdfs := PdfLinks(web(employmentUrl).resp.links);
      pdfs != [] &&
      var b := pdfs[BestPdfIndex(pdfs, base)];
      PdfScore(b, base) >= ConfidentScore && Validate(b.url, base, web).ok &&
      r.pdf == Validate(b.url, base, web).final &&
      (IsAts(r.pdf.value) || SameSite(r.pdf.value, base))
  {
    match web(employmentUrl)
    case TransportError(e) => PdfResult(None, EmploymentFetchError(e))
    case Fetched(resp) =>
      if resp.status >= 400 || LooksSoft404(resp) then PdfResult(None, EmploymentNotOk(resp.status))
      else if !Contains(resp.LowerType(), "text/html") && resp.LowerType() != "" then
        PdfResult(None, EmploymentNotHtml)
      else
        var pdfs := PdfLinks(resp.links);
        if pdfs == [] then PdfResult(None, NoPdfLinks)
        else
          var b := pdfs[BestPdfIndex(pdfs, base)];
          if b.url != "" && PdfScore(b, base) >= ConfidentScore then
            var v := Validate(b.url, base, web);
            if v.ok then PdfResult(v.final, Found) else PdfResult(None, CandidateInvalid(v.reason))
          else PdfResult(None, NoConfidentPdf)
  }

  /** The finder, fetching the page and running the scoring loop. */
  method FindApplicationPdfOnPage(employmentUrl: string, base: string, web: Web) returns (r: PdfResult)
    ensures r == FindApplicationPdf(employmentUrl, base, web)
  {
    var f := web(employmentUrl);
    if f.TransportError? {
      return PdfResult(None, EmploymentFetchError(f.message));
    }
    var resp := f.resp;
    if resp.status >= 400 || LooksSoft404(resp) {
      return PdfResult(None, EmploymentNotOk(resp.status));
    }
    var ctype := resp.LowerType();
    if !Contains(ctype, "text/html") && ctype != "" {
      return PdfResult(None, EmploymentNotHtml);
    }
    var pdfs := PdfLinks(resp.links);
    if pdfs == [] {
      return PdfResult(None, NoPdfLinks);
    }
    var best, bestScore := BestPdf(pdfs, base);
    if best.Some? && best.value != "" && bestScore >= ConfidentScore {
      var v := Validate(best.value, base, web);
      if v.ok {
        return PdfResult(v.final, Found);
      }
      return PdfResult(None, CandidateInvalid(v.reason));
    }
    return PdfResult(None, NoConfidentPdf);
  }
}
