/**
 * The selection stage of `rediscover_for_town`: drop repeated candidate
 * URLs, rank the rest by score (stable, highest first), and validate the
 * best 40, keeping the best accepted HTML page and the best accepted PDF.
 */
module Selection {
  import opened Wrappers
  import opened Text
  import opened Urls
  import opened Signals
  import opened Scoring
  import opened Validation
  import opened Discovery

  // ------------------------------------------------------------------
  // De-duplication
  // ------------------------------------------------------------------

  /** The URLs of a candidate list. */
  function UrlSet(cs: seq<Candidate>): set<string> {
    set i | 0 <= i < |cs| :: cs[i].url
  }

  /** A candidate as the dedupe loop keeps it: with its URL stripped. */
  function Cleaned(c: Candidate): Candidate {
    Candidate(Strip(c.url), c.caption, c.source)
  }

  /**
   * The dedupe loop as a function of the candidate list: a candidate whose
   * URL is not a URL is skipped, and so is one whose stripped URL is already
   * kept.
   */
  function Deduped(cand: seq<Candidate>): seq<Candidate>
    decreases |cand|
  {
    if cand == [] then []
    else
      var prev := Deduped(cand[..|cand| - 1]);
      var c := cand[|cand| - 1];
      if !IsUrlText(c.url) || Strip(c.url) in UrlSet(prev) then prev
      else prev + [Cleaned(c)]
  }

  /** The dedupe loop, with its `seen` set. */
  method Dedupe(cand: seq<Candidate>) returns (deduped: seq<Candidate>)
    ensures deduped == Deduped(cand)
  {
    var seen: set<string> := {};
    deduped := [];
    for i := 0 to |cand|
      invariant deduped == Deduped(cand[..i])
      invariant seen == UrlSet(deduped)
    {
      assert cand[..i + 1][..i] == cand[..i];
      var c := cand[i];
      if !IsUrlText(c.url) {
        continue;
      }
      var u := Strip(c.url);
      if u in seen {
        continue;
      }
      UrlSetAppend(deduped, Cleaned(c));
      seen := seen + {u};
      deduped := deduped + [Candidate(u, c.caption, c.source)];
    }
    assert cand[..|cand|] == cand;
  }

  lemma UrlSetAppend(cs: seq<Candidate>, c: Candidate)
    ensures UrlSet(cs + [c]) == UrlSet(cs) + {c.url}
  {
    var l := cs + [c];
    forall u | u in UrlSet(l) ensures u in UrlSet(cs) + {c.url} {
      var i :| 0 <= i < |l| && l[i].url == u;
      if i < |cs| {
        assert cs[i] == l[i];
      }
    }
    forall u | u in UrlSet(cs) ensures u in UrlSet(l) {
      var i :| 0 <= i < |cs| && cs[i].url == u;
      assert l[i] == cs[i];
    }
    assert l[|cs|] == c;
  }

  /** Candidate `i` is the first one whose stripped URL is a URL equal to its own. */
  predicate FirstOccurrence(cand: seq<Candidate>, i: int)
    requires 0 <= i < |cand|
  {
    IsUrlText(cand[i].url) && forall j :: 0 <= j < i ==> !YieldsUrl(cand[j], Strip(cand[i].url))
  }

  /**
   * An independent description of the dedupe result: the first occurrences,
   * stripped, in their original order.
   */
  function FirstOccurrences(cand: seq<Candidate>): seq<Candidate>
    decreases |cand|
  {
    if cand == [] then []
    else
      FirstOccurrences(cand[..|cand| - 1]) +
      (if FirstOccurrence(cand, |cand| - 1) then [Cleaned(cand[|cand| - 1])] else [])
  }

  /** Candidate `c` is a URL that strips to `u`. */
  predicate YieldsUrl(c: Candidate, u: string) {
    IsUrlText(c.url) && Strip(c.url) == u
  }

  /** Some candidate is a URL that strips to `u`. */
  predicate Yielded(cand: seq<Candidate>, u: string) {
    exists j :: 0 <= j < |cand| && YieldsUrl(cand[j], u)
  }

  /** A longer list yields what its prefix yields and what its last candidate yields. */
  lemma YieldedStep(cand: seq<Candidate>, u: string)
    requires cand != []
    ensures Yielded(cand, u) <==> Yielded(cand[..|cand| - 1], u) || YieldsUrl(cand[|cand| - 1], u)
  {
    var pre := cand[..|cand| - 1];
    if Yielded(cand, u) && !YieldsUrl(cand[|cand| - 1], u) {
      var j :| 0 <= j < |cand| && YieldsUrl(cand[j], u);
      assert YieldsUrl(pre[j], u);
    }
    if Yielded(pre, u) {
      var j :| 0 <= j < |pre| && YieldsUrl(pre[j], u);
      assert YieldsUrl(cand[j], u);
    }
  }

  /** The last candidate adds its stripped URL to the kept URLs when it is a URL. */
  lemma DedupedUrlSetStep(cand: seq<Candidate>)
    requires cand != []
    ensures var c := cand[|cand| - 1];
      UrlSet(Deduped(cand)) ==
        UrlSet(Deduped(cand[..|cand| - 1])) + (if IsUrlText(c.url) then {Strip(c.url)} else {})
  {
    var prev := Deduped(cand[..|cand| - 1]);
    var c := cand[|cand| - 1];
    if IsUrlText(c.url) && Strip(c.url) !in UrlSet(prev) {
      UrlSetAppend(prev, Cleaned(c));
    }
  }

  /** A URL is kept exactly when some candidate is a URL that strips to it. */
  lemma {:induction false} DedupedUrls(cand: seq<Candidate>, u: string)
    ensures u in UrlSet(Deduped(cand)) <==> exists j :: 0 <= j < |cand| && YieldsUrl(cand[j], u)
    decreases |cand|
  {
    if cand != [] {
      DedupedUrls(cand[..|cand| - 1], u);
      DedupedUrlSetStep(cand);
      YieldedStep(cand, u);
    }
  }

  /** The dedupe loop keeps exactly the first occurrences, in order. */
  lemma {:induction false} DedupedIsFirstOccurrences(cand: seq<Candidate>)
    ensures Deduped(cand) == FirstOccurrences(cand)
    decreases |cand|
  {
    if cand != [] {
      var n := |cand| - 1;
      var pre := cand[..n];
      DedupedIsFirstOccurrences(pre);
      var c := cand[n];
      if IsUrlText(c.url) {
        var u := Strip(c.url);
        DedupedUrls(pre, u);
        if u in UrlSet(Deduped(pre)) {
          var j :| 0 <= j < n && YieldsUrl(pre[j], u);
          assert YieldsUrl(cand[j], u);
        } else {
          forall j | 0 <= j < n ensures !YieldsUrl(cand[j], u) {
            assert pre[j] == cand[j];
          }
        }
      }
    }
  }

  /** No URL occurs twice in `r`. */
  predicate DistinctUrls(r: seq<Candidate>) {
    forall i, j :: 0 <= i < j < |r| ==> r[i].url != r[j].url
  }

  /** No URL is kept twice. */
  lemma {:induction false} DedupedDistinct(cand: seq<Candidate>)
    ensures DistinctUrls(Deduped(cand))
    decreases |cand|
  {
    if cand != [] {
      var n := |cand| - 1;
      DedupedDistinct(cand[..n]);
      var prev := Deduped(cand[..n]);
      var r := Deduped(cand);
      var c := cand[n];
      if IsUrlText(c.url) && Strip(c.url) !in UrlSet(prev) {
        assert r == prev + [Cleaned(c)];
        forall i, j | 0 <= i < j < |r| ensures r[i].url != r[j].url {
          assert r[i] == prev[i];
          if j == |prev| {
            assert r[j].url == Strip(c.url);
            assert prev[i].url in UrlSet(prev);
          } else {
            assert r[j] == prev[j];
          }
        }
      }
    }
  }

  /** Every URL of `r` is a URL and carries no surrounding white space. */
  predicate CleanUrls(r: seq<Candidate>) {
    forall i :: 0 <= i < |r| ==> IsUrlText(r[i].url) && Stripped(r[i].url)
  }

  /** Every kept URL is a URL and carries no surrounding white space. */
  lemma {:induction false} DedupedClean(cand: seq<Candidate>)
    ensures CleanUrls(Deduped(cand))
    decreases |cand|
  {
    if cand != [] {
      var n := |cand| - 1;
      DedupedClean(cand[..n]);
      var prev := Deduped(cand[..n]);
      var r := Deduped(cand);
      var c := cand[n];
      if IsUrlText(c.url) && Strip(c.url) !in UrlSet(prev) {
        assert r == prev + [Cleaned(c)];
        StripIdempotent(c.url);
        assert IsUrlText(Strip(c.url));
        forall i | 0 <= i < |r| ensures IsUrlText(r[i].url) && Stripped(r[i].url) {
          if i < |prev| {
            assert r[i] == prev[i];
          } else {
            assert r[i] == Cleaned(c);
          }
        }
      }
    }
  }

  // ------------------------------------------------------------------
  // Ranking
  // ------------------------------------------------------------------

  /** `(score, url, label, source)`. */
  datatype Scored = Scored(score: int, url: string, caption: string, source: Source)

  /** The scored list, in candidate order. */
  function ScoreAll(cs: seq<Candidate>, base: string): (r: seq<Scored>)
    ensures |r| == |cs|
  {
    seq(|cs|, i requires 0 <= i < |cs| =>
      Scored(ScoreCandidate(cs[i].url, cs[i].caption, base, cs[i].source), cs[i].url, cs[i].caption, cs[i].source))
  }

  /** Highest score first. */
  predicate Descending(s: seq<Scored>) {
    forall i, j :: 0 <= i < j < |s| ==> s[i].score >= s[j].score
  }

  /** Insert `x` in front of the first entry that does not score more than it. */
  function Insert(x: Scored, s: seq<Scored>): (r: seq<Scored>)
    ensures |r| == |s| + 1
  {
    if s == [] || x.score >= s[0].score then [x] + s
    else [s[0]] + Insert(x, s[1..])
  }

  /** `sort(reverse=True, key=score)`: a stable sort, highest score first. */
  function Ranked(xs: seq<Scored>): (r: seq<Scored>)
    ensures |r| == |xs|
  {
    if xs == [] then [] else Insert(xs[0], Ranked(xs[1..]))
  }

  /** The entries of `s` with score `k`, in order. */
  function WithScore(s: seq<Scored>, k: int): seq<Scored> {
    if s == [] then []
    else (if s[0].score == k then [s[0]] else []) + WithScore(s[1..], k)
  }

  lemma {:induction false} InsertPermutes(x: Scored, s: seq<Scored>)
    ensures multiset(Insert(x, s)) == multiset([x] + s)
  {
    if s != [] && x.score < s[0].score {
      InsertPermutes(x, s[1..]);
      assert s == [s[0]] + s[1..];
    }
  }

  /** No entry of `s` scores more than `b`. */
  predicate AtMost(s: seq<Scored>, b: int) {
    forall i :: 0 <= i < |s| ==> s[i].score <= b
  }

  lemma {:induction false} InsertAtMost(x: Scored, s: seq<Scored>, b: int)
    requires AtMost(s, b) && x.score <= b
    ensures AtMost(Insert(x, s), b)
  {
    if s != [] && x.score < s[0].score {
      InsertAtMost(x, s[1..], b);
      assert forall i :: 1 <= i < |Insert(x, s)| ==> Insert(x, s)[i] == Insert(x, s[1..])[i - 1];
    }
  }

  lemma {:induction false} InsertDescending(x: Scored, s: seq<Scored>)
    requires Descending(s)
    ensures Descending(Insert(x, s))
  {
    if s != [] && x.score < s[0].score {
      var t := s[1..];
      InsertDescending(x, t);
      InsertAtMost(x, t, s[0].score);
      var r := Insert(x, s);
      var it := Insert(x, t);
      assert r == [s[0]] + it;
      forall i, j | 0 <= i < j < |r| ensures r[i].score >= r[j].score {
        assert r[j] == it[j - 1];
        if i > 0 {
          assert r[i] == it[i - 1];
        }
      }
    }
  }

  lemma {:induction false} InsertWithScore(x: Scored, s: seq<Scored>, k: int)
    requires Descending(s)
    ensures WithScore(Insert(x, s), k) == (if x.score == k then [x] else []) + WithScore(s, k)
  {
    if s != [] && x.score < s[0].score {
      var t := s[1..];
      InsertWithScore(x, t, k);
      assert Insert(x, s)[1..] == Insert(x, t);
      if x.score == k {
        // `s[0]` scores more than `x`, so it is not among the entries with score `k`
        assert WithScore(Insert(x, s), k) == WithScore(Insert(x, t), k);
      }
    }
  }

  /** The ranking is ordered highest score first. */
  lemma {:induction false} RankedDescending(xs: seq<Scored>)
    ensures Descending(Ranked(xs))
    ensures multiset(Ranked(xs)) == multiset(xs)
  {
    if xs != [] {
      RankedDescending(xs[1..]);
      InsertDescending(xs[0], Ranked(xs[1..]));
      InsertPermutes(xs[0], Ranked(xs[1..]));
      assert xs == [xs[0]] + xs[1..];
    }
  }

  /** The ranking is stable: entries with equal scores keep their relative order. */
  lemma {:induction false} RankedStable(xs: seq<Scored>, k: int)
    ensures WithScore(Ranked(xs), k) == WithScore(xs, k)
  {
    if xs != [] {
      RankedStable(xs[1..], k);
      RankedDescending(xs[1..]);
      InsertWithScore(xs[0], Ranked(xs[1..]), k);
    }
  }

  // ------------------------------------------------------------------
  // Validation of the best 40
  // ------------------------------------------------------------------

  /** How many ranked candidates are validated. */
  const TopN: nat := 40

  /** `scored[:40]`. */
  function Top(ranked: seq<Scored>): (r: seq<Scored>)
    ensures |r| <= TopN && |r| <= |ranked| && r == ranked[..|r|]
    ensures |ranked| <= TopN ==> r == ranked
    ensures |ranked| > TopN ==> |r| == TopN
  {
    if |ranked| <= TopN then ranked else ranked[..TopN]
  }

  /** A ranked candidate is validated only if it scores at least 0 and is not social. */
  predicate Eligible(x: Scored) {
    x.score >= 0 && !IsSocial(x.url)
  }

  /** `(score, final_url, src, reason)` of an accepted candidate. */
  datatype Pick = Pick(score: int, final: string, source: Source, reason: Reason)

  /** The loop state: best HTML page, best PDF, last blocked reason seen. */
  datatype Tally = Tally(html: Option<Pick>, pdf: Option<Pick>, lastBlocked: Option<string>)

  /** The validator, applied to a candidate URL. */
  type Checker = string -> Verdict

  /**
   * What the loop learns about one ranked candidate: whether it is
   * validated, the verdict it would get, and whether that verdict's final
   * URL is a PDF.
   */
  datatype Trial = Trial(x: Scored, eligible: bool, verdict: Verdict, pdf: bool)

  function TrialOf(x: Scored, check: Checker): Trial {
    var v := check(x.url);
    Trial(x, Eligible(x), v, v.final.Some? && IsPdf(v.final.value))
  }

  function Trials(xs: seq<Scored>, check: Checker): (r: seq<Trial>)
    ensures |r| == |xs|
  {
    seq(|xs|, i requires 0 <= i < |xs| => TrialOf(xs[i], check))
  }

  /** The trial is validated and accepted with a non-empty final URL that is (`pdf`) or is not a PDF. */
  predicate Accepted(tr: Trial, pdf: bool) {
    tr.eligible && tr.verdict.ok && tr.verdict.final.Some? && tr.verdict.final.value != "" && tr.pdf == pdf
  }

  function PickOf(tr: Trial): Pick
    requires tr.verdict.final.Some?
  {
    Pick(tr.x.score, tr.verdict.final.value, tr.x.source, tr.verdict.reason)
  }

  /** One turn of the loop: a strictly higher score replaces the kept pick of its kind. */
  function Step(t: Tally, tr: Trial): Tally {
    if !tr.eligible then t
    else
      var v := tr.verdict;
      var lb := if v.blocked.Some? && v.blocked.value != "" then v.blocked else t.lastBlocked;
      if !v.ok || v.final.None? || v.final.value == "" then Tally(t.html, t.pdf, lb)
      else
        var p := PickOf(tr);
        if tr.pdf then
          Tally(t.html, if t.pdf.None? || p.score > t.pdf.value.score then Some(p) else t.pdf, lb)
        else
          Tally(if t.html.None? || p.score > t.html.value.score then Some(p) else t.html, t.pdf, lb)
  }

  /** The loop over `trs`, from an empty state. */
  function Tallied(trs: seq<Trial>): Tally
    decreases |trs|
  {
    if trs == [] then Tally(None, None, None)
    else Step(Tallied(trs[..|trs| - 1]), trs[|trs| - 1])
  }

  /** The validation loop over the best 40, with `check` the validator. */
  method ValidateTop(ranked: seq<Scored>, check: Checker) returns (t: Tally)
    ensures t == Tallied(Trials(Top(ranked), check))
  {
    var top := Top(ranked);
    var bestHtml: Option<Pick> := None;
    var bestPdf: Option<Pick> := None;
    var lastBlocked: Option<string> := None;
    for i := 0 to |top|
      invariant Tally(bestHtml, bestPdf, lastBlocked) == Tallied(Trials(top[..i], check))
    {
      assert Trials(top[..i + 1], check)[..i] == Trials(top[..i], check);
      assert Trials(top[..i + 1], check)[i] == TrialOf(top[i], check);
      var x := top[i];
      if x.score < 0 || IsSocial(x.url) {
        continue;
      }
      var v := check(x.url);
      if v.blocked.Some? && v.blocked.value != "" {
        lastBlocked := v.blocked;
      }
      if !v.ok || v.final.None? || v.final.value == "" {
        continue;
      }
      var p := Pick(x.score, v.final.value, x.source, v.reason);
      if IsPdf(p.final) {
        if bestPdf.None? || x.score > bestPdf.value.score {
          bestPdf := Some(p);
        }
      } else {
        if bestHtml.None? || x.score > bestHtml.value.score {
          bestHtml := Some(p);
        }
      }
    }
    assert top[..|top|] == top;
    t := Tally(bestHtml, bestPdf, lastBlocked);
  }

  /** The kept pick of one kind: `pdf` selects the PDF slot. */
  function BestOf(t: Tally, pdf: bool): Option<Pick> {
    if pdf then t.pdf else t.html
  }

  /**
   * Trial `i` is the best of its kind in `trs`: accepted, no accepted trial
   * of that kind scores more, and every earlier one scores less.
   */
  predicate IsBest(trs: seq<Trial>, i: int, pdf: bool) {
    0 <= i < |trs| && Accepted(trs[i], pdf) &&
    (forall j :: 0 <= j < |trs| && Accepted(trs[j], pdf) ==> trs[j].x.score <= trs[i].x.score) &&
    (forall j :: 0 <= j < i && Accepted(trs[j], pdf) ==> trs[j].x.score < trs[i].x.score)
  }

  /**
   * The kept HTML page (PDF) is the earliest-ranked among the highest-scoring
   * accepted HTML pages (PDFs), trial `i`; there is none exactly when none
   * was accepted.
   */
  lemma {:induction false} TalliedBest(trs: seq<Trial>, pdf: bool) returns (i: int)
    ensures BestOf(Tallied(trs), pdf).None? <==> forall j :: 0 <= j < |trs| ==> !Accepted(trs[j], pdf)
    ensures BestOf(Tallied(trs), pdf).Some? ==>
      IsBest(trs, i, pdf) && BestOf(Tallied(trs), pdf).value == PickOf(trs[i])
    decreases |trs|
  {
    i := -1;
    if trs != [] {
      var n := |trs| - 1;
      var pre := trs[..n];
      var k := TalliedBest(pre, pdf);
      assert forall j :: 0 <= j < n ==> pre[j] == trs[j];
      var before := BestOf(Tallied(pre), pdf);
      var tr := trs[n];
      if Accepted(tr, pdf) && (before.None? || tr.x.score > before.value.score) {
        i := n;
        assert BestOf(Tallied(trs), pdf) == Some(PickOf(tr));
        assert IsBest(trs, n, pdf);
      } else {
        i := k;
        assert BestOf(Tallied(trs), pdf) == before;
        if before.Some? {
          assert IsBest(trs, k, pdf);
        }
      }
    }
  }

  /** The trial is validated and reports a non-empty blocked reason. */
  predicate ReportsBlock(tr: Trial) {
    tr.eligible && tr.verdict.blocked.Some? && tr.verdict.blocked.value != ""
  }

  /** The kept blocked reason is the one of the last validated trial that reported one. */
  lemma {:induction false} TalliedLastBlocked(trs: seq<Trial>)
    ensures Tallied(trs).lastBlocked.None? <==> forall j :: 0 <= j < |trs| ==> !ReportsBlock(trs[j])
    ensures Tallied(trs).lastBlocked.Some? ==>
      exists i :: 0 <= i < |trs| && ReportsBlock(trs[i]) &&
        Tallied(trs).lastBlocked == trs[i].verdict.blocked &&
        forall j :: i < j < |trs| ==> !ReportsBlock(trs[j])
    decreases |trs|
  {
    if trs != [] {
      var n := |trs| - 1;
      var pre := trs[..n];
      TalliedLastBlocked(pre);
      assert forall j :: 0 <= j < n ==> pre[j] == trs[j];
      if !ReportsBlock(trs[n]) && Tallied(pre).lastBlocked.Some? {
        var i :| 0 <= i < n && ReportsBlock(pre[i]) &&
          Tallied(pre).lastBlocked == pre[i].verdict.blocked &&
          forall j :: i < j < n ==> !ReportsBlock(pre[j]);
        assert ReportsBlock(trs[i]);
      }
    }
  }

  /** A candidate that is not validated leaves the state as it was. */
  lemma IneligibleIgnored(trs: seq<Trial>, tr: Trial)
    requires !tr.eligible
    ensures Tallied(trs + [tr]) == Tallied(trs)
  {
    assert (trs + [tr])[..|trs|] == trs;
  }

  /** `best_html or best_pdf`: an accepted HTML page is preferred to any PDF. */
  function Chosen(t: Tally): (r: Option<Pick>)
    ensures r.Some? <==> t.html.Some? || t.pdf.Some?
    ensures t.html.Some? ==> r == t.html
    ensures t.html.None? ==> r == t.pdf
  {
    if t.html.Some? then t.html else t.pdf
  }

  /**
   * With the real validator `check`, the chosen final URL is an ATS URL or on the
   * base site; it is a PDF only when no HTML page was accepted among the
   * best 40.
   */
  lemma ChosenAccepted(ranked: seq<Scored>, base: string, web: Http.Web, check: Checker)
    requires forall u :: check(u) == Validate(u, base, web)
    ensures var trs := Trials(Top(ranked), check);
      var c := Chosen(Tallied(trs));
      c.Some? ==>
        (IsAts(c.value.final) || SameSite(c.value.final, base)) &&
        (IsPdf(c.value.final) ==> forall j :: 0 <= j < |trs| ==> !Accepted(trs[j], false))
  {
    var trs := Trials(Top(ranked), check);
    var t := Tallied(trs);
    var h := TalliedBest(trs, false);
    var p := TalliedBest(trs, true);
    if t.html.Some? {
      assert trs[h] == TrialOf(Top(ranked)[h], check);
    } else if t.pdf.Some? {
      assert trs[p] == TrialOf(Top(ranked)[p], check);
    }
  }
}
