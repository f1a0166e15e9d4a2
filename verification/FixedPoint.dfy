/**
 Scan, resolve, rescue, and again: what is finally selected in a text, and why repeating the rescue
 pass would stop by itself.
 */
module FixedPoint {
  import opened Spans
  import opened Validators
  import opened Scan
  import opened Rescue

  const RESCUE_PASSES := 4

  function KeywordFrom(text: string, found: seq<Match>): seq<Match>
    requires Within(found, 0, |text|)
  {
    if found == [] then []
    else (if SsnOk(text[found[0].start..found[0].end]) then [found[0]] else []) + KeywordFrom(text, found[1..])
  }

  /** The keyword-SSN matches that are shaped like an SSN. */
  function Keyword(e: Engine, text: string, start: nat): seq<Match>
    requires EngineSound(e) && start <= |text|
  {
    KeywordFrom(text, e.keywordMatches(text, start))
  }

  function FirstSelection(e: Engine, text: string, start: nat): seq<Match>
    requires EngineSound(e) && start <= |text|
  {
    Resolve(ScanFrom(e, text, start, |text|) + Keyword(e, text, start))
  }

  function ScanRegions(e: Engine, text: string, regions: seq<Region>): seq<Match>
    requires EngineSound(e) && forall k :: 0 <= k < |regions| ==> regions[k].to <= |text|
  {
    if regions == [] then []
    else ScanFrom(e, text, regions[0].from, regions[0].to) + ScanRegions(e, text, regions[1..])
  }

  /** A selection as every pass starts from one: sorted, disjoint, in bounds, validated. */
  ghost predicate Selection(text: string, start: nat, spans: seq<Match>) {
    Disjoint(spans) && Within(spans, start, |text|) && AllAccepted(text, spans)
  }

  /** What one pass adds: rescued matches, then an ordinary scan of every gap. */
  function Found(e: Engine, text: string, start: nat, selected: seq<Match>): seq<Match>
    requires EngineSound(e) && start <= |text| && Selection(text, start, selected)
  {
    GapsPartition(selected, start, |text|);
    RescueFound(e, text, start, selected) + ScanRegions(e, text, GapsFrom(selected, start, |text|))
  }

  /** One pass: the old selection if nothing new is found or its spans survive, else the merged one. */
  function Improve(e: Engine, text: string, start: nat, selected: seq<Match>): seq<Match>
    requires EngineSound(e) && start <= |text| && Selection(text, start, selected)
  {
    var found := Found(e, text, start, selected);
    var merged := Resolve(selected + found);
    if found == [] || SameSpans(merged, selected) then selected else merged
  }

  function Passes(e: Engine, text: string, start: nat, selected: seq<Match>, n: nat): seq<Match>
    requires EngineSound(e) && start <= |text| && Selection(text, start, selected)
    decreases n
  {
    if n == 0 then selected
    else
      ImproveSound(e, text, start, selected);
      Passes(e, text, start, Improve(e, text, start, selected), n - 1)
  }

  /** The spans the redactor works with. */
  function Selected(e: Engine, text: string, start: nat): seq<Match>
    requires EngineSound(e) && start <= |text|
  {
    FirstSelectionSound(e, text, start);
    Passes(e, text, start, FirstSelection(e, text, start), RESCUE_PASSES)
  }

  method ScanToFixedPoint(e: Engine, text: string, start: nat) returns (selected: seq<Match>)
    requires EngineSound(e) && start <= |text|
    ensures selected == Selected(e, text, start)
  {
    hide EngineSound, Resolve, GapsFrom, RescueFound, Selection, SameSpans, Disjoint, Keyword;
    FirstSelectionSound(e, text, start);
    var keyword := KeywordScan(e, text, start);
    var scanned := ForwardScan(e, text, start, |text|);
    selected := ResolveOverlaps(scanned + keyword);
    for pass := 0 to RESCUE_PASSES
      invariant Selection(text, start, selected)
      invariant Passes(e, text, start, selected, RESCUE_PASSES - pass) == Selected(e, text, start)
    {
      var found := OnePass(e, text, start, selected);
      if found == [] {
        Settles(e, text, start, selected, RESCUE_PASSES - pass);
        return;
      }
      var merged := ResolveOverlaps(selected + found);
      if SameSpans(merged, selected) {
        Settles(e, text, start, selected, RESCUE_PASSES - pass);
        return;
      }
      ImproveSound(e, text, start, selected);
      selected := merged;
    }
  }

  method KeywordScan(e: Engine, text: string, start: nat) returns (kept: seq<Match>)
    requires EngineSound(e) && start <= |text|
    ensures kept == Keyword(e, text, start)
  {
    hide *;
    KeywordIs(e, text, start);
    var found := e.keywordMatches(text, start);
    assert found[0..] == found;
    kept := [];
    for k := 0 to |found|
      invariant Within(found[k..], 0, |text|)
      invariant kept + KeywordFrom(text, found[k..]) == KeywordFrom(text, found)
    {
      KeywordNext(text, found, k);
      if SsnOk(text[found[k].start..found[k].end]) {
        kept := kept + [found[k]];
      }
    }
    KeywordEnds(text, found);
  }

  lemma KeywordNext(text: string, found: seq<Match>, k: nat)
    requires k < |found| && Within(found[k..], 0, |text|)
    ensures found[k].start < found[k].end <= |text| && Within(found[k + 1..], 0, |text|)
    ensures KeywordFrom(text, found[k..])
         == (if SsnOk(text[found[k].start..found[k].end]) then [found[k]] else []) + KeywordFrom(text, found[k + 1..])
  {
    hide SsnOk;
    assert found[k..][0] == found[k] && found[k..][1..] == found[k + 1..];
  }

  lemma KeywordEnds(text: string, found: seq<Match>)
    ensures KeywordFrom(text, found[|found|..]) == []
  {
  }

  lemma KeywordIs(e: Engine, text: string, start: nat)
    requires EngineSound(e) && start <= |text|
    ensures Within(e.keywordMatches(text, start), 0, |text|)
    ensures KeywordFrom(text, e.keywordMatches(text, start)) == Keyword(e, text, start)
  {
  }

  method OnePass(e: Engine, text: string, start: nat, selected: seq<Match>) returns (found: seq<Match>)
    requires EngineSound(e) && start <= |text| && Selection(text, start, selected)
    ensures found == Found(e, text, start, selected)
  {
    hide EngineSound, AllAccepted, GapsFrom, RescueFound, ScanFrom;
    found := RescueMatches(e, text, start, selected);
    var gaps := Gaps(selected, start, |text|);
    GapsPartition(selected, start, |text|);
    ghost var rescued := found;
    for k := 0 to |gaps|
      invariant found + ScanRegions(e, text, gaps[k..]) == rescued + ScanRegions(e, text, gaps)
    {
      assert gaps[k..][1..] == gaps[k + 1..];
      var more := ForwardScan(e, text, gaps[k].from, gaps[k].to);
      found := found + more;
    }
  }

  // ------------------------------------------------------------------ soundness

  /** Matches that may be selected: inside the range and accepted by their validators. */
  ghost predicate Eligible(text: string, start: nat, found: seq<Match>) {
    forall m :: m in found ==> start <= m.start < m.end <= |text| && Accepts(text, m)
  }

  lemma EligibleResolves(text: string, start: nat, found: seq<Match>)
    requires Eligible(text, start, found)
    ensures Selection(text, start, Resolve(found))
    ensures forall m :: m in found ==> m in Resolve(found) || Yields(m, Resolve(found))
  {
    hide Accepts, Resolve;
    forall i | 0 <= i < |found|
      ensures found[i].start < found[i].end
    {
      assert found[i] in found;
    }
    ResolveSound(found);
    var kept := Resolve(found);
    forall i | 0 <= i < |kept|
      ensures start <= kept[i].start < kept[i].end <= |text| && Accepts(text, kept[i])
    {
      assert kept[i] in kept;
    }
  }

  lemma SelectionEligible(text: string, start: nat, found: seq<Match>)
    requires Within(found, start, |text|) && AllAccepted(text, found)
    ensures Eligible(text, start, found)
  {
  }

  lemma {:induction false} KeywordEligible(text: string, start: nat, found: seq<Match>)
    requires Within(found, start, |text|) && forall i :: 0 <= i < |found| ==> found[i].name == "ssn_bare"
    ensures Eligible(text, start, KeywordFrom(text, found))
  {
    if found != [] {
      hide SsnOk;
      KeywordEligible(text, start, found[1..]);
    }
  }

  lemma {:induction false} RescueRunEligible(r: Rescuer, text: string, candidates: seq<nat>, cursor: nat,
      covered: seq<Match>, start: nat)
    requires RescuerSound(r) && forall k :: 0 <= k < |candidates| ==> start <= candidates[k] <= |text|
    ensures Eligible(text, start, RescueRun(r, text, candidates, cursor, covered))
  {
    if candidates != [] {
      hide Accepts, RescueAt, Covered;
      var p := candidates[0];
      if RescueAt(r, text, p).Some? {
        RescueAtSound(r, text, p);
        RescueRunEligible(r, text, candidates[1..], RescueAt(r, text, p).value.end, covered, start);
      }
      RescueRunEligible(r, text, candidates[1..], cursor, covered, start);
    }
  }

  lemma {:induction false} RescueRunsEligible(r: Rescuer, text: string, runs: seq<Region>, covered: seq<Match>,
      start: nat)
    requires RescuerSound(r) && forall k :: 0 <= k < |runs| ==> start <= runs[k].from <= runs[k].to <= |text|
    ensures Eligible(text, start, RescueRuns(r, text, runs, covered))
  {
    if runs != [] {
      hide Accepts, RescueRun, Candidate;
      RescueRunEligible(r, text, CandidatesFrom(text, runs[0], runs[0].from), 0, covered, start);
      RescueRunsEligible(r, text, runs[1..], covered, start);
    }
  }

  lemma RescueEligible(e: Engine, text: string, start: nat, covered: seq<Match>)
    requires EngineSound(e) && start <= |text|
    ensures Eligible(text, start, RescueFound(e, text, start, covered))
  {
    if e.rescue.Some? {
      hide Eligible;
      RunsAreMaximal(text, start);
      RescueRunsEligible(e.rescue.value, text, NumericRuns(text, start), covered, start);
    }
  }

  lemma {:induction false} RegionsEligible(e: Engine, text: string, start: nat, regions: seq<Region>)
    requires EngineSound(e) && forall k :: 0 <= k < |regions| ==> start <= regions[k].from && regions[k].to <= |text|
    ensures Eligible(text, start, ScanRegions(e, text, regions))
  {
    if regions != [] {
      hide Accepts, ScanFrom, EngineSound;
      ScanSound(e, text, regions[0].from, regions[0].to);
      SelectionEligible(text, start, ScanFrom(e, text, regions[0].from, regions[0].to));
      RegionsEligible(e, text, start, regions[1..]);
    }
  }

  lemma FirstSelectionSound(e: Engine, text: string, start: nat)
    requires EngineSound(e) && start <= |text|
    ensures Selection(text, start, FirstSelection(e, text, start))
    ensures Eligible(text, start, ScanFrom(e, text, start, |text|) + Keyword(e, text, start))
  {
    hide Accepts, ScanFrom, KeywordFrom, Resolve, Selection;
    ScanSound(e, text, start, |text|);
    SelectionEligible(text, start, ScanFrom(e, text, start, |text|));
    KeywordEligible(text, start, e.keywordMatches(text, start));
    EligibleResolves(text, start, ScanFrom(e, text, start, |text|) + Keyword(e, text, start));
  }

  lemma FoundEligible(e: Engine, text: string, start: nat, selected: seq<Match>)
    requires EngineSound(e) && start <= |text| && Selection(text, start, selected)
    ensures Eligible(text, start, Found(e, text, start, selected))
    ensures Eligible(text, start, selected + Found(e, text, start, selected))
  {
    hide Accepts, RescueFound, ScanRegions, GapsFrom;
    GapsPartition(selected, start, |text|);
    RescueEligible(e, text, start, selected);
    RegionsEligible(e, text, start, GapsFrom(selected, start, |text|));
    SelectionEligible(text, start, selected);
  }

  /**
   A pass keeps the selection sound, and every match it drops, old or new, starts inside one it keeps.
   It leaves the selection exactly as it was, or makes it strictly better.
   */
  lemma ImproveSound(e: Engine, text: string, start: nat, selected: seq<Match>)
    requires EngineSound(e) && start <= |text| && Selection(text, start, selected)
    ensures
      var next := Improve(e, text, start, selected);
      && Selection(text, start, next)
      && (next == selected || Better(next, selected))
  {
    hide Found, Resolve, AllAccepted, Eligible, SameSpans, Better;
    FoundEligible(e, text, start, selected);
    var found := Found(e, text, start, selected);
    EligibleResolves(text, start, selected + found);
    ResolveIsBest(selected + found, selected);
  }

  /** Scan soundness: for any engine, what is selected is sorted, disjoint, in bounds and validated. */
  lemma SelectedSound(e: Engine, text: string, start: nat)
    requires EngineSound(e) && start <= |text|
    ensures Selection(text, start, Selected(e, text, start))
  {
    hide Selection, Improve, FirstSelection;
    FirstSelectionSound(e, text, start);
    PassesSound(e, text, start, FirstSelection(e, text, start), RESCUE_PASSES);
  }

  lemma {:induction false} PassesSound(e: Engine, text: string, start: nat, selected: seq<Match>, n: nat)
    requires EngineSound(e) && start <= |text| && Selection(text, start, selected)
    ensures Selection(text, start, Passes(e, text, start, selected, n))
    decreases n
  {
    hide *;
    OnePassOn(e, text, start, selected, n);
    if n > 0 {
      ImproveSound(e, text, start, selected);
      PassesSound(e, text, start, Improve(e, text, start, selected), n - 1);
    }
  }

  lemma OnePassOn(e: Engine, text: string, start: nat, selected: seq<Match>, n: nat)
    requires EngineSound(e) && start <= |text| && Selection(text, start, selected)
    ensures Selection(text, start, Improve(e, text, start, selected))
    ensures Passes(e, text, start, selected, n)
         == if n == 0 then selected else Passes(e, text, start, Improve(e, text, start, selected), n - 1)
  {
    hide Selection, Improve, EngineSound, Better;
    ImproveSound(e, text, start, selected);
  }

  // ---------------------------------------------------------------- convergence

  /** The rescue loop without its pass bound: it terminates, because every change lowers the rank. */
  function Converged(e: Engine, text: string, start: nat, selected: seq<Match>): seq<Match>
    requires EngineSound(e) && start <= |text| && Selection(text, start, selected)
    decreases Rank(selected, 0, |text|)
  {
    ImproveSound(e, text, start, selected);
    var next := Improve(e, text, start, selected);
    if next == selected then selected
    else
      assert Rank(next, 0, |text|) < Rank(selected, 0, |text|) by { BetterRanksLower(next, selected, 0, |text|); }
      Converged(e, text, start, next)
  }

  /** The unbounded loop ends at a selection no further pass changes, in at most as many passes as its rank. */
  lemma {:induction false} ConvergedIsFixed(e: Engine, text: string, start: nat, selected: seq<Match>) returns (n: nat)
    requires EngineSound(e) && start <= |text| && Selection(text, start, selected)
    ensures Selection(text, start, Converged(e, text, start, selected))
    ensures Improve(e, text, start, Converged(e, text, start, selected)) == Converged(e, text, start, selected)
    ensures n <= Rank(selected, 0, |text|) && Passes(e, text, start, selected, n) == Converged(e, text, start, selected)
    decreases Rank(selected, 0, |text|)
  {
    hide Improve, Rank, Better;
    ImproveSound(e, text, start, selected);
    var next := Improve(e, text, start, selected);
    if next == selected {
      n := 0;
    } else {
      BetterRanksLower(next, selected, 0, |text|);
      n := ConvergedIsFixed(e, text, start, next);
      n := n + 1;
    }
  }

  /** The bounded loop agrees with the unbounded one exactly when it ended on a fixed point. */
  lemma BoundedAgrees(e: Engine, text: string, start: nat, selected: seq<Match>, n: nat)
    requires EngineSound(e) && start <= |text| && Selection(text, start, selected)
    ensures Selection(text, start, Passes(e, text, start, selected, n))
    ensures
      var last := Passes(e, text, start, selected, n);
      Improve(e, text, start, last) == last <==> last == Converged(e, text, start, selected)
    decreases n
  {
    hide Improve, Selection;
    PassesSound(e, text, start, selected, n);
    if n > 0 {
      ImproveSound(e, text, start, selected);
      var next := Improve(e, text, start, selected);
      if next == selected {
        Settles(e, text, start, selected, n);
      } else {
        BoundedAgrees(e, text, start, next, n - 1);
      }
    } else if Converged(e, text, start, selected) == selected {
      var k := ConvergedIsFixed(e, text, start, selected);
    }
  }

  lemma Settles(e: Engine, text: string, start: nat, selected: seq<Match>, n: nat)
    requires EngineSound(e) && start <= |text| && Selection(text, start, selected)
    requires Improve(e, text, start, selected) == selected
    ensures Passes(e, text, start, selected, n) == selected
  {
    if n > 0 {
      Settles(e, text, start, selected, n - 1);
    }
  }
}
