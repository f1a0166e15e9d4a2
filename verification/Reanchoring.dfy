/**
 The concrete scanner as the redactor builds it for these two patterns: with the rescue pass on.

 Re-anchoring looks where the lookbehind forbids a value to start. What it takes at a position is what
 stands there, and it takes it only where it looks; the forward scan is not changed by it.
 */
module Reanchoring {
  import opened Wrappers
  import opened Spans
  import opened Validators
  import opened Scan
  import opened Rescue
  import opened FixedPoint
  import opened Redactor
  import opened ChunkInvariance
  import opened ForwardEngine

  /** The same patterns without their lookbehind. */
  function At(text: string, p: nat): Option<Match> {
    if p <= |text| then Shift(Front(text[p..]), p) else None
  }

  predicate PartialAnywhere(text: string, i: nat) {
    i < |text| && (SsnPrefix(text[i..]) || (AllDigits(text[i..]) && |text| - i <= CARD_MAX))
  }

  const RESCUER: Rescuer := Rescuer(At, FullAnywhere, PartialAnywhere)
  const REANCHORED: Engine := ENGINE.(rescue := Some(RESCUER))

  lemma ReanchoredIsSound()
    ensures EngineSound(REANCHORED) && EngineSound(ENGINE) && RescuerSound(RESCUER)
  {
    hide Front, Leftmost, MatchAt;
    assert FullSound(FullAnywhere);
  }

  // ------------------------------------------------- what re-anchoring takes at a position

  /** A value's text: separators in an SSN, digits only and a scheme in a card. */
  predicate Looks(value: string, name: string) {
    if name == "ssn" then HasSeparator(value) else !HasSeparator(value) && CardScheme(DigitsOf(value)).Some?
  }

  /** What is taken is accepted by the validator of its name; a card is a part of the digits in front. */
  lemma TakenIsAccepted(rest: string)
    requires Taken(rest).Some?
    ensures
      var v := Taken(rest).value;
      if v.name == "ssn" then SsnShaped(rest) && v.end == SSN_LENGTH && SsnOk(rest[..v.end])
      else !SsnShaped(rest) && v.end <= LeadingDigits(rest) && AllDigits(rest[..v.end]) && IsCard(rest[..v.end])
  {
    hide SsnOk, IsCard, DigitsOf, SsnPrefix, LeadingDigits;
    if !SsnShaped(rest) {
      LeadingDigitsOf(rest);
      var run := rest[..LeadingDigits(rest)];
      TrimIsCard(run, PAN_LENGTHS);
      assert rest[..Taken(rest).value.end] == run[..Taken(rest).value.end];
    }
  }

  lemma TakenLooks(rest: string)
    requires Taken(rest).Some?
    ensures Looks(rest[..Taken(rest).value.end], Taken(rest).value.name)
  {
    TakenIsAccepted(rest);
    hide Taken, SsnOk, CardScheme, LuhnOk, DigitsOf, SsnPrefix, LeadingDigits;
    if SsnShaped(rest) {
      SsnHasSeparator(rest);
    } else {
      BareHasNoSeparator(rest[..Taken(rest).value.end]);
    }
  }

  lemma {:induction false} TrimIsCard(run: string, lengths: seq<nat>)
    ensures Trim(run, lengths) > 0 ==> IsCard(run[..Trim(run, lengths)])
  {
    hide IsCard;
    if lengths != [] {
      TrimIsCard(run, lengths[1..]);
    }
  }

  /** Re-anchored at a position, exactly what stands at the front of the rest is taken. */
  lemma RescueAtIsTaken(text: string, p: nat)
    requires p <= |text| && RescuerSound(RESCUER)
    ensures RescueAt(RESCUER, text, p) == Shift(Taken(text[p..]), p)
  {
    hide *;
    var rest := text[p..];
    RescuerParts(text, p);
    KeptIsTaken(FullAnywhere, text, p, |text|);
    assert text[p..|text|] == rest;
    if Taken(rest).Some? {
      TakenLooks(rest);
      TakenThere(text, p);
    }
    ShiftedAt(rest, p);
    KeptRescues(RESCUER, text, p, Shift(Front(rest), p), Shift(Taken(rest), p));
  }

  lemma RescuerParts(text: string, p: nat)
    requires p <= |text|
    ensures RESCUER.at(text, p) == Shift(Front(text[p..]), p) && RESCUER.full == FullAnywhere
    ensures AnchoredAt(FullAnywhere, text, p)
  {
    hide Front, FullAnywhere;
  }

  lemma ShiftedAt(rest: string, p: nat)
    ensures Shift(Front(rest), p).Some? ==> Shift(Front(rest), p).value.start == p
    ensures Taken(rest).None? ==> Shift(Taken(rest), p).None?
  {
  }

  lemma TakenThere(text: string, p: nat)
    requires p <= |text| && Taken(text[p..]).Some?
    ensures
      var rest, v := text[p..], Shift(Taken(text[p..]), p);
      && v.Some? && v.value.start == p < v.value.end <= |text| && v.value.name == Taken(rest).value.name
      && text[p..v.value.end] == rest[..Taken(rest).value.end]
  {
    hide Taken;
  }

  /** What is kept of the match at a position passes the last two tests if it is grouped, or has a scheme. */
  lemma KeptRescues(r: Rescuer, text: string, p: nat, m: Option<Match>, v: Option<Match>)
    requires RescuerSound(r) && p <= |text| && r.at(text, p) == m && (m.None? ==> v.None?)
    requires m.Some? ==> InText(m.value, text) && m.value.start == p && v == Kept(r.full, text, m.value)
    requires v.Some? ==> v.value.start == p < v.value.end <= |text| && Looks(text[p..v.value.end], v.value.name)
    ensures RescueAt(r, text, p) == v
  {
    hide Accepts, Shorter, HasSeparator, CardScheme, DigitsOf, LeadingDigits;
  }

  // ------------------------------------------------------------ the forward part

  /** The forward scan asks the engine two questions only, so re-anchoring changes nothing in it. */
  lemma {:induction false} SameScan(a: Engine, b: Engine, text: string, p: nat, limit: nat)
    requires EngineSound(a) && EngineSound(b) && a.search == b.search && a.full == b.full && limit <= |text|
    ensures ScanFrom(a, text, p, limit) == ScanFrom(b, text, p, limit)
    decreases limit + 1 - p
  {
    hide *;
    if p > limit {
      ScanPast(a, text, p, limit);
      ScanPast(b, text, p, limit);
    } else {
      ScanRound(a, text, p, limit);
      ScanRound(b, text, p, limit);
      if a.search(text, p, limit).Some? {
        var m := a.search(text, p, limit).value;
        var taken := if Accepts(text, m) then Some(m) else Shorter(a.full, text, m.start, m.end);
        if taken.Some? {
          SameScan(a, b, text, taken.value.end, limit);
        } else {
          SameScan(a, b, text, m.start + 1, limit);
        }
      }
    }
  }

  lemma {:induction false} SameRegions(text: string, regions: seq<Region>)
    requires EngineSound(ENGINE) && EngineSound(REANCHORED)
    requires forall k :: 0 <= k < |regions| ==> regions[k].to <= |text|
    ensures ScanRegions(REANCHORED, text, regions) == ScanRegions(ENGINE, text, regions)
  {
    hide EngineSound, ScanFrom;
    if regions != [] {
      SameForwardEngine();
      SameScan(ENGINE, REANCHORED, text, regions[0].from, regions[0].to);
      SameRegions(text, regions[1..]);
    }
  }

  lemma SameForwardEngine()
    ensures ENGINE.search == REANCHORED.search && ENGINE.full == REANCHORED.full
    ensures REANCHORED.rescue == Some(RESCUER)
    ensures forall text: string, p: nat :: REANCHORED.keywordMatches(text, p) == []
  {
  }

  /** The forward part: re-anchored or not, the first selection is the greedy one and its gaps are quiet. */
  lemma StartsGreedily(text: string, base: nat)
    requires EngineSound(ENGINE) && EngineSound(REANCHORED) && FinderSound(Find) && base <= |text|
    ensures
      var g := Greedy(Find, text, base);
      var gaps := GapsFrom(g, base, |text|);
      && FirstSelection(REANCHORED, text, base) == g && Selection(text, base, g)
      && (forall k :: 0 <= k < |gaps| ==> gaps[k].to <= |text|)
      && ScanRegions(REANCHORED, text, gaps) == []
  {
    hide *;
    var g := Greedy(Find, text, base);
    GreedySound(Find, text, base);
    FitsIsDisjoint(g, base, |text| - base);
    SameForwardEngine();
    ScansGreedily(text, base);
    SameScan(ENGINE, REANCHORED, text, base, |text|);
    FirstSelectionIs(REANCHORED, text, base, g);
    FirstSelectionSound(REANCHORED, text, base);
    QuietGaps(text, base);
    SameRegions(text, GapsFrom(g, base, |text|));
  }

  // ------------------------------------------------- where the rescue pass looks

  /** A candidate of the run it lies in, among the runs the pass sees from `base` on. */
  ghost predicate Looked(text: string, base: nat, p: nat)
    requires base <= |text|
  {
    exists run :: run in NumericRuns(text, base) && run.from <= p < run.to <= |text| && Candidate(text, run, p)
  }

  lemma RunsOf(text: string, base: nat)
    requires base <= |text|
    ensures forall run :: run in NumericRuns(text, base) ==> base <= run.from < run.to <= |text|
    ensures forall a, b, p: nat ::
      a in NumericRuns(text, base) && b in NumericRuns(text, base) && In(p, a) && In(p, b) ==> a == b
  {
    RunsAreMaximal(text, base);
    hide InRegion, IsRunChar;
  }

  /** What the pass finds it found where it looks, outside what is covered. */
  lemma {:induction false} RunLooks(r: Rescuer, text: string, run: Region, p: nat, cursor: nat, covered: seq<Match>)
    requires RescuerSound(r) && run.from <= p <= run.to <= |text|
    ensures forall f :: f in RescueRun(r, text, CandidatesFrom(text, run, p), cursor, covered) ==>
              && p <= f.start < run.to && Candidate(text, run, f.start) && !Covered(f.start, covered)
              && RescueAt(r, text, f.start) == Some(f)
    decreases run.to - p
  {
    hide RescueRun, CandidatesFrom, Candidate, RescueAt, Covered;
    if p == run.to {
      NoCandidates(r, text, run, cursor, covered);
    } else {
      OneCandidate(r, text, run, p, cursor, covered);
      RunLooks(r, text, run, p + 1, cursor, covered);
      if RescueAt(r, text, p).Some? {
        RescueAtStarts(r, text, p);
        RunLooks(r, text, run, p + 1, RescueAt(r, text, p).value.end, covered);
      }
    }
  }

  lemma RescueAtStarts(r: Rescuer, text: string, p: nat)
    requires RescuerSound(r) && p <= |text| && RescueAt(r, text, p).Some?
    ensures RescueAt(r, text, p).value.start == p < RescueAt(r, text, p).value.end <= |text|
  {
    RescueAtSound(r, text, p);
  }

  lemma NoCandidates(r: Rescuer, text: string, run: Region, cursor: nat, covered: seq<Match>)
    requires RescuerSound(r) && run.from <= run.to <= |text|
    ensures RescueRun(r, text, CandidatesFrom(text, run, run.to), cursor, covered) == []
  {
  }

  lemma OneCandidate(r: Rescuer, text: string, run: Region, p: nat, cursor: nat, covered: seq<Match>)
    requires RescuerSound(r) && run.from <= p < run.to <= |text|
    ensures
      var rest := CandidatesFrom(text, run, p + 1);
      RescueRun(r, text, CandidatesFrom(text, run, p), cursor, covered)
        == if !Candidate(text, run, p) || p < cursor || Covered(p, covered) || RescueAt(r, text, p).None?
           then RescueRun(r, text, rest, cursor, covered)
           else [RescueAt(r, text, p).value] + RescueRun(r, text, rest, RescueAt(r, text, p).value.end, covered)
  {
    hide Candidate, RescueAt, Covered;
    var rest := CandidatesFrom(text, run, p + 1);
    assert ([p] + rest)[1..] == rest && [] + rest == rest;
  }

  ghost predicate FoundLooking(r: Rescuer, text: string, base: nat, covered: seq<Match>, found: seq<Match>)
    requires RescuerSound(r) && base <= |text|
  {
    forall f :: f in found ==>
      && f.start < |text| && Looked(text, base, f.start) && !Covered(f.start, covered)
      && RescueAt(r, text, f.start) == Some(f)
  }

  lemma {:induction false} RunsLook(r: Rescuer, text: string, base: nat, runs: seq<Region>, covered: seq<Match>)
    requires RescuerSound(r) && base <= |text|
    requires forall run :: run in runs ==> run in NumericRuns(text, base) && run.from < run.to <= |text|
    ensures FoundLooking(r, text, base, covered, RescueRuns(r, text, runs, covered))
  {
    hide RescueAt, Covered, RescuerSound, Candidate, RescueRun;
    if runs != [] {
      assert runs[0] in runs;
      RunLooks(r, text, runs[0], runs[0].from, 0, covered);
      RunsLook(r, text, base, runs[1..], covered);
    }
  }

  lemma RescueLooks(text: string, base: nat, covered: seq<Match>)
    requires EngineSound(REANCHORED) && RescuerSound(RESCUER) && base <= |text|
    ensures FoundLooking(RESCUER, text, base, covered, RescueFound(REANCHORED, text, base, covered))
  {
    hide FoundLooking, EngineSound, RescuerSound, RescueRuns, NumericRuns;
    SameForwardEngine();
    RunsAreMaximal(text, base);
    RunsOf(text, base);
    RunsLook(RESCUER, text, base, NumericRuns(text, base), covered);
  }
}
