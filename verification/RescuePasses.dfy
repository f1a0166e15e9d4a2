/**
 What the passes of the re-anchored scanner arrive at. A list of values is given; if none is missed
 where the scanner looks, and no value shows up in a gap because the gap is cut off, then the list is
 what is selected, as far as that is known of the text.
 */
module RescuePasses {
  import opened Wrappers
  import opened Spans
  import opened Validators
  import opened Scan
  import opened Rescue
  import opened FixedPoint
  import opened ChunkInvariance
  import opened ForwardEngine
  import opened Reanchoring

  /** What stands at a position, lookbehind or not. */
  predicate StandsAt(text: string, m: Match) {
    m.start <= |text| && Shift(Taken(text[m.start..]), m.start) == Some(m)
  }

  /** Disjoint values of the text, each starting where the rescue pass looks. */
  ghost predicate Listed(text: string, base: nat, list: seq<Match>)
    requires base <= |text|
  {
    && Disjoint(list) && Within(list, base, |text|)
    && forall m :: m in list ==> StandsAt(text, m) && Looked(text, base, m.start)
  }

  /** A value starts at a position where a scan or the rescue pass would see it. */
  ghost predicate Seen(text: string, base: nat, p: nat)
    requires base <= |text| && p <= |text|
  {
    (MayStart(text, p) || Looked(text, base, p)) && Taken(text[p..]).Some?
  }

  /** Before `hold` no value starts outside the list where a scan or the rescue pass would see it. */
  ghost predicate NoneMissed(text: string, base: nat, hold: nat, list: seq<Match>)
    requires base <= |text|
  {
    forall p: nat :: base <= p < hold && p <= |text| && Seen(text, base, p) ==> Covered(p, list)
  }

  /** A value that shows when the start of another one, behind a digit, cuts the text off shows without that too. */
  ghost predicate NoneCutOff(text: string, base: nat, hold: nat) {
    forall p: nat, c: nat :: base <= p < c <= |text| && p < hold && CutsOff(text, p, c) ==> Taken(text[p..]).Some?
  }

  /** A value may start at `p` and shows in the text up to `c`, where another one starts behind a digit. */
  predicate CutsOff(text: string, p: nat, c: nat)
    requires p < c <= |text|
  {
    MayStart(text, p) && IsDigit(text[c - 1]) && Taken(text[c..]).Some? && Taken(text[p..c]).Some?
  }

  // ------------------------------------------------------- the values found first

  lemma TakenIsNumeric(rest: string)
    requires Taken(rest).Some?
    ensures var n := Taken(rest).value.end; IsDigit(rest[0]) && forall k :: 0 <= k < n ==> IsRunChar(rest[k])
    ensures SsnShaped(rest) ==> Taken(rest).value.end == SSN_LENGTH
    ensures !SsnShaped(rest) ==> CARD_MIN <= LeadingDigits(rest) && Taken(rest).value.end <= LeadingDigits(rest)
  {
    LeadingDigitsOf(rest);
    if SsnShaped(rest) {
      forall k | 0 <= k < SSN_LENGTH
        ensures IsRunChar(rest[k]) && (k == 0 ==> IsDigit(rest[k]))
      {
        assert SsnPlace(k, rest[..SSN_LENGTH][k]);
      }
    }
  }

  /** Inside a value no other one starts where the lookbehind allows it. */
  lemma NoneStartsInside(text: string, p: nat, q: nat)
    requires p < q <= |text| && Taken(text[p..]).Some? && q < p + Taken(text[p..]).value.end && MayStart(text, q)
    ensures Taken(text[q..]).None?
  {
    var rest := text[p..];
    TakenIsNumeric(rest);
    LeadingDigitsOf(rest);
    LeadingDigitsOf(text[q..]);
    var k := q - p;
    assert text[q - 1] == rest[k - 1];
    if SsnShaped(rest) {
      var shape := rest[..SSN_LENGTH];
      assert SsnPlace(k - 1, shape[k - 1]);
      assert k in {4, 7};
      if k == 4 {
        assert SsnPlace(6, shape[6]) && text[q..][2] == shape[6];
        SeparatorIsNoDigit(shape[6]);
      } else {
        assert SsnPlace(10, shape[10]) && text[q..][3] == shape[10];
        assert |rest| > SSN_LENGTH ==> text[q..][4] == rest[11];
        SeparatorIsNoDigit(shape[10]);
      }
      NoValueAfter(text[q..], if k == 4 then 2 else 4);
    }
  }

  lemma SeparatorIsNoDigit(c: char)
    ensures IsSeparator(c) ==> !IsDigit(c)
  {
  }

  lemma NoValueAfter(rest: string, n: nat)
    requires n in {2, 4} && (n < |rest| ==> !IsDigit(rest[n])) && (n == 4 ==> |rest| >= 4 && IsDigit(rest[3]))
    ensures Taken(rest).None?
  {
    LeadingDigitsOf(rest);
    if SsnShaped(rest) {
      var shape := rest[..SSN_LENGTH];
      assert SsnPlace(2, shape[2]) && SsnPlace(3, shape[3]);
      SeparatorIsNoDigit(shape[3]);
    }
  }

  lemma InOne(list: seq<Match>, a: Match, b: Match, p: nat)
    requires Disjoint(list) && a in list && b in list && Covers(a, p) && Covers(b, p)
    ensures a == b
  {
  }

  lemma CoveredBy(p: int, list: seq<Match>) returns (m: Match)
    requires Covered(p, list)
    ensures m in list && Covers(m, p)
  {
    var k :| 0 <= k < |list| && Covers(list[k], p);
    m := list[k];
  }

  lemma CoversIt(p: int, list: seq<Match>, m: Match)
    requires m in list && Covers(m, p)
    ensures Covered(p, list)
  {
    var k :| 0 <= k < |list| && list[k] == m;
    assert Covers(list[k], p);
  }

  lemma SameStanding(text: string, a: Match, b: Match)
    requires StandsAt(text, a) && StandsAt(text, b) && a.start == b.start
    ensures a == b
  {
  }

  /** Where a listed value covers a value that may start, or is looked at, it is that value. */
  lemma FirstIsListed(text: string, base: nat, hold: nat, list: seq<Match>, m: Match)
    requires base <= |text| && Listed(text, base, list) && NoneMissed(text, base, hold, list)
    requires base <= m.start < hold && m.start < |text| && Find(text, m.start) == Some(m)
    ensures m in list
  {
    hide Listed, Covered, Looked, Taken;
    assert MayStart(text, m.start) && Taken(text[m.start..]).Some? && StandsAt(text, m);
    var over := CoveredBy(m.start, list);
    ListedStands(text, base, list, over);
    if over.start < m.start {
      NoneStartsInside(text, over.start, m.start);
    }
    SameStanding(text, over, m);
  }

  lemma ListedStands(text: string, base: nat, list: seq<Match>, m: Match)
    requires base <= |text| && Listed(text, base, list) && m in list
    ensures base <= m.start < m.end <= |text| && StandsAt(text, m) && Looked(text, base, m.start)
    ensures Taken(text[m.start..]).Some? && m.end == m.start + Taken(text[m.start..]).value.end
  {
    hide Taken, Looked;
  }

  /** Of the values found first, those before `hold` are listed. */
  lemma FirstAreListed(text: string, base: nat, hold: nat, list: seq<Match>)
    requires base <= |text| && FinderSound(Find) && Listed(text, base, list) && NoneMissed(text, base, hold, list)
    ensures forall m :: m in Greedy(Find, text, base) && m.start < hold ==> m in list
  {
    hide *;
    GreedyFinds(Find, text, base);
    forall m | m in Greedy(Find, text, base) && m.start < hold
      ensures m in list
    {
      FirstIsListed(text, base, hold, list, m);
    }
  }

  // ------------------------------------------------------- what the first rescue finds

  /** The rescue of a run, come to `p`: it stands behind the listed value that reaches over `p`, if any does. */
  ghost predicate Tracks(list: seq<Match>, covered: seq<Match>, p: nat, cursor: nat) {
    && (cursor > p ==> exists m :: m in list && m.start < p && m.end == cursor)
    && (forall m :: m in list && m !in covered && m.start < p < m.end ==> m.end <= cursor)
  }

  /** What is found before `hold` is listed, and what is listed is found unless it is covered. */
  ghost predicate FindsListed(list: seq<Match>, covered: seq<Match>, from: nat, to: nat, hold: nat, found: seq<Match>) {
    && (forall f :: f in found && f.start < hold ==> f in list)
    && (forall m :: m in list && from <= m.start < to && m.start < hold && m !in covered ==> m in found)
  }

  /** A run of the text, a list that stands in it, and values covered already that belong to the list. */
  ghost predicate InRun(text: string, base: nat, hold: nat, list: seq<Match>, covered: seq<Match>, run: Region)
    requires base <= |text|
  {
    && Listed(text, base, list) && NoneMissed(text, base, hold, list)
    && run in NumericRuns(text, base) && base <= run.from < run.to <= |text|
    && (forall m :: m in list && In(m.start, run) ==> Candidate(text, run, m.start))
    && (forall m :: m in covered && m.start < hold ==> m in list)
  }

  /** A value is taken at a candidate: it is the listed one. */
  lemma TakesListed(text: string, base: nat, hold: nat, list: seq<Match>, covered: seq<Match>, run: Region, p: nat,
      cursor: nat, f: Match)
    requires base <= |text| && InRun(text, base, hold, list, covered, run) && Tracks(list, covered, p, cursor)
    requires In(p, run) && p < hold && cursor <= p && Candidate(text, run, p) && !Covered(p, covered)
    requires StandsAt(text, f) && f.start == p
    ensures f in list && Tracks(list, covered, p + 1, f.end)
  {
    hide Taken, Covered, Candidate, Listed;
    assert Looked(text, base, p) && Taken(text[p..]).Some?;
    hide Looked;
    var m := CoveredBy(p, list);
    ListedStands(text, base, list, m);
    if m in covered {
      CoversIt(p, covered, m);
    }
    SameStanding(text, m, f);
    forall n | n in list && n.start < p + 1 < n.end
      ensures n == f
    {
      ListedIsDisjoint(text, base, list);
      InOne(list, n, f, p);
    }
  }

  lemma ListedIsDisjoint(text: string, base: nat, list: seq<Match>)
    requires base <= |text| && Listed(text, base, list)
    ensures Disjoint(list) && Within(list, base, |text|)
  {
  }

  /** Nothing is taken at a position: no listed value starts there, unless it is covered. */
  lemma PassesOn(text: string, base: nat, hold: nat, list: seq<Match>, covered: seq<Match>, run: Region, p: nat,
      cursor: nat)
    requires base <= |text| && InRun(text, base, hold, list, covered, run) && Tracks(list, covered, p, cursor)
    requires In(p, run) && p < hold
    requires !Candidate(text, run, p) || p < cursor || Covered(p, covered) || Taken(text[p..]).None?
    ensures Tracks(list, covered, p + 1, cursor)
    ensures forall m :: m in list && m.start == p ==> m in covered
  {
    hide Taken, Covered, Candidate, Looked, Listed;
    ListedIsDisjoint(text, base, list);
    forall m | m in list && m.start == p
      ensures m in covered
    {
      ListedStands(text, base, list, m);
      if p < cursor {
        var n :| n in list && n.start < p && n.end == cursor;
        InOne(list, m, n, p);
      } else {
        var n := CoveredBy(p, covered);
        InOne(list, m, n, p);
      }
    }
  }

  lemma {:induction false} RunFindsListed(text: string, base: nat, hold: nat, list: seq<Match>, covered: seq<Match>,
      run: Region, p: nat, cursor: nat)
    requires RescuerSound(RESCUER) && base <= |text| && InRun(text, base, hold, list, covered, run)
    requires run.from <= p <= run.to && Tracks(list, covered, p, cursor)
    ensures run.to <= |text|
    ensures FindsListed(list, covered, p, run.to, hold,
        RescueRun(RESCUER, text, CandidatesFrom(text, run, p), cursor, covered))
    decreases run.to - p
  {
    hide *;
    InRunBounds(text, base, hold, list, covered, run);
    if p == run.to {
      NoCandidates(RESCUER, text, run, cursor, covered);
      NothingListed(list, covered, run.to, hold);
    } else if p >= hold {
      RunLooks(RESCUER, text, run, p, cursor, covered);
      NothingBelow(list, covered, p, run.to, hold,
          RescueRun(RESCUER, text, CandidatesFrom(text, run, p), cursor, covered));
    } else {
      OneCandidate(RESCUER, text, run, p, cursor, covered);
      RescueAtIsTaken(text, p);
      NotShifted(Taken(text[p..]), p);
      var rest := CandidatesFrom(text, run, p + 1);
      if !Candidate(text, run, p) || p < cursor || Covered(p, covered) || Taken(text[p..]).None? {
        PassesOn(text, base, hold, list, covered, run, p, cursor);
        RunFindsListed(text, base, hold, list, covered, run, p + 1, cursor);
        OneMore(list, covered, p, run.to, hold, [], RescueRun(RESCUER, text, rest, cursor, covered));
      } else {
        TakenThere(text, p);
        var f := Shift(Taken(text[p..]), p).value;
        ItStands(text, p);
        TakesListed(text, base, hold, list, covered, run, p, cursor, f);
        RunFindsListed(text, base, hold, list, covered, run, p + 1, f.end);
        ListedIsDisjoint(text, base, list);
        OneMore(list, covered, p, run.to, hold, [f], RescueRun(RESCUER, text, rest, f.end, covered));
      }
    }
  }

  lemma InRunBounds(text: string, base: nat, hold: nat, list: seq<Match>, covered: seq<Match>, run: Region)
    requires base <= |text| && InRun(text, base, hold, list, covered, run)
    ensures base <= run.from < run.to <= |text| && Listed(text, base, list) && Disjoint(list) && Spanning(list)
    ensures forall p: nat :: In(p, run) <==> run.from <= p < run.to
  {
  }

  lemma NotShifted(m: Option<Match>, p: nat)
    ensures m.None? <==> Shift(m, p).None?
  {
  }

  lemma ItStands(text: string, p: nat)
    requires p <= |text| && Taken(text[p..]).Some?
    ensures StandsAt(text, Shift(Taken(text[p..]), p).value)
  {
    hide Taken;
  }

  lemma NothingListed(list: seq<Match>, covered: seq<Match>, p: nat, hold: nat)
    ensures FindsListed(list, covered, p, p, hold, [])
  {
  }

  lemma NothingBelow(list: seq<Match>, covered: seq<Match>, p: nat, to: nat, hold: nat, found: seq<Match>)
    requires hold <= p && forall f :: f in found ==> p <= f.start
    ensures FindsListed(list, covered, p, to, hold, found)
  {
  }

  lemma OneMore(list: seq<Match>, covered: seq<Match>, p: nat, to: nat, hold: nat, first: seq<Match>, rest: seq<Match>)
    requires FindsListed(list, covered, p + 1, to, hold, rest)
    requires forall f :: f in first ==> f in list
    requires forall m :: m in list && m.start == p ==> m in covered || m in first
    ensures FindsListed(list, covered, p, to, hold, first + rest)
    ensures first == [] ==> FindsListed(list, covered, p, to, hold, rest)
  {
  }

  /** No listed value reaches from before a run into it. */
  lemma NoneReachesIn(text: string, base: nat, list: seq<Match>, run: Region, m: Match)
    requires base <= |text| && Listed(text, base, list) && run in NumericRuns(text, base) && m in list
    ensures !(m.start < run.from < m.end)
  {
    hide *;
    ListedStands(text, base, list, m);
    TakenIsNumeric(text[m.start..]);
    RunsOf(text, base);
    if m.start < run.from < m.end {
      assert IsRunChar(text[m.start..][run.from - 1 - m.start]);
      RunsStartMaximal(text, base, run);
      assert false;
    }
  }

  lemma RunsStartMaximal(text: string, base: nat, run: Region)
    requires base <= |text| && run in NumericRuns(text, base)
    ensures base <= run.from < run.to <= |text|
    ensures run.from > base ==> !IsRunChar(text[run.from - 1])
    ensures run.to < |text| ==> !IsRunChar(text[run.to])
    ensures forall i :: run.from <= i < run.to ==> IsRunChar(text[i])
  {
    RunsAreMaximal(text, base);
    hide IsRunChar, NumericRuns;
    var runs := NumericRuns(text, base);
    var k :| 0 <= k < |runs| && runs[k] == run;
    forall i | run.from <= i < run.to
      ensures InRegion(i, runs)
    {
      assert In(i, runs[k]);
    }
  }

  lemma {:induction false} RunsFindListed(text: string, base: nat, hold: nat, list: seq<Match>, covered: seq<Match>,
      runs: seq<Region>)
    requires RescuerSound(RESCUER) && base <= |text|
    requires forall run :: run in runs ==> InRun(text, base, hold, list, covered, run)
    ensures forall k :: 0 <= k < |runs| ==> runs[k].from <= runs[k].to <= |text|
    ensures
      var found := RescueRuns(RESCUER, text, runs, covered);
      && (forall f :: f in found && f.start < hold ==> f in list)
      && (forall m, run :: run in runs && m in list && In(m.start, run) && m.start < hold && m !in covered ==>
           m in found)
  {
    hide RescuerSound, Listed, NoneMissed, NumericRuns, RescueRun, Candidate, CandidatesFrom, InRun;
    if runs != [] {
      var run := runs[0];
      assert run in runs;
      InRunBounds(text, base, hold, list, covered, run);
      StartsTracking(text, base, hold, list, covered, run);
      RunFindsListed(text, base, hold, list, covered, run, run.from, 0);
      RunsFindListed(text, base, hold, list, covered, runs[1..]);
      assert forall r :: r in runs ==> r == run || r in runs[1..];
    }
  }

  lemma StartsTracking(text: string, base: nat, hold: nat, list: seq<Match>, covered: seq<Match>, run: Region)
    requires base <= |text| && InRun(text, base, hold, list, covered, run)
    ensures Tracks(list, covered, run.from, 0)
  {
    hide Listed, NoneMissed, NumericRuns, Candidate;
    forall m | m in list
      ensures !(m.start < run.from < m.end)
    {
      NoneReachesIn(text, base, list, run, m);
    }
  }

  /** The first pass rescues, of the values before `hold`, those of the list that were not found already. */
  lemma RescueFindsListed(text: string, base: nat, hold: nat, list: seq<Match>, covered: seq<Match>)
    requires EngineSound(REANCHORED) && RescuerSound(RESCUER) && base <= |text|
    requires Listed(text, base, list) && NoneMissed(text, base, hold, list)
    requires forall m :: m in covered && m.start < hold ==> m in list
    ensures FindsListed(list, covered, base, |text|, hold, RescueFound(REANCHORED, text, base, covered))
  {
    hide EngineSound, RescuerSound, Listed, NoneMissed, NumericRuns, RescueRuns, Candidate;
    SameForwardEngine();
    RunsAreMaximal(text, base);
    RunsOf(text, base);
    var runs := NumericRuns(text, base);
    forall run | run in runs
      ensures InRun(text, base, hold, list, covered, run)
    {
      CandidatesOfRun(text, base, list, run);
    }
    RunsFindListed(text, base, hold, list, covered, runs);
    hide InRun;
    forall m | m in list && m.start < hold && m !in covered
      ensures m in RescueFound(REANCHORED, text, base, covered)
    {
      var run := RunOfListed(text, base, list, m);
    }
  }

  lemma RunOfListed(text: string, base: nat, list: seq<Match>, m: Match) returns (run: Region)
    requires base <= |text| && Listed(text, base, list) && m in list
    ensures run in NumericRuns(text, base) && In(m.start, run)
  {
    hide Listed, NumericRuns, Candidate;
    ListedStands(text, base, list, m);
    run :| run in NumericRuns(text, base) && run.from <= m.start < run.to <= |text| && Candidate(text, run, m.start);
  }

  lemma CandidatesOfRun(text: string, base: nat, list: seq<Match>, run: Region)
    requires base <= |text| && Listed(text, base, list) && run in NumericRuns(text, base) && run.to <= |text|
    ensures forall m :: m in list && In(m.start, run) ==> Candidate(text, run, m.start)
  {
    hide NumericRuns, Candidate, Listed;
    RunsOf(text, base);
    forall m | m in list && In(m.start, run)
      ensures Candidate(text, run, m.start)
    {
      ListedStands(text, base, list, m);
      var own :|
        own in NumericRuns(text, base) && own.from <= m.start < own.to <= |text| && Candidate(text, own, m.start);
      assert In(m.start, own);
    }
  }

  // ------------------------------------------------------- what a pass makes of it

  /** A pass that finds, before `hold`, listed values only and all that are not selected yet, selects the list. */
  lemma MergesToList(text: string, base: nat, hold: nat, list: seq<Match>, selected: seq<Match>)
    requires EngineSound(REANCHORED) && base <= |text| && Selection(text, base, selected)
    requires Disjoint(list) && Spanning(list)
    requires
      var all := selected + Found(REANCHORED, text, base, selected);
      && (forall m :: m in all && m.start < hold ==> m in list)
      && (forall m :: m in list && m.start < hold ==> m in all)
    ensures SameBelow(Improve(REANCHORED, text, base, selected), list, hold)
  {
    hide EngineSound, Found, Selection, Eligible, Resolve, SameBelow, SameSpans;
    var found := Found(REANCHORED, text, base, selected);
    var all := selected + found;
    if found == [] {
      assert all == selected;
      SameMembersBelow(selected, list, hold);
    } else {
      FoundEligible(REANCHORED, text, base, selected);
      EligibleResolves(text, base, all);
      KeptBelow(text, base, hold, list, all);
      if SameSpans(Resolve(all), selected) {
        SameSpansBelow(hold, list, Resolve(all), selected);
      }
    }
  }

  lemma SameMembersBelow(a: seq<Match>, b: seq<Match>, hold: nat)
    requires forall m :: m in a && m.start < hold ==> m in b
    requires forall m :: m in b && m.start < hold ==> m in a
    ensures SameBelow(a, b, hold)
  {
  }

  lemma KeptBelow(text: string, base: nat, hold: nat, list: seq<Match>, all: seq<Match>)
    requires Selection(text, base, Resolve(all)) && Eligible(text, base, all) && Disjoint(list) && Spanning(list)
    requires forall m :: m in all ==> m in Resolve(all) || Yields(m, Resolve(all))
    requires forall m :: m in all && m.start < hold ==> m in list
    requires forall m :: m in list && m.start < hold ==> m in all
    ensures SameBelow(Resolve(all), list, hold)
  {
    KeepsOnlyFound(text, base, all);
    hide Selection, Eligible, Resolve;
    var kept := Resolve(all);
    forall m | m in list && m.start < hold
      ensures m in kept
    {
      if m !in kept {
        var k :| 0 <= k < |kept| && kept[k].start <= m.start < kept[k].end && NotAfter(kept[k], m);
        assert kept[k] in kept;
        InOne(list, kept[k], m, m.start);
      }
    }
  }

  lemma KeepsOnlyFound(text: string, base: nat, all: seq<Match>)
    requires Eligible(text, base, all)
    ensures forall m :: m in Resolve(all) ==> m in all
  {
    hide Accepts, Resolve;
    forall i | 0 <= i < |all|
      ensures all[i].start < all[i].end
    {
      assert all[i] in all;
    }
    ResolveSound(all);
  }

  lemma SameSpansBelow(hold: nat, list: seq<Match>, merged: seq<Match>, selected: seq<Match>)
    requires Disjoint(list) && Spanning(list) && SameBelow(merged, list, hold) && SameSpans(merged, selected)
    requires forall m :: m in selected && m.start < hold ==> m in list
    ensures SameBelow(selected, list, hold)
  {
    forall m | m in list && m.start < hold
      ensures m in selected
    {
      assert m in merged;
      var k :| 0 <= k < |merged| && merged[k] == m;
      assert selected[k] in selected && SameSpan(merged[k], selected[k]);
      InOne(list, selected[k], m, m.start);
    }
  }

  // ------------------------------------------------------- the later passes

  /** Every value selected either may start where it does, or stands there. */
  ghost predicate Rooted(text: string, spans: seq<Match>) {
    forall m :: m in spans ==> m.start <= |text| && (MayStart(text, m.start) || Taken(text[m.start..]).Some?)
  }

  /** What a scan finds up to a limit may start there, and stands in the text up to the limit. */
  lemma {:induction false} ScanFinds(text: string, p: nat, limit: nat)
    requires EngineSound(ENGINE) && limit <= |text|
    ensures forall f :: f in ScanFrom(ENGINE, text, p, limit) ==>
              p <= f.start < limit && MayStart(text, f.start) && Taken(text[f.start..limit]).Some?
    decreases limit + 1 - p
  {
    hide Kept, MatchAt, EngineSound, ScanFrom, Taken;
    if p > limit {
      ScanPast(ENGINE, text, p, limit);
    } else {
      ScanHere(text, p, limit);
      TakenUpTo(text, p, limit);
      NoMatchAtEnd(text, limit);
      ScanFinds(text, p + 1, limit);
      if MayStart(text, p) && Taken(text[p..limit]).Some? {
        ScanFinds(text, Kept(Full, text, MatchAt(text, p, limit).value).value.end, limit);
      }
    }
  }

  /** Every gap ends at the end of the text or where a selected value starts. */
  lemma {:induction false} GapsEnd(spans: seq<Match>, cursor: nat, end: nat)
    ensures forall gap :: gap in GapsFrom(spans, cursor, end) ==>
      gap.to == end || exists m :: m in spans && m.start == gap.to
  {
    if spans != [] {
      GapsEnd(spans[1..], Max(spans[0].end, cursor), end);
      assert spans[0] in spans && forall m :: m in spans[1..] ==> m in spans;
    }
  }

  /** A value that shows in a gap shows in all of the text, or is one that the gap cuts off. */
  lemma ShowsInGap(text: string, base: nat, hold: nat, selected: seq<Match>, q: nat, to: nat)
    requires base <= q < to <= |text| && q < hold && Rooted(text, selected) && NoneCutOff(text, base, hold)
    requires to == |text| || exists m :: m in selected && m.start == to
    requires MayStart(text, q) && Taken(text[q..to]).Some?
    ensures Taken(text[q..]).Some?
  {
    hide Taken;
    if to == |text| {
      assert text[q..to] == text[q..];
    } else if !IsDigit(text[to - 1]) {
      ShowsUnlimited(text, q, to);
    } else {
      assert CutsOff(text, q, to);
    }
  }

  lemma ShowsUnlimited(text: string, q: nat, limit: nat)
    requires q < limit <= |text| && CleanEnd(text, limit) && MayStart(text, q) && Taken(text[q..limit]).Some?
    ensures Taken(text[q..]).Some?
  {
    hide Taken, Kept, MatchAt, CleanEnd;
    assert text[q..|text|] == text[q..];
    TakenUpTo(text, q, limit);
    TakenUpTo(text, q, |text|);
    LimitedIsFull(text, q, limit);
  }

  /** Once the list is selected before `hold`, no scan of a gap finds anything there. */
  lemma GapShowsNothing(text: string, base: nat, hold: nat, list: seq<Match>, selected: seq<Match>, gap: Region)
    requires EngineSound(ENGINE) && base <= |text| && Selection(text, base, selected) && Rooted(text, selected)
    requires NoneMissed(text, base, hold, list) && NoneCutOff(text, base, hold) && SameBelow(selected, list, hold)
    requires gap in GapsFrom(selected, base, |text|) && gap.to <= |text|
    ensures forall f :: f in ScanFrom(ENGINE, text, gap.from, gap.to) ==>
      hold <= f.start <= |text| && MayStart(text, f.start)
  {
    hide EngineSound, Rooted, NoneMissed, NoneCutOff, SameBelow, Taken, MayStart, Selection, GapsFrom, Covered, Looked;
    ScanFinds(text, gap.from, gap.to);
    GapsEnd(selected, base, |text|);
    forall f | f in ScanFrom(ENGINE, text, gap.from, gap.to)
      ensures hold <= f.start
    {
      if f.start < hold {
        InGap(text, base, selected, gap, f.start);
        ShowsInGap(text, base, hold, selected, f.start, gap.to);
        SelectedCovers(text, base, hold, list, selected, f.start);
        assert false;
      }
    }
  }

  lemma InGap(text: string, base: nat, selected: seq<Match>, gap: Region, p: nat)
    requires base <= |text| && Selection(text, base, selected)
    requires gap in GapsFrom(selected, base, |text|) && gap.from <= p < gap.to
    ensures base <= p < |text| && !Covered(p, selected)
  {
    hide GapsFrom, Covered;
    GapsPartition(selected, base, |text|);
    var gaps := GapsFrom(selected, base, |text|);
    var k :| 0 <= k < |gaps| && gaps[k] == gap;
    assert In(p, gaps[k]);
    assert InRegion(p, gaps);
  }

  /** What stands before `hold`, where a scan or a rescue would see it, is covered by what is selected. */
  lemma SelectedCovers(text: string, base: nat, hold: nat, list: seq<Match>, selected: seq<Match>, p: nat)
    requires base <= p < hold && p <= |text| && NoneMissed(text, base, hold, list) && SameBelow(selected, list, hold)
    requires (MayStart(text, p) || Looked(text, base, p)) && Taken(text[p..]).Some?
    ensures Covered(p, selected)
  {
    hide Covered, Looked, MayStart, Taken;
    assert Covered(p, list);
    var m := CoveredBy(p, list);
    CoversIt(p, selected, m);
  }

  lemma {:induction false} GapsShowNothing(text: string, base: nat, hold: nat, list: seq<Match>, selected: seq<Match>,
      gaps: seq<Region>)
    requires EngineSound(ENGINE) && EngineSound(REANCHORED)
    requires base <= |text| && Selection(text, base, selected) && Rooted(text, selected)
    requires NoneMissed(text, base, hold, list) && NoneCutOff(text, base, hold) && SameBelow(selected, list, hold)
    requires forall gap :: gap in gaps ==> gap in GapsFrom(selected, base, |text|) && gap.to <= |text|
    ensures forall k :: 0 <= k < |gaps| ==> gaps[k].to <= |text|
    ensures forall f :: f in ScanRegions(REANCHORED, text, gaps) ==>
      hold <= f.start <= |text| && MayStart(text, f.start)
  {
    hide EngineSound, Rooted, NoneMissed, NoneCutOff, SameBelow, MayStart, Selection, GapsFrom, ScanFrom;
    if gaps != [] {
      assert gaps[0] in gaps;
      SameForwardEngine();
      SameScan(ENGINE, REANCHORED, text, gaps[0].from, gaps[0].to);
      GapShowsNothing(text, base, hold, list, selected, gaps[0]);
      GapsShowNothing(text, base, hold, list, selected, gaps[1..]);
    }
  }

  /** Neither does the rescue: what stands there is covered. */
  lemma RescueShowsNothing(text: string, base: nat, hold: nat, list: seq<Match>, selected: seq<Match>)
    requires EngineSound(REANCHORED) && RescuerSound(RESCUER) && base <= |text|
    requires NoneMissed(text, base, hold, list) && SameBelow(selected, list, hold)
    ensures forall f :: f in RescueFound(REANCHORED, text, base, selected) ==> hold <= f.start
  {
    hide EngineSound, RescuerSound, NoneMissed, SameBelow, RescueFound, Taken, Looked, Covered, RescueAt;
    RescueLooks(text, base, selected);
    RunsOf(text, base);
    forall f | f in RescueFound(REANCHORED, text, base, selected)
      ensures hold <= f.start
    {
      LookedFrom(text, base, f.start);
      RescueAtIsTaken(text, f.start);
      NotShifted(Taken(text[f.start..]), f.start);
      if f.start < hold {
        SelectedCovers(text, base, hold, list, selected, f.start);
        assert false;
      }
    }
  }

  lemma LookedFrom(text: string, base: nat, p: nat)
    requires base <= |text| && Looked(text, base, p)
    ensures base <= p < |text|
  {
    hide NumericRuns, Candidate;
    RunsOf(text, base);
  }

  lemma FoundParts(text: string, base: nat, selected: seq<Match>)
    requires EngineSound(REANCHORED) && base <= |text| && Selection(text, base, selected)
    ensures
      var gaps := GapsFrom(selected, base, |text|);
      && (forall gap :: gap in gaps ==> gap.to <= |text|) && (forall k :: 0 <= k < |gaps| ==> gaps[k].to <= |text|)
      && Found(REANCHORED, text, base, selected)
           == RescueFound(REANCHORED, text, base, selected) + ScanRegions(REANCHORED, text, gaps)
  {
    hide EngineSound, GapsFrom, RescueFound, ScanRegions;
    GapsPartition(selected, base, |text|);
  }

  lemma RescuedIsRooted(text: string, base: nat, selected: seq<Match>)
    requires EngineSound(REANCHORED) && RescuerSound(RESCUER) && base <= |text|
    ensures Rooted(text, RescueFound(REANCHORED, text, base, selected))
  {
    hide EngineSound, RescuerSound, RescueFound, Taken, Looked, Covered, RescueAt;
    RescueLooks(text, base, selected);
    forall f | f in RescueFound(REANCHORED, text, base, selected)
      ensures f.start <= |text| && Taken(text[f.start..]).Some?
    {
      RescueAtIsTaken(text, f.start);
      NotShifted(Taken(text[f.start..]), f.start);
    }
  }

  lemma RootedImprove(text: string, base: nat, selected: seq<Match>)
    requires EngineSound(REANCHORED) && base <= |text| && Selection(text, base, selected)
    requires Rooted(text, selected) && Rooted(text, Found(REANCHORED, text, base, selected))
    ensures Rooted(text, Improve(REANCHORED, text, base, selected))
  {
    hide EngineSound, Found, Selection, Resolve, SameSpans, Eligible, Taken, MayStart;
    FoundEligible(REANCHORED, text, base, selected);
    KeepsOnlyFound(text, base, selected + Found(REANCHORED, text, base, selected));
  }

  /** The list stands, and nothing else does, before `hold`. */
  ghost predicate Standing(text: string, base: nat, hold: nat, list: seq<Match>)
    requires base <= |text|
  {
    Listed(text, base, list) && NoneMissed(text, base, hold, list) && NoneCutOff(text, base, hold)
  }

  /** What is selected so far agrees with the list before `hold`. */
  ghost predicate Reached(text: string, base: nat, hold: nat, list: seq<Match>, selected: seq<Match>) {
    Selection(text, base, selected) && Rooted(text, selected) && SameBelow(selected, list, hold)
  }

  lemma SelectionImproves(text: string, base: nat, selected: seq<Match>)
    requires EngineSound(REANCHORED) && base <= |text| && Selection(text, base, selected)
    ensures Selection(text, base, Improve(REANCHORED, text, base, selected))
  {
    hide EngineSound, Selection, Improve, Better;
    ImproveSound(REANCHORED, text, base, selected);
  }

  /** The first pass selects the list: what the forward scan left out of it is rescued. */
  lemma FirstPassReaches(text: string, base: nat, hold: nat, list: seq<Match>)
    requires EngineSound(ENGINE) && EngineSound(REANCHORED) && FinderSound(Find) && RescuerSound(RESCUER)
    requires base <= |text| && Listed(text, base, list) && NoneMissed(text, base, hold, list)
    ensures Selection(text, base, Greedy(Find, text, base))
    ensures FirstSelection(REANCHORED, text, base) == Greedy(Find, text, base)
    ensures Reached(text, base, hold, list, Improve(REANCHORED, text, base, Greedy(Find, text, base)))
  {
    hide EngineSound, FinderSound, RescuerSound, Selection, Greedy, Improve, FirstSelection, Find, GapsFrom,
      ScanRegions, RescueFound, Rooted, SameBelow, NoneMissed, NoneCutOff, Listed, Found;
    var first := Greedy(Find, text, base);
    StartsGreedily(text, base);
    FirstAreListed(text, base, hold, list);
    RescueFindsListed(text, base, hold, list, first);
    FoundParts(text, base, first);
    FirstIsRooted(text, base);
    RescuedIsRooted(text, base, first);
    ListedIsDisjoint(text, base, list);
    var rescued := RescueFound(REANCHORED, text, base, first);
    assert rescued + [] == rescued;
    AllListed(text, base, hold, list, first, rescued);
    MergesToList(text, base, hold, list, first);
    RootedImprove(text, base, first);
    SelectionImproves(text, base, first);
  }

  lemma AllListed(text: string, base: nat, hold: nat, list: seq<Match>, first: seq<Match>, rescued: seq<Match>)
    requires base <= |text| && Disjoint(list) && Within(list, base, |text|)
    requires FindsListed(list, first, base, |text|, hold, rescued)
    requires forall m :: m in first && m.start < hold ==> m in list
    ensures forall m :: m in first + rescued && m.start < hold ==> m in list
    ensures forall m :: m in list && m.start < hold ==> m in first + rescued
  {
  }

  lemma FirstIsRooted(text: string, base: nat)
    requires FinderSound(Find) && base <= |text|
    ensures Rooted(text, Greedy(Find, text, base))
  {
    hide Taken, FinderSound, Greedy;
    GreedyFinds(Find, text, base);
  }

  /** Every later pass leaves the values before `hold` as they are. */
  lemma LaterPassKeeps(text: string, base: nat, hold: nat, list: seq<Match>, selected: seq<Match>)
    requires EngineSound(ENGINE) && EngineSound(REANCHORED) && RescuerSound(RESCUER)
    requires base <= |text| && Standing(text, base, hold, list) && Reached(text, base, hold, list, selected)
    ensures Reached(text, base, hold, list, Improve(REANCHORED, text, base, selected))
  {
    hide EngineSound, RescuerSound, Selection, Improve, GapsFrom, ScanRegions, RescueFound, Rooted, SameBelow,
      NoneMissed, NoneCutOff, Listed, Found;
    var gaps := GapsFrom(selected, base, |text|);
    FoundParts(text, base, selected);
    GapsShowNothing(text, base, hold, list, selected, gaps);
    RescueShowsNothing(text, base, hold, list, selected);
    RescuedIsRooted(text, base, selected);
    ListedIsDisjoint(text, base, list);
    var rescued, scanned := RescueFound(REANCHORED, text, base, selected), ScanRegions(REANCHORED, text, gaps);
    NothingNewBelow(text, hold, list, selected, rescued, scanned);
    MergesToList(text, base, hold, list, selected);
    RootedImprove(text, base, selected);
    SelectionImproves(text, base, selected);
  }

  lemma NothingNewBelow(text: string, hold: nat, list: seq<Match>, selected: seq<Match>, rescued: seq<Match>,
      scanned: seq<Match>)
    requires SameBelow(selected, list, hold) && Rooted(text, rescued) && forall f :: f in rescued ==> hold <= f.start
    requires forall f :: f in scanned ==> hold <= f.start <= |text| && MayStart(text, f.start)
    ensures forall m :: m in selected + (rescued + scanned) && m.start < hold ==> m in list
    ensures forall m :: m in list && m.start < hold ==> m in selected + (rescued + scanned)
    ensures Rooted(text, rescued + scanned)
  {
    hide Taken, MayStart;
  }

  lemma {:induction false} PassesKeepReached(text: string, base: nat, hold: nat, list: seq<Match>,
      selected: seq<Match>, n: nat)
    requires EngineSound(ENGINE) && EngineSound(REANCHORED) && RescuerSound(RESCUER)
    requires base <= |text| && Standing(text, base, hold, list) && Reached(text, base, hold, list, selected)
    ensures Selection(text, base, selected)
    ensures Reached(text, base, hold, list, Passes(REANCHORED, text, base, selected, n))
    decreases n
  {
    hide EngineSound, RescuerSound, Selection, Improve, Rooted, SameBelow, Standing;
    OnePassOn(REANCHORED, text, base, selected, n);
    if n > 0 {
      LaterPassKeeps(text, base, hold, list, selected);
      PassesKeepReached(text, base, hold, list, Improve(REANCHORED, text, base, selected), n - 1);
    }
  }

  /** Where a list stands before `hold`, the values selected before `hold` are those of the list. */
  lemma SelectsWhatStands(text: string, base: nat, hold: nat, list: seq<Match>)
    requires EngineSound(ENGINE) && EngineSound(REANCHORED) && FinderSound(Find) && RescuerSound(RESCUER)
    requires base <= |text| && Standing(text, base, hold, list)
    ensures SameBelow(Selected(REANCHORED, text, base), list, hold)
    ensures Disjoint(list) && Spanning(list)
    ensures Selection(text, base, Selected(REANCHORED, text, base))
  {
    assert RESCUE_PASSES == 4;
    hide *;
    FirstPassReaches(text, base, hold, list);
    var first := Greedy(Find, text, base);
    SelectedIsPasses(REANCHORED, text, base);
    OnePassOn(REANCHORED, text, base, first, 4);
    PassesKeepReached(text, base, hold, list, Improve(REANCHORED, text, base, first), 3);
    ReachedHas(text, base, hold, list, Selected(REANCHORED, text, base));
  }

  lemma SelectedIsPasses(e: Engine, text: string, start: nat)
    requires EngineSound(e) && start <= |text|
    ensures Selection(text, start, FirstSelection(e, text, start))
    ensures Selected(e, text, start) == Passes(e, text, start, FirstSelection(e, text, start), RESCUE_PASSES)
  {
    hide EngineSound, Selection, FirstSelection, Improve;
    FirstSelectionSound(e, text, start);
  }

  lemma ReachedHas(text: string, base: nat, hold: nat, list: seq<Match>, selected: seq<Match>)
    requires base <= |text| && Standing(text, base, hold, list) && Reached(text, base, hold, list, selected)
    ensures SameBelow(selected, list, hold) && Selection(text, base, selected) && Disjoint(list) && Spanning(list)
  {
    ListedIsDisjoint(text, base, list);
  }

  /** With nothing held, what is selected is the list. */
  lemma SelectsExactly(text: string, base: nat, list: seq<Match>)
    requires EngineSound(ENGINE) && EngineSound(REANCHORED) && FinderSound(Find) && RescuerSound(RESCUER)
    requires base <= |text| && Standing(text, base, |text|, list)
    ensures Selected(REANCHORED, text, base) == list
  {
    hide EngineSound, FinderSound, RescuerSound, Selected, NoneMissed, NoneCutOff, SameBelow;
    SelectsWhatStands(text, base, |text|, list);
    SameBelowIsSame(Selected(REANCHORED, text, base), list, |text|);
  }
}
