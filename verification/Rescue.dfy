/**
 The rescue pass: numeric runs are re-examined at the positions where a value glued to other text
 could begin, outside whatever is already covered.
 */
module Rescue {
  import opened Wrappers
  import opened Spans
  import opened Validators
  import opened Scan

  datatype Region = Region(from: nat, to: nat)

  const MAX_STRAY_PREFIX := 3

  predicate In(p: int, region: Region) {
    region.from <= p < region.to
  }

  predicate InRegion(p: int, regions: seq<Region>) {
    exists k :: 0 <= k < |regions| && In(p, regions[k])
  }

  predicate Covers(m: Match, p: int) {
    m.start <= p < m.end
  }

  predicate Covered(p: int, spans: seq<Match>) {
    exists k :: 0 <= k < |spans| && Covers(spans[k], p)
  }

  /** Non-empty and in order, one ending before the next begins. */
  predicate Apart(regions: seq<Region>) {
    && (forall k :: 0 <= k < |regions| ==> regions[k].from < regions[k].to)
    && (forall j, k :: 0 <= j < k < |regions| ==> regions[j].to <= regions[k].from)
  }

  // ------------------------------------------------------------------- the gaps

  /** The regions between selected spans: exactly the positions no span covers, each in one region. */
  method Gaps(covered: seq<Match>, start: nat, end: nat) returns (gaps: seq<Region>)
    requires Disjoint(covered) && Within(covered, start, end) && start <= end
    ensures gaps == GapsFrom(covered, start, end)
    ensures Apart(gaps) && forall p :: InRegion(p, gaps) <==> start <= p < end && !Covered(p, covered)
  {
    GapsPartition(covered, start, end);
    hide Covered, InRegion;
    gaps := [];
    var cursor: nat := start;
    for k := 0 to |covered|
      invariant cursor <= end && forall j :: k <= j < |covered| ==> cursor <= covered[j].start
      invariant gaps + GapsFrom(covered[k..], cursor, end) == GapsFrom(covered, start, end)
    {
      assert covered[k..][1..] == covered[k + 1..];
      if covered[k].start > cursor {
        gaps := gaps + [Region(cursor, covered[k].start)];
      }
      cursor := Max(covered[k].end, cursor);
    }
    if cursor < end {
      gaps := gaps + [Region(cursor, end)];
    }
  }

  function Max(a: nat, b: nat): nat {
    if a > b then a else b
  }

  function GapsFrom(covered: seq<Match>, cursor: nat, end: nat): seq<Region> {
    if covered == [] then if cursor < end then [Region(cursor, end)] else []
    else
      (if covered[0].start > cursor then [Region(cursor, covered[0].start)] else [])
      + GapsFrom(covered[1..], Max(covered[0].end, cursor), end)
  }

  lemma {:induction false} GapsPartition(covered: seq<Match>, cursor: nat, end: nat)
    requires Disjoint(covered) && Within(covered, cursor, end) && cursor <= end
    ensures
      var gaps := GapsFrom(covered, cursor, end);
      && Apart(gaps)
      && (forall k :: 0 <= k < |gaps| ==> cursor <= gaps[k].from && gaps[k].to <= end)
      && (forall p :: InRegion(p, gaps) <==> cursor <= p < end && !Covered(p, covered))
  {
    if covered != [] {
      hide InRegion, Covered;
      var head, tail := covered[0], covered[1..];
      GapsPartition(tail, head.end, end);
      var rest := GapsFrom(tail, head.end, end);
      var first := if head.start > cursor then [Region(cursor, head.start)] else [];
      assert GapsFrom(covered, cursor, end) == first + rest && covered == [head] + tail;
      forall p
        ensures InRegion(p, first + rest) <==> cursor <= p < end && !Covered(p, covered)
      {
        RegionSplit(p, first, rest);
        OneRegion(p, cursor, head.start);
        CoveredSplit(p, head, tail);
      }
    } else {
      forall p
        ensures InRegion(p, GapsFrom(covered, cursor, end)) <==> cursor <= p < end
      {
        OneRegion(p, cursor, end);
      }
    }
  }

  lemma OneRegion(p: int, from: nat, to: nat)
    ensures InRegion(p, if from < to then [Region(from, to)] else []) <==> from <= p < to
  {
    assert [Region(from, to)][0] == Region(from, to);
    if from <= p < to {
      assert In(p, [Region(from, to)][0]);
    }
  }

  lemma RegionSplit(p: int, a: seq<Region>, b: seq<Region>)
    ensures InRegion(p, a + b) <==> InRegion(p, a) || InRegion(p, b)
  {
    var both := a + b;
    if InRegion(p, a) {
      var k :| 0 <= k < |a| && In(p, a[k]);
      assert both[k] == a[k];
    }
    if InRegion(p, b) {
      var k :| 0 <= k < |b| && In(p, b[k]);
      assert both[|a| + k] == b[k];
    }
  }

  lemma CoveredSplit(p: int, head: Match, tail: seq<Match>)
    ensures Covered(p, [head] + tail) <==> Covers(head, p) || Covered(p, tail)
  {
    var all := [head] + tail;
    if Covers(head, p) {
      assert all[0] == head;
    }
    if Covered(p, tail) {
      var k :| 0 <= k < |tail| && Covers(tail[k], p);
      assert all[k + 1] == tail[k];
    }
  }

  // -------------------------------------------------------------- numeric runs

  /** The maximal runs of characters one written number can consist of, from `index` on. */
  function NumericRuns(text: string, index: nat): seq<Region>
    requires index <= |text|
    decreases |text| - index
  {
    if index == |text| then []
    else if !IsRunChar(text[index]) then NumericRuns(text, index + 1)
    else [Region(index, RunEnd(text, index))] + NumericRuns(text, RunEnd(text, index))
  }

  function RunEnd(text: string, index: nat): (end: nat)
    requires index < |text| && IsRunChar(text[index])
    ensures index < end <= |text|
    ensures forall i :: index <= i < end ==> IsRunChar(text[i])
    ensures end < |text| ==> !IsRunChar(text[end])
    decreases |text| - index
  {
    if index + 1 < |text| && IsRunChar(text[index + 1]) then RunEnd(text, index + 1) else index + 1
  }

  method FindNumericRuns(text: string, start: nat) returns (runs: seq<Region>)
    requires start <= |text|
    ensures runs == NumericRuns(text, start)
  {
    runs := [];
    var index := start;
    while index < |text|
      invariant start <= index <= |text|
      invariant runs + NumericRuns(text, index) == NumericRuns(text, start)
    {
      if !IsRunChar(text[index]) {
        index := index + 1;
        continue;
      }
      var runStart := index;
      while index < |text| && IsRunChar(text[index])
        invariant runStart <= index <= |text|
        invariant forall i :: runStart <= i < index ==> IsRunChar(text[i])
      {
        index := index + 1;
      }
      assert index == RunEnd(text, runStart);
      runs := runs + [Region(runStart, index)];
    }
  }

  /** The runs of a text from `index` on: in order, in bounds, each ended by another character. */
  ghost predicate RunsOfText(text: string, index: nat, runs: seq<Region>) {
    && Apart(runs)
    && (forall k :: 0 <= k < |runs| ==> index <= runs[k].from && runs[k].to <= |text|)
    && (forall k :: 0 <= k < |runs| && runs[k].to < |text| ==> !IsRunChar(text[runs[k].to]))
  }

  lemma RunInFront(text: string, index: nat, end: nat, rest: seq<Region>)
    requires index < end <= |text| && RunsOfText(text, end, rest)
    requires end < |text| ==> !IsRunChar(text[end])
    requires forall i :: index <= i < end ==> IsRunChar(text[i])
    requires forall p :: end <= p < |text| ==> (IsRunChar(text[p]) <==> InRegion(p, rest))
    ensures RunsOfText(text, index, [Region(index, end)] + rest)
    ensures forall p :: index <= p < |text| ==> (IsRunChar(text[p]) <==> InRegion(p, [Region(index, end)] + rest))
  {
    hide InRegion, IsRunChar;
    forall p | index <= p < |text|
      ensures IsRunChar(text[p]) <==> InRegion(p, [Region(index, end)] + rest)
    {
      RegionSplit(p, [Region(index, end)], rest);
      OneRegion(p, index, end);
      NotBefore(p, rest, end);
    }
  }

  lemma {:induction false} RunsAreMaximal(text: string, index: nat)
    requires index <= |text|
    ensures RunsOfText(text, index, NumericRuns(text, index))
    ensures forall p :: index <= p < |text| ==> (IsRunChar(text[p]) <==> InRegion(p, NumericRuns(text, index)))
    decreases |text| - index
  {
    hide InRegion, IsRunChar, Apart;
    if index == |text| {
      NoRegions();
    } else if IsRunChar(text[index]) {
      var end := RunEnd(text, index);
      RunsAreMaximal(text, end);
      RunInFront(text, index, end, NumericRuns(text, end));
    } else {
      RunsAreMaximal(text, index + 1);
      NotBefore(index, NumericRuns(text, index + 1), index + 1);
    }
  }

  lemma NoRegions()
    ensures Apart([])
  {
  }

  lemma NotBefore(p: int, regions: seq<Region>, bound: nat)
    requires p < bound ==> forall k :: 0 <= k < |regions| ==> bound <= regions[k].from
    ensures p < bound ==> !InRegion(p, regions)
  {
  }

  // ---------------------------------------------------------------- candidates

  /** `p` lies one to three digits into a digit token of the run. */
  predicate AfterStrayDigits(text: string, run: Region, p: nat)
    requires run.from <= p < run.to <= |text|
  {
    exists o :: 1 <= o <= MAX_STRAY_PREFIX && TokenStart(text, run, p, o)
  }

  predicate TokenStart(text: string, run: Region, p: nat, o: nat)
    requires run.from <= p < run.to <= |text|
  {
    && run.from + o <= p
    && (forall i :: p - o <= i <= p ==> IsDigit(text[i]))
    && (p - o == run.from || !IsDigit(text[p - o - 1]))
  }

  predicate BareRun(text: string, run: Region)
    requires run.from <= run.to <= |text|
  {
    forall i :: run.from <= i < run.to ==> !IsSeparator(text[i])
  }

  /** Right after a separator, or where a first group of three or four digits ends at one. */
  predicate BySeparator(text: string, run: Region, p: nat)
    requires run.from <= p < run.to <= |text|
  {
    || (p > run.from && !IsDigit(text[p - 1]))
    || (p + 3 < run.to && !IsDigit(text[p + 3]))
    || (p + 4 < run.to && !IsDigit(text[p + 4]))
  }

  /** The positions of a run where a rescued value is looked for. */
  predicate Candidate(text: string, run: Region, p: nat)
    requires run.from <= p < run.to <= |text|
  {
    p == run.from || AfterStrayDigits(text, run, p) || BareRun(text, run) || BySeparator(text, run, p)
  }

  /** The candidates of a run from `p` on, ascending. */
  function CandidatesFrom(text: string, run: Region, p: nat): (c: seq<nat>)
    requires run.from <= p <= run.to <= |text|
    ensures forall k :: 0 <= k < |c| ==> p <= c[k] < run.to && Candidate(text, run, c[k])
    decreases run.to - p
  {
    if p == run.to then []
    else (if Candidate(text, run, p) then [p] else []) + CandidatesFrom(text, run, p + 1)
  }

  /** The candidate set as it is collected: tokens first, then every offset or the separators. */
  method RescueCandidates(text: string, run: Region) returns (sorted: seq<nat>)
    requires run.from < run.to <= |text|
    ensures sorted == CandidatesFrom(text, run, run.from)
  {
    var seen: set<nat> := {run.from};
    var strays := StrayOffsets(text, run);
    seen := seen + strays;
    if BareRun(text, run) {
      for p := run.from to run.to
        invariant forall q: nat :: q in seen <==>
                    q == run.from || q in strays || run.from <= q < p
      {
        seen := seen + {p};
      }
    } else {
      var anchored := SeparatorOffsets(text, run);
      seen := seen + anchored;
    }
    sorted := Ascending(text, run, seen);
  }

  method StrayOffsets(text: string, run: Region) returns (seen: set<nat>)
    requires run.from < run.to <= |text|
    ensures forall p: nat :: p in seen <==> run.from <= p < run.to && AfterStrayDigits(text, run, p)
  {
    seen := {};
    var index := run.from;
    while index < run.to
      invariant run.from <= index <= run.to
      invariant index == run.from || index == run.to || !IsDigit(text[index]) || !IsDigit(text[index - 1])
      invariant forall p: nat :: p in seen <==> run.from <= p < index && AfterStrayDigits(text, run, p)
    {
      if !IsDigit(text[index]) {
        NoStrayAt(text, run, index);
        index := index + 1;
        continue;
      }
      var tokenStart := index;
      while index < run.to && IsDigit(text[index])
        invariant tokenStart <= index <= run.to
        invariant forall i :: tokenStart <= i < index ==> IsDigit(text[i])
      {
        index := index + 1;
      }
      ghost var before := seen;
      for o := 1 to MAX_STRAY_PREFIX + 1
        invariant forall p: nat :: p in seen <==>
                    p in before || (tokenStart < p < tokenStart + o && p < index)
      {
        if tokenStart + o < index {
          seen := seen + {tokenStart + o};
        }
      }
      forall p: nat | tokenStart <= p < index
        ensures AfterStrayDigits(text, run, p) <==> tokenStart < p <= tokenStart + MAX_STRAY_PREFIX
      {
        StraysInToken(text, run, tokenStart, p);
      }
    }
  }

  lemma NoStrayAt(text: string, run: Region, p: nat)
    requires run.from <= p < run.to <= |text| && !IsDigit(text[p])
    ensures !AfterStrayDigits(text, run, p)
  {
  }

  lemma OneTokenStart(text: string, run: Region, tokenStart: nat, p: nat, o: nat)
    requires run.from <= tokenStart <= p < run.to <= |text| && TokenStart(text, run, p, o)
    requires forall i :: tokenStart <= i <= p ==> IsDigit(text[i])
    requires tokenStart == run.from || !IsDigit(text[tokenStart - 1])
    ensures p - o == tokenStart
  {
  }

  lemma StraysInToken(text: string, run: Region, tokenStart: nat, p: nat)
    requires run.from <= tokenStart <= p < run.to <= |text|
    requires forall i :: tokenStart <= i <= p ==> IsDigit(text[i])
    requires tokenStart == run.from || !IsDigit(text[tokenStart - 1])
    ensures AfterStrayDigits(text, run, p) <==> tokenStart < p <= tokenStart + MAX_STRAY_PREFIX
  {
    if tokenStart < p <= tokenStart + MAX_STRAY_PREFIX {
      assert TokenStart(text, run, p, p - tokenStart);
    }
    if AfterStrayDigits(text, run, p) {
      var o :| 1 <= o <= MAX_STRAY_PREFIX && TokenStart(text, run, p, o);
      OneTokenStart(text, run, tokenStart, p, o);
    }
  }

  method SeparatorOffsets(text: string, run: Region) returns (seen: set<nat>)
    requires run.from < run.to <= |text|
    ensures forall p: nat :: p in seen <==> run.from <= p < run.to && BySeparator(text, run, p)
  {
    seen := {};
    for index := run.from to run.to
      invariant forall p: nat :: p in seen <==>
                  && run.from <= p < run.to
                  && (|| (run.from < p <= index && !IsDigit(text[p - 1]))
                      || (p + 3 < index && !IsDigit(text[p + 3]))
                      || (p + 4 < index && !IsDigit(text[p + 4])))
    {
      if IsDigit(text[index]) {
        continue;
      }
      if index + 1 < run.to {
        seen := seen + {index + 1};
      }
      if index >= run.from + 3 {
        seen := seen + {index - 3};
      }
      if index >= run.from + 4 {
        seen := seen + {index - 4};
      }
    }
  }

  /** Python's `sorted(seen)` for offsets inside the run. */
  method Ascending(text: string, run: Region, seen: set<nat>) returns (sorted: seq<nat>)
    requires run.from < run.to <= |text|
    requires forall p: nat :: p in seen <==> run.from <= p < run.to && Candidate(text, run, p)
    ensures sorted == CandidatesFrom(text, run, run.from)
  {
    hide Candidate;
    sorted := [];
    for p := run.from to run.to
      invariant sorted + CandidatesFrom(text, run, p) == CandidatesFrom(text, run, run.from)
    {
      if p in seen {
        sorted := sorted + [p];
      }
    }
  }

  // --------------------------------------------------------- the coverage test

  /** Python's `bisect_right` on an ascending list. */
  function BisectRight(starts: seq<nat>, x: nat): (k: nat)
    ensures k <= |starts|
    ensures k > 0 ==> starts[k - 1] <= x
    ensures k < |starts| ==> starts[k] > x
  {
    if starts == [] || starts[0] > x then 0 else 1 + BisectRight(starts[1..], x)
  }

  /** Whether a position is taken, by binary search over the starts of the covered spans. */
  predicate TakenByBisect(covered: seq<Match>, p: nat) {
    var index := BisectRight(seq(|covered|, i requires 0 <= i < |covered| => covered[i].start), p);
    index > 0 && p < covered[index - 1].end
  }

  /** On sorted, disjoint spans the search agrees with looking at every one of them. */
  lemma BisectIsMembership(covered: seq<Match>, p: nat)
    requires Disjoint(covered) && Spanning(covered)
    ensures TakenByBisect(covered, p) <==> Covered(p, covered)
  {
    var starts := seq(|covered|, i requires 0 <= i < |covered| => covered[i].start);
    var index := BisectRight(starts, p);
    assert forall i :: 0 <= i < |covered| ==> starts[i] == covered[i].start;
    hide BisectRight;
    if Covered(p, covered) {
      var k :| 0 <= k < |covered| && Covers(covered[k], p);
      AtMostOneCovers(covered, k, index - 1, p);
    }
  }

  /** The last span starting at or before `p` is the only one that can cover it. */
  lemma AtMostOneCovers(covered: seq<Match>, k: nat, last: int, p: nat)
    requires Disjoint(covered) && Spanning(covered) && k < |covered| && Covers(covered[k], p)
    requires -1 <= last < |covered| && (last >= 0 ==> covered[last].start <= p)
    requires last + 1 < |covered| ==> covered[last + 1].start > p
    ensures k == last
  {
  }

  // --------------------------------------------------------------- re-anchoring

  function LeadingDigits(s: string): (n: nat)
    ensures n <= |s|
  {
    if s == "" || !IsDigit(s[0]) then 0 else 1 + LeadingDigits(s[1..])
  }

  function RescueAt(r: Rescuer, text: string, p: nat): Option<Match>
    requires p <= |text| && FullSound(r.full)
    requires r.at(text, p).Some? ==> r.at(text, p).value.start == p < r.at(text, p).value.end <= |text|
  {
    match r.at(text, p)
    case None => None
    case Some(m) =>
      var valid := if Accepts(text, m) then Some(m) else Shorter(r.full, text, p, m.end);
      match valid
      case None => None
      case Some(v) =>
        ShorterKeeps(r, text, p, m, v);
        var value := text[v.start..v.end];
        var grouped := HasSeparator(value);
        var midDigits := p > 0 && IsDigit(text[p - 1]);
        var afterSeparator := p > 0 && IsSeparator(text[p - 1]);
        if grouped && v.name == "credit_card" && midDigits && LeadingDigits(value) < 4 then None
        else if !grouped && !afterSeparator && CardScheme(DigitsOf(value)).None? then None
        else Some(v)
  }

  lemma ShorterKeeps(r: Rescuer, text: string, p: nat, m: Match, v: Match)
    requires FullSound(r.full) && m.start == p < m.end <= |text|
    requires (if Accepts(text, m) then Some(m) else Shorter(r.full, text, p, m.end)) == Some(v)
    ensures v.start == p < v.end <= m.end && Accepts(text, v)
  {
    if !Accepts(text, m) {
      ShorterSound(r.full, text, p, m.end);
    }
  }

  /**
   What re-anchoring accepts: a validated value; a bare one only after a separator or with a scheme, and
   a grouped card right behind a digit only if its first group has at least four digits.
   */
  lemma RescueAtSound(r: Rescuer, text: string, p: nat)
    requires p <= |text| && FullSound(r.full)
    requires r.at(text, p).Some? ==> r.at(text, p).value.start == p < r.at(text, p).value.end <= |text|
    requires RescueAt(r, text, p).Some?
    ensures
      var v := RescueAt(r, text, p).value;
      && v.start == p < v.end <= |text| && Accepts(text, v)
      && (|| HasSeparator(text[v.start..v.end])
          || (p > 0 && IsSeparator(text[p - 1]))
          || CardScheme(DigitsOf(text[v.start..v.end])).Some?)
      && (HasSeparator(text[v.start..v.end]) && v.name == "credit_card" && p > 0 && IsDigit(text[p - 1]) ==>
            LeadingDigits(text[v.start..v.end]) >= 4)
  {
    hide Accepts, HasSeparator, CardScheme, Shorter;
    var m := r.at(text, p).value;
    var v := RescueAt(r, text, p).value;
    ShorterKeeps(r, text, p, m, v);
  }

  /** The candidates of one run, left to right, past what is covered and past what was just found. */
  function RescueRun(r: Rescuer, text: string, candidates: seq<nat>, cursor: nat, covered: seq<Match>): seq<Match>
    requires RescuerSound(r) && forall k :: 0 <= k < |candidates| ==> candidates[k] <= |text|
  {
    if candidates == [] then []
    else
      var p := candidates[0];
      if p < cursor || Covered(p, covered) || RescueAt(r, text, p).None?
      then RescueRun(r, text, candidates[1..], cursor, covered)
      else [RescueAt(r, text, p).value] + RescueRun(r, text, candidates[1..], RescueAt(r, text, p).value.end, covered)
  }

  ghost predicate RescuerSound(r: Rescuer) {
    && FullSound(r.full)
    && forall text: string, p: nat :: p <= |text| && r.at(text, p).Some? ==>
         r.at(text, p).value.start == p < r.at(text, p).value.end <= |text|
  }

  function RescueRuns(r: Rescuer, text: string, runs: seq<Region>, covered: seq<Match>): seq<Match>
    requires RescuerSound(r) && forall k :: 0 <= k < |runs| ==> runs[k].from <= runs[k].to <= |text|
  {
    if runs == [] then []
    else RescueRun(r, text, CandidatesFrom(text, runs[0], runs[0].from), 0, covered) +
         RescueRuns(r, text, runs[1..], covered)
  }

  function RescueFound(e: Engine, text: string, start: nat, covered: seq<Match>): seq<Match>
    requires EngineSound(e) && start <= |text|
  {
    match e.rescue
    case None => []
    case Some(r) =>
      RunsAreMaximal(text, start);
      RescueRuns(r, text, NumericRuns(text, start), covered)
  }

  method RescueMatches(e: Engine, text: string, start: nat, covered: seq<Match>) returns (found: seq<Match>)
    requires EngineSound(e) && start <= |text| && Disjoint(covered) && Spanning(covered)
    ensures found == RescueFound(e, text, start, covered)
  {
    if e.rescue.None? {
      return [];
    }
    hide Candidate, RescueAt, IsRunChar;
    var r := e.rescue.value;
    found := [];
    var runs := FindNumericRuns(text, start);
    RunsAreMaximal(text, start);
    for k := 0 to |runs|
      invariant found + RescueRuns(r, text, runs[k..], covered) == RescueRuns(r, text, runs, covered)
    {
      assert runs[k..][1..] == runs[k + 1..];
      var inRun := RescueOneRun(r, text, runs[k], covered);
      found := found + inRun;
    }
  }

  method RescueOneRun(r: Rescuer, text: string, run: Region, covered: seq<Match>) returns (found: seq<Match>)
    requires RescuerSound(r) && run.from < run.to <= |text| && Disjoint(covered) && Spanning(covered)
    ensures found == RescueRun(r, text, CandidatesFrom(text, run, run.from), 0, covered)
  {
    hide RescueAt, CandidatesFrom, TakenByBisect, Covered;
    var candidates := RescueCandidates(text, run);
    found := [];
    var cursor: nat := 0;
    for k := 0 to |candidates|
      invariant found + RescueRun(r, text, candidates[k..], cursor, covered)
           == RescueRun(r, text, candidates, 0, covered)
    {
      assert candidates[k..][1..] == candidates[k + 1..];
      var p := candidates[k];
      if p < cursor {
        continue;
      }
      BisectIsMembership(covered, p);
      if TakenByBisect(covered, p) {
        continue;
      }
      var m := RescueAt(r, text, p);
      if m.None? {
        continue;
      }
      found := found + [m.value];
      RescueAtEnds(r, text, p);
      cursor := m.value.end;
    }
  }

  lemma RescueAtEnds(r: Rescuer, text: string, p: nat)
    requires RescuerSound(r) && p <= |text| && RescueAt(r, text, p).Some?
    ensures RescueAt(r, text, p).value.end <= |text|
  {
    RescueAtSound(r, text, p);
  }
}
