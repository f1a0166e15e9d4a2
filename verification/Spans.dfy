/** Matches as spans of a text, the choice among overlapping ones, and the order in which choices improve. */
module Spans {

  datatype Match = Match(start: nat, end: nat, name: string)

  /** Every match covers something and lies in `[from, to]`. */
  predicate Within(found: seq<Match>, from: int, to: int) {
    forall i :: 0 <= i < |found| ==> from <= found[i].start < found[i].end <= to
  }

  predicate Spanning(found: seq<Match>) {
    forall i :: 0 <= i < |found| ==> found[i].start < found[i].end
  }

  /** In order, and no two overlapping. */
  predicate Disjoint(found: seq<Match>) {
    forall i, j :: 0 <= i < j < |found| ==> found[i].end <= found[j].start
  }

  predicate SameSpan(a: Match, b: Match) {
    a.start == b.start && a.end == b.end
  }

  /** The sort key of the resolver: earlier first, then longer first. */
  predicate NotAfter(a: Match, b: Match) {
    a.start < b.start || (a.start == b.start && a.end >= b.end)
  }

  predicate InOrder(found: seq<Match>) {
    forall i, j :: 0 <= i < j < |found| ==> NotAfter(found[i], found[j])
  }

  // ------------------------------------------------------------ stable sorting

  function Insert(m: Match, sorted: seq<Match>): (r: seq<Match>)
    ensures forall x :: x in r <==> x == m || x in sorted
    ensures |r| == |sorted| + 1
  {
    if sorted == [] then [m]
    else if NotAfter(m, sorted[0]) then [m] + sorted
    else [sorted[0]] + Insert(m, sorted[1..])
  }

  /** Python's `sorted` with that key: stable, so equal keys keep their order. */
  function Sort(found: seq<Match>): (r: seq<Match>)
    ensures forall x :: x in r <==> x in found
    ensures |r| == |found|
  {
    if found == [] then [] else Insert(found[0], Sort(found[1..]))
  }

  lemma {:induction false} InsertInOrder(m: Match, sorted: seq<Match>)
    requires InOrder(sorted)
    ensures InOrder(Insert(m, sorted))
  {
    if sorted != [] && !NotAfter(m, sorted[0]) {
      InsertInOrder(m, sorted[1..]);
      var rest := Insert(m, sorted[1..]);
      forall i | 0 <= i < |rest|
        ensures NotAfter(sorted[0], rest[i])
      {
        assert rest[i] in rest;
      }
    }
  }

  lemma {:induction false} SortInOrder(found: seq<Match>)
    ensures InOrder(Sort(found))
  {
    if found != [] {
      SortInOrder(found[1..]);
      InsertInOrder(found[0], Sort(found[1..]));
    }
  }

  // ---------------------------------------------------------------- resolution

  /** The sweep: keep a match if it starts at or after the end of the last one kept. */
  function Sweep(ordered: seq<Match>, cursor: int): seq<Match> {
    if ordered == [] then []
    else if ordered[0].start >= cursor then [ordered[0]] + Sweep(ordered[1..], ordered[0].end)
    else Sweep(ordered[1..], cursor)
  }

  function Resolve(found: seq<Match>): seq<Match> {
    Sweep(Sort(found), -1)
  }

  method ResolveOverlaps(found: seq<Match>) returns (disjoint: seq<Match>)
    ensures disjoint == Resolve(found)
  {
    var ordered := Sort(found);
    disjoint := [];
    var cursor: int := -1;
    for k := 0 to |ordered|
      invariant disjoint + Sweep(ordered[k..], cursor) == Sweep(ordered, -1)
    {
      assert ordered[k..][1..] == ordered[k + 1..];
      if ordered[k].start >= cursor {
        disjoint := disjoint + [ordered[k]];
        cursor := ordered[k].end;
      }
    }
    assert ordered[|ordered|..] == [];
  }

  /** `m` starts inside a kept match that the resolver prefers to it. */
  ghost predicate Yields(m: Match, kept: seq<Match>) {
    exists k :: 0 <= k < |kept| && kept[k].start <= m.start < kept[k].end && NotAfter(kept[k], m)
  }

  lemma {:induction false} SweepDisjoint(ordered: seq<Match>, cursor: int)
    requires Spanning(ordered)
    ensures forall m :: m in Sweep(ordered, cursor) ==> m in ordered && m.start >= cursor
    ensures Disjoint(Sweep(ordered, cursor))
  {
    if ordered != [] {
      var head, tail := ordered[0], ordered[1..];
      assert head in ordered;
      if head.start >= cursor {
        SweepDisjoint(tail, head.end);
        var rest := Sweep(tail, head.end);
        forall j | 0 <= j < |rest|
          ensures rest[j].start >= head.end
        {
          assert rest[j] in rest;
        }
      } else {
        SweepDisjoint(tail, cursor);
      }
    }
  }

  lemma YieldsAfter(m: Match, first: Match, rest: seq<Match>)
    requires Yields(m, rest)
    ensures Yields(m, [first] + rest)
  {
    var k :| 0 <= k < |rest| && rest[k].start <= m.start < rest[k].end && NotAfter(rest[k], m);
    assert ([first] + rest)[k + 1] == rest[k];
  }

  lemma {:induction false} SweepDrops(ordered: seq<Match>, cursor: int, m: Match)
    requires InOrder(ordered) && m in ordered
    ensures m in Sweep(ordered, cursor) || m.start < cursor || Yields(m, Sweep(ordered, cursor))
  {
    var head, tail := ordered[0], ordered[1..];
    assert m == head || m in tail;
    assert NotAfter(head, m);
    if head.start >= cursor {
      var rest := Sweep(tail, head.end);
      assert Sweep(ordered, cursor) == [head] + rest;
      if m == head {
        assert m in [head] + rest;
      } else if m.start < head.end {
        assert ([head] + rest)[0] == head;
      } else {
        SweepDrops(tail, head.end, m);
        if m !in rest {
          YieldsAfter(m, head, rest);
        }
      }
    } else if m != head {
      SweepDrops(tail, cursor, m);
    }
  }

  /**
   Resolution keeps sorted, pairwise disjoint matches out of those found, and every match it drops
   starts inside one it keeps, which is earlier or longer.
   */
  lemma ResolveSound(found: seq<Match>)
    requires Spanning(found)
    ensures
      var kept := Resolve(found);
      && Disjoint(kept)
      && (forall m :: m in kept ==> m in found)
      && (forall m :: m in found ==> m in kept || Yields(m, kept))
  {
    hide Sweep, Sort;
    var ordered := Sort(found);
    SortInOrder(found);
    SpanningMembers(found, ordered);
    SweepDisjoint(ordered, -1);
    forall m | m in found
      ensures m in Resolve(found) || Yields(m, Resolve(found))
    {
      SweepDrops(ordered, -1, m);
    }
  }

  lemma SpanningMembers(found: seq<Match>, part: seq<Match>)
    requires Spanning(found) && forall m :: m in part ==> m in found
    ensures Spanning(part)
  {
    forall i | 0 <= i < |part|
      ensures part[i].start < part[i].end
    {
      assert part[i] in part;
    }
  }

  // ---------------------------------------------- the order in which choices improve

  /** `a` is a better selection: at the first difference it is earlier, longer, or simply has more. */
  predicate Better(a: seq<Match>, b: seq<Match>) {
    if a == [] then false
    else if b == [] then true
    else if SameSpan(a[0], b[0]) then Better(a[1..], b[1..])
    else NotAfter(a[0], b[0])
  }

  predicate SameSpans(a: seq<Match>, b: seq<Match>) {
    |a| == |b| && forall i :: 0 <= i < |a| ==> SameSpan(a[i], b[i])
  }

  /** No disjoint selection from what was swept is better than what the sweep keeps. */
  lemma {:induction false} SweepIsBest(ordered: seq<Match>, cursor: int, other: seq<Match>)
    requires InOrder(ordered) && Disjoint(other) && Spanning(other)
    requires forall m :: m in other ==> m in ordered && m.start >= cursor
    ensures SameSpans(Sweep(ordered, cursor), other) || Better(Sweep(ordered, cursor), other)
  {
    assert other != [] ==> other[0] in other;
    if ordered != [] && other != [] {
      var head, tail := ordered[0], ordered[1..];
      var first, more := other[0], other[1..];
      assert first in other && NotAfter(head, first);
      if head.start < cursor {
        forall m | m in other
          ensures m in tail
        {
          assert m in ordered && m != head;
        }
        SweepIsBest(tail, cursor, other);
      } else if SameSpan(head, first) {
        forall m | m in more
          ensures m in tail && m.start >= head.end
        {
          assert m in other;
          assert m in ordered && m != head;
        }
        SweepIsBest(tail, head.end, more);
        SameSpansCons(head, Sweep(tail, head.end), first, more);
      }
    }
  }

  lemma SameSpansCons(a: Match, as_: seq<Match>, b: Match, bs: seq<Match>)
    requires SameSpan(a, b)
    ensures SameSpans(as_, bs) ==> SameSpans([a] + as_, [b] + bs)
    ensures Better(as_, bs) ==> Better([a] + as_, [b] + bs)
  {
    assert ([a] + as_)[1..] == as_ && ([b] + bs)[1..] == bs;
  }

  /** Resolution is the best disjoint selection: none made of the same matches improves on it. */
  lemma ResolveIsBest(found: seq<Match>, other: seq<Match>)
    requires Disjoint(other) && Spanning(other) && forall m :: m in other ==> m in found
    ensures SameSpans(Resolve(found), other) || Better(Resolve(found), other)
  {
    SortInOrder(found);
    SweepIsBest(Sort(found), -1, other);
  }

  /** A selection that is already sorted and disjoint is left as it is. */
  lemma {:induction false} ResolveDisjoint(found: seq<Match>)
    requires Disjoint(found) && Spanning(found)
    ensures Resolve(found) == found
  {
    SortSorted(found);
    SweepAll(found, -1);
  }

  lemma {:induction false} SortSorted(found: seq<Match>)
    requires Disjoint(found) && Spanning(found)
    ensures Sort(found) == found
  {
    if found != [] {
      SortSorted(found[1..]);
      assert |found| > 1 ==> NotAfter(found[0], found[1]);
    }
  }

  lemma {:induction false} SweepAll(found: seq<Match>, cursor: int)
    requires Disjoint(found) && (found != [] ==> found[0].start >= cursor)
    ensures Sweep(found, cursor) == found
  {
    if found != [] {
      SweepAll(found[1..], found[0].end);
    }
  }

  // ------------------------------------------------------- improvement is well-founded

  function Power(base: nat, exponent: nat): nat {
    if exponent == 0 then 1 else base * Power(base, exponent - 1)
  }

  /** Whether a sorted selection that starts no earlier than `p` has a span starting at `p`. */
  predicate StartsAt(spans: seq<Match>, p: nat) {
    spans != [] && spans[0].start == p
  }

  /** The characters left uncovered by the span starting at `p`, or the whole length if none does. */
  function Uncovered(spans: seq<Match>, p: nat, length: nat): (d: nat)
    requires Within(spans, p, length) && p < length
    ensures d <= length
  {
    if StartsAt(spans, p) then length - (spans[0].end - p) else length
  }

  function Beyond(spans: seq<Match>, p: nat): seq<Match> {
    if StartsAt(spans, p) then spans[1..] else spans
  }

  lemma BeyondFits(spans: seq<Match>, p: nat, length: nat)
    requires Disjoint(spans) && Within(spans, p, length) && p < length
    ensures Disjoint(Beyond(spans, p)) && Within(Beyond(spans, p), p + 1, length)
  {
  }

  function Place(digit: nat, unit: nat): nat {
    digit * unit
  }

  /** A selection read as a number, one digit a position, the first position weighing most. */
  function Rank(spans: seq<Match>, p: nat, length: nat): nat
    requires p <= length && Disjoint(spans) && Within(spans, p, length)
    decreases length - p
  {
    hide *;
    if p == length then 0
    else
      BeyondFits(spans, p, length);
      Place(Uncovered(spans, p, length), Power(length + 1, length - p - 1)) + Rank(Beyond(spans, p), p + 1, length)
  }

  lemma DigitAndRest(digit: nat, top: nat, unit: nat, rest: nat)
    requires digit <= top && rest < unit
    ensures Place(digit, unit) + rest < (top + 1) * unit
  {
    assert digit * unit <= top * unit;
  }

  lemma {:induction false} RankBounded(spans: seq<Match>, p: nat, length: nat)
    requires p <= length && Disjoint(spans) && Within(spans, p, length)
    ensures Rank(spans, p, length) < Power(length + 1, length - p)
    decreases length - p
  {
    if p < length {
      BeyondFits(spans, p, length);
      RankBounded(Beyond(spans, p), p + 1, length);
      DigitAndRest(Uncovered(spans, p, length), length, Power(length + 1, length - p - 1),
          Rank(Beyond(spans, p), p + 1, length));
    }
  }

  /** A better selection has a smaller rank, so selections cannot improve for ever. */
  lemma {:induction false} BetterRanksLower(a: seq<Match>, b: seq<Match>, p: nat, length: nat)
    requires p <= length && Disjoint(a) && Disjoint(b) && Within(a, p, length) && Within(b, p, length)
    requires Better(a, b)
    ensures Rank(a, p, length) < Rank(b, p, length)
    decreases length - p
  {
    hide *;
    BetterAtDigit(a, b, p, length);
    RankUnfolds(a, p, length);
    RankUnfolds(b, p, length);
    if Uncovered(a, p, length) == Uncovered(b, p, length) {
      BetterRanksLower(Beyond(a, p), Beyond(b, p), p + 1, length);
    }
    LowerNumber(Uncovered(a, p, length), Uncovered(b, p, length), Power(length + 1, length - p - 1),
                Rank(Beyond(a, p), p + 1, length), Rank(Beyond(b, p), p + 1, length));
  }

  lemma RankUnfolds(spans: seq<Match>, p: nat, length: nat)
    requires p < length && Disjoint(spans) && Within(spans, p, length)
    ensures Disjoint(Beyond(spans, p)) && Within(Beyond(spans, p), p + 1, length)
    ensures Rank(Beyond(spans, p), p + 1, length) < Power(length + 1, length - p - 1)
    ensures Rank(spans, p, length)
         == Place(Uncovered(spans, p, length), Power(length + 1, length - p - 1))
            + Rank(Beyond(spans, p), p + 1, length)
  {
    hide Power, Uncovered, Disjoint, Within;
    BeyondFits(spans, p, length);
    RankBounded(Beyond(spans, p), p + 1, length);
  }

  lemma LowerNumber(da: nat, db: nat, unit: nat, ra: nat, rb: nat)
    requires ra < unit && (da < db || (da == db && ra < rb))
    ensures Place(da, unit) + ra < Place(db, unit) + rb
  {
    if da < db {
      DigitAndRest(da, db - 1, unit, ra);
    }
  }

  /** A better selection has a smaller digit at a position, or the same digit and a better rest. */
  lemma BetterAtDigit(a: seq<Match>, b: seq<Match>, p: nat, length: nat)
    requires p <= length && Disjoint(a) && Disjoint(b) && Within(a, p, length) && Within(b, p, length)
    requires Better(a, b)
    ensures p < length
    ensures Uncovered(a, p, length) < Uncovered(b, p, length)
            || (Uncovered(a, p, length) == Uncovered(b, p, length) && Better(Beyond(a, p), Beyond(b, p)))
  {
    assert a != [] && p <= a[0].start < a[0].end <= length;
    assert b != [] ==> p <= b[0].start < b[0].end <= length;
  }
}
