/**
 Chunk invariance: for a scanner that looks back no further than the carried context, and whose hold
 index is sound, a stream's output does not depend on how it was cut.

 Such a scanner is given by a `Finder`: what, if anything, is selected exactly at a position. That it
 is the redactor's is assumed of the pieces of the one text that is streamed, and of no other.
 */
module ChunkInvariance {
  import opened Wrappers
  import opened Spans
  import opened Scan
  import opened Rescue
  import opened FixedPoint
  import opened Redactor
  import opened Streaming

  /** The validated value selected at a position, when nothing to its left is in the way. */
  type Finder = (string, nat) -> Option<Match>

  ghost predicate FinderSound(find: Finder) {
    forall text: string, i: nat :: find(text, i).Some? ==>
      find(text, i).value.start == i < find(text, i).value.end <= |text|
  }

  /** Leftmost first: take what is found at a position and go on behind it. */
  function Greedy(find: Finder, text: string, from: nat): seq<Match>
    requires FinderSound(find)
    decreases |text| - from
  {
    if from >= |text| then []
    else match find(text, from)
      case None => Greedy(find, text, from + 1)
      case Some(m) => [m] + Greedy(find, text, m.end)
  }

  /** The same answer, `d` places further right. */
  predicate SameAt(a: Option<Match>, b: Option<Match>, d: nat) {
    match (a, b)
    case (None, None) => true
    case (Some(m), Some(n)) => m == Match(n.start + d, n.end + d, n.name)
    case _ => false
  }

  /** With the context to its left, a position is judged as it is in the whole text. */
  ghost predicate LooksBackAtMostContext(find: Finder) {
    forall before: string, text: string, i: nat :: CONTEXT_CHARS <= i <= |text| ==>
      SameAt(find(before + text, |before| + i), find(text, i), |before|)
  }

  /** No continuation of the text changes what is found before the hold index. */
  ghost predicate HoldSound(s: Settings, find: Finder) {
    forall text: string, base: nat, more: string, i: nat ::
      base <= |text| && base <= i < HoldbackIndex(s, text, base) ==> find(text + more, i) == find(text, i)
  }

  /** `text` is a piece of `whole` a redactor can be looking at: what is left of it is out of sight. */
  predicate Piece(whole: string, before: string, text: string, after: string, base: nat) {
    && whole == before + text + after
    && base <= |text| && base <= CONTEXT_CHARS && (before == "" || base == CONTEXT_CHARS)
  }

  /** No value selected in all of the text lies on both sides of a position. */
  ghost predicate Unsplit(find: Finder, whole: string, p: nat)
    requires FinderSound(find)
  {
    forall m :: m in Greedy(find, whole, 0) ==> !(m.start < p < m.end)
  }

  /** Up to where the text is released, two selections agree, and so release it up to the same point. */
  predicate ReleasedAlike(a: seq<Match>, b: seq<Match>, hold: nat) {
    PushPast(a, hold) == PushPast(b, hold) && UpTo(a, PushPast(b, hold)) == UpTo(b, PushPast(b, hold))
  }

  /**
   In every such piece that splits no value, the redactor's selection is the leftmost-first one as far
   as it is released, and all of it where the text ends. What is held may be selected differently.
   */
  ghost predicate ScansAs(s: Settings, find: Finder, whole: string)
    requires EngineSound(s.engine) && FinderSound(find)
  {
    forall before: string, text: string, after: string, base: nat ::
      Piece(whole, before, text, after, base) && Unsplit(find, whole, |before| + base) ==>
        var chosen, spans := Selected(s.engine, text, base), Greedy(find, text, base);
        ReleasedAlike(chosen, spans, HoldbackIndex(s, text, base)) && (after == "" ==> chosen == spans)
  }

  /** Everything the theorem assumes of a redactor, a finder and a text. */
  ghost predicate Streamable(s: Settings, find: Finder, whole: string) {
    && EngineSound(s.engine) && FinderSound(find) && LooksBackAtMostContext(find)
    && HoldSound(s, find) && ScansAs(s, find, whole)
  }

  // ----------------------------------------------------------- greedy selections

  lemma {:induction false} GreedySound(find: Finder, text: string, from: nat)
    requires FinderSound(find) && from <= |text|
    ensures Fits(Greedy(find, text, from), from, |text| - from)
    decreases |text| - from
  {
    if from < |text| {
      var m := find(text, from);
      GreedySound(find, text, if m.Some? then m.value.end else from + 1);
      if m.None? {
        FitsEarlier(Greedy(find, text, from + 1), from, from + 1, |text|);
      }
    }
  }

  lemma FitsEarlier(spans: seq<Match>, a: int, b: int, end: int)
    requires a <= b && Fits(spans, b, end - b)
    ensures Fits(spans, a, end - a)
  {
  }

  /** The first of a greedy selection: nothing before it, and the rest goes on behind it. */
  lemma {:induction false} GreedyFirst(find: Finder, text: string, from: nat)
    requires FinderSound(find) && from <= |text|
    ensures
      var spans := Greedy(find, text, from);
      if spans == [] then forall i :: from <= i <= |text| ==> find(text, i).None?
      else
        && from <= spans[0].start < spans[0].end <= |text|
        && find(text, spans[0].start) == Some(spans[0]) && spans[1..] == Greedy(find, text, spans[0].end)
        && forall i :: from <= i < spans[0].start ==> find(text, i).None?
    decreases |text| - from
  {
    if from < |text| && find(text, from).None? {
      GreedyFirst(find, text, from + 1);
    }
  }

  /** What is selected is what is found where it starts. */
  lemma {:induction false} GreedyFinds(find: Finder, text: string, from: nat)
    requires FinderSound(find) && from <= |text|
    ensures forall m :: m in Greedy(find, text, from) ==>
              from <= m.start < m.end <= |text| && find(text, m.start) == Some(m)
    decreases |text| - from
  {
    hide Greedy, FinderSound;
    GreedyFirst(find, text, from);
    var spans := Greedy(find, text, from);
    if spans != [] {
      GreedyFinds(find, text, spans[0].end);
      assert forall m :: m in spans ==> m == spans[0] || m in spans[1..];
    }
  }

  /** Nothing is found where a greedy selection left off: it would have been taken. */
  lemma {:induction false} UncoveredIsNotFound(find: Finder, text: string, from: nat, p: nat)
    requires FinderSound(find) && from <= p <= |text| && !Covered(p, Greedy(find, text, from))
    ensures find(text, p).None?
    decreases |text| - from
  {
    hide FinderSound, Covered, Greedy;
    GreedyFirst(find, text, from);
    var spans := Greedy(find, text, from);
    if spans != [] && p >= spans[0].start {
      NotCoveredByFirst(p, spans);
      UncoveredIsNotFound(find, text, spans[0].end, p);
    }
  }

  lemma NotCoveredByFirst(p: int, spans: seq<Match>)
    requires spans != [] && spans[0].start <= p && !Covered(p, spans)
    ensures spans[0].end <= p && !Covered(p, spans[1..])
  {
    CoveredSplit(p, spans[0], spans[1..]);
    assert spans == [spans[0]] + spans[1..];
  }

  /** From a position that splits no value, the same values are selected again. */
  lemma {:induction false} GreedyBehind(find: Finder, text: string, from: nat, at: nat)
    requires FinderSound(find) && from <= at <= |text|
    requires forall m :: m in Greedy(find, text, from) ==> !(m.start < at < m.end)
    ensures forall m :: m in Greedy(find, text, from) && at <= m.start ==> m in Greedy(find, text, at)
    decreases at - from
  {
    hide FinderSound, Greedy;
    if from < at {
      if find(text, from).None? {
        GreedyNone(find, text, from);
        GreedyBehind(find, text, from + 1, at);
      } else {
        GreedyTakes(find, text, from);
        var first := find(text, from).value;
        var rest := Greedy(find, text, first.end);
        assert first == ([first] + rest)[0];
        GreedyFinds(find, text, from);
        assert forall m :: m in [first] + rest <==> m == first || m in rest;
        GreedyBehind(find, text, first.end, at);
      }
    }
  }

  // ------------------------------------------------- selections that are released alike

  /** Two selections have the same values starting before a position. */
  ghost predicate SameBelow(a: seq<Match>, b: seq<Match>, hold: nat) {
    forall m: Match :: m.start < hold ==> (m in a <==> m in b)
  }

  lemma SameFirst(a: seq<Match>, b: seq<Match>, hold: nat)
    requires Disjoint(a) && Spanning(a) && Disjoint(b) && Spanning(b) && SameBelow(a, b, hold)
    requires a != [] && a[0].start < hold
    ensures b != [] && b[0] == a[0] && SameBelow(a[1..], b[1..], hold)
  {
    assert a[0] in b;
    assert b[0] in a;
    forall m: Match | m.start < hold
      ensures m in a[1..] <==> m in b[1..]
    {
      assert (m in a <==> m == a[0] || m in a[1..]) && (m in b <==> m == b[0] || m in b[1..]);
      assert a[0] !in a[1..] && b[0] !in b[1..];
    }
  }

  lemma NoneToMatch(a: seq<Match>, b: seq<Match>, hold: nat)
    requires Disjoint(a) && Spanning(a) && SameBelow(a, b, hold) && (a == [] || hold <= a[0].start)
    ensures b == [] || hold <= b[0].start
  {
    assert b != [] ==> b[0] in b;
  }

  lemma NoneBelow(a: seq<Match>, hold: nat)
    requires Disjoint(a) && Spanning(a) && (a == [] || hold <= a[0].start)
    ensures PushPast(a, hold) == hold && UpTo(a, hold) == []
  {
    PushPastStays(a, hold);
  }

  /** Selections that agree before the hold index are released alike. */
  lemma {:induction false} SameBelowIsReleasedAlike(a: seq<Match>, b: seq<Match>, hold: nat)
    requires Disjoint(a) && Spanning(a) && Disjoint(b) && Spanning(b) && SameBelow(a, b, hold)
    ensures ReleasedAlike(a, b, hold)
  {
    if a != [] && a[0].start < hold {
      SameFirst(a, b, hold);
      hide SameBelow;
      if a[0].end <= hold {
        SameBelowIsReleasedAlike(a[1..], b[1..], hold);
        PushPastGrows(b[1..], hold);
      } else {
        NoneBelow(a[1..], a[0].end);
        NoneBelow(b[1..], a[0].end);
      }
    } else {
      NoneToMatch(a, b, hold);
      NoneBelow(a, hold);
      NoneBelow(b, hold);
    }
  }

  lemma {:induction false} SameBelowIsSame(a: seq<Match>, b: seq<Match>, length: nat)
    requires Disjoint(a) && Disjoint(b) && Within(a, 0, length) && Within(b, 0, length) && SameBelow(a, b, length)
    ensures a == b
  {
    hide SameBelow;
    if a == [] {
      NoneToMatch(a, b, length);
      assert b == [];
    } else {
      SameFirst(a, b, length);
      SameBelowIsSame(a[1..], b[1..], length);
      assert a == [a[0]] + a[1..];
    }
  }

  /** A value that ends before the hold index is released. */
  lemma CutsFirst(m: Match, tail: seq<Match>, hold: nat)
    requires m.end <= hold
    ensures PushPast([m] + tail, hold) == PushPast(tail, hold) >= hold
    ensures UpTo([m] + tail, PushPast(tail, hold)) == [m] + UpTo(tail, PushPast(tail, hold))
  {
    assert ([m] + tail)[1..] == tail;
    PushPastGrows(tail, hold);
  }

  /** One that reaches over the hold index is the last to be released. */
  lemma CutsBehind(m: Match, tail: seq<Match>, hold: nat, length: nat)
    requires m.start < hold < m.end <= length && Fits(tail, m.end, length - m.end)
    ensures PushPast([m] + tail, hold) == m.end && UpTo([m] + tail, m.end) == [m]
  {
    assert ([m] + tail)[1..] == tail;
    FitsIsDisjoint(tail, m.end, length - m.end);
    NoneBelow(tail, m.end);
  }

  lemma CutsNothing(spans: seq<Match>, hold: nat, length: nat)
    requires hold <= length && Fits(spans, hold, length - hold)
    ensures PushPast(spans, hold) == hold && UpTo(spans, hold) == []
  {
    FitsIsDisjoint(spans, hold, length - hold);
    NoneBelow(spans, hold);
  }

  lemma InFront(m: Match, a: seq<Match>, b: seq<Match>)
    ensures [m] + (a + b) == ([m] + a) + b && [m] + b == ([m] + []) + b && [] + b == b
  {
  }

  /**
   Cutting a selection where the emission cuts it. If no position before `hold` is judged differently
   in the longer text, the longer text's selection is what is released now, and then the selection
   from the release point.
   */
  lemma {:induction false} GreedyCut(find: Finder, text: string, more: string, from: nat, hold: nat)
    requires FinderSound(find) && from <= hold <= |text|
    requires forall i :: from <= i < hold ==> find(text + more, i) == find(text, i)
    ensures
      var spans := Greedy(find, text, from);
      var release := PushPast(spans, hold);
      && from <= release <= |text|
      && Greedy(find, text + more, from) == UpTo(spans, release) + Greedy(find, text + more, release)
    decreases hold - from
  {
    hide *;
    if from == hold {
      GreedySound(find, text, from);
      CutsNothing(Greedy(find, text, from), hold, |text|);
      InFront(Match(0, 0, ""), [], Greedy(find, text + more, hold));
    } else if find(text, from).None? {
      GreedyNone(find, text, from);
      GreedyNone(find, text + more, from);
      GreedyCut(find, text, more, from + 1, hold);
    } else {
      GreedyTakes(find, text, from);
      GreedyTakes(find, text + more, from);
      var m := find(text, from).value;
      var tail := Greedy(find, text, m.end);
      if m.end <= hold {
        GreedyCut(find, text, more, m.end, hold);
        CutsFirst(m, tail, hold);
        InFront(m, UpTo(tail, PushPast(tail, hold)), Greedy(find, text + more, PushPast(tail, hold)));
      } else {
        GreedySound(find, text, m.end);
        CutsBehind(m, tail, hold, |text|);
      }
    }
  }

  lemma {:induction false} PushPastGrows(spans: seq<Match>, hold: nat)
    ensures PushPast(spans, hold) >= hold
  {
    if spans != [] {
      PushPastGrows(spans[1..], if spans[0].start < hold < spans[0].end then spans[0].end else hold);
    }
  }

  lemma JudgedAlike(find: Finder, before: string, text: string, i: nat)
    requires LooksBackAtMostContext(find) && CONTEXT_CHARS <= i <= |text|
    ensures SameAt(find(before + text, |before| + i), find(text, i), |before|)
  {
  }

  lemma GreedyNone(find: Finder, text: string, i: nat)
    requires FinderSound(find) && i < |text| && find(text, i).None?
    ensures Greedy(find, text, i) == Greedy(find, text, i + 1)
  {
  }

  lemma GreedyTakes(find: Finder, text: string, i: nat)
    requires FinderSound(find) && i < |text| && find(text, i).Some?
    ensures find(text, i).value.start == i < find(text, i).value.end <= |text|
    ensures Greedy(find, text, i) == [find(text, i).value] + Greedy(find, text, find(text, i).value.end)
  {
  }

  lemma MovedFirst(m: Match, rest: seq<Match>, d: nat)
    ensures Moved([m] + rest, d) == [Match(m.start + d, m.end + d, m.name)] + Moved(rest, d)
  {
    assert ([m] + rest)[1..] == rest;
  }

  /** Text further left than the context moves a selection and changes nothing else. */
  lemma {:induction false} GreedyMoved(find: Finder, before: string, text: string, from: nat)
    requires FinderSound(find) && LooksBackAtMostContext(find) && from <= |text|
    requires before == "" || from >= CONTEXT_CHARS
    ensures Greedy(find, before + text, |before| + from) == Moved(Greedy(find, text, from), |before|)
    decreases |text| - from
  {
    hide *;
    if before == "" || from == |text| {
      MovedTrivially(find, before, text, from);
    } else {
      JudgedAlike(find, before, text, from);
      if find(text, from).None? {
        GreedyMoved(find, before, text, from + 1);
        MovedOn(find, before, text, from);
      } else {
        GreedyTakes(find, text, from);
        GreedyMoved(find, before, text, find(text, from).value.end);
        MovedTaken(find, before, text, from, find(text, from).value);
      }
    }
  }

  lemma MovedTrivially(find: Finder, before: string, text: string, from: nat)
    requires FinderSound(find) && from <= |text| && (before == "" || from == |text|)
    ensures Greedy(find, before + text, |before| + from) == Moved(Greedy(find, text, from), |before|)
  {
    if before == "" {
      assert before + text == text;
      MovedNowhere(Greedy(find, text, from));
    }
  }

  lemma MovedOn(find: Finder, before: string, text: string, from: nat)
    requires FinderSound(find) && from < |text|
    requires SameAt(find(before + text, |before| + from), find(text, from), |before|) && find(text, from).None?
    requires Greedy(find, before + text, |before| + (from + 1)) == Moved(Greedy(find, text, from + 1), |before|)
    ensures Greedy(find, before + text, |before| + from) == Moved(Greedy(find, text, from), |before|)
  {
    hide Moved, FinderSound, Greedy;
    GreedyNone(find, text, from);
    GreedyNone(find, before + text, |before| + from);
  }

  lemma MovedTaken(find: Finder, before: string, text: string, from: nat, m: Match)
    requires FinderSound(find) && from < |text|
    requires SameAt(find(before + text, |before| + from), find(text, from), |before|) && find(text, from) == Some(m)
    requires from < m.end <= |text|
    requires Greedy(find, before + text, |before| + m.end) == Moved(Greedy(find, text, m.end), |before|)
    ensures Greedy(find, before + text, |before| + from) == Moved(Greedy(find, text, from), |before|)
  {
    hide Moved, FinderSound, Greedy;
    GreedyTakes(find, text, from);
    GreedyTakes(find, before + text, |before| + from);
    MovedFirst(m, Greedy(find, text, m.end), |before|);
  }

  lemma {:induction false} MovedNowhere(spans: seq<Match>)
    ensures Moved(spans, 0) == spans
  {
    if spans != [] {
      MovedNowhere(spans[1..]);
    }
  }

  lemma {:induction false} MovedConcat(a: seq<Match>, b: seq<Match>, d: nat)
    ensures Moved(a + b, d) == Moved(a, d) + Moved(b, d)
  {
    hide *;
    if a == [] {
      MovedNothing(d);
      assert a + b == b && [] + Moved(b, d) == Moved(b, d);
    } else {
      MovedConcat(a[1..], b, d);
      MovedNext(a, d);
      MovedNext(a + b, d);
      assert (a + b)[0] == a[0] && (a + b)[1..] == a[1..] + b;
      InFront(Match(a[0].start + d, a[0].end + d, a[0].name), Moved(a[1..], d), Moved(b, d));
    }
  }

  lemma MovedNothing(d: nat)
    ensures Moved([], d) == []
  {
  }

  lemma MovedNext(spans: seq<Match>, d: nat)
    requires spans != []
    ensures Moved(spans, d)
         == [Match(spans[0].start + d, spans[0].end + d, spans[0].name)] + Moved(spans[1..], d)
  {
  }

  // --------------------------------------------------------------- the stream so far

  /** Between two feeds: what was released and cut is what selecting in any continuation starts with. */
  ghost predicate InStep(s: Settings, find: Finder, fed: Fed, released: string, cuts: seq<Match>)
    requires FinderSound(find)
  {
    && fed.next.context == LastChars(released)
    && Fits(cuts, 0, |released|) && AllAccepted(released, cuts)
    && fed.out == Render(released, 0, cuts, s.placeholder)
    && forall more: string :: Ahead(find, released + (fed.next.buffer + more), cuts, |released|)
  }

  /** Selecting from the start is what was cut already, then selecting from the release point. */
  ghost predicate Ahead(find: Finder, text: string, cuts: seq<Match>, released: nat)
    requires FinderSound(find)
  {
    Greedy(find, text, 0) == cuts + Greedy(find, text, released)
  }

  lemma SeenFromStart(released: string, tail: string)
    ensures OutOfSight(released) + (LastChars(released) + tail) == released + tail
    ensures |OutOfSight(released)| + |LastChars(released)| == |released|
    ensures |LastChars(released)| <= CONTEXT_CHARS
    ensures OutOfSight(released) == "" || |LastChars(released)| == CONTEXT_CHARS
  {
  }

  lemma SelectsGreedily(s: Settings, find: Finder, whole: string, before: string, text: string, after: string,
      base: nat)
    requires Streamable(s, find, whole) && Piece(whole, before, text, after, base)
    requires Unsplit(find, whole, |before| + base)
    ensures ReleasedAlike(Selected(s.engine, text, base), Greedy(find, text, base), HoldbackIndex(s, text, base))
    ensures after == "" ==> Selected(s.engine, text, base) == Greedy(find, text, base)
  {
    hide Selected, HoldSound, LooksBackAtMostContext, EngineSound, FinderSound, Greedy, Piece, Unsplit, ReleasedAlike;
  }

  /** What is released so far splits no value of the whole text. */
  lemma ReleasedUnsplit(find: Finder, whole: string, cuts: seq<Match>, released: nat)
    requires FinderSound(find) && released <= |whole|
    requires Ahead(find, whole, cuts, released) && Fits(cuts, 0, released)
    ensures Unsplit(find, whole, released)
  {
    GreedySound(find, whole, released);
    var rest := Greedy(find, whole, released);
    FitsIsDisjoint(cuts, 0, released);
    FitsIsDisjoint(rest, released, |whole| - released);
    hide Greedy, Fits;
    forall m | m in Greedy(find, whole, 0)
      ensures !(m.start < released < m.end)
    {
      assert m in cuts || m in rest;
    }
  }

  /** What an emission works on is a piece of every text that begins with what was fed. */
  lemma EmissionPiece(whole: string, released: string, tail: string)
    requires released + tail <= whole
    ensures Piece(whole, OutOfSight(released), LastChars(released) + tail, whole[|released + tail|..],
        |LastChars(released)|)
  {
    SeenFromStart(released, tail);
    hide OutOfSight, LastChars;
    assert whole == (released + tail) + whole[|released + tail|..];
  }

  lemma HoldsSoundly(s: Settings, find: Finder, text: string, base: nat, more: string)
    requires HoldSound(s, find) && base <= |text|
    ensures forall i :: base <= i < HoldbackIndex(s, text, base) ==> find(text + more, i) == find(text, i)
  {
    hide HoldbackIndex;
  }

  /** An emission from `base`, its cut and its release point, as `Greedy` would have them. */
  lemma CutsGreedily(s: Settings, find: Finder, full: string, base: nat, more: string)
    requires EngineSound(s.engine) && FinderSound(find) && HoldSound(s, find) && base <= |full|
    requires ReleasedAlike(Selected(s.engine, full, base), Greedy(find, full, base), HoldbackIndex(s, full, base))
    ensures
      var release := ReleasePoint(s, full, base, false);
      && base <= release <= |full|
      && Greedy(find, full + more, base)
           == UpTo(Selected(s.engine, full, base), release) + Greedy(find, full + more, release)
  {
    HoldsSoundly(s, find, full, base, more);
    hide Selected, Greedy, HoldbackIndex, PushPast, UpTo, EngineSound, FinderSound, HoldSound, ReleasePoint;
    CapNeverFires(s, full, base);
    GreedyCut(find, full, more, base, HoldbackIndex(s, full, base));
  }

  lemma StreamableHas(s: Settings, find: Finder, whole: string)
    requires Streamable(s, find, whole)
    ensures EngineSound(s.engine) && FinderSound(find) && LooksBackAtMostContext(find) && HoldSound(s, find)
  {
  }

  /** Seen from the start of the stream, what one emission cuts is what is selected up to its release point. */
  lemma EmissionStep(s: Settings, find: Finder, whole: string, released: string, tail: string, more: string)
    requires Streamable(s, find, whole) && released + tail <= whole && Unsplit(find, whole, |released|)
    ensures
      var e := Emit(s, LastChars(released), tail, false);
      Greedy(find, released + (tail + more), |released|)
        == Moved(e.cut, |OutOfSight(released)|) + Greedy(find, released + (tail + more), |released| + |e.safe|)
  {
    hide *;
    StreamableHas(s, find, whole);
    var context, before := LastChars(released), OutOfSight(released);
    SeenFromStart(released, tail + more);
    EmitParts(s, context, tail);
    Reassociated(context, tail, more);
    EmissionPiece(whole, released, tail);
    SelectsGreedily(s, find, whole, before, context + tail, whole[|released + tail|..], |context|);
    CutsGreedily(s, find, context + tail, |context|, more);
    CutMoved(find, before, context + tail + more, |context|, ReleasePoint(s, context + tail, |context|, false),
             Emit(s, context, tail, false).cut);
  }

  lemma CutMoved(find: Finder, before: string, text: string, base: nat, release: nat, cut: seq<Match>)
    requires FinderSound(find) && LooksBackAtMostContext(find) && base <= release <= |text|
    requires before == "" || base >= CONTEXT_CHARS
    requires Greedy(find, text, base) == cut + Greedy(find, text, release)
    ensures Greedy(find, before + text, |before| + base)
         == Moved(cut, |before|) + Greedy(find, before + text, |before| + release)
  {
    hide *;
    GreedyMoved(find, before, text, base);
    GreedyMoved(find, before, text, release);
    MovedConcat(cut, Greedy(find, text, release), |before|);
  }

  lemma EmitParts(s: Settings, context: string, tail: string)
    requires EngineSound(s.engine)
    ensures
      var full, base := context + tail, |context|;
      var e, release := Emit(s, context, tail, false), ReleasePoint(s, full, base, false);
      && base <= release <= |full| && |e.safe| == release - base
      && e.cut == UpTo(Selected(s.engine, full, base), release)
  {
    hide Selected, ReleasePoint, UpTo, Render, Fits, LastChars;
    ReleaseFits(s, context + tail, |context|, false);
  }

  // -------------------------------------------------------------- whole streams

  lemma RegroupRelease(released: string, buffer: string, chunk: string, safe: string, kept: string, more: string)
    requires safe + kept == buffer + chunk
    ensures (released + safe) + (kept + more) == released + (buffer + (chunk + more))
    ensures released + ((buffer + chunk) + more) == released + (buffer + (chunk + more))
  {
    assert (released + safe) + (kept + more) == released + ((safe + kept) + more);
  }

  lemma AheadStep(find: Finder, text: string, cuts: seq<Match>, cut: seq<Match>, released: nat, release: nat)
    requires FinderSound(find) && Ahead(find, text, cuts, released)
    requires Greedy(find, text, released) == cut + Greedy(find, text, release)
    ensures Ahead(find, text, cuts + cut, release)
  {
    hide Greedy;
  }

  /** A feed keeps the stream in step. */
  lemma FeedKeeps(s: Settings, find: Finder, whole: string, fed: Fed, released: string, cuts: seq<Match>, chunk: string)
      returns (released': string, cuts': seq<Match>)
    requires Streamable(s, find, whole) && InStep(s, find, fed, released, cuts)
    requires released + (fed.next.buffer + chunk) <= whole
    ensures
      var last := FeedOne(s, fed.next, chunk);
      && released' + last.next.buffer == released + (fed.next.buffer + chunk)
      && InStep(s, find, Fed(fed.out + last.out, last.next), released', cuts')
  {
    hide Emit, Render, Fits, LastChars, Covering, Ahead, LooksBackAtMostContext, HoldSound, ScansAs, Moved,
      OutOfSight, Unsplit;
    var buffer := fed.next.buffer;
    if chunk == "" {
      assert buffer + chunk == buffer && fed.out + "" == fed.out;
      return released, cuts;
    }
    var e := Emit(s, fed.next.context, buffer + chunk, false);
    EmitConserves(s, fed.next.context, buffer + chunk, false);
    JoinEmission(released, cuts, fed.out, e, s.placeholder);
    LastCharsAppend(released, e.safe);
    FedUnsplit(find, whole, released, buffer, cuts);
    released', cuts' := released + e.safe, cuts + Moved(e.cut, |OutOfSight(released)|);
    assert released' + e.next.buffer == released + (buffer + chunk);
    forall more: string
      ensures Ahead(find, released' + (e.next.buffer + more), cuts', |released'|)
    {
      RegroupRelease(released, buffer, chunk, e.safe, e.next.buffer, more);
      assert Ahead(find, released + (buffer + (chunk + more)), cuts, |released|);
      EmissionStep(s, find, whole, released, buffer + chunk, more);
      AheadStep(find, released + (buffer + (chunk + more)), cuts, Moved(e.cut, |OutOfSight(released)|), |released|,
          |released'|);
    }
  }

  lemma FedUnsplit(find: Finder, whole: string, released: string, buffer: string, cuts: seq<Match>)
    requires FinderSound(find) && released + buffer <= whole && Fits(cuts, 0, |released|)
    requires forall more: string :: Ahead(find, released + (buffer + more), cuts, |released|)
    ensures Unsplit(find, whole, |released|)
  {
    hide Fits, Ahead, Unsplit;
    var more := whole[|released + buffer|..];
    assert whole == (released + buffer) + more == released + (buffer + more);
    ReleasedUnsplit(find, whole, cuts, |released|);
  }

  lemma {:induction false} StaysInStep(s: Settings, find: Finder, whole: string, chunks: seq<string>)
      returns (released: string, cuts: seq<Match>)
    requires Streamable(s, find, whole) && Concat(chunks) <= whole
    ensures InStep(s, find, FeedAll(s, chunks), released, cuts)
    ensures released + FeedAll(s, chunks).next.buffer == Concat(chunks)
    decreases |chunks|
  {
    hide FeedOne, InStep, Streamable;
    StreamableHas(s, find, whole);
    if chunks == [] {
      released, cuts := "", [];
      StartsInStep(s, find);
    } else {
      var before, last := chunks[..|chunks| - 1], chunks[|chunks| - 1];
      var r, c := StaysInStep(s, find, whole, before);
      Reassociated(r, FeedAll(s, before).next.buffer, last);
      released, cuts := FeedKeeps(s, find, whole, FeedAll(s, before), r, c, last);
    }
  }

  lemma StartsInStep(s: Settings, find: Finder)
    requires FinderSound(find)
    ensures InStep(s, find, Fed("", Stream("", "")), "", [])
  {
    FreshStream(s.placeholder);
    forall more: string
      ensures Ahead(find, "" + ("" + more), [], 0)
    {
    }
  }

  /** The last emission releases all that is held and cuts all that is selected there. */
  lemma FlushCuts(s: Settings, find: Finder, whole: string, released: string, tail: string)
    requires Streamable(s, find, whole) && released + tail == whole && Unsplit(find, whole, |released|)
    ensures
      var e := Emit(s, LastChars(released), tail, true);
      Greedy(find, whole, |released|) == Moved(e.cut, |OutOfSight(released)|)
  {
    hide *;
    StreamableHas(s, find, whole);
    var context := LastChars(released);
    SeenFromStart(released, tail);
    FinalCut(s, context, tail);
    EmissionPiece(whole, released, tail);
    SelectsGreedily(s, find, whole, OutOfSight(released), context + tail, whole[|released + tail|..], |context|);
    GreedyMoved(find, OutOfSight(released), context + tail, |context|);
  }

  lemma FinalCut(s: Settings, context: string, tail: string)
    requires EngineSound(s.engine)
    ensures Emit(s, context, tail, true).cut == Selected(s.engine, context + tail, |context|)
  {
    hide Selected, Render, Fits, LastChars, EngineSound;
    var full, base := context + tail, |context|;
    SelectedSound(s.engine, full, base);
    AllUpTo(Selected(s.engine, full, base), base, |full|);
  }

  lemma {:induction false} AllUpTo(spans: seq<Match>, from: nat, to: nat)
    requires Within(spans, from, to)
    ensures UpTo(spans, to) == spans
  {
    if spans != [] {
      AllUpTo(spans[1..], from, to);
    }
  }

  /**
   Chunk invariance: however a text is cut into feeds, the output of the whole stream is the text with
   the spans a single left-to-right scan of all of it selects replaced.
   */
  lemma ChunksDoNotMatter(s: Settings, find: Finder, chunks: seq<string>)
    requires Streamable(s, find, Concat(chunks))
    ensures
      var text := Concat(chunks);
      && Fits(Greedy(find, text, 0), 0, |text|)
      && StreamOutput(s, chunks) == Render(text, 0, Greedy(find, text, 0), s.placeholder)
  {
    hide Emit, Render, Fits, LastChars, Covering, LooksBackAtMostContext, HoldSound, ScansAs, Moved, OutOfSight,
      Greedy, Unsplit;
    var text, fed := Concat(chunks), FeedAll(s, chunks);
    var released, cuts := StaysInStep(s, find, text, chunks);
    var buffer := fed.next.buffer;
    GreedySound(find, text, 0);
    assert released + (buffer + "") == text && Ahead(find, released + (buffer + ""), cuts, |released|);
    if buffer == "" {
      assert released == text && StreamOutput(s, chunks) == fed.out;
      GreedyEnds(find, text);
      assert cuts + [] == cuts;
    } else {
      var e := Emit(s, fed.next.context, buffer, true);
      EmitConserves(s, fed.next.context, buffer, true);
      JoinEmission(released, cuts, fed.out, e, s.placeholder);
      ReleasedUnsplit(find, text, cuts, |released|);
      FlushCuts(s, find, text, released, buffer);
    }
  }

  lemma GreedyEnds(find: Finder, text: string)
    requires FinderSound(find)
    ensures Greedy(find, text, |text|) == []
  {
  }

  /** Two ways of cutting the same text give the same output; one feed of it all is one of them. */
  lemma SameTextSameOutput(s: Settings, find: Finder, chunks: seq<string>, others: seq<string>)
    requires Streamable(s, find, Concat(chunks)) && Concat(chunks) == Concat(others)
    ensures StreamOutput(s, chunks) == StreamOutput(s, others)
  {
    hide StreamOutput, Greedy, Render, Streamable;
    StreamableHas(s, find, Concat(chunks));
    ChunksDoNotMatter(s, find, chunks);
    ChunksDoNotMatter(s, find, others);
  }
}
