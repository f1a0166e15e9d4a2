/**
 The streaming redactor: text goes in by chunks, what can no longer change comes out redacted, and
 the rest is held back raw.
 */
module Redactor {
  import opened Spans
  import opened Validators
  import opened Scan
  import opened FixedPoint

  const CONTEXT_CHARS := 48
  const KEYWORD_WINDOW := 40
  const MAX_MATCH_LENGTH := 793

  datatype Settings = Settings(engine: Engine, placeholder: string, maxHoldback: nat)

  // ---------------------------------------------------------------- the hold-back

  predicate OccursAt(s: string, part: string, i: nat) {
    i + |part| <= |s| && s[i..i + |part|] == part
  }

  predicate Contains(s: string, part: string) {
    exists i :: 0 <= i <= |s| && OccursAt(s, part, i)
  }

  function Lower(s: string): (r: string)
    ensures |r| == |s|
  {
    seq(|s|, i requires 0 <= i < |s| => if 'A' <= s[i] <= 'Z' then s[i] - 'A' + 'a' else s[i])
  }

  /** Whether an SSN keyword sits in the window just before `index`. */
  predicate KeywordPrecedes(text: string, index: nat)
    requires index <= |text|
  {
    var window := Lower(text[if index > KEYWORD_WINDOW then index - KEYWORD_WINDOW else 0..index]);
    Contains(window, "ssn") || Contains(window, "social")
  }

  /** Whether a printable character can begin some pattern, as probing the engine with it alone tells. */
  predicate FirstChar(e: Engine, c: char) {
    32 <= c as int < 127 && e.partial([c], 0)
  }

  /** More input could still change what is matched from `index` on. */
  predicate HoldsAt(e: Engine, text: string, index: nat)
    requires index < |text|
  {
    var c := text[index];
    && (c as int >= 128 || FirstChar(e, c))
    && (|| e.partial(text, index)
        || (IsDigit(c) && KeywordPrecedes(text, index) && e.keywordPartial(text, index))
        || (e.rescue.Some? && IsDigit(c) && e.rescue.value.partial(text, index)))
  }

  function FirstHeld(e: Engine, text: string, from: nat): (hold: nat)
    requires from <= |text|
    ensures from <= hold <= |text|
    ensures hold < |text| ==> HoldsAt(e, text, hold)
    ensures forall i :: from <= i < hold ==> !HoldsAt(e, text, i)
    decreases |text| - from
  {
    if from == |text| || HoldsAt(e, text, from) then from else FirstHeld(e, text, from + 1)
  }

  function HoldbackIndex(s: Settings, text: string, start: nat): (hold: nat)
    requires start <= |text|
    ensures start <= hold <= |text| && |text| - hold <= s.maxHoldback
    ensures hold < |text| ==> HoldsAt(s.engine, text, hold)
    ensures forall i :: start <= i < hold && |text| - i <= s.maxHoldback ==> !HoldsAt(s.engine, text, i)
  {
    FirstHeld(s.engine, text, if start + s.maxHoldback < |text| then |text| - s.maxHoldback else start)
  }

  method FindHoldback(s: Settings, text: string, start: nat) returns (hold: nat)
    requires start <= |text|
    ensures hold == HoldbackIndex(s, text, start)
  {
    var first := if start + s.maxHoldback < |text| then |text| - s.maxHoldback else start;
    for index := first to |text|
      invariant FirstHeld(s.engine, text, first) == FirstHeld(s.engine, text, index)
    {
      var character := text[index];
      if (character as int) < 128 && !FirstChar(s.engine, character) {
        continue;
      }
      if s.engine.partial(text, index) {
        return index;
      }
      if IsDigit(character) && KeywordPrecedes(text, index) && s.engine.keywordPartial(text, index) {
        return index;
      }
      if s.engine.rescue.Some? && IsDigit(character) && s.engine.rescue.value.partial(text, index) {
        return index;
      }
    }
    return |text|;
  }

  // ------------------------------------------------------------------ one emission

  /** The release point moved past a span that straddles it. */
  function PushPast(spans: seq<Match>, hold: nat): nat {
    if spans == [] then hold
    else PushPast(spans[1..], if spans[0].start < hold < spans[0].end then spans[0].end else hold)
  }

  /** The leading spans that end at or before the release point. */
  function UpTo(spans: seq<Match>, hold: nat): seq<Match> {
    if spans == [] || spans[0].end > hold then [] else [spans[0]] + UpTo(spans[1..], hold)
  }

  /** Sorted, disjoint spans inside a text of the given length that starts at `origin`. */
  predicate Fits(spans: seq<Match>, origin: int, length: int) {
    spans != [] ==>
      && origin <= spans[0].start < spans[0].end <= origin + length
      && Fits(spans[1..], spans[0].end, origin + length - spans[0].end)
  }

  lemma DisjointCons(head: Match, tail: seq<Match>, origin: int, end: int)
    ensures Disjoint([head] + tail) && Within([head] + tail, origin, end) <==>
              origin <= head.start < head.end <= end && Disjoint(tail) && Within(tail, head.end, end)
  {
    var all := [head] + tail;
    assert all[0] == head && forall i :: 0 <= i < |tail| ==> all[i + 1] == tail[i];
  }

  lemma {:induction false} FitsIsDisjoint(spans: seq<Match>, origin: int, length: int)
    ensures Fits(spans, origin, length) <==> Disjoint(spans) && Within(spans, origin, origin + length)
  {
    if spans != [] {
      var head, tail := spans[0], spans[1..];
      FitsIsDisjoint(tail, head.end, origin + length - head.end);
      DisjointCons(head, tail, origin, origin + length);
      hide Disjoint, Within;
      assert spans == [head] + tail;
    }
  }

  /** A text with each span replaced by the placeholder; positions count from `origin`. */
  function Render(text: string, origin: int, spans: seq<Match>, placeholder: string): string
    requires Fits(spans, origin, |text|)
    decreases |spans|
  {
    if spans == [] then text
    else
      text[..spans[0].start - origin] + placeholder
      + Render(text[spans[0].end - origin..], spans[0].end, spans[1..], placeholder)
  }

  lemma RendersAsIs(text: string, origin: int, placeholder: string)
    ensures Fits([], origin, |text|) && Render(text, origin, [], placeholder) == text
  {
  }

  function LastChars(s: string): string {
    if |s| > CONTEXT_CHARS then s[|s| - CONTEXT_CHARS..] else s
  }

  /** Where `full` is released up to: everything at the end of the stream, else the pushed hold index. */
  function ReleasePoint(s: Settings, full: string, base: nat, final: bool): nat
    requires EngineSound(s.engine) && base <= |full|
  {
    if final then |full|
    else
      var hold := HoldbackIndex(s, full, base);
      var capped := if |full| - hold > s.maxHoldback
                    then if |full| - s.maxHoldback > base then |full| - s.maxHoldback else base
                    else hold;
      PushPast(Selected(s.engine, full, base), capped)
  }

  /** The buffer and the context carried from one call to the next. */
  datatype Stream = Stream(buffer: string, context: string)

  /** What one call releases: raw text, the spans of `context + text` replaced in it, and the rendering. */
  datatype Emission = Emission(safe: string, cut: seq<Match>, out: string, next: Stream)

  function Emit(s: Settings, context: string, text: string, final: bool): Emission
    requires EngineSound(s.engine)
  {
    hide *;
    var full, base := context + text, |context|;
    ReleaseFits(s, full, base, final);
    var hold := ReleasePoint(s, full, base, final);
    var cut := UpTo(Selected(s.engine, full, base), hold);
    var safe := full[base..hold];
    Emission(safe, cut, Render(safe, base, cut, s.placeholder), Stream(full[hold..], LastChars(full[..hold])))
  }

  // ------------------------------------------------------ what an emission keeps

  lemma {:induction false} PushPastClears(spans: seq<Match>, hold: nat, from: nat, to: nat)
    requires Disjoint(spans) && Within(spans, from, to) && hold <= to
    ensures hold <= PushPast(spans, hold) <= to
    ensures forall i :: 0 <= i < |spans| ==> !(spans[i].start < PushPast(spans, hold) < spans[i].end)
    ensures forall i :: 0 <= i < |spans| && hold <= spans[i].start ==> PushPast(spans, hold) <= spans[i].start
  {
    if spans != [] {
      var head, tail := spans[0], spans[1..];
      var pushed := if head.start < hold < head.end then head.end else hold;
      PushPastClears(tail, pushed, from, to);
      if pushed == head.end {
        assert forall i :: 0 <= i < |tail| ==> pushed <= tail[i].start;
        PushPastStays(tail, pushed);
      } else if hold <= head.start {
        PushPastStays(tail, pushed);
      }
    }
  }

  lemma {:induction false} PushPastStays(spans: seq<Match>, hold: nat)
    requires forall i :: 0 <= i < |spans| ==> hold <= spans[i].start
    ensures PushPast(spans, hold) == hold
  {
    if spans != [] {
      PushPastStays(spans[1..], hold);
    }
  }

  lemma {:induction false} UpToWithin(spans: seq<Match>, hold: nat, from: nat, to: nat)
    requires Disjoint(spans) && Within(spans, from, to)
    ensures |UpTo(spans, hold)| <= |spans| && UpTo(spans, hold) == spans[..|UpTo(spans, hold)|]
    ensures forall i :: 0 <= i < |UpTo(spans, hold)| ==> spans[i].end <= hold
    ensures |UpTo(spans, hold)| < |spans| ==> spans[|UpTo(spans, hold)|].end > hold
  {
    if spans != [] && spans[0].end <= hold {
      UpToWithin(spans[1..], hold, from, to);
      var rest := UpTo(spans[1..], hold);
      assert UpTo(spans, hold) == [spans[0]] + rest;
      assert forall i :: 0 <= i < |rest| ==> spans[i + 1] == spans[1..][i];
    }
  }

  /** The release point lies in the text, splits no selected span, and leaves at most the bound held. */
  lemma ReleaseSound(s: Settings, full: string, base: nat, final: bool)
    requires EngineSound(s.engine) && base <= |full|
    ensures
      var spans, hold := Selected(s.engine, full, base), ReleasePoint(s, full, base, final);
      && base <= hold <= |full| && |full| - hold <= s.maxHoldback + (if final then |full| else 0)
      && (final ==> hold == |full|)
      && Disjoint(spans) && Within(spans, base, |full|)
      && Fits(UpTo(spans, hold), base, hold - base)
      && (forall i :: 0 <= i < |spans| ==> spans[i] in UpTo(spans, hold) || hold <= spans[i].start)
  {
    hide EngineSound, HoldsAt, Selected, PushPast, UpTo;
    var spans, hold := Selected(s.engine, full, base), ReleasePoint(s, full, base, final);
    SelectedSound(s.engine, full, base);
    PushPastClears(spans, HoldbackIndex(s, full, base), base, |full|);
    UpToWithin(spans, hold, base, |full|);
    var cut := UpTo(spans, hold);
    FitsIsDisjoint(cut, base, hold - base);
    forall i | 0 <= i < |spans|
      ensures spans[i] in cut || hold <= spans[i].start
    {
      if i < |cut| {
        assert spans[i] == cut[i];
      } else {
        assert |cut| < i ==> spans[|cut|].end <= spans[i].start;
      }
    }
  }

  lemma ReleaseFits(s: Settings, full: string, base: nat, final: bool)
    requires EngineSound(s.engine) && base <= |full|
    ensures
      var hold := ReleasePoint(s, full, base, final);
      base <= hold <= |full| && Fits(UpTo(Selected(s.engine, full, base), hold), base, hold - base)
  {
    hide *;
    ReleaseSound(s, full, base, final);
  }

  /** The cap inside an emission never fires: the hold index is already within the bound of the end. */
  lemma CapNeverFires(s: Settings, full: string, base: nat)
    requires EngineSound(s.engine) && base <= |full|
    ensures ReleasePoint(s, full, base, false) == PushPast(Selected(s.engine, full, base), HoldbackIndex(s, full, base))
  {
  }

  function Covering(spans: seq<Match>): int {
    if spans == [] then 0 else spans[0].end - spans[0].start + Covering(spans[1..])
  }

  lemma {:induction false} RenderLength(text: string, origin: int, spans: seq<Match>, placeholder: string)
    requires Fits(spans, origin, |text|)
    ensures |Render(text, origin, spans, placeholder)| + Covering(spans) == |text| + |placeholder| * |spans|
    decreases |spans|
  {
    if spans != [] {
      RenderLength(text[spans[0].end - origin..], spans[0].end, spans[1..], placeholder);
      assert |placeholder| * |spans| == |placeholder| + |placeholder| * |spans[1..]|;
    }
  }

  lemma RenderHead(text: string, origin: int, spans: seq<Match>, tail: seq<Match>, first: string, rest: string,
      placeholder: string)
    requires spans != [] && Fits(spans, origin, |text|) && tail == spans[1..]
    requires first == text[..spans[0].start - origin] && rest == text[spans[0].end - origin..]
    ensures Render(text, origin, spans, placeholder)
         == first + placeholder + Render(rest, spans[0].end, tail, placeholder)
  {
  }

  lemma SliceLeft(a: string, b: string, k: nat)
    requires k <= |a|
    ensures (a + b)[..k] == a[..k] && (a + b)[k..] == a[k..] + b
  {
  }

  lemma SliceRight(a: string, b: string, k: nat)
    requires |a| <= k <= |a| + |b|
    ensures (a + b)[..k] == a + b[..k - |a|] && (a + b)[k..] == b[k - |a|..]
  {
  }

  lemma GlueRight(a: string, b: string, c: string, d: string, part: string, whole: string)
    requires part == b + c + d && whole == (a + b) + c + d
    ensures a + part == whole
  {
  }

  lemma GlueLeft(a: string, b: string, c: string, d: string, cd: string, part: string, whole: string)
    requires part == a + b + c && cd == c + d && whole == a + b + cd
    ensures part + d == whole
  {
  }

  lemma RenderAfter(a: string, b: string, origin: int, spans: seq<Match>, placeholder: string)
    requires Fits(spans, origin + |a|, |b|)
    ensures Fits(spans, origin, |a + b|)
    ensures a + Render(b, origin + |a|, spans, placeholder) == Render(a + b, origin, spans, placeholder)
  {
    if spans != [] {
      assert Fits(spans, origin, |a + b|);
      var s, e := spans[0].start - origin, spans[0].end - origin;
      SliceRight(a, b, s);
      SliceRight(a, b, e);
      hide Render, Fits;
      var first, rest := b[..s - |a|], b[e - |a|..];
      RenderHead(b, origin + |a|, spans, spans[1..], first, rest, placeholder);
      RenderHead(a + b, origin, spans, spans[1..], a + first, rest, placeholder);
      GlueRight(a, first, placeholder, Render(rest, spans[0].end, spans[1..], placeholder),
                Render(b, origin + |a|, spans, placeholder), Render(a + b, origin, spans, placeholder));
    }
  }

  lemma {:induction false} FitsJoin(left: seq<Match>, right: seq<Match>, origin: int, a: int, b: int)
    requires Fits(left, origin, a) && Fits(right, origin + a, b) && a >= 0 && b >= 0
    ensures Fits(left + right, origin, a + b)
  {
    if left == [] {
      assert left + right == right;
    } else {
      FitsJoin(left[1..], right, left[0].end, origin + a - left[0].end, b);
      assert (left + right)[1..] == left[1..] + right;
    }
  }

  lemma JoinNothing(a: string, b: string, origin: int, right: seq<Match>, placeholder: string)
    requires Fits(right, origin + |a|, |b|)
    ensures Fits([] + right, origin, |a + b|)
    ensures Render(a, origin, [], placeholder) + Render(b, origin + |a|, right, placeholder)
         == Render(a + b, origin, [] + right, placeholder)
  {
    assert [] + right == right;
    RenderAfter(a, b, origin, right, placeholder);
  }

  lemma FitsHead(spans: seq<Match>, origin: int, length: int)
    requires Fits(spans, origin, length) && spans != []
    ensures origin <= spans[0].start < spans[0].end <= origin + length
    ensures Fits(spans[1..], spans[0].end, origin + length - spans[0].end)
  {
  }

  /** One span in front of renderings that join: they still do. */
  lemma JoinInFront(a: string, b: string, origin: int, left: seq<Match>, right: seq<Match>, placeholder: string)
    requires left != [] && Fits(left, origin, |a|) && Fits(right, origin + |a|, |b|)
    requires Fits(left + right, origin, |a + b|)
    ensures origin <= left[0].start < left[0].end <= origin + |a|
    ensures
      var rest := a[left[0].end - origin..];
      && Fits(left[1..], left[0].end, |rest|) && Fits(right, left[0].end + |rest|, |b|)
      && Fits(left[1..] + right, left[0].end, |rest + b|)
      && (Render(rest, left[0].end, left[1..], placeholder) + Render(b, left[0].end + |rest|, right, placeholder)
            == Render(rest + b, left[0].end, left[1..] + right, placeholder) ==>
          Render(a, origin, left, placeholder) + Render(b, origin + |a|, right, placeholder)
            == Render(a + b, origin, left + right, placeholder))
  {
    hide *;
    FitsHead(left, origin, |a|);
    var tail, first, rest := left[1..], a[..left[0].start - origin], a[left[0].end - origin..];
    RenderHead(a, origin, left, tail, first, rest, placeholder);
    JoinHead(a, b, origin, left, right, first, rest, placeholder);
    var front, behind := Render(rest, left[0].end, tail, placeholder), Render(b, origin + |a|, right, placeholder);
    if front + behind == Render(rest + b, left[0].end, tail + right, placeholder) {
      GlueLeft(first, placeholder, front, behind, front + behind,
               Render(a, origin, left, placeholder), Render(a + b, origin, left + right, placeholder));
    }
  }

  /** Renderings of adjoining texts join into the rendering of both. */
  lemma {:induction false} RenderJoin(
      a: string, b: string, origin: int, left: seq<Match>, right: seq<Match>, placeholder: string)
    requires Fits(left, origin, |a|) && Fits(right, origin + |a|, |b|)
    ensures Fits(left + right, origin, |a + b|)
    ensures Render(a, origin, left, placeholder) + Render(b, origin + |a|, right, placeholder)
         == Render(a + b, origin, left + right, placeholder)
    decreases |left|
  {
    hide *;
    FitsJoin(left, right, origin, |a|, |b|);
    if left == [] {
      JoinNothing(a, b, origin, right, placeholder);
    } else {
      JoinInFront(a, b, origin, left, right, placeholder);
      RenderJoin(a[left[0].end - origin..], b, left[0].end, left[1..], right, placeholder);
    }
  }

  lemma JoinHead(a: string, b: string, origin: int, left: seq<Match>, right: seq<Match>, first: string, rest: string,
      placeholder: string)
    requires left != [] && Fits(left, origin, |a|) && Fits(left + right, origin, |a + b|)
    requires first == a[..left[0].start - origin] && rest == a[left[0].end - origin..]
    ensures Fits(left[1..] + right, left[0].end, |rest + b|)
    ensures Render(a + b, origin, left + right, placeholder)
         == first + placeholder + Render(rest + b, left[0].end, left[1..] + right, placeholder)
  {
    FitsHead(left, origin, |a|);
    FitsHead(left + right, origin, |a + b|);
    hide *;
    SliceLeft(a, b, left[0].start - origin);
    SliceLeft(a, b, left[0].end - origin);
    assert (left + right)[1..] == left[1..] + right && (left + right)[0] == left[0];
    RenderHead(a + b, origin, left + right, left[1..] + right, first, rest + b, placeholder);
  }

  lemma MovedHead(text: string, origin: int, spans: seq<Match>, moved: seq<Match>, d: int, placeholder: string)
    requires spans != [] && moved != [] && Fits(spans, origin, |text|) && Fits(moved, origin + d, |text|)
    requires moved[0].start == spans[0].start + d && moved[0].end == spans[0].end + d
    ensures origin <= spans[0].start < spans[0].end <= origin + |text|
    ensures
      var rest := text[spans[0].end - origin..];
      && Fits(spans[1..], spans[0].end, |rest|) && Fits(moved[1..], moved[0].end, |rest|)
      && (Render(rest, moved[0].end, moved[1..], placeholder) == Render(rest, spans[0].end, spans[1..], placeholder) ==>
            Render(text, origin + d, moved, placeholder) == Render(text, origin, spans, placeholder))
  {
    hide *;
    FitsHead(spans, origin, |text|);
    FitsHead(moved, origin + d, |text|);
    var first, rest := text[..spans[0].start - origin], text[spans[0].end - origin..];
    assert moved[0].start - (origin + d) == spans[0].start - origin;
    assert moved[0].end - (origin + d) == spans[0].end - origin;
    RenderHead(text, origin, spans, spans[1..], first, rest, placeholder);
    RenderHead(text, origin + d, moved, moved[1..], first, rest, placeholder);
  }

  lemma NothingMoved(text: string, origin: int, spans: seq<Match>, moved: seq<Match>, d: int, placeholder: string)
    requires spans == [] && MovedBy(spans, moved, d)
    ensures Fits(spans, origin, |text|) && Fits(moved, origin + d, |text|)
    ensures Render(text, origin + d, moved, placeholder) == Render(text, origin, spans, placeholder)
  {
  }

  /** Where counting starts makes no difference: moving the origin and the spans together changes nothing. */
  lemma {:induction false} RenderMoved(text: string, origin: int, spans: seq<Match>, moved: seq<Match>, d: int,
      placeholder: string)
    requires Fits(spans, origin, |text|) && MovedBy(spans, moved, d)
    ensures Fits(moved, origin + d, |text|)
    ensures Render(text, origin + d, moved, placeholder) == Render(text, origin, spans, placeholder)
    decreases |spans|
  {
    hide *;
    FitsMoved(spans, origin, |text|, moved, d);
    if spans == [] {
      NothingMoved(text, origin, spans, moved, d, placeholder);
    } else {
      MovedParts(spans, moved, d);
      MovedHead(text, origin, spans, moved, d, placeholder);
      RenderMoved(text[spans[0].end - origin..], spans[0].end, spans[1..], moved[1..], d, placeholder);
    }
  }

  lemma MovedParts(spans: seq<Match>, moved: seq<Match>, d: int)
    requires MovedBy(spans, moved, d) && spans != []
    ensures moved != [] && moved[0].start == spans[0].start + d && moved[0].end == spans[0].end + d
    ensures MovedBy(spans[1..], moved[1..], d)
  {
  }

  lemma {:induction false} FitsMoved(spans: seq<Match>, origin: int, length: int, moved: seq<Match>, d: int)
    requires Fits(spans, origin, length) && MovedBy(spans, moved, d)
    ensures Fits(moved, origin + d, length)
    decreases |spans|
  {
    if spans != [] {
      FitsMoved(spans[1..], spans[0].end, origin + length - spans[0].end, moved[1..], d);
    }
  }

  predicate MovedBy(spans: seq<Match>, moved: seq<Match>, d: int) {
    |moved| == |spans| && forall i :: 0 <= i < |spans| ==>
      moved[i].start == spans[i].start + d && moved[i].end == spans[i].end + d
  }

  /** A value is judged by its own characters: what follows it can be cut off. */
  lemma AcceptedInPart(text: string, hold: nat, m: Match)
    requires InText(m, text) && m.end <= hold <= |text|
    ensures InText(m, text[..hold]) && Accepts(text[..hold], m) == Accepts(text, m)
  {
    hide SsnOk, IsCard;
    assert text[..hold][m.start..m.end] == text[m.start..m.end];
  }

  lemma CutIsAccepted(e: Engine, full: string, base: nat, hold: nat)
    requires EngineSound(e) && base <= hold <= |full|
    ensures AllAccepted(full[..hold], UpTo(Selected(e, full, base), hold))
  {
    hide EngineSound, Selected, Accepts, UpTo;
    SelectedSound(e, full, base);
    var spans := Selected(e, full, base);
    UpToWithin(spans, hold, base, |full|);
    var cut := UpTo(spans, hold);
    forall i | 0 <= i < |cut|
      ensures InText(cut[i], full[..hold]) && Accepts(full[..hold], cut[i])
    {
      assert cut[i] == spans[i];
      AcceptedInPart(full, hold, spans[i]);
    }
  }

  /**
   One emission conserves text: what is released followed by what is kept is the input, what comes
   out is the released text with disjoint whole spans replaced, each a validated value, and the
   character counts balance.
   */
  lemma EmitConserves(s: Settings, context: string, text: string, final: bool)
    requires EngineSound(s.engine)
    ensures
      var r := Emit(s, context, text, final);
      && r.safe + r.next.buffer == text && r.next.context == LastChars(context + r.safe)
      && (final ==> r.safe == text) && (!final ==> |r.next.buffer| <= s.maxHoldback)
      && Fits(r.cut, |context|, |r.safe|) && AllAccepted(context + r.safe, r.cut)
      && r.out == Render(r.safe, |context|, r.cut, s.placeholder)
      && |r.out| + Covering(r.cut) == |r.safe| + |s.placeholder| * |r.cut|
  {
    hide EngineSound, ReleasePoint, Selected, UpTo, LastChars, Render, Fits, Covering, AllAccepted;
    var full, base := context + text, |context|;
    ReleaseSound(s, full, base, final);
    var hold := ReleasePoint(s, full, base, final);
    var r := Emit(s, context, text, final);
    assert full[..hold] == context + r.safe && r.safe + full[hold..] == text;
    CutIsAccepted(s.engine, full, base, hold);
    RenderLength(r.safe, base, r.cut, s.placeholder);
  }
}
