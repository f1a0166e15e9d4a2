/**
 Where re-anchoring makes the output depend on the cut: any two SSNs with nothing between them. A
 rescued value bounds the gap before it, and rescanning that gap accepts a value the whole text rules
 out; by the time the second value arrives, the first has been released.
 */
module GluedPairs {
  import opened Wrappers
  import opened Spans
  import opened Validators
  import opened Scan
  import opened Rescue
  import opened FixedPoint
  import opened Redactor
  import opened Streaming
  import opened ChunkInvariance
  import opened ForwardEngine
  import opened Reanchoring
  import opened RescuePasses
  import opened ClearTexts

  const LENGTH := 22
  const CUT := 12
  const FIRST: Match := Match(0, 11, "ssn")
  const SECOND: Match := Match(11, 22, "ssn")

  /** Two issued SSNs, the second right behind the first. */
  predicate Pair(pair: string) {
    |pair| == LENGTH && SsnPrefix(pair[..11]) && SsnPrefix(pair[11..]) && SsnOk(pair[..11]) && SsnOk(pair[11..])
  }

  lemma Places(pair: string)
    requires Pair(pair)
    ensures |pair| == LENGTH
    ensures forall p :: 0 <= p < LENGTH && p in {3, 6, 14, 17} ==> IsSeparator(pair[p])
    ensures forall p :: 0 <= p < LENGTH && p !in {3, 6, 14, 17} ==> IsDigit(pair[p])
  {
    forall p | 0 <= p < LENGTH
      ensures if p in {3, 6, 14, 17} then IsSeparator(pair[p]) else IsDigit(pair[p])
    {
      if p < 11 {
        assert SsnPlace(p, pair[..11][p]);
      } else {
        assert SsnPlace(p - 11, pair[11..][p - 11]);
      }
    }
  }

  lemma ShapedAt(pair: string, p: nat, limit: nat)
    requires Pair(pair) && p <= limit <= LENGTH
    ensures SsnShaped(pair[p..limit]) <==> (p == 0 && limit == 11) || (p == 11 && limit == LENGTH)
  {
    Places(pair);
    hide IsDigit, IsSeparator, SsnOk;
    var rest := pair[p..limit];
    assert |pair| == LENGTH && rest == pair[..limit][p..] && forall k :: 0 <= k < |rest| ==> rest[k] == pair[p + k];
    if SsnShaped(rest) {
      var shape := rest[..SSN_LENGTH];
      assert SsnPlace(3, shape[3]) && SsnPlace(6, shape[6]);
      assert shape[3] == pair[p + 3] && shape[6] == pair[p + 6];
      SeparatorIsNoDigit(shape[3]);
      SeparatorIsNoDigit(shape[6]);
    }
    if limit == p + SSN_LENGTH && p in {0, 11} {
      assert rest[..SSN_LENGTH] == rest == if p == 0 then pair[..11] else pair[11..];
    }
  }

  lemma FewDigits(pair: string, p: nat, limit: nat)
    requires Pair(pair) && p <= limit <= LENGTH
    ensures LeadingDigits(pair[p..limit]) < CARD_MIN
  {
    Places(pair);
    var rest := pair[p..limit];
    LeadingDigitsOf(rest);
    hide Pair, LeadingDigits;
    var k := if p <= 3 then 3 - p else if p <= 6 then 6 - p else 14 - p;
    if 0 <= k < |rest| {
      assert rest[k] == pair[p + k];
    }
  }

  /** A value is seen in two places only: the second one, and the first when the text ends right behind it. */
  lemma SeenAt(pair: string, p: nat, limit: nat)
    requires Pair(pair) && p <= limit <= LENGTH
    ensures
      var seen :=
        if (p == 0 && limit == 11) || (p == 11 && limit == LENGTH) then Some(Match(0, SSN_LENGTH, "ssn")) else None;
      |pair| == LENGTH && Front(pair[p..limit]) == seen && Taken(pair[p..limit]) == seen
  {
    ShapedAt(pair, p, limit);
    FewDigits(pair, p, limit);
    var rest := pair[p..limit];
    if SsnShaped(rest) {
      assert rest[..SSN_LENGTH] == if p == 0 then pair[..11] else pair[11..];
    }
    hide SsnShaped, LeadingDigits, SsnPrefix, SsnOk, Trim;
  }

  // ------------------------------------------------------- what the parts select

  lemma SeenIsSecond(pair: string, p: nat)
    requires Pair(pair) && p <= LENGTH
    ensures |pair| == LENGTH && (Taken(pair[p..]).Some? ==> p == 11) && StandsAt(pair, SECOND)
  {
    SeenAt(pair, p, LENGTH);
    SeenAt(pair, 11, LENGTH);
    hide Taken, Pair;
    assert pair[p..] == pair[p..LENGTH] && pair[11..] == pair[11..LENGTH];
  }

  /** Looked at from anywhere before it, the second value is listed, and none is missed. */
  lemma SecondIsListed(pair: string, base: nat)
    requires Pair(pair) && base <= 11
    ensures |pair| == LENGTH && Listed(pair, base, [SECOND]) && NoneMissed(pair, base, LENGTH, [SECOND])
  {
    SeenIsSecond(pair, 11);
    hide Taken, Pair, Looked;
    ValueIsLooked(pair, base, 11);
    forall p: nat | base <= p < LENGTH && Taken(pair[p..]).Some?
      ensures Covered(p, [SECOND])
    {
      SeenIsSecond(pair, p);
      assert Covers([SECOND][0], p);
    }
  }

  /** Once the beginning of the first value is out of the way, only the second one is selected. */
  lemma RestSelectsSecond(pair: string, base: nat)
    requires Pair(pair) && 1 <= base <= 11
    requires EngineSound(ENGINE) && EngineSound(REANCHORED) && FinderSound(Find) && RescuerSound(RESCUER)
    ensures |pair| == LENGTH && Selected(REANCHORED, pair, base) == [SECOND]
  {
    SecondIsListed(pair, base);
    hide EngineSound, FinderSound, RescuerSound, Selected, Taken, Pair, Listed, NoneMissed;
    forall p: nat, c: nat | base <= p < c <= |pair|
      ensures !CutsOff(pair, p, c)
    {
      SeenAt(pair, p, c);
      SeenIsSecond(pair, c);
    }
    SelectsExactly(pair, base, [SECOND]);
  }

  /** Of the pair cut short behind its first value, nothing is selected. */
  lemma ShortSelectsNothing(pair: string, k: nat)
    requires Pair(pair) && CUT <= k < LENGTH
    requires EngineSound(ENGINE) && EngineSound(REANCHORED) && FinderSound(Find) && RescuerSound(RESCUER)
    ensures |pair| == LENGTH && Selected(REANCHORED, pair[..k], 0) == []
  {
    assert |pair| == LENGTH;
    hide EngineSound, FinderSound, RescuerSound, Selected, Taken, Pair, MayStart, Looked;
    var text := pair[..k];
    forall p: nat | p <= k
      ensures Taken(text[p..]).None?
    {
      SeenAt(pair, p, k);
      assert text[p..] == pair[p..k];
    }
    SelectsExactly(text, 0, []);
  }

  // ------------------------------------------------------------------ the passes

  /** Scanned up to the second value, the first one is accepted. */
  lemma GapShowsTheFirst(pair: string)
    requires Pair(pair) && EngineSound(ENGINE) && EngineSound(REANCHORED)
    ensures |pair| == LENGTH && ScanFrom(REANCHORED, pair, 0, 11) == [FIRST]
  {
    SeenAt(pair, 0, 11);
    assert pair[0..11] == pair[..11];
    hide SsnPrefix, Front, Taken, ScanFrom, EngineSound, SsnOk, IsCard;
    assert MatchAt(pair, 0, 11) == Some(FIRST) && Kept(Full, pair, FIRST) == Some(FIRST);
    ScanHere(pair, 0, 11);
    ScanHere(pair, 11, 11);
    NoMatchAtEnd(pair, 11);
    ScanPast(ENGINE, pair, 12, 11);
    SameForwardEngine();
    SameScan(ENGINE, REANCHORED, pair, 0, 11);
  }

  /** One pass, what it rescues and what the gaps show written out. */
  lemma PassIs(text: string, selected: seq<Match>, gaps: seq<Region>, rescued: seq<Match>, scanned: seq<Match>)
    requires EngineSound(REANCHORED) && Selection(text, 0, selected)
    requires gaps == GapsFrom(selected, 0, |text|) && forall k :: 0 <= k < |gaps| ==> gaps[k].to <= |text|
    requires RescueFound(REANCHORED, text, 0, selected) == rescued && ScanRegions(REANCHORED, text, gaps) == scanned
    ensures
      var merged := Resolve(selected + (rescued + scanned));
      Improve(REANCHORED, text, 0, selected)
        == if rescued + scanned == [] || SameSpans(merged, selected) then selected else merged
  {
    hide EngineSound, Selection, GapsFrom, RescueFound, ScanRegions, Resolve, SameSpans;
  }

  lemma OneGap(text: string, from: nat, to: nat)
    requires EngineSound(REANCHORED) && to <= |text|
    ensures ScanRegions(REANCHORED, text, [Region(from, to)]) == ScanFrom(REANCHORED, text, from, to)
  {
    hide EngineSound, ScanFrom;
    assert ScanRegions(REANCHORED, text, []) == [];
  }

  /** Once the second value is covered, the rescue finds nothing. */
  lemma NothingRescued(pair: string, covered: seq<Match>)
    requires Pair(pair) && EngineSound(REANCHORED) && RescuerSound(RESCUER) && Covered(11, covered)
    ensures RescueFound(REANCHORED, pair, 0, covered) == []
  {
    assert |pair| == LENGTH;
    hide EngineSound, RescuerSound, RescueFound, Taken, Pair, Covered, RescueAt, Looked;
    RescueLooks(pair, 0, covered);
    var found := RescueFound(REANCHORED, pair, 0, covered);
    if found != [] {
      var p := found[0].start;
      assert found[0] in found;
      RescueAtIsTaken(pair, p);
      NotShifted(Taken(pair[p..]), p);
      SeenIsSecond(pair, p);
      assert false;
    }
  }

  /** Of the whole pair, both values are selected. */
  lemma WholeSelectsBoth(pair: string)
    requires Pair(pair)
    requires EngineSound(ENGINE) && EngineSound(REANCHORED) && FinderSound(Find) && RescuerSound(RESCUER)
    ensures Selected(REANCHORED, pair, 0) == [FIRST, SECOND]
  {
    Places(pair);
    hide *;
    FirstPass(pair);
    ImproveSound(REANCHORED, pair, 0, []);
    SecondPass(pair);
    ImproveSound(REANCHORED, pair, 0, [SECOND]);
    ThirdPass(pair);
    Settles(REANCHORED, pair, 0, [FIRST, SECOND], 2);
    FourPasses(pair);
  }

  /** No value of the pair may start where it does: a digit follows the first, and the second follows a digit. */
  lemma NothingFirst(pair: string)
    requires Pair(pair) && FinderSound(Find)
    ensures Greedy(Find, pair, 0) == []
  {
    hide FinderSound, Greedy, Find, Pair;
    GreedyFinds(Find, pair, 0);
    if Greedy(Find, pair, 0) != [] {
      var m := Greedy(Find, pair, 0)[0];
      assert m in Greedy(Find, pair, 0);
      NothingMayStart(pair, m.start);
      assert false;
    }
  }

  lemma NothingMayStart(pair: string, p: nat)
    requires Pair(pair) && p < |pair|
    ensures Find(pair, p).None?
  {
    hide Taken, Pair, MayStart;
    SecondMayNotStart(pair);
    SeenIsSecond(pair, p);
  }

  lemma SecondMayNotStart(pair: string)
    requires Pair(pair)
    ensures |pair| == LENGTH && !MayStart(pair, 11)
  {
    Places(pair);
  }

  lemma FirstPass(pair: string)
    requires Pair(pair)
    requires EngineSound(ENGINE) && EngineSound(REANCHORED) && FinderSound(Find) && RescuerSound(RESCUER)
    ensures FirstSelection(REANCHORED, pair, 0) == [] && Selection(pair, 0, [])
    ensures Improve(REANCHORED, pair, 0, []) == [SECOND]
  {
    hide EngineSound, FinderSound, RescuerSound, Greedy, Taken, Pair, Selection, Improve, FirstSelection, Listed,
      NoneMissed, Rooted, SameBelow;
    SecondIsListed(pair, 0);
    NothingFirst(pair);
    FirstPassReaches(pair, 0, LENGTH, [SECOND]);
    ListedIsDisjoint(pair, 0, [SECOND]);
    SelectionWithin(pair, Improve(REANCHORED, pair, 0, []));
    SameBelowIsSame(Improve(REANCHORED, pair, 0, []), [SECOND], LENGTH);
  }

  lemma SelectionWithin(text: string, spans: seq<Match>)
    requires Selection(text, 0, spans)
    ensures Disjoint(spans) && Within(spans, 0, |text|)
  {
  }

  lemma SecondPass(pair: string)
    requires Pair(pair) && EngineSound(ENGINE) && EngineSound(REANCHORED) && RescuerSound(RESCUER)
    requires Selection(pair, 0, [SECOND])
    ensures Improve(REANCHORED, pair, 0, [SECOND]) == [FIRST, SECOND]
  {
    assert LENGTH == 22;
    hide *;
    GapShowsTheFirst(pair);
    BeforeSecond();
    NothingRescued(pair, [SECOND]);
    OneGap(pair, 0, 11);
    PassIs(pair, [SECOND], [Region(0, 11)], [], [FIRST]);
    BothInOrder();
  }

  lemma ThirdPass(pair: string)
    requires Pair(pair) && |pair| == LENGTH && EngineSound(REANCHORED) && RescuerSound(RESCUER)
    requires Selection(pair, 0, [FIRST, SECOND])
    ensures Improve(REANCHORED, pair, 0, [FIRST, SECOND]) == [FIRST, SECOND]
  {
    hide *;
    NoGapLeft();
    NothingRescued(pair, [FIRST, SECOND]);
    NoGaps(pair);
    PassIs(pair, [FIRST, SECOND], [], [], []);
  }

  lemma BeforeSecond()
    ensures GapsFrom([SECOND], 0, LENGTH) == [Region(0, 11)] && Covered(11, [SECOND])
  {
    assert Covers([SECOND][0], 11) && [SECOND][1..] == [];
  }

  lemma NoGapLeft()
    ensures GapsFrom([FIRST, SECOND], 0, LENGTH) == [] && Covered(11, [FIRST, SECOND])
  {
    var both := [FIRST, SECOND];
    assert Covers(both[1], 11) && both[1..] == [SECOND] && [SECOND][1..] == [];
    assert GapsFrom([SECOND], 11, LENGTH) == [];
  }

  lemma BothInOrder()
    ensures Resolve([SECOND] + ([] + [FIRST])) == [FIRST, SECOND] && !SameSpans([FIRST, SECOND], [SECOND])
  {
    var found := [SECOND] + ([] + [FIRST]);
    assert found[0] == SECOND && found[1..] == [FIRST];
    SortSorted([FIRST]);
    InsertSecond();
    hide Insert, Sweep;
    assert Sort(found) == Insert(SECOND, [FIRST]);
    SweepAll([FIRST, SECOND], -1);
  }

  lemma InsertSecond()
    ensures Insert(SECOND, [FIRST]) == [FIRST, SECOND]
  {
    assert [FIRST][1..] == [] && Insert(SECOND, []) == [SECOND];
    assert [FIRST] + [SECOND] == [FIRST, SECOND];
  }

  lemma NoGaps(text: string)
    requires EngineSound(REANCHORED)
    ensures ScanRegions(REANCHORED, text, []) == []
  {
  }

  lemma FourPasses(pair: string)
    requires EngineSound(REANCHORED) && Selection(pair, 0, []) && Selection(pair, 0, [SECOND])
    requires Selection(pair, 0, [FIRST, SECOND]) && FirstSelection(REANCHORED, pair, 0) == []
    requires Improve(REANCHORED, pair, 0, []) == [SECOND] && Improve(REANCHORED, pair, 0, [SECOND]) == [FIRST, SECOND]
    requires Passes(REANCHORED, pair, 0, [FIRST, SECOND], 2) == [FIRST, SECOND]
    ensures Selected(REANCHORED, pair, 0) == [FIRST, SECOND]
  {
    hide EngineSound, Improve, Selection, FirstSelection;
    assert Passes(REANCHORED, pair, 0, [SECOND], 3) == [FIRST, SECOND];
  }

  // ------------------------------------------------------------------ the outputs

  /** The second value is held. */
  lemma SecondIsHeld(s: Settings, pair: string, base: nat, k: nat)
    requires Pair(pair) && base <= 11 && CUT <= k <= LENGTH
    requires s.engine == REANCHORED && s.maxHoldback >= MAX_MATCH_LENGTH
    ensures |pair| == LENGTH && base <= HoldbackIndex(s, pair[..k], base) <= 11
  {
    var text := pair[..k];
    assert text[11..] == pair[11..][..k - 11];
    assert PartialAnywhere(text, 11);
    HoldsWherePartialAnywhere(text, 11);
    hide Pair, SsnPrefix, AllDigits, HoldsAt, FirstHeld;
  }

  /** The beginning of the first one is not, nor anything of it once the second is complete. */
  lemma FirstIsNotHeld(pair: string, k: nat, i: nat)
    requires Pair(pair) && CUT <= k <= LENGTH && i < 11 && (i == 0 || k == LENGTH)
    ensures |pair| == LENGTH && !HoldsAt(REANCHORED, pair[..k], i)
  {
    Places(pair);
    var text := pair[..k];
    var rest := text[i..];
    assert !SsnPrefix(rest);
    var sep := if i <= 3 then 3 else if i <= 6 then 6 else 14;
    SeparatorIsNoDigit(pair[sep]);
    assert rest[sep - i] == pair[sep];
    hide Pair, SsnPrefix, IsSeparator, KeywordPrecedes;
  }

  lemma PairHolds(s: Settings, pair: string, base: nat, k: nat)
    requires Pair(pair) && base <= 11 && CUT <= k <= LENGTH
    requires s.engine == REANCHORED && s.maxHoldback >= MAX_MATCH_LENGTH
    ensures |pair| == LENGTH && base <= HoldbackIndex(s, pair[..k], base) <= 11
    ensures HoldbackIndex(s, pair[..k], base) >= 1
    ensures k == LENGTH ==> HoldbackIndex(s, pair[..k], base) == 11
  {
    SecondIsHeld(s, pair, base, k);
    hide Pair, HoldsAt, FirstHeld;
    var hold := HoldbackIndex(s, pair[..k], base);
    if hold < 11 && (hold == 0 || k == LENGTH) {
      FirstIsNotHeld(pair, k, hold);
      assert false;
    }
  }

  lemma Edges(text: string, k: nat)
    requires k <= |text|
    ensures text[0..0] == "" && text[..0] == "" && text[..|text|] == text
    ensures text[0..k] == text[..k] && text[k..|text|] == text[k..]
  {
  }

  lemma CutOfBoth()
    ensures PushPast([FIRST, SECOND], 11) == 11 && UpTo([FIRST, SECOND], 11) == [FIRST]
    ensures PushPast([SECOND], 11) == 11 && UpTo([SECOND], 11) == [] && UpTo([SECOND], LENGTH) == [SECOND]
  {
    assert [FIRST, SECOND][1..] == [SECOND] && [SECOND][1..] == [];
    assert PushPast([SECOND], 11) == 11;
  }

  lemma CutOfNone(hold: nat)
    ensures PushPast([], hold) == hold && UpTo([], hold) == []
  {
  }

  /** A value on its own is replaced. */
  lemma Replaced(text: string, m: Match, placeholder: string)
    requires m.start < m.end && |text| == m.end - m.start
    ensures Fits([m], m.start, |text|) && Render(text, m.start, [m], placeholder) == placeholder
  {
    assert [m][1..] == [] && text[..0] == "" && text[|text|..] == "";
    assert "" + placeholder + "" == placeholder;
  }

  /** Fed in one piece, the first value is released and replaced. */
  lemma WholeFeeds(s: Settings, pair: string)
    requires Pair(pair) && s.engine == REANCHORED && s.maxHoldback >= MAX_MATCH_LENGTH
    requires EngineSound(ENGINE) && EngineSound(REANCHORED) && FinderSound(Find) && RescuerSound(RESCUER)
    ensures |pair| == LENGTH
    ensures FeedOne(s, Stream("", ""), pair) == Fed(s.placeholder, Stream(pair[11..], pair[..11]))
  {
    assert |pair| == LENGTH == 22 && FIRST.start == 0 && FIRST.end == 11 && CONTEXT_CHARS == 48 && CUT == 12;
    hide *;
    Edges(pair, 0);
    Edges(pair, 11);
    WholeSelectsBoth(pair);
    PairHolds(s, pair, 0, LENGTH);
    CutOfBoth();
    FeedIs(s, pair, 0, 0, LENGTH, [FIRST, SECOND], 11);
    Replaced(pair[0..11], FIRST, s.placeholder);
  }

  /** The second value, all that is held at the end, is replaced. */
  lemma LastFlush(s: Settings, pair: string)
    requires Pair(pair) && s.engine == REANCHORED
    requires EngineSound(ENGINE) && EngineSound(REANCHORED) && FinderSound(Find) && RescuerSound(RESCUER)
    ensures |pair| == LENGTH && FlushOne(s, Stream(pair[11..], pair[..11])) == s.placeholder
  {
    assert |pair| == LENGTH == 22 && SECOND.start == 11 && SECOND.end == 22 && CONTEXT_CHARS == 48;
    hide *;
    RestSelectsSecond(pair, 11);
    CutOfBoth();
    FlushIs(s, pair, 11, [SECOND]);
    Replaced(pair[11..], SECOND, s.placeholder);
  }

  /** Fed up to behind the first value, its beginning is released as it is, the rest when the second one comes. */
  lemma CutFeeds(s: Settings, pair: string, k: nat) returns (hold: nat)
    requires Pair(pair) && CUT <= k < LENGTH && s.engine == REANCHORED && s.maxHoldback >= MAX_MATCH_LENGTH
    requires EngineSound(ENGINE) && EngineSound(REANCHORED) && FinderSound(Find) && RescuerSound(RESCUER)
    ensures |pair| == LENGTH && hold <= 11
    ensures FeedOne(s, Stream("", ""), pair[..k]) == Fed(pair[..hold], Stream(pair[hold..k], pair[..hold]))
    ensures FeedOne(s, Stream(pair[hold..k], pair[..hold]), pair[k..])
         == Fed(pair[hold..11], Stream(pair[11..], pair[..11]))
  {
    assert |pair| == LENGTH == 22 && CONTEXT_CHARS == 48 && CUT == 12;
    hide *;
    hold := HoldbackIndex(s, pair[..k], 0);
    PairHolds(s, pair, 0, k);
    PairHolds(s, pair, hold, LENGTH);
    Edges(pair, k);
    Edges(pair, hold);
    Edges(pair, 11);
    ShortSelectsNothing(pair, k);
    CutOfNone(hold);
    FeedIs(s, pair, 0, 0, k, [], hold);
    RestSelectsSecond(pair, hold);
    CutOfBoth();
    FeedIs(s, pair, hold, k, LENGTH, [SECOND], 11);
    RendersAsIs(pair[..hold], 0, s.placeholder);
    RendersAsIs(pair[hold..11], hold, s.placeholder);
  }

  lemma Halves(pair: string, hold: nat, k: nat)
    requires hold <= k <= |pair|
    ensures pair[..hold] + pair[hold..k] == pair[..k] && pair[..k] + pair[k..] == pair
  {
  }

  /**
   For every pair and every placeholder: fed in one piece both values are replaced; cut anywhere between
   one character behind the first value and the end, the first is let through.
   */
  lemma PairsDependOnTheCut(placeholder: string, maxHoldback: nat, pair: string, k: nat)
    requires maxHoldback >= MAX_MATCH_LENGTH && Pair(pair) && CUT <= k < LENGTH
    ensures EngineSound(REANCHORED)
    ensures
      var s := Settings(REANCHORED, placeholder, maxHoldback);
      && Concat([pair[..k], pair[k..]]) == Concat([pair]) == pair
      && StreamOutput(s, [pair]) == placeholder + placeholder
      && StreamOutput(s, [pair[..k], pair[k..]]) == pair[..11] + placeholder
    ensures !NoneJoined(pair)
  {
    var s := Settings(REANCHORED, placeholder, maxHoldback);
    assert |pair| == LENGTH == 22;
    hide *;
    PairIsJoined(pair);
    ReanchoredIsSound();
    FindIsSound();
    WholeFeeds(s, pair);
    LastFlush(s, pair);
    OneFeed(s, pair);
    var hold := CutFeeds(s, pair, k);
    TwoFeeds(s, pair[..k], pair[k..]);
    Halves(pair, hold, 11);
    Halves(pair, k, k);
  }

  /** The first value shows only because the second one cuts the text off. */
  lemma PairIsJoined(pair: string)
    requires Pair(pair)
    ensures !NoneJoined(pair)
  {
    Places(pair);
    SeenAt(pair, 0, 11);
    SeenAt(pair, 11, LENGTH);
    SeenAt(pair, 0, LENGTH);
    hide Taken, Pair;
    assert pair[..LENGTH] == pair && pair[11..] == pair[11..LENGTH];
    assert CutsOff(pair[..LENGTH], 0, 11);
  }
}
