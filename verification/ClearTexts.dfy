/**
 Chunk invariance with re-anchoring on. What is selected is leftmost first among the values that start
 where the lookbehind allows it, no more than three digits into a number, or anywhere in a number that
 stands by itself: the positions the rescue pass looks at whatever was released before. It is so on every
 text in which no value is buried elsewhere, and none shows only because the next one, with nothing
 between them, cuts the text off.
 */
module ClearTexts {
  import opened Wrappers
  import opened Spans
  import opened Validators
  import opened Scan
  import opened Rescue
  import opened FixedPoint
  import opened Redactor
  import opened Streaming
  import opened ChunkInvariance
  import opened ForwardEngine
  import opened Reanchoring
  import opened RescuePasses

  /** More than three digits stand right before a position. */
  predicate Deep(text: string, i: nat)
    requires i <= |text|
  {
    i > MAX_STRAY_PREFIX && AllDigits(text[i - MAX_STRAY_PREFIX - 1..i])
  }

  /** The number begins `k` digits before `i`, with no run character on its left. */
  predicate BeginsAlone(text: string, i: nat, k: nat)
    requires k <= i <= |text|
  {
    AllDigits(text[i - k..i]) && (k == i || !IsRunChar(text[i - k - 1]))
  }

  /**
   The number at a position is a run by itself: no separator is beside it, and its beginning is within
   the carried context. The rescue pass looks everywhere in such a run.
   */
  predicate Alone(text: string, i: nat)
    requires i <= |text|
  {
    var end := i + LeadingDigits(text[i..]);
    && (end == |text| || !IsRunChar(text[end]))
    && exists k: nat :: k < CONTEXT_CHARS && k <= i && BeginsAlone(text, i, k)
  }

  /** Where the rescue pass looks for a bare number however the stream was cut. */
  predicate InSight(text: string, i: nat)
    requires i <= |text|
  {
    !Deep(text, i) || Alone(text, i)
  }

  /** The value at a position where the rescue pass looks; an SSN is seen anywhere. */
  function FindAll(text: string, i: nat): (m: Option<Match>)
    ensures m.Some? ==> m.value.start == i < m.value.end <= |text|
  {
    if i < |text| && Taken(text[i..]).Some? && (Taken(text[i..]).value.name == "ssn" || InSight(text, i))
    then Shift(Taken(text[i..]), i) else None
  }

  lemma FindAllIsSound()
    ensures FinderSound(FindAll)
  {
    hide FindAll;
  }

  lemma DeepBehind(before: string, text: string, i: nat)
    requires MAX_STRAY_PREFIX < i <= |text|
    ensures Deep(before + text, |before| + i) <==> Deep(text, i)
  {
    assert (before + text)[|before| + i - 4..|before| + i] == text[i - 4..i];
  }

  lemma BeginsBehind(before: string, text: string, i: nat, k: nat)
    requires k < i <= |text|
    ensures BeginsAlone(before + text, |before| + i, k) <==> BeginsAlone(text, i, k)
  {
    hide IsRunChar;
    assert (before + text)[|before| + i - k..|before| + i] == text[i - k..i];
  }

  lemma AloneBehind(before: string, text: string, i: nat)
    requires CONTEXT_CHARS <= i <= |text|
    ensures Alone(before + text, |before| + i) <==> Alone(text, i)
  {
    var whole, at := before + text, |before| + i;
    assert whole[at..] == text[i..];
    hide BeginsAlone, LeadingDigits, IsRunChar;
    if Alone(text, i) {
      var k: nat :| k < CONTEXT_CHARS && k <= i && BeginsAlone(text, i, k);
      BeginsBehind(before, text, i, k);
    }
    if Alone(whole, at) {
      var k: nat :| k < CONTEXT_CHARS && k <= at && BeginsAlone(whole, at, k);
      BeginsBehind(before, text, i, k);
    }
  }

  /** Text further left than the context hides no position and brings none into sight. */
  lemma InSightBehind(before: string, text: string, i: nat)
    requires i <= |text| && (before == "" || i >= CONTEXT_CHARS)
    ensures InSight(before + text, |before| + i) <==> InSight(text, i)
  {
    hide Deep, Alone;
    if before == "" {
      assert before + text == text;
    } else {
      DeepBehind(before, text, i);
      AloneBehind(before, text, i);
    }
  }

  /** The finder looks back no further than the context. */
  lemma FindAllLooksBack()
    ensures LooksBackAtMostContext(FindAll)
  {
    hide Taken, InSight;
    forall before: string, text: string, i: nat | CONTEXT_CHARS <= i <= |text|
      ensures SameAt(FindAll(before + text, |before| + i), FindAll(text, i), |before|)
    {
      assert (before + text)[|before| + i..] == text[i..];
      InSightBehind(before, text, i);
    }
  }

  // ------------------------------------------------------------ the hold-back

  lemma HoldsWherePartialAnywhere(text: string, i: nat)
    requires i < |text| && PartialAnywhere(text, i)
    ensures HoldsAt(REANCHORED, text, i)
  {
    var rest := text[i..];
    assert SsnPrefix(rest) ==> SsnPlace(0, rest[0]);
    assert IsDigit(text[i]);
    assert [text[i]][0..] == [text[i]] && Partial([text[i]], 0);
    hide KeywordPrecedes, SsnPrefix, AllDigits, Partial;
  }

  /** Whatever follows, the same stands at a position, and the end of its number is in the text. */
  predicate SteadyAt(text: string, i: nat, more: string)
    requires i <= |text|
  {
    && Taken((text + more)[i..]) == Taken(text[i..])
    && (Taken(text[i..]).Some? && more != "" ==> i + LeadingDigits(text[i..]) < |text|)
  }

  /** Before the hold index it is so everywhere. */
  ghost predicate Steady(text: string, base: nat, hold: nat, more: string) {
    forall i: nat :: base <= i < hold && i <= |text| ==> SteadyAt(text, i, more)
  }

  lemma LongIsNothing(rest: string)
    requires AllDigits(rest) && |rest| > CARD_MAX
    ensures Taken(rest).None?
  {
    LeadingDigitsAre(rest, |rest|);
    if SsnShaped(rest) {
      SsnHasSeparator(rest);
    }
  }

  lemma NumberEnds(rest: string)
    requires Taken(rest).Some? && !(AllDigits(rest) && |rest| <= CARD_MAX)
    ensures LeadingDigits(rest) < |rest|
  {
    hide Taken;
    LeadingDigitsOf(rest);
    if LeadingDigits(rest) == |rest| {
      LongIsNothing(rest);
    }
  }

  lemma SteadyBeforeHold(s: Settings, text: string, base: nat, more: string)
    requires s.engine == REANCHORED && s.maxHoldback >= MAX_MATCH_LENGTH && base <= |text|
    ensures Steady(text, base, HoldbackIndex(s, text, base), more)
  {
    hide Taken, HoldsAt, SsnPrefix, AllDigits, FirstHeld;
    forall i: nat | base <= i < HoldbackIndex(s, text, base)
      ensures SteadyAt(text, i, more)
    {
      var rest := text[i..];
      assert (text + more)[i..] == rest + more;
      if PartialAnywhere(text, i) {
        HoldsWherePartialAnywhere(text, i);
      }
      SsnPrefixIsShort(rest);
      TakenSettled(rest, more);
      if Taken(rest).Some? {
        NumberEnds(rest);
      }
    }
  }

  lemma BeginsBefore(text: string, i: nat, more: string, k: nat)
    requires k <= i <= |text|
    ensures BeginsAlone(text + more, i, k) <==> BeginsAlone(text, i, k)
  {
    hide IsRunChar;
    assert (text + more)[i - k..i] == text[i - k..i];
  }

  /** What follows the end of a number does not change whether it stands by itself. */
  lemma AloneBefore(text: string, i: nat, more: string)
    requires i <= |text| && i + LeadingDigits(text[i..]) < |text|
    ensures Alone(text + more, i) <==> Alone(text, i)
  {
    var longer, rest := text + more, text[i..];
    assert longer[i..] == rest + more;
    LeadingDigitsOf(rest);
    LeadingDigitsAre(longer[i..], LeadingDigits(rest));
    hide BeginsAlone, LeadingDigits, IsRunChar;
    if Alone(text, i) {
      var k: nat :| k < CONTEXT_CHARS && k <= i && BeginsAlone(text, i, k);
      BeginsBefore(text, i, more, k);
    }
    if Alone(longer, i) {
      var k: nat :| k < CONTEXT_CHARS && k <= i && BeginsAlone(longer, i, k);
      BeginsBefore(text, i, more, k);
    }
  }

  lemma InSightBefore(text: string, i: nat, more: string)
    requires i <= |text| && (more != "" ==> i + LeadingDigits(text[i..]) < |text|)
    ensures InSight(text + more, i) <==> InSight(text, i)
  {
    if more == "" {
      assert text + more == text;
    } else {
      AloneBefore(text, i, more);
      hide Alone;
      assert i > MAX_STRAY_PREFIX ==> (text + more)[i - 4..i] == text[i - 4..i];
    }
  }

  lemma SteadyIsFound(text: string, base: nat, hold: nat, more: string)
    requires Steady(text, base, hold, more) && hold <= |text|
    ensures forall i: nat :: base <= i < hold ==> FindAll(text + more, i) == FindAll(text, i)
  {
    hide Taken, InSight;
    forall i: nat | base <= i < hold
      ensures FindAll(text + more, i) == FindAll(text, i)
    {
      assert SteadyAt(text, i, more);
      if Taken(text[i..]).Some? {
        InSightBefore(text, i, more);
      }
    }
  }

  /** No continuation changes what is found before the re-anchored hold index. */
  lemma ReanchoredHoldIsSound(placeholder: string, maxHoldback: nat)
    requires maxHoldback >= MAX_MATCH_LENGTH
    ensures HoldSound(Settings(REANCHORED, placeholder, maxHoldback), FindAll)
  {
    hide FindAll, HoldbackIndex, Steady;
    var s := Settings(REANCHORED, placeholder, maxHoldback);
    forall text: string, base: nat, more: string, i: nat | base <= |text| && base <= i < HoldbackIndex(s, text, base)
      ensures FindAll(text + more, i) == FindAll(text, i)
    {
      assert HoldbackIndex(s, text, base) <= |text|;
      SteadyBeforeHold(s, text, base, more);
      SteadyIsFound(text, base, HoldbackIndex(s, text, base), more);
    }
  }

  // ------------------------------------------------------------ clear texts

  /** Whatever stands anywhere in the text, as a value or inside one, starts in a selected value. */
  ghost predicate NoneBuried(whole: string) {
    FindAllIsSound();
    forall p: nat :: p <= |whole| && Taken(whole[p..]).Some? ==> Covered(p, Greedy(FindAll, whole, 0))
  }

  /** However early the text ends, no value shows only because the start of another one cuts the text off. */
  ghost predicate NoneJoined(whole: string) {
    forall p: nat, c: nat, limit: nat :: p < c <= limit <= |whole| && CutsOff(whole[..limit], p, c) ==>
      Taken(whole[p..limit]).Some?
  }

  ghost predicate Clear(whole: string) {
    NoneBuried(whole) && NoneJoined(whole)
  }

  // ------------------------------------------------------- what is selected in a piece

  /** Where an SSN stands, or a number in sight, the rescue pass looks. */
  lemma ValueIsLooked(text: string, base: nat, p: nat)
    requires base <= p < |text| && Taken(text[p..]).Some?
    requires Taken(text[p..]).value.name == "ssn" || InSight(text, p)
    ensures Looked(text, base, p)
  {
    var rest := text[p..];
    TakenIsNumeric(rest);
    assert IsRunChar(rest[0]) && IsDigit(rest[0]);
    RunAt(text, base, p);
    hide NumericRuns, Taken, Alone, Deep;
    var run :| run in NumericRuns(text, base) && run.from <= p < run.to <= |text|;
    if SsnShaped(rest) {
      RunsOver(text, base, run, p, SSN_LENGTH);
      assert SsnPlace(3, rest[..SSN_LENGTH][3]);
      SeparatorIsNoDigit(text[p + 3]);
      assert BySeparator(text, run, p);
    } else if Alone(text, p) {
      AloneIsBare(text, base, run, p);
    } else if run.from < p && IsDigit(text[p - 1]) {
      ShallowIsStray(text, run, p);
    }
  }

  /** The run of a number that stands by itself holds no separator, whatever of it was released. */
  lemma AloneIsBare(text: string, base: nat, run: Region, p: nat)
    requires base <= |text| && run in NumericRuns(text, base) && run.from <= p < run.to <= |text| && Alone(text, p)
    ensures BareRun(text, run)
  {
    RunsStartMaximal(text, base, run);
    LeadingDigitsOf(text[p..]);
    hide NumericRuns, LeadingDigits;
    var end := p + LeadingDigits(text[p..]);
    var k: nat :| k < CONTEXT_CHARS && k <= p && BeginsAlone(text, p, k);
    assert run.from >= p - k && run.to <= end;
    forall i | run.from <= i < run.to
      ensures IsDigit(text[i])
    {
      assert i < p ==> text[p - k..p][i - (p - k)] == text[i];
      assert i >= p ==> text[p..][i - p] == text[i];
    }
    assert forall i :: run.from <= i < run.to ==> !IsSeparator(text[i]) by {
      forall i | run.from <= i < run.to
        ensures !IsSeparator(text[i])
      {
        SeparatorIsNoDigit(text[i]);
      }
    }
  }

  /** A run that holds the start of a value holds all of it. */
  lemma RunsOver(text: string, base: nat, run: Region, p: nat, n: nat)
    requires base <= |text| && run in NumericRuns(text, base) && run.from <= p < run.to <= |text|
    requires p + n <= |text| && forall k :: p <= k < p + n ==> IsRunChar(text[k])
    ensures p + n <= run.to
  {
    hide NumericRuns, IsRunChar;
    RunsStartMaximal(text, base, run);
  }

  lemma RunAt(text: string, base: nat, p: nat)
    requires base <= p < |text| && IsRunChar(text[p])
    ensures exists run :: run in NumericRuns(text, base) && run.from <= p < run.to <= |text|
  {
    RunsAreMaximal(text, base);
    hide IsRunChar, NumericRuns;
    var runs := NumericRuns(text, base);
    var k :| 0 <= k < |runs| && In(p, runs[k]);
    assert runs[k] in runs;
  }

  lemma ShallowIsStray(text: string, run: Region, p: nat)
    requires run.from < p < run.to <= |text| && IsDigit(text[p]) && IsDigit(text[p - 1]) && !Deep(text, p)
    ensures AfterStrayDigits(text, run, p)
  {
    if p - 1 == run.from || !IsDigit(text[p - 2]) {
      assert TokenStart(text, run, p, 1);
    } else if p - 2 == run.from || !IsDigit(text[p - 3]) {
      assert TokenStart(text, run, p, 2);
    } else {
      assert TokenStart(text, run, p, 3);
    }
  }

  /** What is selected leftmost first is a list of values of the text. */
  lemma GreedyIsListed(text: string, base: nat)
    requires FinderSound(FindAll) && base <= |text|
    ensures Listed(text, base, Greedy(FindAll, text, base))
  {
    hide *;
    var list := Greedy(FindAll, text, base);
    GreedySound(FindAll, text, base);
    FitsIsDisjoint(list, base, |text| - base);
    GreedyFinds(FindAll, text, base);
    forall m | m in list
      ensures StandsAt(text, m) && Looked(text, base, m.start)
    {
      FoundIsListed(text, base, m);
    }
    MakesList(text, base, list);
  }

  lemma MakesList(text: string, base: nat, list: seq<Match>)
    requires base <= |text| && Disjoint(list) && Within(list, base, |text|)
    requires forall m :: m in list ==> StandsAt(text, m) && Looked(text, base, m.start)
    ensures Listed(text, base, list)
  {
    hide StandsAt, Looked, Disjoint, Within;
  }

  lemma FoundIsListed(text: string, base: nat, m: Match)
    requires base <= m.start < |text| && FindAll(text, m.start) == Some(m)
    ensures StandsAt(text, m) && Looked(text, base, m.start)
  {
    hide Taken, Looked, InSight;
    ValueIsLooked(text, base, m.start);
  }

  lemma MovedMember(spans: seq<Match>, d: nat, m: Match)
    requires m in Moved(spans, d)
    ensures m.start >= d && m.end >= d && Match(m.start - d, m.end - d, m.name) in spans
  {
    if m != Moved(spans, d)[0] {
      MovedMember(spans[1..], d, m);
    }
  }

  /** What is covered in the whole text before the hold index is covered in the piece. */
  lemma CoveredInPiece(whole: string, before: string, text: string, after: string, base: nat, hold: nat, p: nat)
    requires FinderSound(FindAll) && LooksBackAtMostContext(FindAll)
    requires Piece(whole, before, text, after, base) && Unsplit(FindAll, whole, |before| + base)
    requires hold <= |text| && Steady(text, base, hold, after)
    requires base <= p < hold && Covered(|before| + p, Greedy(FindAll, whole, 0))
    ensures Covered(p, Greedy(FindAll, text, base))
  {
    hide *;
    PieceBase(whole, before, text, after, base);
    var n := CoversBehind(whole, before, text, after, base, p);
    HeldApart(text, after, base, hold, n);
    CoversAt(n, p);
    CoversIt(p, Greedy(FindAll, text, base), n);
  }

  lemma CoversAt(m: Match, p: int)
    ensures Covers(m, p) <==> m.start <= p < m.end
  {
  }

  /** What covers a position behind an unsplit one is selected from there on too. */
  lemma CoversBehind(whole: string, before: string, text: string, after: string, base: nat, p: nat) returns (n: Match)
    requires FinderSound(FindAll) && LooksBackAtMostContext(FindAll)
    requires Piece(whole, before, text, after, base) && Unsplit(FindAll, whole, |before| + base)
    requires base <= p <= |text| && Covered(|before| + p, Greedy(FindAll, whole, 0))
    ensures n in Greedy(FindAll, text + after, base) && n.start <= p < n.end
  {
    Reassociated(before, text, after);
    hide FinderSound, LooksBackAtMostContext, Greedy, Covered, FindAll, Moved;
    var d := |before|;
    var m := CoveredBy(d + p, Greedy(FindAll, whole, 0));
    GreedyBehind(FindAll, whole, 0, d + base);
    GreedyMoved(FindAll, before, text + after, base);
    MovedMember(Greedy(FindAll, text + after, base), d, m);
    n := Match(m.start - d, m.end - d, m.name);
  }

  /** What starts before the hold index is selected before it is known what follows. */
  lemma HeldApart(text: string, after: string, base: nat, hold: nat, n: Match)
    requires FinderSound(FindAll) && base <= hold <= |text| && Steady(text, base, hold, after)
    requires n in Greedy(FindAll, text + after, base) && n.start < hold
    ensures n in Greedy(FindAll, text, base)
  {
    SteadyIsFound(text, base, hold, after);
    hide FinderSound, Greedy, FindAll, Steady, UpTo, PushPast;
    GreedyCut(FindAll, text, after, base, hold);
    var spans := Greedy(FindAll, text, base);
    PushPastGrows(spans, hold);
    GreedyFinds(FindAll, text + after, PushPast(spans, hold));
    UpToIsPart(spans, PushPast(spans, hold));
  }

  lemma UpToIsPart(spans: seq<Match>, hold: nat)
    ensures forall m :: m in UpTo(spans, hold) ==> m in spans
  {
  }

  lemma SameStart(whole: string, before: string, text: string, after: string, base: nat, p: nat)
    requires Piece(whole, before, text, after, base) && base <= p <= |text|
    ensures MayStart(whole[..|before| + |text|], |before| + p) <==> MayStart(text, p)
  {
  }

  lemma SameSlice(before: string, text: string, after: string, p: nat, to: nat)
    requires p <= to <= |text|
    ensures (before + text + after)[|before| + p..|before| + to] == text[p..to]
    ensures (before + text + after)[..|before| + |text|][|before| + p..|before| + to] == text[p..to]
  {
  }

  /** In a piece of a clear text that splits no value, the leftmost-first list stands before the hold index. */
  lemma PieceStands(whole: string, before: string, text: string, after: string, base: nat, hold: nat)
    requires FinderSound(FindAll) && LooksBackAtMostContext(FindAll) && Clear(whole)
    requires Piece(whole, before, text, after, base) && Unsplit(FindAll, whole, |before| + base)
    requires hold <= |text| && Steady(text, base, hold, after)
    ensures Standing(text, base, hold, Greedy(FindAll, text, base))
  {
    hide FinderSound, LooksBackAtMostContext, Greedy, Covered, Taken, Looked, Listed, Unsplit;
    var list, d := Greedy(FindAll, text, base), |before|;
    GreedyIsListed(text, base);
    forall p: nat | base <= p < hold && p <= |text| && Taken(text[p..]).Some?
      ensures Covered(p, list)
    {
      assert whole[d + p..] == (text + after)[p..] && SteadyAt(text, p, after);
      CoveredInPiece(whole, before, text, after, base, hold, p);
    }
    forall p: nat, c: nat | base <= p < c <= |text| && p < hold && CutsOff(text, p, c)
      ensures Taken(text[p..]).Some?
    {
      PieceCutsOff(whole, before, text, after, base, p, c);
    }
  }

  lemma PieceCutsOff(whole: string, before: string, text: string, after: string, base: nat, p: nat, c: nat)
    requires NoneJoined(whole) && Piece(whole, before, text, after, base)
    requires base <= p < c <= |text| && CutsOff(text, p, c)
    ensures Taken(text[p..]).Some?
  {
    hide Taken;
    var d, limit := |before|, |before| + |text|;
    var part := whole[..limit];
    SameSlice(before, text, after, p, c);
    SameSlice(before, text, after, p, |text|);
    SameSlice(before, text, after, c, |text|);
    SameStart(whole, before, text, after, base, p);
    assert text[p..|text|] == text[p..] && text[c..|text|] == text[c..];
    assert part[d + c..] == text[c..] && part[d + c - 1] == text[c - 1];
    assert CutsOff(part, d + p, d + c);
  }

  /** In every such piece the selection is the leftmost-first one, as far as it is released. */
  lemma ClearScansAs(s: Settings, whole: string, before: string, text: string, after: string, base: nat)
    requires EngineSound(ENGINE) && EngineSound(REANCHORED) && RescuerSound(RESCUER) && FinderSound(Find)
    requires FinderSound(FindAll) && LooksBackAtMostContext(FindAll) && Clear(whole)
    requires s.engine == REANCHORED && s.maxHoldback >= MAX_MATCH_LENGTH
    requires Piece(whole, before, text, after, base) && Unsplit(FindAll, whole, |before| + base)
    ensures ReleasedAlike(Selected(REANCHORED, text, base), Greedy(FindAll, text, base), HoldbackIndex(s, text, base))
    ensures after == "" ==> Selected(REANCHORED, text, base) == Greedy(FindAll, text, base)
  {
    var hold := HoldbackIndex(s, text, base);
    SteadyBeforeHold(s, text, base, after);
    PieceBase(whole, before, text, after, base);
    assert hold <= |text|;
    assert after == "" ==> Steady(text, base, |text|, after) by { assert text + "" == text; }
    hide *;
    var list := Greedy(FindAll, text, base);
    PieceStands(whole, before, text, after, base, hold);
    SelectsWhatStands(text, base, hold, list);
    SelectedSpans(text, base);
    SameBelowIsReleasedAlike(Selected(REANCHORED, text, base), list, hold);
    if after == "" {
      PieceStands(whole, before, text, after, base, |text|);
      SelectsExactly(text, base, list);
    }
  }

  lemma PieceBase(whole: string, before: string, text: string, after: string, base: nat)
    requires Piece(whole, before, text, after, base)
    ensures base <= |text|
  {
  }

  lemma SelectedSpans(text: string, base: nat)
    requires EngineSound(REANCHORED) && base <= |text|
    ensures Disjoint(Selected(REANCHORED, text, base)) && Spanning(Selected(REANCHORED, text, base))
  {
    hide EngineSound, Selected;
    SelectedSound(REANCHORED, text, base);
  }

  /** Chunk invariance with re-anchoring on: every assumption is met on every clear text. */
  lemma ClearStreamable(placeholder: string, maxHoldback: nat, whole: string)
    requires maxHoldback >= MAX_MATCH_LENGTH && Clear(whole)
    ensures Streamable(Settings(REANCHORED, placeholder, maxHoldback), FindAll, whole)
  {
    hide EngineSound, FinderSound, RescuerSound, LooksBackAtMostContext, HoldSound, Selected, Greedy, Clear,
      HoldbackIndex, ReleasedAlike, Unsplit;
    var s := Settings(REANCHORED, placeholder, maxHoldback);
    ReanchoredIsSound();
    FindIsSound();
    FindAllIsSound();
    FindAllLooksBack();
    ReanchoredHoldIsSound(placeholder, maxHoldback);
    forall before: string, text: string, after: string, base: nat
      | Piece(whole, before, text, after, base) && Unsplit(FindAll, whole, |before| + base)
      ensures
        var chosen, spans := Selected(REANCHORED, text, base), Greedy(FindAll, text, base);
        ReleasedAlike(chosen, spans, HoldbackIndex(s, text, base)) && (after == "" ==> chosen == spans)
    {
      ClearScansAs(s, whole, before, text, after, base);
    }
  }

  /** The redactor object itself, re-anchoring on, over every way of cutting a clear text. */
  method RedactReanchored(placeholder: string, maxHoldback: nat, chunks: seq<string>) returns (r: string)
    requires maxHoldback >= MAX_MATCH_LENGTH
    ensures FinderSound(FindAll) && Fits(Greedy(FindAll, Concat(chunks), 0), 0, |Concat(chunks)|)
    ensures Clear(Concat(chunks)) ==> r == Render(Concat(chunks), 0, Greedy(FindAll, Concat(chunks), 0), placeholder)
  {
    hide *;
    ReanchoredIsSound();
    FindAllIsSound();
    GreedySound(FindAll, Concat(chunks), 0);
    if Clear(Concat(chunks)) {
      ClearStreamable(placeholder, maxHoldback, Concat(chunks));
      ChunksDoNotMatter(Settings(REANCHORED, placeholder, maxHoldback), FindAll, chunks);
    }
    r := RedactChunks(REANCHORED, placeholder, maxHoldback, chunks);
  }

  // ------------------------------------------------------- how far the conditions reach

  lemma {:induction false} DigitsOfConcat(a: string, b: string)
    ensures DigitsOf(a + b) == DigitsOf(a) + DigitsOf(b)
  {
    FirstDigits(a);
    FirstDigits(a + b);
    hide DigitsOf;
    if a == "" {
      assert a + b == b;
    } else {
      assert (a + b)[1..] == a[1..] + b;
      DigitsOfConcat(a[1..], b);
      Reassociated(if IsDigit(a[0]) then [a[0]] else "", DigitsOf(a[1..]), DigitsOf(b));
    }
  }

  lemma FirstDigits(s: string)
    ensures DigitsOf(s) == if s == "" then "" else (if IsDigit(s[0]) then [s[0]] else "") + DigitsOf(s[1..])
  {
  }

  lemma DigitsInParts(text: string, p: nat, c: nat, limit: nat)
    requires p <= c <= limit <= |text|
    ensures |DigitsOf(text[p..c])| + |DigitsOf(text[c..limit])| <= |DigitsOf(text)|
  {
    hide DigitsOf;
    DigitsOfConcat(text[..p] + text[p..c] + text[c..limit], text[limit..]);
    DigitsOfConcat(text[..p] + text[p..c], text[c..limit]);
    DigitsOfConcat(text[..p], text[p..c]);
    assert text == text[..p] + text[p..c] + text[c..limit] + text[limit..];
  }

  lemma TakenHasDigits(rest: string)
    requires Taken(rest).Some?
    ensures |DigitsOf(rest[..Taken(rest).value.end])| >= if Taken(rest).value.name == "ssn" then 9 else CARD_MIN
    ensures |DigitsOf(rest)| >= |DigitsOf(rest[..Taken(rest).value.end])|
  {
    hide *;
    var end := Taken(rest).value.end;
    TakenIsAccepted(rest);
    ValidHasDigits(rest[..end]);
    DigitsOfConcat(rest[..end], rest[end..]);
    assert rest == rest[..end] + rest[end..];
  }

  lemma ValidHasDigits(value: string)
    ensures SsnOk(value) ==> |DigitsOf(value)| == 9
    ensures IsCard(value) ==> |DigitsOf(value)| >= CARD_MIN
  {
    hide DigitsOf, CardScheme, LuhnOk;
  }

  lemma DeepHasMany(text: string, p: nat)
    requires p <= |text| && Deep(text, p) && Taken(text[p..]).Some? && Taken(text[p..]).value.name != "ssn"
    ensures |DigitsOf(text)| > 16
  {
    hide Taken, DigitsOf;
    TakenHasDigits(text[p..]);
    DigitsInParts(text, p - 4, p, |text|);
    assert text[p..|text|] == text[p..] && DigitsOf(text[p - 4..p]) == text[p - 4..p];
  }

  lemma JoinedHasMany(text: string, p: nat, c: nat, limit: nat)
    requires p < c <= limit <= |text| && CutsOff(text[..limit], p, c)
    ensures |DigitsOf(text)| > 16
  {
    hide Taken, DigitsOf;
    assert text[..limit][p..c] == text[p..c] && text[..limit][c..] == text[c..limit];
    TakenHasDigits(text[p..c]);
    TakenHasDigits(text[c..limit]);
    DigitsInParts(text, p, c, limit);
  }

  /** Every text of at most sixteen digits is clear: a lone card number or SSN, whatever is written around it. */
  lemma SixteenDigitsAreClear(text: string)
    requires |DigitsOf(text)| <= 16
    ensures Clear(text)
  {
    FindAllIsSound();
    hide Taken, Greedy, DigitsOf, FinderSound, Covered, CutsOff;
    forall p: nat | p <= |text| && Taken(text[p..]).Some?
      ensures Covered(p, Greedy(FindAll, text, 0))
    {
      TakenStartsWithDigit(text[p..]);
      if !Covered(p, Greedy(FindAll, text, 0)) {
        UncoveredIsNotFound(FindAll, text, 0, p);
        DeepHasMany(text, p);
        assert false;
      }
    }
    forall p: nat, c: nat, limit: nat | p < c <= limit <= |text|
      ensures !CutsOff(text[..limit], p, c)
    {
      if CutsOff(text[..limit], p, c) {
        JoinedHasMany(text, p, c, limit);
        assert false;
      }
    }
  }

  lemma TakenStartsWithDigit(rest: string)
    requires Taken(rest).Some?
    ensures rest != "" && IsDigit(rest[0])
  {
    TakenIsNumeric(rest);
  }

  /** Nothing but digits, with no digit elsewhere and no run character beside them. */
  predicate Lone(left: string, number: string, right: string) {
    && AllDigits(number) && DigitsOf(left) == "" && DigitsOf(right) == ""
    && (left != "" ==> !IsRunChar(left[|left| - 1])) && (right != "" ==> !IsRunChar(right[0]))
  }

  lemma {:induction false} NoDigitIn(s: string, i: nat)
    requires DigitsOf(s) == "" && i < |s|
    ensures !IsDigit(s[i])
  {
    if i > 0 {
      NoDigitIn(s[1..], i - 1);
    }
  }

  /** The digits of such a text are those of the number. */
  lemma LonePlaces(left: string, number: string, right: string, p: nat)
    requires Lone(left, number, right) && p < |left + number + right|
    ensures IsDigit((left + number + right)[p]) <==> |left| <= p < |left| + |number|
  {
    hide DigitsOf;
    if p < |left| {
      NoDigitIn(left, p);
    } else if p >= |left| + |number| {
      NoDigitIn(right, p - |left| - |number|);
    }
  }

  /** A value in such a text, or in a part of it, is a card of at least thirteen of the number's digits. */
  lemma LoneValue(left: string, number: string, right: string, p: nat, limit: nat)
    requires Lone(left, number, right) && p <= limit <= |left + number + right|
    requires Taken((left + number + right)[p..limit]).Some?
    ensures |left| <= p && p + CARD_MIN <= limit && p + CARD_MIN <= |left| + |number|
  {
    var text := left + number + right;
    var rest := text[p..limit];
    TakenIsNumeric(rest);
    LeadingDigitsOf(rest);
    hide Lone, Taken, LeadingDigits;
    assert text[p] == rest[0];
    LonePlaces(left, number, right, p);
    if SsnShaped(rest) {
      var shape := rest[..SSN_LENGTH];
      assert SsnPlace(3, shape[3]) && SsnPlace(4, shape[4]) && shape[3] == text[p + 3] && shape[4] == text[p + 4];
      SeparatorIsNoDigit(shape[3]);
      LonePlaces(left, number, right, p + 3);
      LonePlaces(left, number, right, p + 4);
      assert false;
    }
    assert rest[CARD_MIN - 1] == text[p + CARD_MIN - 1];
    LonePlaces(left, number, right, p + CARD_MIN - 1);
  }

  lemma LoneIsAlone(left: string, number: string, right: string, p: nat)
    requires Lone(left, number, right) && |left| <= p < |left| + |number| && |number| <= CONTEXT_CHARS
    ensures Alone(left + number + right, p)
  {
    var text, n := left + number + right, |left| + |number| - p;
    assert forall k :: 0 <= k < n ==> text[p..][k] == number[p - |left| + k];
    assert n < |text[p..]| ==> text[p..][n] == right[0];
    LeadingDigitsAre(text[p..], n);
    assert text[|left|..p] == number[..p - |left|];
    assert left != "" ==> text[|left| - 1] == left[|left| - 1];
    hide DigitsOf, LeadingDigits;
    assert BeginsAlone(text, p, p - |left|);
  }

  /** Every text with one number of at most 25 digits, no separator beside it, is clear, wherever a card lies in it. */
  lemma LoneNumberIsClear(left: string, number: string, right: string)
    requires Lone(left, number, right) && |number| < 2 * CARD_MIN
    ensures Clear(left + number + right)
  {
    var text := left + number + right;
    FindAllIsSound();
    hide Taken, Greedy, FinderSound, Covered, Lone, Alone;
    forall p: nat | p <= |text| && Taken(text[p..]).Some?
      ensures Covered(p, Greedy(FindAll, text, 0))
    {
      assert text[p..|text|] == text[p..];
      LoneValue(left, number, right, p, |text|);
      LoneIsAlone(left, number, right, p);
      if !Covered(p, Greedy(FindAll, text, 0)) {
        UncoveredIsNotFound(FindAll, text, 0, p);
        assert false;
      }
    }
    forall p: nat, c: nat, limit: nat | p < c <= limit <= |text|
      ensures !CutsOff(text[..limit], p, c)
    {
      if CutsOff(text[..limit], p, c) {
        assert text[..limit][p..c] == text[p..c] && text[..limit][c..] == text[c..limit];
        LoneValue(left, number, right, p, c);
        LoneValue(left, number, right, c, limit);
        assert false;
      }
    }
  }

  /** A value where a piece starts is looked at, so it is selected. */
  lemma SelectsAtBase(text: string, base: nat)
    requires EngineSound(ENGINE) && EngineSound(REANCHORED) && FinderSound(Find) && RescuerSound(RESCUER)
    requires base < |text| && !MayStart(text, base) && Taken(text[base..]).Some?
    ensures exists m :: m in Selected(REANCHORED, text, base) && m.start == base
  {
    hide EngineSound, FinderSound, RescuerSound, Taken, Selected;
    TakenThere(text, base);
    ItStands(text, base);
    TakenStartsWithDigit(text[base..]);
    var m := Shift(Taken(text[base..]), base).value;
    BaseIsLooked(text, base);
    assert Listed(text, base, [m]);
    assert Covers([m][0], base);
    assert Standing(text, base, base + 1, [m]);
    SelectsWhatStands(text, base, base + 1, [m]);
    assert m in [m];
  }

  lemma BaseIsLooked(text: string, base: nat)
    requires base < |text| && IsDigit(text[base])
    ensures Looked(text, base, base)
  {
    assert NumericRuns(text, base)[0] == Region(base, RunEnd(text, base));
    hide NumericRuns;
    assert Region(base, RunEnd(text, base)) in NumericRuns(text, base);
  }

  /** Seen in the piece that starts right at it, with what context there is, a buried value is not found. */
  lemma BuriedPiece(whole: string, p: nat) returns (before: string, text: string, base: nat)
    requires p <= |whole| && Taken(whole[p..]).Some? && FindAll(whole, p).None?
    ensures Piece(whole, before, text, "", base) && |before| + base == p
    ensures base < |text| && !MayStart(text, base) && Taken(text[base..]).Some? && FindAll(text, base).None?
  {
    hide Taken;
    TakenStartsWithDigit(whole[p..]);
    var from := if p > CONTEXT_CHARS then p - CONTEXT_CHARS else 0;
    before, text, base := whole[..from], whole[from..], p - from;
    assert whole == before + text + "";
    assert text[base..] == whole[p..] && whole == before + text;
    InSightBehind(before, text, base);
    assert IsDigit(whole[p - 4..p][3]);
  }

  lemma NotFoundNotSelected(text: string, base: nat)
    requires FinderSound(FindAll) && base <= |text| && FindAll(text, base).None?
    ensures forall m :: m in Greedy(FindAll, text, base) ==> m.start != base
  {
    hide FindAll, FinderSound, Greedy;
    GreedyFinds(FindAll, text, base);
  }

  /** A buried value is selected when a piece starts right at it, and not otherwise. */
  lemma BuriedIsSeen(s: Settings, whole: string, p: nat)
    requires EngineSound(ENGINE) && EngineSound(REANCHORED) && FinderSound(Find) && RescuerSound(RESCUER)
    requires FinderSound(FindAll) && s.engine == REANCHORED && Streamable(s, FindAll, whole)
    requires p <= |whole| && Taken(whole[p..]).Some?
    ensures Covered(p, Greedy(FindAll, whole, 0))
  {
    hide *;
    if !Covered(p, Greedy(FindAll, whole, 0)) {
      StreamableHas(s, FindAll, whole);
      UncoveredIsNotFound(FindAll, whole, 0, p);
      UncoveredIsUnsplit(whole, p);
      var before, text, base := BuriedPiece(whole, p);
      SelectsGreedily(s, FindAll, whole, before, text, "", base);
      SelectsAtBase(text, base);
      NotFoundNotSelected(text, base);
      assert false;
    }
  }

  lemma UncoveredIsUnsplit(whole: string, p: nat)
    requires FinderSound(FindAll) && !Covered(p, Greedy(FindAll, whole, 0))
    ensures Unsplit(FindAll, whole, p)
  {
    hide FinderSound, Greedy, Covered, FindAll;
    forall m | m in Greedy(FindAll, whole, 0)
      ensures !(m.start < p < m.end)
    {
      if m.start < p < m.end {
        CoversIt(p, Greedy(FindAll, whole, 0), m);
      }
    }
  }

  /**
   Among the texts in which no value is joined to the next, the assumptions of chunk invariance hold
   exactly of those in which none is buried; and on no text at all do they hold when one is.
   */
  lemma StreamableExactly(placeholder: string, maxHoldback: nat, whole: string)
    requires maxHoldback >= MAX_MATCH_LENGTH
    ensures
      var streamable := Streamable(Settings(REANCHORED, placeholder, maxHoldback), FindAll, whole);
      && (streamable ==> NoneBuried(whole))
      && (NoneJoined(whole) ==> (streamable <==> NoneBuried(whole)))
  {
    hide NoneJoined, Streamable, Covered, Greedy, Taken, EngineSound, FinderSound, RescuerSound;
    var s := Settings(REANCHORED, placeholder, maxHoldback);
    ReanchoredIsSound();
    FindIsSound();
    FindAllIsSound();
    if Clear(whole) {
      ClearStreamable(placeholder, maxHoldback, whole);
    }
    if Streamable(s, FindAll, whole) {
      forall p: nat | p <= |whole| && Taken(whole[p..]).Some?
        ensures Covered(p, Greedy(FindAll, whole, 0))
      {
        BuriedIsSeen(s, whole, p);
      }
    }
  }

  // ------------------------------------------------------- where re-anchoring acts at all

  /** No value starts where the lookbehind forbids it, in the text or in a part of it that ends early. */
  ghost predicate Unglued(whole: string) {
    forall p: nat, limit: nat :: p <= limit <= |whole| && !MayStart(whole, p) ==> Taken(whole[p..limit]).None?
  }

  /** With re-anchoring and without, the same is selected in every piece of a text. */
  ghost predicate ActsNowhere(whole: string) {
    ReanchoredIsSound();
    forall before: string, text: string, after: string, base: nat :: Piece(whole, before, text, after, base) ==>
      Selected(REANCHORED, text, base) == Selected(ENGINE, text, base)
  }

  lemma UngluedPiece(whole: string, before: string, text: string, after: string, base: nat)
    requires FinderSound(Find) && Unglued(whole) && Piece(whole, before, text, after, base)
    ensures base <= |text| && Standing(text, base, |text|, Greedy(Find, text, base))
  {
    hide Taken, FinderSound, Greedy, Looked, Fits, Covered;
    var list := Greedy(Find, text, base);
    GreedySound(Find, text, base);
    FitsIsDisjoint(list, base, |text| - base);
    GreedyFinds(Find, text, base);
    forall m | m in list
      ensures StandsAt(text, m) && Looked(text, base, m.start)
    {
      ValueIsLooked(text, base, m.start);
    }
    forall p: nat | base <= p <= |text| && Taken(text[p..]).Some?
      ensures MayStart(text, p) && Covered(p, list)
    {
      SameSlice(before, text, after, p, |text|);
      assert text[p..|text|] == text[p..];
      TakenStartsWithDigit(text[p..]);
      SameStart(whole, before, text, after, base, p);
      assert MayStart(whole, |before| + p);
      if !Covered(p, list) {
        UncoveredIsNotFound(Find, text, base, p);
        assert false;
      }
    }
  }

  /** A value that starts in spite of the lookbehind, seen in a piece that starts right at it. */
  lemma GluedPiece(whole: string, p: nat, limit: nat) returns (before: string, text: string, base: nat)
    requires p <= limit <= |whole| && !MayStart(whole, p) && Taken(whole[p..limit]).Some?
    ensures Piece(whole, before, text, whole[limit..], base)
    ensures base < |text| && !MayStart(text, base) && Taken(text[base..]).Some?
  {
    assert CONTEXT_CHARS == 48;
    hide *;
    TakenStartsWithDigit(whole[p..limit]);
    var from := if p > CONTEXT_CHARS then p - CONTEXT_CHARS else 0;
    MustNotStart(whole, p);
    before, text, base := whole[..from], whole[from..limit], p - from;
    SliceOfSlice(whole, from, p, limit);
    IsPiece(whole, from, limit, base);
  }

  lemma MustNotStart(whole: string, p: nat)
    requires p <= |whole| && !MayStart(whole, p)
    ensures p > 0
  {
  }

  lemma IsPiece(whole: string, from: nat, limit: nat, base: nat)
    requires from <= limit <= |whole| && base <= limit - from && base <= CONTEXT_CHARS
    requires (from == 0 || base == CONTEXT_CHARS)
    ensures Piece(whole, whole[..from], whole[from..limit], whole[limit..], base)
  {
    assert whole == whole[..from] + whole[from..limit] + whole[limit..];
  }

  lemma SliceOfSlice(whole: string, from: nat, p: nat, limit: nat)
    requires from <= p <= limit <= |whole|
    ensures whole[from..limit][p - from..] == whole[p..limit]
    ensures from < p ==> (MayStart(whole[from..limit], p - from) <==> MayStart(whole, p))
  {
  }

  lemma SelectedMayStart(text: string, base: nat)
    requires EngineSound(ENGINE) && FinderSound(Find) && base <= |text|
    ensures forall m :: m in Selected(ENGINE, text, base) ==> m.start <= |text| && MayStart(text, m.start)
  {
    SelectsAsGreedy(text, base);
    hide EngineSound, FinderSound, Taken, Selected, Greedy;
    GreedyFinds(Find, text, base);
  }

  /**
   Re-anchoring changes what is selected in some piece of a text exactly if a value starts, in the text
   or in a part of it that ends early, where the lookbehind forbids it.
   */
  lemma ReanchoringActsExactly(whole: string)
    ensures ActsNowhere(whole) <==> Unglued(whole)
  {
    hide EngineSound, FinderSound, RescuerSound, Selected, Greedy, Taken, Standing, MayStart;
    ReanchoredIsSound();
    FindIsSound();
    if Unglued(whole) {
      hide Unglued;
      forall before: string, text: string, after: string, base: nat | Piece(whole, before, text, after, base)
        ensures Selected(REANCHORED, text, base) == Selected(ENGINE, text, base)
      {
        UngluedPiece(whole, before, text, after, base);
        SelectsExactly(text, base, Greedy(Find, text, base));
        SelectsAsGreedy(text, base);
      }
    }
    if ActsNowhere(whole) {
      forall p: nat, limit: nat | p <= limit <= |whole| && !MayStart(whole, p)
        ensures Taken(whole[p..limit]).None?
      {
        if Taken(whole[p..limit]).Some? {
          var before, text, base := GluedPiece(whole, p, limit);
          SelectsAtBase(text, base);
          SelectedMayStart(text, base);
          assert false;
        }
      }
    }
  }

  /** Where re-anchoring does not act, the text is clear. */
  lemma UngluedIsClear(whole: string)
    requires Unglued(whole)
    ensures Clear(whole)
  {
    FindAllIsSound();
    hide Taken, Greedy, FinderSound, Covered;
    forall p: nat | p <= |whole| && Taken(whole[p..]).Some?
      ensures Covered(p, Greedy(FindAll, whole, 0))
    {
      assert whole[p..|whole|] == whole[p..];
      TakenStartsWithDigit(whole[p..]);
      assert MayStart(whole, p);
      if !Covered(p, Greedy(FindAll, whole, 0)) {
        UncoveredIsNotFound(FindAll, whole, 0, p);
        assert false;
      }
    }
    forall p: nat, c: nat, limit: nat | p < c <= limit <= |whole|
      ensures !CutsOff(whole[..limit], p, c)
    {
      assert whole[..limit][c..] == whole[c..limit];
    }
  }
}
