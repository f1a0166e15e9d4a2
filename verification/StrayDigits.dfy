/**
 The other way the output depends on the cut: a card number buried more than three digits deep in a
 number. Stray digits are counted from the release point on, so what was released before decides
 whether the number is looked at.
 */
module StrayDigits {
  import opened Wrappers
  import opened Spans
  import opened Validators
  import opened Scan
  import opened Rescue
  import opened FixedPoint
  import opened Redactor
  import opened Streaming
  import opened ChunkInvariance
  import opened ForwardEngine
  import opened Reanchoring
  import opened RescuePasses
  import opened ClearTexts

  const STRAY := "99999"
  const CARD: Match := Match(5, 21, "credit_card")

  predicate Number16(card: string) {
    |card| == 16 && AllDigits(card) && IsCard(card)
  }

  /** A card number with five digits before it, and a word behind it. */
  function Buried(card: string): string {
    STRAY + card + " x"
  }

  lemma Places(card: string)
    requires Number16(card)
    ensures
      var text := Buried(card);
      && |text| == 23 && (forall i :: 0 <= i < 5 ==> text[i] == '9') && (forall i :: 0 <= i < 21 ==> IsDigit(text[i]))
      && text[5..21] == card && text[21] == ' ' && text[22] == 'x' && text[..5] == STRAY && text[21..] == " x"
  {
    hide IsCard;
  }

  lemma FirstDigit(s: string)
    requires s != "" && IsDigit(s[0])
    ensures DigitsOf(s) != "" && DigitsOf(s)[0] == s[0]
  {
  }

  /** No value begins with a 9: no area of an SSN, and no scheme of a card. */
  lemma NineBeginsNothing(rest: string)
    requires rest != "" && rest[0] == '9'
    ensures Taken(rest).None?
  {
    hide Taken, CardScheme, LuhnOk;
    if Taken(rest).Some? {
      TakenIsAccepted(rest);
      var value := rest[..Taken(rest).value.end];
      FirstDigit(value);
      hide DigitsOf, SsnShaped, LeadingDigits;
      var digits := DigitsOf(value);
      if Taken(rest).value.name != "ssn" {
        IssuesLeads(CardScheme(digits).value, digits);
      }
      assert false;
    }
  }

  lemma ShortIsNothing(rest: string)
    requires |rest| < SSN_LENGTH
    ensures Taken(rest).None?
  {
  }

  /** Of the text up to any point behind it, the number itself is what stands at its place. */
  lemma NumberStands(card: string)
    requires Number16(card)
    ensures |Buried(card)| == 23 && StandsAt(Buried(card), CARD)
  {
    Places(card);
    var text := Buried(card);
    var rest := text[5..];
    assert rest[..16] == card && rest[16] == ' ';
    LeadingDigitsAre(rest, 16);
    hide IsCard, LeadingDigits, Buried;
    assert !SsnShaped(rest) by {
      assert |rest| >= SSN_LENGTH && rest[..SSN_LENGTH][3] == text[8];
    }
  }

  /** Seen from `base`, the rescue pass looks close behind it and close to the blank. */
  lemma LooksAround(card: string, base: nat, p: nat)
    requires Number16(card) && base <= 5 && |Buried(card)| == 23
    requires Looked(Buried(card), base, p)
    ensures base <= p <= base + 3 || 17 <= p < 23
  {
    Places(card);
    var text := Buried(card);
    var run :| run in NumericRuns(text, base) && run.from <= p < run.to <= |text| && Candidate(text, run, p);
    RunsStartMaximal(text, base, run);
    hide Buried, NumericRuns;
    if p < 17 {
      assert IsRunChar(text[21]) && !IsRunChar(text[22]);
      assert run.from == base;
      assert run.to == 22;
      assert IsSeparator(text[21]) && !BareRun(text, run);
      assert !BySeparator(text, run, p);
    }
  }

  /** Looked at from the beginning, nothing is selected. */
  lemma WholeSelectsNothing(card: string)
    requires Number16(card)
    requires EngineSound(ENGINE) && EngineSound(REANCHORED) && FinderSound(Find) && RescuerSound(RESCUER)
    ensures Selected(REANCHORED, Buried(card), 0) == []
  {
    Places(card);
    hide EngineSound, FinderSound, RescuerSound, Selected, Taken, Number16, Looked, Buried;
    var text := Buried(card);
    forall p: nat | p <= |text| && (MayStart(text, p) || Looked(text, 0, p))
      ensures Taken(text[p..]).None?
    {
      SeenFrom(card, 0, p);
      if p < 5 {
        NineBeginsNothing(text[p..]);
      } else {
        ShortIsNothing(text[p..]);
      }
    }
    NothingIsCutOff(card, 0);
    SelectsExactly(text, 0, []);
  }

  lemma SeenFrom(card: string, base: nat, p: nat)
    requires Number16(card) && base <= 5 && |Buried(card)| == 23 && base <= p <= 23
    requires MayStart(Buried(card), p) || Looked(Buried(card), base, p)
    ensures p <= base + 3 || 17 <= p
  {
    Places(card);
    hide Looked, Buried, Number16;
    if Looked(Buried(card), base, p) {
      LooksAround(card, base, p);
    }
  }

  lemma NothingIsCutOff(card: string, base: nat)
    requires Number16(card) && base <= 5
    ensures NoneCutOff(Buried(card), base, 23)
  {
    Places(card);
    hide Taken, Buried, Number16;
    var text := Buried(card);
    forall p: nat, c: nat | base <= p < c <= |text|
      ensures !CutsOff(text, p, c)
    {
      if p == 0 {
        NineBeginsNothing(text[p..c]);
      } else if p >= 22 {
        ShortIsNothing(text[p..c]);
      }
    }
  }

  lemma OnlyNumber(card: string, p: nat)
    requires Number16(card) && 2 <= p <= |Buried(card)|
    requires MayStart(Buried(card), p) || Looked(Buried(card), 2, p)
    ensures Taken(Buried(card)[p..]).Some? ==> p == 5
  {
    Places(card);
    hide Taken, Number16, Looked, Buried, MayStart;
    SeenFrom(card, 2, p);
    if p < 5 {
      NineBeginsNothing(Buried(card)[p..]);
    } else if p > 5 {
      ShortIsNothing(Buried(card)[p..]);
    }
  }

  lemma NumberIsListed(card: string)
    requires Number16(card)
    ensures |Buried(card)| == 23 && Listed(Buried(card), 2, [CARD])
  {
    NumberStands(card);
    NumberIsLooked(card);
    hide StandsAt, Looked, Buried, Number16;
  }

  lemma NumberNotMissed(card: string)
    requires Number16(card)
    ensures |Buried(card)| == 23 && NoneMissed(Buried(card), 2, 23, [CARD])
  {
    Places(card);
    hide Taken, Number16, Looked, Buried, MayStart, Covered;
    forall p: nat | 2 <= p <= 23 && Seen(Buried(card), 2, p)
      ensures Covered(p, [CARD])
    {
      OnlyNumber(card, p);
      CoversIt(p, [CARD], CARD);
    }
  }

  /** Looked at from two digits into the text, the number is three stray digits away, and is selected. */
  lemma RestSelectsNumber(card: string)
    requires Number16(card)
    requires EngineSound(ENGINE) && EngineSound(REANCHORED) && FinderSound(Find) && RescuerSound(RESCUER)
    ensures |Buried(card)| == 23 && Selected(REANCHORED, Buried(card), 2) == [CARD]
  {
    hide EngineSound, FinderSound, RescuerSound, Selected, Number16, Buried, NoneMissed, NoneCutOff, Listed;
    NumberIsListed(card);
    NumberNotMissed(card);
    NothingIsCutOff(card, 2);
    SelectsExactly(Buried(card), 2, [CARD]);
  }

  lemma NumberIsLooked(card: string)
    requires Number16(card)
    ensures |Buried(card)| == 23 && Looked(Buried(card), 2, 5)
  {
    Places(card);
    var text := Buried(card);
    RunAt(text, 2, 5);
    hide NumericRuns, Buried, Number16;
    var run :| run in NumericRuns(text, 2) && run.from <= 5 < run.to <= |text|;
    RunsStartMaximal(text, 2, run);
    assert IsRunChar(text[run.from]);
    assert run.from == 2;
    assert TokenStart(text, run, 5, 3);
    assert AfterStrayDigits(text, run, 5);
  }

  // ------------------------------------------------------------------ the outputs

  /** All but nineteen of the digits are released, as they are. */
  lemma DigitsAreHeld(s: Settings, card: string)
    requires Number16(card) && s.engine == REANCHORED && s.maxHoldback >= MAX_MATCH_LENGTH
    ensures |Buried(card)| == 23 && HoldbackIndex(s, Buried(card)[..21], 0) == 2
  {
    Places(card);
    var text := Buried(card)[..21];
    assert PartialAnywhere(text, 2);
    HoldsWherePartialAnywhere(text, 2);
    assert !HoldsAt(REANCHORED, text, 0) && !HoldsAt(REANCHORED, text, 1);
    hide Buried, Number16, HoldsAt, FirstHeld;
  }

  lemma NothingIsHeld(s: Settings, card: string, base: nat)
    requires Number16(card) && base <= 23 && s.engine == REANCHORED && s.maxHoldback >= MAX_MATCH_LENGTH
    ensures |Buried(card)| == 23 && HoldbackIndex(s, Buried(card), base) == 23
  {
    Places(card);
    hide Buried, Number16, FirstHeld, KeywordPrecedes;
    var text := Buried(card);
    forall i: nat | base <= i < 23
      ensures !HoldsAt(REANCHORED, text, i)
    {
      var rest := text[i..];
      assert rest[22 - i] == 'x';
      assert !IsDigit('x') && !IsSeparator('x');
      assert !SsnPlace(22 - i, rest[22 - i]) && !SsnPrefix(rest) && !AllDigits(rest);
    }
  }

  /** Of the digits alone, nothing is selected that starts before the hold index. */
  lemma DigitsRelease(s: Settings, card: string)
    requires Number16(card) && s.engine == REANCHORED && s.maxHoldback >= MAX_MATCH_LENGTH
    requires EngineSound(ENGINE) && EngineSound(REANCHORED) && FinderSound(Find) && RescuerSound(RESCUER)
    ensures
      var spans := Selected(REANCHORED, Buried(card)[..21], 0);
      |Buried(card)| == 23 && PushPast(spans, 2) == 2 && UpTo(spans, 2) == []
  {
    Places(card);
    hide EngineSound, FinderSound, RescuerSound, Selected, Taken, Number16, Looked, Buried, SameBelow;
    var text := Buried(card)[..21];
    forall p: nat | p < 2
      ensures Taken(text[p..]).None?
      ensures forall c :: p < c <= |text| ==> Taken(text[p..c]).None?
    {
      NineBeginsNothing(text[p..]);
      forall c | p < c <= |text|
        ensures Taken(text[p..c]).None?
      {
        NineBeginsNothing(text[p..c]);
      }
    }
    SelectsWhatStands(text, 0, 2, []);
    SelectedSpans(text, 0);
    SameBelowIsReleasedAlike(Selected(REANCHORED, text, 0), [], 2);
  }

  lemma Edges(text: string)
    requires |text| == 23
    ensures text[0..0] == "" && text[..0] == "" && text[..23] == text && text[0..23] == text && text[23..23] == ""
    ensures text[0..21] == text[..21] && text[21..23] == text[21..] && text[0..2] == text[..2]
    ensures text[..2] + text[2..5] == text[..5]
    ensures text[..21] + text[21..] == text
  {
  }

  /** Fed in one piece, all of it is released as it is. */
  lemma WholeFeeds(s: Settings, card: string)
    requires Number16(card) && s.engine == REANCHORED && s.maxHoldback >= MAX_MATCH_LENGTH
    requires EngineSound(ENGINE) && EngineSound(REANCHORED) && FinderSound(Find) && RescuerSound(RESCUER)
    ensures FeedOne(s, Stream("", ""), Buried(card)) == Fed(Buried(card), Stream("", Buried(card)))
  {
    assert CONTEXT_CHARS == 48;
    hide *;
    Places(card);
    Edges(Buried(card));
    WholeSelectsNothing(card);
    NothingIsHeld(s, card, 0);
    ReleasesEverything(23);
    FeedIs(s, Buried(card), 0, 0, 23, [], 23);
    RendersAsIs(Buried(card), 0, s.placeholder);
  }

  lemma ReleasesEverything(hold: nat)
    ensures PushPast([], hold) == hold && UpTo([], hold) == []
    ensures PushPast([CARD], 23) == 23 && UpTo([CARD], 23) == [CARD]
  {
    assert [CARD][1..] == [];
  }

  lemma NumberReplaced(text: string, placeholder: string)
    requires |text| == 23
    ensures Fits([CARD], 2, 21) && Render(text[2..23], 2, [CARD], placeholder) == text[2..5] + placeholder + text[21..]
  {
    assert [CARD][1..] == [] && text[2..23][..3] == text[2..5] && text[2..23][19..] == text[21..];
  }

  /** Cut behind the number, two digits are released; then the number is found and replaced. */
  lemma CutFeeds(s: Settings, card: string)
    requires Number16(card) && s.engine == REANCHORED && s.maxHoldback >= MAX_MATCH_LENGTH
    requires EngineSound(ENGINE) && EngineSound(REANCHORED) && FinderSound(Find) && RescuerSound(RESCUER)
    ensures
      var text := Buried(card);
      && |text| == 23
      && FeedOne(s, Stream("", ""), text[..21]) == Fed(text[..2], Stream(text[2..21], text[..2]))
      && FeedOne(s, Stream(text[2..21], text[..2]), text[21..])
           == Fed(text[2..5] + s.placeholder + text[21..], Stream("", text))
  {
    assert CONTEXT_CHARS == 48;
    hide *;
    var text := Buried(card);
    Places(card);
    Edges(text);
    DigitsAreHeld(s, card);
    DigitsRelease(s, card);
    FeedIs(s, text, 0, 0, 21, Selected(REANCHORED, text[..21], 0), 2);
    RendersAsIs(text[..2], 0, s.placeholder);
    RestSelectsNumber(card);
    NothingIsHeld(s, card, 2);
    ReleasesEverything(23);
    FeedIs(s, text, 2, 21, 23, [CARD], 23);
    NumberReplaced(text, s.placeholder);
  }

  lemma NothingToFlush(s: Settings, context: string)
    requires EngineSound(s.engine)
    ensures FlushOne(s, Stream("", context)) == ""
  {
  }

  lemma JoinsOutputs(a: string, b: string, c: string, rest: string)
    ensures a + (b + c + rest) + "" == (a + b) + c + rest && a + "" == a
  {
  }

  /**
   For every 16-digit card number: fed in one piece, with five digits before it and a word behind it, it
   is let through; cut right behind it, it is replaced.
   */
  lemma BuriedDependsOnTheCut(placeholder: string, maxHoldback: nat, card: string)
    requires maxHoldback >= MAX_MATCH_LENGTH && Number16(card)
    ensures EngineSound(REANCHORED) && |Buried(card)| == 23
    ensures
      var s, text := Settings(REANCHORED, placeholder, maxHoldback), Buried(card);
      && Concat([text[..21], text[21..]]) == Concat([text]) == text
      && StreamOutput(s, [text]) == text
      && StreamOutput(s, [text[..21], text[21..]]) == STRAY + placeholder + " x"
    ensures !NoneBuried(Buried(card))
  {
    var s := Settings(REANCHORED, placeholder, maxHoldback);
    hide *;
    Places(card);
    NumberIsBuried(card);
    ReanchoredIsSound();
    FindIsSound();
    var text := Buried(card);
    Edges(text);
    OneFeed(s, text);
    WholeFeeds(s, card);
    NothingToFlush(s, text);
    TwoFeeds(s, text[..21], text[21..]);
    CutFeeds(s, card);
    JoinsOutputs(text[..2], text[2..5], placeholder, text[21..]);
    JoinsOutputs(text, "", "", "");
  }

  /** The number is deep in the digits, and the blank beside it makes its run one with a separator. */
  lemma NumberIsOutOfSight(card: string)
    requires Number16(card)
    ensures |Buried(card)| == 23 && !InSight(Buried(card), 5)
  {
    Places(card);
    hide Buried, Number16;
    var text := Buried(card);
    assert text[5..][16] == ' ';
    LeadingDigitsAre(text[5..], 16);
    assert AllDigits(text[1..5]) && IsRunChar(text[21]);
  }

  lemma NothingFoundThrough(card: string, p: nat)
    requires Number16(card) && p <= 5 && |Buried(card)| == 23
    ensures FindAll(Buried(card), p).None?
  {
    Places(card);
    NumberStands(card);
    hide Taken, Buried, Number16, InSight;
    if p < 5 {
      NineBeginsNothing(Buried(card)[p..]);
    } else {
      NumberIsOutOfSight(card);
    }
  }

  /** The number stands, and starts in no selected value. */
  lemma NumberIsBuried(card: string)
    requires Number16(card)
    ensures !NoneBuried(Buried(card))
  {
    NumberStands(card);
    FindAllIsSound();
    hide Taken, Buried, Number16, FinderSound, Greedy, FindAll;
    var list := Greedy(FindAll, Buried(card), 0);
    GreedyFinds(FindAll, Buried(card), 0);
    if Covered(5, list) {
      var m := CoveredBy(5, list);
      NothingFoundThrough(card, m.start);
      assert false;
    }
  }
}
