/**
 A concrete scanner out of the pattern table: the separated SSN and the bare card number, each with
 its validator, over ASCII digits and without re-anchoring. It meets what chunk invariance assumes.
 */
module ForwardEngine {
  import opened Wrappers
  import opened Spans
  import opened Validators
  import opened Scan
  import opened Rescue
  import opened FixedPoint
  import opened Redactor
  import opened Streaming
  import opened ChunkInvariance

  const SSN_LENGTH := 11
  const CARD_MIN := 13
  const CARD_MAX := 19

  /** The lookbehind both patterns open with. */
  predicate MayStart(text: string, i: nat)
    requires i <= |text|
  {
    i > 0 ==> !IsDigit(text[i - 1]) && text[i - 1] !in {'-', '.'}
  }

  /** The character class of the SSN pattern at place `k`. */
  predicate SsnPlace(k: nat, c: char) {
    if k == 3 || k == 6 then IsSeparator(c) else IsDigit(c)
  }

  /** The beginning, or all, of the SSN shape. */
  predicate SsnPrefix(s: string) {
    |s| <= SSN_LENGTH && forall k :: 0 <= k < |s| ==> SsnPlace(k, s[k])
  }

  /** The SSN shape with no digit behind it. */
  predicate SsnShaped(rest: string) {
    |rest| >= SSN_LENGTH && SsnPrefix(rest[..SSN_LENGTH]) && (|rest| > SSN_LENGTH ==> !IsDigit(rest[SSN_LENGTH]))
  }

  /** What the alternation matches at the front of a text that ends where the search is limited. */
  function Front(rest: string): (m: Option<Match>)
    ensures m.Some? ==> m.value.start == 0 < m.value.end <= |rest|
  {
    if SsnShaped(rest) then Some(Match(0, SSN_LENGTH, "ssn"))
    else if CARD_MIN <= LeadingDigits(rest) <= CARD_MAX then Some(Match(0, LeadingDigits(rest), "credit_card"))
    else None
  }

  function Shift(m: Option<Match>, d: nat): Option<Match> {
    if m.None? then None else Some(Match(m.value.start + d, m.value.end + d, m.value.name))
  }

  function MatchAt(text: string, i: nat, limit: nat): (m: Option<Match>)
    requires i <= limit <= |text|
    ensures m.Some? ==> m.value.start == i < m.value.end <= limit
  {
    if MayStart(text, i) then Shift(Front(text[i..limit]), i) else None
  }

  function Leftmost(text: string, position: nat, limit: nat): (m: Option<Match>)
    requires position <= limit <= |text|
    ensures m.Some? ==> position <= m.value.start < m.value.end <= limit
    decreases limit - position
  {
    if MatchAt(text, position, limit).Some? then MatchAt(text, position, limit)
    else if position == limit then None
    else Leftmost(text, position + 1, limit)
  }

  function Search(text: string, position: nat, limit: nat): Option<Match> {
    if position <= limit <= |text| then Leftmost(text, position, limit) else None
  }

  /** A match of the whole range, by patterns without their lookbehind. */
  function FullAnywhere(text: string, start: nat, stop: nat): Option<Match> {
    if start <= stop <= |text| && Front(text[start..stop]).Some? && Front(text[start..stop]).value.end == stop - start
    then Shift(Front(text[start..stop]), start) else None
  }

  function Full(text: string, start: nat, stop: nat): Option<Match> {
    if start <= stop <= |text| && MayStart(text, start) then FullAnywhere(text, start, stop) else None
  }

  /** All of the rest could lie inside one match. */
  predicate Partial(text: string, i: nat) {
    i < |text| && MayStart(text, i)
    && (SsnPrefix(text[i..]) || (AllDigits(text[i..]) && |text| - i <= CARD_MAX))
  }

  function NoKeyword(text: string, position: nat): seq<Match> {
    []
  }

  predicate NoKeywordPartial(text: string, position: nat) {
    false
  }

  const ENGINE: Engine := Engine(Search, Full, Partial, NoKeyword, NoKeywordPartial, None)

  lemma EngineIsSound()
    ensures EngineSound(ENGINE)
  {
    hide Front, Leftmost, MatchAt;
  }

  // ------------------------------------------------------------ what it selects

  /** The first real card length at which a vetoed run, cut short, is a card. */
  function Trim(run: string, lengths: seq<nat>): (n: nat)
    ensures n <= |run|
  {
    if lengths == [] then 0
    else if lengths[0] < |run| && IsCard(run[..lengths[0]]) then lengths[0]
    else Trim(run, lengths[1..])
  }

  /** The value taken at the front of a text: the match if its validator accepts it, else a trimmed card. */
  function Taken(rest: string): (m: Option<Match>)
    ensures m.Some? ==> m.value.start == 0 < m.value.end <= |rest|
  {
    match Front(rest)
    case None => None
    case Some(m) =>
      if m.name == "ssn" then if SsnOk(rest[..m.end]) then Some(m) else None
      else if IsCard(rest[..m.end]) then Some(m)
      else if Trim(rest[..m.end], PAN_LENGTHS) > 0 then Some(Match(0, Trim(rest[..m.end], PAN_LENGTHS), "credit_card"))
      else None
  }

  function Find(text: string, i: nat): (m: Option<Match>)
    ensures m.Some? ==> m.value.start == i < m.value.end <= |text|
  {
    if i < |text| && MayStart(text, i) then Shift(Taken(text[i..]), i) else None
  }

  lemma FindIsSound()
    ensures FinderSound(Find)
  {
    hide Find;
  }

  /** The finder looks back one character. */
  lemma FindLooksBack()
    ensures LooksBackAtMostContext(Find)
  {
    hide Taken;
    forall before: string, text: string, i: nat | CONTEXT_CHARS <= i <= |text|
      ensures SameAt(Find(before + text, |before| + i), Find(text, i), |before|)
    {
      assert (before + text)[|before| + i..] == text[i..];
    }
  }

  // ------------------------------------------------------- the hold index is sound

  lemma {:induction false} LeadingDigitsOf(s: string)
    ensures forall k :: 0 <= k < LeadingDigits(s) ==> IsDigit(s[k])
    ensures LeadingDigits(s) < |s| ==> !IsDigit(s[LeadingDigits(s)])
  {
    if s != "" && IsDigit(s[0]) {
      LeadingDigitsOf(s[1..]);
    }
  }

  lemma LeadingDigitsAre(s: string, n: nat)
    requires n <= |s| && (forall k :: 0 <= k < n ==> IsDigit(s[k])) && (n < |s| ==> !IsDigit(s[n]))
    ensures LeadingDigits(s) == n
  {
    LeadingDigitsOf(s);
  }

  /** What could not lie inside one match is matched the same whatever follows. */
  lemma FrontSettled(rest: string, more: string)
    requires !SsnPrefix(rest) && !(AllDigits(rest) && |rest| <= CARD_MAX)
    ensures Front(rest + more) == Front(rest)
  {
    hide LeadingDigits;
    var n := LeadingDigits(rest);
    LeadingDigitsOf(rest);
    LeadingDigitsOf(rest + more);
    if n < |rest| {
      LeadingDigitsAre(rest + more, n);
    }
    SsnSettled(rest, more);
  }

  lemma SsnSettled(rest: string, more: string)
    requires !SsnPrefix(rest)
    ensures SsnShaped(rest + more) <==> SsnShaped(rest)
  {
    var all := rest + more;
    if |rest| >= SSN_LENGTH {
      assert all[..SSN_LENGTH] == rest[..SSN_LENGTH];
      assert |rest| == SSN_LENGTH ==> rest[..SSN_LENGTH] == rest;
    } else if SsnShaped(all) {
      forall k | 0 <= k < |rest|
        ensures SsnPlace(k, rest[k])
      {
        assert all[..SSN_LENGTH][k] == rest[k];
      }
    }
  }

  lemma TakenSettled(rest: string, more: string)
    requires !SsnPrefix(rest) && !(AllDigits(rest) && |rest| <= CARD_MAX)
    ensures Taken(rest + more) == Taken(rest)
  {
    hide Front, SsnPrefix, AllDigits;
    FrontSettled(rest, more);
    if Front(rest).Some? {
      assert (rest + more)[..Front(rest).value.end] == rest[..Front(rest).value.end];
    }
  }

  lemma HoldsWherePartial(text: string, i: nat)
    requires i < |text|
    ensures HoldsAt(ENGINE, text, i) <==> Partial(text, i)
  {
    if Partial(text, i) {
      var rest := text[i..];
      assert SsnPrefix(rest) ==> SsnPlace(0, rest[0]);
      assert IsDigit(text[i]);
      assert [text[i]][0..] == [text[i]] && Partial([text[i]], 0);
    }
  }

  /** No continuation changes what is found before the hold index. */
  lemma HoldIsSound(placeholder: string, maxHoldback: nat)
    requires maxHoldback >= MAX_MATCH_LENGTH
    ensures HoldSound(Settings(ENGINE, placeholder, maxHoldback), Find)
  {
    var s := Settings(ENGINE, placeholder, maxHoldback);
    forall text: string, base: nat, more: string, i: nat | base <= |text| && base <= i < HoldbackIndex(s, text, base)
      ensures Find(text + more, i) == Find(text, i)
    {
      SettledBeforeHold(s, text, base, more, i);
    }
  }

  lemma SettledBeforeHold(s: Settings, text: string, base: nat, more: string, i: nat)
    requires s.engine == ENGINE && s.maxHoldback >= MAX_MATCH_LENGTH
    requires base <= |text| && base <= i < HoldbackIndex(s, text, base)
    ensures Find(text + more, i) == Find(text, i)
  {
    hide Taken, HoldsAt, SsnPrefix, AllDigits;
    HoldsWherePartial(text, i);
    var rest := text[i..];
    assert (text + more)[i..] == rest + more;
    if MayStart(text, i) {
      SsnPrefixIsShort(rest);
      TakenSettled(rest, more);
    }
  }

  lemma SsnPrefixIsShort(s: string)
    ensures SsnPrefix(s) ==> |s| <= SSN_LENGTH
  {
  }

  // --------------------------------------------- the forward scan takes what Find finds

  /** From `i` on the patterns match as they do without a lookbehind. */
  ghost predicate AnchoredAt(full: FullMatch, text: string, i: nat) {
    forall stop: nat :: i <= stop <= |text| ==> full(text, i, stop) == FullAnywhere(text, i, stop)
  }

  lemma {:induction false} NothingShorterThanSsn(full: FullMatch, text: string, i: nat, stop: int, boundariesOnly: bool)
    requires AnchoredAt(full, text, i) && stop < i + SSN_LENGTH && stop <= |text|
    ensures LongestAccepted(full, text, i, stop, boundariesOnly).None?
    decreases stop
  {
    if stop > i {
      NotYetMatched(text, i, stop);
      NothingShorterThanSsn(full, text, i, stop - 1, boundariesOnly);
    }
  }

  lemma NotYetMatched(text: string, i: nat, stop: nat)
    requires i <= stop < i + SSN_LENGTH && stop <= |text|
    ensures FullAnywhere(text, i, stop).None?
  {
  }

  lemma RunMatches(text: string, i: nat, run: string, length: nat)
    requires i <= |text| && AllDigits(run) && run <= text[i..]
    requires CARD_MIN <= length <= CARD_MAX && length < |run|
    ensures FullAnywhere(text, i, i + length) == Some(Match(i, i + length, "credit_card"))
    ensures text[i..i + length] == run[..length]
  {
    var part := text[i..i + length];
    assert part == run[..length];
    assert part[..SSN_LENGTH][3] == run[3];
    LeadingDigitsAre(part, length);
  }

  lemma {:induction false} TrimsAlike(full: FullMatch, text: string, i: nat, run: string, lengths: seq<nat>)
    requires i <= |text| && AnchoredAt(full, text, i) && AllDigits(run) && run <= text[i..]
    requires forall k :: 0 <= k < |lengths| ==> CARD_MIN <= lengths[k] <= CARD_MAX
    ensures Trimmed(full, text, i, i + |run|, lengths)
         == if Trim(run, lengths) > 0 then Some(Match(i, i + Trim(run, lengths), "credit_card")) else None
  {
    hide DigitsOf, CardScheme, LuhnOk, FullAnywhere;
    if lengths != [] {
      if lengths[0] < |run| {
        RunMatches(text, i, run, lengths[0]);
        assert full(text, i, i + lengths[0]) == FullAnywhere(text, i, i + lengths[0]);
      }
      TrimsAlike(full, text, i, run, lengths[1..]);
    }
  }

  /** What is made of a match: itself if accepted, else a shorter one if there is any. */
  function Kept(full: FullMatch, text: string, m: Match): Option<Match>
    requires InText(m, text)
  {
    if Accepts(text, m) then Some(m) else Shorter(full, text, m.start, m.end)
  }

  lemma SsnKept(full: FullMatch, text: string, i: nat, limit: nat)
    requires i <= limit <= |text| && AnchoredAt(full, text, i) && SsnShaped(text[i..limit])
    ensures Kept(full, text, Match(i, i + SSN_LENGTH, "ssn")) == Shift(Taken(text[i..limit]), i)
  {
    hide SsnOk, SsnPrefix, LongestAccepted, Trimmed, AnchoredAt;
    var rest, end := text[i..limit], i + SSN_LENGTH;
    assert text[i..end] == rest[..SSN_LENGTH];
    SsnHasSeparator(rest);
    NothingShorterThanSsn(full, text, i, end - 1, true);
    NothingShorterThanSsn(full, text, i, end - 1, false);
  }

  lemma CardKept(full: FullMatch, text: string, i: nat, limit: nat, n: nat)
    requires i <= limit <= |text| && AnchoredAt(full, text, i) && !SsnShaped(text[i..limit])
    requires n == LeadingDigits(text[i..limit]) && CARD_MIN <= n <= CARD_MAX
    ensures Kept(full, text, Match(i, i + n, "credit_card")) == Shift(Taken(text[i..limit]), i)
  {
    hide IsCard, SsnShaped, Trimmed, AnchoredAt, LeadingDigits, SsnOk;
    var rest := text[i..limit];
    LeadingDigitsOf(rest);
    assert text[i..i + n] == rest[..n];
    BareHasNoSeparator(rest[..n]);
    TrimsAlike(full, text, i, rest[..n], PAN_LENGTHS);
  }

  lemma BareHasNoSeparator(run: string)
    requires AllDigits(run)
    ensures !HasSeparator(run)
  {
  }

  /** Veto and shorter match together make of a match what the text behind its start determines. */
  lemma KeptIsTaken(full: FullMatch, text: string, i: nat, limit: nat)
    requires i <= limit <= |text| && AnchoredAt(full, text, i)
    ensures
      var m := Shift(Front(text[i..limit]), i);
      && (m.Some? ==> InText(m.value, text))
      && Shift(Taken(text[i..limit]), i) == if m.None? then None else Kept(full, text, m.value)
  {
    hide Kept, SsnShaped, LeadingDigits, Taken, AnchoredAt;
    var rest := text[i..limit];
    if SsnShaped(rest) {
      ShapeFits(rest);
      SsnKept(full, text, i, limit);
    } else if CARD_MIN <= LeadingDigits(rest) <= CARD_MAX {
      CardKept(full, text, i, limit, LeadingDigits(rest));
    } else {
      NothingTaken(rest);
    }
  }

  lemma FullIsAnchored(text: string, i: nat)
    requires i <= |text| && MayStart(text, i)
    ensures AnchoredAt(Full, text, i)
  {
    hide FullAnywhere;
  }

  /** What a scan makes of the match at a position: what stands there of the text up to the limit. */
  lemma TakenUpTo(text: string, i: nat, limit: nat)
    requires i <= limit <= |text|
    ensures
      var m := MatchAt(text, i, limit);
      (if MayStart(text, i) then Shift(Taken(text[i..limit]), i) else None)
        == if m.None? then None else Kept(Full, text, m.value)
  {
    hide Kept, Taken, Front;
    if MayStart(text, i) {
      FullIsAnchored(text, i);
      KeptIsTaken(Full, text, i, limit);
    }
  }

  /** Unlimited, that is what `Find` says. */
  lemma TakenHere(text: string, i: nat)
    requires i <= |text|
    ensures
      var m := MatchAt(text, i, |text|);
      Find(text, i) == if m.None? then None else Kept(Full, text, m.value)
  {
    hide Kept, Taken, MatchAt;
    assert text[i..|text|] == text[i..];
    TakenUpTo(text, i, |text|);
    TakenIsNotEmpty(text[i..]);
  }

  lemma TakenIsNotEmpty(rest: string)
    ensures Taken(rest).Some? ==> rest != ""
  {
  }

  lemma ShapeFits(rest: string)
    requires SsnShaped(rest)
    ensures |rest| >= SSN_LENGTH
  {
  }

  lemma NothingTaken(rest: string)
    requires Front(rest).None?
    ensures Taken(rest).None?
  {
  }

  lemma SsnHasSeparator(rest: string)
    requires SsnShaped(rest)
    ensures HasSeparator(rest[..SSN_LENGTH])
  {
    assert IsSeparator(rest[..SSN_LENGTH][3]);
  }

  /** One position of the scan. */
  lemma ScanHere(text: string, p: nat, limit: nat)
    requires EngineSound(ENGINE) && p <= limit <= |text|
    ensures
      var m := MatchAt(text, p, limit);
      ScanFrom(ENGINE, text, p, limit) ==
        if m.Some? && Kept(Full, text, m.value).Some?
        then [Kept(Full, text, m.value).value] + ScanFrom(ENGINE, text, Kept(Full, text, m.value).value.end, limit)
        else ScanFrom(ENGINE, text, p + 1, limit)
  {
    hide Accepts, Shorter, MatchAt, EngineSound;
    assert ENGINE.search(text, p, limit) == Leftmost(text, p, limit);
    assert p < limit ==> ENGINE.search(text, p + 1, limit) == Leftmost(text, p + 1, limit);
    ScanRound(ENGINE, text, p, limit);
    if p < limit {
      ScanRound(ENGINE, text, p + 1, limit);
    }
  }

  lemma {:induction false} ScansGreedily(text: string, p: nat)
    requires EngineSound(ENGINE) && FinderSound(Find) && p <= |text|
    ensures ScanFrom(ENGINE, text, p, |text|) == Greedy(Find, text, p)
    decreases |text| - p
  {
    hide Kept, MatchAt, EngineSound, FinderSound, ScanFrom, Find;
    ScanHere(text, p, |text|);
    TakenHere(text, p);
    if p == |text| {
      ScanEnds(text);
    } else if Find(text, p).Some? {
      FindHere(text, p);
      ScansGreedily(text, Find(text, p).value.end);
    } else {
      ScansGreedily(text, p + 1);
    }
  }

  lemma FindHere(text: string, p: nat)
    requires Find(text, p).Some?
    ensures Find(text, p).value.start == p < Find(text, p).value.end <= |text|
  {
  }

  lemma ScanEnds(text: string)
    requires EngineSound(ENGINE)
    ensures ScanFrom(ENGINE, text, |text|, |text|) == []
  {
    hide Accepts, Shorter, LeadingDigits;
    assert LeadingDigits("") == 0 by { LeadingDigitsAre("", 0); }
    assert text[|text|..|text|] == "";
  }

  // ------------------------------------------- rescanning the gaps adds nothing

  /** A place where a limited search cannot cut a value short: the end of the text, or behind a non-digit. */
  predicate CleanEnd(text: string, limit: nat)
    requires limit <= |text|
  {
    limit == |text| || (limit > 0 && !IsDigit(text[limit - 1]))
  }

  /** Limiting the search at a clean end makes no new match. */
  lemma LimitedIsFull(text: string, i: nat, limit: nat)
    requires i <= limit <= |text| && CleanEnd(text, limit) && MatchAt(text, i, limit).Some?
    ensures MatchAt(text, i, |text|) == MatchAt(text, i, limit)
  {
    if limit < |text| {
      var part, rest := text[i..limit], text[i..];
      assert text[i..|text|] == rest;
      PartMatches(part, rest, Front(part).value.end);
    }
  }

  lemma PartMatches(part: string, rest: string, n: nat)
    requires part < rest && part != "" && !IsDigit(part[|part| - 1])
    requires Front(part).Some? && Front(part).value.end == n
    ensures Front(rest) == Front(part)
  {
    hide LeadingDigits;
    LeadingDigitsOf(part);
    if SsnShaped(part) {
      assert part[..SSN_LENGTH][SSN_LENGTH - 1] == part[SSN_LENGTH - 1];
      assert rest[..SSN_LENGTH] == part[..SSN_LENGTH];
    } else {
      LeadingDigitsAre(rest, n);
    }
  }

  lemma {:induction false} QuietGap(text: string, p: nat, limit: nat)
    requires EngineSound(ENGINE) && p <= limit <= |text| && CleanEnd(text, limit)
    requires forall i :: p <= i < limit ==> Find(text, i).None?
    ensures ScanFrom(ENGINE, text, p, limit) == []
    decreases limit - p
  {
    hide Kept, MatchAt, EngineSound, ScanFrom, Find, CleanEnd;
    ScanHere(text, p, limit);
    if p == limit {
      NoMatchAtEnd(text, limit);
      ScanPast(ENGINE, text, p + 1, limit);
    } else {
      TakenHere(text, p);
      if MatchAt(text, p, limit).Some? {
        LimitedIsFull(text, p, limit);
      }
      QuietGap(text, p + 1, limit);
    }
  }

  lemma NoMatchAtEnd(text: string, limit: nat)
    requires limit <= |text|
    ensures MatchAt(text, limit, limit).None?
  {
  }

  lemma StartsCleanly(text: string, p: nat)
    requires p <= |text| && Find(text, p).Some?
    ensures p > 0 ==> CleanEnd(text, p)
  {
  }

  lemma {:induction false} QuietGaps(text: string, from: nat)
    requires EngineSound(ENGINE) && FinderSound(Find) && from <= |text|
    ensures
      var gaps := GapsFrom(Greedy(Find, text, from), from, |text|);
      && (forall k :: 0 <= k < |gaps| ==> gaps[k].to <= |text|)
      && ScanRegions(ENGINE, text, gaps) == []
    decreases |text| - from
  {
    hide EngineSound, FinderSound, Find, Greedy, ScanFrom, CleanEnd;
    var spans := Greedy(Find, text, from);
    GreedyFirst(Find, text, from);
    if spans == [] {
      AtTheEnd(text);
      QuietGap(text, from, |text|);
    } else {
      var first := spans[0];
      QuietGaps(text, first.end);
      StartsCleanly(text, first.start);
      var rest := GapsFrom(spans[1..], first.end, |text|);
      assert [] + rest == rest;
      if first.start > from {
        QuietGap(text, from, first.start);
        GapsBehind(text, Region(from, first.start), rest);
      }
    }
  }

  lemma AtTheEnd(text: string)
    ensures CleanEnd(text, |text|)
  {
  }

  lemma GapsBehind(text: string, gap: Region, rest: seq<Region>)
    requires EngineSound(ENGINE) && gap.to <= |text| && forall k :: 0 <= k < |rest| ==> rest[k].to <= |text|
    ensures ScanRegions(ENGINE, text, [gap] + rest)
         == ScanFrom(ENGINE, text, gap.from, gap.to) + ScanRegions(ENGINE, text, rest)
  {
    assert ([gap] + rest)[1..] == rest;
  }

  lemma FirstSelectionIs(e: Engine, text: string, base: nat, g: seq<Match>)
    requires EngineSound(e) && base <= |text| && ScanFrom(e, text, base, |text|) == g
    requires e.keywordMatches(text, base) == [] && Disjoint(g) && Within(g, base, |text|)
    ensures FirstSelection(e, text, base) == g
  {
    hide EngineSound, ScanFrom, Resolve, Disjoint;
    assert Keyword(e, text, base) == [] && g + [] == g;
    ResolveDisjoint(g);
  }

  lemma NothingImproves(e: Engine, text: string, base: nat, g: seq<Match>)
    requires EngineSound(e) && base <= |text| && Selection(text, base, g) && RescueFound(e, text, base, g) == []
    requires forall k :: 0 <= k < |GapsFrom(g, base, |text|)| ==> GapsFrom(g, base, |text|)[k].to <= |text|
    requires ScanRegions(e, text, GapsFrom(g, base, |text|)) == []
    ensures Improve(e, text, base, g) == g
  {
    hide EngineSound, Resolve, GapsFrom, Selection, RescueFound;
  }

  /** Scan, resolve, and rescan to the fixed point: what comes out is the leftmost-first selection. */
  lemma SelectsAsGreedy(text: string, base: nat)
    requires EngineSound(ENGINE) && FinderSound(Find) && base <= |text|
    ensures Selected(ENGINE, text, base) == Greedy(Find, text, base)
  {
    hide EngineSound, FinderSound, Selection, Greedy, Improve, FirstSelection, Fits, GapsFrom, Find, ScanFrom,
      ScanRegions, Disjoint, Within;
    var g := Greedy(Find, text, base);
    GreedySound(Find, text, base);
    FitsIsDisjoint(g, base, |text| - base);
    ScansGreedily(text, base);
    FirstSelectionIs(ENGINE, text, base, g);
    FirstSelectionSound(ENGINE, text, base);
    QuietGaps(text, base);
    NothingImproves(ENGINE, text, base, g);
    Settles(ENGINE, text, base, g, RESCUE_PASSES);
  }

  /** The scanner meets every assumption of chunk invariance, for any placeholder, admissible bound and text. */
  lemma ForwardStreamable(placeholder: string, maxHoldback: nat, whole: string)
    requires maxHoldback >= MAX_MATCH_LENGTH
    ensures Streamable(Settings(ENGINE, placeholder, maxHoldback), Find, whole)
  {
    hide EngineSound, FinderSound, LooksBackAtMostContext, HoldSound, Selected, Greedy, HoldbackIndex;
    var s := Settings(ENGINE, placeholder, maxHoldback);
    EngineIsSound();
    FindIsSound();
    FindLooksBack();
    HoldIsSound(placeholder, maxHoldback);
    forall before: string, text: string, after: string, base: nat | Piece(whole, before, text, after, base)
      ensures
        var chosen, spans := Selected(ENGINE, text, base), Greedy(Find, text, base);
        ReleasedAlike(chosen, spans, HoldbackIndex(s, text, base)) && chosen == spans
    {
      SelectsAsGreedy(text, base);
    }
  }

  /** Separated SSNs and bare card numbers: any cut of a text redacts exactly what the whole text would. */
  method RedactForward(placeholder: string, maxHoldback: nat, chunks: seq<string>) returns (r: string)
    requires maxHoldback >= MAX_MATCH_LENGTH
    ensures FinderSound(Find) && Fits(Greedy(Find, Concat(chunks), 0), 0, |Concat(chunks)|)
    ensures r == Render(Concat(chunks), 0, Greedy(Find, Concat(chunks), 0), placeholder)
  {
    hide *;
    EngineIsSound();
    FindIsSound();
    ForwardStreamable(placeholder, maxHoldback, Concat(chunks));
    ChunksDoNotMatter(Settings(ENGINE, placeholder, maxHoldback), Find, chunks);
    r := RedactChunks(ENGINE, placeholder, maxHoldback, chunks);
  }
}
