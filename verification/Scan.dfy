/**
 The forward scan over an abstract regular-expression engine: what is asked of the engine, the
 validators' veto, and the search for a shorter value inside a vetoed match.
 */
module Scan {
  import opened Wrappers
  import opened Spans
  import opened Validators

  /** `fullmatch(text, start, stop)` of one compiled alternation. */
  type FullMatch = (string, nat, nat) -> Option<Match>

  /** The alternation of the numeric patterns with their lookbehind removed. */
  datatype Rescuer = Rescuer(at: (string, nat) -> Option<Match>, full: FullMatch, partial: (string, nat) -> bool)

  /**
   The compiled patterns, as the questions the redactor puts to them: `search(text, pos, limit)`,
   the two forms of `fullmatch`, the keyword-SSN matches, and the re-anchoring patterns if any.
   */
  datatype Engine = Engine(
    search: (string, nat, nat) -> Option<Match>,
    full: FullMatch,
    partial: (string, nat) -> bool,
    keywordMatches: (string, nat) -> seq<Match>,
    keywordPartial: (string, nat) -> bool,
    rescue: Option<Rescuer>)

  ghost predicate FullSound(full: FullMatch) {
    forall text: string, start: nat, stop: nat :: start <= stop <= |text| && full(text, start, stop).Some? ==>
      var m := full(text, start, stop).value;
      m.start == start && m.end == stop && start < stop
  }

  ghost predicate KeywordSound(found: seq<Match>, pos: nat, length: nat) {
    Within(found, pos, length) && forall i :: 0 <= i < |found| ==> found[i].name == "ssn_bare"
  }

  /**
   All that is assumed of the engine: an answer is a non-empty match inside the bounds it was given,
   and the keyword pattern reports the one group it has.
   */
  ghost predicate EngineSound(e: Engine) {
    && (forall text: string, pos: nat, limit: nat :: pos <= limit <= |text| && e.search(text, pos, limit).Some? ==>
          var m := e.search(text, pos, limit).value;
          pos <= m.start < m.end <= limit)
    && FullSound(e.full)
    && (forall text: string, pos: nat :: pos <= |text| ==> KeywordSound(e.keywordMatches(text, pos), pos, |text|))
    && (e.rescue.Some? ==>
          && FullSound(e.rescue.value.full)
          && forall text: string, pos: nat :: pos <= |text| && e.rescue.value.at(text, pos).Some? ==>
               var m := e.rescue.value.at(text, pos).value;
               m.start == pos < m.end <= |text|)
  }

  const PAN_LENGTHS: seq<nat> := [16, 15, 19, 14, 13]

  predicate InText(m: Match, text: string) {
    m.start < m.end <= |text|
  }

  /** The validator of the pattern that fired, if it has one, accepts the matched text. */
  predicate Accepts(text: string, m: Match)
    requires InText(m, text)
  {
    var value := text[m.start..m.end];
    if m.name == "ssn" || m.name == "ssn_bare" then SsnOk(value)
    else if m.name == "credit_card" then IsCard(value)
    else true
  }

  predicate IsAlnum(c: char) {
    IsDigit(c) || 'a' <= c <= 'z' || 'A' <= c <= 'Z'
  }

  /** Cutting at `stop` would cut a group of letters or digits in two. */
  predicate InsideGroup(text: string, stop: nat)
    requires 0 < stop <= |text|
  {
    stop < |text| && IsAlnum(text[stop - 1]) && IsAlnum(text[stop])
  }

  predicate HasSeparator(s: string) {
    exists i :: 0 <= i < |s| && IsSeparator(s[i])
  }

  // -------------------------------------------------------- a shorter value

  /** A validated match from `start` to exactly `stop`. */
  predicate AcceptedAt(full: FullMatch, text: string, start: nat, stop: nat)
    requires start <= stop <= |text|
  {
    var m := full(text, start, stop);
    m.Some? && InText(m.value, text) && Accepts(text, m.value)
  }

  /** An end the search may stop at: a validated match ends there, at a group boundary if asked. */
  predicate StopsAt(full: FullMatch, text: string, start: nat, stop: nat, boundariesOnly: bool)
    requires start < stop <= |text|
  {
    !(boundariesOnly && InsideGroup(text, stop)) && AcceptedAt(full, text, start, stop)
  }

  /** The longest validated match from `start` that ends no later than `stop`. */
  function LongestAccepted(full: FullMatch, text: string, start: nat, stop: int, boundariesOnly: bool): Option<Match>
    requires stop <= |text|
    decreases stop
  {
    if stop <= start then None
    else if StopsAt(full, text, start, stop, boundariesOnly) then full(text, start, stop)
    else LongestAccepted(full, text, start, stop - 1, boundariesOnly)
  }

  /** The search finds a match if there is any place to stop, and then the last such place. */
  lemma {:induction false} LongestAcceptedIsLast(full: FullMatch, text: string, start: nat, stop: int,
      boundariesOnly: bool)
    requires FullSound(full) && stop <= |text|
    ensures
      var m := LongestAccepted(full, text, start, stop, boundariesOnly);
      && (m.Some? ==> start < m.value.end <= stop && m == full(text, start, m.value.end)
                      && StopsAt(full, text, start, m.value.end, boundariesOnly))
      && forall end :: start < end <= stop && StopsAt(full, text, start, end, boundariesOnly) ==>
           m.Some? && end <= m.value.end
    decreases stop
  {
    hide Accepts, InsideGroup;
    if stop > start && !StopsAt(full, text, start, stop, boundariesOnly) {
      LongestAcceptedIsLast(full, text, start, stop - 1, boundariesOnly);
    }
  }

  /** A PAN length at which the front of the run is a validated match that a card scheme issues. */
  predicate TrimsTo(full: FullMatch, text: string, start: nat, end: nat, length: nat)
    requires start <= end <= |text|
  {
    start + length < end && AcceptedAt(full, text, start, start + length)
    && var m := full(text, start, start + length).value;
       CardScheme(DigitsOf(text[m.start..m.end])).Some?
  }

  /** The first of the given lengths that the run trims to. */
  function Trimmed(full: FullMatch, text: string, start: nat, end: nat, lengths: seq<nat>): Option<Match>
    requires start <= end <= |text|
  {
    if lengths == [] then None
    else if TrimsTo(full, text, start, end, lengths[0]) then full(text, start, start + lengths[0])
    else Trimmed(full, text, start, end, lengths[1..])
  }

  function Shorter(full: FullMatch, text: string, start: nat, end: nat): Option<Match>
    requires start <= end <= |text|
  {
    if !HasSeparator(text[start..end]) then Trimmed(full, text, start, end, PAN_LENGTHS)
    else
      var atBoundary := LongestAccepted(full, text, start, end - 1, true);
      if atBoundary.Some? then atBoundary else LongestAccepted(full, text, start, end - 1, false)
  }

  lemma TrimmedNext(full: FullMatch, text: string, start: nat, end: nat, k: nat)
    requires start <= end <= |text| && k < |PAN_LENGTHS|
    ensures Trimmed(full, text, start, end, PAN_LENGTHS[k..])
         == if TrimsTo(full, text, start, end, PAN_LENGTHS[k]) then full(text, start, start + PAN_LENGTHS[k])
            else Trimmed(full, text, start, end, PAN_LENGTHS[k + 1..])
  {
    hide TrimsTo;
    assert PAN_LENGTHS[k..][1..] == PAN_LENGTHS[k + 1..] && PAN_LENGTHS[k..][0] == PAN_LENGTHS[k];
  }

  lemma TrimmedNone(full: FullMatch, text: string, start: nat, end: nat)
    requires start <= end <= |text|
    ensures PAN_LENGTHS[0..] == PAN_LENGTHS && Trimmed(full, text, start, end, PAN_LENGTHS[|PAN_LENGTHS|..]) == None
  {
    hide TrimsTo;
  }

  method TrimmedPan(full: FullMatch, text: string, start: nat, end: nat) returns (r: Option<Match>)
    requires FullSound(full) && start <= end <= |text|
    ensures r == Trimmed(full, text, start, end, PAN_LENGTHS)
  {
    hide DigitsOf, CardScheme, Accepts, Trimmed;
    TrimmedNone(full, text, start, end);
    for k := 0 to |PAN_LENGTHS|
      invariant Trimmed(full, text, start, end, PAN_LENGTHS) == Trimmed(full, text, start, end, PAN_LENGTHS[k..])
    {
      TrimmedNext(full, text, start, end, k);
      var stop := start + PAN_LENGTHS[k];
      if stop >= end {
        continue;
      }
      var m := full(text, start, stop);
      if m.None? {
        continue;
      }
      if CardScheme(DigitsOf(text[m.value.start..m.value.end])).None? {
        continue;
      }
      if Accepts(text, m.value) {
        return m;
      }
    }
    return None;
  }

  method ShorterValidMatch(full: FullMatch, text: string, start: nat, end: nat) returns (r: Option<Match>)
    requires FullSound(full) && start <= end <= |text|
    ensures r == Shorter(full, text, start, end)
  {
    hide Accepts, Trimmed;
    if !HasSeparator(text[start..end]) {
      r := TrimmedPan(full, text, start, end);
      return;
    }
    r := LongestMatch(full, text, start, end, true);
    if r.None? {
      r := LongestMatch(full, text, start, end, false);
    }
  }

  /** One pass over the candidate ends, from the last down. */
  method LongestMatch(full: FullMatch, text: string, start: nat, end: nat,
      boundariesOnly: bool) returns (r: Option<Match>)
    requires FullSound(full) && start <= end <= |text|
    ensures r == LongestAccepted(full, text, start, end - 1, boundariesOnly)
  {
    hide Accepts, InsideGroup;
    var stop: int := end - 1;
    while stop > start
      invariant stop < end
      invariant LongestAccepted(full, text, start, end - 1, boundariesOnly)
           == LongestAccepted(full, text, start, stop, boundariesOnly)
    {
      if boundariesOnly && InsideGroup(text, stop) {
        stop := stop - 1;
        continue;
      }
      var m := full(text, start, stop);
      if m.None? {
        stop := stop - 1;
        continue;
      }
      if Accepts(text, m.value) {
        return m;
      }
      stop := m.value.end - 1;
    }
    return None;
  }

  /** A shorter value begins where the vetoed match did, ends before it, and passes its validator. */
  lemma ShorterSound(full: FullMatch, text: string, start: nat, end: nat)
    requires FullSound(full) && start <= end <= |text| && Shorter(full, text, start, end).Some?
    ensures
      var m := Shorter(full, text, start, end).value;
      m.start == start < m.end < end && Accepts(text, m)
  {
    hide Accepts, HasSeparator;
    LongestAcceptedIsLast(full, text, start, end - 1, true);
    LongestAcceptedIsLast(full, text, start, end - 1, false);
    TrimmedSound(full, text, start, end, PAN_LENGTHS);
  }

  lemma {:induction false} TrimmedSound(full: FullMatch, text: string, start: nat, end: nat, lengths: seq<nat>)
    requires FullSound(full) && start <= end <= |text|
    ensures
      var m := Trimmed(full, text, start, end, lengths);
      && (m.Some? <==> exists k :: 0 <= k < |lengths| && TrimsTo(full, text, start, end, lengths[k]))
      && (m.Some? ==> m.value.start == start < m.value.end < end && AcceptedAt(full, text, start, m.value.end)
                      && Accepts(text, m.value))
  {
    hide Accepts;
    if lengths != [] && !TrimsTo(full, text, start, end, lengths[0]) {
      TrimmedSound(full, text, start, end, lengths[1..]);
      assert forall k :: 0 < k < |lengths| ==> lengths[k] == lengths[1..][k - 1];
    }
  }

  // ---------------------------------------------------------- the forward scan

  function ScanFrom(e: Engine, text: string, position: nat, limit: nat): seq<Match>
    requires EngineSound(e) && limit <= |text|
    decreases limit + 1 - position
  {
    if position > limit then []
    else match e.search(text, position, limit)
      case None => []
      case Some(m) =>
        if Accepts(text, m) then [m] + ScanFrom(e, text, m.end, limit)
        else match Shorter(e.full, text, m.start, m.end)
          case Some(inner) =>
            ShorterSound(e.full, text, m.start, m.end);
            [inner] + ScanFrom(e, text, inner.end, limit)
          case None => ScanFrom(e, text, m.start + 1, limit)
  }

  /** One round of the scan: nothing left, a match taken, or one position skipped. */
  lemma ScanRound(e: Engine, text: string, position: nat, limit: nat)
    requires EngineSound(e) && position <= limit <= |text|
    ensures
      var found := e.search(text, position, limit);
      if found.None? then ScanFrom(e, text, position, limit) == []
      else
        var m := found.value;
        && FullSound(e.full) && InText(m, text) && position <= m.start < m.end <= limit
        && var taken := if Accepts(text, m) then found else Shorter(e.full, text, m.start, m.end);
           if taken.Some? then
             && m.start == taken.value.start < taken.value.end <= limit
             && ScanFrom(e, text, position, limit) == [taken.value] + ScanFrom(e, text, taken.value.end, limit)
           else ScanFrom(e, text, position, limit) == ScanFrom(e, text, m.start + 1, limit)
  {
    hide Accepts, Shorter;
    var found := e.search(text, position, limit);
    if found.Some? && Shorter(e.full, text, found.value.start, found.value.end).Some? {
      ShorterSound(e.full, text, found.value.start, found.value.end);
    }
  }

  method ForwardScan(e: Engine, text: string, start: nat, limit: nat) returns (matches: seq<Match>)
    requires EngineSound(e) && limit <= |text|
    ensures matches == ScanFrom(e, text, start, limit)
  {
    hide *;
    matches := [];
    var position := start;
    while position <= limit
      invariant matches + ScanFrom(e, text, position, limit) == ScanFrom(e, text, start, limit)
      decreases limit + 1 - position
    {
      ScanRound(e, text, position, limit);
      var found := e.search(text, position, limit);
      if found.None? {
        return;
      }
      var m := found.value;
      if !Accepts(text, m) {
        var inner := ShorterValidMatch(e.full, text, m.start, m.end);
        if inner.Some? {
          matches := matches + [inner.value];
          position := if inner.value.end > inner.value.start + 1 then inner.value.end else inner.value.start + 1;
          continue;
        }
        position := m.start + 1;
        continue;
      }
      matches := matches + [m];
      position := if m.end > m.start + 1 then m.end else m.start + 1;
    }
    ScanPast(e, text, position, limit);
  }

  lemma ScanPast(e: Engine, text: string, position: nat, limit: nat)
    requires EngineSound(e) && limit < position && limit <= |text|
    ensures ScanFrom(e, text, position, limit) == []
  {
  }

  ghost predicate AllAccepted(text: string, found: seq<Match>) {
    forall i :: 0 <= i < |found| ==> InText(found[i], text) && Accepts(text, found[i])
  }

  lemma {:induction false} ScanSound(e: Engine, text: string, position: nat, limit: nat)
    requires EngineSound(e) && limit <= |text|
    ensures
      var found := ScanFrom(e, text, position, limit);
      Disjoint(found) && Within(found, position, limit) && AllAccepted(text, found)
    decreases limit + 1 - position
  {
    hide Accepts, Shorter;
    if position <= limit {
      var found := e.search(text, position, limit);
      if found.Some? {
        var m := found.value;
        if Accepts(text, m) {
          ScanSound(e, text, m.end, limit);
        } else {
          var inner := Shorter(e.full, text, m.start, m.end);
          if inner.Some? {
            ShorterSound(e.full, text, m.start, m.end);
            ScanSound(e, text, inner.value.end, limit);
          } else {
            ScanSound(e, text, m.start + 1, limit);
          }
        }
      }
    }
  }
}
