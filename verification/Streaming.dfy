/** The redactor object and what holds of it between any two calls. */
module Streaming {
  import opened Wrappers
  import opened MapSum
  import opened Spans
  import opened Validators
  import opened Scan
  import opened FixedPoint
  import opened Redactor

  /** Spans counted from a place `d` further left. */
  function Moved(spans: seq<Match>, d: nat): (r: seq<Match>)
    ensures MovedBy(spans, r, d)
    ensures forall i :: 0 <= i < |spans| ==> r[i].name == spans[i].name
  {
    if spans == [] then []
    else [Match(spans[0].start + d, spans[0].end + d, spans[0].name)] + Moved(spans[1..], d)
  }

  /** The per-pattern counts after recording each span once. */
  function Tally(counts: map<string, nat>, spans: seq<Match>): map<string, nat>
    decreases |spans|
  {
    if spans == [] then counts
    else Tally(Recorded(counts, spans[0].name), spans[1..])
  }

  function Recorded(counts: map<string, nat>, name: string): map<string, nat> {
    counts[name := (if name in counts then counts[name] else 0) + 1]
  }

  function Itself(): nat -> int {
    (n: nat) => n
  }

  ghost function Total(counts: map<string, nat>): int {
    Sum(counts, Itself())
  }

  lemma {:induction false} TallyCounts(counts: map<string, nat>, spans: seq<Match>)
    ensures Total(Tally(counts, spans)) == Total(counts) + |spans|
    decreases |spans|
  {
    if spans != [] {
      var name := spans[0].name;
      Put(counts, name, (if name in counts then counts[name] else 0) + 1, Itself());
      TallyCounts(Recorded(counts, name), spans[1..]);
    }
  }

  /** The balance of characters after one emission. */
  lemma Balance(charsIn: int, charsOut: int, held: int, redacted: int, placeholder: int, total: int,
                added: int, out: int, kept: int, removed: int, safe: int, cuts: int)
    requires charsOut + held + redacted == charsIn + placeholder * total
    requires out + removed == safe + placeholder * cuts && safe + kept == held + added
    ensures (charsOut + out) + kept + (redacted + removed) == (charsIn + added) + placeholder * (total + cuts)
  {
  }

  lemma LastCharsAppend(released: string, safe: string)
    ensures LastChars(LastChars(released) + safe) == LastChars(released + safe)
  {
  }

  /** What lies to the left of the carried context. */
  function OutOfSight(released: string): string {
    released[..|released| - |LastChars(released)|]
  }

  /** A value is judged by its own characters, wherever the text around them begins. */
  lemma AcceptedFurtherRight(before: string, text: string, m: Match)
    requires InText(m, text) && Accepts(text, m)
    ensures
      var moved := Match(m.start + |before|, m.end + |before|, m.name);
      InText(moved, before + text) && Accepts(before + text, moved)
  {
    hide SsnOk, IsCard;
    assert (before + text)[m.start + |before|..m.end + |before|] == text[m.start..m.end];
  }

  lemma AcceptedLonger(text: string, more: string, spans: seq<Match>)
    requires AllAccepted(text, spans)
    ensures AllAccepted(text + more, spans)
  {
    hide Accepts;
    assert (text + more)[..|text|] == text;
    forall i | 0 <= i < |spans|
      ensures InText(spans[i], text + more) && Accepts(text + more, spans[i])
    {
      AcceptedInPart(text + more, |text|, spans[i]);
    }
  }

  lemma {:induction false} AcceptedMoved(before: string, text: string, spans: seq<Match>)
    requires AllAccepted(text, spans)
    ensures AllAccepted(before + text, Moved(spans, |before|))
  {
    hide Accepts;
    if spans != [] {
      AcceptedFurtherRight(before, text, spans[0]);
      AcceptedMoved(before, text, spans[1..]);
      hide InText;
      AcceptedCons(before + text, Moved(spans, |before|)[0], Moved(spans[1..], |before|));
    }
  }

  lemma AcceptedCons(text: string, m: Match, rest: seq<Match>)
    requires InText(m, text) && Accepts(text, m) && AllAccepted(text, rest)
    ensures AllAccepted(text, [m] + rest)
  {
    hide Accepts, InText;
  }

  lemma AcceptedTogether(released: string, cuts: seq<Match>, safe: string, cut: seq<Match>)
    requires AllAccepted(released, cuts) && AllAccepted(LastChars(released) + safe, cut)
    ensures AllAccepted(released + safe, cuts + Moved(cut, |OutOfSight(released)|))
  {
    assert OutOfSight(released) + (LastChars(released) + safe) == released + safe;
    hide Accepts, LastChars, OutOfSight, InText;
    AcceptedLonger(released, safe, cuts);
    AcceptedMoved(OutOfSight(released), LastChars(released) + safe, cut);
  }

  /** An emission rendered in its own coordinates continues the rendering of what was released before. */
  lemma JoinEmission(released: string, cuts: seq<Match>, out: string, e: Emission, placeholder: string)
    requires Fits(cuts, 0, |released|) && out == Render(released, 0, cuts, placeholder)
    requires Fits(e.cut, |LastChars(released)|, |e.safe|)
    requires e.out == Render(e.safe, |LastChars(released)|, e.cut, placeholder)
    requires AllAccepted(released, cuts) && AllAccepted(LastChars(released) + e.safe, e.cut)
    ensures
      var all := cuts + Moved(e.cut, |OutOfSight(released)|);
      && Fits(all, 0, |released + e.safe|) && out + e.out == Render(released + e.safe, 0, all, placeholder)
      && AllAccepted(released + e.safe, all)
  {
    hide Render, Fits, Moved, AllAccepted;
    AcceptedTogether(released, cuts, e.safe, e.cut);
    var d := |OutOfSight(released)|;
    var moved := Moved(e.cut, d);
    RenderMoved(e.safe, |LastChars(released)|, e.cut, moved, d, placeholder);
    RenderJoin(released, e.safe, 0, cuts, moved, placeholder);
  }

  class StreamingRedactor {
    const settings: Settings
    var buffer: string
    var context: string
    var charactersIn: nat
    var charactersOut: nat
    var counts: map<string, nat>
    /** Of the current stream: its text so far, what was released, the spans replaced, and the output. */
    ghost var fed: string
    ghost var released: string
    ghost var cuts: seq<Match>
    ghost var output: string
    /** Characters replaced, over all streams. */
    ghost var redacted: int

    /** Emission conservation, as it stands between any two calls. */
    ghost predicate Valid()
      reads this
    {
      && EngineSound(settings.engine)
      && released + buffer == fed && |buffer| <= settings.maxHoldback
      && context == LastChars(released)
      && Fits(cuts, 0, |released|) && output == Render(released, 0, cuts, settings.placeholder)
      && AllAccepted(released, cuts)
      && charactersOut + |buffer| + redacted == charactersIn + |settings.placeholder| * Total(counts)
    }

    constructor (engine: Engine, placeholder: string, maxHoldback: nat)
      requires EngineSound(engine) && maxHoldback >= MAX_MATCH_LENGTH
      ensures Valid() && settings == Settings(engine, placeholder, maxHoldback)
      ensures fed == released == output == "" && cuts == [] && buffer == context == ""
    {
      settings := Settings(engine, placeholder, maxHoldback);
      buffer, context, charactersIn, charactersOut, counts := "", "", 0, 0, map[];
      fed, released, cuts, output, redacted := "", "", [], "", 0;
    }

    /** Splits `text` into a released and a retained part, and redacts the released one. */
    method EmitText(text: string, final: bool) returns (emitted: string)
      requires EngineSound(settings.engine)
      modifies `buffer, `context, `charactersOut, `counts
      ensures
        var r := Emit(settings, old(context), text, final);
        && emitted == r.out && buffer == r.next.buffer && context == r.next.context
        && counts == Tally(old(counts), r.cut) && charactersOut == old(charactersOut) + |emitted|
    {
      hide EngineSound, Selected, Render, UpTo, PushPast, HoldsAt, HoldbackIndex, Fits, Tally, LastChars;
      var full, base := context + text, |context|;
      ReleaseFits(settings, full, base, final);
      var spans := ScanToFixedPoint(settings.engine, full, base);
      var hold := |full|;
      if !final {
        hold := FindHoldback(settings, full, base);
        if |full| - hold > settings.maxHoldback {
          hold := if |full| - settings.maxHoldback > base then |full| - settings.maxHoldback else base;
        }
        hold := Straddle(spans, hold);
      }
      assert hold == ReleasePoint(settings, full, base, final);
      var safe := full[base..hold];
      buffer := full[hold..];
      context := LastChars(full[..hold]);
      if safe == "" {
        NothingCut(spans, base, counts, settings.placeholder);
        return "";
      }
      emitted := ReplaceSpans(full, base, hold, spans);
      charactersOut := charactersOut + |emitted|;
    }

    method Straddle(spans: seq<Match>, start: nat) returns (hold: nat)
      ensures hold == PushPast(spans, start)
    {
      hold := start;
      for k := 0 to |spans|
        invariant PushPast(spans, start) == PushPast(spans[k..], hold)
      {
        assert spans[k..][1..] == spans[k + 1..];
        if spans[k].start < hold < spans[k].end {
          hold := spans[k].end;
        }
      }
    }

    /** The output loop: one cursor over the spans that end inside the released part. */
    method ReplaceSpans(full: string, base: nat, hold: nat, spans: seq<Match>) returns (emitted: string)
      requires base <= hold <= |full| && Fits(UpTo(spans, hold), base, hold - base)
      modifies `counts
      ensures emitted == Render(full[base..hold], base, UpTo(spans, hold), settings.placeholder)
      ensures counts == Tally(old(counts), UpTo(spans, hold))
    {
      hide Render, UpTo, Fits, Tally;
      emitted := "";
      var cursor: nat := base;
      ghost var ph := settings.placeholder;
      ghost var whole := Render(full[base..hold], base, UpTo(spans, hold), ph);
      ghost var tallied := Tally(counts, UpTo(spans, hold));
      var k := 0;
      assert spans[0..] == spans;
      while k < |spans| && spans[k].end <= hold
        invariant k <= |spans| && base <= cursor <= hold
        invariant Fits(UpTo(spans[k..], hold), cursor, hold - cursor)
        invariant emitted + Render(full[cursor..hold], cursor, UpTo(spans[k..], hold), ph) == whole
        invariant Tally(counts, UpTo(spans[k..], hold)) == tallied
        decreases |spans| - k
      {
        RoundOfOutput(full, cursor, hold, spans[k..], emitted, ph, counts);
        assert spans[k..][1..] == spans[k + 1..];
        emitted := emitted + full[cursor..spans[k].start] + settings.placeholder;
        cursor := spans[k].end;
        counts := Recorded(counts, spans[k].name);
        k := k + 1;
      }
      LastRoundOfOutput(full, cursor, hold, spans[k..], ph, counts);
      emitted := emitted + full[cursor..hold];
    }

    /** Consume a chunk; return the text that is now safe to emit. */
    method Feed(chunk: string) returns (r: string)
      requires Valid()
      modifies this
      ensures Valid() && fed == old(fed) + chunk && output == old(output) + r
      ensures old(released) <= released && old(cuts) <= cuts && old(output) <= output
      ensures FeedOne(settings, Stream(old(buffer), old(context)), chunk) == Fed(r, Stream(buffer, context))
    {
      hide EngineSound, Emit, Render, Fits, LastChars, Covering, Tally, Total, AllAccepted;
      if chunk == "" {
        assert fed + chunk == fed && output + "" == output;
        return "";
      }
      charactersIn := charactersIn + |chunk|;
      var text := buffer + chunk;
      r := Release(text, false, |chunk|);
      fed := fed + chunk;
    }

    /** One emission of `text`, whose last `added` characters are new, and the account of it. */
    method Release(text: string, final: bool, ghost added: nat) returns (r: string)
      requires EngineSound(settings.engine) && |text| == |buffer| + added && context == LastChars(released)
      requires Fits(cuts, 0, |released|) && output == Render(released, 0, cuts, settings.placeholder)
      requires AllAccepted(released, cuts)
      requires charactersOut + |buffer| + redacted == charactersIn - added + |settings.placeholder| * Total(counts)
      modifies `buffer, `context, `charactersOut, `counts, `released, `cuts, `output, `redacted
      ensures
        var e := Emit(settings, old(context), text, final);
        && r == e.out && buffer == e.next.buffer && context == e.next.context && output == old(output) + r
        && released == old(released) + e.safe && released + buffer == old(released) + text
      ensures old(cuts) <= cuts && context == LastChars(released)
      ensures if final then buffer == "" else |buffer| <= settings.maxHoldback
      ensures Fits(cuts, 0, |released|) && output == Render(released, 0, cuts, settings.placeholder)
      ensures AllAccepted(released, cuts)
      ensures charactersOut + |buffer| + redacted == charactersIn + |settings.placeholder| * Total(counts)
    {
      hide EngineSound, Emit, Render, Fits, LastChars, Covering, Tally, Total, AllAccepted;
      ghost var e := Emit(settings, context, text, final);
      EmitConserves(settings, context, text, final);
      TallyCounts(counts, e.cut);
      LastCharsAppend(released, e.safe);
      Balance(charactersIn - added, charactersOut, |buffer|, redacted, |settings.placeholder|, Total(counts),
              added, |e.out|, |e.next.buffer|, Covering(e.cut), |e.safe|, |e.cut|);
      r := EmitText(text, final);
      Absorb(e);
      assert released + buffer == old(released) + text;
    }

    /** End of stream: everything held is final. The object is then ready for another stream. */
    method Flush() returns (r: string)
      requires Valid()
      modifies this
      ensures Valid() && buffer == context == fed == released == output == "" && cuts == []
      ensures r == FlushOne(settings, Stream(old(buffer), old(context)))
      ensures exists whole :: old(cuts) <= whole && Fits(whole, 0, |old(fed)|) && AllAccepted(old(fed), whole)
                && old(output) + r == Render(old(fed), 0, whole, settings.placeholder)
    {
      hide EngineSound, Emit, Render, Fits, LastChars, Covering, Tally, Total, AllAccepted;
      if buffer == "" {
        assert released == fed && output + "" == output;
        r := "";
      } else {
        assert |buffer| == |buffer| + 0;
        r := Release(buffer, true, 0);
        assert released == fed;
      }
      FreshStream(settings.placeholder);
      context := "";
      fed, released, cuts, output := "", "", [], "";
    }

    /** The account of one emission added to that of the stream. */
    ghost method Absorb(e: Emission)
      requires Fits(cuts, 0, |released|) && output == Render(released, 0, cuts, settings.placeholder)
      requires Fits(e.cut, |LastChars(released)|, |e.safe|)
      requires e.out == Render(e.safe, |LastChars(released)|, e.cut, settings.placeholder)
      requires AllAccepted(released, cuts) && AllAccepted(LastChars(released) + e.safe, e.cut)
      modifies `released, `cuts, `output, `redacted
      ensures released == old(released) + e.safe && old(cuts) <= cuts && output == old(output) + e.out
      ensures Fits(cuts, 0, |released|) && output == Render(released, 0, cuts, settings.placeholder)
      ensures AllAccepted(released, cuts)
      ensures redacted == old(redacted) + Covering(e.cut)
    {
      hide AllAccepted;
      JoinEmission(released, cuts, output, e, settings.placeholder);
      var moved := Moved(e.cut, |OutOfSight(released)|);
      released, cuts, output, redacted := released + e.safe, cuts + moved, output + e.out, redacted + Covering(e.cut);
    }
  }

  lemma FreshStream(placeholder: string)
    ensures LastChars("") == "" && Fits([], 0, 0) && AllAccepted("", []) && Render("", 0, [], placeholder) == ""
  {
  }

  lemma NothingCut(spans: seq<Match>, base: nat, counts: map<string, nat>, placeholder: string)
    requires Fits(UpTo(spans, base), base, 0)
    ensures Render("", base, UpTo(spans, base), placeholder) == "" && Tally(counts, UpTo(spans, base)) == counts
  {
  }

  lemma LastRoundOfOutput(full: string, cursor: nat, hold: nat, spans: seq<Match>, placeholder: string,
      counts: map<string, nat>)
    requires cursor <= hold <= |full| && Fits(UpTo(spans, hold), cursor, hold - cursor)
    requires spans != [] ==> spans[0].end > hold
    ensures Render(full[cursor..hold], cursor, UpTo(spans, hold), placeholder) == full[cursor..hold]
    ensures Tally(counts, UpTo(spans, hold)) == counts
  {
  }

  lemma RoundOfOutput(full: string, cursor: nat, hold: nat, spans: seq<Match>, emitted: string, placeholder: string,
      counts: map<string, nat>)
    requires cursor <= hold <= |full| && Fits(UpTo(spans, hold), cursor, hold - cursor)
    requires spans != [] && spans[0].end <= hold
    ensures cursor <= spans[0].start < spans[0].end && Fits(UpTo(spans[1..], hold), spans[0].end, hold - spans[0].end)
    ensures emitted + Render(full[cursor..hold], cursor, UpTo(spans, hold), placeholder)
         == emitted + full[cursor..spans[0].start] + placeholder
            + Render(full[spans[0].end..hold], spans[0].end, UpTo(spans[1..], hold), placeholder)
    ensures Tally(counts, UpTo(spans, hold)) == Tally(Recorded(counts, spans[0].name), UpTo(spans[1..], hold))
  {
    var cut, text := UpTo(spans, hold), full[cursor..hold];
    var first, rest := full[cursor..spans[0].start], full[spans[0].end..hold];
    assert cut[0] == spans[0] && cut[1..] == UpTo(spans[1..], hold);
    assert text[..cut[0].start - cursor] == first && text[cut[0].end - cursor..] == rest;
    RenderHead(text, cursor, cut, cut[1..], first, rest, placeholder);
    Reassociate(emitted, first, placeholder, Render(rest, spans[0].end, cut[1..], placeholder),
        Render(text, cursor, cut, placeholder));
  }

  lemma Reassociate(a: string, b: string, c: string, d: string, part: string)
    requires part == b + c + d
    ensures a + part == a + b + c + d
  {
  }

  // ------------------------------------------------------- a whole stream, as a function

  datatype Fed = Fed(out: string, next: Stream)

  function FeedOne(s: Settings, stream: Stream, chunk: string): Fed
    requires EngineSound(s.engine)
  {
    if chunk == "" then Fed("", stream)
    else
      var e := Emit(s, stream.context, stream.buffer + chunk, false);
      Fed(e.out, e.next)
  }

  function FlushOne(s: Settings, stream: Stream): string
    requires EngineSound(s.engine)
  {
    if stream.buffer == "" then "" else Emit(s, stream.context, stream.buffer, true).out
  }

  function FeedAll(s: Settings, chunks: seq<string>): Fed
    requires EngineSound(s.engine)
  {
    if chunks == [] then Fed("", Stream("", ""))
    else
      var before := FeedAll(s, chunks[..|chunks| - 1]);
      var last := FeedOne(s, before.next, chunks[|chunks| - 1]);
      Fed(before.out + last.out, last.next)
  }

  function StreamOutput(s: Settings, chunks: seq<string>): string
    requires EngineSound(s.engine)
  {
    var fed := FeedAll(s, chunks);
    fed.out + FlushOne(s, fed.next)
  }

  /**
   A stream driven to its end: nothing is lost, reordered or half-released, and only whole, disjoint,
   validated values are replaced, whatever the engine says.
   */
  method RedactChunks(engine: Engine, placeholder: string, maxHoldback: nat, chunks: seq<string>) returns (r: string)
    requires EngineSound(engine) && maxHoldback >= MAX_MATCH_LENGTH
    ensures r == StreamOutput(Settings(engine, placeholder, maxHoldback), chunks)
    ensures exists cuts :: Fits(cuts, 0, |Concat(chunks)|) && AllAccepted(Concat(chunks), cuts)
              && r == Render(Concat(chunks), 0, cuts, placeholder)
  {
    hide EngineSound, Emit, Render, Fits, AllAccepted;
    var redactor := new StreamingRedactor(engine, placeholder, maxHoldback);
    var s := redactor.settings;
    r := "";
    for k := 0 to |chunks|
      invariant redactor.Valid() && redactor.settings == s
      invariant redactor.fed == Concat(chunks[..k]) && redactor.output == r
      invariant FeedAll(s, chunks[..k]) == Fed(r, Stream(redactor.buffer, redactor.context))
    {
      assert chunks[..k + 1][..k] == chunks[..k];
      var out := redactor.Feed(chunks[k]);
      r := r + out;
    }
    assert chunks[..|chunks|] == chunks;
    var last := redactor.Flush();
    r := r + last;
  }

  // --------------------------------------------------------- streams of few characters

  lemma EmitIs(s: Settings, context: string, text: string, final: bool, full: string, spans: seq<Match>, hold: nat)
    requires EngineSound(s.engine) && full == context + text
    requires Selected(s.engine, full, |context|) == spans && ReleasePoint(s, full, |context|, final) == hold
    ensures |context| <= hold <= |full| && Fits(UpTo(spans, hold), |context|, hold - |context|)
    ensures
      var e := Emit(s, context, text, final);
      && e.safe == full[|context|..hold] && e.cut == UpTo(spans, hold)
      && e.next == Stream(full[hold..], LastChars(full[..hold]))
  {
    hide Selected, ReleasePoint, UpTo, Render, Fits, LastChars, EngineSound;
    ReleaseFits(s, full, |context|, final);
  }

  lemma Slices(text: string, a: nat, b: nat, c: nat)
    requires a <= b <= c <= |text|
    ensures text[a..b] + text[b..c] == text[a..c] && text[..a] + text[a..c] == text[..c]
    ensures text[..c][a..b] == text[a..b] && text[..c][b..] == text[b..c] && text[..c][..b] == text[..b]
    ensures |text| <= CONTEXT_CHARS ==> LastChars(text[..b]) == text[..b]
  {
  }

  /** A feed, spelled out for a stream short enough to be all in sight. */
  lemma FeedIs(s: Settings, text: string, a: nat, b: nat, c: nat, spans: seq<Match>, release: nat)
    requires EngineSound(s.engine) && a <= b < c <= |text| <= CONTEXT_CHARS
    requires Selected(s.engine, text[..c], a) == spans && PushPast(spans, HoldbackIndex(s, text[..c], a)) == release
    ensures a <= release <= c && Fits(UpTo(spans, release), a, release - a)
    ensures FeedOne(s, Stream(text[a..b], text[..a]), text[b..c])
         == Fed(Render(text[a..release], a, UpTo(spans, release), s.placeholder),
                Stream(text[release..c], text[..release]))
  {
    hide Selected, HoldbackIndex, PushPast, UpTo, Render, Fits, Emit, LastChars, EngineSound, ReleasePoint,
      AllAccepted, Covering;
    Slices(text, a, b, c);
    CapNeverFires(s, text[..c], a);
    EmitIs(s, text[..a], text[a..c], false, text[..c], spans, release);
    EmitConserves(s, text[..a], text[a..c], false);
    Slices(text, a, release, c);
  }

  lemma Rejoined(text: string, a: nat)
    requires a <= |text|
    ensures text[..a] + text[a..] == text && text[a..|text|] == text[a..] && |text[..a]| == a
  {
  }

  lemma ReleasesAll(s: Settings, text: string, a: nat)
    requires EngineSound(s.engine) && a <= |text|
    ensures ReleasePoint(s, text, a, true) == |text|
  {
  }

  /** The flush of such a stream. */
  lemma FlushIs(s: Settings, text: string, a: nat, spans: seq<Match>)
    requires EngineSound(s.engine) && a < |text| <= CONTEXT_CHARS && Selected(s.engine, text, a) == spans
    ensures Fits(UpTo(spans, |text|), a, |text| - a)
    ensures FlushOne(s, Stream(text[a..], text[..a])) == Render(text[a..], a, UpTo(spans, |text|), s.placeholder)
  {
    hide Selected, HoldbackIndex, PushPast, UpTo, Render, Fits, Emit, LastChars, EngineSound, ReleasePoint,
      AllAccepted, Covering;
    Rejoined(text, a);
    ReleasesAll(s, text, a);
    EmitIs(s, text[..a], text[a..], true, text, spans, |text|);
    EmitConserves(s, text[..a], text[a..], true);
  }

  lemma OneFeed(s: Settings, text: string)
    requires EngineSound(s.engine)
    ensures
      var fed := FeedOne(s, Stream("", ""), text);
      Concat([text]) == text && StreamOutput(s, [text]) == fed.out + FlushOne(s, fed.next)
  {
    hide EngineSound, FeedOne, FlushOne;
    assert [text][..0] == [] && FeedAll(s, []) == Fed("", Stream("", ""));
    assert "" + FeedOne(s, Stream("", ""), text).out == FeedOne(s, Stream("", ""), text).out;
    assert "" + text == text;
  }

  lemma TwoFeeds(s: Settings, a: string, b: string)
    requires EngineSound(s.engine)
    ensures
      var first := FeedOne(s, Stream("", ""), a);
      var second := FeedOne(s, first.next, b);
      Concat([a, b]) == a + b && StreamOutput(s, [a, b]) == first.out + second.out + FlushOne(s, second.next)
  {
    hide EngineSound, FeedOne, FlushOne;
    OneFeed(s, a);
    assert [a][..0] == [] && FeedAll(s, []) == Fed("", Stream("", ""));
    assert "" + FeedOne(s, Stream("", ""), a).out == FeedOne(s, Stream("", ""), a).out;
    assert [a, b][..1] == [a];
  }
}
