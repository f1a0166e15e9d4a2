/** The decoder: characters arrive in arbitrary chunks, whole events leave. */
module SseDecoder {
  import opened Wrappers
  import opened SseText

  datatype FeedResult = Events(events: seq<SSEEvent>) | Oversized

  /** The part of a BOM-stripped text whose normal form no continuation can change. */
  function Settled(s: string): string {
    Normalise(DropCr(s))
  }

  function HeldCr(s: string): string {
    if EndsWithCr(s) then "\r" else ""
  }

  /** The events yielded and the blocks still in the buffer are together those of `text`. */
  ghost predicate Accounts(yielded: seq<SSEEvent>, buffer: string, text: string) {
    && yielded + ParseAll(Blocks(buffer).blocks) == ParseAll(Blocks(text).blocks)
    && Blocks(buffer).rest == Blocks(text).rest
  }

  /** What a chunk contributes: the held-back CR, then the data, with any BOM at the start dropped. */
  function Arrived(s: string, data: string): string {
    if s == "" then StripBom(data) else HeldCr(s) + data
  }

  function DropCr(s: string): string {
    if EndsWithCr(s) then s[..|s| - 1] else s
  }

  /** Python's `str.isspace` for one character. */
  predicate IsSpace(c: char) {
    || '\t' <= c <= '\r' || '\U{1C}' <= c <= ' ' || c == '\U{85}' || c == '\U{A0}' || c == '\U{1680}'
    || '\U{2000}' <= c <= '\U{200A}' || c == '\U{2028}' || c == '\U{2029}' || c == '\U{202F}'
    || c == '\U{205F}' || c == '\U{3000}'
  }

  predicate AllSpace(s: string) {
    forall i :: 0 <= i < |s| ==> IsSpace(s[i])
  }

  class SSEDecoder {
    var buffer: string
    var pendingCr: string
    var atStart: bool
    const maxEventBytes: nat
    /** Everything fed so far, and every event yielded so far. */
    ghost var seen: string
    ghost var yielded: seq<SSEEvent>

    /** The fields stand for `seen`: nothing lost, nothing repeated, however it was cut. */
    ghost predicate Valid()
      reads this
    {
      var s := StripBom(seen);
      && atStart == (s == "")
      && pendingCr == HeldCr(s)
      && Accounts(yielded, buffer, Settled(s))
      && |buffer| + |pendingCr| <= |seen|
    }

    /** No finished block is waiting, which is how every successful `Feed` leaves the buffer. */
    ghost predicate Drained()
      reads this
    {
      FindBlank(buffer).None?
    }

    constructor (maxEventBytes: nat)
      ensures Valid() && Drained() && seen == "" && yielded == [] && this.maxEventBytes == maxEventBytes
    {
      this.maxEventBytes := maxEventBytes;
      buffer, pendingCr, atStart := "", "", true;
      seen, yielded := "", [];
    }

    method Feed(data: string) returns (r: FeedResult)
      requires Valid()
      modifies this
      ensures Valid() && seen == old(seen) + data
      ensures yielded == if r.Events? then old(yielded) + r.events else old(yielded)
      ensures r.Events? ==> Drained()
      ensures r.Oversized? <==>
                |old(buffer)| + |Normalise(DropCr(Arrived(StripBom(old(seen)), data)))| > maxEventBytes
      ensures r.Oversized? ==> buffer == old(buffer) + Normalise(DropCr(Arrived(StripBom(old(seen)), data)))
    {
      hide Normalise, Blocks, ParseAll, ParseBlock, FindBlank, Settled, Accounts, StripBom;
      ChunkSettles(seen, data);
      NothingToStrip();
      var decoded := pendingCr + data;
      pendingCr := "";
      if atStart && decoded != "" {
        decoded := StripBom(decoded);
        if decoded != "" {
          atStart := false;
        }
      }
      assert decoded == Arrived(StripBom(seen), data);
      if EndsWithCr(decoded) {
        pendingCr := "\r";
        decoded := decoded[..|decoded| - 1];
      }
      AccountsAppend(yielded, buffer, Settled(StripBom(seen)), Normalise(decoded));
      buffer := buffer + Normalise(decoded);
      seen := seen + data;
      if |buffer| > maxEventBytes {
        return Oversized;
      }
      var events := SplitEvents();
      return Events(events);
    }

    /** The splitting loop: takes every finished block off the buffer, in order. */
    method SplitEvents() returns (events: seq<SSEEvent>)
      requires Valid()
      modifies `buffer, `yielded
      ensures Valid() && Drained() && yielded == old(yielded) + events
    {
      hide Blocks, ParseAll, ParseBlock, Normalise, StripBom;
      events := [];
      var blank := FindBlank(buffer);
      while blank.Some?
        invariant Valid() && blank == FindBlank(buffer)
        invariant yielded == old(yielded) + events
        decreases |buffer|
      {
        AccountsPop(yielded, buffer, Settled(StripBom(seen)), blank.value);
        var raw := buffer[..blank.value];
        buffer := buffer[blank.value + 2..];
        var event := ParseLines(raw);
        if event.Some? {
          events := events + [event.value];
        }
        yielded := yielded + Present(event);
        blank := FindBlank(buffer);
      }
    }

    /** What is left is one last block; after an accepted stream that completes the meaning of it all. */
    method Flush() returns (events: seq<SSEEvent>)
      requires Valid()
      modifies this
      ensures buffer == "" && pendingCr == "" && seen == old(seen)
      ensures events == Present(ParseBlock(old(buffer) + Normalise(old(pendingCr)))) && yielded == old(yielded) + events
      ensures old(Drained()) ==> yielded == DecodeText(seen)
    {
      hide Blocks, ParseAll, ParseBlock, Normalise, StripBom, FindBlank, HeldCr;
      ghost var s := StripBom(seen);
      buffer := buffer + Normalise(pendingCr);
      if FindBlank(old(buffer)).None? {
        FlushIsTheRest(s, old(buffer), yielded);
      }
      pendingCr := "";
      var remainder := buffer;
      buffer := "";
      events := [];
      if !AllSpace(remainder) {
        var event := ParseLines(remainder);
        if event.Some? {
          events := [event.value];
        }
      } else {
        BlankRemainder(remainder);
      }
      yielded := yielded + events;
    }
  }

  /** The static block parser: one pass over the lines, later fields overwriting earlier ones. */
  method ParseLines(raw: string) returns (event: Option<SSEEvent>)
    ensures event == ParseBlock(raw)
  {
    var name, id, retry := None, None, None;
    var dataLines := [];
    var lines := SplitLines(raw);
    for k := 0 to |lines|
      invariant dataLines == DataLines(lines[..k])
      invariant name == LastValue(lines[..k], "event")
      invariant id == LastValue(lines[..k], "id")
      invariant retry == LastValue(lines[..k], "retry")
    {
      var line := lines[k];
      assert lines[..k + 1] == lines[..k] + [line];
      assert lines[..k + 1][..k] == lines[..k];
      DataLinesConcat(lines[..k], [line]);
      if line == "" || line[0] == ':' {
        continue;
      }
      var field, value := FieldName(line), FieldValue(line);
      if field == "data" {
        dataLines := dataLines + [value];
      } else if field == "event" {
        name := Some(value);
      } else if field == "id" {
        id := Some(value);
      } else if field == "retry" {
        retry := Some(value);
      }
    }
    assert lines[..|lines|] == lines;
    if dataLines == [] {
      return None;
    }
    return Some(SSEEvent(name, JoinLines(dataLines), id, retry));
  }

  // ------------------------------------------------------------------- proofs

  /** Appending the same text to both sides of the account keeps it balanced. */
  lemma AccountsAppend(yielded: seq<SSEEvent>, buffer: string, text: string, piece: string)
    requires Accounts(yielded, buffer, text)
    ensures Accounts(yielded, buffer + piece, text + piece)
  {
    hide Blocks, ParseAll;
    BlocksConcat(text, piece);
    BlocksConcat(buffer, piece);
    var tail := Blocks(Blocks(buffer).rest + piece).blocks;
    ParseAllConcat(Blocks(text).blocks, tail);
    ParseAllConcat(Blocks(buffer).blocks, tail);
    assert yielded + (ParseAll(Blocks(buffer).blocks) + ParseAll(tail))
        == (yielded + ParseAll(Blocks(buffer).blocks)) + ParseAll(tail);
  }

  /** Taking the first finished block out of the buffer and yielding its event keeps the account. */
  lemma AccountsPop(yielded: seq<SSEEvent>, buffer: string, text: string, i: nat)
    requires Accounts(yielded, buffer, text) && FindBlank(buffer) == Some(i)
    ensures Accounts(yielded + Present(ParseBlock(buffer[..i])), buffer[i + 2..], text)
  {
    hide FindBlank, ParseBlock;
    var tail := Blocks(buffer[i + 2..]);
    assert Blocks(buffer) == Split([buffer[..i]] + tail.blocks, tail.rest);
    hide Blocks;
    var raw := [buffer[..i]] + tail.blocks;
    assert raw[0] == buffer[..i] && raw[1..] == tail.blocks;
    assert ParseAll(raw) == Present(ParseBlock(raw[0])) + ParseAll(raw[1..]);
  }

  lemma NothingToStrip()
    ensures StripBom("") == ""
    ensures forall s: string :: "" + s == s
  {
  }

  /** Feeding one more chunk appends its settled part to the settled text. */
  lemma ChunkSettles(seen: string, data: string)
    ensures
      var s, s', arrived := StripBom(seen), StripBom(seen + data), Arrived(StripBom(seen), data);
      && Settled(s') == Settled(s) + Normalise(DropCr(arrived))
      && HeldCr(s') == HeldCr(arrived)
      && (s' == "" <==> s == "" && arrived == "")
      && |arrived| <= |HeldCr(s)| + |data|
      && |Normalise(DropCr(arrived))| + |HeldCr(arrived)| <= |arrived|
  {
    hide Normalise, StripBom;
    var s, s', arrived := StripBom(seen), StripBom(seen + data), Arrived(StripBom(seen), data);
    StripBomConcat(seen, data);
    StripBomShrinks(data);
    NormaliseShrinks(DropCr(arrived));
    assert s == DropCr(s) + HeldCr(s);
    assert s' == DropCr(s) + arrived;
    assert DropCr(s') == DropCr(s) + DropCr(arrived);
    NormaliseConcat(DropCr(s), DropCr(arrived));
  }

  lemma {:induction false} StripBomShrinks(s: string)
    ensures |StripBom(s)| <= |s|
  {
    if s != "" && s[0] == BOM {
      StripBomShrinks(s[1..]);
    }
  }

  lemma {:induction false} NormaliseShrinks(s: string)
    ensures |Normalise(s)| <= |s|
  {
    if s != "" {
      if |s| >= 2 && s[0] == '\r' && s[1] == '\n' {
        NormaliseShrinks(s[2..]);
      } else {
        NormaliseShrinks(s[1..]);
      }
    }
  }

  /** A remainder of white space names no field, so skipping it loses no event. */
  lemma BlankRemainder(s: string)
    requires AllSpace(s)
    ensures ParseBlock(s).None?
  {
    SpaceHasNoData(s);
  }

  lemma SpaceNamesNothing(line: string)
    requires AllSpace(line)
    ensures !Names(line, "data")
  {
    assert FieldName(line) == "" || FieldName(line)[0] == line[0];
    assert "data"[0] == 'd' && !IsSpace('d');
  }

  lemma {:induction false} SpaceHasNoData(s: string)
    requires AllSpace(s)
    ensures DataLines(SplitLines(s)) == []
  {
    var i := IndexOf(s, '\n');
    SpaceNamesNothing(s[..i]);
    hide Names, FieldName, FieldValue;
    if i < |s| {
      SpaceHasNoData(s[i + 1..]);
      assert SplitLines(s) == [s[..i]] + SplitLines(s[i + 1..]);
      assert SplitLines(s)[1..] == SplitLines(s[i + 1..]);
    } else {
      assert s[..i] == s && SplitLines(s) == [s] && [s][1..] == [];
    }
  }

  /**
   At the end of the body the open rest becomes the last block. `flush` does not look for a blank
   line, and need not: a held-back CR can complete one only at the very end.
   */
  lemma FlushIsTheRest(s: string, buffer: string, yielded: seq<SSEEvent>)
    requires FindBlank(buffer).None? && Accounts(yielded, buffer, Settled(s))
    ensures
      var parts := Blocks(Normalise(s));
      yielded + Present(ParseBlock(buffer + Normalise(HeldCr(s))))
           == ParseAll(parts.blocks) + Present(ParseBlock(parts.rest))
  {
    hide Normalise, Blocks, ParseAll, ParseBlock, FindBlank;
    assert s == DropCr(s) + HeldCr(s);
    NormaliseConcat(DropCr(s), HeldCr(s));
    var tail := Normalise(HeldCr(s));
    AccountsAppend(yielded, buffer, Settled(s), tail);
    NormaliseHeldCr(s);
    OpenTail(buffer, tail);
  }

  lemma NormaliseHeldCr(s: string)
    ensures Normalise(HeldCr(s)) in {"", "\n"}
  {
    assert "\r"[1..] == "";
    assert CrlfToLf("\r") == ['\r'] + CrlfToLf("");
    assert CrToLf("\r") == "\n";
  }

  lemma OpenTail(buffer: string, tail: string)
    requires FindBlank(buffer).None? && tail in {"", "\n"}
    ensures
      var parts := Blocks(buffer + tail);
      ParseAll(parts.blocks) + Present(ParseBlock(parts.rest)) == Present(ParseBlock(buffer + tail))
  {
    var x := buffer + tail;
    match FindBlank(x)
    case None =>
    case Some(i) =>
      assert i + 2 == |x| && tail == "\n" by {
        if i + 2 < |x| || tail == "" {
          assert BlankAt(buffer, i);
        }
      }
      assert x == x[..i] + "\n" + "\n";
      ParseBlockBreak(x[..i]);
      ParseBlockBreak(x[..i] + "\n");
      assert x[i + 2..] == "" && Blocks("") == Split([], "") && ParseBlock("").None?;
      assert Blocks(x).blocks == [x[..i]];
  }

  /**
   Chunk invariance. A stream driven as the gateway drives it, one feed per arriving chunk and a
   flush at the end, yields what the whole text means, however it was cut; and a stream no longer
   than the cap is never refused.
   */
  method DecodeChunks(chunks: seq<string>, maxEventBytes: nat) returns (r: Option<seq<SSEEvent>>)
    ensures r.Some? ==> r.value == DecodeText(Concat(chunks))
    ensures |Concat(chunks)| <= maxEventBytes ==> r.Some?
  {
    hide Normalise, StripBom, FindBlank, DecodeText, Blocks, ParseAll, Accounts, HeldCr, Settled, Arrived, DropCr,
      Concat;
    ConcatEnds(chunks);
    var decoder := new SSEDecoder(maxEventBytes);
    var events := [];
    for k := 0 to |chunks|
      invariant decoder.Valid() && decoder.Drained() && decoder.maxEventBytes == maxEventBytes
      invariant decoder.seen == Concat(chunks[..k]) && decoder.yielded == events
    {
      ConcatNext(chunks, k);
      var fed := decoder.Feed(chunks[k]);
      if fed.Oversized? {
        ConcatPrefix(chunks, k + 1);
        return None;
      }
      events := events + fed.events;
    }
    var last := decoder.Flush();
    return Some(events + last);
  }

  lemma ConcatNext(chunks: seq<string>, k: nat)
    requires k < |chunks|
    ensures Concat(chunks[..k + 1]) == Concat(chunks[..k]) + chunks[k]
  {
    assert chunks[..k + 1][..k] == chunks[..k];
  }

  lemma ConcatEnds(chunks: seq<string>)
    ensures Concat(chunks[..0]) == "" && chunks[..|chunks|] == chunks
  {
  }

  lemma {:induction false} ConcatPrefix(chunks: seq<string>, k: nat)
    requires k <= |chunks|
    ensures |Concat(chunks[..k])| <= |Concat(chunks)|
    decreases |chunks| - k
  {
    if k < |chunks| {
      ConcatNext(chunks, k);
      ConcatPrefix(chunks, k + 1);
    } else {
      assert chunks[..k] == chunks;
    }
  }
}
