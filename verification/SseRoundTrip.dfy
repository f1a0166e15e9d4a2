/** Encoding an event and decoding the result: when it gives the event back, and when it cannot. */
module SseRoundTrip {
  import opened Wrappers
  import opened SseText
  import opened SseDecoder

  predicate NoChar(s: string, c: char) {
    forall i :: 0 <= i < |s| ==> s[i] != c
  }

  predicate OneLine(s: string) {
    NoChar(s, '\n') && NoChar(s, '\r')
  }

  predicate OneLineIfAny(s: Option<string>) {
    s.Some? ==> OneLine(s.value)
  }

  /** No field contains a line break: the condition under which an event survives the wire. */
  predicate Clean(e: SSEEvent) {
    OneLineIfAny(e.event) && OneLine(e.data) && OneLineIfAny(e.id) && OneLineIfAny(e.retry)
  }

  predicate AllClean(events: seq<SSEEvent>) {
    forall i :: 0 <= i < |events| ==> Clean(events[i])
  }

  /** Lines that can be joined and split again: none blank, none containing a line break. */
  predicate Solid(lines: seq<string>) {
    forall i :: 0 <= i < |lines| ==> lines[i] != "" && NoChar(lines[i], '\n')
  }

  /** The encoder: one line a present field, in the order id, event, retry, data. */
  method EncodeSse(data: string, event: Option<string>, eventId: Option<string>, retry: Option<string>)
    returns (wire: string)
    ensures wire == EncodeText([SSEEvent(event, data, eventId, retry)])
  {
    var lines: seq<string> := [];
    assert "id" + ": " == "id: " && "event" + ": " == "event: " && "retry" + ": " == "retry: ";
    if eventId.Some? {
      lines := lines + ["id: " + eventId.value];
    }
    assert lines == FieldLine("id", eventId);
    if event.Some? {
      lines := lines + ["event: " + event.value];
    }
    assert lines == FieldLine("id", eventId) + FieldLine("event", event);
    if retry.Some? {
      lines := lines + ["retry: " + retry.value];
    }
    assert lines == FieldLine("id", eventId) + FieldLine("event", event) + FieldLine("retry", retry);
    lines := lines + ["data: " + data];
    assert lines == EventLines(SSEEvent(event, data, eventId, retry));
    wire := JoinLines(lines) + "\n\n";
    assert EncodeText([]) == "" && wire + "" == wire;
  }

  // -------------------------------------------------------- splitting a join

  lemma {:induction false} SplitLinesConcat(a: string, b: string)
    ensures SplitLines(a + "\n" + b) == SplitLines(a) + SplitLines(b)
  {
    hide IndexOf;
    var s := a + "\n" + b;
    IndexOfConcat(a, "\n" + b, '\n');
    assert s == a + ("\n" + b) && ("\n" + b)[0] == '\n';
    var i := IndexOf(a, '\n');
    assert s[..i] == a[..i];
    assert SplitLines(s) == [s[..i]] + SplitLines(s[i + 1..]);
    if i < |a| {
      assert s[i + 1..] == a[i + 1..] + "\n" + b;
      SplitLinesConcat(a[i + 1..], b);
      assert SplitLines(a) == [a[..i]] + SplitLines(a[i + 1..]);
      hide SplitLines;
      Reassociated([a[..i]], SplitLines(a[i + 1..]), SplitLines(b));
    } else {
      assert a[..i] == a && s[i + 1..] == b;
    }
  }

  lemma {:induction false} SplitLinesJoin(lines: seq<string>)
    requires lines != [] && Solid(lines)
    ensures SplitLines(JoinLines(lines)) == lines
  {
    if |lines| > 1 {
      SplitLinesJoin(lines[1..]);
      SplitLinesConcat(lines[0], JoinLines(lines[1..]));
    }
    assert IndexOf(lines[0], '\n') == |lines[0]|;
  }

  /** Solid lines joined contain no blank line and neither begin nor end with a line break. */
  lemma {:induction false} JoinIsSolid(lines: seq<string>)
    requires lines != [] && Solid(lines)
    ensures
      var s := JoinLines(lines);
      && s != "" && s[0] != '\n' && s[|s| - 1] != '\n'
      && forall i :: 0 <= i < |s| ==> !BlankAt(s, i)
  {
    if |lines| > 1 {
      JoinIsSolid(lines[1..]);
      var s, tail, k := JoinLines(lines), JoinLines(lines[1..]), |lines[0]| + 1;
      assert s == lines[0] + ("\n" + tail);
      forall i | 0 <= i < |s|
        ensures !BlankAt(s, i)
      {
        assert i >= k ==> BlankAt(s, i) == BlankAt(tail, i - k);
      }
    }
  }

  /** The blank line after a join is the first one, whatever follows. */
  lemma FirstBlank(lines: seq<string>, rest: string)
    requires lines != [] && Solid(lines)
    ensures FindBlank(JoinLines(lines) + "\n\n" + rest) == Some(|JoinLines(lines)|)
  {
    hide JoinLines;
    JoinIsSolid(lines);
    var j := JoinLines(lines);
    var s := j + "\n\n" + rest;
    forall i | 0 <= i < |j|
      ensures !BlankAt(s, i)
    {
      assert !BlankAt(j, i);
    }
    assert BlankAt(s, |j|);
  }

  // ------------------------------------------------------ one event at a time

  lemma FieldRoundTrip(name: string, value: string)
    requires name != "" && NoChar(name, ':')
    ensures
      var line := name + ": " + value;
      Names(line, name) && FieldValue(line) == value && FieldName(line) == name
  {
    var line := name + ": " + value;
    assert IndexOf(line, ':') == |name| by {
      hide IndexOf;
      assert line[|name|] == ':';
      forall j | 0 <= j < |name|
        ensures line[j] != ':'
      {
        assert line[j] == name[j];
      }
    }
    hide IndexOf;
    assert line[..|name|] == name && line[|name| + 1..] == " " + value;
    assert (" " + value)[1..] == value;
  }

  lemma EventRoundTrip(e: SSEEvent)
    ensures EventOf(EventLines(e)) == Some(e)
  {
    OneDatum(e.data);
    hide *;
    DataOfEvent(e);
    FieldOfEvent(e, "id", e.id);
    FieldOfEvent(e, "event", e.event);
    FieldOfEvent(e, "retry", e.retry);
    EventOfParts(EventLines(e));
  }

  lemma OneDatum(data: string)
    ensures JoinLines([data]) == data
  {
  }

  lemma EventOfParts(lines: seq<string>)
    ensures EventOf(lines) ==
      if DataLines(lines) == [] then None
      else Some(SSEEvent(LastValue(lines, "event"), JoinLines(DataLines(lines)), LastValue(lines, "id"),
          LastValue(lines, "retry")))
  {
    hide DataLines, LastValue, JoinLines;
  }

  lemma DataOfEvent(e: SSEEvent)
    ensures DataLines(EventLines(e)) == [e.data]
  {
    hide *;
    EventLinesOf(e);
    OtherFieldsCarryNoData(e);
    OneDataLine(FieldLine("id", e.id) + FieldLine("event", e.event) + FieldLine("retry", e.retry), e.data);
  }

  lemma FieldOfEvent(e: SSEEvent, field: string, value: Option<string>)
    requires field in {"id", "event", "retry"}
    requires value == if field == "id" then e.id else if field == "event" then e.event else e.retry
    ensures LastValue(EventLines(e), field) == value
  {
    hide *;
    var i, n, r, d := FieldLine("id", e.id), FieldLine("event", e.event), FieldLine("retry", e.retry),
        ["data: " + e.data];
    EventLinesOf(e);
    FieldLineParts("id", e.id);
    FieldLineParts("event", e.event);
    FieldLineParts("retry", e.retry);
    DataLineNamesNoOther(e.data, field);
    LastValueConcat(i + n + r, d, field);
    LastValueConcat(i + n, r, field);
    LastValueConcat(i, n, field);
  }

  lemma DataLineNamesNoOther(data: string, field: string)
    requires field in {"id", "event", "retry"}
    ensures LastValue(["data: " + data], field).None?
  {
    FieldRoundTrip("data", data);
    hide IndexOf, FieldValue, FieldName;
    var line := "data: " + data;
    assert "data" + ": " == "data: ";
    assert [line][..0] == [] && LastValue([], field).None?;
  }

  lemma FieldLineParts(name: string, value: Option<string>)
    requires name in {"id", "event", "retry"}
    ensures DataLines(FieldLine(name, value)) == []
    ensures forall field: string :: LastValue(FieldLine(name, value), field) == if field == name then value else None
  {
    if value.Some? {
      FieldRoundTrip(name, value.value);
      var line := name + ": " + value.value;
      assert DataLines([line]) == [];
      assert [line][..0] == [];
      forall field: string
        ensures LastValue([line], field) == if field == name then value else None
      {
        assert LastValue([line][..0], field) == None;
      }
    }
  }

  lemma EventLinesSolid(e: SSEEvent)
    requires Clean(e)
    ensures Solid(EventLines(e)) && NoChar(JoinLines(EventLines(e)), '\r')
    ensures JoinLines(EventLines(e)) != "" && JoinLines(EventLines(e))[0] != BOM
  {
    hide *;
    var lines := EventLines(e);
    CleanLacks(e);
    EventLinesLack(e, '\n');
    EventLinesLack(e, '\r');
    LinesAreSolid(lines);
    LinesLack(lines, '\r');
    JoinNoChar(lines, '\r');
    JoinHead(lines);
  }

  /** No field contains a character, which is none of those the encoder adds in front of them. */
  predicate Lacks(e: SSEEvent, c: char) {
    && (e.event.Some? ==> NoChar(e.event.value, c)) && NoChar(e.data, c)
    && (e.id.Some? ==> NoChar(e.id.value, c)) && (e.retry.Some? ==> NoChar(e.retry.value, c))
  }

  lemma CleanLacks(e: SSEEvent)
    ensures Clean(e) <==> Lacks(e, '\n') && Lacks(e, '\r')
    ensures Tame(e) ==> Lacks(e, '\r')
  {
    hide NoChar;
  }

  /** A line begins as the encoder writes it, and lacks a character. */
  predicate LineLacks(line: string, c: char) {
    line != "" && line[0] != BOM && NoChar(line, c)
  }

  ghost predicate AllLack(lines: seq<string>, c: char) {
    forall k :: 0 <= k < |lines| ==> LineLacks(lines[k], c)
  }

  lemma FieldLacks(name: string, value: Option<string>, c: char)
    requires name in {"id", "event", "retry"} && c in {'\n', '\r'} && (value.Some? ==> NoChar(value.value, c))
    ensures AllLack(FieldLine(name, value), c)
  {
    assert NoChar(name + ": ", c) && name[0] != BOM;
    if value.Some? {
      assert LineLacks(name + ": " + value.value, c);
    }
  }

  lemma DataLacks(data: string, c: char)
    requires c in {'\n', '\r'} && NoChar(data, c)
    ensures AllLack(["data: " + data], c)
  {
    assert NoChar("data: ", c) && "data: "[0] != BOM;
    assert LineLacks("data: " + data, c);
  }

  lemma LackConcat(a: seq<string>, b: seq<string>, c: char)
    requires AllLack(a, c) && AllLack(b, c)
    ensures AllLack(a + b, c)
  {
    hide LineLacks;
  }

  lemma EventLinesLack(e: SSEEvent, c: char)
    requires c in {'\n', '\r'} && Lacks(e, c)
    ensures AllLack(EventLines(e), c) && EventLines(e) != []
  {
    hide LineLacks, AllLack, NoChar, FieldLine;
    FieldLacks("id", e.id, c);
    FieldLacks("event", e.event, c);
    FieldLacks("retry", e.retry, c);
    DataLacks(e.data, c);
    LackConcat(FieldLine("id", e.id), FieldLine("event", e.event), c);
    LackConcat(FieldLine("id", e.id) + FieldLine("event", e.event), FieldLine("retry", e.retry), c);
    var others := FieldLine("id", e.id) + FieldLine("event", e.event) + FieldLine("retry", e.retry);
    LackConcat(others, ["data: " + e.data], c);
  }

  lemma LinesAreSolid(lines: seq<string>)
    requires AllLack(lines, '\n')
    ensures Solid(lines)
  {
  }

  lemma LinesLack(lines: seq<string>, c: char)
    requires AllLack(lines, c)
    ensures forall k :: 0 <= k < |lines| ==> NoChar(lines[k], c)
    ensures lines != [] ==> lines[0] != "" && lines[0][0] != BOM
  {
    assert lines != [] ==> LineLacks(lines[0], c);
  }

  lemma {:induction false} JoinNoChar(lines: seq<string>, c: char)
    requires c != '\n' && forall k :: 0 <= k < |lines| ==> NoChar(lines[k], c)
    ensures NoChar(JoinLines(lines), c)
  {
    if |lines| > 1 {
      JoinNoChar(lines[1..], c);
    }
  }

  lemma JoinHead(lines: seq<string>)
    requires lines != [] && lines[0] != ""
    ensures JoinLines(lines) != "" && JoinLines(lines)[0] == lines[0][0]
  {
  }

  lemma {:induction false} NormaliseClean(s: string)
    requires NoChar(s, '\r')
    ensures Normalise(s) == s
  {
    if s != "" {
      NormaliseClean(s[1..]);
      assert s == [s[0]] + s[1..];
    }
  }

  // --------------------------------------------------------- the round trips

  lemma {:induction false} EncodedBlocks(events: seq<SSEEvent>)
    requires AllClean(events)
    ensures Blocks(EncodeText(events)).rest == ""
    ensures ParseAll(Blocks(EncodeText(events)).blocks) == events
    ensures NoChar(EncodeText(events), '\r')
    ensures EncodeText(events) != "" ==> EncodeText(events)[0] != BOM
  {
    if events != [] {
      var e, tail := events[0], EncodeText(events[1..]);
      var j := JoinLines(EventLines(e));
      EncodedBlocks(events[1..]);
      EventLinesSolid(e);
      FirstBlank(EventLines(e), tail);
      SplitLinesJoin(EventLines(e));
      EventRoundTrip(e);
      assert j + "\n\n" + tail == EncodeText(events);
      hide *;
      BlockInFront(j, tail, e);
      NoCarriageReturn(j, tail);
      assert [e] + events[1..] == events;
    } else {
      assert Blocks("") == Split([], "");
    }
  }

  lemma NoCarriageReturn(j: string, tail: string)
    requires NoChar(j, '\r') && NoChar(tail, '\r')
    ensures NoChar(j + "\n\n" + tail, '\r')
  {
  }

  /** A finished block in front of a text adds its event in front. */
  lemma BlockInFront(j: string, tail: string, e: SSEEvent)
    requires FindBlank(j + "\n\n" + tail) == Some(|j|) && ParseBlock(j) == Some(e)
    ensures
      var s := j + "\n\n" + tail;
      Blocks(s).rest == Blocks(tail).rest && ParseAll(Blocks(s).blocks) == [e] + ParseAll(Blocks(tail).blocks)
  {
    hide ParseBlock, FindBlank;
    var s := j + "\n\n" + tail;
    assert s[..|j|] == j && s[|j| + 2..] == tail;
    var blocks := [j] + Blocks(tail).blocks;
    assert Blocks(s) == Split(blocks, Blocks(tail).rest);
    assert blocks[0] == j && blocks[1..] == Blocks(tail).blocks;
  }

  /** Every sequence of events without line breaks comes back, absent and empty fields kept apart. */
  lemma RoundTrip(events: seq<SSEEvent>)
    requires AllClean(events)
    ensures DecodeText(EncodeText(events)) == events
  {
    hide EncodeText, Blocks, Normalise, ParseAll;
    EncodedBlocks(events);
    NormaliseClean(EncodeText(events));
    assert StripBom(EncodeText(events)) == EncodeText(events);
    assert ParseBlock("").None? by {
      assert SplitLines("") == [""] && DataLines([""]) == DataLines([]);
    }
  }

  /** The same over the wire: any chunking of the encoded events within the cap decodes to them. */
  method DecodeEncoded(events: seq<SSEEvent>, chunks: seq<string>, maxEventBytes: nat) returns (r: seq<SSEEvent>)
    requires AllClean(events) && Concat(chunks) == EncodeText(events) && |Concat(chunks)| <= maxEventBytes
    ensures r == events
  {
    hide EncodeText, DecodeText, Concat;
    RoundTrip(events);
    var decoded := DecodeChunks(chunks, maxEventBytes);
    return decoded.value;
  }

  // ------------------------------- no other event survives: the exact condition

  /** What decoding can produce: single-line names and ids, data without a CR. */
  predicate Tame(e: SSEEvent) {
    OneLineIfAny(e.event) && NoChar(e.data, '\r') && OneLineIfAny(e.id) && OneLineIfAny(e.retry)
  }

  ghost predicate EachLacks(lines: seq<string>, c: char) {
    forall k :: 0 <= k < |lines| ==> NoChar(lines[k], c)
  }

  lemma {:induction false} SplitLinesPieces(s: string)
    ensures EachLacks(SplitLines(s), '\n')
    ensures NoChar(s, '\r') ==> EachLacks(SplitLines(s), '\r')
    ensures JoinLines(SplitLines(s)) == s
  {
    hide *;
    NextLine(s);
    var i := IndexOf(s, '\n');
    PartsLack(s, i);
    if i < |s| {
      var first, rest := s[..i], s[i + 1..];
      SplitLinesPieces(rest);
      LackCons(first, SplitLines(rest), '\n');
      if NoChar(s, '\r') {
        LackCons(first, SplitLines(rest), '\r');
      }
      JoinCons(first, SplitLines(rest));
    } else {
      OneLineAlone(s);
    }
  }

  lemma PartsLack(s: string, i: nat)
    requires i == IndexOf(s, '\n')
    ensures i == |s| ==> NoChar(s, '\n')
    ensures i < |s| ==> s == s[..i] + "\n" + s[i + 1..] && NoChar(s[..i], '\n')
    ensures i < |s| && NoChar(s, '\r') ==> NoChar(s[..i], '\r') && NoChar(s[i + 1..], '\r')
  {
    hide IndexOf;
  }

  lemma OneLineAlone(s: string)
    ensures JoinLines([s]) == s
    ensures forall c :: NoChar(s, c) ==> EachLacks([s], c)
  {
  }

  lemma LackCons(first: string, lines: seq<string>, c: char)
    requires NoChar(first, c) && EachLacks(lines, c)
    ensures EachLacks([first] + lines, c)
  {
    hide NoChar;
  }

  lemma JoinCons(first: string, lines: seq<string>)
    requires lines != []
    ensures JoinLines([first] + lines) == first + "\n" + JoinLines(lines)
  {
    assert ([first] + lines)[1..] == lines;
  }

  lemma {:induction false} LastValueOneLine(lines: seq<string>, field: string)
    requires forall k :: 0 <= k < |lines| ==> OneLine(lines[k])
    ensures OneLineIfAny(LastValue(lines, field))
  {
    if lines != [] {
      LastValueOneLine(lines[..|lines| - 1], field);
    }
  }

  lemma {:induction false} DataLinesNoCr(lines: seq<string>)
    requires forall k :: 0 <= k < |lines| ==> OneLine(lines[k])
    ensures forall k :: 0 <= k < |DataLines(lines)| ==> NoChar(DataLines(lines)[k], '\r')
  {
    if lines != [] {
      DataLinesNoCr(lines[1..]);
    }
  }

  lemma ParsedIsTame(raw: string)
    requires NoChar(raw, '\r') && ParseBlock(raw).Some?
    ensures Tame(ParseBlock(raw).value)
  {
    hide SplitLines, DataLines, LastValue, JoinLines;
    var lines := SplitLines(raw);
    SplitLinesPieces(raw);
    LastValueOneLine(lines, "event");
    LastValueOneLine(lines, "id");
    LastValueOneLine(lines, "retry");
    DataLinesNoCr(lines);
    JoinNoChar(DataLines(lines), '\r');
  }

  lemma {:induction false} DecodedIsTame(s: string, k: nat)
    requires NoChar(s, '\r')
    requires k < |ParseAll(Blocks(s).blocks) + Present(ParseBlock(Blocks(s).rest))|
    ensures Tame((ParseAll(Blocks(s).blocks) + Present(ParseBlock(Blocks(s).rest)))[k])
  {
    hide ParseBlock, Blocks, FindBlank, Tame;
    NextBlock(s);
    match FindBlank(s)
    case None =>
      ParsedIsTame(s);
    case Some(i) =>
      var tail := Blocks(s[i + 2..]);
      var head := Present(ParseBlock(s[..i]));
      assert ([s[..i]] + tail.blocks)[1..] == tail.blocks;
      assert ParseAll(Blocks(s).blocks) == head + ParseAll(tail.blocks);
      if k < |head| {
        ParsedIsTame(s[..i]);
      } else {
        DecodedIsTame(s[i + 2..], k - |head|);
      }
  }

  /** A `data` line spends four characters on its name, so data never outgrows its lines. */
  lemma {:induction false} DataShrinks(lines: seq<string>)
    ensures DataLines(lines) != [] ==> |JoinLines(DataLines(lines))| + 4 <= |JoinLines(lines)|
    ensures lines != [] ==> |JoinLines(lines)| >= |lines| - 1
  {
    if lines != [] {
      DataShrinks(lines[1..]);
      if Names(lines[0], "data") {
        assert |FieldValue(lines[0])| + 4 <= |lines[0]|;
        assert DataLines(lines) == [FieldValue(lines[0])] + DataLines(lines[1..]);
        assert DataLines(lines)[1..] == DataLines(lines[1..]);
      } else {
        assert DataLines(lines) == DataLines(lines[1..]);
      }
    }
  }

  lemma {:induction false} JoinExtendLast(lines: seq<string>, last: string, more: string)
    ensures JoinLines(lines + [last + more]) == JoinLines(lines + [last]) + more
  {
    if lines != [] {
      JoinExtendLast(lines[1..], last, more);
      assert (lines + [last + more])[1..] == lines[1..] + [last + more];
      assert (lines + [last])[1..] == lines[1..] + [last];
    }
  }

  /** The block that starts with the `data` line of a broken datum parses to shorter data. */
  lemma FirstBlockLosesData(pre: seq<string>, first: string, more: string)
    requires Solid(pre + ["data: " + first]) && DataLines(pre) == []
    requires more == "" || more[0] == '\n'
    ensures
      var raw := JoinLines(pre + ["data: " + first]) + more;
      && ParseBlock(raw).Some?
      && (more == "" ==> ParseBlock(raw).value.data == first)
      && (more != "" ==> |ParseBlock(raw).value.data| < |first| + |more|)
  {
    var lines := pre + ["data: " + first];
    var j := JoinLines(lines);
    OneDataLine(pre, first);
    hide *;
    SplitLinesJoin(lines);
    if more == "" {
      assert j + more == j;
      ParsedData(j, lines, first, []);
    } else {
      var tail := SplitLines(more[1..]);
      assert j + more == j + "\n" + more[1..];
      SplitLinesConcat(j, more[1..]);
      SplitLinesPieces(more[1..]);
      DataLinesConcat(lines, tail);
      DataShrinks(tail);
      ParsedData(j + more, lines + tail, first, DataLines(tail));
    }
  }

  lemma OneDataLine(pre: seq<string>, first: string)
    requires DataLines(pre) == []
    ensures DataLines(pre + ["data: " + first]) == [first]
  {
    hide IndexOf, FieldValue, FieldName;
    DataLinesConcat(pre, ["data: " + first]);
    FieldRoundTrip("data", first);
    assert "data" + ": " == "data: ";
    assert DataLines(["data: " + first]) == [first] + DataLines([]);
  }

  /** A block whose data lines are known, by the lengths of their values. */
  lemma ParsedData(raw: string, lines: seq<string>, first: string, more: seq<string>)
    requires SplitLines(raw) == lines && DataLines(lines) == [first] + more
    ensures ParseBlock(raw).Some? && ParseBlock(raw).value.data == JoinLines([first] + more)
    ensures more == [] ==> JoinLines([first] + more) == first
    ensures more != [] ==> |JoinLines([first] + more)| == |first| + 1 + |JoinLines(more)|
  {
    hide SplitLines, DataLines, LastValue;
    assert ([first] + more)[1..] == more;
  }

  /** What a text of line feeds decodes to, byte-order mark and line ends aside. */
  function DecodeBlocks(s: string): seq<SSEEvent> {
    ParseAll(Blocks(s).blocks) + Present(ParseBlock(Blocks(s).rest))
  }

  /** Whatever follows it, an event whose data has a line break comes back as another one. */
  lemma BrokenDataIsLost(e: SSEEvent, rest: string)
    requires Tame(e) && !NoChar(e.data, '\n')
    ensures
      var decoded := DecodeBlocks(EncodeText([e]) + rest);
      decoded != [] && decoded[0] != e
  {
    var pre := FieldLine("id", e.id) + FieldLine("event", e.event) + FieldLine("retry", e.retry);
    var k := IndexOf(e.data, '\n');
    var first, after := e.data[..k], e.data[k..];
    assert e.data == first + after && |first| + |after| == |e.data| && after != "" && after[0] == '\n';
    LinesBeforeData(e, first);
    hide *;
    var j, s := JoinLines(pre + ["data: " + first]), EncodeText([e]) + rest;
    OtherFieldsCarryNoData(e);
    WireOfBroken(e, pre, first, after);
    var i := BlankBehind(j, after, rest, pre + ["data: " + first]);
    var more := s[|j|..i];
    CutBehind(j, after, rest, s, i);
    FirstBlockLosesData(pre, first, more);
    DecodeHead(s, i);
  }

  /** Whatever follows it, an event with a line break in any field never comes back first. */
  lemma BrokenEventIsLost(e: SSEEvent, rest: string)
    requires !Clean(e)
    ensures
      var decoded := DecodeText(EncodeText([e]) + rest);
      decoded == [] || decoded[0] != e
  {
    var wire := EncodeText([e]);
    hide *;
    var decoded := DecodeText(wire + rest);
    DecodedAsBlocks(wire + rest);
    if decoded != [] && decoded[0] == e {
      FirstIsTame(Normalise(StripBom(wire + rest)), e);
      OneTame(e);
      StripBomConcat(wire, rest);
      NoBomToStrip(wire);
      NoCrAtEnd(wire);
      NormaliseConcat(wire, rest);
      NormaliseClean(wire);
      TameIsBroken(e);
      BrokenDataIsLost(e, Normalise(rest));
      assert false;
    }
  }

  lemma DecodedAsBlocks(s: string)
    ensures DecodeText(s) == DecodeBlocks(Normalise(StripBom(s))) && NoChar(Normalise(StripBom(s)), '\r')
  {
    hide Blocks, ParseAll, ParseBlock, Normalise, StripBom, NoChar;
    NormaliseHasNoCr(StripBom(s));
  }

  lemma FirstIsTame(s: string, e: SSEEvent)
    requires NoChar(s, '\r') && DecodeBlocks(s) != [] && DecodeBlocks(s)[0] == e
    ensures Tame(e)
  {
    hide Blocks, ParseAll, ParseBlock, Tame, NoChar;
    DecodedIsTame(s, 0);
  }

  lemma OneTame(e: SSEEvent)
    requires Tame(e)
    ensures NoChar(EncodeText([e]), '\r') && EncodeText([e]) != "" && EncodeText([e])[0] != BOM
  {
    hide EncodeText, Tame, JoinLines, NoChar;
    EncodedOne(e);
    EncodedTame([e]);
  }

  lemma NoCrAtEnd(s: string)
    requires NoChar(s, '\r')
    ensures !EndsWithCr(s)
  {
  }

  lemma TameIsBroken(e: SSEEvent)
    requires Tame(e) && !Clean(e)
    ensures !NoChar(e.data, '\n')
  {
  }

  lemma LinesBeforeData(e: SSEEvent, first: string)
    requires Tame(e) && NoChar(first, '\n')
    ensures
      var others := FieldLine("id", e.id) + FieldLine("event", e.event) + FieldLine("retry", e.retry);
      Solid(others + ["data: " + first])
  {
    var begun := e.(data := first);
    assert Lacks(begun, '\n');
    EventLinesLack(begun, '\n');
    hide *;
    EventLinesOf(begun);
    LinesAreSolid(EventLines(begun));
  }

  lemma EventLinesOf(e: SSEEvent)
    ensures EventLines(e)
         == FieldLine("id", e.id) + FieldLine("event", e.event) + FieldLine("retry", e.retry) + ["data: " + e.data]
  {
  }

  /** The first blank line of a broken event's wire form lies behind the line its datum starts on. */
  lemma BlankBehind(j: string, after: string, rest: string, lines: seq<string>) returns (i: nat)
    requires lines != [] && Solid(lines) && j == JoinLines(lines)
    ensures FindBlank(j + after + "\n\n" + rest) == Some(i) && |j| <= i <= |j| + |after|
  {
    JoinIsSolid(lines);
    var s := j + after + "\n\n" + rest;
    assert BlankAt(s, |j| + |after|);
    i := FindBlank(s).value;
    hide FindBlank, JoinLines, Solid;
    forall n | 0 <= n < |j|
      ensures !BlankAt(s, n)
    {
      assert !BlankAt(j, n);
    }
  }

  lemma CutBehind(j: string, after: string, rest: string, s: string, i: nat)
    requires s == j + after + "\n\n" + rest && |j| <= i <= |j| + |after| && after != "" && after[0] == '\n'
    ensures
      var more := s[|j|..i];
      s[..i] == j + more && |more| <= |after| && (more == "" || more[0] == '\n')
  {
  }

  lemma DecodeHead(s: string, i: nat)
    requires FindBlank(s) == Some(i) && ParseBlock(s[..i]).Some?
    ensures DecodeBlocks(s) != [] && DecodeBlocks(s)[0] == ParseBlock(s[..i]).value
  {
    hide ParseBlock, FindBlank;
    assert Blocks(s).blocks[0] == s[..i];
  }

  lemma OtherFieldsCarryNoData(e: SSEEvent)
    ensures DataLines(FieldLine("id", e.id) + FieldLine("event", e.event) + FieldLine("retry", e.retry)) == []
  {
    hide DataLines;
    FieldLineParts("id", e.id);
    FieldLineParts("event", e.event);
    FieldLineParts("retry", e.retry);
    DataLinesConcat(FieldLine("id", e.id) + FieldLine("event", e.event), FieldLine("retry", e.retry));
    DataLinesConcat(FieldLine("id", e.id), FieldLine("event", e.event));
  }

  lemma WireOfBroken(e: SSEEvent, pre: seq<string>, first: string, after: string)
    requires Tame(e) && e.data == first + after
    requires pre == FieldLine("id", e.id) + FieldLine("event", e.event) + FieldLine("retry", e.retry)
    ensures EncodeText([e]) == JoinLines(pre + ["data: " + first]) + after + "\n\n"
    ensures NoChar(EncodeText([e]), '\r') && EncodeText([e])[0] != BOM
  {
    hide *;
    EncodedOne(e);
    EventLinesOf(e);
    assert "data: " + e.data == ("data: " + first) + after;
    JoinExtendLast(pre, "data: " + first, after);
    CleanLacks(e);
    EventLinesLack(e, '\r');
    LinesLack(EventLines(e), '\r');
    JoinNoChar(EventLines(e), '\r');
    JoinHead(EventLines(e));
    NoCarriageReturn(JoinLines(EventLines(e)), "");
    assert JoinLines(EventLines(e)) + "\n\n" + "" == JoinLines(EventLines(e)) + "\n\n";
  }

  lemma EncodeCons(events: seq<SSEEvent>)
    requires events != []
    ensures EncodeText(events) == EncodeText([events[0]]) + EncodeText(events[1..])
  {
    hide JoinLines, EventLines;
    assert [events[0]][1..] == [] && EncodeText([]) == "";
  }

  lemma {:induction false} EncodedTame(events: seq<SSEEvent>)
    requires forall k :: 0 <= k < |events| ==> Tame(events[k])
    ensures NoChar(EncodeText(events), '\r') && (EncodeText(events) != "" ==> EncodeText(events)[0] != BOM)
  {
    if events != [] {
      var e := events[0];
      assert e.data == e.data + "";
      WireOfBroken(e, FieldLine("id", e.id) + FieldLine("event", e.event) + FieldLine("retry", e.retry), e.data, "");
      hide EncodeText, Tame, JoinLines;
      EncodedTame(events[1..]);
      EncodeCons(events);
    }
  }

  /** Of events that could have been decoded, one with a line break spoils the sequence. */
  lemma {:induction false} BrokenIsLost(events: seq<SSEEvent>)
    requires (forall k :: 0 <= k < |events| ==> Tame(events[k])) && !AllClean(events)
    ensures DecodeBlocks(EncodeText(events)) != events
  {
    var e, tail := events[0], EncodeText(events[1..]);
    EncodeCons(events);
    if Clean(e) {
      assert !AllClean(events[1..]);
      BrokenIsLost(events[1..]);
      hide *;
      CleanInFront(e, tail);
      ConsDiffers(e, DecodeBlocks(tail), events);
    } else {
      BrokenDataIsLost(e, tail);
    }
  }

  lemma ConsDiffers(e: SSEEvent, decoded: seq<SSEEvent>, events: seq<SSEEvent>)
    requires events != [] && events[0] == e && decoded != events[1..]
    ensures [e] + decoded != events
  {
    assert ([e] + decoded)[1..] == decoded;
  }

  lemma CleanInFront(e: SSEEvent, tail: string)
    requires Clean(e)
    ensures DecodeBlocks(EncodeText([e]) + tail) == [e] + DecodeBlocks(tail)
  {
    var j := JoinLines(EventLines(e));
    EncodedOne(e);
    hide *;
    ParsedBack(e);
    FirstBlank(EventLines(e), tail);
    BlockInFront(j, tail, e);
    DecodedInFront(j + "\n\n" + tail, tail, e);
  }

  lemma EncodedOne(e: SSEEvent)
    ensures EncodeText([e]) == JoinLines(EventLines(e)) + "\n\n"
  {
    assert [e][1..] == [] && EncodeText([]) == "";
  }

  lemma ParsedBack(e: SSEEvent)
    requires Clean(e)
    ensures EventLines(e) != [] && Solid(EventLines(e)) && ParseBlock(JoinLines(EventLines(e))) == Some(e)
  {
    EventLinesSolid(e);
    SplitLinesJoin(EventLines(e));
    EventRoundTrip(e);
    hide JoinLines, SplitLines, EventOf, Solid;
  }

  lemma DecodedInFront(s: string, tail: string, e: SSEEvent)
    requires Blocks(s).rest == Blocks(tail).rest && ParseAll(Blocks(s).blocks) == [e] + ParseAll(Blocks(tail).blocks)
    ensures DecodeBlocks(s) == [e] + DecodeBlocks(tail)
  {
    hide Blocks, ParseAll, ParseBlock;
  }

  /** A sequence of events survives encoding and decoding if and only if none of their fields contains a line break. */
  lemma RoundTripExactly(events: seq<SSEEvent>)
    ensures DecodeText(EncodeText(events)) == events <==> AllClean(events)
  {
    hide EncodeText, Blocks, ParseAll, ParseBlock, Normalise, StripBom, Tame, Clean;
    if AllClean(events) {
      RoundTrip(events);
    } else if DecodeText(EncodeText(events)) == events {
      NormaliseHasNoCr(StripBom(EncodeText(events)));
      forall k | 0 <= k < |events|
        ensures Tame(events[k])
      {
        DecodedIsTame(Normalise(StripBom(EncodeText(events))), k);
      }
      EncodedTame(events);
      NormaliseClean(EncodeText(events));
      NoBomToStrip(EncodeText(events));
      BrokenIsLost(events);
    }
  }

  lemma NoBomToStrip(s: string)
    requires s != "" ==> s[0] != BOM
    ensures StripBom(s) == s
  {
  }

  lemma NormaliseHasNoCr(s: string)
    ensures NoChar(Normalise(s), '\r')
  {
  }
}
