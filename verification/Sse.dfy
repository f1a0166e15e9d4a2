/**
 The incremental Server-Sent Events decoder and its encoder.

 `SseText` says what a stream of characters means, in one piece and without any state; the decoder,
 in `SseDecoder`, sees the same characters in arbitrary chunks.
 */
module SseText {
  import opened Wrappers

  const BOM: char := '\U{FEFF}'

  datatype SSEEvent = SSEEvent(event: Option<string>, data: string, id: Option<string>, retry: Option<string>)

  /** A text cut at its blank lines: the finished blocks and what follows the last blank line. */
  datatype Split = Split(blocks: seq<string>, rest: string)

  // ---------------------------------------------------------------- line ends

  /** Python's `s.replace("\r\n", "\n")`. */
  function CrlfToLf(s: string): string {
    if s == "" then ""
    else if |s| >= 2 && s[0] == '\r' && s[1] == '\n' then "\n" + CrlfToLf(s[2..])
    else [s[0]] + CrlfToLf(s[1..])
  }

  /** Python's `s.replace("\r", "\n")`. */
  function CrToLf(s: string): (r: string)
    ensures |r| == |s|
    ensures forall i :: 0 <= i < |s| ==> r[i] == if s[i] == '\r' then '\n' else s[i]
  {
    if s == "" then "" else [if s[0] == '\r' then '\n' else s[0]] + CrToLf(s[1..])
  }

  function Normalise(s: string): string {
    CrToLf(CrlfToLf(s))
  }

  /** Python's `s.lstrip("\ufeff")`. */
  function StripBom(s: string): string {
    if s != "" && s[0] == BOM then StripBom(s[1..]) else s
  }

  predicate EndsWithCr(s: string) {
    s != "" && s[|s| - 1] == '\r'
  }

  // ------------------------------------------------------------- blank lines

  predicate BlankAt(s: string, i: nat) {
    i + 1 < |s| && s[i] == '\n' && s[i + 1] == '\n'
  }

  /** The leftmost blank line, as `"\n\n" in s` and `s.split("\n\n", 1)` find it. */
  function FindBlank(s: string, from: nat := 0): (r: Option<nat>)
    requires from <= |s|
    ensures r.Some? ==> from <= r.value && BlankAt(s, r.value)
    ensures forall i :: from <= i < (if r.Some? then r.value else |s|) ==> !BlankAt(s, i)
    decreases |s| - from
  {
    if from == |s| then None
    else if BlankAt(s, from) then Some(from)
    else FindBlank(s, from + 1)
  }

  function Blocks(s: string): Split {
    match FindBlank(s)
    case None => Split([], s)
    case Some(i) =>
      var tail := Blocks(s[i + 2..]);
      Split([s[..i]] + tail.blocks, tail.rest)
  }

  // ------------------------------------------------------------ block parsing

  function IndexOf(s: string, c: char): (i: nat)
    ensures i <= |s|
    ensures i < |s| ==> s[i] == c
    ensures forall j :: 0 <= j < i ==> s[j] != c
  {
    if s == "" || s[0] == c then 0 else 1 + IndexOf(s[1..], c)
  }

  /** Python's `s.split("\n")`. */
  function SplitLines(s: string): (lines: seq<string>)
    ensures lines != []
  {
    var i := IndexOf(s, '\n');
    if i == |s| then [s] else [s[..i]] + SplitLines(s[i + 1..])
  }

  /** Python's `"\n".join(lines)`. */
  function JoinLines(lines: seq<string>): string {
    if lines == [] then ""
    else if |lines| == 1 then lines[0]
    else lines[0] + "\n" + JoinLines(lines[1..])
  }

  /** A line that names a field: neither blank nor a comment. */
  predicate IsField(line: string) {
    line != "" && line[0] != ':'
  }

  function FieldName(line: string): string {
    line[..IndexOf(line, ':')]
  }

  function FieldValue(line: string): string {
    var i := IndexOf(line, ':');
    var value := if i == |line| then "" else line[i + 1..];
    if value != "" && value[0] == ' ' then value[1..] else value
  }

  predicate Names(line: string, field: string) {
    IsField(line) && FieldName(line) == field
  }

  /** The values of the `data` lines, in order. */
  function DataLines(lines: seq<string>): seq<string> {
    if lines == [] then []
    else (if Names(lines[0], "data") then [FieldValue(lines[0])] else []) + DataLines(lines[1..])
  }

  /** The value of the last line naming `field`, as repeated assignment leaves it. */
  function LastValue(lines: seq<string>, field: string): Option<string> {
    if lines == [] then None
    else
      var last := lines[|lines| - 1];
      if Names(last, field) then Some(FieldValue(last)) else LastValue(lines[..|lines| - 1], field)
  }

  function EventOf(lines: seq<string>): Option<SSEEvent> {
    if DataLines(lines) == [] then None
    else Some(SSEEvent(LastValue(lines, "event"), JoinLines(DataLines(lines)),
                       LastValue(lines, "id"), LastValue(lines, "retry")))
  }

  function ParseBlock(raw: string): Option<SSEEvent> {
    EventOf(SplitLines(raw))
  }

  function Present(e: Option<SSEEvent>): seq<SSEEvent> {
    match e case None => [] case Some(v) => [v]
  }

  function ParseAll(blocks: seq<string>): seq<SSEEvent> {
    if blocks == [] then [] else Present(ParseBlock(blocks[0])) + ParseAll(blocks[1..])
  }

  /** What a whole character stream means, given all at once. */
  function DecodeText(text: string): seq<SSEEvent> {
    var parts := Blocks(Normalise(StripBom(text)));
    ParseAll(parts.blocks) + Present(ParseBlock(parts.rest))
  }

  // ----------------------------------------------------------------- encoding

  function FieldLine(name: string, value: Option<string>): seq<string> {
    match value case None => [] case Some(v) => [name + ": " + v]
  }

  function EventLines(e: SSEEvent): seq<string> {
    FieldLine("id", e.id) + FieldLine("event", e.event) + FieldLine("retry", e.retry) + ["data: " + e.data]
  }

  function EncodeText(events: seq<SSEEvent>): string {
    if events == [] then "" else JoinLines(EventLines(events[0])) + "\n\n" + EncodeText(events[1..])
  }

  // --------------------------------------------------- how cutting distributes

  lemma {:induction false} CrlfConcat(a: string, b: string)
    requires !(EndsWithCr(a) && b != "" && b[0] == '\n')
    ensures CrlfToLf(a + b) == CrlfToLf(a) + CrlfToLf(b)
  {
    hide *;
    if a == "" {
      CrlfNothing();
      assert a + b == b;
    } else {
      var n := if CrlfAt(a) then 2 else 1;
      CrlfFirst(a);
      SameFirst(a, b);
      CrlfFirst(a + b);
      EndsAlike(a, n);
      CrlfConcat(a[n..], b);
      Reassociated(if CrlfAt(a) then "\n" else [a[0]], CrlfToLf(a[n..]), CrlfToLf(b));
    }
  }

  predicate CrlfAt(s: string) {
    |s| >= 2 && s[0] == '\r' && s[1] == '\n'
  }

  lemma CrlfNothing()
    ensures CrlfToLf("") == ""
  {
  }

  lemma CrlfFirst(s: string)
    requires s != ""
    ensures CrlfToLf(s) == if CrlfAt(s) then "\n" + CrlfToLf(s[2..]) else [s[0]] + CrlfToLf(s[1..])
    ensures CrlfAt(s) ==> |s| >= 2
  {
  }

  lemma SameFirst(a: string, b: string)
    requires a != "" && !(EndsWithCr(a) && b != "" && b[0] == '\n')
    ensures (a + b)[0] == a[0] && (CrlfAt(a + b) <==> CrlfAt(a))
    ensures (a + b)[1..] == a[1..] + b && (CrlfAt(a) ==> (a + b)[2..] == a[2..] + b)
  {
  }

  lemma EndsAlike(a: string, n: nat)
    requires 1 <= n <= |a|
    ensures EndsWithCr(a[n..]) ==> EndsWithCr(a)
  {
  }

  lemma {:induction false} CrToLfConcat(a: string, b: string)
    ensures CrToLf(a + b) == CrToLf(a) + CrToLf(b)
  {
    if a == "" {
      assert a + b == b;
    } else {
      assert (a + b)[1..] == a[1..] + b;
      CrToLfConcat(a[1..], b);
    }
  }

  /** Normalising piecewise is normalising the whole, unless a CR LF pair is cut in two. */
  lemma NormaliseConcat(a: string, b: string)
    requires !(EndsWithCr(a) && b != "" && b[0] == '\n')
    ensures Normalise(a + b) == Normalise(a) + Normalise(b)
  {
    CrlfConcat(a, b);
    CrToLfConcat(CrlfToLf(a), CrlfToLf(b));
  }

  lemma {:induction false} StripBomConcat(a: string, b: string)
    ensures StripBom(a + b) == if StripBom(a) == "" then StripBom(b) else StripBom(a) + b
  {
    if a == "" {
      assert a + b == b;
    } else if a[0] == BOM {
      assert (a + b)[1..] == a[1..] + b;
      StripBomConcat(a[1..], b);
    }
  }

  lemma {:induction false} FindBlankConcat(a: string, b: string, from: nat)
    requires from <= |a| && FindBlank(a, from).Some?
    ensures FindBlank(a + b, from) == FindBlank(a, from)
    decreases |a| - from
  {
    if !BlankAt(a, from) {
      assert from + 1 < |a| ==> (a + b)[from + 1] == a[from + 1];
      FindBlankConcat(a, b, from + 1);
    }
  }

  /** Blocks already finished stay finished; only the rest is still open. */
  lemma {:induction false} BlocksConcat(a: string, b: string)
    ensures Blocks(a + b).blocks == Blocks(a).blocks + Blocks(Blocks(a).rest + b).blocks
    ensures Blocks(a + b).rest == Blocks(Blocks(a).rest + b).rest
  {
    hide Blocks, FindBlank;
    NextBlock(a);
    if FindBlank(a).Some? {
      var i := FindBlank(a).value;
      FindBlankConcat(a, b, 0);
      NextBlock(a + b);
      assert (a + b)[i + 2..] == a[i + 2..] + b && (a + b)[..i] == a[..i];
      BlocksConcat(a[i + 2..], b);
      Reassociated([a[..i]], Blocks(a[i + 2..]).blocks, Blocks(Blocks(a).rest + b).blocks);
    }
  }

  lemma NextBlock(s: string)
    ensures FindBlank(s).Some? ==> FindBlank(s).value + 2 <= |s|
    ensures Blocks(s) == match FindBlank(s) {
      case None => Split([], s)
      case Some(i) => Split([s[..i]] + Blocks(s[i + 2..]).blocks, Blocks(s[i + 2..]).rest)
    }
  {
    hide FindBlank;
  }

  lemma {:induction false} BlocksRestIsOpen(s: string)
    ensures FindBlank(Blocks(s).rest).None?
  {
    match FindBlank(s)
    case None =>
    case Some(i) => BlocksRestIsOpen(s[i + 2..]);
  }

  lemma {:induction false} ParseAllConcat(a: seq<string>, b: seq<string>)
    ensures ParseAll(a + b) == ParseAll(a) + ParseAll(b)
  {
    if a == [] {
      assert a + b == b;
    } else {
      assert (a + b)[1..] == a[1..] + b;
      ParseAllConcat(a[1..], b);
    }
  }

  // ------------------------------------------- line breaks at the end of input

  lemma {:induction false} IndexOfConcat(a: string, b: string, c: char)
    ensures IndexOf(a + b, c) == if IndexOf(a, c) < |a| then IndexOf(a, c) else |a| + IndexOf(b, c)
  {
    if a == "" {
      assert a + b == b;
    } else if a[0] != c {
      assert (a + b)[1..] == a[1..] + b;
      IndexOfConcat(a[1..], b, c);
    }
  }

  lemma NextLine(s: string)
    ensures
      var i := IndexOf(s, '\n');
      SplitLines(s) == if i < |s| then [s[..i]] + SplitLines(s[i + 1..]) else [s]
  {
    hide IndexOf;
  }

  lemma NoLine()
    ensures SplitLines("") == [""]
  {
  }

  lemma {:induction false} SplitLinesBreak(s: string)
    ensures SplitLines(s + "\n") == SplitLines(s) + [""]
  {
    BreakBehind(s);
    NextLine(s);
    NextLine(s + "\n");
    NoLine();
    hide IndexOf, SplitLines;
    var i := IndexOf(s, '\n');
    if i < |s| {
      SplitLinesBreak(s[i + 1..]);
    }
  }

  /** Where the first line ends is not changed by a line break behind it all. */
  lemma BreakBehind(s: string)
    ensures
      var i, t := IndexOf(s, '\n'), s + "\n";
      && IndexOf(t, '\n') == i && t[..i] == s[..i]
      && t[i + 1..] == if i < |s| then s[i + 1..] + "\n" else ""
  {
    hide IndexOf;
    IndexOfConcat(s, "\n", '\n');
    BreakAtOnce();
    CutBefore(s, IndexOf(s, '\n'));
  }

  lemma BreakAtOnce()
    ensures IndexOf("\n", '\n') == 0
  {
  }

  lemma CutBefore(s: string, i: nat)
    requires i <= |s|
    ensures (s + "\n")[..i] == s[..i]
    ensures (s + "\n")[i + 1..] == if i < |s| then s[i + 1..] + "\n" else ""
  {
  }

  lemma {:induction false} DataLinesConcat(a: seq<string>, b: seq<string>)
    ensures DataLines(a + b) == DataLines(a) + DataLines(b)
  {
    if a == [] {
      assert a + b == b;
    } else {
      assert (a + b)[1..] == a[1..] + b;
      DataLinesConcat(a[1..], b);
    }
  }

  lemma {:induction false} LastValueConcat(a: seq<string>, b: seq<string>, field: string)
    ensures LastValue(a + b, field) == if LastValue(b, field).Some? then LastValue(b, field) else LastValue(a, field)
  {
    if b == [] {
      assert a + b == a;
    } else {
      assert (a + b)[..|a + b| - 1] == a + b[..|b| - 1];
      LastValueConcat(a, b[..|b| - 1], field);
    }
  }

  /** A trailing line break adds only a blank line, which no field can see. */
  lemma ParseBlockBreak(s: string)
    ensures ParseBlock(s + "\n") == ParseBlock(s)
  {
    var lines := SplitLines(s);
    SplitLinesBreak(s);
    DataLinesConcat(lines, [""]);
    LastValueConcat(lines, [""], "event");
    LastValueConcat(lines, [""], "id");
    LastValueConcat(lines, [""], "retry");
    assert DataLines(lines + [""]) == DataLines(lines);
  }
}
