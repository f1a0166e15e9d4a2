/**
 The token estimator. Texts are counted by the heuristic of 3.6 characters a token, kept as the exact
 ratio 18/5. A request body is a JSON tree.
 */
module Tokens {
  import opened Wrappers
  import opened JsonTree

  const MESSAGE_OVERHEAD := 4
  const DEFAULT_COMPLETION_CEILING := 4096
  const MAX_WALK_DEPTH := 20
  const MAX_REPORTED_TOKENS := 10_000_000

  const NON_PROMPT_KEYS: set<string> := {
    "model", "stream", "stream_options", "temperature", "top_p", "top_k", "n", "best_of",
    "max_tokens", "max_completion_tokens", "max_output_tokens", "presence_penalty",
    "frequency_penalty", "seed", "logprobs", "top_logprobs",
    "scenario", "chunk_delay", "store", "service_tier", "parallel_tool_calls"
  }

  const CAP_FIELDS: seq<string> := ["max_tokens", "max_completion_tokens", "max_output_tokens"]
  const COUNT_FIELDS: seq<string> := ["n", "best_of"]

  // ----------------------------------------------------------- counting text

  function TokensOfLength(length: nat): (tokens: nat)
    ensures 18 * tokens >= 5 * length
    ensures length > 0 ==> 18 * (tokens - 1) <= 5 * length
  {
    if length == 0 then 0 else 5 * length / 18 + 1
  }

  function CountText(text: string): nat {
    TokensOfLength(|text|)
  }

  // --------------------------------------------------------- writing JSON out

  function Digit(d: nat): char
    requires d < 10
  {
    '0' + d as char
  }

  function Decimal(n: nat): (s: string)
    ensures s != ""
  {
    if n < 10 then [Digit(n)] else Decimal(n / 10) + [Digit(n % 10)]
  }

  /** Python's `repr` of an integer. */
  function IntRepr(n: int): (s: string)
    ensures s != ""
  {
    if n < 0 then "-" + Decimal(-n) else Decimal(n)
  }

  function HexDigit(d: nat): char
    requires d < 16
  {
    if d < 10 then '0' + d as char else 'a' + (d - 10) as char
  }

  function Unicode(code: nat): string
    requires code < 0x10000
  {
    ['\\', 'u', HexDigit(code / 0x1000), HexDigit(code / 0x100 % 16), HexDigit(code / 16 % 16), HexDigit(code % 16)]
  }

  /** One character inside a JSON string, everything outside printable ASCII escaped. */
  function Escape(c: char): (s: string)
    ensures s != ""
  {
    var code := c as int;
    if c == '"' then "\\\"" else if c == '\\' then "\\\\"
    else if c == '\n' then "\\n" else if c == '\r' then "\\r" else if c == '\t' then "\\t"
    else if code == 8 then "\\b" else if code == 12 then "\\f"
    else if 32 <= code < 127 then [c]
    else if code < 0x10000 then Unicode(code)
    else Unicode(0xD800 + (code - 0x10000) / 0x400 % 0x400) + Unicode(0xDC00 + (code - 0x10000) % 0x400)
  }

  function EscapeAll(s: string): (r: string)
    ensures |r| >= |s|
  {
    if s == "" then "" else Escape(s[0]) + EscapeAll(s[1..])
  }

  function Quote(s: string): string {
    "\"" + EscapeAll(s) + "\""
  }

  /** Python's `json.dumps(value, default=str)`. */
  function Dumps(value: Json): string
    decreases value, 1
  {
    match value
    case Null => "null"
    case Bool(b) => if b then "true" else "false"
    case Int(n) => IntRepr(n)
    case Float(repr) => repr
    case Str(s) => Quote(s)
    case Arr(items) => "[" + DumpItems(items) + "]"
    case Obj(fields) => "{" + DumpFields(fields) + "}"
  }

  function DumpItems(items: seq<Json>): string
    decreases items, 0
  {
    if items == [] then ""
    else if |items| == 1 then Dumps(items[0])
    else Dumps(items[0]) + ", " + DumpItems(items[1..])
  }

  function DumpFields(fields: seq<Field>): string
    decreases fields, 0
  {
    if fields == [] then ""
    else if |fields| == 1 then DumpField(fields[0])
    else DumpField(fields[0]) + ", " + DumpFields(fields[1..])
  }

  function DumpField(field: Field): string
    decreases field, 2
  {
    Quote(field.key) + ": " + Dumps(field.value)
  }

  // ------------------------------------------------------------------ the walk

  /** Every scrap of text in a body; past the depth limit the serialised remainder is counted instead. */
  function WalkText(value: Json, depth: nat): nat
    decreases value, 1
  {
    if depth > MAX_WALK_DEPTH then CountText(Dumps(value))
    else match value
      case Str(s) => CountText(s)
      case Null => 0
      case Bool(_) => 1
      case Int(n) => CountText(IntRepr(n))
      case Float(repr) => CountText(repr)
      case Obj(fields) => WalkFields(fields, depth)
      case Arr(items) => WalkItems(items, depth)
  }

  function WalkItems(items: seq<Json>, depth: nat): nat
    decreases items, 0
  {
    if items == [] then 0 else WalkText(items[0], depth + 1) + WalkItems(items[1..], depth)
  }

  function WalkFields(fields: seq<Field>, depth: nat): nat
    decreases fields, 0
  {
    if fields == [] then 0 else WalkField(fields[0], depth) + WalkFields(fields[1..], depth)
  }

  function WalkField(field: Field, depth: nat): nat
    decreases field, 2
  {
    CountText(field.key) + if depth == 0 && field.key in NON_PROMPT_KEYS then 0 else WalkText(field.value, depth + 1)
  }

  // ----------------------------------------------- the text a provider receives

  /** Characters of the strings, keys and numbers of a tree, top-level configuration values excepted. */
  function TextIn(value: Json, depth: nat): nat
    decreases value, 1
  {
    match value
    case Null => 0
    case Bool(_) => 0
    case Int(n) => |IntRepr(n)|
    case Float(repr) => |repr|
    case Str(s) => |s|
    case Arr(items) => TextInItems(items, depth)
    case Obj(fields) => TextInFields(fields, depth)
  }

  function TextInItems(items: seq<Json>, depth: nat): nat
    decreases items, 0
  {
    if items == [] then 0 else TextIn(items[0], depth + 1) + TextInItems(items[1..], depth)
  }

  function TextInFields(fields: seq<Field>, depth: nat): nat
    decreases fields, 0
  {
    if fields == [] then 0 else TextInField(fields[0], depth) + TextInFields(fields[1..], depth)
  }

  function TextInField(field: Field, depth: nat): nat
    decreases field, 2
  {
    |field.key| + if depth == 0 && field.key in NON_PROMPT_KEYS then 0 else TextIn(field.value, depth + 1)
  }

  /** Serialising loses no text, whatever is quoted, escaped or nested. */
  lemma {:induction false} DumpsKeepsText(value: Json, depth: nat)
    ensures |Dumps(value)| >= TextIn(value, depth)
    decreases value, 1
  {
    match value
    case Arr(items) => DumpItemsKeepsText(items, depth);
    case Obj(fields) => DumpFieldsKeepsText(fields, depth);
    case _ =>
  }

  lemma {:induction false} DumpItemsKeepsText(items: seq<Json>, depth: nat)
    ensures |DumpItems(items)| >= TextInItems(items, depth)
    decreases items, 0
  {
    if items != [] {
      DumpsKeepsText(items[0], depth + 1);
      DumpItemsKeepsText(items[1..], depth);
    }
  }

  lemma {:induction false} DumpFieldsKeepsText(fields: seq<Field>, depth: nat)
    ensures |DumpFields(fields)| >= TextInFields(fields, depth)
    decreases fields, 0
  {
    if fields != [] {
      DumpFieldKeepsText(fields[0], depth);
      DumpFieldsKeepsText(fields[1..], depth);
    }
  }

  lemma {:induction false} DumpFieldKeepsText(field: Field, depth: nat)
    ensures |DumpField(field)| >= TextInField(field, depth)
    decreases field, 2
  {
    DumpsKeepsText(field.value, depth + 1);
  }

  /**
   No shape hides text. At every start depth, past the depth limit too, the walk counts at least one
   token for every 3.6 characters of strings, keys and numbers.
   */
  lemma {:induction false} NoShapeHidesText(value: Json, depth: nat)
    ensures 18 * WalkText(value, depth) >= 5 * TextIn(value, depth)
    decreases value, 1
  {
    if depth > MAX_WALK_DEPTH {
      DumpsKeepsText(value, depth);
    } else {
      match value
      case Arr(items) => NoItemHidesText(items, depth);
      case Obj(fields) => NoFieldHidesText(fields, depth);
      case _ =>
    }
  }

  lemma {:induction false} NoItemHidesText(items: seq<Json>, depth: nat)
    ensures 18 * WalkItems(items, depth) >= 5 * TextInItems(items, depth)
    decreases items, 0
  {
    if items != [] {
      NoShapeHidesText(items[0], depth + 1);
      NoItemHidesText(items[1..], depth);
    }
  }

  lemma {:induction false} NoFieldHidesText(fields: seq<Field>, depth: nat)
    ensures 18 * WalkFields(fields, depth) >= 5 * TextInFields(fields, depth)
    decreases fields, 0
  {
    if fields != [] {
      FieldHidesNoText(fields[0], depth);
      NoFieldHidesText(fields[1..], depth);
    }
  }

  lemma {:induction false} FieldHidesNoText(field: Field, depth: nat)
    ensures 18 * WalkField(field, depth) >= 5 * TextInField(field, depth)
    decreases field, 2
  {
    NoShapeHidesText(field.value, depth + 1);
  }

  // ------------------------------------------------------------ the reservation

  /** A request body: a dictionary, so no key appears twice. */
  type Body = seq<Field>

  function Get(body: Body, key: string): Option<Json> {
    if body == [] then None
    else if body[0].key == key then Some(body[0].value)
    else Get(body[1..], key)
  }

  /** The value of a field if it is an integer and not a boolean. */
  function IntField(body: Body, key: string): Option<int> {
    match Get(body, key)
    case Some(Int(n)) => Some(n)
    case _ => None
  }

  function PromptTokens(body: Body): nat {
    var walked, floor := WalkText(Obj(body), 0), CountText(Dumps(Obj(body)));
    var text := if walked > floor then walked else floor;
    match Get(body, "messages")
    case Some(Arr(messages)) => text + MESSAGE_OVERHEAD * |messages|
    case _ => text
  }

  /** The largest integer above `floor` among the given fields, or `floor` if there is none. */
  function Largest(body: Body, fields: seq<string>, floor: nat): (r: nat)
    ensures r >= floor
    ensures forall k :: 0 <= k < |fields| ==>
              var v := IntField(body, fields[k]); v.Some? ==> v.value <= r
    ensures r > floor ==> exists k :: 0 <= k < |fields| && IntField(body, fields[k]) == Some(r)
  {
    if fields == [] then floor
    else
      var last := |fields| - 1;
      var rest := Largest(body, fields[..last], floor);
      match IntField(body, fields[last])
      case Some(v) => if v > rest then v else rest
      case None => rest
  }

  function CompletionCeiling(body: Body): (r: nat)
    ensures r > 0
  {
    var requested := Largest(body, CAP_FIELDS, 0);
    if requested == 0 then DEFAULT_COMPLETION_CEILING else requested
  }

  function Multiplier(body: Body): (r: nat)
    ensures r >= 1
  {
    Largest(body, COUNT_FIELDS, 1)
  }

  /** The reservation: an upper bound on what the request can cost. */
  method EstimateRequestTokens(body: Body) returns (estimate: nat)
    ensures estimate >= 1
    ensures estimate == PromptTokens(body) + CompletionCeiling(body) * Multiplier(body)
  {
    hide IntField, PromptTokens;
    var prompt := PromptTokens(body);
    var requestedMax: Option<nat> := None;
    for k := 0 to |CAP_FIELDS|
      invariant requestedMax.Some? ==> requestedMax.value > 0
      invariant (if requestedMax.Some? then requestedMax.value else 0) == Largest(body, CAP_FIELDS[..k], 0)
    {
      assert CAP_FIELDS[..k + 1][..k] == CAP_FIELDS[..k];
      var candidate := IntField(body, CAP_FIELDS[k]);
      if candidate.Some? && candidate.value > 0 {
        var sofar := if requestedMax.Some? then requestedMax.value else 0;
        requestedMax := Some(if candidate.value > sofar then candidate.value else sofar);
      }
    }
    assert CAP_FIELDS[..|CAP_FIELDS|] == CAP_FIELDS;
    var ceiling := if requestedMax.Some? then requestedMax.value else DEFAULT_COMPLETION_CEILING;
    var multiplier: nat := 1;
    for k := 0 to |COUNT_FIELDS|
      invariant multiplier == Largest(body, COUNT_FIELDS[..k], 1)
    {
      assert COUNT_FIELDS[..k + 1][..k] == COUNT_FIELDS[..k];
      var candidate := IntField(body, COUNT_FIELDS[k]);
      if candidate.Some? && candidate.value > 1 {
        multiplier := if candidate.value > multiplier then candidate.value else multiplier;
      }
    }
    assert COUNT_FIELDS[..|COUNT_FIELDS|] == COUNT_FIELDS;
    Product(ceiling, multiplier);
    estimate := prompt + ceiling * multiplier;
    estimate := if estimate > 1 then estimate else 1;
  }

  lemma Product(a: nat, b: nat)
    requires a >= 1 && b >= 1
    ensures a * b >= 1
  {
  }

  /** `{**body, key: value}`: in place if the key is there, at the end if it is not. */
  function Put(body: Body, key: string, value: Json): (r: Body)
    ensures Get(r, key) == Some(value)
    ensures forall other :: other != key ==> Get(r, other) == Get(body, other)
  {
    if body == [] then [Field(key, value)]
    else if body[0].key == key then [Field(key, value)] + body[1..]
    else [body[0]] + Put(body[1..], key, value)
  }

  /** What is sent to a provider: its own model name, and a cap if the caller's body carries none. */
  function Forwarded(body: Body, model: string): Body {
    var payload := Put(body, "model", Str(model));
    if exists k :: 0 <= k < |CAP_FIELDS| && IntField(payload, CAP_FIELDS[k]).Some? then payload
    else Put(payload, "max_tokens", Int(DEFAULT_COMPLETION_CEILING))
  }

  /**
   The reservation covers the forwarded cap. Every integer cap in what a provider receives, times
   the number of completions reserved for, fits in the reservation beside the prompt; so does its
   product with each integer `n` or `best_of`, unless both are negative. What is forwarded always
   carries an integer cap.
   */
  lemma ReservationCoversCap(body: Body, model: string, cap: string, count: string)
    requires cap in CAP_FIELDS && count in COUNT_FIELDS
    ensures
      var payload := Forwarded(body, model);
      var c, n := IntField(payload, cap), IntField(payload, count);
      && (c.Some? ==> c.value * Multiplier(body) <= CompletionCeiling(body) * Multiplier(body))
      && (n.Some? ==> n.value <= Multiplier(body))
      && (c.Some? && n.Some? && (c.value >= 0 || n.value >= 0) ==>
            c.value * n.value <= CompletionCeiling(body) * Multiplier(body))
      && exists k :: 0 <= k < |CAP_FIELDS| && IntField(payload, CAP_FIELDS[k]).Some?
  {
    var payload := Forwarded(body, model);
    var c, n := IntField(payload, cap), IntField(payload, count);
    assert CAP_FIELDS[0] == "max_tokens";
    forall key | key in CAP_FIELDS || key in COUNT_FIELDS
      ensures key != "model"
    {
    }
    assert count != "max_tokens";
    assert IntField(payload, count) == IntField(body, count);
    if c.Some? {
      CapIsReserved(body, model, cap);
      AtMost(c.value, Multiplier(body), CompletionCeiling(body), Multiplier(body));
      if n.Some? && (c.value >= 0 || n.value >= 0) {
        AtMost(c.value, n.value, CompletionCeiling(body), Multiplier(body));
      }
    }
  }

  /** Each forwarded cap is at most the ceiling reserved for, injected or the caller's own. */
  lemma CapIsReserved(body: Body, model: string, cap: string)
    requires cap in CAP_FIELDS && IntField(Forwarded(body, model), cap).Some?
    ensures IntField(Forwarded(body, model), cap).value <= CompletionCeiling(body)
  {
    var payload := Put(body, "model", Str(model));
    forall k | 0 <= k < |CAP_FIELDS|
      ensures IntField(payload, CAP_FIELDS[k]) == IntField(body, CAP_FIELDS[k])
    {
      assert CAP_FIELDS[k] != "model";
    }
  }

  lemma AtMost(c: int, n: int, ceiling: nat, multiplier: nat)
    requires c <= ceiling && n <= multiplier && multiplier >= 1 && (c >= 0 || n >= 0)
    ensures c * n <= ceiling * multiplier
  {
    if c >= 0 && n >= 0 {
      assert c * n <= ceiling * n <= ceiling * multiplier;
    } else {
      assert c * n <= 0 <= ceiling * multiplier;
    }
  }

  /** Both negative is a real exception: their product can exceed what was reserved. */
  lemma NegativeCapsEscape(body: Body)
    requires body == [Field("max_tokens", Int(-5000)), Field("n", Int(-5000))]
    ensures IntField(Forwarded(body, "m"), "max_tokens") == IntField(Forwarded(body, "m"), "n") == Some(-5000)
    ensures (-5000) * (-5000) > CompletionCeiling(body) * Multiplier(body)
  {
    var payload := Put(body, "model", Str("m"));
    var tail: Body := body[1..];
    assert tail == [Field("n", Int(-5000))] && tail[1..] == [];
    forall key
      ensures IntField(body, key) == if key in {"max_tokens", "n"} then Some(-5000) else None
    {
      assert Get(tail[1..], key) == None;
      assert Get(tail, key) == if "n" == key then Some(Int(-5000)) else None;
    }
    assert Get(payload, "max_tokens") == Get(body, "max_tokens") && Get(payload, "n") == Get(body, "n");
    assert CAP_FIELDS[0] == "max_tokens" && IntField(payload, CAP_FIELDS[0]) == Some(-5000);
    hide Put;
    assert Forwarded(body, "m") == payload;
    assert CompletionCeiling(body) == DEFAULT_COMPLETION_CEILING && Multiplier(body) == 1;
  }

  // ---------------------------------------------------------- reported usage

  /** A count a provider can have meant: an integer that is not negative. */
  predicate Reports(value: Option<Json>) {
    value.Some? && value.value.Int? && value.value.value >= 0
  }

  function InRange(n: nat): nat {
    if n < MAX_REPORTED_TOKENS then n else MAX_REPORTED_TOKENS
  }

  function Sane(value: Option<Json>): Option<nat> {
    match value
    case Some(Int(n)) =>
      if n < 0 then None else if n > MAX_REPORTED_TOKENS then Some(MAX_REPORTED_TOKENS) else Some(n)
    case _ => None
  }

  /** The provider's own accounting, in range; the reservation if it gave none. */
  function ActualTokens(payload: Body, fallback: nat): (r: nat)
    ensures r <= MAX_REPORTED_TOKENS || r == fallback
    ensures !Get(payload, "usage").Some? || !Get(payload, "usage").value.Obj? ==> r == fallback
    ensures Get(payload, "usage").Some? && Get(payload, "usage").value.Obj? ==>
              var usage := Get(payload, "usage").value.fields;
              var total, p, c := Get(usage, "total_tokens"), Get(usage, "prompt_tokens"),
                  Get(usage, "completion_tokens");
              && (Reports(total) ==> r == InRange(total.value.value))
              && (!Reports(total) && Reports(p) && Reports(c) ==>
                   r == InRange(InRange(p.value.value) + InRange(c.value.value)))
              && (!Reports(total) && !(Reports(p) && Reports(c)) ==> r == fallback)
  {
    match Get(payload, "usage")
    case Some(Obj(usage)) =>
      (match (Sane(Get(usage, "total_tokens")), Sane(Get(usage, "prompt_tokens")),
          Sane(Get(usage, "completion_tokens")))
       case (Some(total), _, _) => total
       case (None, Some(p), Some(c)) => if p + c < MAX_REPORTED_TOKENS then p + c else MAX_REPORTED_TOKENS
       case _ => fallback)
    case _ => fallback
  }
}
