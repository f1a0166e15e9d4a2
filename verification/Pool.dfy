/** Many text streams in one response: which string of a payload belongs to which stream, and what each stream sees. */
module Pool {
  import opened Wrappers
  import opened JsonTree
  import opened Scan
  import opened Redactor
  import opened Streaming

  /** One component of a stream's key: no choice declared, a choice index or list position, or a field name. */
  datatype Step = NoIndex | Num(n: int) | Name(name: string)
  type Key = seq<Step>

  const STRUCTURAL_KEYS: set<string> := {
    "id", "object", "created", "model", "role", "type", "index",
    "finish_reason", "system_fingerprint", "service_tier", "fingerprint",
    "name", "event", "object_type", "stop_reason"
  }

  const STREAMING_LEAVES: set<string> := {"content", "text", "refusal", "reasoning_content", "arguments"}

  /** The state of a pool: each stream's state, and the order in which the streams were first seen. */
  datatype PoolState = PoolState(streams: map<Key, Stream>, order: seq<Key>)

  const FRESH: Stream := Stream("", "")

  function StreamAt(p: PoolState, k: Key): Stream {
    if k in p.streams then p.streams[k] else FRESH
  }

  datatype Answer = Answer(out: string, pool: PoolState)

  function FeedPool(s: Settings, p: PoolState, k: Key, text: string): Answer
    requires EngineSound(s.engine)
  {
    var fed := FeedOne(s, StreamAt(p, k), text);
    Answer(fed.out, PoolState(p.streams[k := fed.next], if k in p.streams then p.order else p.order + [k]))
  }

  /** A value that arrives complete: fed and flushed on its own. */
  function Once(s: Settings, text: string): string
    requires EngineSound(s.engine)
  {
    var fed := FeedOne(s, FRESH, text);
    fed.out + FlushOne(s, fed.next)
  }

  // ------------------------------------------------------------- the payload walk

  /** The last name on a path. */
  function LeafName(path: Key): (r: Option<string>)
    ensures r.None? ==> forall i :: 0 <= i < |path| ==> !path[i].Name?
    ensures r.Some? ==>
              exists i :: 0 <= i < |path| && path[i] == Name(r.value) && forall j :: i < j < |path| ==> !path[j].Name?
  {
    if path == [] then None
    else if path[|path| - 1].Name? then Some(path[|path| - 1].name)
    else LeafName(path[..|path| - 1])
  }

  predicate IsStreamingPath(path: Key) {
    LeafName(path).Some? && LeafName(path).value in STREAMING_LEAVES
  }

  /** The index an object declares for what is inside it, or else the one it is inside of. */
  function LocalIndex(fields: seq<Field>, choice: Step): Step {
    if fields == [] then choice
    else if fields[0].key == "index" then if fields[0].value.Int? then Num(fields[0].value.value) else choice
    else LocalIndex(fields[1..], choice)
  }

  /** A string of a payload: the stream it belongs to, or none if it is redacted on its own. */
  datatype Leaf = Leaf(key: Option<Key>, text: string)

  function LeafAt(text: string, path: Key, choice: Step): Leaf {
    Leaf(if IsStreamingPath(path) then Some([choice] + path) else None, text)
  }

  /** The model-authored strings of a payload, in the order of the walk. */
  function Leaves(node: Json, path: Key, choice: Step): seq<Leaf>
    decreases node, 1
  {
    match node
    case Obj(fields) => LeavesOfFields(fields, path, LocalIndex(fields, choice))
    case Arr(items) => LeavesOfItems(items, 0, path, choice)
    case Str(s) => [LeafAt(s, path, choice)]
    case _ => []
  }

  function LeavesOfItems(items: seq<Json>, position: nat, path: Key, choice: Step): seq<Leaf>
    decreases items, 0
  {
    if items == [] then []
    else Leaves(items[0], path + [Num(position)], choice) + LeavesOfItems(items[1..], position + 1, path, choice)
  }

  function LeavesOfFields(fields: seq<Field>, path: Key, choice: Step): seq<Leaf>
    decreases fields, 0
  {
    if fields == [] then []
    else LeavesOfField(fields[0], path, choice) + LeavesOfFields(fields[1..], path, choice)
  }

  function LeavesOfField(field: Field, path: Key, choice: Step): seq<Leaf>
    decreases field, 2
  {
    if field.key in STRUCTURAL_KEYS then [] else Leaves(field.value, path + [Name(field.key)], choice)
  }

  /** Everything of a payload but its model-authored strings. */
  function Skeleton(node: Json): Json
    decreases node, 1
  {
    match node
    case Obj(fields) => Obj(SkeletonOfFields(fields))
    case Arr(items) => Arr(SkeletonOfItems(items))
    case Str(_) => Str("")
    case _ => node
  }

  function SkeletonOfItems(items: seq<Json>): seq<Json>
    decreases items, 0
  {
    if items == [] then [] else [Skeleton(items[0])] + SkeletonOfItems(items[1..])
  }

  function SkeletonOfFields(fields: seq<Field>): seq<Field>
    decreases fields, 0
  {
    if fields == [] then [] else [SkeletonOfField(fields[0])] + SkeletonOfFields(fields[1..])
  }

  function SkeletonOfField(field: Field): Field
    decreases field, 2
  {
    if field.key in STRUCTURAL_KEYS then field else Field(field.key, Skeleton(field.value))
  }

  /** What becomes of one string: left alone if empty, fed to its stream, or redacted on its own. */
  function Say(s: Settings, p: PoolState, leaf: Leaf): Answer
    requires EngineSound(s.engine)
  {
    if leaf.text == "" then Answer("", p)
    else match leaf.key
      case Some(k) => FeedPool(s, p, k, leaf.text)
      case None => Answer(Once(s, leaf.text), p)
  }

  datatype Answers = Answers(outs: seq<Leaf>, pool: PoolState)

  /** The strings of a walk answered one after the other. */
  function SayAll(s: Settings, p: PoolState, leaves: seq<Leaf>): Answers
    requires EngineSound(s.engine)
    decreases |leaves|
  {
    if leaves == [] then Answers([], p)
    else
      var first := Say(s, p, leaves[0]);
      var rest := SayAll(s, first.pool, leaves[1..]);
      Answers([Leaf(leaves[0].key, first.out)] + rest.outs, rest.pool)
  }

  lemma {:induction false} SayAllConcat(s: Settings, p: PoolState, a: seq<Leaf>, b: seq<Leaf>)
    requires EngineSound(s.engine)
    ensures
      var first := SayAll(s, p, a);
      var rest := SayAll(s, first.pool, b);
      SayAll(s, p, a + b) == Answers(first.outs + rest.outs, rest.pool)
    decreases |a|
  {
    hide Say, EngineSound;
    if a == [] {
      assert a + b == b && [] + SayAll(s, p, b).outs == SayAll(s, p, b).outs;
    } else {
      assert (a + b)[1..] == a[1..] + b;
      SayAllConcat(s, Say(s, p, a[0]).pool, a[1..], b);
      var head := [Leaf(a[0].key, Say(s, p, a[0]).out)];
      var tail, rest := SayAll(s, Say(s, p, a[0]).pool, a[1..]), SayAll(s, SayAll(s, p, a).pool, b);
      assert head + (tail.outs + rest.outs) == (head + tail.outs) + rest.outs;
    }
  }

  /** A payload with its strings answered, the pool after it, and whether it carried any text. */
  datatype Walked = Walked(node: Json, pool: PoolState, carried: bool)
  datatype WalkedItems = WalkedItems(items: seq<Json>, pool: PoolState, carried: bool)
  datatype WalkedFields = WalkedFields(fields: seq<Field>, pool: PoolState, carried: bool)
  datatype WalkedField = WalkedField(field: Field, pool: PoolState, carried: bool)

  function Walk(s: Settings, p: PoolState, node: Json, path: Key, choice: Step): Walked
    requires EngineSound(s.engine)
    decreases node, 1
  {
    match node
    case Obj(fields) =>
      var w := WalkFields(s, p, fields, path, LocalIndex(fields, choice));
      Walked(Obj(w.fields), w.pool, w.carried)
    case Arr(items) =>
      var w := WalkItems(s, p, items, 0, path, choice);
      Walked(Arr(w.items), w.pool, w.carried)
    case Str(text) =>
      var said := Say(s, p, LeafAt(text, path, choice));
      Walked(Str(said.out), said.pool, text != "")
    case _ => Walked(node, p, false)
  }

  function WalkItems(s: Settings, p: PoolState, items: seq<Json>, position: nat, path: Key, choice: Step): WalkedItems
    requires EngineSound(s.engine)
    decreases items, 0
  {
    if items == [] then WalkedItems([], p, false)
    else
      var first := Walk(s, p, items[0], path + [Num(position)], choice);
      var rest := WalkItems(s, first.pool, items[1..], position + 1, path, choice);
      WalkedItems([first.node] + rest.items, rest.pool, first.carried || rest.carried)
  }

  function WalkFields(s: Settings, p: PoolState, fields: seq<Field>, path: Key, choice: Step): WalkedFields
    requires EngineSound(s.engine)
    decreases fields, 0
  {
    if fields == [] then WalkedFields([], p, false)
    else
      var first := WalkField(s, p, fields[0], path, choice);
      var rest := WalkFields(s, first.pool, fields[1..], path, choice);
      WalkedFields([first.field] + rest.fields, rest.pool, first.carried || rest.carried)
  }

  function WalkField(s: Settings, p: PoolState, field: Field, path: Key, choice: Step): WalkedField
    requires EngineSound(s.engine)
    decreases field, 2
  {
    if field.key in STRUCTURAL_KEYS then WalkedField(field, p, false)
    else
      var w := Walk(s, p, field.value, path + [Name(field.key)], choice);
      WalkedField(Field(field.key, w.node), w.pool, w.carried)
  }

  predicate AnyText(leaves: seq<Leaf>) {
    exists i :: 0 <= i < |leaves| && leaves[i].text != ""
  }

  /** A walk's strings answered: the same strings, in the same order, one after the other. */
  ghost predicate Answered(s: Settings, p: PoolState, before: seq<Leaf>, after: seq<Leaf>, pool: PoolState,
      carried: bool)
    requires EngineSound(s.engine)
  {
    SayAll(s, p, before) == Answers(after, pool) && (carried <==> AnyText(before))
  }

  lemma AnsweredConcat(s: Settings, p: PoolState, a: seq<Leaf>, a': seq<Leaf>, mid: PoolState, ca: bool,
                       b: seq<Leaf>, b': seq<Leaf>, pool: PoolState, cb: bool)
    requires EngineSound(s.engine)
    requires Answered(s, p, a, a', mid, ca) && Answered(s, mid, b, b', pool, cb)
    ensures Answered(s, p, a + b, a' + b', pool, ca || cb)
  {
    hide SayAll;
    SayAllConcat(s, p, a, b);
    if AnyText(a) {
      var i :| 0 <= i < |a| && a[i].text != "";
      assert (a + b)[i] == a[i];
    }
    if AnyText(b) {
      var i :| 0 <= i < |b| && b[i].text != "";
      assert (a + b)[|a| + i] == b[i];
    }
  }

  lemma OneAnswered(s: Settings, p: PoolState, leaf: Leaf)
    requires EngineSound(s.engine)
    ensures Answered(s, p, [leaf], [Leaf(leaf.key, Say(s, p, leaf).out)], Say(s, p, leaf).pool, leaf.text != "")
  {
    hide Say;
    assert SayAll(s, Say(s, p, leaf).pool, [leaf][1..]) == Answers([], Say(s, p, leaf).pool);
    assert AnyText([leaf]) <==> leaf.text != "" by {
      assert [leaf][0] == leaf;
    }
  }

  /**
   A walk changes the model-authored strings of a payload and nothing else, and what becomes of them
   depends only on their order and the streams they belong to.
   */
  lemma {:induction false} WalkAnswersLeaves(s: Settings, p: PoolState, node: Json, path: Key, choice: Step)
    requires EngineSound(s.engine)
    ensures
      var w := Walk(s, p, node, path, choice);
      && Skeleton(w.node) == Skeleton(node)
      && Answered(s, p, Leaves(node, path, choice), Leaves(w.node, path, choice), w.pool, w.carried)
    decreases node, 1
  {
    hide Answered, SayAll, Say, EngineSound, LocalIndex;
    match node
    case Obj(fields) =>
      var local := LocalIndex(fields, choice);
      WalkFieldsAnswers(s, p, fields, path, local);
      SameIndex(s, p, fields, path, local, choice);
    case Arr(items) =>
      WalkItemsAnswers(s, p, items, 0, path, choice);
    case Str(text) =>
      OneAnswered(s, p, LeafAt(text, path, choice));
    case _ =>
      NothingAnswered(s, p);
  }

  lemma NothingAnswered(s: Settings, p: PoolState)
    requires EngineSound(s.engine)
    ensures Answered(s, p, [], [], p, false)
  {
  }

  lemma {:induction false} WalkItemsAnswers(s: Settings, p: PoolState, items: seq<Json>, position: nat, path: Key,
      choice: Step)
    requires EngineSound(s.engine)
    ensures
      var w := WalkItems(s, p, items, position, path, choice);
      && SkeletonOfItems(w.items) == SkeletonOfItems(items)
      && Answered(s, p, LeavesOfItems(items, position, path, choice), LeavesOfItems(w.items, position, path, choice),
                  w.pool, w.carried)
    decreases items, 0
  {
    hide Answered, EngineSound, Walk, Leaves, Skeleton;
    if items == [] {
      NothingAnswered(s, p);
    } else {
      var here := path + [Num(position)];
      var first := Walk(s, p, items[0], here, choice);
      var rest := WalkItems(s, first.pool, items[1..], position + 1, path, choice);
      WalkAnswersLeaves(s, p, items[0], here, choice);
      WalkItemsAnswers(s, first.pool, items[1..], position + 1, path, choice);
      AnsweredConcat(s, p, Leaves(items[0], here, choice), Leaves(first.node, here, choice), first.pool, first.carried,
                     LeavesOfItems(items[1..], position + 1, path, choice),
                     LeavesOfItems(rest.items, position + 1, path, choice), rest.pool, rest.carried);
      assert ([first.node] + rest.items)[1..] == rest.items;
    }
  }

  lemma {:induction false} WalkFieldsAnswers(s: Settings, p: PoolState, fields: seq<Field>, path: Key, choice: Step)
    requires EngineSound(s.engine)
    ensures
      var w := WalkFields(s, p, fields, path, choice);
      && SkeletonOfFields(w.fields) == SkeletonOfFields(fields)
      && Answered(s, p, LeavesOfFields(fields, path, choice), LeavesOfFields(w.fields, path, choice), w.pool, w.carried)
    decreases fields, 0
  {
    hide Answered, EngineSound, WalkField, LeavesOfField, SkeletonOfField;
    if fields == [] {
      NothingAnswered(s, p);
    } else {
      var first := WalkField(s, p, fields[0], path, choice);
      var rest := WalkFields(s, first.pool, fields[1..], path, choice);
      WalkFieldAnswers(s, p, fields[0], path, choice);
      WalkFieldsAnswers(s, first.pool, fields[1..], path, choice);
      AnsweredConcat(s, p, LeavesOfField(fields[0], path, choice), LeavesOfField(first.field, path, choice),
                     first.pool, first.carried,
                     LeavesOfFields(fields[1..], path, choice), LeavesOfFields(rest.fields, path, choice),
                     rest.pool, rest.carried);
      assert ([first.field] + rest.fields)[1..] == rest.fields;
    }
  }

  lemma {:induction false} WalkFieldAnswers(s: Settings, p: PoolState, field: Field, path: Key, choice: Step)
    requires EngineSound(s.engine)
    ensures
      var w := WalkField(s, p, field, path, choice);
      && SkeletonOfField(w.field) == SkeletonOfField(field)
      && Answered(s, p, LeavesOfField(field, path, choice), LeavesOfField(w.field, path, choice), w.pool, w.carried)
    decreases field, 2
  {
    hide Answered, EngineSound, Walk, Leaves, Skeleton;
    if field.key in STRUCTURAL_KEYS {
      NothingAnswered(s, p);
    } else {
      WalkAnswersLeaves(s, p, field.value, path + [Name(field.key)], choice);
    }
  }

  /** A walk leaves the declared index of an object as it is. */
  lemma {:induction false} SameIndex(s: Settings, p: PoolState, fields: seq<Field>, path: Key, local: Step,
      choice: Step)
    requires EngineSound(s.engine)
    ensures LocalIndex(WalkFields(s, p, fields, path, local).fields, choice) == LocalIndex(fields, choice)
    decreases fields
  {
    hide EngineSound, Walk;
    if fields != [] {
      var first := WalkField(s, p, fields[0], path, local);
      var rest := WalkFields(s, first.pool, fields[1..], path, local);
      SameIndex(s, first.pool, fields[1..], path, local, choice);
      assert ([first.field] + rest.fields)[1..] == rest.fields;
    }
  }
}
