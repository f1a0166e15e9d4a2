/** The pool as an object: live redactors by key, grown by feeding and walked over by payloads. */
module RedactorPool {
  import opened Wrappers
  import opened JsonTree
  import opened Scan
  import opened Redactor
  import opened Streaming
  import opened Pool
  import opened PoolRuns

  class RedactorPool {
    const settings: Settings
    var redactors: map<Key, StreamingRedactor>
    /** The keys as a dictionary lists them: in the order they were first stored. */
    var order: seq<Key>

    /** Every redactor is sound, configured alike, and shared by no two keys. */
    ghost predicate Valid()
      reads this, redactors.Values
    {
      && EngineSound(settings.engine) && settings.maxHoldback >= MAX_MATCH_LENGTH
      && (forall k :: k in redactors ==> redactors[k].Valid() && redactors[k].settings == settings)
      && (forall j, k :: j in redactors && k in redactors && j != k ==> redactors[j] != redactors[k])
      && Distinct(order) && forall k :: k in order <==> k in redactors
    }

    lemma KeysAreLive()
      requires Valid()
      ensures Streams().Keys == redactors.Keys && Distinct(order) && forall k :: k in order <==> k in redactors
    {
    }

    lemma EngineIsSound()
      requires Valid()
      ensures EngineSound(settings.engine)
    {
    }

    ghost function Streams(): map<Key, Stream>
      reads this, redactors.Values
    {
      map k | k in redactors :: Stream(redactors[k].buffer, redactors[k].context)
    }

    ghost function State(): PoolState
      reads this, redactors.Values
    {
      PoolState(Streams(), order)
    }

    constructor (engine: Engine, placeholder: string, maxHoldback: nat)
      requires EngineSound(engine) && maxHoldback >= MAX_MATCH_LENGTH
      ensures Valid() && redactors == map[] && settings == Settings(engine, placeholder, maxHoldback)
      ensures State() == PoolState(map[], [])
    {
      settings := Settings(engine, placeholder, maxHoldback);
      redactors, order := map[], [];
    }

    method Feed(key: Key, text: string) returns (r: string)
      requires Valid()
      modifies this, redactors.Values
      ensures Valid() && fresh(redactors.Values - old(redactors.Values))
      ensures Answer(r, State()) == FeedPool(settings, old(State()), key, text)
    {
      hide EngineSound, FeedOne, Valid, Streams;
      EngineIsSound();
      KeysAreLive();
      ghost var before := State();
      if key !in redactors {
        Add(key);
      }
      r := FeedLive(key, text);
    }

    /** A new, empty stream. */
    method Add(key: Key)
      requires Valid() && key !in redactors
      modifies this
      ensures Valid() && fresh(redactors.Values - old(redactors.Values))
      ensures redactors.Keys == old(redactors.Keys) + {key} && order == old(order) + [key]
      ensures Streams() == old(Streams())[key := FRESH]
    {
      hide EngineSound, StreamingRedactor.Valid, Distinct;
      DistinctAppend(order, key);
      var redactor := new StreamingRedactor(settings.engine, settings.placeholder, settings.maxHoldback);
      redactors := redactors[key := redactor];
      order := order + [key];
    }

    /** Feeds a stream that exists: no other stream changes. */
    method FeedLive(key: Key, text: string) returns (r: string)
      requires Valid() && key in redactors
      modifies redactors[key]
      ensures Valid() && redactors == old(redactors) && order == old(order)
      ensures
        var fed := FeedOne(settings, old(Streams())[key], text);
        r == fed.out && Streams() == old(Streams())[key := fed.next]
    {
      hide EngineSound, FeedOne, StreamingRedactor.Valid, Distinct;
      var redactor := redactors[key];
      r := redactor.Feed(text);
    }

    method FlushLive(key: Key) returns (r: string)
      requires Valid() && key in redactors
      modifies redactors[key]
      ensures Valid() && redactors == old(redactors) && order == old(order)
      ensures r == FlushOne(settings, old(Streams())[key]) && Streams() == old(Streams())[key := FRESH]
    {
      hide EngineSound, FlushOne, StreamingRedactor.Valid, Distinct;
      var redactor := redactors[key];
      r := redactor.Flush();
    }

    /** A complete value, in a redactor of its own: the pool is untouched. */
    method RedactOnce(text: string) returns (r: string)
      requires Valid()
      ensures r == Once(settings, text)
    {
      hide EngineSound, Emit;
      var redactor := new StreamingRedactor(settings.engine, settings.placeholder, settings.maxHoldback);
      r := redactor.Feed(text);
      var rest := redactor.Flush();
      r := r + rest;
    }

    /** The residue of the selected streams, in the order they were first seen. */
    method Flush(which: Which) returns (out: seq<Leaf>)
      requires Valid()
      modifies redactors.Values
      ensures Valid() && redactors == old(redactors) && order == old(order)
      ensures out == Residues(settings, old(Streams()), order, which)
      ensures Streams() == Flushed(old(Streams()), which)
    {
      hide EngineSound, FlushOne, Selects, Valid, Streams, FlushedAmong, Residues;
      EngineIsSound();
      KeysAreLive();
      out := [];
      ghost var before := Streams();
      NoneFlushed(before, which);
      for i := 0 to |order|
        invariant Valid() && redactors == old(redactors) && order == old(order)
        invariant Streams() == FlushedAmong(before, order[..i], which)
        invariant out + Residues(settings, before, order[i..], which) == Residues(settings, before, order, which)
      {
        var key := order[i];
        assert key in redactors && redactors[key] in redactors.Values;
        NextFlushed(settings, before, order, i, which);
        if Selects(which, key) {
          var remaining := FlushLive(key);
          if remaining != "" {
            out := out + [Leaf(Some(key), remaining)];
          }
        }
      }
      AllFlushed(settings, before, order, which);
    }

    /** Redacts the model-authored strings of a payload. */
    method RedactPayload(payload: Json) returns (redacted: Json, carried: bool)
      requires Valid()
      modifies this, redactors.Values
      ensures Valid() && fresh(redactors.Values - old(redactors.Values))
      ensures Walked(redacted, State(), carried) == Walk(settings, old(State()), payload, [], NoIndex)
    {
      redacted, carried := RedactNode(payload, [], NoIndex);
    }

    method RedactNode(node: Json, path: Key, choice: Step) returns (redacted: Json, carried: bool)
      requires Valid()
      modifies this, redactors.Values
      ensures Valid() && fresh(redactors.Values - old(redactors.Values))
      ensures Walked(redacted, State(), carried) == Walk(settings, old(State()), node, path, choice)
      decreases node, 1
    {
      hide EngineSound, Say, LocalIndex, Valid, Streams, State;
      match node {
        case Obj(fields) =>
          var out;
          out, carried := RedactFields(fields, path, LocalIndex(fields, choice));
          redacted := Obj(out);
        case Arr(items) =>
          var out;
          out, carried := RedactItems(items, path, choice);
          redacted := Arr(out);
        case Str(text) =>
          var r := RedactText(text, path, choice);
          redacted, carried := Str(r), text != "";
        case _ =>
          redacted, carried := node, false;
      }
    }

    method RedactText(text: string, path: Key, choice: Step) returns (r: string)
      requires Valid()
      modifies this, redactors.Values
      ensures Valid() && fresh(redactors.Values - old(redactors.Values))
      ensures Answer(r, State()) == Say(settings, old(State()), LeafAt(text, path, choice))
    {
      hide EngineSound, FeedPool, Once, Valid, Streams, State;
      if text == "" {
        r := text;
      } else if IsStreamingPath(path) {
        r := Feed([choice] + path, text);
      } else {
        r := RedactOnce(text);
      }
    }

    method RedactItems(items: seq<Json>, path: Key, choice: Step) returns (out: seq<Json>, carried: bool)
      requires Valid()
      modifies this, redactors.Values
      ensures Valid() && fresh(redactors.Values - old(redactors.Values))
      ensures WalkedItems(out, State(), carried) == WalkItems(settings, old(State()), items, 0, path, choice)
      decreases items, 0
    {
      hide EngineSound, Walk, WalkItems, ItemsAfter, Valid, Streams, State;
      EngineIsSound();
      out, carried := [], false;
      ItemsEnds(settings, State(), items, path, choice, out, carried);
      ghost var whole := WalkItems(settings, State(), items, 0, path, choice);
      for position := 0 to |items|
        invariant Valid() && fresh(redactors.Values - old(redactors.Values))
        invariant ItemsAfter(out, carried, WalkItems(settings, State(), items[position..], position, path, choice))
             == whole
      {
        ItemsNext(settings, State(), items, position, path, choice, out, carried);
        var redacted, more := RedactNode(items[position], path + [Num(position)], choice);
        out, carried := out + [redacted], carried || more;
      }
      ItemsEnds(settings, State(), items, path, choice, out, carried);
    }

    method RedactFields(fields: seq<Field>, path: Key, local: Step) returns (out: seq<Field>, carried: bool)
      requires Valid()
      modifies this, redactors.Values
      ensures Valid() && fresh(redactors.Values - old(redactors.Values))
      ensures WalkedFields(out, State(), carried) == WalkFields(settings, old(State()), fields, path, local)
      decreases fields, 0
    {
      hide EngineSound, WalkField, WalkFields, FieldsAfter, Valid, Streams, State;
      EngineIsSound();
      out, carried := [], false;
      FieldsEnds(settings, State(), fields, path, local, out, carried);
      ghost var whole := WalkFields(settings, State(), fields, path, local);
      for k := 0 to |fields|
        invariant Valid() && fresh(redactors.Values - old(redactors.Values))
        invariant FieldsAfter(out, carried, WalkFields(settings, State(), fields[k..], path, local)) == whole
      {
        FieldsNext(settings, State(), fields, k, path, local, out, carried);
        var redacted, more := RedactField(fields[k], path, local);
        out, carried := out + [redacted], carried || more;
      }
      FieldsEnds(settings, State(), fields, path, local, out, carried);
    }

    method RedactField(field: Field, path: Key, local: Step) returns (out: Field, carried: bool)
      requires Valid()
      modifies this, redactors.Values
      ensures Valid() && fresh(redactors.Values - old(redactors.Values))
      ensures WalkedField(out, State(), carried) == WalkField(settings, old(State()), field, path, local)
      decreases field, 2
    {
      hide EngineSound, Walk, Valid, Streams, State;
      if field.key in STRUCTURAL_KEYS {
        return field, false;
      }
      var redacted, more := RedactNode(field.value, path + [Name(field.key)], local);
      out, carried := Field(field.key, redacted), more;
    }
  }

  lemma DistinctAppend(keys: seq<Key>, key: Key)
    requires Distinct(keys) && key !in keys
    ensures Distinct(keys + [key])
  {
  }

  /** The streams with those of some keys flushed. */
  ghost function FlushedAmong(streams: map<Key, Stream>, keys: seq<Key>, which: Which): map<Key, Stream> {
    map k | k in streams :: if k in keys && Selects(which, k) then FRESH else streams[k]
  }

  lemma NoneFlushed(streams: map<Key, Stream>, which: Which)
    ensures FlushedAmong(streams, [], which) == streams
  {
  }

  lemma AllFlushed(s: Settings, streams: map<Key, Stream>, keys: seq<Key>, which: Which)
    requires EngineSound(s.engine) && forall k :: k in keys <==> k in streams
    ensures FlushedAmong(streams, keys[..|keys|], which) == Flushed(streams, which)
    ensures Residues(s, streams, keys[|keys|..], which) == []
  {
    assert keys[..|keys|] == keys;
  }

  /** One key on: the rest of the residues, and the streams flushed so far. */
  lemma NextFlushed(s: Settings, streams: map<Key, Stream>, keys: seq<Key>, i: nat, which: Which)
    requires EngineSound(s.engine) && Distinct(keys) && i < |keys| && forall k :: k in keys <==> k in streams
    ensures
      var key, sofar := keys[i], FlushedAmong(streams, keys[..i], which);
      && key in sofar && sofar[key] == streams[key]
      && FlushedAmong(streams, keys[..i + 1], which) == (if Selects(which, key) then sofar[key := FRESH] else sofar)
      && Residues(s, streams, keys[i..], which)
         == (if Selects(which, key) && FlushOne(s, streams[key]) != ""
             then [Leaf(Some(key), FlushOne(s, streams[key]))] else [])
            + Residues(s, streams, keys[i + 1..], which)
  {
    hide *;
    StreamsNext(streams, keys, i, which);
    ResiduesNext(s, streams, keys, i, which);
  }

  lemma StreamsNext(streams: map<Key, Stream>, keys: seq<Key>, i: nat, which: Which)
    requires Distinct(keys) && i < |keys| && keys[i] in streams
    ensures
      var key, sofar := keys[i], FlushedAmong(streams, keys[..i], which);
      && key in sofar && sofar[key] == streams[key]
      && FlushedAmong(streams, keys[..i + 1], which) == (if Selects(which, key) then sofar[key := FRESH] else sofar)
  {
    hide Selects;
    assert keys[..i + 1] == keys[..i] + [keys[i]];
  }

  lemma ResiduesNext(s: Settings, streams: map<Key, Stream>, keys: seq<Key>, i: nat, which: Which)
    requires EngineSound(s.engine) && i < |keys| && forall k :: k in keys ==> k in streams
    ensures Residues(s, streams, keys[i..], which)
         == (if Selects(which, keys[i]) && FlushOne(s, streams[keys[i]]) != ""
             then [Leaf(Some(keys[i]), FlushOne(s, streams[keys[i]]))] else [])
            + Residues(s, streams, keys[i + 1..], which)
  {
    hide EngineSound, FlushOne, Selects;
    assert keys[i..][1..] == keys[i + 1..];
  }

  /** A walk over the rest of a list, put behind what was walked before. */
  function ItemsAfter(out: seq<Json>, carried: bool, rest: WalkedItems): WalkedItems {
    WalkedItems(out + rest.items, rest.pool, carried || rest.carried)
  }

  function FieldsAfter(out: seq<Field>, carried: bool, rest: WalkedFields): WalkedFields {
    WalkedFields(out + rest.fields, rest.pool, carried || rest.carried)
  }

  lemma ItemsNext(s: Settings, p: PoolState, items: seq<Json>, k: nat, path: Key, choice: Step, out: seq<Json>,
      carried: bool)
    requires EngineSound(s.engine) && k < |items|
    ensures
      var first := Walk(s, p, items[k], path + [Num(k)], choice);
      ItemsAfter(out, carried, WalkItems(s, p, items[k..], k, path, choice))
      == ItemsAfter(out + [first.node], carried || first.carried,
             WalkItems(s, first.pool, items[k + 1..], k + 1, path, choice))
  {
    hide EngineSound, Walk;
    assert items[k..][1..] == items[k + 1..];
  }

  lemma FieldsNext(s: Settings, p: PoolState, fields: seq<Field>, k: nat, path: Key, local: Step, out: seq<Field>,
      carried: bool)
    requires EngineSound(s.engine) && k < |fields|
    ensures
      var first := WalkField(s, p, fields[k], path, local);
      FieldsAfter(out, carried, WalkFields(s, p, fields[k..], path, local))
      == FieldsAfter(out + [first.field], carried || first.carried,
             WalkFields(s, first.pool, fields[k + 1..], path, local))
  {
    hide EngineSound, WalkField;
    assert fields[k..][1..] == fields[k + 1..];
  }

  lemma ItemsEnds(s: Settings, p: PoolState, items: seq<Json>, path: Key, choice: Step, out: seq<Json>, carried: bool)
    requires EngineSound(s.engine)
    ensures ItemsAfter([], false, WalkItems(s, p, items[0..], 0, path, choice))
         == WalkItems(s, p, items, 0, path, choice)
    ensures ItemsAfter(out, carried, WalkItems(s, p, items[|items|..], |items|, path, choice))
         == WalkedItems(out, p, carried)
  {
    hide EngineSound, Walk;
    assert items[0..] == items;
  }

  lemma FieldsEnds(s: Settings, p: PoolState, fields: seq<Field>, path: Key, local: Step, out: seq<Field>,
      carried: bool)
    requires EngineSound(s.engine)
    ensures FieldsAfter([], false, WalkFields(s, p, fields[0..], path, local)) == WalkFields(s, p, fields, path, local)
    ensures FieldsAfter(out, carried, WalkFields(s, p, fields[|fields|..], path, local))
         == WalkedFields(out, p, carried)
  {
    hide EngineSound, WalkField;
    assert fields[0..] == fields;
  }
}
