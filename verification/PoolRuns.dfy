/** Non-interference: whatever else goes through the pool, a stream's output is that of a redactor of its own. */
module PoolRuns {
  import opened Wrappers
  import opened JsonTree
  import opened Scan
  import opened Redactor
  import opened Streaming
  import opened ChunkInvariance
  import opened Pool

  /** Which streams a flush ends: all, or those of one choice. */
  datatype Which = All | Choice(index: Step)

  predicate Selects(which: Which, k: Key) {
    which.All? || (k != [] && k[0] == which.index)
  }

  /** What happens to a pool: a string to redact, or a flush. A payload walk is a run of strings. */
  datatype Event = Text(leaf: Leaf) | Close(which: Which)

  predicate Distinct(keys: seq<Key>) {
    forall i, j :: 0 <= i < j < |keys| ==> keys[i] != keys[j]
  }

  /** Each stream is listed once. */
  ghost predicate Listed(p: PoolState) {
    Distinct(p.order) && forall k :: k in p.order <==> k in p.streams
  }

  /** The residue of each selected stream that has one, in the given order. */
  function Residues(s: Settings, streams: map<Key, Stream>, keys: seq<Key>, which: Which): seq<Leaf>
    requires EngineSound(s.engine) && forall k :: k in keys ==> k in streams
  {
    if keys == [] then []
    else ResidueOf(s, streams[keys[0]], keys[0], which) + Residues(s, streams, keys[1..], which)
  }

  function ResidueOf(s: Settings, stream: Stream, k: Key, which: Which): seq<Leaf>
    requires EngineSound(s.engine)
  {
    if Selects(which, k) && FlushOne(s, stream) != "" then [Leaf(Some(k), FlushOne(s, stream))] else []
  }

  function Flushed(streams: map<Key, Stream>, which: Which): map<Key, Stream> {
    map k | k in streams :: if Selects(which, k) then FRESH else streams[k]
  }

  function Happen(s: Settings, p: PoolState, event: Event): Answers
    requires EngineSound(s.engine) && Listed(p)
  {
    match event
    case Text(leaf) => Answers([Leaf(leaf.key, Say(s, p, leaf).out)], Say(s, p, leaf).pool)
    case Close(which) => Answers(Residues(s, p.streams, p.order, which), PoolState(Flushed(p.streams, which), p.order))
  }

  lemma StaysListed(s: Settings, p: PoolState, event: Event)
    requires EngineSound(s.engine) && Listed(p)
    ensures Listed(Happen(s, p, event).pool)
  {
    hide FeedOne, FlushOne, EngineSound, Once;
  }

  /** A run from an empty pool. */
  function Run(s: Settings, events: seq<Event>): (r: Answers)
    requires EngineSound(s.engine)
    ensures Listed(r.pool)
    decreases |events|
  {
    if events == [] then Answers([], PoolState(map[], []))
    else
      var before := Run(s, events[..|events| - 1]);
      var last := Happen(s, before.pool, events[|events| - 1]);
      StaysListed(s, before.pool, events[|events| - 1]);
      Answers(before.outs + last.outs, last.pool)
  }

  // ------------------------------------------------------------- a stream of its own

  datatype Alone = Alone(outs: seq<string>, stream: Stream)

  /** A redactor of its own, given the texts for `k` and the flushes that select `k`. */
  function Isolated(s: Settings, events: seq<Event>, k: Key): Alone
    requires EngineSound(s.engine)
    decreases |events|
  {
    if events == [] then Alone([], FRESH)
    else
      var before := Isolated(s, events[..|events| - 1], k);
      match events[|events| - 1]
      case Text(leaf) =>
        if leaf.key == Some(k) then
          var fed := FeedOne(s, before.stream, leaf.text);
          Alone(before.outs + [fed.out], fed.next)
        else before
      case Close(which) =>
        if Selects(which, k) then
          var residue := FlushOne(s, before.stream);
          Alone(before.outs + if residue != "" then [residue] else [], FRESH)
        else before
  }

  /** What was sent out for `k`, in order. */
  function SentTo(k: Key, outs: seq<Leaf>): seq<string> {
    if outs == [] then []
    else (if outs[0].key == Some(k) then [outs[0].text] else []) + SentTo(k, outs[1..])
  }

  lemma {:induction false} SentToConcat(k: Key, a: seq<Leaf>, b: seq<Leaf>)
    ensures SentTo(k, a + b) == SentTo(k, a) + SentTo(k, b)
  {
    if a == [] {
      assert a + b == b;
    } else {
      assert (a + b)[1..] == a[1..] + b;
      SentToConcat(k, a[1..], b);
    }
  }

  lemma SentResidue(s: Settings, stream: Stream, key: Key, which: Which, k: Key)
    requires EngineSound(s.engine)
    ensures SentTo(k, ResidueOf(s, stream, key, which))
         == if k == key && Selects(which, k) && FlushOne(s, stream) != "" then [FlushOne(s, stream)] else []
  {
    hide EngineSound, FlushOne, Selects;
  }

  lemma {:induction false} SentResidues(s: Settings, streams: map<Key, Stream>, keys: seq<Key>, which: Which, k: Key)
    requires EngineSound(s.engine) && Distinct(keys) && forall j :: j in keys ==> j in streams
    ensures SentTo(k, Residues(s, streams, keys, which))
         == if k in keys && Selects(which, k) && FlushOne(s, streams[k]) != "" then [FlushOne(s, streams[k])] else []
  {
    hide EngineSound, FlushOne, Selects, ResidueOf;
    if keys != [] {
      var first := ResidueOf(s, streams[keys[0]], keys[0], which);
      SentToConcat(k, first, Residues(s, streams, keys[1..], which));
      SentResidue(s, streams[keys[0]], keys[0], which, k);
      SentResidues(s, streams, keys[1..], which, k);
      assert keys == [keys[0]] + keys[1..];
      assert k == keys[0] ==> k !in keys[1..];
    }
  }

  lemma SayReaches(s: Settings, p: PoolState, leaf: Leaf, k: Key)
    requires EngineSound(s.engine)
    ensures
      var said, alone := Say(s, p, leaf), FeedOne(s, StreamAt(p, k), leaf.text);
      if leaf.key == Some(k) then said.out == alone.out && StreamAt(said.pool, k) == alone.next
      else StreamAt(said.pool, k) == StreamAt(p, k)
  {
    hide Emit, EngineSound;
  }

  /**
   Non-interference: for any interleaving of texts, one-shot values and flushes, what goes out at a
   key, and what is held there, is what a redactor given only that key's texts and flushes would do.
   */
  lemma {:induction false} NonInterference(s: Settings, events: seq<Event>, k: Key)
    requires EngineSound(s.engine)
    ensures SentTo(k, Run(s, events).outs) == Isolated(s, events, k).outs
    ensures StreamAt(Run(s, events).pool, k) == Isolated(s, events, k).stream
    decreases |events|
  {
    hide EngineSound, FlushOne, FeedOne, Selects, Listed, Say;
    if events != [] {
      var earlier, event := events[..|events| - 1], events[|events| - 1];
      var before := Run(s, earlier);
      NonInterference(s, earlier, k);
      SentToConcat(k, before.outs, Happen(s, before.pool, event).outs);
      match event
      case Text(leaf) =>
        SayReaches(s, before.pool, leaf, k);
        OneSent(k, leaf.key, Say(s, before.pool, leaf).out);
      case Close(which) =>
        CloseReaches(s, before.pool, which, k);
    }
  }

  lemma OneSent(k: Key, key: Option<Key>, text: string)
    ensures SentTo(k, [Leaf(key, text)]) == if key == Some(k) then [text] else []
  {
  }

  lemma CloseReaches(s: Settings, p: PoolState, which: Which, k: Key)
    requires EngineSound(s.engine) && Listed(p)
    ensures
      var residue := FlushOne(s, StreamAt(p, k));
      var closed := Happen(s, p, Close(which));
      && SentTo(k, closed.outs) == (if Selects(which, k) && residue != "" then [residue] else [])
      && StreamAt(closed.pool, k) == if Selects(which, k) then FRESH else StreamAt(p, k)
  {
    hide EngineSound, Selects, Emit;
    SentResidues(s, p.streams, p.order, which, k);
  }

  /** A flush leaves nothing behind: another one of the same streams sends nothing. */
  lemma FlushedOnce(s: Settings, p: PoolState, which: Which)
    requires EngineSound(s.engine) && Listed(p)
    ensures
      var closed := Happen(s, p, Close(which)).pool;
      Listed(closed) && Happen(s, closed, Close(which)).outs == []
  {
    hide EngineSound, Selects, Emit;
    StaysListed(s, p, Close(which));
    NothingLeft(s, Flushed(p.streams, which), p.order, which);
  }

  lemma {:induction false} NothingLeft(s: Settings, streams: map<Key, Stream>, keys: seq<Key>, which: Which)
    requires EngineSound(s.engine) && forall k :: k in keys ==> k in streams
    requires forall k :: k in keys && Selects(which, k) ==> streams[k] == FRESH
    ensures Residues(s, streams, keys, which) == []
  {
    hide EngineSound, Selects, Emit;
    if keys != [] {
      NothingLeft(s, streams, keys[1..], which);
    }
  }

  // ----------------------------------------------------------------- one-shot values

  function SentAlone(outs: seq<Leaf>): seq<string> {
    if outs == [] then []
    else (if outs[0].key.None? then [outs[0].text] else []) + SentAlone(outs[1..])
  }

  /** Each one-shot value of a run, redacted by a redactor of its own. */
  function OneShots(s: Settings, events: seq<Event>): seq<string>
    requires EngineSound(s.engine)
    decreases |events|
  {
    if events == [] then []
    else
      var last := events[|events| - 1];
      OneShots(s, events[..|events| - 1])
      + if last.Text? && last.leaf.key.None? then [StreamOutput(s, [last.leaf.text])] else []
  }

  lemma {:induction false} SentAloneConcat(a: seq<Leaf>, b: seq<Leaf>)
    ensures SentAlone(a + b) == SentAlone(a) + SentAlone(b)
  {
    if a == [] {
      assert a + b == b;
    } else {
      assert (a + b)[1..] == a[1..] + b;
      SentAloneConcat(a[1..], b);
    }
  }

  lemma {:induction false} ResiduesHaveKeys(s: Settings, streams: map<Key, Stream>, keys: seq<Key>, which: Which)
    requires EngineSound(s.engine) && forall k :: k in keys ==> k in streams
    ensures SentAlone(Residues(s, streams, keys, which)) == []
  {
    hide EngineSound, FlushOne, Selects;
    if keys != [] {
      SentAloneConcat(ResidueOf(s, streams[keys[0]], keys[0], which), Residues(s, streams, keys[1..], which));
      ResiduesHaveKeys(s, streams, keys[1..], which);
    }
  }

  /** A complete value goes through a whole stream of its own. */
  lemma OnceIsAStream(s: Settings, p: PoolState, text: string)
    requires EngineSound(s.engine)
    ensures Say(s, p, Leaf(None, text)) == Answer(StreamOutput(s, [text]), p)
  {
    hide Emit, EngineSound;
    assert [text][..0] == [] && FeedAll(s, []) == Fed("", FRESH);
    assert FeedAll(s, [text]) == Fed("" + FeedOne(s, FRESH, text).out, FeedOne(s, FRESH, text).next);
    assert "" + FeedOne(s, FRESH, text).out == FeedOne(s, FRESH, text).out;
  }

  /** One-shot values come out as if there were no streams. */
  lemma {:induction false} OneShotsStandAlone(s: Settings, events: seq<Event>)
    requires EngineSound(s.engine)
    ensures SentAlone(Run(s, events).outs) == OneShots(s, events)
    decreases |events|
  {
    hide EngineSound, StreamOutput, Say, Selects;
    if events != [] {
      var earlier, event := events[..|events| - 1], events[|events| - 1];
      var before := Run(s, earlier);
      OneShotsStandAlone(s, earlier);
      SentAloneConcat(before.outs, Happen(s, before.pool, event).outs);
      match event
      case Text(leaf) =>
        OnceIsAStream(s, before.pool, leaf.text);
        assert leaf.key.None? ==> leaf == Leaf(None, leaf.text);
      case Close(which) =>
        ResiduesHaveKeys(s, before.pool.streams, before.pool.order, which);
    }
  }

  // ------------------------------------------------------------------- whole streams

  /** The texts of `k` in a run without flushes. */
  function TextsAt(events: seq<Event>, k: Key): seq<string>
    decreases |events|
  {
    if events == [] then []
    else
      var last := events[|events| - 1];
      TextsAt(events[..|events| - 1], k) + if last.Text? && last.leaf.key == Some(k) then [last.leaf.text] else []
  }

  lemma ConcatLast(texts: seq<string>, text: string)
    ensures Concat(texts + [text]) == Concat(texts) + text
  {
    assert (texts + [text])[..|texts|] == texts;
  }

  lemma FeedAllLast(s: Settings, texts: seq<string>, text: string)
    requires EngineSound(s.engine)
    ensures
      var before := FeedAll(s, texts);
      var last := FeedOne(s, before.next, text);
      FeedAll(s, texts + [text]) == Fed(before.out + last.out, last.next)
  {
    hide FeedOne, EngineSound;
    assert (texts + [text])[..|texts|] == texts;
  }

  lemma {:induction false} IsolatedFeeds(s: Settings, events: seq<Event>, k: Key)
    requires EngineSound(s.engine) && forall i :: 0 <= i < |events| ==> events[i].Text?
    ensures
      var alone, fed := Isolated(s, events, k), FeedAll(s, TextsAt(events, k));
      Concat(alone.outs) == fed.out && alone.stream == fed.next
    decreases |events|
  {
    hide FeedOne, FeedAll, Concat, EngineSound;
    if events == [] {
      assert Concat([]) == "" && FeedAll(s, []) == Fed("", FRESH) by {
        EmptyStream(s);
      }
    } else {
      var earlier, leaf := events[..|events| - 1], events[|events| - 1].leaf;
      IsolatedFeeds(s, earlier, k);
      var before := Isolated(s, earlier, k);
      if leaf.key == Some(k) {
        ConcatLast(before.outs, FeedOne(s, before.stream, leaf.text).out);
        FeedAllLast(s, TextsAt(earlier, k), leaf.text);
      } else {
        assert TextsAt(earlier, k) + [] == TextsAt(earlier, k);
      }
    }
  }

  lemma EmptyStream(s: Settings)
    requires EngineSound(s.engine)
    ensures Concat([]) == "" && FeedAll(s, []) == Fed("", FRESH)
  {
  }

  /** A response's streams, fed in any interleaving and flushed: each comes out as a stream of its own texts. */
  lemma EachStreamWhole(s: Settings, events: seq<Event>, k: Key)
    requires EngineSound(s.engine) && forall i :: 0 <= i < |events| ==> events[i].Text?
    ensures Concat(SentTo(k, Run(s, events + [Close(All)]).outs)) == StreamOutput(s, TextsAt(events, k))
  {
    hide Run, Isolated, FeedAll, Concat, EngineSound, FlushOne;
    NonInterference(s, events + [Close(All)], k);
    IsolatedFeeds(s, events, k);
    IsolatedClose(s, events, k);
    var alone := Isolated(s, events, k);
    var residue := FlushOne(s, alone.stream);
    if residue == "" {
      assert alone.outs + [] == alone.outs && Concat(alone.outs) + "" == Concat(alone.outs);
    } else {
      ConcatLast(alone.outs, residue);
    }
  }

  lemma IsolatedClose(s: Settings, events: seq<Event>, k: Key)
    requires EngineSound(s.engine)
    ensures
      var alone := Isolated(s, events, k);
      var residue := FlushOne(s, alone.stream);
      Isolated(s, events + [Close(All)], k).outs == alone.outs + if residue != "" then [residue] else []
  {
    hide EngineSound, FlushOne, FeedOne;
    assert (events + [Close(All)])[..|events|] == events;
  }

  /** With a scanner that admits it, each stream comes out as its whole text scanned at once. */
  lemma EachStreamScanned(s: Settings, find: Finder, events: seq<Event>, k: Key)
    requires Streamable(s, find, Concat(TextsAt(events, k))) && forall i :: 0 <= i < |events| ==> events[i].Text?
    ensures
      var text := Concat(TextsAt(events, k));
      && Fits(Greedy(find, text, 0), 0, |text|)
      && Concat(SentTo(k, Run(s, events + [Close(All)]).outs)) == Render(text, 0, Greedy(find, text, 0), s.placeholder)
  {
    hide *;
    StreamableHas(s, find, Concat(TextsAt(events, k)));
    EachStreamWhole(s, events, k);
    ChunksDoNotMatter(s, find, TextsAt(events, k));
  }

  // ------------------------------------------------------- a walk is a run of strings

  function Texts(leaves: seq<Leaf>): (events: seq<Event>)
    ensures |events| == |leaves|
  {
    seq(|leaves|, i requires 0 <= i < |leaves| => Text(leaves[i]))
  }

  lemma RunLast(s: Settings, events: seq<Event>, event: Event)
    requires EngineSound(s.engine)
    ensures
      var before := Run(s, events);
      var last := Happen(s, before.pool, event);
      Run(s, events + [event]) == Answers(before.outs + last.outs, last.pool)
  {
    hide Happen, EngineSound;
    assert (events + [event])[..|events|] == events;
  }

  lemma {:induction false} RunTexts(s: Settings, events: seq<Event>, leaves: seq<Leaf>)
    requires EngineSound(s.engine)
    ensures
      var before := Run(s, events);
      var said := SayAll(s, before.pool, leaves);
      Run(s, events + Texts(leaves)) == Answers(before.outs + said.outs, said.pool)
    decreases |leaves|
  {
    hide Run, Say, EngineSound;
    var before := Run(s, events);
    if leaves == [] {
      assert events + Texts(leaves) == events && before.outs + [] == before.outs;
    } else {
      var event := Text(leaves[0]);
      assert events + Texts(leaves) == (events + [event]) + Texts(leaves[1..]);
      RunLast(s, events, event);
      RunTexts(s, events + [event], leaves[1..]);
      var head := [Leaf(leaves[0].key, Say(s, before.pool, leaves[0]).out)];
      var rest := SayAll(s, Say(s, before.pool, leaves[0]).pool, leaves[1..]).outs;
      assert (before.outs + head) + rest == before.outs + (head + rest);
    }
  }

  /** A payload walk in the middle of a run: its redacted strings are what goes out for them. */
  lemma WalkIsARun(s: Settings, events: seq<Event>, payload: Json)
    requires EngineSound(s.engine)
    ensures
      var before := Run(s, events);
      var w := Walk(s, before.pool, payload, [], NoIndex);
      Run(s, events + Texts(Leaves(payload, [], NoIndex))) == Answers(before.outs + Leaves(w.node, [], NoIndex), w.pool)
  {
    hide Run, Walk, Leaves, SayAll, EngineSound;
    var before := Run(s, events);
    WalkAnswersLeaves(s, before.pool, payload, [], NoIndex);
    RunTexts(s, events, Leaves(payload, [], NoIndex));
  }
}
