/**
 What eviction can and cannot change: as long as no reading is overtaken by one it is invisible,
 whichever rows each batch takes; otherwise it shows exactly where the rows gone from a window carry
 tokens.
 */
module LedgerEviction {
  import opened Wrappers
  import opened MapSum
  import opened Ledger
  import opened LedgerRuns

  /** What the issuer of a statement learns from it. */
  datatype Answer = Decision(allowed: bool, usedInWindow: nat) | Usage(tokens: nat) | RowFound(found: bool) | Silent

  ghost function AnswerTo(cfg: Config, t: Table, s: Statement): Answer {
    match s
    case Reserve(_, tenant, tokens, now) =>
      var allowed := Admits(cfg, t, tenant, tokens, now);
      Decision(allowed, Used(t, tenant, now - cfg.window) + if allowed then tokens else 0)
    case Update(id, _) => RowFound(id in t)
    case Read(tenant, now) => Usage(Used(t, tenant, now - cfg.window))
    case _ => Silent
  }

  ghost function AnswerAt(cfg: Config, run: seq<Statement>, i: nat): Answer
    requires i < |run|
  {
    AnswerTo(cfg, TableAfter(cfg, run[..i]), run[i])
  }

  function KeepRows(s: Statement): Statement {
    match s case Evict(now, _) => Evict(now, {}) case _ => s
  }

  /** The same run on a ledger that never evicts anything. */
  function NeverEvicting(run: seq<Statement>): (kept: seq<Statement>)
    ensures |kept| == |run|
    ensures forall i :: 0 <= i < |run| ==> kept[i] == KeepRows(run[i])
  {
    if run == [] then [] else NeverEvicting(run[..|run| - 1]) + [KeepRows(run[|run| - 1])]
  }

  /** A write aimed only at rows both ledgers know, or neither does. */
  ghost predicate NotLate(cfg: Config, held: Table, kept: Table, s: Statement) {
    match s
    case Evict(now, batch) => Evictable(held, now - cfg.window, batch)
    case Reserve(id, _, _, _) => id !in kept
    case Update(id, _) => id in kept ==> id in held
    case Reinsert(id, _, _, _) => id in kept ==> id in held
    case _ => true
  }

  /** Ids never repeat, batches hold expired rows, and no write is aimed at an evicted row. */
  ghost predicate NoLateWrites(cfg: Config, run: seq<Statement>) {
    run != [] ==>
      var before := run[..|run| - 1];
      && NoLateWrites(cfg, before)
      && NotLate(cfg, TableAfter(cfg, before), TableAfter(cfg, NeverEvicting(before)), run[|run| - 1])
  }

  // ------------------------------------------------------- when an answer differs

  /** Every row of one table is in the other, unchanged. */
  ghost predicate Included(held: Table, kept: Table) {
    forall id :: id in held ==> id in kept && kept[id] == held[id]
  }

  /** The tokens of the rows missing from a window. */
  ghost function MissingTokens(held: Table, kept: Table, tenant: string, from: int): int {
    Sum(kept - held.Keys, Since(tenant, from))
  }

  lemma UsageDiffersBy(held: Table, kept: Table, tenant: string, from: int)
    requires Included(held, kept)
    ensures Used(kept, tenant, from) == Used(held, tenant, from) + MissingTokens(held, kept, tenant, from)
    ensures MissingTokens(held, kept, tenant, from) >= 0
  {
    Divide(kept, held.Keys, Since(tenant, from));
    assert Inside(kept, held.Keys) == held;
    NotNegative(kept - held.Keys, Since(tenant, from));
  }

  /** The window a statement asks about is missing no tokens. */
  ghost predicate AsksOfAll(cfg: Config, held: Table, kept: Table, s: Statement) {
    match s
    case Reserve(_, tenant, _, now) => MissingTokens(held, kept, tenant, now - cfg.window) == 0
    case Read(tenant, now) => MissingTokens(held, kept, tenant, now - cfg.window) == 0
    case _ => true
  }

  /** An admission or a reading differs exactly when the rows missing from its window carry tokens. */
  lemma SameAnswerExactly(cfg: Config, held: Table, kept: Table, s: Statement)
    requires Included(held, kept) && (s.Update? ==> (s.id in kept ==> s.id in held))
    ensures AnswerTo(cfg, held, s) == AnswerTo(cfg, kept, KeepRows(s)) <==> AsksOfAll(cfg, held, kept, s)
  {
    hide MissingTokens, Used;
    match s
    case Reserve(_, tenant, _, now) => UsageDiffersBy(held, kept, tenant, now - cfg.window);
    case Read(tenant, now) => UsageDiffersBy(held, kept, tenant, now - cfg.window);
    case _ =>
  }

  /** A statement that is answered alike by both ledgers leaves one included in the other. */
  lemma IncludedStep(cfg: Config, held: Table, kept: Table, s: Statement)
    requires Included(held, kept) && NotLate(cfg, held, kept, s)
    requires AnswerTo(cfg, held, s) == AnswerTo(cfg, kept, KeepRows(s))
    ensures Included(Exec(cfg, held, s), Exec(cfg, kept, KeepRows(s)))
  {
    hide Admits, Used, Evictable;
  }

  /** Every answer of the run so far is the one a ledger that never evicts would give. */
  ghost predicate AllAnswersAgree(cfg: Config, run: seq<Statement>) {
    forall i :: 0 <= i < |run| ==> AnswerAt(cfg, run, i) == AnswerAt(cfg, NeverEvicting(run), i)
  }

  /** No admission and no reading of the run misses tokens of its window. */
  ghost predicate NothingMissed(cfg: Config, run: seq<Statement>) {
    run != [] ==>
      var before := run[..|run| - 1];
      && NothingMissed(cfg, before)
      && AsksOfAll(cfg, TableAfter(cfg, before), TableAfter(cfg, NeverEvicting(before)), run[|run| - 1])
  }

  lemma EarlierAnswer(cfg: Config, run: seq<Statement>, i: nat)
    requires i < |run|
    ensures
      var before := run[..|run| - 1];
      AnswerAt(cfg, run, i) ==
        if i < |before| then AnswerAt(cfg, before, i) else AnswerTo(cfg, TableAfter(cfg, before), run[i])
  {
    hide AnswerTo, TableAfter;
    assert i < |run| - 1 ==> run[..|run| - 1][..i] == run[..i];
  }

  /** The answers of a run agree if those before its last statement do, and that one's does. */
  lemma AgreesUpToLast(cfg: Config, run: seq<Statement>)
    requires run != []
    ensures
      var before, s := run[..|run| - 1], run[|run| - 1];
      AllAnswersAgree(cfg, run) <==>
        && AllAnswersAgree(cfg, before)
        && AnswerTo(cfg, TableAfter(cfg, before), s)
             == AnswerTo(cfg, TableAfter(cfg, NeverEvicting(before)), KeepRows(s))
  {
    var before := run[..|run| - 1];
    assert NeverEvicting(run)[..|run| - 1] == NeverEvicting(before);
    hide AnswerTo, TableAfter, AnswerAt;
    forall i | 0 <= i < |run|
      ensures AnswerAt(cfg, run, i) == AnswerAt(cfg, NeverEvicting(run), i) <==>
        if i < |before| then AnswerAt(cfg, before, i) == AnswerAt(cfg, NeverEvicting(before), i)
        else AnswerTo(cfg, TableAfter(cfg, before), run[i])
             == AnswerTo(cfg, TableAfter(cfg, NeverEvicting(before)), KeepRows(run[i]))
    {
      EarlierAnswer(cfg, run, i);
      EarlierAnswer(cfg, NeverEvicting(run), i);
    }
  }

  lemma TablesAfterLast(cfg: Config, run: seq<Statement>)
    requires run != []
    ensures
      var before, s := run[..|run| - 1], run[|run| - 1];
      && TableAfter(cfg, run) == Exec(cfg, TableAfter(cfg, before), s)
      && TableAfter(cfg, NeverEvicting(run)) == Exec(cfg, TableAfter(cfg, NeverEvicting(before)), KeepRows(s))
  {
    hide Exec;
    assert NeverEvicting(run)[..|run| - 1] == NeverEvicting(run[..|run| - 1]);
  }

  lemma LastIsNotLate(cfg: Config, run: seq<Statement>)
    requires NoLateWrites(cfg, run) && run != []
    ensures
      var before, s := run[..|run| - 1], run[|run| - 1];
      var held, kept := TableAfter(cfg, before), TableAfter(cfg, NeverEvicting(before));
      NoLateWrites(cfg, before) && NotLate(cfg, held, kept, s) && (s.Update? ==> (s.id in kept ==> s.id in held))
  {
    hide TableAfter;
  }

  lemma NothingMissedUpToLast(cfg: Config, run: seq<Statement>)
    requires run != []
    ensures
      var before, s := run[..|run| - 1], run[|run| - 1];
      NothingMissed(cfg, run) <==>
        NothingMissed(cfg, before) && AsksOfAll(cfg, TableAfter(cfg, before), TableAfter(cfg, NeverEvicting(before)), s)
  {
    hide TableAfter, AsksOfAll;
  }

  lemma NothingAsked(cfg: Config)
    ensures AllAnswersAgree(cfg, []) && NothingMissed(cfg, [])
    ensures Included(TableAfter(cfg, []), TableAfter(cfg, NeverEvicting([])))
  {
  }

  /**
   Eviction transparency, exactly. In a run without late writes every admission decision, every
   `used_in_window` and every usage reading is that of a ledger that never evicts, if and only if the
   rows missing from each window asked about carry no tokens.
   */
  lemma {:induction false} TransparentExactly(cfg: Config, run: seq<Statement>)
    requires NoLateWrites(cfg, run)
    ensures AllAnswersAgree(cfg, run) <==> NothingMissed(cfg, run)
    ensures AllAnswersAgree(cfg, run) ==> Included(TableAfter(cfg, run), TableAfter(cfg, NeverEvicting(run)))
  {
    hide *;
    if run == [] {
      NothingAsked(cfg);
    } else {
      var before, s := run[..|run| - 1], run[|run| - 1];
      LastIsNotLate(cfg, run);
      TransparentExactly(cfg, before);
      AgreesUpToLast(cfg, run);
      NothingMissedUpToLast(cfg, run);
      TablesAfterLast(cfg, run);
      if AllAnswersAgree(cfg, before) {
        var held, kept := TableAfter(cfg, before), TableAfter(cfg, NeverEvicting(before));
        SameAnswerExactly(cfg, held, kept, s);
        if AllAnswersAgree(cfg, run) {
          IncludedStep(cfg, held, kept, s);
        }
      }
    }
  }

  // --------------------------------------------------- when nothing can be missing

  /** No admission and no reading uses a clock reading that an eviction has overtaken. */
  predicate NoAskerOvertaken(run: seq<Statement>) {
    run != [] ==>
      && NoAskerOvertaken(run[..|run| - 1])
      && var s := run[|run| - 1];
         s.Reserve? || s.Read? ==> NoNewerEviction(run[..|run| - 1], s.now)
  }

  /** The evicting ledger is the other one with some rows missing, all older than the newest eviction's window. */
  ghost predicate MissingBehind(cfg: Config, held: Table, kept: Table, newest: Option<int>) {
    && Included(held, kept)
    && forall id :: id in kept && id !in held ==> newest.Some? && kept[id].created < newest.value - cfg.window
  }

  lemma NoneMissing(cfg: Config, held: Table, kept: Table, newest: Option<int>, s: Statement)
    requires MissingBehind(cfg, held, kept, newest)
    requires (s.Reserve? || s.Read?) && newest.Some? ==> newest.value <= s.now
    ensures AsksOfAll(cfg, held, kept, s)
  {
    if s.Reserve? || s.Read? {
      Zero(kept - held.Keys, Since(s.tenant, s.now - cfg.window));
    }
  }

  lemma MissingStep(cfg: Config, held: Table, kept: Table, newest: Option<int>, s: Statement)
    requires MissingBehind(cfg, held, kept, newest) && NotLate(cfg, held, kept, s)
    requires AnswerTo(cfg, held, s) == AnswerTo(cfg, kept, KeepRows(s))
    ensures
      var newer := if s.Evict? && (newest.None? || newest.value < s.now) then Some(s.now) else newest;
      MissingBehind(cfg, Exec(cfg, held, s), Exec(cfg, kept, KeepRows(s)), newer)
  {
    hide Admits, Used;
  }

  lemma LastIsNotOvertaken(run: seq<Statement>)
    requires NoAskerOvertaken(run) && run != []
    ensures
      var before, s := run[..|run| - 1], run[|run| - 1];
      var newest := NewestEviction(before);
      && NoAskerOvertaken(before) && ((s.Reserve? || s.Read?) && newest.Some? ==> newest.value <= s.now)
      && NewestEviction(run) == if s.Evict? && (newest.None? || newest.value < s.now) then Some(s.now) else newest
  {
  }

  lemma NothingMissing(cfg: Config)
    ensures MissingBehind(cfg, TableAfter(cfg, []), TableAfter(cfg, NeverEvicting([])), NewestEviction([]))
  {
  }

  lemma {:induction false} NothingIsMissed(cfg: Config, run: seq<Statement>)
    requires NoLateWrites(cfg, run) && NoAskerOvertaken(run)
    ensures NothingMissed(cfg, run)
    ensures MissingBehind(cfg, TableAfter(cfg, run), TableAfter(cfg, NeverEvicting(run)), NewestEviction(run))
  {
    hide *;
    if run == [] {
      NothingAsked(cfg);
      NothingMissing(cfg);
    } else {
      var before, s := run[..|run| - 1], run[|run| - 1];
      var held, kept, newest := TableAfter(cfg, before), TableAfter(cfg, NeverEvicting(before)), NewestEviction(before);
      LastIsNotLate(cfg, run);
      LastIsNotOvertaken(run);
      NothingIsMissed(cfg, before);
      NoneMissing(cfg, held, kept, newest, s);
      NothingMissedUpToLast(cfg, run);
      TablesAfterLast(cfg, run);
      BehindIsIncluded(cfg, held, kept, newest);
      SameAnswerExactly(cfg, held, kept, s);
      MissingStep(cfg, held, kept, newest, s);
    }
  }

  lemma BehindIsIncluded(cfg: Config, held: Table, kept: Table, newest: Option<int>)
    requires MissingBehind(cfg, held, kept, newest)
    ensures Included(held, kept)
  {
  }

  /**
   Eviction transparency. With no late write and no reading overtaken by an eviction, every admission
   decision, every `used_in_window` and every usage reading is that of a ledger that never evicts.
   */
  lemma EvictionIsTransparent(cfg: Config, run: seq<Statement>, i: nat)
    requires NoLateWrites(cfg, run) && NoAskerOvertaken(run) && i < |run|
    ensures AnswerAt(cfg, run, i) == AnswerAt(cfg, NeverEvicting(run), i)
  {
    NothingIsMissed(cfg, run);
    TransparentExactly(cfg, run);
    hide AnswerAt, NothingMissed, NoLateWrites, NoAskerOvertaken;
  }

  /** So two runs that differ only in what their batches took are told the same things. */
  lemma BatchChoiceIsInvisible(cfg: Config, run: seq<Statement>, other: seq<Statement>, i: nat)
    requires NoLateWrites(cfg, run) && NoLateWrites(cfg, other) && NoAskerOvertaken(run)
    requires NeverEvicting(run) == NeverEvicting(other) && i < |run|
    ensures i < |other| && AnswerAt(cfg, run, i) == AnswerAt(cfg, other, i)
  {
    assert |run| == |NeverEvicting(run)| == |NeverEvicting(other)| == |other|;
    SameReadings(run, other);
    EvictionIsTransparent(cfg, run, i);
    EvictionIsTransparent(cfg, other, i);
  }

  lemma {:induction false} SameReadings(run: seq<Statement>, other: seq<Statement>)
    requires NeverEvicting(run) == NeverEvicting(other) && NoAskerOvertaken(run)
    ensures NoAskerOvertaken(other) && NewestEviction(other) == NewestEviction(run)
    decreases |run|
  {
    assert |run| == |NeverEvicting(run)| == |NeverEvicting(other)| == |other|;
    if run != [] {
      var last := |run| - 1;
      assert KeepRows(run[last]) == NeverEvicting(run)[last] == KeepRows(other[last]);
      assert NeverEvicting(run[..last]) == NeverEvicting(run)[..last];
      assert NeverEvicting(other[..last]) == NeverEvicting(other)[..last];
      SameReadings(run[..last], other[..last]);
    }
  }
}
