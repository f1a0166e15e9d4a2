/**
 Whole runs of the ledger: any interleaving of any requests' statements, in commit order.

 `History` remembers what the table forgets, so that spend can be counted after its rows are gone.
 Nothing the ledger decides reads it: `ErasesToTable` says that the table is its surviving part.
 */
module LedgerRuns {
  import opened Wrappers
  import opened MapSum
  import opened Ledger

  /** A row, and how many of its tokens were let in by an admission check and are still held. */
  datatype Entry = Entry(row: Row, admitted: nat)
  datatype History = History(live: map<Id, Entry>, gone: seq<map<Id, Entry>>)

  ghost function ExecHistory(cfg: Config, h: History, s: Statement): History {
    match s
    case Evict(_, batch) => History(h.live - batch, h.gone + [Inside(h.live, batch)])
    case Reserve(id, tenant, tokens, now) =>
      if Admits(cfg, Erase(h.live), tenant, tokens, now)
      then h.(live := h.live[id := Entry(Row(tenant, now, tokens, false), tokens)]) else h
    case Update(id, tokens) =>
      if id in h.live
      then
        var e := h.live[id];
        h.(live := h.live[id := Entry(e.row.(tokens := tokens, settled := true),
                                      if tokens < e.admitted then tokens else e.admitted)])
      else h
    case Reinsert(id, tenant, tokens, now) =>
      h.(live := h.live[id := Entry(Row(tenant, now, tokens, true), 0)])
    case Delete(id) => h.(live := h.live - {id})
    case Read(_, _) => h
  }

  ghost function Erase(live: map<Id, Entry>): Table {
    map id | id in live :: live[id].row
  }

  ghost function Replay(cfg: Config, run: seq<Statement>): History {
    if run == [] then History(map[], [])
    else ExecHistory(cfg, Replay(cfg, run[..|run| - 1]), run[|run| - 1])
  }

  ghost function TableAfter(cfg: Config, run: seq<Statement>): Table {
    if run == [] then map[] else Exec(cfg, TableAfter(cfg, run[..|run| - 1]), run[|run| - 1])
  }

  lemma EraseExec(cfg: Config, h: History, s: Statement)
    ensures Erase(ExecHistory(cfg, h, s).live) == Exec(cfg, Erase(h.live), s)
  {
    hide Admits;
    assert Erase(ExecHistory(cfg, h, s).live).Keys == Exec(cfg, Erase(h.live), s).Keys;
  }

  lemma {:induction false} ErasesToTable(cfg: Config, run: seq<Statement>)
    ensures Erase(Replay(cfg, run).live) == TableAfter(cfg, run)
  {
    if run != [] {
      ErasesToTable(cfg, run[..|run| - 1]);
      EraseExec(cfg, Replay(cfg, run[..|run| - 1]), run[|run| - 1]);
    }
  }

  // ------------------------------------------------------- which runs are meant

  /** The newest clock reading an eviction of the run was issued with. */
  function NewestEviction(run: seq<Statement>): Option<int> {
    if run == [] then None
    else
      var before, s := NewestEviction(run[..|run| - 1]), run[|run| - 1];
      if s.Evict? && (before.None? || before.value < s.now) then Some(s.now) else before
  }

  /** A clock reading no eviction has overtaken: each was issued with this one or an older one. */
  predicate NoNewerEviction(run: seq<Statement>, now: int) {
    NewestEviction(run).Some? ==> NewestEviction(run).value <= now
  }

  /** A statement the limiter could issue next: a fresh id, an eviction batch of expired rows. */
  ghost predicate Issuable(cfg: Config, h: History, s: Statement) {
    match s
    case Evict(now, batch) => Evictable(Erase(h.live), now - cfg.window, batch)
    case Reserve(id, _, _, _) => id !in h.live
    case _ => true
  }

  ghost predicate Legal(cfg: Config, run: seq<Statement>) {
    run != [] ==>
      && Legal(cfg, run[..|run| - 1])
      && Issuable(cfg, Replay(cfg, run[..|run| - 1]), run[|run| - 1])
  }

  lemma OneMore(cfg: Config, run: seq<Statement>, s: Statement)
    requires Legal(cfg, run) && Issuable(cfg, Replay(cfg, run), s)
    ensures Legal(cfg, run + [s]) && Replay(cfg, run + [s]) == ExecHistory(cfg, Replay(cfg, run), s)
  {
    hide ExecHistory, Issuable;
    assert (run + [s])[..|run|] == run;
  }

  /**
   No admission is decided on a reading that an eviction has overtaken. Otherwise statements may commit
   in any order: admissions, settles, releases and readings out of clock order are all allowed.
   */
  predicate NotOvertaken(run: seq<Statement>) {
    run != [] ==>
      && NotOvertaken(run[..|run| - 1])
      && (run[|run| - 1].Reserve? ==> NoNewerEviction(run[..|run| - 1], run[|run| - 1].now))
  }

  // ------------------------------------------------------------------ spending

  function SpentIn(tenant: string, lo: int, hi: int): Entry -> int {
    (e: Entry) => if e.row.tenant == tenant && lo <= e.row.created <= hi then e.row.tokens else 0
  }

  function AdmittedIn(tenant: string, lo: int, hi: int): Entry -> int {
    (e: Entry) => if e.row.tenant == tenant && lo <= e.row.created <= hi then e.admitted else 0
  }

  /** Tokens recorded beyond what admission let in: settle excesses, and late charges in full. */
  function OverrunIn(tenant: string, lo: int, hi: int): Entry -> int {
    (e: Entry) => if e.row.tenant == tenant && lo <= e.row.created <= hi then e.row.tokens - e.admitted else 0
  }

  ghost function SumGone(gone: seq<map<Id, Entry>>, weight: Entry -> int): int {
    if gone == [] then 0 else SumGone(gone[..|gone| - 1], weight) + Sum(gone[|gone| - 1], weight)
  }

  /** Over everything ever recorded and not released, evicted or not. */
  ghost function Total(h: History, weight: Entry -> int): int {
    Sum(h.live, weight) + SumGone(h.gone, weight)
  }

  lemma {:induction false} GoneZero(gone: seq<map<Id, Entry>>, weight: Entry -> int)
    requires forall k, id :: 0 <= k < |gone| && id in gone[k] ==> weight(gone[k][id]) == 0
    ensures SumGone(gone, weight) == 0
  {
    if gone != [] {
      var last := gone[|gone| - 1];
      assert forall id :: id in last ==> weight(last[id]) == 0;
      Zero(last, weight);
      GoneZero(gone[..|gone| - 1], weight);
    }
  }

  lemma {:induction false} GoneAdditive(gone: seq<map<Id, Entry>>, tenant: string, lo: int, hi: int)
    ensures SumGone(gone, SpentIn(tenant, lo, hi)) ==
            SumGone(gone, AdmittedIn(tenant, lo, hi)) + SumGone(gone, OverrunIn(tenant, lo, hi))
  {
    if gone != [] {
      GoneAdditive(gone[..|gone| - 1], tenant, lo, hi);
      Additive(gone[|gone| - 1], SpentIn(tenant, lo, hi), AdmittedIn(tenant, lo, hi), OverrunIn(tenant, lo, hi));
    }
  }

  lemma EvictionMoves(h: History, batch: set<Id>, weight: Entry -> int)
    ensures Total(History(h.live - batch, h.gone + [Inside(h.live, batch)]), weight) == Total(h, weight)
  {
    Divide(h.live, batch, weight);
    GoneAppend(h.gone, Inside(h.live, batch), weight);
  }

  lemma GoneAppend(gone: seq<map<Id, Entry>>, batch: map<Id, Entry>, weight: Entry -> int)
    ensures SumGone(gone + [batch], weight) == SumGone(gone, weight) + Sum(batch, weight)
  {
    hide Sum;
    assert (gone + [batch])[..|gone|] == gone;
  }

  // ----------------------------------------------------------- window safety

  /** No row holds more admitted tokens than it has. */
  ghost predicate AdmittedFits(h: History) {
    forall id :: id in h.live ==> h.live[id].admitted <= h.live[id].row.tokens
  }

  /** Every evicted row is older than the window of the newest eviction. */
  ghost predicate GoneBehind(cfg: Config, h: History, newest: Option<int>) {
    forall k, id :: 0 <= k < |h.gone| && id in h.gone[k] ==>
      newest.Some? && h.gone[k][id].row.created < newest.value - cfg.window
  }

  /** What a later window still counts of the history is no more than what the table shows. */
  lemma WindowIsVisible(cfg: Config, h: History, newest: Option<int>, tenant: string, now: int, t: int)
    requires AdmittedFits(h) && GoneBehind(cfg, h, newest) && (newest.Some? ==> newest.value <= now) && t >= now
    ensures Total(h, AdmittedIn(tenant, t - cfg.window, t)) <= Used(Erase(h.live), tenant, now - cfg.window)
  {
    var w := AdmittedIn(tenant, t - cfg.window, t);
    GoneZero(h.gone, w);
    EraseSum(h.live, tenant, now - cfg.window, w);
  }

  lemma {:induction false} EraseSum(live: map<Id, Entry>, tenant: string, from: int, weight: Entry -> int)
    requires forall id :: id in live ==> weight(live[id]) <= Since(tenant, from)(live[id].row)
    ensures Sum(live, weight) <= Sum(Erase(live), Since(tenant, from))
    ensures (forall id :: id in live ==> weight(live[id]) == Since(tenant, from)(live[id].row)) ==>
              Sum(live, weight) == Sum(Erase(live), Since(tenant, from))
    decreases |live|
  {
    if live != map[] {
      var id :| id in live;
      Smaller(live, id);
      Remove(live, id, weight);
      Remove(Erase(live), id, Since(tenant, from));
      assert Erase(live) - {id} == Erase(live - {id});
      EraseSum(live - {id}, tenant, from, weight);
    }
  }

  lemma AdmissionStep(cfg: Config, h: History, s: Statement, newest: Option<int>, tenant: string, t: int)
    requires AdmittedFits(h) && GoneBehind(cfg, h, newest) && Issuable(cfg, h, s)
    requires s.Reserve? && newest.Some? ==> newest.value <= s.now
    requires Total(h, AdmittedIn(tenant, t - cfg.window, t)) <= cfg.limit
    ensures Total(ExecHistory(cfg, h, s), AdmittedIn(tenant, t - cfg.window, t)) <= cfg.limit
  {
    var h', w := ExecHistory(cfg, h, s), AdmittedIn(tenant, t - cfg.window, t);
    hide Sum, SumGone, Evictable, GoneBehind, Admits;
    match s
    case Evict(_, batch) => EvictionMoves(h, batch, w);
    case Reserve(id, owner, tokens, now) =>
      if Admits(cfg, Erase(h.live), owner, tokens, now) {
        Put(h.live, id, Entry(Row(owner, now, tokens, false), tokens), w);
        if owner == tenant && t - cfg.window <= now <= t {
          WindowIsVisible(cfg, h, newest, tenant, now, t);
          AdmittedRoom(cfg, Erase(h.live), tenant, tokens, now);
        }
      }
    case Update(id, tokens) =>
      if id in h.live {
        Put(h.live, id, h'.live[id], w);
      }
    case Reinsert(id, owner, tokens, now) =>
      Put(h.live, id, Entry(Row(owner, now, tokens, true), 0), w);
    case Delete(id) => Drop(h.live, id, w);
    case Read(_, _) =>
  }

  lemma AdmittedRoom(cfg: Config, t: Table, tenant: string, tokens: nat, now: int)
    requires Admits(cfg, t, tenant, tokens, now)
    ensures Used(t, tenant, now - cfg.window) + tokens <= cfg.limit
  {
  }

  lemma {:induction false} GoneStaysBehind(cfg: Config, run: seq<Statement>)
    requires Legal(cfg, run)
    ensures AdmittedFits(Replay(cfg, run)) && GoneBehind(cfg, Replay(cfg, run), NewestEviction(run))
  {
    if run != [] {
      GoneStaysBehind(cfg, run[..|run| - 1]);
    }
  }

  lemma {:induction false} AdmissionHolds(cfg: Config, run: seq<Statement>, tenant: string, t: int)
    requires Legal(cfg, run) && NotOvertaken(run)
    ensures Total(Replay(cfg, run), AdmittedIn(tenant, t - cfg.window, t)) <= cfg.limit
  {
    if run != [] {
      var before := run[..|run| - 1];
      GoneStaysBehind(cfg, before);
      AdmissionHolds(cfg, before, tenant, t);
      AdmissionStep(cfg, Replay(cfg, before), run[|run| - 1], NewestEviction(before), tenant, t);
    }
  }

  // ------------------------------------------------------------------ overruns

  /** Tokens a settle records beyond what its row held, for a row counted by `[lo, hi]`. */
  function SettleExcess(t: Table, id: Id, tokens: nat, tenant: string, lo: int, hi: int): nat {
    if id in t && t[id].tenant == tenant && lo <= t[id].created <= hi && tokens > t[id].tokens
    then tokens - t[id].tokens else 0
  }

  /** What one statement records beyond a hold: a settle's excess, or a whole charge re-recorded after an eviction. */
  function Excess(t: Table, s: Statement, tenant: string, lo: int, hi: int): nat {
    match s
    case Update(id, tokens) => SettleExcess(t, id, tokens, tenant, lo, hi)
    case Reinsert(_, owner, tokens, now) => if owner == tenant && lo <= now <= hi then tokens else 0
    case _ => 0
  }

  /** The same over a whole run, read off its statements and the table they meet. */
  ghost function Overrun(cfg: Config, run: seq<Statement>, tenant: string, lo: int, hi: int): nat {
    if run == [] then 0
    else
      Overrun(cfg, run[..|run| - 1], tenant, lo, hi)
      + Excess(TableAfter(cfg, run[..|run| - 1]), run[|run| - 1], tenant, lo, hi)
  }

  /** A row is settled or released while it is still a hold, and re-recorded only when it is gone. */
  predicate Once(t: Table, s: Statement) {
    match s
    case Update(id, _) => id in t ==> !t[id].settled
    case Delete(id) => id in t ==> !t[id].settled
    case Reinsert(id, _, _, _) => id !in t
    case _ => true
  }

  ghost predicate SettledOnce(cfg: Config, run: seq<Statement>) {
    run != [] ==> SettledOnce(cfg, run[..|run| - 1]) && Once(TableAfter(cfg, run[..|run| - 1]), run[|run| - 1])
  }

  /** Until it is settled, a row holds just what admission let in. */
  ghost predicate HeldAsAdmitted(h: History) {
    forall id :: id in h.live && !h.live[id].row.settled ==> h.live[id].admitted == h.live[id].row.tokens
  }

  lemma {:induction false} HoldsAsAdmitted(cfg: Config, run: seq<Statement>)
    requires Legal(cfg, run)
    ensures HeldAsAdmitted(Replay(cfg, run)) && AdmittedFits(Replay(cfg, run))
  {
    if run != [] {
      HoldsAsAdmitted(cfg, run[..|run| - 1]);
    }
  }

  lemma OverrunStep(cfg: Config, h: History, s: Statement, tenant: string, lo: int, hi: int)
    requires AdmittedFits(h) && HeldAsAdmitted(h) && Issuable(cfg, h, s)
    ensures
      var w := OverrunIn(tenant, lo, hi);
      var before, after := Total(h, w), Total(ExecHistory(cfg, h, s), w);
      && after <= before + Excess(Erase(h.live), s, tenant, lo, hi)
      && (Once(Erase(h.live), s) ==> after == before + Excess(Erase(h.live), s, tenant, lo, hi))
  {
    var h', w := ExecHistory(cfg, h, s), OverrunIn(tenant, lo, hi);
    hide Sum, SumGone, Evictable, Admits;
    match s
    case Evict(_, batch) => EvictionMoves(h, batch, w);
    case Reserve(id, owner, tokens, now) =>
      Put(h.live, id, Entry(Row(owner, now, tokens, false), tokens), w);
    case Update(id, tokens) =>
      if id in h.live {
        Put(h.live, id, h'.live[id], w);
      }
    case Reinsert(id, owner, tokens, now) =>
      Put(h.live, id, Entry(Row(owner, now, tokens, true), 0), w);
    case Delete(id) => Drop(h.live, id, w);
    case Read(_, _) =>
  }

  /** What lies beyond admission in a window is at most the statements' overruns, and just that if rows settle once. */
  lemma {:induction false} OverrunIsRecorded(cfg: Config, run: seq<Statement>, tenant: string, lo: int, hi: int)
    requires Legal(cfg, run)
    ensures
      var beyond := Total(Replay(cfg, run), OverrunIn(tenant, lo, hi));
      && beyond <= Overrun(cfg, run, tenant, lo, hi)
      && (SettledOnce(cfg, run) ==> beyond == Overrun(cfg, run, tenant, lo, hi))
  {
    if run != [] {
      var before, s := run[..|run| - 1], run[|run| - 1];
      hide Total, Excess, Once, ExecHistory, AdmittedFits, HeldAsAdmitted, Issuable, TableAfter, Erase;
      OverrunIsRecorded(cfg, before, tenant, lo, hi);
      HoldsAsAdmitted(cfg, before);
      ErasesToTable(cfg, before);
      OverrunStep(cfg, Replay(cfg, before), s, tenant, lo, hi);
    }
  }

  /**
   The overrun bound. In every run none of whose admissions was overtaken by an eviction, for every
   tenant and every instant, the tokens stamped in the trailing window, evicted rows included, are at
   most the limit plus the settle excesses and the late re-recorded charges of that window.
   */
  lemma OverrunBound(cfg: Config, run: seq<Statement>, tenant: string, t: int)
    requires Legal(cfg, run) && NotOvertaken(run)
    ensures Total(Replay(cfg, run), SpentIn(tenant, t - cfg.window, t))
         <= cfg.limit + Overrun(cfg, run, tenant, t - cfg.window, t)
  {
    hide *;
    AdmissionHolds(cfg, run, tenant, t);
    OverrunIsRecorded(cfg, run, tenant, t - cfg.window, t);
    SpentSplits(Replay(cfg, run), tenant, t - cfg.window, t);
  }

  lemma SpentSplits(h: History, tenant: string, lo: int, hi: int)
    ensures Total(h, SpentIn(tenant, lo, hi))
         == Total(h, AdmittedIn(tenant, lo, hi)) + Total(h, OverrunIn(tenant, lo, hi))
  {
    GoneAdditive(h.gone, tenant, lo, hi);
    Additive(h.live, SpentIn(tenant, lo, hi), AdmittedIn(tenant, lo, hi), OverrunIn(tenant, lo, hi));
  }

  /** No settle exceeds what its row holds, and none finds its row evicted. */
  ghost predicate WithinHolds(cfg: Config, run: seq<Statement>) {
    run != [] ==>
      && WithinHolds(cfg, run[..|run| - 1])
      && var t := TableAfter(cfg, run[..|run| - 1]);
         match run[|run| - 1] {
           case Update(id, tokens) => id in t ==> tokens <= t[id].tokens
           case Reinsert(_, _, _, _) => false
           case _ => true
         }
  }

  lemma {:induction false} NoOverrun(cfg: Config, run: seq<Statement>, tenant: string, lo: int, hi: int)
    requires WithinHolds(cfg, run)
    ensures Overrun(cfg, run, tenant, lo, hi) == 0
  {
    if run != [] {
      NoOverrun(cfg, run[..|run| - 1], tenant, lo, hi);
    }
  }

  /**
   Sliding-window safety over whole runs: with no admission overtaken by an eviction, settles within
   their holds and none after an eviction, no window of any tenant ever holds more than the limit.
   */
  lemma WindowSafety(cfg: Config, run: seq<Statement>, tenant: string, t: int)
    requires Legal(cfg, run) && NotOvertaken(run) && WithinHolds(cfg, run)
    ensures Total(Replay(cfg, run), SpentIn(tenant, t - cfg.window, t)) <= cfg.limit
  {
    OverrunBound(cfg, run, tenant, t);
    NoOverrun(cfg, run, tenant, t - cfg.window, t);
  }

  // ------------------------------------------------------------------ tightness

  /** What evictions hide from a reading at `now`: evicted tokens its window still covers. */
  ghost function Hidden(cfg: Config, h: History, tenant: string, now: int): int {
    SumGone(h.gone, SpentIn(tenant, now - cfg.window, now))
  }

  /** Tokens a reading sees although their rows are stamped after it: they lie outside the window it is taken for. */
  function LaterThan(tenant: string, now: int): Entry -> int {
    (e: Entry) => if e.row.tenant == tenant && e.row.created > now then e.row.tokens else 0
  }

  ghost function Later(h: History, tenant: string, now: int): int {
    Sum(h.live, LaterThan(tenant, now))
  }

  /** What a reading sees is what its window holds and what is stamped later. */
  lemma SeenSplits(cfg: Config, h: History, tenant: string, now: int)
    ensures Used(Erase(h.live), tenant, now - cfg.window)
         == Sum(h.live, SpentIn(tenant, now - cfg.window, now)) + Later(h, tenant, now)
  {
    var from := now - cfg.window;
    var seen := (e: Entry) => Since(tenant, from)(e.row);
    EraseSum(h.live, tenant, from, seen);
    Additive(h.live, seen, SpentIn(tenant, from, now), LaterThan(tenant, now));
  }

  /**
   After an admission the window holds what was seen, what was let in, and what evictions had hidden,
   less what was seen of later rows.
   */
  lemma AdmissionCounts(cfg: Config, h: History, id: Id, tenant: string, tokens: nat, now: int)
    requires id !in h.live && Admits(cfg, Erase(h.live), tenant, tokens, now)
    ensures Total(ExecHistory(cfg, h, Reserve(id, tenant, tokens, now)), SpentIn(tenant, now - cfg.window, now))
         == Used(Erase(h.live), tenant, now - cfg.window) - Later(h, tenant, now) + tokens + Hidden(cfg, h, tenant, now)
  {
    hide Sum, SumGone, Later, Admits, Erase;
    var w := SpentIn(tenant, now - cfg.window, now);
    Put(h.live, id, Entry(Row(tenant, now, tokens, false), tokens), w);
    SeenSplits(cfg, h, tenant, now);
  }

  /**
   The condition is exact, whatever the table holds: every request that is admitted leaves the window
   within the limit if and only if none is admitted, or evictions hide no more from the reading than it
   sees of rows stamped after it.
   */
  lemma AdmissionSafeExactly(cfg: Config, h: History, id: Id, tenant: string, now: int)
    requires id !in h.live
    ensures
      (forall tokens: nat :: Admits(cfg, Erase(h.live), tenant, tokens, now) ==>
         Total(ExecHistory(cfg, h, Reserve(id, tenant, tokens, now)), SpentIn(tenant, now - cfg.window, now))
           <= cfg.limit)
      <==>
      Used(Erase(h.live), tenant, now - cfg.window) > cfg.limit
      || Hidden(cfg, h, tenant, now) <= Later(h, tenant, now)
  {
    hide Total, ExecHistory, Hidden, Erase, Later;
    forall tokens: nat | Admits(cfg, Erase(h.live), tenant, tokens, now)
      ensures Total(ExecHistory(cfg, h, Reserve(id, tenant, tokens, now)), SpentIn(tenant, now - cfg.window, now))
           == Used(Erase(h.live), tenant, now - cfg.window)
              - Later(h, tenant, now) + tokens + Hidden(cfg, h, tenant, now)
    {
      AdmissionCounts(cfg, h, id, tenant, tokens, now);
    }
    if Used(Erase(h.live), tenant, now - cfg.window) <= cfg.limit {
      var room: nat := cfg.limit - Used(Erase(h.live), tenant, now - cfg.window);
      assert Admits(cfg, Erase(h.live), tenant, room, now);
    }
  }

  /** In a legal run only an eviction that overtook the reading can have hidden anything from it. */
  lemma OnlyOvertakingHides(cfg: Config, run: seq<Statement>, tenant: string, now: int)
    requires Legal(cfg, run) && NoNewerEviction(run, now)
    ensures Hidden(cfg, Replay(cfg, run), tenant, now) == 0
  {
    hide *;
    GoneStaysBehind(cfg, run);
    NotOvertakenBy(run, now);
    NothingHidden(cfg, Replay(cfg, run), NewestEviction(run), tenant, now);
  }

  lemma NotOvertakenBy(run: seq<Statement>, now: int)
    requires NoNewerEviction(run, now)
    ensures NewestEviction(run).Some? ==> NewestEviction(run).value <= now
  {
  }

  lemma NothingHidden(cfg: Config, h: History, newest: Option<int>, tenant: string, now: int)
    requires GoneBehind(cfg, h, newest) && (newest.Some? ==> newest.value <= now)
    ensures Hidden(cfg, h, tenant, now) == 0
  {
    GoneZero(h.gone, SpentIn(tenant, now - cfg.window, now));
  }

  // ------------------------------------------------------------------ waiting

  /**
   A statement that writes no row of a tenant: it may belong to any other tenant, and may be an eviction
   whose reading is no later than `instant`, of whichever batch of expired rows.
   */
  ghost predicate Spares(cfg: Config, t: Table, s: Statement, tenant: string, instant: int) {
    match s
    case Evict(now, batch) => Evictable(t, now - cfg.window, batch) && now <= instant
    case Reserve(id, owner, tokens, now) => id !in t && (owner == tenant ==> !Admits(cfg, t, owner, tokens, now))
    case Update(id, _) => id in t ==> t[id].tenant != tenant
    case Reinsert(id, owner, _, _) => owner != tenant && (id in t ==> t[id].tenant != tenant)
    case Delete(id) => id in t ==> t[id].tenant != tenant
    case Read(_, _) => true
  }

  ghost function TableFrom(cfg: Config, t: Table, run: seq<Statement>): Table {
    if run == [] then t else Exec(cfg, TableFrom(cfg, t, run[..|run| - 1]), run[|run| - 1])
  }

  ghost predicate SparesAll(cfg: Config, t: Table, run: seq<Statement>, tenant: string, instant: int) {
    run != [] ==>
      && SparesAll(cfg, t, run[..|run| - 1], tenant, instant)
      && Spares(cfg, TableFrom(cfg, t, run[..|run| - 1]), run[|run| - 1], tenant, instant)
  }

  lemma SparedStep(cfg: Config, t: Table, s: Statement, tenant: string, instant: int)
    requires Spares(cfg, t, s, tenant, instant)
    ensures Used(Exec(cfg, t, s), tenant, instant - cfg.window) == Used(t, tenant, instant - cfg.window)
  {
    var w := Since(tenant, instant - cfg.window);
    hide Sum, Admits;
    match s
    case Evict(_, batch) =>
      Divide(t, batch, w);
      Zero(Inside(t, batch), w);
    case Reserve(id, owner, tokens, now) => Put(t, id, Row(owner, now, tokens, false), w);
    case Update(id, tokens) =>
      if id in t {
        Put(t, id, t[id].(tokens := tokens, settled := true), w);
      }
    case Reinsert(id, owner, tokens, now) => Put(t, id, Row(owner, now, tokens, true), w);
    case Delete(id) => Drop(t, id, w);
    case Read(_, _) =>
  }

  lemma {:induction false} SparedRun(cfg: Config, t: Table, run: seq<Statement>, tenant: string, instant: int)
    requires SparesAll(cfg, t, run, tenant, instant)
    ensures Used(TableFrom(cfg, t, run), tenant, instant - cfg.window) == Used(t, tenant, instant - cfg.window)
  {
    hide Used, Exec, Spares;
    if run != [] {
      SparedRun(cfg, t, run[..|run| - 1], tenant, instant);
      SparedStep(cfg, TableFrom(cfg, t, run[..|run| - 1]), run[|run| - 1], tenant, instant);
    }
  }

  /**
   The retry hint over runs. After a refusal, let any statements of other tenants and any evictions no
   later than the instant come between: the request is then admitted exactly if the instant is after the
   stamp of the first covering row plus the window.
   */
  lemma RetryHintOverRuns(cfg: Config, t: Table, run: seq<Statement>, tenant: string, tokens: nat, now: int, c: int,
      instant: int)
    requires !Admits(cfg, t, tenant, tokens, now) && tokens <= cfg.limit && instant >= now
    requires FirstCover(t, tenant, now - cfg.window, Used(t, tenant, now - cfg.window) + tokens - cfg.limit, c)
    requires SparesAll(cfg, t, run, tenant, instant)
    ensures Admits(cfg, TableFrom(cfg, t, run), tenant, tokens, instant) <==> instant > c + cfg.window
  {
    hide Used, FirstCover, SparesAll, TableFrom;
    SparedRun(cfg, t, run, tenant, instant);
    ExactRetryHint(cfg, t, tenant, tokens, now, c, instant);
  }
}
