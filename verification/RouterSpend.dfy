/** What the ledger holds in every reachable state of the protocol: exactly what requests were charged. */
module RouterSpend {
  import opened MapSum
  import opened Ledger
  import opened LedgerRuns
  import opened Router

  function SettledOf(tenant: string): Row -> int {
    (r: Row) => if r.tenant == tenant && r.settled then r.tokens else 0
  }

  ghost function SumTables(tables: seq<Table>, weight: Row -> int): int {
    if tables == [] then 0 else SumTables(tables[..|tables| - 1], weight) + Sum(tables[|tables| - 1], weight)
  }

  /** A tenant's settled tokens over surviving and evicted rows. */
  ghost function Recorded(g: Gateway, tenant: string): int {
    Sum(g.table, SettledOf(tenant)) + SumTables(g.gone, SettledOf(tenant))
  }

  /** What a request has been charged so far. */
  function ChargedTo(r: Request, tenant: string): int {
    if r.tenant == tenant && r.settle.Settled? then r.settle.charged else 0
  }

  function Charged(requests: seq<Request>, tenant: string): int {
    if requests == [] then 0
    else Charged(requests[..|requests| - 1], tenant) + ChargedTo(requests[|requests| - 1], tenant)
  }

  /**
   What a request owes once it is over, from what its providers answered alone: the clamped usage of
   a success, the whole reservation if nothing succeeded but something was billed, else nothing.
   */
  function Owed(cfg: Config, i: nat, r: Request): nat {
    if Succeeded(r.attempts) then Charge(cfg, Hold(i, r), r.attempts[|r.attempts| - 1].charge)
    else if SomeBillable(r.attempts) then r.estimate
    else 0
  }

  function OwedBy(cfg: Config, requests: seq<Request>, tenant: string): int {
    if requests == [] then 0
    else
      var i := |requests| - 1;
      OwedBy(cfg, requests[..i], tenant) + if requests[i].tenant == tenant then Owed(cfg, i, requests[i]) else 0
  }

  /** A row agrees with what its granted request's tasks have done: settled at its charge, or still a full hold. */
  predicate RowFits(r: Request, row: Row) {
    && Granted(r) && row.tenant == r.tenant
    && (if row.settled then r.settle == Settled(row.tokens)
        else row.tokens == r.estimate && (r.settle.NoSettle? || r.settle.SettleLaunched?) && !r.release.Released?)
  }

  /** Every row belongs to a request and agrees with it. */
  ghost predicate RowsMatch(g: Gateway) {
    forall i :: i in g.table ==> i < |g.requests| && RowFits(g.requests[i], g.table[i])
  }

  lemma RowsMatchStep(g: Gateway, s: Step)
    requires AllSound(g) && RowsMatch(g) && Enabled(g, s)
    ensures RowsMatch(Do(g, s))
  {
    OwnRowFits(g, s);
    OtherRowsStay(g, s);
    hide Admits, Evictable, Charge, RowFits, Exec, Advance, AllSound, Enabled;
    var g' := Do(g, s);
    forall j | j in g'.table
      ensures j < |g'.requests| && RowFits(g'.requests[j], g'.table[j])
    {
      if j != s.i {
        assert j in g.table && g'.table[j] == g.table[j];
      }
    }
  }

  lemma OwnRowFits(g: Gateway, s: Step)
    requires AllSound(g) && RowsMatch(g) && Enabled(g, s)
    ensures s.i in Do(g, s).table ==> RowFits(Advance(g, s), Do(g, s).table[s.i])
  {
    hide Admits, Evictable, Charge;
    assert Sound(g.cfg, g.providers, s.i, g.requests[s.i]);
    assert s.i in g.table ==> RowFits(g.requests[s.i], g.table[s.i]);
  }

  lemma OtherRowsStay(g: Gateway, s: Step)
    requires Enabled(g, s)
    ensures forall j :: j in Do(g, s).table && j != s.i ==> j in g.table && Do(g, s).table[j] == g.table[j]
  {
    hide Admits, Evictable, Charge, Advance;
  }

  lemma {:induction false} ChargedUpdate(requests: seq<Request>, i: nat, r: Request, tenant: string)
    requires i < |requests|
    ensures Charged(requests[i := r], tenant)
         == Charged(requests, tenant) - ChargedTo(requests[i], tenant) + ChargedTo(r, tenant)
  {
    var last := |requests| - 1;
    if i < last {
      assert requests[i := r][..last] == requests[..last][i := r];
      ChargedUpdate(requests[..last], i, r, tenant);
    } else {
      assert requests[i := r][..last] == requests[..last];
    }
  }

  /** What the protocol guarantees about the row each storage step is aimed at. */
  lemma StorageFacts(g: Gateway, s: Step)
    requires AllSound(g) && RowsMatch(g) && Enabled(g, s)
    ensures s.CommitReserve? || s.RunReinsert? ==> s.i !in g.table
    ensures (s.RunUpdate? || s.RunRelease?) && s.i in g.table ==>
              !g.table[s.i].settled && g.table[s.i].tenant == g.requests[s.i].tenant
    ensures s.RunRelease? ==> g.requests[s.i].settle.NoSettle?
  {
    hide Admits, Evictable, Charge;
    assert Sound(g.cfg, g.providers, s.i, g.requests[s.i]);
  }

  lemma TablesAppend(tables: seq<Table>, last: Table, weight: Row -> int)
    ensures SumTables(tables + [last], weight) == SumTables(tables, weight) + Sum(last, weight)
  {
    hide Sum;
    assert (tables + [last])[..|tables|] == tables;
  }

  /** No step records anything but a charge, and every charge it makes is recorded by the same step. */
  lemma RecordedStep(g: Gateway, s: Step, tenant: string)
    requires AllSound(g) && RowsMatch(g) && Enabled(g, s)
    ensures Recorded(Do(g, s), tenant) - Recorded(g, tenant)
         == ChargedTo(Advance(g, s), tenant) - ChargedTo(g.requests[s.i], tenant)
  {
    if s.SideEvict? {
      EvictionRecords(g, s, tenant);
    } else if s.CommitReserve? || s.RunUpdate? || s.RunReinsert? || s.RunRelease? {
      WriteRecords(g, s, tenant);
    } else {
      OthersRecordNothing(g, s, tenant);
    }
  }

  lemma EvictionRecords(g: Gateway, s: Step, tenant: string)
    requires AllSound(g) && RowsMatch(g) && Enabled(g, s) && s.SideEvict?
    ensures Recorded(Do(g, s), tenant) - Recorded(g, tenant)
         == ChargedTo(Advance(g, s), tenant) - ChargedTo(g.requests[s.i], tenant)
  {
    hide Admits, Evictable, Charge, Sound, AllSound, RowsMatch, Sum, SumTables, Inside;
    Divide(g.table, s.batch, SettledOf(tenant));
    TablesAppend(g.gone, Inside(g.table, s.batch), SettledOf(tenant));
  }

  lemma WriteRecords(g: Gateway, s: Step, tenant: string)
    requires AllSound(g) && RowsMatch(g) && Enabled(g, s)
    requires s.CommitReserve? || s.RunUpdate? || s.RunReinsert? || s.RunRelease?
    ensures Recorded(Do(g, s), tenant) - Recorded(g, tenant)
         == ChargedTo(Advance(g, s), tenant) - ChargedTo(g.requests[s.i], tenant)
  {
    StorageFacts(g, s);
    hide Admits, Evictable, Charge, Sound, AllSound, RowsMatch, Sum, SumTables;
    var r, w := g.requests[s.i], SettledOf(tenant);
    match s
    case CommitReserve(i) => Put(g.table, i, Row(r.tenant, r.reserve.now, r.estimate, false), w);
    case RunUpdate(i) =>
      if i in g.table {
        Put(g.table, i, Do(g, s).table[i], w);
      }
    case RunReinsert(i, now) => Put(g.table, i, Row(r.tenant, now, r.settle.charged, true), w);
    case RunRelease(i) => Drop(g.table, i, w);
    case _ =>
  }

  lemma OthersRecordNothing(g: Gateway, s: Step, tenant: string)
    requires AllSound(g) && Enabled(g, s)
    requires !(s.SideEvict? || s.CommitReserve? || s.RunUpdate? || s.RunReinsert? || s.RunRelease?)
    ensures Recorded(Do(g, s), tenant) == Recorded(g, tenant)
    ensures ChargedTo(Advance(g, s), tenant) == ChargedTo(g.requests[s.i], tenant)
  {
    hide Admits, Evictable, Charge, Sound, AllSound, Sum, SumTables;
    if s.Attempt? || s.Cancel? {
      AttemptChargesNothing(g, s, tenant);
    }
  }

  /** The coroutine itself never records a charge; only a storage step does. */
  lemma AttemptChargesNothing(g: Gateway, s: Step, tenant: string)
    requires AllSound(g) && Enabled(g, s) && (s.Attempt? || s.Cancel?)
    ensures ChargedTo(Advance(g, s), tenant) == ChargedTo(g.requests[s.i], tenant)
  {
    assert Sound(g.cfg, g.providers, s.i, g.requests[s.i]);
  }

  lemma {:induction false} LedgerTracksCharges(g: Gateway, schedule: seq<Step>, tenant: string)
    requires Initial(g)
    ensures
      var now := After(g, schedule);
      RowsMatch(now) && Recorded(now, tenant) == Charged(now.requests, tenant)
  {
    if schedule == [] {
      NothingCharged(g.requests, tenant);
    } else {
      var before, s := After(g, schedule[..|schedule| - 1]), schedule[|schedule| - 1];
      RunsAreSound(g, schedule[..|schedule| - 1]);
      LedgerTracksCharges(g, schedule[..|schedule| - 1], tenant);
      if Enabled(before, s) {
        hide Recorded, Sound, RowsMatch;
        RowsMatchStep(before, s);
        RecordedStep(before, s, tenant);
        ChargedUpdate(before.requests, s.i, Advance(before, s), tenant);
      }
    }
  }

  lemma {:induction false} NothingCharged(requests: seq<Request>, tenant: string)
    requires forall i :: 0 <= i < |requests| ==> requests[i].settle.NoSettle?
    ensures Charged(requests, tenant) == 0
  {
    if requests != [] {
      NothingCharged(requests[..|requests| - 1], tenant);
    }
  }

  /** At rest, what a request was charged is what its providers' answers say it owes. */
  lemma ChargedIsOwed(cfg: Config, providers: nat, i: nat, r: Request, tenant: string)
    requires Sound(cfg, providers, i, r) && AtRest(r)
    ensures ChargedTo(r, tenant) == if r.tenant == tenant then Owed(cfg, i, r) else 0
  {
  }

  lemma {:induction false} AllChargedIsOwed(g: Gateway, n: nat, tenant: string)
    requires AllSound(g) && Quiescent(g) && n <= |g.requests|
    ensures Charged(g.requests[..n], tenant) == OwedBy(g.cfg, g.requests[..n], tenant)
  {
    if n > 0 {
      AllChargedIsOwed(g, n - 1, tenant);
      assert g.requests[..n][..n - 1] == g.requests[..n - 1];
      assert Sound(g.cfg, g.providers, n - 1, g.requests[n - 1]);
      ChargedIsOwed(g.cfg, g.providers, n - 1, g.requests[n - 1], tenant);
    }
  }

  /**
   Ledger equals spend. Once a gateway is at rest no unsettled hold is left in the table, and each
   tenant's recorded tokens, evicted rows included, are exactly what its requests owe.
   */
  lemma LedgerEqualsSpend(g: Gateway, schedule: seq<Step>, tenant: string)
    requires Initial(g) && Quiescent(After(g, schedule))
    ensures
      var end := After(g, schedule);
      && Recorded(end, tenant) == OwedBy(end.cfg, end.requests, tenant)
      && (forall i :: i in end.table ==> end.table[i].settled)
  {
    hide Recorded, OwedBy, Charged, After, AllSound, RowsMatch, Quiescent;
    var end := After(g, schedule);
    RunsAreSound(g, schedule);
    LedgerTracksCharges(g, schedule, tenant);
    AllChargedIsOwed(end, |end.requests|, tenant);
    assert end.requests[..|end.requests|] == end.requests;
    RowsAtRestAreSettled(end);
  }

  lemma RowsAtRestAreSettled(g: Gateway)
    requires AllSound(g) && RowsMatch(g) && Quiescent(g)
    ensures forall i :: i in g.table ==> g.table[i].settled
  {
    forall i | i in g.table
      ensures g.table[i].settled
    {
      assert Sound(g.cfg, g.providers, i, g.requests[i]) && AtRest(g.requests[i]);
    }
  }

  /** A hold that was granted fits the limit, so whatever a provider reports, no charge exceeds twice the limit. */
  lemma {:induction false} ChargesAreClamped(g: Gateway, schedule: seq<Step>, i: nat)
    requires Initial(g) && i < |g.requests|
    ensures i < |After(g, schedule).requests|
    ensures
      var r := After(g, schedule).requests[i];
      && (Granted(r) ==> r.estimate <= g.cfg.limit)
      && (r.settle.Settled? ==> r.settle.charged <= MAX_CHARGE_MULTIPLE * g.cfg.limit)
  {
    RunsAreSound(g, schedule);
    if schedule != [] {
      var before, s := After(g, schedule[..|schedule| - 1]), schedule[|schedule| - 1];
      ChargesAreClamped(g, schedule[..|schedule| - 1], i);
      RunsAreSound(g, schedule[..|schedule| - 1]);
      if Enabled(before, s) && s.i == i {
        GrantFits(before, s);
      }
    }
    var now := After(g, schedule);
    assert Sound(now.cfg, now.providers, i, now.requests[i]);
  }

  lemma GrantFits(g: Gateway, s: Step)
    requires AllSound(g) && Enabled(g, s)
    requires Granted(g.requests[s.i]) ==> g.requests[s.i].estimate <= g.cfg.limit
    ensures Granted(Advance(g, s)) ==> Advance(g, s).estimate <= g.cfg.limit
  {
    hide Evictable, Charge;
    assert Sound(g.cfg, g.providers, s.i, g.requests[s.i]);
  }

  // -------------------------------------------- the settle, and other tenants

  /** Settling in one go: update the row, or insert it if there is none. */
  ghost function SettleAtOnce(cfg: Config, t: Table, id: Id, tenant: string, charged: nat, now: int): Table {
    if id in t then Exec(cfg, t, Update(id, charged)) else Exec(cfg, t, Reinsert(id, tenant, charged, now))
  }

  /**
   The settle's two statements act as one at its last. A hit is the one-step settle there and then;
   after a miss no other actor ever writes the row, so the insert, however late, is the one-step
   settle at the moment it runs, and the miss itself changed nothing.
   */
  lemma TwoStatementSettle(g: Gateway, schedule: seq<Step>, i: nat, now: int)
    requires Initial(g) && i < |After(g, schedule).requests|
    ensures
      var here := After(g, schedule);
      var r := here.requests[i];
      && (r.settle.SettleLaunched? ==>
            var next := Do(here, RunUpdate(i));
            var charged := Charge(here.cfg, Hold(i, r), r.settle.actual);
            if next.requests[i].settle.Settled?
            then next.table == SettleAtOnce(here.cfg, here.table, i, r.tenant, charged, now)
            else next.table == here.table && next.requests[i].settle == RowMissed(charged))
      && (r.settle.RowMissed? ==>
            Do(here, RunReinsert(i, now)).table
                 == SettleAtOnce(here.cfg, here.table, i, r.tenant, r.settle.charged, now))
  {
    hide After, Initial, Recorded, Charged, Admits, Charge;
    LedgerTracksCharges(g, schedule, "");
  }

  /**
   A step of one tenant's request changes what another tenant has used only by the tokens of the rows an
   eviction takes, and those lie before the cutoff of the clock reading it was issued with.
   */
  lemma OtherTenantsUntouched(g: Gateway, s: Step, tenant: string, from: int)
    requires RowsMatch(g) && Enabled(g, s) && g.requests[s.i].tenant != tenant
    ensures
      var taken := if s.SideEvict? then Used(Inside(g.table, s.batch), tenant, from) else 0;
      && Used(Do(g, s).table, tenant, from) == Used(g.table, tenant, from) - taken
      && (s.SideEvict? && from >= g.requests[s.i].reserve.now - g.cfg.window ==> taken == 0)
  {
    hide Admits, Sum;
    var r, w := g.requests[s.i], Since(tenant, from);
    match s
    case SideEvict(_, batch) => EvictionTakes(g, s, tenant, from);
    case CommitReserve(i) => Put(g.table, i, Row(r.tenant, r.reserve.now, r.estimate, false), w);
    case RunUpdate(i) =>
      if i in g.table {
        Put(g.table, i, Do(g, s).table[i], w);
      }
    case RunReinsert(i, now) => Put(g.table, i, Row(r.tenant, now, r.settle.charged, true), w);
    case RunRelease(i) => Drop(g.table, i, w);
    case _ =>
  }

  lemma EvictionTakes(g: Gateway, s: Step, tenant: string, from: int)
    requires Enabled(g, s) && s.SideEvict?
    ensures Used(Do(g, s).table, tenant, from)
         == Used(g.table, tenant, from) - Used(Inside(g.table, s.batch), tenant, from)
    ensures from >= g.requests[s.i].reserve.now - g.cfg.window ==> Used(Inside(g.table, s.batch), tenant, from) == 0
  {
    hide Admits, Sum;
    Divide(g.table, s.batch, Since(tenant, from));
    if from >= g.requests[s.i].reserve.now - g.cfg.window {
      Zero(Inside(g.table, s.batch), Since(tenant, from));
    }
  }

  // ------------------------------------------------ the window, for whole gateways

  /** The SQL statements a schedule issues, in commit order. */
  ghost function Issued(g: Gateway, schedule: seq<Step>): seq<Statement> {
    if schedule == [] then []
    else
      var before := After(g, schedule[..|schedule| - 1]);
      var s := schedule[|schedule| - 1];
      Issued(g, schedule[..|schedule| - 1]) +
        if Enabled(before, s) && StatementOf(before, s).Some? then [StatementOf(before, s).value] else []
  }

  lemma IssuedIsLegal(g: Gateway, s: Step, run: seq<Statement>)
    requires AllSound(g) && RowsMatch(g) && Enabled(g, s)
    requires Legal(g.cfg, run) && SettledOnce(g.cfg, run) && TableAfter(g.cfg, run) == g.table
    ensures
      var issued := StatementOf(g, s);
      var run' := run + if issued.Some? then [issued.value] else [];
      Legal(g.cfg, run') && SettledOnce(g.cfg, run') && TableAfter(g.cfg, run') == Do(g, s).table
  {
    StorageFacts(g, s);
    ErasesToTable(g.cfg, run);
    var issued := StatementOf(g, s);
    if issued.Some? {
      OnceIssued(g, s);
      hide *;
      SettledOnceMore(g.cfg, run, issued.value);
      IssuableHere(g, s, Replay(g.cfg, run));
      OneMore(g.cfg, run, issued.value);
      TableAfterMore(g.cfg, run, issued.value);
      DoExecutes(g, s);
    } else {
      assert run + [] == run;
    }
  }

  lemma DoExecutes(g: Gateway, s: Step)
    requires Enabled(g, s) && StatementOf(g, s).Some?
    ensures Do(g, s).table == Exec(g.cfg, g.table, StatementOf(g, s).value)
  {
    hide StatementOf, Exec, Enabled, Advance;
  }

  lemma IssuableHere(g: Gateway, s: Step, h: History)
    requires AllSound(g) && RowsMatch(g) && Enabled(g, s) && StatementOf(g, s).Some? && Erase(h.live) == g.table
    ensures Issuable(g.cfg, h, StatementOf(g, s).value)
  {
    StorageFacts(g, s);
    hide Admits, Evictable, Sound, AllSound, RowsMatch;
    assert forall id :: id in h.live <==> id in Erase(h.live);
  }

  /** Whatever a storage step settles or releases is still a hold, and what it re-records is gone. */
  lemma OnceIssued(g: Gateway, s: Step)
    requires AllSound(g) && RowsMatch(g) && Enabled(g, s) && StatementOf(g, s).Some?
    ensures Once(g.table, StatementOf(g, s).value)
  {
    StorageFacts(g, s);
    hide Admits, Evictable, Sound, AllSound, RowsMatch;
  }

  lemma SettledOnceMore(cfg: Config, run: seq<Statement>, s: Statement)
    requires SettledOnce(cfg, run) && Once(TableAfter(cfg, run), s)
    ensures SettledOnce(cfg, run + [s])
  {
    hide Once, TableAfter;
    assert (run + [s])[..|run|] == run;
  }

  lemma TableAfterMore(cfg: Config, run: seq<Statement>, s: Statement)
    ensures TableAfter(cfg, run + [s]) == Exec(cfg, TableAfter(cfg, run), s)
  {
    hide Exec;
    assert (run + [s])[..|run|] == run;
  }

  /** What any schedule does to storage is a legal run of the ledger in which every row settles at most once. */
  lemma {:induction false} ScheduleIsARun(g: Gateway, schedule: seq<Step>)
    requires Initial(g)
    ensures Legal(g.cfg, Issued(g, schedule)) && SettledOnce(g.cfg, Issued(g, schedule))
    ensures TableAfter(g.cfg, Issued(g, schedule)) == After(g, schedule).table
  {
    if schedule != [] {
      var before, s := After(g, schedule[..|schedule| - 1]), schedule[|schedule| - 1];
      ScheduleIsARun(g, schedule[..|schedule| - 1]);
      RunsAreSound(g, schedule[..|schedule| - 1]);
      LedgerTracksCharges(g, schedule[..|schedule| - 1], "");
      hide Legal, SettledOnce, TableAfter, Recorded, Charged, AllSound, RowsMatch;
      if Enabled(before, s) {
        IssuedIsLegal(before, s, Issued(g, schedule[..|schedule| - 1]));
      } else {
        assert Issued(g, schedule) == Issued(g, schedule[..|schedule| - 1]);
      }
    }
  }

  /**
   The bound on the whole gateway: in every interleaving in which no eviction overtakes the clock
   reading of an admission, no tenant's trailing window ever holds more than the limit plus the settle
   excesses and late charges recorded in it. Without the excesses it is just what was let in.
   */
  lemma GatewayWindowBound(g: Gateway, schedule: seq<Step>, tenant: string, t: int)
    requires Initial(g) && NotOvertaken(Issued(g, schedule))
    ensures
      var run := Issued(g, schedule);
      var h := Replay(g.cfg, run);
      && Erase(h.live) == After(g, schedule).table
      && Total(h, SpentIn(tenant, t - g.cfg.window, t))
              <= g.cfg.limit + Overrun(g.cfg, run, tenant, t - g.cfg.window, t)
      && Total(h, SpentIn(tenant, t - g.cfg.window, t))
         == Total(h, AdmittedIn(tenant, t - g.cfg.window, t)) + Overrun(g.cfg, run, tenant, t - g.cfg.window, t)
  {
    hide *;
    ScheduleIsARun(g, schedule);
    ErasesToTable(g.cfg, Issued(g, schedule));
    OverrunBound(g.cfg, Issued(g, schedule), tenant, t);
    OverrunIsRecorded(g.cfg, Issued(g, schedule), tenant, t - g.cfg.window, t);
    SpentSplits(Replay(g.cfg, Issued(g, schedule)), tenant, t - g.cfg.window, t);
  }
}
