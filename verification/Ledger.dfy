/**
 The token ledger: a table of usage rows, and the limiter that reads and writes it.

 Every SQL statement the limiter issues is one `Statement`, and each is atomic. The clock and the
 random reservation ids are parameters: a `now` is whatever the clock read, an id is fresh.
 */
module Ledger {
  import opened Wrappers
  import opened MapSum

  type Id = nat
  datatype Row = Row(tenant: string, created: int, tokens: nat, settled: bool)
  type Table = map<Id, Row>
  datatype Config = Config(limit: nat, window: nat)

  const EVICTION_BATCH := 1000
  const MAX_CHARGE_MULTIPLE := 2

  datatype Reservation = Reservation(id: Id, tenant: string, tokens: nat)
  datatype LimitDecision =
    LimitDecision(allowed: bool, reservation: Option<Reservation>, used: nat, limit: nat, requested: nat,
        retryAfterMs: int)

  datatype Statement =
    | Evict(now: int, batch: set<Id>)
    | Reserve(id: Id, tenant: string, tokens: nat, now: int)
    | Update(id: Id, tokens: nat)
    | Reinsert(id: Id, tenant: string, tokens: nat, now: int)
    | Delete(id: Id)
    | Read(tenant: string, now: int)

  // --------------------------------------------------------- what rows mean

  /** The weight of a row in the `SUM(tokens)` over one tenant's rows with `lo <= created_ms <= hi`. */
  function Between(tenant: string, lo: int, hi: int): Row -> int {
    (r: Row) => if r.tenant == tenant && lo <= r.created <= hi then r.tokens else 0
  }

  function Since(tenant: string, from: int): Row -> int {
    (r: Row) => if r.tenant == tenant && from <= r.created then r.tokens else 0
  }

  ghost function Used(t: Table, tenant: string, from: int): (used: nat)
  {
    NotNegative(t, Since(tenant, from));
    Sum(t, Since(tenant, from))
  }

  ghost predicate Admits(cfg: Config, t: Table, tenant: string, tokens: nat, now: int) {
    Used(t, tenant, now - cfg.window) + tokens <= cfg.limit
  }

  ghost function Expired(t: Table, cutoff: int): set<Id> {
    set id | id in t && t[id].created < cutoff
  }

  /** A batch the eviction may take: expired rows only, all of them or a full batch. */
  ghost predicate Evictable(t: Table, cutoff: int, batch: set<Id>) {
    && batch <= Expired(t, cutoff)
    && |batch| == if |Expired(t, cutoff)| < EVICTION_BATCH then |Expired(t, cutoff)| else EVICTION_BATCH
  }

  ghost function Exec(cfg: Config, t: Table, s: Statement): Table {
    match s
    case Evict(_, batch) => t - batch
    case Reserve(id, tenant, tokens, now) =>
      if Admits(cfg, t, tenant, tokens, now) then t[id := Row(tenant, now, tokens, false)] else t
    case Update(id, tokens) =>
      if id in t then t[id := t[id].(tokens := tokens, settled := true)] else t
    case Reinsert(id, tenant, tokens, now) => t[id := Row(tenant, now, tokens, true)]
    case Delete(id) => t - {id}
    case Read(_, _) => t
  }

  /** The charge for a reported usage: never negative, never above twice the limit or the hold. */
  function Charge(cfg: Config, r: Reservation, actual: int): (charged: nat)
    ensures r.tokens <= cfg.limit ==> charged <= MAX_CHARGE_MULTIPLE * cfg.limit
    ensures actual <= 0 ==> charged == 0
    ensures 0 <= actual && (actual <= r.tokens || actual <= MAX_CHARGE_MULTIPLE * cfg.limit) ==> charged == actual
    ensures actual > r.tokens && actual > MAX_CHARGE_MULTIPLE * cfg.limit ==>
              charged == if r.tokens > MAX_CHARGE_MULTIPLE * cfg.limit then r.tokens
                else MAX_CHARGE_MULTIPLE * cfg.limit
  {
    var ceiling := if cfg.limit * MAX_CHARGE_MULTIPLE > r.tokens then cfg.limit * MAX_CHARGE_MULTIPLE else r.tokens;
    var capped := if actual < ceiling then actual else ceiling;
    if capped > 0 then capped else 0
  }

  lemma {:induction false} NotNegative<K, V>(m: map<K, V>, weight: V -> int)
    requires forall k :: k in m ==> weight(m[k]) >= 0
    ensures Sum(m, weight) >= 0
    decreases |m|
  {
    var nothing := (v: V) => 0;
    Monotone(m, nothing, weight);
    Zero(m, nothing);
  }

  // -------------------------------------------------------------- the limiter

  class TokenRateLimiter {
    var table: Table
    const cfg: Config

    constructor (limit: nat, windowSeconds: nat)
      ensures table == map[] && cfg == Config(limit, windowSeconds * 1000)
    {
      table := map[];
      cfg := Config(limit, windowSeconds * 1000);
    }

    /** The sum of the tokens of the rows `weight` counts, zero if there are none. */
    method SumTokens(weight: Row -> int) returns (total: int)
      ensures total == Sum(table, weight)
    {
      total := 0;
      var left := table;
      while left != map[]
        invariant total + Sum(left, weight) == Sum(table, weight)
        decreases |left|
      {
        var id :| id in left;
        total := total + weight(left[id]);
        Remove(left, id, weight);
        Smaller(left, id);
        left := left - {id};
      }
    }

    /** One batch of expired rows goes; which of them is not specified. */
    method EvictExpired(cutoff: int) returns (batch: set<Id>)
      modifies this
      ensures Evictable(old(table), cutoff, batch) && table == old(table) - batch
    {
      batch := {};
      var left := set id | id in table && table[id].created < cutoff;
      assert left == Expired(table, cutoff);
      while left != {} && |batch| < EVICTION_BATCH
        invariant batch !! left && batch + left == Expired(table, cutoff)
        invariant |batch| <= EVICTION_BATCH && table == old(table)
        decreases left
      {
        var id :| id in left;
        batch, left := batch + {id}, left - {id};
      }
      assert |batch| + |left| == |batch + left|;
      table := table - batch;
    }

    /**
     Reserve: evict on the side, then check and insert in one transaction. `now` is read first,
     before any lock; `later` is the second reading, taken while working out the retry hint.
     */
    method TryReserve(tenant: string, tokens: nat, id: Id, now: int, later: int)
      returns (decision: LimitDecision, evicted: set<Id>)
      modifies this
      ensures Evictable(old(table), now - cfg.window, evicted)
      ensures
        var before := Exec(cfg, old(table), Evict(now, evicted));
        && table == Exec(cfg, before, Reserve(id, tenant, tokens, now))
        && decision.allowed == Admits(cfg, before, tenant, tokens, now)
        && decision.limit == cfg.limit && decision.requested == tokens
        && decision.used == Used(before, tenant, now - cfg.window) + (if decision.allowed then tokens else 0)
        && decision.reservation == (if decision.allowed then Some(Reservation(id, tenant, tokens)) else None)
        && (decision.allowed ==> decision.retryAfterMs == 0)
        && (!decision.allowed ==>
              IsHint(cfg, before, tenant, tokens, now, later, decision.retryAfterMs))
    {
      hide Evictable, IsHint;
      var cutoff := now - cfg.window;
      evicted := EvictExpired(cutoff);
      var used := SumTokens(Since(tenant, cutoff));
      assert used == Used(table, tenant, cutoff);
      if used + tokens > cfg.limit {
        var hint := RetryAfter(tenant, cutoff, used, tokens, later);
        return LimitDecision(false, None, used, cfg.limit, tokens, hint), evicted;
      }
      table := table[id := Row(tenant, now, tokens, false)];
      return LimitDecision(true, Some(Reservation(id, tenant, tokens)), used + tokens, cfg.limit, tokens, 0), evicted;
    }

    /** The retry hint, in milliseconds, from running totals in stamp order. */
    method RetryAfter(tenant: string, cutoff: int, used: nat, tokens: nat, later: int) returns (hint: int)
      requires used == Used(table, tenant, cutoff) && used + tokens > cfg.limit
      ensures IsHint(cfg, table, tenant, tokens, cutoff + cfg.window, later, hint)
    {
      var deficit := used + tokens - cfg.limit;
      if tokens > cfg.limit {
        return cfg.window;
      }
      var row := FirstCovering(tenant, cutoff, deficit);
      if row.None? {
        CoveringExists(table, tenant, cutoff, deficit);
        assert false;
      }
      assert FirstCover(table, tenant, cutoff, deficit, row.value);
      return Wait(cfg, row.value, later);
    }

    /** The windowed query: the first stamp at which the tenant's running total reaches the deficit. */
    method FirstCovering(tenant: string, cutoff: int, deficit: nat) returns (row: Option<int>)
      ensures row.Some? ==> FirstCover(table, tenant, cutoff, deficit, row.value)
      ensures row.None? ==> forall c :: !Covers(table, tenant, cutoff, deficit, c)
    {
      hide *;
      row := None;
      var left := table;
      NoneSeen(table, tenant, cutoff, deficit);
      while left != map[]
        invariant PartOf(left, table) && FirstAmong(table, left, tenant, cutoff, deficit, row)
        decreases |left|
      {
        var id :| id in left;
        var r := left[id];
        InPart(left, table, id);
        ghost var before := row;
        if r.tenant == tenant && r.created >= cutoff {
          var running := SumTokens(Between(tenant, cutoff, r.created));
          RunningIs(table, tenant, cutoff, r.created);
          if running >= deficit && (row.None? || r.created < row.value) {
            row := Some(r.created);
          }
        }
        FirstNext(table, left, id, tenant, cutoff, deficit, before, row);
        Smaller(left, id);
        left := left - {id};
      }
      AllSeen(table, tenant, cutoff, deficit, row);
    }

    /** Reconcile a hold to what was spent: update the row, or record it again if it was evicted. */
    method Settle(r: Reservation, actual: int, now: int) returns (charged: nat)
      modifies this
      ensures charged == Charge(cfg, r, actual)
      ensures table == if r.id in old(table) then Exec(cfg, old(table), Update(r.id, charged))
                       else Exec(cfg, old(table), Reinsert(r.id, r.tenant, charged, now))
      ensures r.id in table && table[r.id].tokens == charged && table[r.id].settled
    {
      charged := Charge(cfg, r, actual);
      if r.id in table {
        table := table[r.id := table[r.id].(tokens := charged, settled := true)];
      } else {
        table := table[r.id := Row(r.tenant, now, charged, true)];
      }
    }

    method Release(r: Reservation)
      modifies this
      ensures table == Exec(cfg, old(table), Delete(r.id))
    {
      table := table - {r.id};
    }

    method Usage(tenant: string, now: int) returns (tokens: nat)
      ensures tokens == Used(table, tenant, now - cfg.window)
    {
      var total := SumTokens(Since(tenant, now - cfg.window));
      assert total == Used(table, tenant, now - cfg.window);
      return total;
    }
  }

  // ------------------------------------------------------------ the retry hint

  /** The running total up to and including stamp `c`. */
  ghost function Running(t: Table, tenant: string, cutoff: int, c: int): int {
    Sum(t, Between(tenant, cutoff, c))
  }

  /** A row of the tenant carries stamp `c` and its running total reaches `deficit`. */
  ghost predicate Covers(t: Table, tenant: string, cutoff: int, deficit: int, c: int) {
    && c >= cutoff && Running(t, tenant, cutoff, c) >= deficit
    && exists id :: id in t && t[id].tenant == tenant && t[id].created == c
  }

  ghost predicate PartOf(left: Table, t: Table) {
    forall id :: id in left ==> id in t && left[id] == t[id]
  }

  lemma InPart(left: Table, t: Table, id: Id)
    requires PartOf(left, t) && id in left
    ensures id in t && left[id] == t[id] && PartOf(left - {id}, t)
  {
  }

  lemma RunningIs(t: Table, tenant: string, cutoff: int, c: int)
    ensures Running(t, tenant, cutoff, c) == Sum(t, Between(tenant, cutoff, c))
  {
  }

  /** `row` is the least stamp that covers, among the rows no longer left. */
  ghost predicate FirstAmong(t: Table, left: Table, tenant: string, cutoff: int, deficit: int, row: Option<int>) {
    && (row.Some? ==> Covers(t, tenant, cutoff, deficit, row.value))
    && forall id ::
         id in t && id !in left && t[id].tenant == tenant && Covers(t, tenant, cutoff, deficit, t[id].created) ==>
           row.Some? && row.value <= t[id].created
  }

  lemma NoneSeen(t: Table, tenant: string, cutoff: int, deficit: int)
    ensures PartOf(t, t) && FirstAmong(t, t, tenant, cutoff, deficit, None)
  {
  }

  lemma AllSeen(t: Table, tenant: string, cutoff: int, deficit: int, row: Option<int>)
    requires FirstAmong(t, map[], tenant, cutoff, deficit, row)
    ensures row.Some? ==> FirstCover(t, tenant, cutoff, deficit, row.value)
    ensures row.None? ==> forall c :: !Covers(t, tenant, cutoff, deficit, c)
  {
    hide Running;
  }

  lemma FirstNext(t: Table, left: Table, id: Id, tenant: string, cutoff: int, deficit: int, before: Option<int>,
      row: Option<int>)
    requires id in t && FirstAmong(t, left, tenant, cutoff, deficit, before)
    requires
      var stamp := t[id].created;
      var covers := t[id].tenant == tenant && stamp >= cutoff && Running(t, tenant, cutoff, stamp) >= deficit;
      row == if covers && (before.None? || t[id].created < before.value) then Some(t[id].created) else before
    ensures FirstAmong(t, left - {id}, tenant, cutoff, deficit, row)
  {
    hide Running;
  }

  ghost predicate FirstCover(t: Table, tenant: string, cutoff: int, deficit: int, c: int) {
    && Covers(t, tenant, cutoff, deficit, c)
    && forall d :: Covers(t, tenant, cutoff, deficit, d) ==> c <= d
  }

  /** What a refusal at `now` is told: the whole window if it can never fit, else when a row ages out. */
  ghost predicate IsHint(cfg: Config, t: Table, tenant: string, tokens: nat, now: int, later: int, hint: int) {
    var cutoff := now - cfg.window;
    var deficit := Used(t, tenant, cutoff) + tokens - cfg.limit;
    if tokens > cfg.limit then hint == cfg.window
    else exists c :: FirstCover(t, tenant, cutoff, deficit, c) && hint == Wait(cfg, c, later)
  }

  function Wait(cfg: Config, stamp: int, later: int): int {
    if stamp + cfg.window > later then stamp + cfg.window - later else 0
  }

  /** Cutting a tenant's rows at a stamp: the older ones and the newer ones make up the total. */
  lemma UsedSplits(t: Table, tenant: string, cutoff: int, c: int)
    requires c + 1 >= cutoff
    ensures Used(t, tenant, cutoff) == Running(t, tenant, cutoff, c) + Used(t, tenant, c + 1)
  {
    Additive(t, Since(tenant, cutoff), Between(tenant, cutoff, c), Since(tenant, c + 1));
  }

  /** A running total that is positive at `x` was reached at the stamp of some row. */
  lemma {:induction false} RunningAttained(t: Table, tenant: string, cutoff: int, deficit: int, x: int) returns (c: int)
    requires deficit > 0 && Running(t, tenant, cutoff, x) >= deficit
    ensures c <= x && Covers(t, tenant, cutoff, deficit, c)
    decreases x - cutoff
  {
    if x < cutoff {
      Zero(t, Between(tenant, cutoff, x));
      assert false;
    }
    if exists id :: id in t && t[id].tenant == tenant && t[id].created == x {
      c := x;
    } else {
      Monotone(t, Between(tenant, cutoff, x), Between(tenant, cutoff, x - 1));
      c := RunningAttained(t, tenant, cutoff, deficit, x - 1);
    }
  }

  lemma {:induction false} LatestStamp(t: Table) returns (top: int)
    ensures forall id :: id in t ==> t[id].created <= top
    decreases |t|
  {
    if t == map[] {
      top := 0;
    } else {
      var id :| id in t;
      Smaller(t, id);
      top := LatestStamp(t - {id});
      if t[id].created > top {
        top := t[id].created;
      }
      assert forall j :: j in t && j != id ==> j in t - {id};
    }
  }

  /** The "no row" fallback is unreachable: the rows counted always cover a deficit that fits. */
  lemma CoveringExists(t: Table, tenant: string, cutoff: int, deficit: int)
    requires 0 < deficit <= Used(t, tenant, cutoff)
    ensures exists c :: Covers(t, tenant, cutoff, deficit, c)
  {
    var top := LatestStamp(t);
    Monotone(t, Since(tenant, cutoff), Between(tenant, cutoff, top));
    var c := RunningAttained(t, tenant, cutoff, deficit, top);
  }

  /**
   The retry hint is exact, one millisecond early. After a refusal at `now`, with no further
   writes, the request is admitted at a later instant if and only if that instant is after the
   chosen row's stamp plus the window; waiting exactly the hint is one millisecond too short.
   */
  lemma ExactRetryHint(cfg: Config, t: Table, tenant: string, tokens: nat, now: int, c: int, instant: int)
    requires !Admits(cfg, t, tenant, tokens, now) && tokens <= cfg.limit && instant >= now
    requires FirstCover(t, tenant, now - cfg.window, Used(t, tenant, now - cfg.window) + tokens - cfg.limit, c)
    ensures Admits(cfg, t, tenant, tokens, instant) <==> instant > c + cfg.window
  {
    var cutoff, from := now - cfg.window, instant - cfg.window;
    var deficit := Used(t, tenant, cutoff) + tokens - cfg.limit;
    UsedSplits(t, tenant, cutoff, from - 1);
    if instant > c + cfg.window {
      Monotone(t, Between(tenant, cutoff, c), Between(tenant, cutoff, from - 1));
    } else if Running(t, tenant, cutoff, from - 1) >= deficit {
      var d := RunningAttained(t, tenant, cutoff, deficit, from - 1);
      assert false;
    }
  }

  /** A request above the limit is refused at every instant, whatever the table holds. */
  lemma NeverFits(cfg: Config, t: Table, tenant: string, tokens: nat, instant: int)
    requires tokens > cfg.limit
    ensures !Admits(cfg, t, tenant, tokens, instant)
  {
  }
}
