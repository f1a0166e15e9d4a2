/**
 The reservation protocol: many requests, each driving one shared ledger through storage calls that
 keep running when the request is cancelled.

 A request is a coroutine and up to three independent tasks. Every `await` is a point where any
 other actor may run and where a cancellation may land, during the cleanup of an earlier one too.
 A schedule is any sequence of steps; a step that is not enabled leaves the gateway as it is.
 */
module Router {
  import opened Wrappers
  import opened MapSum
  import opened Ledger

  // ---------------------------------------------------------- provider calls

  datatype Body = JsonObject(charge: int) | OtherJson | NotJson

  /** What came back from one provider before its deadline, or instead of an answer. */
  datatype Reply = Response(status: int, body: Body) | DeadlineExpired | ConnectionFailed | UnexpectedError

  /** `charge` is the provider's own accounting, with the estimate as the fallback. */
  datatype Outcome = Ok(charge: int) | Unusable | ClientError | ServerError | RateLimited | Timeout | TransportError

  const FAILOVER_STATUSES := {401, 402, 403, 404, 408, 409, 413, 425, 429, 500, 502, 503, 504, 529}
  const CALLER_ERROR_STATUSES := {400, 405, 406, 415, 422}

  predicate Billable(o: Outcome) {
    o.Unusable?
  }

  /** One attempt, classified by whose fault it is. It never raises. */
  function Classify(reply: Reply): (o: Outcome)
    ensures o.Timeout? <==> reply.DeadlineExpired?
    ensures o.TransportError? <==> reply.ConnectionFailed? || reply.UnexpectedError?
    ensures o.RateLimited? <==> reply.Response? && reply.status == 429
    ensures o.ClientError? <==> reply.Response? && reply.status in CALLER_ERROR_STATUSES
    ensures o.Ok? <==> reply.Response? && 200 <= reply.status < 300 && reply.body.JsonObject?
    ensures o.Ok? ==> o.charge == reply.body.charge
    ensures o.Unusable? <==> reply.Response? && 200 <= reply.status < 300 && !reply.body.JsonObject?
    ensures reply.Response? && reply.status in FAILOVER_STATUSES ==> o.ServerError? || o.RateLimited?
  {
    match reply
    case DeadlineExpired => Timeout
    case ConnectionFailed => TransportError
    case UnexpectedError => TransportError
    case Response(status, body) =>
      if status < 200 || 300 <= status < 400 then ServerError
      else if status == 429 then RateLimited
      else if status in FAILOVER_STATUSES || status >= 500 then ServerError
      else if status in CALLER_ERROR_STATUSES then ClientError
      else if status >= 400 then ServerError
      else match body
        case JsonObject(charge) => Ok(charge)
        case _ => Unusable
  }

  datatype Failure = InvalidRequest | UpstreamTimeout | UpstreamRateLimited | AllProvidersFailed
  datatype Routed = Served(charge: int) | Failed(failure: Failure)

  /** An outcome after which no further provider is tried. */
  predicate Stops(o: Outcome) {
    o.Ok? || o.ClientError?
  }

  /** The provider loop: try each in turn, stop at the first success or caller error. */
  method AttemptProviders(replies: seq<Reply>) returns (r: Routed, attempts: seq<Outcome>)
    requires replies != []
    ensures 0 < |attempts| <= |replies|
    ensures forall k :: 0 <= k < |attempts| ==> attempts[k] == Classify(replies[k])
    ensures forall k :: 0 <= k < |attempts| - 1 ==> !Stops(attempts[k])
    ensures Stops(attempts[|attempts| - 1]) || |attempts| == |replies|
    ensures var last := attempts[|attempts| - 1];
            r == if last.Ok? then Served(last.charge)
                 else if last.ClientError? then Failed(InvalidRequest)
                 else if forall o :: o in attempts ==> o == Timeout then Failed(UpstreamTimeout)
                 else if forall o :: o in attempts ==> o == RateLimited then Failed(UpstreamRateLimited)
                 else Failed(AllProvidersFailed)
  {
    attempts := [];
    for k := 0 to |replies|
      invariant |attempts| == k
      invariant forall j :: 0 <= j < k ==> attempts[j] == Classify(replies[j]) && !Stops(attempts[j])
    {
      var outcome := Classify(replies[k]);
      attempts := attempts + [outcome];
      if outcome.Ok? {
        return Served(outcome.charge), attempts;
      }
      if outcome.ClientError? {
        return Failed(InvalidRequest), attempts;
      }
    }
    if forall o :: o in attempts ==> o == Timeout {
      return Failed(UpstreamTimeout), attempts;
    }
    if forall o :: o in attempts ==> o == RateLimited {
      return Failed(UpstreamRateLimited), attempts;
    }
    return Failed(AllProvidersFailed), attempts;
  }

  // ------------------------------------------------------------ the protocol

  /** Where the coroutine is waiting. */
  datatype Pc = Estimating | Reserving | Attempting | Settling | CleanupSettle | CleanupRelease | Finished

  datatype ReserveTask =
    | NotReserving
    | ReserveLaunched
    | ClockRead(now: int)
    | SideEvicted(now: int)
    | Decided(granted: bool)
  datatype SettleTask = NoSettle | SettleLaunched(actual: int) | RowMissed(charged: nat) | Settled(charged: nat)
  datatype ReleaseTask = NoRelease | ReleaseLaunched | Released
  datatype Callback = NoCallback | Attached | Ran

  /** `marked` is the request's `settled` list being non-empty; the two counts only observe. */
  datatype Request = Request(
    tenant: string, estimate: nat, pc: Pc,
    reserve: ReserveTask, callback: Callback, settle: SettleTask, release: ReleaseTask,
    marked: bool, attempts: seq<Outcome>, settleCalls: nat, releaseCalls: nat)

  /** A request's index is the id of its reservation. `gone` is what evictions took, for counting only. */
  datatype Gateway = Gateway(cfg: Config, providers: nat, table: Table, gone: seq<Table>, requests: seq<Request>)

  datatype Step =
    | Cancel(i: nat)
    | EstimateDone(i: nat)
    | ReadClock(i: nat, now: int)
    | SideEvict(i: nat, batch: set<Id>)
    | CommitReserve(i: nat)
    | ResumeReserve(i: nat)
    | RunCallback(i: nat)
    | Attempt(i: nat, outcome: Outcome)
    | RunUpdate(i: nat)
    | RunReinsert(i: nat, now: int)
    | RunRelease(i: nat)
    | ResumeCleanup(i: nat)

  function NewRequest(tenant: string, estimate: nat): Request {
    Request(tenant, estimate, Estimating, NotReserving, NoCallback, NoSettle, NoRelease, false, [], 0, 0)
  }

  predicate Initial(g: Gateway) {
    && g.providers > 0 && g.table == map[] && g.gone == []
    && forall i :: 0 <= i < |g.requests| ==> g.requests[i] == NewRequest(g.requests[i].tenant, g.requests[i].estimate)
  }

  function Hold(i: nat, r: Request): Reservation {
    Reservation(i, r.tenant, r.estimate)
  }

  ghost predicate Enabled(g: Gateway, s: Step) {
    s.i < |g.requests| && var r := g.requests[s.i];
    match s
    case Cancel(_) => !r.pc.Finished?
    case EstimateDone(_) => r.pc.Estimating?
    case ReadClock(_, _) => r.reserve.ReserveLaunched?
    case SideEvict(_, batch) => r.reserve.ClockRead? && Evictable(g.table, r.reserve.now - g.cfg.window, batch)
    case CommitReserve(_) => r.reserve.SideEvicted?
    case ResumeReserve(_) => r.pc.Reserving? && r.reserve.Decided?
    case RunCallback(_) => r.callback.Attached? && r.reserve.Decided?
    case Attempt(_, _) => r.pc.Attempting?
    case RunUpdate(_) => r.settle.SettleLaunched?
    case RunReinsert(_, _) => r.settle.RowMissed?
    case RunRelease(_) => r.release.ReleaseLaunched?
    case ResumeCleanup(_) =>
      || (r.pc in {Settling, CleanupSettle} && r.settle.Settled?)
      || (r.pc.CleanupRelease? && r.release.Released?)
  }

  /** The handler around the provider loop: what happens to the hold when anything is raised. */
  function Cleanup(r: Request): Request {
    if r.marked then r.(pc := Finished)
    else if exists k :: 0 <= k < |r.attempts| && Billable(r.attempts[k])
    then r.(pc := CleanupSettle, settle := SettleLaunched(r.estimate), settleCalls := r.settleCalls + 1)
    else r.(pc := CleanupRelease, release := ReleaseLaunched, releaseCalls := r.releaseCalls + 1)
  }

  function AfterAttempt(r: Request, o: Outcome, providers: nat): Request {
    var tried := r.(attempts := r.attempts + [o]);
    match o
    case Ok(charge) =>
      tried.(marked := true, pc := Settling, settle := SettleLaunched(charge), settleCalls := r.settleCalls + 1)
    case ClientError => Cleanup(tried)
    case _ => if |tried.attempts| >= providers then Cleanup(tried) else tried
  }

  /** The SQL statement a step issues, if it is one of the storage steps. */
  ghost function StatementOf(g: Gateway, s: Step): Option<Statement>
    requires Enabled(g, s)
  {
    var r := g.requests[s.i];
    match s
    case SideEvict(_, batch) => Some(Evict(r.reserve.now, batch))
    case CommitReserve(i) => Some(Reserve(i, r.tenant, r.estimate, r.reserve.now))
    case RunUpdate(i) => Some(Update(i, Charge(g.cfg, Hold(i, r), r.settle.actual)))
    case RunReinsert(i, now) => Some(Reinsert(i, r.tenant, r.settle.charged, now))
    case RunRelease(i) => Some(Delete(i))
    case _ => None
  }

  ghost function Advance(g: Gateway, s: Step): Request
    requires Enabled(g, s)
  {
    var r := g.requests[s.i];
    match s
    case Cancel(_) =>
      if r.pc.Reserving? then r.(pc := Finished, callback := Attached)
      else if r.pc in {Attempting, Settling} then Cleanup(r)
      else r.(pc := Finished)
    case EstimateDone(_) => r.(pc := Reserving, reserve := ReserveLaunched)
    case ReadClock(_, now) => r.(reserve := ClockRead(now))
    case SideEvict(_, _) => r.(reserve := SideEvicted(r.reserve.now))
    case CommitReserve(_) => r.(reserve := Decided(Admits(g.cfg, g.table, r.tenant, r.estimate, r.reserve.now)))
    case ResumeReserve(_) => r.(pc := if r.reserve.granted then Attempting else Finished)
    case RunCallback(_) =>
      if r.reserve.granted
      then r.(callback := Ran, release := ReleaseLaunched, releaseCalls := r.releaseCalls + 1)
      else r.(callback := Ran)
    case Attempt(_, outcome) => AfterAttempt(r, outcome, g.providers)
    case RunUpdate(i) =>
      var charged := Charge(g.cfg, Hold(i, r), r.settle.actual);
      r.(settle := if i in g.table then Settled(charged) else RowMissed(charged))
    case RunReinsert(_, _) => r.(settle := Settled(r.settle.charged))
    case RunRelease(_) => r.(release := Released)
    case ResumeCleanup(_) => r.(pc := Finished)
  }

  ghost function Do(g: Gateway, s: Step): Gateway
    requires Enabled(g, s)
  {
    var statement := StatementOf(g, s);
    g.(table := if statement.Some? then Exec(g.cfg, g.table, statement.value) else g.table,
       gone := if s.SideEvict? then g.gone + [Inside(g.table, s.batch)] else g.gone,
       requests := g.requests[s.i := Advance(g, s)])
  }

  ghost function After(g: Gateway, schedule: seq<Step>): Gateway {
    if schedule == [] then g
    else
      var before := After(g, schedule[..|schedule| - 1]);
      var s := schedule[|schedule| - 1];
      if Enabled(before, s) then Do(before, s) else before
  }

  /** Nothing is running any more: no coroutine, no storage call, no pending callback. */
  predicate AtRest(r: Request) {
    && r.pc.Finished? && !r.callback.Attached?
    && (r.reserve.NotReserving? || r.reserve.Decided?)
    && (r.settle.NoSettle? || r.settle.Settled?)
    && (r.release.NoRelease? || r.release.Released?)
  }

  predicate Quiescent(g: Gateway) {
    forall i :: 0 <= i < |g.requests| ==> AtRest(g.requests[i])
  }

  // --------------------------------------------- what holds of every request

  predicate Granted(r: Request) {
    r.reserve == Decided(true)
  }

  predicate Succeeded(attempts: seq<Outcome>) {
    attempts != [] && attempts[|attempts| - 1].Ok?
  }

  predicate NoneOk(attempts: seq<Outcome>) {
    forall k :: 0 <= k < |attempts| ==> !attempts[k].Ok?
  }

  predicate SomeBillable(attempts: seq<Outcome>) {
    exists k :: 0 <= k < |attempts| && Billable(attempts[k])
  }

  /** No storage call has been made for the hold. */
  predicate Untouched(r: Request) {
    r.settle.NoSettle? && r.release.NoRelease? && !r.marked && r.settleCalls == r.releaseCalls == 0
  }

  /** The usage a settle of this request must carry. */
  function Reported(r: Request): int {
    if Succeeded(r.attempts) then r.attempts[|r.attempts| - 1].charge else r.estimate
  }

  /** The hold is being settled, once and for the right amount. */
  predicate BeingSettled(cfg: Config, i: nat, r: Request) {
    && Granted(r) && r.callback.NoCallback? && r.release.NoRelease?
    && r.settleCalls == 1 && r.releaseCalls == 0
    && r.marked == Succeeded(r.attempts) && (!r.marked ==> NoneOk(r.attempts) && SomeBillable(r.attempts))
    && match r.settle {
         case NoSettle => false
         case SettleLaunched(actual) => actual == Reported(r)
         case RowMissed(charged) => charged == Charge(cfg, Hold(i, r), Reported(r))
         case Settled(charged) => charged == Charge(cfg, Hold(i, r), Reported(r))
       }
  }

  /** The hold is being released, once: nothing was ever billed against it. */
  predicate BeingReleased(r: Request) {
    && Granted(r) && r.settle.NoSettle? && !r.release.NoRelease? && !r.marked
    && r.settleCalls == 0 && r.releaseCalls == 1
    && NoneOk(r.attempts) && !SomeBillable(r.attempts)
  }

  /** Cancelled while its reserve call was under way: the callback will deal with the outcome. */
  predicate Orphaned(r: Request) {
    Untouched(r) && r.attempts == [] && r.callback.Attached? && !r.reserve.NotReserving?
  }

  /** Refused, or cancelled before reserving: there is nothing to reconcile. */
  predicate NeverHeld(r: Request) {
    Untouched(r) && r.attempts == [] && !r.callback.Attached? && r.reserve in {NotReserving, Decided(false)}
  }

  predicate Sound(cfg: Config, providers: nat, i: nat, r: Request) {
    match r.pc
    case Estimating => Untouched(r) && r.reserve.NotReserving? && r.callback.NoCallback? && r.attempts == []
    case Reserving => Untouched(r) && !r.reserve.NotReserving? && r.callback.NoCallback? && r.attempts == []
    case Attempting =>
      Untouched(r) && Granted(r) && r.callback.NoCallback? && NoneOk(r.attempts) && |r.attempts| < providers
    case Settling => BeingSettled(cfg, i, r) && r.marked
    case CleanupSettle => BeingSettled(cfg, i, r) && !r.marked
    case CleanupRelease => BeingReleased(r) && r.callback.NoCallback?
    case Finished =>
      || BeingSettled(cfg, i, r)
      || (BeingReleased(r) && !r.callback.Attached?)
      || Orphaned(r)
      || NeverHeld(r)
  }

  lemma CleanupIsSound(cfg: Config, providers: nat, i: nat, r: Request)
    requires Granted(r) && r.callback.NoCallback?
    requires (Untouched(r) && NoneOk(r.attempts)) || (BeingSettled(cfg, i, r) && r.marked)
    ensures Sound(cfg, providers, i, Cleanup(r))
  {
  }

  lemma AdvanceIsSound(g: Gateway, s: Step)
    requires g.providers > 0 && Enabled(g, s) && Sound(g.cfg, g.providers, s.i, g.requests[s.i])
    ensures Sound(g.cfg, g.providers, s.i, Advance(g, s))
  {
    hide Admits, Evictable;
    var r := g.requests[s.i];
    match s
    case Cancel(i) =>
      if r.pc in {Attempting, Settling} {
        CleanupIsSound(g.cfg, g.providers, i, r);
      }
    case Attempt(i, o) =>
      var tried := r.(attempts := r.attempts + [o]);
      if !o.Ok? {
        CleanupIsSound(g.cfg, g.providers, i, tried);
      }
    case _ =>
  }

  // -------------------------------------------------- exactly-once reconciliation

  ghost predicate AllSound(g: Gateway) {
    && g.providers > 0
    && forall i :: 0 <= i < |g.requests| ==> Sound(g.cfg, g.providers, i, g.requests[i])
  }

  lemma {:induction false} RunsAreSound(g: Gateway, schedule: seq<Step>)
    requires Initial(g)
    ensures AllSound(After(g, schedule))
    ensures |After(g, schedule).requests| == |g.requests| && After(g, schedule).cfg == g.cfg
  {
    if schedule != [] {
      RunsAreSound(g, schedule[..|schedule| - 1]);
      var before, s := After(g, schedule[..|schedule| - 1]), schedule[|schedule| - 1];
      if Enabled(before, s) {
        AdvanceIsSound(before, s);
      }
    }
  }

  /**
   Exactly-once reconciliation. In every interleaving of any number of requests with cancellations
   anywhere, a hold is never both settled and released nor either one twice, a request marked as
   spent is never released, and at rest every granted hold has had exactly one of the two, an
   orphaned one included.
   */
  lemma ExactlyOnce(g: Gateway, schedule: seq<Step>, i: nat)
    requires Initial(g) && i < |g.requests|
    ensures i < |After(g, schedule).requests|
    ensures
      var r := After(g, schedule).requests[i];
      && r.settleCalls + r.releaseCalls <= 1
      && (r.marked ==> r.releaseCalls == 0)
      && (!Granted(r) ==> r.settleCalls + r.releaseCalls == 0)
      && (AtRest(r) && Granted(r) ==>
            && r.settleCalls + r.releaseCalls == 1
            && (r.settle.Settled? <==> r.settleCalls == 1) && (r.release.Released? <==> r.releaseCalls == 1))
  {
    RunsAreSound(g, schedule);
    assert Sound(g.cfg, After(g, schedule).providers, i, After(g, schedule).requests[i]);
  }

  // ------------------------------------------------------- every run comes to rest

  function Remaining(providers: nat, r: Request): int {
    (match r.pc
     case Estimating => 50 case Reserving => 40 case Attempting => 30
     case Settling => 10 case CleanupSettle => 10 case CleanupRelease => 10 case Finished => 0)
    + (if r.pc.Attempting? then providers - |r.attempts| else if r.pc in {Estimating, Reserving} then providers else 0)
    + (match r.reserve
       case NotReserving => 0 case ReserveLaunched => 3 case ClockRead(_) => 2 case SideEvicted(_) => 1
       case Decided(_) => 0)
    + (if r.callback.Attached? then 5 else 0)
    + (match r.settle case SettleLaunched(_) => 2 case RowMissed(_) => 1 case _ => 0)
    + (if r.release.ReleaseLaunched? then 1 else 0)
  }

  /** Every step uses something up, so no schedule can take effect for ever. */
  lemma StepsRunOut(g: Gateway, s: Step)
    requires AllSound(g) && Enabled(g, s)
    ensures 0 <= Remaining(g.providers, Advance(g, s)) < Remaining(g.providers, g.requests[s.i])
  {
    assert Sound(g.cfg, g.providers, s.i, g.requests[s.i]);
    hide Sound, Remaining, Advance, Enabled;
    AdvanceIsSound(g, s);
    RemainingNotNegative(g.cfg, g.providers, s.i, Advance(g, s));
    StepUsesUp(g, s);
  }

  lemma StepUsesUp(g: Gateway, s: Step)
    requires Enabled(g, s) && Sound(g.cfg, g.providers, s.i, g.requests[s.i])
    ensures Remaining(g.providers, Advance(g, s)) < Remaining(g.providers, g.requests[s.i])
  {
    hide Admits, Evictable;
  }

  function RemainingIn(providers: nat, requests: seq<Request>): int {
    if requests == [] then 0
    else RemainingIn(providers, requests[..|requests| - 1]) + Remaining(providers, requests[|requests| - 1])
  }

  /** How many steps of a schedule were enabled when their turn came. */
  ghost function Effective(g: Gateway, schedule: seq<Step>): nat {
    if schedule == [] then 0
    else
      var earlier, s := schedule[..|schedule| - 1], schedule[|schedule| - 1];
      Effective(g, earlier) + if Enabled(After(g, earlier), s) then 1 else 0
  }

  lemma {:induction false} RemainingUpdate(providers: nat, requests: seq<Request>, i: nat, r: Request)
    requires i < |requests|
    ensures RemainingIn(providers, requests[i := r])
         == RemainingIn(providers, requests) - Remaining(providers, requests[i]) + Remaining(providers, r)
  {
    hide Remaining;
    var last := |requests| - 1;
    if i < last {
      assert requests[i := r][..last] == requests[..last][i := r];
      RemainingUpdate(providers, requests[..last], i, r);
    } else {
      assert requests[i := r][..last] == requests[..last];
    }
  }

  lemma RemainingNotNegative(cfg: Config, providers: nat, i: nat, r: Request)
    requires Sound(cfg, providers, i, r)
    ensures Remaining(providers, r) >= 0
  {
  }

  lemma {:induction false} AllRemainingNotNegative(g: Gateway, n: nat)
    requires AllSound(g) && n <= |g.requests|
    ensures RemainingIn(g.providers, g.requests[..n]) >= 0
  {
    if n > 0 {
      assert g.requests[..n][..n - 1] == g.requests[..n - 1];
      RemainingNotNegative(g.cfg, g.providers, n - 1, g.requests[n - 1]);
      AllRemainingNotNegative(g, n - 1);
    }
  }

  lemma {:induction false} RemainingAtFirst(providers: nat, requests: seq<Request>)
    requires forall i :: 0 <= i < |requests| ==> requests[i] == NewRequest(requests[i].tenant, requests[i].estimate)
    ensures RemainingIn(providers, requests) == |requests| * (50 + providers)
  {
    if requests != [] {
      RemainingAtFirst(providers, requests[..|requests| - 1]);
      assert Remaining(providers, requests[|requests| - 1]) == 50 + providers;
    }
  }

  lemma {:induction false} EffectiveUsesUp(g: Gateway, schedule: seq<Step>)
    requires Initial(g)
    ensures After(g, schedule).providers == g.providers
    ensures Effective(g, schedule) + RemainingIn(g.providers, After(g, schedule).requests)
         <= RemainingIn(g.providers, g.requests)
  {
    if schedule != [] {
      var earlier, s := schedule[..|schedule| - 1], schedule[|schedule| - 1];
      var before := After(g, earlier);
      EffectiveUsesUp(g, earlier);
      RunsAreSound(g, earlier);
      if Enabled(before, s) {
        StepsRunOut(before, s);
        hide Sound, AllSound, Remaining, RemainingIn, Enabled;
        RemainingUpdate(g.providers, before.requests, s.i, Advance(before, s));
      }
    }
  }

  /**
   No schedule can take effect for ever: whatever is tried and whenever it is cancelled, at most
   fifty steps and one for each provider ever happen for each request.
   */
  lemma SchedulesEnd(g: Gateway, schedule: seq<Step>)
    requires Initial(g)
    ensures Effective(g, schedule) <= |g.requests| * (50 + g.providers)
  {
    hide *;
    RunsAreSound(g, schedule);
    EffectiveUsesUp(g, schedule);
    var end := After(g, schedule);
    AllRemainingNotNegative(end, |end.requests|);
    assert end.requests[..|end.requests|] == end.requests;
    StartsFresh(g);
    RemainingAtFirst(g.providers, g.requests);
  }

  lemma StartsFresh(g: Gateway)
    requires Initial(g)
    ensures forall i :: 0 <= i < |g.requests| ==>
      g.requests[i] == NewRequest(g.requests[i].tenant, g.requests[i].estimate)
  {
  }

  lemma {:induction false} SomeBatch(t: Table, cutoff: int) returns (batch: set<Id>)
    ensures Evictable(t, cutoff, batch)
  {
    var expired := Expired(t, cutoff);
    batch := expired;
    while |batch| > EVICTION_BATCH
      invariant batch <= expired && (|batch| == |expired| || |batch| >= EVICTION_BATCH)
      decreases |batch|
    {
      var id :| id in batch;
      batch := batch - {id};
    }
    if |expired| < EVICTION_BATCH {
      assert |batch| == |expired|;
    }
  }

  /** A gateway that is not at rest can always move without any cancellation: nothing waits for ever. */
  lemma NeverStuck(g: Gateway, i: nat) returns (s: Step)
    requires AllSound(g) && i < |g.requests| && !AtRest(g.requests[i])
    ensures Enabled(g, s) && s.i == i && !s.Cancel?
  {
    var r := g.requests[i];
    assert Sound(g.cfg, g.providers, i, r);
    if r.reserve.ReserveLaunched? {
      s := ReadClock(i, 0);
    } else if r.reserve.ClockRead? {
      var batch := SomeBatch(g.table, r.reserve.now - g.cfg.window);
      s := SideEvict(i, batch);
    } else if r.reserve.SideEvicted? {
      s := CommitReserve(i);
    } else if r.settle.SettleLaunched? {
      s := RunUpdate(i);
    } else if r.settle.RowMissed? {
      s := RunReinsert(i, 0);
    } else if r.release.ReleaseLaunched? {
      s := RunRelease(i);
    } else if r.callback.Attached? {
      s := RunCallback(i);
    } else {
      s := match r.pc
        case Estimating => EstimateDone(i)
        case Reserving => ResumeReserve(i)
        case Attempting => Attempt(i, Timeout)
        case _ => ResumeCleanup(i);
    }
  }
}
