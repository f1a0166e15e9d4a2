/**
 Why the bound needs its hypothesis: the clock is read before the write lock is taken, so an eviction
 on behalf of a later request can overtake a reading, and the admission decided on it cannot see what
 went.
 */
module OvertakenReading {
  import opened MapSum
  import opened Ledger
  import opened Router
  import opened RouterSpend

  /** Three requests for the whole limit: the second for another tenant. */
  function Start(cfg: Config): Gateway {
    Requests(cfg, map[], [], NewRequest("t", cfg.limit), NewRequest("u", cfg.limit), NewRequest("t", cfg.limit))
  }

  function Requests(cfg: Config, table: Table, gone: seq<Table>, a: Request, b: Request, c: Request): Gateway {
    Gateway(cfg, 1, table, gone, [a, b, c])
  }

  /**
   The third request reads the clock one window after the first was admitted; the second, a millisecond
   later, evicts first.
   */
  function Schedule(cfg: Config): seq<Step> {
    [EstimateDone(0), ReadClock(0, 0), SideEvict(0, {}), CommitReserve(0),
     EstimateDone(2), ReadClock(2, cfg.window),
     EstimateDone(1), ReadClock(1, cfg.window + 1), SideEvict(1, {0}),
     SideEvict(2, {}), CommitReserve(2)]
  }

  function At(r: Request, pc: Pc, reserve: ReserveTask): Request {
    r.(pc := pc, reserve := reserve)
  }

  lemma {:induction false} Step(g: Gateway, schedule: seq<Step>, k: nat, before: Gateway, after: Gateway)
    requires k < |schedule| && After(g, schedule[..k]) == before && Enabled(before, schedule[k])
    requires Do(before, schedule[k]) == after
    ensures After(g, schedule[..k + 1]) == after
  {
    hide Enabled, Do;
    assert schedule[..k + 1][..k] == schedule[..k];
  }

  lemma Starts(cfg: Config, table: Table, gone: seq<Table>, a: Request, b: Request, c: Request, i: nat)
    requires i < 3 && [a, b, c][i].pc.Estimating? && [a, b, c][i].reserve.NotReserving?
    ensures
      var g := Requests(cfg, table, gone, a, b, c);
      var read := At([a, b, c][i], Reserving, ReserveLaunched);
      var next := Requests(cfg, table, gone,
                           if i == 0 then read else a, if i == 1 then read else b, if i == 2 then read else c);
      Enabled(g, EstimateDone(i)) && Do(g, EstimateDone(i)) == next
  {
  }

  lemma Reads(cfg: Config, table: Table, gone: seq<Table>, a: Request, b: Request, c: Request, i: nat, now: int)
    requires i < 3 && [a, b, c][i].pc.Reserving? && [a, b, c][i].reserve.ReserveLaunched?
    ensures
      var g := Requests(cfg, table, gone, a, b, c);
      var read := At([a, b, c][i], Reserving, ClockRead(now));
      var next := Requests(cfg, table, gone,
                           if i == 0 then read else a, if i == 1 then read else b, if i == 2 then read else c);
      Enabled(g, ReadClock(i, now)) && Do(g, ReadClock(i, now)) == next
  {
  }

  /** An eviction of everything expired, which is a full table or nothing. */
  lemma Evicts(cfg: Config, table: Table, gone: seq<Table>, a: Request, b: Request, c: Request, i: nat, now: int,
      batch: set<Id>)
    requires i < 3 && [a, b, c][i].pc.Reserving? && [a, b, c][i].reserve == ClockRead(now)
    requires batch == Expired(table, now - cfg.window) && |batch| <= 1 && (batch == {} || batch == table.Keys)
    ensures
      var g := Requests(cfg, table, gone, a, b, c);
      var done := At([a, b, c][i], Reserving, SideEvicted(now));
      var next := Requests(cfg, if batch == {} then table else map[], gone + [if batch == {} then map[] else table],
                           if i == 0 then done else a, if i == 1 then done else b, if i == 2 then done else c);
      Enabled(g, SideEvict(i, batch)) && Do(g, SideEvict(i, batch)) == next
  {
    assert Inside(table, batch) == if batch == {} then map[] else table;
    assert table - batch == if batch == {} then table else map[];
  }

  lemma Commits(cfg: Config, gone: seq<Table>, a: Request, b: Request, c: Request, i: nat, now: int)
    requires i < 3 && [a, b, c][i].pc.Reserving? && [a, b, c][i].reserve == SideEvicted(now)
    requires [a, b, c][i].estimate <= cfg.limit
    ensures
      var g := Requests(cfg, map[], gone, a, b, c);
      var r := [a, b, c][i];
      var done := At(r, Reserving, Decided(true));
      var next := Requests(cfg, map[i := Row(r.tenant, now, r.estimate, false)], gone,
                           if i == 0 then done else a, if i == 1 then done else b, if i == 2 then done else c);
      Enabled(g, CommitReserve(i)) && Do(g, CommitReserve(i)) == next
  {
    assert Used(map[], [a, b, c][i].tenant, now - cfg.window) == 0;
  }

  lemma ScheduleIs(cfg: Config)
    ensures
      var steps, w := Schedule(cfg), cfg.window;
      && |steps| == 11 && steps[..0] == []
      && steps[0] == EstimateDone(0) && steps[1] == ReadClock(0, 0) && steps[2] == SideEvict(0, {})
      && steps[3] == CommitReserve(0)
      && steps[4] == EstimateDone(2) && steps[5] == ReadClock(2, w)
      && steps[6] == EstimateDone(1) && steps[7] == ReadClock(1, w + 1) && steps[8] == SideEvict(1, {0})
      && steps[9] == SideEvict(2, {}) && steps[10] == CommitReserve(2) && steps[..11] == steps
  {
  }

  function Admitted(cfg: Config): Table {
    map[0 := Row("t", 0, cfg.limit, false)]
  }

  /** The first request is admitted at instant zero. */
  lemma FirstAdmitted(cfg: Config)
    ensures
      var l := cfg.limit;
      After(Start(cfg), Schedule(cfg)[..4])
        == Requests(cfg, Admitted(cfg), [map[]], At(NewRequest("t", l), Reserving, Decided(true)),
                    NewRequest("u", l), NewRequest("t", l))
  {
    var g, steps, none := Start(cfg), Schedule(cfg), map[];
    var a, b, c := NewRequest("t", cfg.limit), NewRequest("u", cfg.limit), NewRequest("t", cfg.limit);
    var a1, a2, a3 := At(a, Reserving, ReserveLaunched), At(a, Reserving, ClockRead(0)),
        At(a, Reserving, SideEvicted(0));
    var s1, s2, s3 := Requests(cfg, none, [], a1, b, c), Requests(cfg, none, [], a2, b, c),
        Requests(cfg, none, [none], a3, b, c);
    assert [] + [none] == [none] && Expired(none, 0 - cfg.window) == {} && After(g, []) == g;
    ScheduleIs(cfg);
    hide After, Do, Enabled, Advance, StatementOf, Exec, Admits, Used, Evictable, Schedule, Requests, Expired, Inside;
    Starts(cfg, none, [], a, b, c, 0);
    Step(g, steps, 0, g, s1);
    Reads(cfg, none, [], a1, b, c, 0, 0);
    Step(g, steps, 1, s1, s2);
    Evicts(cfg, none, [], a2, b, c, 0, 0, {});
    Step(g, steps, 2, s2, s3);
    Commits(cfg, [none], a3, b, c, 0, 0);
    Step(g, steps, 3, s3, Do(s3, CommitReserve(0)));
  }

  /** The third request reads the clock, one window after the first was admitted. */
  lemma ThirdReads(cfg: Config)
    ensures
      var l, w := cfg.limit, cfg.window;
      After(Start(cfg), Schedule(cfg)[..6])
        == Requests(cfg, Admitted(cfg), [map[]], At(NewRequest("t", l), Reserving, Decided(true)),
                    NewRequest("u", l), At(NewRequest("t", l), Reserving, ClockRead(w)))
  {
    FirstAdmitted(cfg);
    ScheduleIs(cfg);
    var g, steps, none: Table, w := Start(cfg), Schedule(cfg), map[], cfg.window;
    var t1, gone := Admitted(cfg), [none];
    var a, b, c := At(NewRequest("t", cfg.limit), Reserving, Decided(true)), NewRequest("u", cfg.limit),
        NewRequest("t", cfg.limit);
    var c1, c2 := At(c, Reserving, ReserveLaunched), At(c, Reserving, ClockRead(w));
    var s4, s5, s6 := Requests(cfg, t1, gone, a, b, c), Requests(cfg, t1, gone, a, b, c1),
        Requests(cfg, t1, gone, a, b, c2);
    hide After, Do, Enabled, Advance, StatementOf, Exec, Admits, Used, Evictable, Schedule, Requests, Expired,
      Inside, Admitted, Start;
    Starts(cfg, t1, gone, a, b, c, 2);
    Step(g, steps, 4, s4, s5);
    Reads(cfg, t1, gone, a, b, c1, 2, w);
    Step(g, steps, 5, s5, s6);
  }

  /** The second request, a millisecond later, evicts what the third still has to count. */
  lemma EvictedMeanwhile(cfg: Config)
    ensures
      var l, w := cfg.limit, cfg.window;
      After(Start(cfg), Schedule(cfg)[..9])
        == Requests(cfg, map[], [map[], Admitted(cfg)], At(NewRequest("t", l), Reserving, Decided(true)),
                    At(NewRequest("u", l), Reserving, SideEvicted(w + 1)),
                    At(NewRequest("t", l), Reserving, ClockRead(w)))
  {
    ThirdReads(cfg);
    ScheduleIs(cfg);
    var g, steps, w := Start(cfg), Schedule(cfg), cfg.window;
    var t1, gone := Admitted(cfg), [map[]];
    var a, b, c := At(NewRequest("t", cfg.limit), Reserving, Decided(true)), NewRequest("u", cfg.limit),
                   At(NewRequest("t", cfg.limit), Reserving, ClockRead(w));
    var b1, b2 := At(b, Reserving, ReserveLaunched), At(b, Reserving, ClockRead(w + 1));
    var s6, s7, s8 := Requests(cfg, t1, gone, a, b, c), Requests(cfg, t1, gone, a, b1, c),
        Requests(cfg, t1, gone, a, b2, c);
    hide After, Do, Enabled, Advance, StatementOf, Exec, Admits, Used, Evictable, Schedule, Requests, Expired,
      Inside, Admitted, Start;
    Starts(cfg, t1, gone, a, b, c, 1);
    Step(g, steps, 6, s6, s7);
    Reads(cfg, t1, gone, a, b1, c, 1, w + 1);
    Step(g, steps, 7, s7, s8);
    EvictsTheFirst(cfg, a, b2, c);
    Step(g, steps, 8, s8, Do(s8, SideEvict(1, {0})));
  }

  lemma EvictsTheFirst(cfg: Config, a: Request, b: Request, c: Request)
    requires b.pc.Reserving? && b.reserve == ClockRead(cfg.window + 1)
    ensures
      var g := Requests(cfg, Admitted(cfg), [map[]], a, b, c);
      Enabled(g, SideEvict(1, {0})) && Do(g, SideEvict(1, {0}))
        == Requests(cfg, map[], [map[], Admitted(cfg)], a, At(b, Reserving, SideEvicted(cfg.window + 1)), c)
  {
    var t1, gone, none, now := Admitted(cfg), [map[]], map[], cfg.window + 1;
    assert Expired(t1, now - cfg.window) == {0} == t1.Keys && gone + [t1] == [none, t1];
    hide Do, Enabled, Requests, Expired, Admitted;
    Evicts(cfg, t1, gone, a, b, c, 1, now, {0});
  }

  /** The third request is admitted on the reading it took, one window after the first. */
  lemma AdmittedAgain(cfg: Config)
    ensures
      var l, w := cfg.limit, cfg.window;
      After(Start(cfg), Schedule(cfg))
        == Requests(cfg, map[2 := Row("t", w, l, false)], [map[], Admitted(cfg), map[]],
                    At(NewRequest("t", l), Reserving, Decided(true)),
                    At(NewRequest("u", l), Reserving, SideEvicted(w + 1)),
                    At(NewRequest("t", l), Reserving, Decided(true)))
  {
    EvictedMeanwhile(cfg);
    var g, steps, none, w := Start(cfg), Schedule(cfg), map[], cfg.window;
    var gone, all := [none, Admitted(cfg)], [none, Admitted(cfg), none];
    var a, b, c := At(NewRequest("t", cfg.limit), Reserving, Decided(true)),
                   At(NewRequest("u", cfg.limit), Reserving, SideEvicted(w + 1)), NewRequest("t", cfg.limit);
    var c2, c3 := At(c, Reserving, ClockRead(w)), At(c, Reserving, SideEvicted(w));
    var s9, s10 := Requests(cfg, none, gone, a, b, c2), Requests(cfg, none, all, a, b, c3);
    assert Expired(none, w - w) == {} && gone + [none] == all;
    ScheduleIs(cfg);
    hide After, Do, Enabled, Advance, StatementOf, Exec, Admits, Used, Evictable, Schedule, Requests, Expired,
      Inside, Admitted, Start;
    Evicts(cfg, none, gone, a, b, c2, 2, w, {});
    Step(g, steps, 9, s9, s10);
    Commits(cfg, all, a, b, c3, 2, w);
    Step(g, steps, 10, s10, Do(s10, CommitReserve(2)));
  }

  lemma BothCounted(cfg: Config, w: Row -> int)
    requires w == Between("t", 0, cfg.window)
    ensures Sum(map[2 := Row("t", cfg.window, cfg.limit, false)], w) == cfg.limit
    ensures SumTables([map[], Admitted(cfg), map[]], w) == cfg.limit
  {
    var none: Table := map[];
    var tables: seq<Table> := [none, Admitted(cfg), none];
    Put(none, 2, Row("t", cfg.window, cfg.limit, false), w);
    Put(none, 0, Row("t", 0, cfg.limit, false), w);
    assert Admitted(cfg) == none[0 := Row("t", 0, cfg.limit, false)];
    hide Sum, Admitted;
    TablesAppend([], none, w);
    TablesAppend([none], Admitted(cfg), w);
    TablesAppend([none, Admitted(cfg)], none, w);
    assert [] + [none] == [none] && [none] + [Admitted(cfg)] == [none, Admitted(cfg)];
    assert tables == [none, Admitted(cfg)] + [none];
  }

  /**
   With any limit and any window, a reading overtaken by a single millisecond: both requests of the
   tenant are granted the whole limit, nothing was settled, and the window that ends at the second
   reading holds twice the limit.
   */
  lemma OvertakenReadingDoubles(cfg: Config)
    ensures Initial(Start(cfg))
    ensures
      var end := After(Start(cfg), Schedule(cfg));
      var w := Between("t", 0, cfg.window);
      && |end.requests| == 3 && Granted(end.requests[0]) && Granted(end.requests[2])
      && (forall i :: 0 <= i < 3 ==> end.requests[i].settle.NoSettle? && end.requests[i].release.NoRelease?)
      && Sum(end.table, w) + SumTables(end.gone, w) == 2 * cfg.limit
  {
    AdmittedAgain(cfg);
    BothCounted(cfg, Between("t", 0, cfg.window));
    hide After, Sum, SumTables;
  }
}
