/** What the restart phase guarantees of each unit, read off its call trace (pkg/applier/applier.go,
    pkg/applier/build.go). */
module Disposal {
  import opened Common
  import opened Units
  import opened Restarts

  /** How many calls of the trace are one of two. */
  function Count(calls: seq<Call>, a: Call, b: Call): nat {
    if calls == [] then 0
    else
      Count(calls[..|calls| - 1], a, b) + if calls[|calls| - 1] in {a, b} then 1 else 0
  }

  /** Synchronous restarts of the unit: by the ordinary path, or as a consumer. */
  function SyncRestarts(calls: seq<Call>, unit: string): nat { Count(calls, Restart(unit), RestartAlone(unit)) }

  /** Deferred restarts of the unit, ordinary or as a consumer. */
  function DeferredRestarts(calls: seq<Call>, unit: string): nat {
    Count(calls, DeferRestart(unit), DeferRestartAlone(unit))
  }

  lemma {:induction false} CountConcat(x: seq<Call>, y: seq<Call>, a: Call, b: Call)
    ensures Count(x + y, a, b) == Count(x, a, b) + Count(y, a, b)
  {
    if y == [] {
      assert x + y == x;
    } else {
      var n := |y| - 1;
      CountConcat(x, y[..n], a, b);
      assert (x + y)[..|x| + n] == x + y[..n];
    }
  }

  lemma {:induction false} CountNone(calls: seq<Call>, a: Call, b: Call)
    requires a !in calls && b !in calls
    ensures Count(calls, a, b) == 0
  {
    if calls != [] {
      CountNone(calls[..|calls| - 1], a, b);
    }
  }

  // ----- the turns of a list of units

  /** A turn issues systemd calls on its own unit only, and records that unit at most once. */
  predicate OwnTurn(t: Turn, u: string) {
    && (forall c | c in t.calls :: c in {Query(u), Restart(u), RestartAlone(u)})
    && (t.restarted == [] || (t.restarted == [u] && t.failed == []))
    && (t.failed == [] || t.failed == [u])
  }

  ghost predicate OwnCalls(turn: string -> Turn) { forall u :: OwnTurn(turn(u), u) }

  lemma OrdinaryTurnIsOwn(u: string, oneshots: set<string>, env: Env)
    ensures OwnTurn(OrdinaryTurn(u, oneshots, env), u)
  {
  }

  lemma ConsumerTurnIsOwn(u: string, env: Env)
    ensures OwnTurn(ConsumerTurn(u, env), u)
  {
  }

  lemma TurnsAreOwn(oneshots: set<string>, env: Env)
    ensures OwnCalls(OrdinaryTurnOf(oneshots, env)) && OwnCalls(ConsumerTurnOf(env))
  {
    forall u ensures OwnTurn(OrdinaryTurnOf(oneshots, env)(u), u) { OrdinaryTurnIsOwn(u, oneshots, env); }
    forall u ensures OwnTurn(ConsumerTurnOf(env)(u), u) { ConsumerTurnIsOwn(u, env); }
  }

  lemma OthersTurn(t: Turn, u: string, unit: string)
    requires OwnTurn(t, u) && u != unit
    ensures SyncRestarts(t.calls, unit) == 0
  {
    CountNone(t.calls, Restart(unit), RestartAlone(unit));
  }

  lemma {:induction false} EachCalls(units: seq<string>, self: set<string>, turn: string -> Turn)
    requires OwnCalls(turn)
    ensures forall c | c in Each(units, self, turn).calls :: c.Query? || c.Restart? || c.RestartAlone?
  {
    if units != [] {
      EachCalls(units[..|units| - 1], self, turn);
      assert OwnTurn(turn(units[|units| - 1]), units[|units| - 1]);
    }
  }

  lemma {:induction false} EachCount(units: seq<string>, self: set<string>, turn: string -> Turn, unit: string)
    requires Distinct(units) && OwnCalls(turn)
    ensures SyncRestarts(Each(units, self, turn).calls, unit) ==
            if unit in units && unit !in self then SyncRestarts(turn(unit).calls, unit) else 0
  {
    if units != [] {
      var n, u := |units| - 1, units[|units| - 1];
      EachCount(units[..n], self, turn, unit);
      assert units == units[..n] + [u];
      CountConcat(Each(units[..n], self, turn).calls, if u in self then []
        else turn(u).calls, Restart(unit), RestartAlone(unit));
      if u != unit {
        OthersTurn(turn(u), u, unit);
      }
    }
  }

  /** Which units are recorded, and how. */
  lemma {:induction false} EachRecorded(units: seq<string>, self: set<string>, turn: string -> Turn)
    requires OwnCalls(turn)
    ensures forall u :: u in Each(units, self, turn).restarted <==> u in units && u !in self && u in turn(u).restarted
    ensures forall u :: u in Each(units, self, turn).failed <==> u in units && u !in self && u in turn(u).failed
  {
    if units != [] {
      var n, u := |units| - 1, units[|units| - 1];
      EachRecorded(units[..n], self, turn);
      assert units == units[..n] + [u] && OwnTurn(turn(u), u);
    }
  }

  lemma {:induction false} EachDistinct(units: seq<string>, self: set<string>, turn: string -> Turn)
    requires Distinct(units) && OwnCalls(turn)
    ensures Distinct(Each(units, self, turn).restarted) && Distinct(Each(units, self, turn).failed)
  {
    if units != [] {
      var n, u := |units| - 1, units[|units| - 1];
      EachDistinct(units[..n], self, turn);
      EachRecorded(units[..n], self, turn);
      assert OwnTurn(turn(u), u) && u !in units[..n];
      if u !in self {
        DistinctConcat(Each(units[..n], self, turn).restarted, turn(u).restarted);
        DistinctConcat(Each(units[..n], self, turn).failed, turn(u).failed);
      }
    }
  }

  lemma EachRecords(units: seq<string>, self: set<string>, turn: string -> Turn)
    requires Distinct(units) && OwnCalls(turn)
    ensures var t := Each(units, self, turn);
            && Distinct(t.restarted) && Distinct(t.failed)
            && (forall u | u in t.restarted :: u !in t.failed)
            && (forall u :: u in t.restarted <==> u in units && u !in self && u in turn(u).restarted)
            && (forall u :: u in t.failed <==> u in units && u !in self && u in turn(u).failed)
  {
    EachRecorded(units, self, turn);
    EachDistinct(units, self, turn);
    forall u | u in Each(units, self, turn).restarted ensures u !in Each(units, self, turn).failed {
      assert OwnTurn(turn(u), u);
    }
  }

  lemma {:induction false} MapCallsMembers(units: seq<string>, call: string -> Call)
    ensures forall c :: c in MapCalls(units, call) <==> exists u | u in units :: c == call(u)
  {
    if units != [] {
      MapCallsMembers(units[..|units| - 1], call);
      assert units == units[..|units| - 1] + [units[|units| - 1]];
    }
  }

  lemma {:induction false} MapCallsCount(units: seq<string>, call: string -> Call, unit: string, other: Call)
    requires Distinct(units)
    requires forall u :: call(u) != other
    requires forall u :: call(u) == call(unit) ==> u == unit
    ensures Count(MapCalls(units, call), call(unit), other) == if unit in units then 1 else 0
  {
    if units != [] {
      MapCallsCount(units[..|units| - 1], call, unit, other);
      assert units == units[..|units| - 1] + [units[|units| - 1]];
    }
  }

  lemma {:induction false} SelfOfMembers(units: seq<string>, self: set<string>)
    requires Distinct(units)
    ensures Distinct(SelfOf(units, self))
    ensures forall u :: u in SelfOf(units, self) <==> u in units && u in self
  {
    if units != [] {
      SelfOfMembers(units[..|units| - 1], self);
      assert units == units[..|units| - 1] + [units[|units| - 1]];
    }
  }

  lemma {:induction false} StopCallsMembers(stops: seq<string>, selfRestarts: seq<string>)
    ensures forall c ::
              c in StopCalls(stops, selfRestarts) <==> c.DeferStop? && c.unit in stops && c.unit !in selfRestarts
  {
    if stops != [] {
      StopCallsMembers(stops[..|stops| - 1], selfRestarts);
      assert stops == stops[..|stops| - 1] + [stops[|stops| - 1]];
    }
  }

  lemma {:induction false} OperationCallsMembers(activations: seq<(string, string)>)
    ensures forall c | c in OperationCalls(activations) :: c.Operation?
  {
    if activations != [] {
      OperationCallsMembers(activations[..|activations| - 1]);
    }
  }

  // ----- the whole trace after the builds

  /** One apply whose builds succeeded. */
  datatype Run = Run(
    p: Phase, deps: map<string, UnitDeps>, self: set<string>, stops: seq<string>, env: Env,
      sort: set<string> -> seq<string>)
  {
    function Trace(): Turn { AfterBuilds(p, deps, self, stops, env, sort) }

    function Ordinary(): set<string> { Restarts.Ordinary(p, deps) }

    function Consumers(): set<string> { Restarts.Consumers(p, deps) }

    /** The one-shot is left to its timer, or its status cannot be read. */
    predicate Gated(unit: string) {
      unit in p.oneshotUnits && (env.query(unit).None? || TimerTriggered(env.query(unit).value))
    }

    /** The consumer is left to systemd, or its status cannot be read. */
    predicate Left(unit: string) {
      env.query(unit).None? || ExternallyActivated(env.query(unit).value)
    }
  }

  /** The trace in its parts. */
  lemma TraceParts(r: Run, a: Call, b: Call)
    ensures var restarts, consumers := SelfOf(r.sort(r.Ordinary()), r.self), SelfOf(r.sort(r.Consumers()), r.self);
            Count(r.Trace().calls, a, b) ==
              Count(OperationCalls(r.p.activations), a, b)
              + Count(OrdinaryTurns(r.p, r.deps, r.self, r.env, r.sort).calls, a, b)
              + Count(ConsumerTurns(r.p, r.deps, r.self, r.env, r.sort).calls, a, b)
              + Count(MapCalls(restarts, Restarting), a, b)
              + Count(StopCalls(r.stops, restarts), a, b)
              + Count(MapCalls(consumers, RestartingAlone), a, b)
  {
    var ops, first := OperationCalls(r.p.activations), OrdinaryTurns(r.p, r.deps, r.self, r.env, r.sort).calls;
    var second := ConsumerTurns(r.p, r.deps, r.self, r.env, r.sort).calls;
    var restarts, consumers := SelfOf(r.sort(r.Ordinary()), r.self), SelfOf(r.sort(r.Consumers()), r.self);
    var mine, stops, alone := MapCalls(restarts, Restarting), StopCalls(r.stops, restarts),
      MapCalls(consumers, RestartingAlone);
    CountConcat(ops, first, a, b);
    CountConcat(ops + first, second, a, b);
    CountConcat(mine, stops, a, b);
    CountConcat(ops + first + second, mine + stops, a, b);
    CountConcat(ops + first + second + (mine + stops), alone, a, b);
  }

  /** Ordinary and consumer restarts: no unit of the Agent's own is restarted synchronously, no unit
      twice, and a unit is restarted exactly when its one turn does not leave it alone. */
  lemma SyncRestartsExact(r: Run, unit: string)
    requires Lists(r.sort)
    ensures SyncRestarts(r.Trace().calls, unit) ==
            if unit !in r.self && ((unit in r.Ordinary() && !r.Gated(unit)) || (unit in r.Consumers() && !r.Left(unit)))
            then 1 else 0
  {
    var a, b := Restart(unit), RestartAlone(unit);
    TraceParts(r, a, b);
    TurnsAreOwn(r.p.oneshotUnits, r.env);
    var ordinary, consumers := r.sort(r.Ordinary()), r.sort(r.Consumers());
    assert Distinct(ordinary) && Distinct(consumers);
    EachCount(ordinary, r.self, OrdinaryTurnOf(r.p.oneshotUnits, r.env), unit);
    EachCount(consumers, r.self, ConsumerTurnOf(r.env), unit);
    OperationCallsMembers(r.p.activations);
    CountNone(OperationCalls(r.p.activations), a, b);
    MapCallsMembers(SelfOf(ordinary, r.self), Restarting);
    CountNone(MapCalls(SelfOf(ordinary, r.self), Restarting), a, b);
    StopCallsMembers(r.stops, SelfOf(ordinary, r.self));
    CountNone(StopCalls(r.stops, SelfOf(ordinary, r.self)), a, b);
    MapCallsMembers(SelfOf(consumers, r.self), RestartingAlone);
    CountNone(MapCalls(SelfOf(consumers, r.self), RestartingAlone), a, b);
    OrdinaryTurnCounts(r, unit);
    ConsumerTurnCounts(r, unit);
  }

  lemma CountOne(calls: seq<Call>, c: Call, a: Call, b: Call)
    requires Count(calls, a, b) == 0 && (c == a || c == b)
    ensures Count(calls + [c], a, b) == 1
  {
    assert (calls + [c])[..|calls|] == calls;
  }

  lemma QueryCountsNone(unit: string)
    ensures Count([Query(unit)], Restart(unit), RestartAlone(unit)) == 0
  {
    assert [Query(unit)][..0] == [];
  }

  lemma OrdinaryTurnCounts(r: Run, unit: string)
    ensures SyncRestarts(OrdinaryTurn(unit, r.p.oneshotUnits, r.env).calls, unit) == if r.Gated(unit) then 0 else 1
  {
    QueryCountsNone(unit);
    CountOne([Query(unit)], Restart(unit), Restart(unit), RestartAlone(unit));
    CountOne([], Restart(unit), Restart(unit), RestartAlone(unit));
    assert [] + [Restart(unit)] == [Restart(unit)];
    assert [Query(unit)] + [Restart(unit)] == [Query(unit), Restart(unit)];
  }

  lemma ConsumerTurnCounts(r: Run, unit: string)
    ensures SyncRestarts(ConsumerTurn(unit, r.env).calls, unit) == if r.Left(unit) then 0 else 1
  {
    QueryCountsNone(unit);
    CountOne([Query(unit)], RestartAlone(unit), Restart(unit), RestartAlone(unit));
    CountOne([Query(unit)], Restart(unit), Restart(unit), RestartAlone(unit));
    assert [Query(unit)] + [RestartAlone(unit)] == [Query(unit), RestartAlone(unit)];
    assert [Query(unit)] + [Restart(unit)] == [Query(unit), Restart(unit)];
  }

  /** No deferred call is made in the turns and the operations before it. */
  lemma DeferredApart(r: Run, a: Call, b: Call)
    requires Lists(r.sort) && !a.Query? && !a.Restart? && !a.RestartAlone? && !a.Operation?
    requires !b.Query? && !b.Restart? && !b.RestartAlone? && !b.Operation?
    ensures Count(OrdinaryTurns(r.p, r.deps, r.self, r.env, r.sort).calls, a, b) == 0
    ensures Count(ConsumerTurns(r.p, r.deps, r.self, r.env, r.sort).calls, a, b) == 0
    ensures Count(OperationCalls(r.p.activations), a, b) == 0
  {
    TurnsAreOwn(r.p.oneshotUnits, r.env);
    var ordinary, consumers := r.sort(r.Ordinary()), r.sort(r.Consumers());
    assert Distinct(ordinary) && Distinct(consumers);
    EachCalls(ordinary, r.self, OrdinaryTurnOf(r.p.oneshotUnits, r.env));
    CountNone(OrdinaryTurns(r.p, r.deps, r.self, r.env, r.sort).calls, a, b);
    EachCalls(consumers, r.self, ConsumerTurnOf(r.env));
    CountNone(ConsumerTurns(r.p, r.deps, r.self, r.env, r.sort).calls, a, b);
    OperationCallsMembers(r.p.activations);
    CountNone(OperationCalls(r.p.activations), a, b);
  }

  /** A unit of the Agent's own is restarted by a deferred call instead, once. */
  lemma DeferredRestartsExact(r: Run, unit: string)
    requires Lists(r.sort)
    ensures DeferredRestarts(r.Trace().calls, unit) ==
            if unit in r.self && (unit in r.Ordinary() || unit in r.Consumers()) then 1 else 0
  {
    var a, b := DeferRestart(unit), DeferRestartAlone(unit);
    TraceParts(r, a, b);
    DeferredApart(r, a, b);
    var ordinary, consumers := r.sort(r.Ordinary()), r.sort(r.Consumers());
    assert Distinct(ordinary) && Distinct(consumers);
    SelfOfMembers(ordinary, r.self);
    SelfOfMembers(consumers, r.self);
    MapCallsCount(SelfOf(ordinary, r.self), Restarting, unit, b);
    MapCallsCount(SelfOf(consumers, r.self), RestartingAlone, unit, a);
    CountSwap(MapCalls(SelfOf(consumers, r.self), RestartingAlone), a, b);
    StopCallsMembers(r.stops, SelfOf(ordinary, r.self));
    CountNone(StopCalls(r.stops, SelfOf(ordinary, r.self)), a, b);
  }

  lemma {:induction false} CountSwap(calls: seq<Call>, a: Call, b: Call)
    ensures Count(calls, a, b) == Count(calls, b, a)
  {
    if calls != [] {
      CountSwap(calls[..|calls| - 1], a, b);
    }
  }

  lemma {:induction false} CountMember(calls: seq<Call>, c: Call)
    ensures Count(calls, c, c) > 0 <==> c in calls
  {
    if calls != [] {
      CountMember(calls[..|calls| - 1], c);
      assert calls == calls[..|calls| - 1] + [calls[|calls| - 1]];
    }
  }

  /** The deferred calls of the trace are those of its last three parts. */
  lemma DeferredPart(r: Run, c: Call)
    requires Lists(r.sort) && (c.DeferStop? || c.DeferRestart? || c.DeferRestartAlone?)
    ensures var restarts, consumers := SelfOf(r.sort(r.Ordinary()), r.self), SelfOf(r.sort(r.Consumers()), r.self);
            c in r.Trace().calls <==>
              c in MapCalls(restarts, Restarting) || c in StopCalls(r.stops, restarts)
                || c in MapCalls(consumers, RestartingAlone)
  {
    var restarts, consumers := SelfOf(r.sort(r.Ordinary()), r.self), SelfOf(r.sort(r.Consumers()), r.self);
    TraceParts(r, c, c);
    DeferredApart(r, c, c);
    CountMember(r.Trace().calls, c);
    CountMember(MapCalls(restarts, Restarting), c);
    CountMember(StopCalls(r.stops, restarts), c);
    CountMember(MapCalls(consumers, RestartingAlone), c);
  }

  lemma TraceMembers(r: Run, c: Call)
    requires Lists(r.sort)
    ensures c.DeferStop? ==> (c in r.Trace().calls
            <==> c.unit in r.stops && !(c.unit in r.Ordinary() && c.unit in r.self))
    ensures c.DeferRestartAlone? ==> (c in r.Trace().calls <==> c.unit in r.Consumers() && c.unit in r.self)
    ensures c.DeferRestart? ==> (c in r.Trace().calls <==> c.unit in r.Ordinary() && c.unit in r.self)
  {
    var ordinary, consumers := r.sort(r.Ordinary()), r.sort(r.Consumers());
    if c.DeferStop? || c.DeferRestart? || c.DeferRestartAlone? {
      DeferredPart(r, c);
      assert Distinct(ordinary) && Distinct(consumers);
      SelfOfMembers(ordinary, r.self);
      SelfOfMembers(consumers, r.self);
      MapCallsMembers(SelfOf(ordinary, r.self), Restarting);
      MapCallsMembers(SelfOf(consumers, r.self), RestartingAlone);
      StopCallsMembers(r.stops, SelfOf(ordinary, r.self));
    }
  }

  /** A deferred stop is meant to give way to a deferred restart of the same unit. It does for an
      ordinary restart; a unit is both restarted and stopped exactly when it is a deleted unit of
      the Agent's own that is also a consumer of a rebuilt image. */
  lemma StopAndRestartExact(r: Run, unit: string)
    requires Lists(r.sort)
    ensures DeferStop(unit) in r.Trace().calls && (DeferRestart(unit) in r.Trace().calls
            || DeferRestartAlone(unit) in r.Trace().calls)
            <==> unit in r.stops && unit in r.self && unit in r.Consumers()
  {
    TraceMembers(r, DeferStop(unit));
    TraceMembers(r, DeferRestart(unit));
    TraceMembers(r, DeferRestartAlone(unit));
  }

  // ----- each changed unit

  datatype Way = Built | ByPod | AsConsumer | AsOrdinary

  /** The ways the phase disposes of a changed unit. */
  function Ways(p: Phase, deps: map<string, UnitDeps>, unit: string): set<Way> {
    (if unit in BuildSet(p) then {Built} else {})
    + (if unit in Covered(p) then {ByPod} else {})
    + (if unit in Consumers(p, deps) then {AsConsumer} else {})
    + (if unit in Ordinary(p, deps) then {AsOrdinary} else {})
  }

  /** The pods' Wants= list the members they start. */
  ghost predicate PodsWantMembers(p: Phase, deps: map<string, UnitDeps>) {
    forall m | m in p.podMembers && p.podMembers[m] in p.changedPods ::
      p.changedPods[p.podMembers[m]] in deps && m in deps[p.changedPods[p.podMembers[m]]].wants
  }

  /** No changed unit is left out, and each is disposed of in one way only unless it is a triggered
      build that requires another triggered build: that one is built, then restarted as a consumer. */
  lemma DisposedOnce(p: Phase, deps: map<string, UnitDeps>, unit: string)
    requires unit in p.changedUnits
    requires PodsWantMembers(p, deps) && BuildSet(p) !! p.podMembers.Keys
    ensures Ways(p, deps, unit) != {}
    ensures |Ways(p, deps, unit)| == 1 <==> !(unit in BuildSet(p) && unit in Consumers(p, deps))
    ensures unit in Consumers(p, deps) ==> unit !in Covered(p)
  {
    if unit in Covered(p) {
      var pod := p.changedPods[p.podMembers[unit]];
      assert pod in p.changedPods.Values;
      assert PodStarted(p, deps, unit);
    }
    var ways := Ways(p, deps, unit);
    if unit in BuildSet(p) && unit in Consumers(p, deps) {
      assert ways == {Built, AsConsumer};
    } else if unit in BuildSet(p) {
      assert ways == {Built};
    } else if unit in Covered(p) {
      assert ways == {ByPod};
    } else if unit in Consumers(p, deps) {
      assert ways == {AsConsumer};
    } else {
      assert ways == {AsOrdinary};
    }
  }

  /** A triggered build is restarted, against the rule that a build is only ever started, exactly
      when it requires another triggered build and systemd does not own its activation. */
  lemma BuildRestartedExact(r: Run, build: string)
    requires Lists(r.sort) && build in r.p.builds && build !in r.self
    ensures SyncRestarts(r.Trace().calls, build) > 0 <==> build in r.Consumers() && !r.Left(build)
  {
    SyncRestartsExact(r, build);
  }

  /** The units restarted and failed synchronously, ordinary ones first. */
  function Sync(r: Run): Turn {
    Restarts.Join(OrdinaryTurns(r.p, r.deps, r.self, r.env, r.sort), ConsumerTurns(r.p, r.deps, r.self, r.env, r.sort))
  }

  lemma SyncOnce(r: Run)
    requires Lists(r.sort)
    ensures Distinct(Sync(r).restarted) && Distinct(Sync(r).failed)
    ensures forall u | u in Sync(r).restarted :: u !in Sync(r).failed
    ensures forall u | u in Sync(r).restarted + Sync(r).failed ::
              u !in r.self && (u in r.Ordinary() || u in r.Consumers())
  {
    var ordinary, consumers := r.sort(r.Ordinary()), r.sort(r.Consumers());
    TurnsAreOwn(r.p.oneshotUnits, r.env);
    assert Distinct(ordinary) && Distinct(consumers);
    EachRecords(ordinary, r.self, OrdinaryTurnOf(r.p.oneshotUnits, r.env));
    EachRecords(consumers, r.self, ConsumerTurnOf(r.env));
    var first := OrdinaryTurns(r.p, r.deps, r.self, r.env, r.sort);
    var second := ConsumerTurns(r.p, r.deps, r.self, r.env, r.sort);
    DistinctConcat(first.restarted, second.restarted);
    DistinctConcat(first.failed, second.failed);
  }

  lemma JoinOutcomes(a: Turn, b: Turn, c: Turn, d: Turn, e: Turn)
    requires a.restarted == [] && a.failed == [] && d.failed == [] && e.failed == []
    ensures var t := Restarts.Join(Restarts.Join(Restarts.Join(Restarts.Join(a, b), c), d), e);
            t.restarted == b.restarted + c.restarted + d.restarted + e.restarted && t.failed == b.failed + c.failed
  {
  }

  lemma TraceOutcomes(r: Run)
    ensures r.Trace().failed == Sync(r).failed
    ensures r.Trace().restarted == Sync(r).restarted + SelfOf(r.sort(r.Ordinary()),
            r.self) + SelfOf(r.sort(r.Consumers()), r.self)
  {
    var mine, alone := SelfOf(r.sort(r.Ordinary()), r.self), SelfOf(r.sort(r.Consumers()), r.self);
    JoinOutcomes(Turn(OperationCalls(r.p.activations), [], []),
                 OrdinaryTurns(r.p, r.deps, r.self, r.env, r.sort), ConsumerTurns(r.p, r.deps, r.self, r.env, r.sort),
                 SelfOpsTurn(mine, r.stops), SelfConsumersTurn(alone));
  }

  lemma TraceRecords(r: Run)
    requires Lists(r.sort)
    ensures r.Trace().failed == Sync(r).failed
    ensures Distinct(r.Trace().restarted) && Distinct(r.Trace().failed)
    ensures forall u :: u in r.Trace().restarted
                        <==> u in Sync(r).restarted || (u in r.self && (u in r.Ordinary() || u in r.Consumers()))
  {
    var ordinary, consumers := r.sort(r.Ordinary()), r.sort(r.Consumers());
    assert Distinct(ordinary) && Distinct(consumers);
    SyncOnce(r);
    SelfOfMembers(ordinary, r.self);
    SelfOfMembers(consumers, r.self);
    var mine, alone := SelfOf(ordinary, r.self), SelfOf(consumers, r.self);
    TraceOutcomes(r);
    DistinctConcat(Sync(r).restarted, mine);
    DistinctConcat(Sync(r).restarted + mine, alone);
  }

  /** The outcomes recorded after the builds: every unit at most once, and never as both restarted and
      failed. */
  lemma OnceAfterBuilds(r: Run)
    requires Lists(r.sort)
    ensures Distinct(r.Trace().restarted) && Distinct(r.Trace().failed)
    ensures forall u | u in r.Trace().restarted :: u !in r.Trace().failed
    ensures forall u | u in r.Trace().failed :: u !in r.self && (u in r.Ordinary() || u in r.Consumers())
  {
    TraceRecords(r);
    SyncOnce(r);
  }

  /** Systemd starts the consumer itself. */
  predicate Triggered(r: Run, unit: string) { r.env.query(unit).Some? && ExternallyActivated(r.env.query(unit).value) }

  /** The consumer's status cannot be read, or its restart fails. */
  predicate FailsAsConsumer(r: Run, unit: string) {
    r.env.query(unit).None? || (!Triggered(r, unit) && !r.env.restartOk(unit))
  }

  /** What is recorded of a triggered build after the builds. */
  lemma BuildRecorded(r: Run, b: string)
    requires Lists(r.sort) && b in r.p.builds
    ensures b in r.Trace().failed <==> b in r.Consumers() && b !in r.self && FailsAsConsumer(r, b)
    ensures b in r.Trace().restarted || b in r.Trace().failed
            <==> b in r.Consumers() && (b in r.self || !Triggered(r, b))
  {
    var ordinary, consumers := r.sort(r.Ordinary()), r.sort(r.Consumers());
    TurnsAreOwn(r.p.oneshotUnits, r.env);
    assert Distinct(ordinary) && Distinct(consumers);
    EachRecords(ordinary, r.self, OrdinaryTurnOf(r.p.oneshotUnits, r.env));
    EachRecords(consumers, r.self, ConsumerTurnOf(r.env));
    TraceRecords(r);
    assert b !in r.Ordinary();
  }

  /** The units RestartedUnits names: the builds run, and those restarted after them. */
  function RestartedUnits(r: Run): seq<string> { r.p.builds + r.Trace().restarted }

  /** The outcomes recorded over the whole of restartUnits. A unit is recorded as both restarted and
      failed exactly when it is a triggered build that is a consumer too and fails as one; every unit is
      recorded once at most exactly when no triggered build is a consumer that systemd does not start
      itself. */
  lemma OutcomesOnce(r: Run)
    requires Lists(r.sort) && Distinct(r.p.builds)
    ensures Distinct(r.Trace().failed)
    ensures forall u :: u in RestartedUnits(r) && u in r.Trace().failed
                        <==> u in r.p.builds && u in r.Consumers() && u !in r.self && FailsAsConsumer(r, u)
    ensures Distinct(RestartedUnits(r)) && (forall u | u in RestartedUnits(r) :: u !in r.Trace().failed)
            <==> forall b | b in r.p.builds :: !(b in r.Consumers() && (b in r.self || !Triggered(r, b)))
  {
    OnceAfterBuilds(r);
    forall u ensures u in RestartedUnits(r) && u in r.Trace().failed
                     <==> u in r.p.builds && u in r.Consumers() && u !in r.self && FailsAsConsumer(r, u)
    {
      if u in r.p.builds {
        BuildRecorded(r, u);
      }
    }
    if forall b | b in r.p.builds :: !(b in r.Consumers() && (b in r.self || !Triggered(r, b))) {
      forall b | b in r.p.builds ensures b !in r.Trace().restarted && b !in r.Trace().failed {
        BuildRecorded(r, b);
      }
      DistinctConcat(r.p.builds, r.Trace().restarted);
    } else {
      var b :| b in r.p.builds && b in r.Consumers() && (b in r.self || !Triggered(r, b));
      BuildRecorded(r, b);
      RecordedTwice(r.p.builds, r.Trace().restarted, b);
    }
  }

  lemma RecordedTwice(a: seq<string>, b: seq<string>, u: string)
    requires u in a
    ensures u in b ==> !Distinct(a + b)
  {
    var i :| 0 <= i < |a| && a[i] == u;
    if j :| 0 <= j < |b| && b[j] == u {
      assert (a + b)[i] == u && (a + b)[|a| + j] == u;
    }
  }

  // ----- pods

  /** A written Quadlet unit, as recordChangedUnit reads it; `pod` is the pod that starts it, or "". */
  datatype Written = Written(service: string, filename: string, isPod: bool, oneshot: bool, pod: string)

  /** recordChangedUnit. */
  function Record(p: Phase, w: Written): Phase {
    p.(changedUnits := p.changedUnits + {w.service},
       oneshotUnits := if w.oneshot then p.oneshotUnits + {w.service} else p.oneshotUnits,
       changedPods := if w.isPod then p.changedPods[w.filename := w.service] else p.changedPods,
       podMembers := if w.pod != "" then p.podMembers[w.service := w.pod] else p.podMembers)
  }

  function RecordAll(ws: seq<Written>): Phase {
    if ws == [] then Phase({}, {}, map[], map[], [], [], [], false)
    else Record(RecordAll(ws[..|ws| - 1]), ws[|ws| - 1])
  }

  lemma {:induction false} RecordedUnits(ws: seq<Written>)
    ensures forall u :: u in RecordAll(ws).changedUnits <==> exists w | w in ws :: w.service == u
    ensures forall u | u in RecordAll(ws).podMembers :: exists w | w in ws :: w.pod != "" && w.service == u
  {
    if ws != [] {
      RecordedUnits(ws[..|ws| - 1]);
      assert ws == ws[..|ws| - 1] + [ws[|ws| - 1]];
    }
  }

  lemma {:induction false} RecordedPods(ws: seq<Written>)
    ensures forall f | f in RecordAll(ws).changedPods ::
              exists w | w in ws :: w.isPod && w.service == RecordAll(ws).changedPods[f]
  {
    if ws != [] {
      RecordedPods(ws[..|ws| - 1]);
      assert ws == ws[..|ws| - 1] + [ws[|ws| - 1]];
    }
  }

  /** The phase after the hooks have added to what the files written changed. */
  function Final(ws: seq<Written>, hookUnits: set<string>, builds: seq<string>): Phase {
    RecordAll(ws).(changedUnits := RecordAll(ws).changedUnits + hookUnits, builds := builds)
  }

  /** The service of the pod a member is left to. */
  function PodOf(p: Phase, member: string): string
    requires member in Covered(p)
  {
    p.changedPods[p.podMembers[member]]
  }

  /** The pod's service is one of those written, and changed. */
  lemma PodIsChanged(ws: seq<Written>, member: string)
    requires forall i, j | 0 <= i < j < |ws| :: ws[i].service != ws[j].service
    requires forall w | w in ws && w.isPod :: w.pod == ""
    requires member in Covered(RecordAll(ws))
    ensures var pod := PodOf(RecordAll(ws), member);
            && pod in RecordAll(ws).changedUnits && pod !in RecordAll(ws).podMembers
            && exists w | w in ws :: w.isPod && w.service == pod
  {
    RecordedUnits(ws);
    RecordedPods(ws);
    var pod := PodOf(RecordAll(ws), member);
    var w :| w in ws && w.isPod && w.service == pod;
    forall v | v in ws && v.service == pod ensures v == w {
      SameService(ws, v, w);
    }
  }

  lemma SameService(ws: seq<Written>, v: Written, w: Written)
    requires forall i, j | 0 <= i < j < |ws| :: ws[i].service != ws[j].service
    requires v in ws && w in ws && v.service == w.service
    ensures v == w
  {
    var i :| 0 <= i < |ws| && ws[i] == v;
    var j :| 0 <= j < |ws| && ws[j] == w;
  }

  /** A member left to its pod is restarted by it: the pod's service has a turn of its own, whatever
      the hooks add to the changed units, as long as services are written once and no pod joins a
      pod. */
  lemma PodHasTurn(
    ws: seq<Written>, hookUnits: set<string>, builds: seq<string>, deps: map<string, UnitDeps>, member: string)
    requires forall i, j | 0 <= i < j < |ws| :: ws[i].service != ws[j].service
    requires forall w | w in ws && w.isPod :: w.pod == "" && w.service !in builds
    requires member in Covered(RecordAll(ws))
    ensures var p := Final(ws, hookUnits, builds);
            member in Covered(p) && (PodOf(p, member) in Ordinary(p, deps) || PodOf(p, member) in Consumers(p, deps))
  {
    PodIsChanged(ws, member);
  }

  /** The pod's turn restarts it: the Agent's own by one deferred call, any other by one call, which is
      left out only for a timer's one-shot, or for a consumer systemd starts itself or whose status
      cannot be read; the last is recorded as failed, as is a restart that fails. */
  lemma PodIsRestarted(r: Run, ws: seq<Written>, hookUnits: set<string>, member: string)
    requires Lists(r.sort) && r.p == Final(ws, hookUnits, r.p.builds)
    requires forall i, j | 0 <= i < j < |ws| :: ws[i].service != ws[j].service
    requires forall w | w in ws && w.isPod :: w.pod == "" && w.service !in r.p.builds
    requires member in Covered(RecordAll(ws))
    ensures member in Covered(r.p)
    ensures var pod, calls := PodOf(r.p, member), r.Trace().calls;
            if pod in r.self then DeferredRestarts(calls, pod) == 1
            else SyncRestarts(calls, pod) == if (pod in r.Ordinary() && r.Gated(pod))
              || (pod in r.Consumers() && r.Left(pod)) then 0 else 1
    ensures var pod := PodOf(r.p, member);
            pod in r.Consumers() && pod !in r.self ==> (pod in r.Trace().failed <==> FailsAsConsumer(r, pod))
    ensures var pod := PodOf(r.p, member);
            pod in r.Ordinary() && pod !in r.self ==> (pod in r.Trace().failed
              <==> !r.Gated(pod) && !r.env.restartOk(pod))
  {
    PodHasTurn(ws, hookUnits, r.p.builds, r.deps, member);
    var pod := PodOf(r.p, member);
    SyncRestartsExact(r, pod);
    DeferredRestartsExact(r, pod);
    TurnRecorded(r, pod);
  }

  /** Whether a unit's turn is recorded as failed. */
  lemma TurnRecorded(r: Run, unit: string)
    requires Lists(r.sort)
    ensures unit in r.Consumers() && unit !in r.self ==> (unit in r.Trace().failed <==> FailsAsConsumer(r, unit))
    ensures unit in r.Ordinary() && unit !in r.self ==> (unit in r.Trace().failed
            <==> !r.Gated(unit) && !r.env.restartOk(unit))
  {
    var ordinary, consumers := r.sort(r.Ordinary()), r.sort(r.Consumers());
    TurnsAreOwn(r.p.oneshotUnits, r.env);
    assert Distinct(ordinary) && Distinct(consumers);
    EachRecords(ordinary, r.self, OrdinaryTurnOf(r.p.oneshotUnits, r.env));
    EachRecords(consumers, r.self, ConsumerTurnOf(r.env));
    TraceRecords(r);
  }

  // ----- concrete applies

  /** Two triggered builds, one built from the other's image: the second is run as a build and then
      restarted as a consumer. */
  lemma BuildOfBuildIsRestarted(env: Env, sort: set<string> -> seq<string>)
    requires Lists(sort) && env.query("app-build.service") == Some(UnitStatus("inactive", "", [], "oneshot"))
    ensures var p := Phase({}, {}, map[], map[], [], ["app-build.service", "base-build.service"], [], true);
            var r := Run(p, map["app-build.service" := UnitDeps(["base-build.service"], [])], {}, [], env, sort);
            "app-build.service" in p.builds && SyncRestarts(r.Trace().calls, "app-build.service") == 1
  {
    var p := Phase({}, {}, map[], map[], [], ["app-build.service", "base-build.service"], [], true);
    var r := Run(p, map["app-build.service" := UnitDeps(["base-build.service"], [])], {}, [], env, sort);
    assert "base-build.service" in p.builds && "base-build.service" in r.deps["app-build.service"].needs;
    assert "app-build.service" in r.Consumers();
    SyncRestartsExact(r, "app-build.service");
  }

  /** The Agent's own unit, its quadlet renamed in the commit that rebuilds its image: the deferred
      stop of the deleted file and the deferred restart are both issued. */
  lemma RenamedAgentIsStopped(env: Env, sort: set<string> -> seq<string>)
    requires Lists(sort)
    ensures var agent := "picolet.service";
            var p := Phase({agent}, {}, map[], map[], [], ["picolet-build.service"], [], true);
            var r := Run(p, map[agent := UnitDeps(["picolet-build.service"], [])], {agent}, [agent], env, sort);
            DeferStop(agent) in r.Trace().calls && DeferRestartAlone(agent) in r.Trace().calls
  {
    var agent := "picolet.service";
    var p := Phase({agent}, {}, map[], map[], [], ["picolet-build.service"], [], true);
    var r := Run(p, map[agent := UnitDeps(["picolet-build.service"], [])], {agent}, [agent], env, sort);
    assert "picolet-build.service" in p.builds && "picolet-build.service" in r.deps[agent].needs;
    assert agent in r.Consumers();
    TraceMembers(r, DeferStop(agent));
    TraceMembers(r, DeferRestartAlone(agent));
  }
}
