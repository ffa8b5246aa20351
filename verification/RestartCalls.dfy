/** Which calls an apply makes for a unit, and in which order (pkg/applier/applier.go:770-932,
    pkg/applier/build.go:177-219). */
module RestartCalls {
  import opened Common
  import Paths
  import opened Units
  import opened Restarts
  import opened Disposal

  // ----- the calls of a list of turns

  lemma {:induction false} EachMembers(units: seq<string>, self: set<string>, turn: string -> Turn, c: Call)
    ensures c in Each(units, self, turn).calls <==> exists u | u in units :: u !in self && c in turn(u).calls
  {
    if units != [] {
      EachMembers(units[..|units| - 1], self, turn, c);
      assert units == units[..|units| - 1] + [units[|units| - 1]];
    }
  }

  function UnitOf(c: Call): string
    requires c.Query? || c.Restart? || c.RestartAlone?
  {
    c.unit
  }

  /** A call on a unit comes from its own turn. */
  lemma EachOwn(units: seq<string>, self: set<string>, turn: string -> Turn, c: Call)
    requires OwnCalls(turn) && (c.Query? || c.Restart? || c.RestartAlone?)
    ensures c in Each(units, self, turn).calls
            <==> UnitOf(c) in units && UnitOf(c) !in self && c in turn(UnitOf(c)).calls
  {
    EachMembers(units, self, turn, c);
    forall u | c in turn(u).calls ensures u == UnitOf(c) {
      assert OwnTurn(turn(u), u);
    }
  }

  /** A restart in the trace is one of the ordinary turns or of the consumers'. */
  lemma SyncPart(r: Run, c: Call)
    requires Lists(r.sort) && (c.Restart? || c.RestartAlone?)
    ensures c in r.Trace().calls
            <==> c in OrdinaryTurns(r.p, r.deps, r.self, r.env, r.sort).calls
                 || c in ConsumerTurns(r.p, r.deps, r.self, r.env, r.sort).calls
  {
    var restarts, consumers := SelfOf(r.sort(r.Ordinary()), r.self), SelfOf(r.sort(r.Consumers()), r.self);
    TraceParts(r, c, c);
    CountMember(r.Trace().calls, c);
    CountMember(OrdinaryTurns(r.p, r.deps, r.self, r.env, r.sort).calls, c);
    CountMember(ConsumerTurns(r.p, r.deps, r.self, r.env, r.sort).calls, c);
    OperationCallsMembers(r.p.activations);
    CountNone(OperationCalls(r.p.activations), c, c);
    MapCallsMembers(restarts, Restarting);
    CountNone(MapCalls(restarts, Restarting), c, c);
    StopCallsMembers(r.stops, restarts);
    CountNone(StopCalls(r.stops, restarts), c, c);
    MapCallsMembers(consumers, RestartingAlone);
    CountNone(MapCalls(consumers, RestartingAlone), c, c);
  }

  /** A restart is in the trace exactly when the unit's turn makes it. */
  lemma RestartInTurn(r: Run, c: Call)
    requires Lists(r.sort) && (c.Restart? || c.RestartAlone?)
    ensures c in r.Trace().calls
            <==> c.unit !in r.self
                 && ((c.unit in r.Ordinary() && c in OrdinaryTurn(c.unit, r.p.oneshotUnits, r.env).calls)
                     || (c.unit in r.Consumers() && c in ConsumerTurn(c.unit, r.env).calls))
  {
    TurnsAreOwn(r.p.oneshotUnits, r.env);
    SyncPart(r, c);
    EachOwn(r.sort(r.Ordinary()), r.self, OrdinaryTurnOf(r.p.oneshotUnits, r.env), c);
    EachOwn(r.sort(r.Consumers()), r.self, ConsumerTurnOf(r.env), c);
    assert forall u :: u in r.sort(r.Ordinary()) <==> u in r.Ordinary();
    assert forall u :: u in r.sort(r.Consumers()) <==> u in r.Consumers();
  }

  // ----- which call a unit gets

  /** The unit requires a build that ran, and no pod that restarts wants it. */
  ghost predicate NeedsBuild(r: Run, unit: string) {
    && unit in r.deps && (exists d :: d in r.deps[unit].needs && d in r.p.builds)
    && !exists file ::
          file in r.p.changedPods && r.p.changedPods[file] in r.deps && unit in r.deps[r.p.changedPods[file]].wants
  }

  lemma NeedsBuildExact(r: Run, unit: string)
    ensures NeedsBuild(r, unit) <==> unit in r.Consumers()
  {
    if PodStarted(r.p, r.deps, unit) {
      var pod :| pod in r.p.changedPods.Values && pod in r.deps && unit in r.deps[pod].wants;
      var file :| file in r.p.changedPods && r.p.changedPods[file] == pod;
    }
    if file :|
         file in r.p.changedPods && r.p.changedPods[file] in r.deps && unit in r.deps[r.p.changedPods[file]].wants
    {
      assert r.p.changedPods[file] in r.p.changedPods.Values;
    }
  }

  /** A timer fires the unit. */
  ghost predicate FiredByTimer(st: UnitStatus) {
    exists t :: t in st.triggeredBy && Paths.HasSuffix(t, ".timer")
  }

  /** systemd starts the one-shot itself: a timer's, or one without an [Install] section. */
  ghost predicate StartedBySystemd(st: UnitStatus) {
    st.serviceType == "oneshot" && (FiredByTimer(st) || st.unitFileState == "static")
  }

  lemma StartedBySystemdExact(st: UnitStatus)
    ensures FiredByTimer(st) <==> TimerTriggered(st)
    ensures StartedBySystemd(st) <==> ExternallyActivated(st)
  {
    if t :| t in st.triggeredBy && Paths.HasSuffix(t, ".timer") {
      assert IsTimerUnit(t);
    }
  }

  /** A consumer's turn restarts a unit that systemd does not start itself, alone when it is running,
      and records how that went; an unreadable status is a failure. */
  lemma ConsumerTurnExact(unit: string, env: Env)
    ensures var t, st := ConsumerTurn(unit, env), env.query(unit);
            var restarts := st.Some? && !StartedBySystemd(st.value);
            && (RestartAlone(unit) in t.calls
              <==> restarts && st.value.activeState in ["active", "activating", "reloading"])
            && (Restart(unit) in t.calls
              <==> restarts && st.value.activeState !in ["active", "activating", "reloading"])
            && (unit in t.restarted <==> restarts && env.restartOk(unit))
            && (unit in t.failed <==> st.None? || (restarts && !env.restartOk(unit)))
  {
    if env.query(unit).Some? {
      StartedBySystemdExact(env.query(unit).value);
    }
  }

  /** A unit that requires a build that ran: a running one is restarted without its dependencies, so
      that the build is not started again; one that is not running with them; one that systemd starts
      itself not at all. Its outcome is recorded, and an unreadable status is a failure. */
  lemma ConsumerCallExact(r: Run, unit: string)
    requires Lists(r.sort) && NeedsBuild(r, unit) && unit !in r.self
    ensures var st, calls := r.env.query(unit), r.Trace().calls;
            var restarts := st.Some? && !StartedBySystemd(st.value);
            && (RestartAlone(unit) in calls
              <==> restarts && st.value.activeState in ["active", "activating", "reloading"])
            && (Restart(unit) in calls <==> restarts && st.value.activeState !in ["active", "activating", "reloading"])
            && (unit in r.Trace().restarted <==> restarts && r.env.restartOk(unit))
            && (unit in r.Trace().failed <==> st.None? || (restarts && !r.env.restartOk(unit)))
  {
    NeedsBuildExact(r, unit);
    ConsumersAreNotOrdinary(r, unit);
    ConsumerTurnExact(unit, r.env);
    RestartInTurn(r, RestartAlone(unit));
    RestartInTurn(r, Restart(unit));
    OutcomeInTurn(r, unit);
  }

  lemma ConsumersAreNotOrdinary(r: Run, unit: string)
    requires unit in r.Consumers()
    ensures unit !in r.Ordinary()
  {
  }

  /** An ordinary turn restarts its unit unless it is a one-shot written in this apply that a timer
      fires or whose status cannot be read, and records how that went. */
  lemma OrdinaryTurnExact(unit: string, oneshots: set<string>, env: Env)
    ensures var t, st := OrdinaryTurn(unit, oneshots, env), env.query(unit);
            var restarts := unit in oneshots ==> st.Some? && !FiredByTimer(st.value);
            && RestartAlone(unit) !in t.calls && (Restart(unit) in t.calls <==> restarts)
            && (unit in t.restarted <==> restarts && env.restartOk(unit))
            && (unit in t.failed <==> restarts && !env.restartOk(unit))
  {
    if env.query(unit).Some? {
      StartedBySystemdExact(env.query(unit).value);
    }
  }

  /** Any other changed unit that is no build and not left to its pod is restarted the ordinary way,
      unless it is a one-shot written in this apply that a timer fires or whose status cannot be read. */
  lemma OrdinaryCallExact(r: Run, unit: string)
    requires Lists(r.sort) && unit !in r.self && unit in r.p.changedUnits && unit !in r.p.builds && !NeedsBuild(r, unit)
    requires !(unit in r.p.podMembers && r.p.podMembers[unit] in r.p.changedPods)
    ensures var st, calls := r.env.query(unit), r.Trace().calls;
            var restarts := unit in r.p.oneshotUnits ==> st.Some? && !FiredByTimer(st.value);
            && RestartAlone(unit) !in calls && (Restart(unit) in calls <==> restarts)
            && (unit in r.Trace().restarted <==> restarts && r.env.restartOk(unit))
            && (unit in r.Trace().failed <==> restarts && !r.env.restartOk(unit))
  {
    NeedsBuildExact(r, unit);
    OthersAreOrdinary(r, unit);
    OrdinaryTurnExact(unit, r.p.oneshotUnits, r.env);
    RestartInTurn(r, RestartAlone(unit));
    RestartInTurn(r, Restart(unit));
    OutcomeInTurn(r, unit);
  }

  lemma OthersAreOrdinary(r: Run, unit: string)
    requires unit in r.p.changedUnits && unit !in r.p.builds && unit !in r.Consumers()
    requires !(unit in r.p.podMembers && r.p.podMembers[unit] in r.p.changedPods)
    ensures unit in r.Ordinary()
  {
  }

  /** What is recorded of a unit that is not the Agent's own comes from its turn. */
  lemma OutcomeInTurn(r: Run, unit: string)
    requires Lists(r.sort) && unit !in r.self
    ensures unit in r.Trace().restarted
            <==> (unit in r.Ordinary() && unit in OrdinaryTurn(unit, r.p.oneshotUnits, r.env).restarted)
                 || (unit in r.Consumers() && unit in ConsumerTurn(unit, r.env).restarted)
    ensures unit in r.Trace().failed
            <==> (unit in r.Ordinary() && unit in OrdinaryTurn(unit, r.p.oneshotUnits, r.env).failed)
                 || (unit in r.Consumers() && unit in ConsumerTurn(unit, r.env).failed)
  {
    var ordinary, consumers := r.sort(r.Ordinary()), r.sort(r.Consumers());
    TurnsAreOwn(r.p.oneshotUnits, r.env);
    assert forall u :: u in ordinary <==> u in r.Ordinary();
    assert forall u :: u in consumers <==> u in r.Consumers();
    EachRecorded(ordinary, r.self, OrdinaryTurnOf(r.p.oneshotUnits, r.env));
    EachRecorded(consumers, r.self, ConsumerTurnOf(r.env));
    TraceRecords(r);
  }

  // ----- what comes before the restarts

  /** The units activated, each with its operation, in order. */
  lemma {:induction false} OperationsExact(activations: seq<(string, string)>)
    ensures |OperationCalls(activations)| == |activations|
    ensures forall i | 0 <= i < |activations| ::
              OperationCalls(activations)[i] == Operation(activations[i].0, activations[i].1)
  {
    if activations != [] {
      OperationsExact(activations[..|activations| - 1]);
    }
  }

  /** Every build once, in order. */
  lemma {:induction false} BuildsExact(builds: seq<string>)
    ensures |BuildCalls(builds)| == |builds| && forall i | 0 <= i < |builds| ::
              BuildCalls(builds)[i] == RunBuild(builds[i])
  {
    if builds != [] {
      BuildsExact(builds[..|builds| - 1]);
    }
  }

  /** The trace begins with the activations, and has no other. */
  lemma ActivationsExact(r: Run)
    requires Lists(r.sort)
    ensures |r.p.activations| <= |r.Trace().calls|
    ensures forall i | 0 <= i < |r.p.activations| ::
              r.Trace().calls[i] == Operation(r.p.activations[i].0, r.p.activations[i].1)
    ensures forall i | |r.p.activations| <= i < |r.Trace().calls| :: !r.Trace().calls[i].Operation?
  {
    OperationsExact(r.p.activations);
    var restarts, consumers := SelfOf(r.sort(r.Ordinary()), r.self), SelfOf(r.sort(r.Consumers()), r.self);
    TurnsAreOwn(r.p.oneshotUnits, r.env);
    EachCalls(r.sort(r.Ordinary()), r.self, OrdinaryTurnOf(r.p.oneshotUnits, r.env));
    EachCalls(r.sort(r.Consumers()), r.self, ConsumerTurnOf(r.env));
    MapCallsMembers(restarts, Restarting);
    MapCallsMembers(consumers, RestartingAlone);
    StopCallsMembers(r.stops, restarts);
    NoOperation(OperationCalls(r.p.activations), OrdinaryTurns(r.p, r.deps, r.self, r.env, r.sort).calls,
      ConsumerTurns(r.p, r.deps, r.self, r.env, r.sort).calls,
      MapCalls(restarts, Restarting) + StopCalls(r.stops, restarts), MapCalls(consumers, RestartingAlone));
  }

  lemma NoOperation(a: seq<Call>, b: seq<Call>, c: seq<Call>, d: seq<Call>, e: seq<Call>)
    requires forall x | x in b + c + d + e :: !x.Operation?
    ensures var all := a + b + c + d + e;
            (forall i | 0 <= i < |a| :: all[i] == a[i]) && forall i | |a| <= i < |all| :: !all[i].Operation?
  {
    var rest := b + c + d + e;
    assert a + b + c + d + e == a + rest;
    forall i | |a| <= i < |a + rest| ensures !(a + rest)[i].Operation? {
      assert (a + rest)[i] == rest[i - |a|];
    }
  }

  // ----- in which order

  /** Activations come first, then the ordinary restarts, then the consumers', then what is deferred. */
  function Rank(r: Run, c: Call): nat {
    match c
    case Operation(_, _) => 0
    case Query(u) => if u in r.Consumers() then 2 else 1
    case Restart(u) => if u in r.Consumers() then 2 else 1
    case RestartAlone(u) => if u in r.Consumers() then 2 else 1
    case _ => 3
  }

  ghost predicate InOrder(r: Run, calls: seq<Call>) {
    forall i, j | 0 <= i < j < |calls| :: Rank(r, calls[i]) <= Rank(r, calls[j])
  }

  ghost predicate AllOfRank(r: Run, calls: seq<Call>, rank: nat) { forall c | c in calls :: Rank(r, c) == rank }

  ghost predicate UpToRank(r: Run, calls: seq<Call>, rank: nat) { forall c | c in calls :: Rank(r, c) <= rank }

  lemma OrderNext(r: Run, a: seq<Call>, b: seq<Call>, rank: nat)
    requires InOrder(r, a) && UpToRank(r, a, rank) && AllOfRank(r, b, rank)
    ensures InOrder(r, a + b) && UpToRank(r, a + b, rank)
  {
    var c := a + b;
    forall i, j | 0 <= i < j < |c| ensures Rank(r, c[i]) <= Rank(r, c[j]) {
      assert c[j] in a || c[j] in b;
      assert c[i] in c;
      assert j >= |a| ==> c[j] == b[j - |a|];
    }
  }

  lemma TurnsRank(r: Run)
    requires Lists(r.sort)
    ensures AllOfRank(r, OrdinaryTurns(r.p, r.deps, r.self, r.env, r.sort).calls, 1)
    ensures AllOfRank(r, ConsumerTurns(r.p, r.deps, r.self, r.env, r.sort).calls, 2)
  {
    TurnsAreOwn(r.p.oneshotUnits, r.env);
    var ordinary, consumers := r.sort(r.Ordinary()), r.sort(r.Consumers());
    assert forall u :: u in ordinary <==> u in r.Ordinary();
    assert forall u :: u in consumers <==> u in r.Consumers();
    EachCalls(ordinary, r.self, OrdinaryTurnOf(r.p.oneshotUnits, r.env));
    EachCalls(consumers, r.self, ConsumerTurnOf(r.env));
    forall c | c in OrdinaryTurns(r.p, r.deps, r.self, r.env, r.sort).calls ensures Rank(r, c) == 1 {
      EachOwn(ordinary, r.self, OrdinaryTurnOf(r.p.oneshotUnits, r.env), c);
    }
    forall c | c in ConsumerTurns(r.p, r.deps, r.self, r.env, r.sort).calls ensures Rank(r, c) == 2 {
      EachOwn(consumers, r.self, ConsumerTurnOf(r.env), c);
    }
  }

  /** The order of the calls after the builds: what is deferred comes after everything else, so the
      Agent is not restarted before the other units have been handled. */
  lemma CallsInOrder(r: Run)
    requires Lists(r.sort)
    ensures InOrder(r, r.Trace().calls)
  {
    var ops, first := OperationCalls(r.p.activations), OrdinaryTurns(r.p, r.deps, r.self, r.env, r.sort).calls;
    var second := ConsumerTurns(r.p, r.deps, r.self, r.env, r.sort).calls;
    var restarts, consumers := SelfOf(r.sort(r.Ordinary()), r.self), SelfOf(r.sort(r.Consumers()), r.self);
    var mine, stops, alone := MapCalls(restarts, Restarting), StopCalls(r.stops, restarts),
      MapCalls(consumers, RestartingAlone);
    OperationCallsMembers(r.p.activations);
    TurnsRank(r);
    MapCallsMembers(restarts, Restarting);
    MapCallsMembers(consumers, RestartingAlone);
    StopCallsMembers(r.stops, restarts);
    assert AllOfRank(r, ops, 0) && AllOfRank(r, mine + stops, 3) && AllOfRank(r, alone, 3);
    OrderNext(r, [], ops, 0);
    assert [] + ops == ops;
    OrderNext(r, ops, first, 1);
    OrderNext(r, ops + first, second, 2);
    OrderNext(r, ops + first + second, mine + stops, 3);
    OrderNext(r, ops + first + second + (mine + stops), alone, 3);
  }
}
