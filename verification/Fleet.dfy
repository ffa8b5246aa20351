/** From a Fleet without clashes to a plan that is safe to run: the Machine's Hosts, the plan with its
    Secret References resolved, and what its runs guarantee (pkg/machine/plan.go:253-275, 291-314). */
module Fleet {
  import opened Machine
  import opened Runner
  import opened Convergence
  import opened Planning
  import AgentRestarts
  import Isolation
  import Topology

  // ----- Plan.resolve

  function TrimPrefix(s: string, p: string): string { if p <= s then s[|p|..] else s }

  /** The entry of a file that is not placed. */
  function FileOf(s: Step): string { s.host.hostname + "/" + TrimPrefix(s.id, s.host.hostname + "/credential/") }

  predicate Dropped(s: Step, values: map<string, string>) { s.ref != "" && s.ref !in values }

  function Filled(s: Step, values: map<string, string>): Step {
    if s.ref != "" && s.ref in values then s.(content := values[s.ref]) else s
  }

  function Resolved(steps: seq<Step>, values: map<string, string>): seq<Step> {
    if steps == [] then []
    else
      var n := |steps| - 1;
      Resolved(steps[..n], values) + if Dropped(steps[n], values) then [] else [Filled(steps[n], values)]
  }

  function Unresolved(steps: seq<Step>, values: map<string, string>): seq<string> {
    if steps == [] then []
    else
      var n := |steps| - 1;
      Unresolved(steps[..n], values) + if Dropped(steps[n], values) then [FileOf(steps[n])] else []
  }

  lemma {:induction false} ResolvedLength(steps: seq<Step>, values: map<string, string>)
    ensures |Resolved(steps, values)| + |Unresolved(steps, values)| == |steps|
  {
    if steps != [] {
      ResolvedLength(steps[..|steps| - 1], values);
    }
  }

  lemma ResolvedNext(steps: seq<Step>, n: nat, values: map<string, string>)
    requires n < |steps|
    ensures Resolved(steps[..n + 1], values)
            == if Dropped(steps[n], values) then Resolved(steps[..n], values)
              else Resolved(steps[..n], values) + [Filled(steps[n], values)]
    ensures Unresolved(steps[..n + 1], values)
            == if Dropped(steps[n], values) then Unresolved(steps[..n], values) + [FileOf(steps[n])]
              else Unresolved(steps[..n], values)
  {
    assert steps[..n + 1][..n] == steps[..n];
  }

  /** The plan's steps are the first `count` of the array, as in a slice. */
  class MachinePlan {
    const steps: array<Step>
    var count: nat
    var unresolved: seq<string>

    ghost predicate Valid()
      reads this
    {
      count <= steps.Length
    }

    ghost function Steps(): seq<Step>
      requires Valid()
      reads this, steps
    {
      steps[..count]
    }

    constructor (planned: seq<Step>)
      ensures Valid() && Steps() == planned && unresolved == [] && fresh(steps)
    {
      steps := new Step[|planned|](i requires 0 <= i < |planned| => planned[i]);
      count, unresolved := |planned|, [];
      new;
      assert steps[..count] == planned;
    }

    /** Plan.resolve: fills each bootstrap: file in, in place, and drops those whose reference has no
        value. */
    method Resolve(values: map<string, string>)
      requires Valid()
      modifies this, steps
      ensures Valid() && Steps() == Resolved(old(Steps()), values)
      ensures unresolved == old(unresolved) + Unresolved(old(Steps()), values)
    {
      ghost var was := Steps();
      ghost var before := unresolved;
      var kept: nat := 0;
      for i := 0 to count
        invariant kept <= i <= count == |was| <= steps.Length
        invariant UpTo(was, i, kept, before, values)
      {
        kept := ResolveNext(was, i, kept, before, values);
      }
      assert was[..|was|] == was;
      count := kept;
    }

    /** The first `n` of the planned steps are resolved, the others in place. */
    ghost predicate UpTo(was: seq<Step>, n: nat, kept: nat, before: seq<string>, values: map<string, string>)
      requires kept <= n <= |was| <= steps.Length
      reads this, steps
    {
      && steps[..kept] == Resolved(was[..n], values) && unresolved == before + Unresolved(was[..n], values)
      && forall j | n <= j < |was| :: steps[j] == was[j]
    }

    method ResolveNext(
      ghost was: seq<Step>, i: nat, kept: nat, ghost before: seq<string>, values: map<string,
      string>) returns (next: nat)
      requires kept <= i < |was| <= steps.Length && UpTo(was, i, kept, before, values)
      modifies this`unresolved, steps
      ensures next <= i + 1 && UpTo(was, i + 1, next, before, values)
    {
      var s := steps[i];
      ResolvedNext(was, i, values);
      if Dropped(s, values) {
        unresolved := unresolved + [FileOf(s)];
        return kept;
      }
      Place(kept, Filled(s, values));
      return kept + 1;
    }

    /** Appends to the steps kept so far, over the next of the planned ones. */
    method Place(kept: nat, s: Step)
      requires kept < steps.Length
      modifies steps
      ensures steps[..kept + 1] == old(steps[..kept]) + [s]
      ensures forall j | kept < j < steps.Length :: steps[j] == old(steps[j])
    {
      steps[kept] := s;
    }
  }

  lemma {:induction false} ResolvedMembers(steps: seq<Step>, values: map<string, string>)
    ensures forall x ::
              x in Resolved(steps, values) <==> exists s | s in steps :: !Dropped(s, values) && x == Filled(s, values)
    ensures forall f ::
              f in Unresolved(steps, values) <==> exists s | s in steps :: Dropped(s, values) && f == FileOf(s)
  {
    if steps != [] {
      var n := |steps| - 1;
      ResolvedMembers(steps[..n], values);
      assert steps == steps[..n] + [steps[n]];
    }
  }

  /** What is left is each planned step whose reference, if any, has a value, with that value. */
  lemma ResolvedExact(steps: seq<Step>, values: map<string, string>, x: Step, file: string)
    ensures x in Resolved(steps, values)
            <==> exists s | s in steps :: if s.ref == "" then x == s
                                          else s.ref in values && x == s.(content := values[s.ref])
    ensures file in Unresolved(steps, values)
            <==> exists s | s in steps :: s.ref != "" && s.ref !in values && file == FileOf(s)
  {
    ResolvedMembers(steps, values);
    if x in Resolved(steps, values) {
      var s :| s in steps && !Dropped(s, values) && x == Filled(s, values);
    }
    if s :| s in steps && if s.ref == "" then x == s else s.ref in values && x == s.(content := values[s.ref]) {
      assert !Dropped(s, values) && x == Filled(s, values);
    }
    if file in Unresolved(steps, values) {
      var s :| s in steps && Dropped(s, values) && file == FileOf(s);
    }
    if s :| s in steps && s.ref != "" && s.ref !in values && file == FileOf(s) {
      assert Dropped(s, values);
    }
  }

  lemma {:induction false} ResolvedConcat(a: seq<Step>, b: seq<Step>, values: map<string, string>)
    ensures Resolved(a + b, values) == Resolved(a, values) + Resolved(b, values)
    decreases |b|
  {
    if b == [] {
      assert a + b == a;
    } else {
      var n := |b| - 1;
      assert (a + b)[..|a + b| - 1] == a + b[..n];
      ResolvedConcat(a, b[..n], values);
    }
  }

  /** Filling in a value changes nothing a step's place in the plan depends on. */
  lemma {:induction false} ResolvedOrdered(steps: seq<Step>, values: map<string, string>)
    requires Ordered(steps)
    ensures Ordered(Resolved(steps, values))
  {
    if steps != [] {
      var n := |steps| - 1;
      var before, s := steps[..n], steps[n];
      ResolvedOrdered(before, values);
      ResolvedMembers(before, values);
      if !Dropped(s, values) {
        var last := [Filled(s, values)];
        assert WellFormed(s);
        forall x, y | x in Resolved(before, values) && y in last ensures Spares(y, x) {
          var t :| t in before && !Dropped(t, values) && x == Filled(t, values);
          var i :| 0 <= i < n && before[i] == t;
          assert Spares(steps[n], steps[i]);
        }
        OrderedConcat(Resolved(before, values), last);
      }
    }
  }

  lemma ResolvedDistinct(steps: seq<Step>, values: map<string, string>)
    requires DistinctHosts(steps)
    ensures DistinctHosts(Resolved(steps, values))
  {
    ResolvedMembers(steps, values);
  }

  // ----- the phases of a plan

  ghost predicate AllIn(steps: seq<Step>, phase: Phase) { forall s | s in steps :: s.phase == phase }

  lemma {:induction false} InPhaseConcat(a: seq<Step>, b: seq<Step>, phase: Phase)
    ensures InPhase(a + b, phase) == InPhase(a, phase) + InPhase(b, phase)
    decreases |b|
  {
    if b == [] {
      assert a + b == a;
    } else {
      var n := |b| - 1;
      assert (a + b)[..|a + b| - 1] == a + b[..n];
      InPhaseConcat(a, b[..n], phase);
    }
  }

  lemma {:induction false} InPhaseAll(steps: seq<Step>, own: Phase, phase: Phase)
    requires AllIn(steps, own)
    ensures InPhase(steps, phase) == if phase == own then steps else []
  {
    if steps != [] {
      var n := |steps| - 1;
      forall s | s in steps[..n] ensures s.phase == own { assert s in steps; }
      InPhaseAll(steps[..n], own, phase);
      assert steps[n].phase == own;
    }
  }

  lemma InPhaseOfThree(a: seq<Step>, b: seq<Step>, c: seq<Step>, p: Phase)
    ensures InPhase(a + b + c, p) == InPhase(a, p) + InPhase(b, p) + InPhase(c, p)
  {
    InPhaseConcat(a + b, c, p);
    InPhaseConcat(a, b, p);
  }

  lemma PhaseOfThree(a: seq<Step>, b: seq<Step>, c: seq<Step>, p: Phase)
    requires AllIn(a, PhaseSetup) && AllIn(b, PhaseCredentials) && AllIn(c, PhaseHostBootstrap)
    ensures InPhase(a + b + c, p)
            == match p case PhaseSetup => a case PhaseCredentials => b case PhaseHostBootstrap => c
  {
    InPhaseOfThree(a, b, c, p);
    InPhaseAll(a, PhaseSetup, p);
    InPhaseAll(b, PhaseCredentials, p);
    InPhaseAll(c, PhaseHostBootstrap, p);
  }

  lemma PhasedOrder(a: seq<Step>, b: seq<Step>, c: seq<Step>)
    requires AllIn(a, PhaseSetup) && AllIn(b, PhaseCredentials) && AllIn(c, PhaseHostBootstrap)
    ensures ByPhase(a + b + c) == a + b + c
  {
    PhaseOfThree(a, b, c, PhaseSetup);
    PhaseOfThree(a, b, c, PhaseCredentials);
    PhaseOfThree(a, b, c, PhaseHostBootstrap);
  }

  lemma ResolvedPhase(part: Part, hosts: seq<Host>, opts: Options, values: map<string, string>)
    ensures AllIn(Resolved(AllOf(part, hosts, opts), values), PhaseOf(part))
  {
    var steps := AllOf(part, hosts, opts);
    ResolvedMembers(steps, values);
    forall x | x in Resolved(steps, values) ensures x.phase == PhaseOf(part) {
      var s :| s in steps && !Dropped(s, values) && x == Filled(s, values);
      AllMembers(part, hosts, opts, s);
      PartMembers(part, s.host, opts, s);
    }
  }

  /** Running phase by phase is running in plan order. */
  lemma PlanOrderIsRunOrder(hosts: seq<Host>, opts: Options, values: map<string, string>)
    ensures ByPhase(Resolved(PlanSteps(hosts, opts), values)) == Resolved(PlanSteps(hosts, opts), values)
  {
    var a, b, c := AllOf(Setup, hosts, opts), AllOf(Credentials, hosts, opts), AllOf(PerHost, hosts, opts);
    ResolvedConcat(a + b, c, values);
    ResolvedConcat(a, b, values);
    ResolvedPhase(Setup, hosts, opts, values);
    ResolvedPhase(Credentials, hosts, opts, values);
    ResolvedPhase(PerHost, hosts, opts, values);
    PhasedOrder(Resolved(a, values), Resolved(b, values), Resolved(c, values));
  }

  // ----- the Fleet

  function HostOf(c: Topology.HostConfig): Host { Host(c.hostname, c.user) }

  /** `hosts` are the Fleet's Hosts at the indices `at`, each of them on `machine`, in any order. */
  ghost predicate OnMachine(hosts: seq<Host>, at: seq<nat>, configs: seq<Topology.HostConfig>, machine: string) {
    && |hosts| == |at|
    && (forall i | 0 <= i < |at| :: at[i] < |configs| && hosts[i] == HostOf(configs[at[i]])
                                    && Topology.MachineKey(configs[at[i]].machine) == Topology.MachineKey(machine))
    && forall i, j | 0 <= i < j < |at| :: at[i] != at[j]
  }

  /** A Fleet without clashes gives each Machine distinct Hosts. */
  lemma NoClashDistinct(hosts: seq<Host>, at: seq<nat>, configs: seq<Topology.HostConfig>, machine: string)
    requires Topology.Clashes(configs) == [] && OnMachine(hosts, at, configs, machine)
    ensures DistinctList(hosts)
  {
    Topology.NoClashByKey(configs);
    forall i, j | 0 <= i < j < |hosts| ensures hosts[i].hostname != hosts[j].hostname
      && hosts[i].user != hosts[j].user {
      var a, b := if at[i] < at[j] then at[i] else at[j], if at[i] < at[j] then at[j] else at[i];
      assert Topology.Hostname(configs[a]) != Topology.Hostname(configs[b]);
      assert Topology.MachineUser(configs[a]) != Topology.MachineUser(configs[b]);
    }
  }

  /** The plan New makes for a Fleet without clashes, its references resolved or not, has distinct
      Hosts, never undoes itself, ends with the bootstraps, and is run in its own order. */
  lemma PlanIsSound(
    hosts: seq<Host>, at: seq<nat>, configs: seq<Topology.HostConfig>, machine: string, opts: Options,
      values: map<string, string>)
    requires Topology.Clashes(configs) == [] && OnMachine(hosts, at, configs, machine)
    requires forall h | h in hosts :: Placeable(h, opts)
    ensures var steps := Resolved(PlanSteps(hosts, opts), values);
            && DistinctHosts(steps) && Ordered(steps) && AgentRestarts.BootstrapLast(steps) && ByPhase(steps) == steps
            && forall h, s | h in hosts && s in steps ::
                s.host == h || (s.host.hostname != h.hostname && s.host.user != h.user)
  {
    NoClashDistinct(hosts, at, configs, machine);
    PlanOrdered(hosts, opts);
    PlanHosts(hosts, opts);
    ResolvedSound(PlanSteps(hosts, opts), values, hosts);
    PlanOrderIsRunOrder(hosts, opts, values);
  }

  lemma ResolvedSound(planned: seq<Step>, values: map<string, string>, hosts: seq<Host>)
    requires Ordered(planned) && DistinctHosts(planned) && DistinctList(hosts) && forall s | s in planned ::
               s.host in hosts
    ensures var steps := Resolved(planned, values);
            && DistinctHosts(steps) && Ordered(steps) && AgentRestarts.BootstrapLast(steps)
            && forall h, s | h in hosts && s in steps ::
                s.host == h || (s.host.hostname != h.hostname && s.host.user != h.user)
  {
    ResolvedOrdered(planned, values);
    ResolvedDistinct(planned, values);
    ResolvedMembers(planned, values);
    OrderedEndsInBootstraps(Resolved(planned, values));
    HostsApart(hosts, Resolved(planned, values));
  }

  lemma OrderedEndsInBootstraps(steps: seq<Step>)
    requires Ordered(steps) && DistinctHosts(steps)
    ensures AgentRestarts.BootstrapLast(steps)
  {
    forall i, j | 0 <= i < j < |steps| && steps[i].host.hostname == steps[j].host.hostname
      ensures !steps[i].kind.StepHostBootstrap?
    {
      assert Spares(steps[j], steps[i]);
      assert steps[i] in steps && steps[j] in steps;
    }
  }

  lemma HostsApart(hosts: seq<Host>, steps: seq<Step>)
    requires DistinctList(hosts) && forall s | s in steps :: s.host in hosts
    ensures forall h, s | h in hosts && s in steps ::
              s.host == h || (s.host.hostname != h.hostname && s.host.user != h.user)
  {
    forall h, s | h in hosts && s in steps ensures s.host == h
      || (s.host.hostname != h.hostname && s.host.user != h.user) {
      if s.host != h {
        DistinctUsers(hosts, s.host, h);
      }
    }
  }

  /** Bootstrapping a Machine of a Fleet without clashes: after a first run without failures, from any
      state of the Machine, every end state but the bootstraps' holds, and a second run only re-runs
      the bootstraps. */
  lemma MachineSettles(
    ops: HostOps, w: World, hosts: seq<Host>, at: seq<nat>, configs: seq<Topology.HostConfig>, machine: string,
      opts: Options,
    values: map<string, string>, first: nat -> bool, second: nat -> bool)
    requires Topology.Clashes(configs) == [] && OnMachine(hosts, at, configs, machine)
    requires (forall h | h in hosts :: Placeable(h, opts)) && ReadsAnswer(ops)
    ensures var steps := Resolved(PlanSteps(hosts, opts), values);
            var r := PlainRun(ops, Start(w), ByPhase(steps), first);
            MeetsContract(ops, PathsOf(steps)) && Clean(r) ==>
              AllDone(ops, r.world, steps) && OnlyBootstraps(PlainRun(ops, Start(r.world), ByPhase(steps), second))
  {
    PlanIsSound(hosts, at, configs, machine, opts, values);
    var steps := Resolved(PlanSteps(hosts, opts), values);
    if MeetsContract(ops, PathsOf(steps)) && Clean(PlainRun(ops, Start(w), steps, first)) {
      CleanRunDone(ops, w, steps, first);
      SecondRunOnlyBootstraps(ops, w, steps, first, second);
    }
  }

  /** Every check but the bootstraps' is done. */
  ghost predicate AllDone(ops: HostOps, w: World, steps: seq<Step>) {
    forall s | s in steps && !s.kind.StepHostBootstrap? :: Check(ops, AccountOf(w, s.host), w.tree, s).Done?
  }

  lemma CleanRunDone(ops: HostOps, w: World, steps: seq<Step>, cancelled: nat -> bool)
    requires MeetsContract(ops, PathsOf(steps)) && ReadsAnswer(ops) && Ordered(steps)
             && Clean(PlainRun(ops, Start(w), steps, cancelled))
    ensures AllDone(ops, PlainRun(ops, Start(w), steps, cancelled).world, steps)
  {
    var w' := PlainRun(ops, Start(w), steps, cancelled).world;
    assert steps[..|steps|] == steps;
    RunConverges(ops, w, steps, |steps|, cancelled);
    forall s | s in steps && !s.kind.StepHostBootstrap? ensures Check(ops, AccountOf(w', s.host), w'.tree, s).Done? {
      var i :| 0 <= i < |steps| && steps[i] == s;
      DoneIsGoal(ops, w', s);
    }
  }

  /** Each Host of such a Machine gets what a run over its own steps would give it. */
  lemma HostsAreIsolated(
    ops: HostOps, w: World, hosts: seq<Host>, at: seq<nat>, configs: seq<Topology.HostConfig>, machine: string,
      opts: Options,
    values: map<string, string>, h: Host)
    requires Topology.Clashes(configs) == [] && OnMachine(hosts, at, configs, machine) && h in hosts
    requires (forall g | g in hosts :: Placeable(g, opts)) && OpensCheckout(ops) && Isolation.TreeReadSteady(ops)
    ensures var steps := ByPhase(Resolved(PlanSteps(hosts, opts), values));
            Isolation.Matches(ops, PlainRun(ops, Start(w), steps, Never),
                              PlainRun(ops, Start(w), Isolation.Own(steps, h.hostname), Never), h)
  {
    PlanIsSound(hosts, at, configs, machine, opts, values);
    Isolation.EachHostAlone(ops, w, Resolved(PlanSteps(hosts, opts), values), h);
  }
}
