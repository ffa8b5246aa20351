/** Bootstrapping a Machine: a run checks every step in plan order and applies it when its end state
    does not hold (pkg/machine/run.go, pkg/machine/hostbootstrap.go:78-129). */
module Runner {
  import opened Machine

  datatype Outcome = OutcomeApplied | OutcomeDone | OutcomeFailed | OutcomeSkipped

  /** A line of the run's output. */
  datatype Line = Line(step: Step, outcome: Outcome)

  datatype Target = OnAccount(write: Write) | OnTree

  /** A call of the write side of HostOps for a Host, with its success. */
  datatype Call = Call(hostname: string, target: Target, ok: bool)

  /** The Machine, and what a run keeps. `required` are the Hosts with a credential file written,
      `restarted` those whose Agent got its restart. */
  datatype Run = Run(
    world: World, stopped: map<string, string>, errs: seq<string>, required: set<string>, restarted: set<string>,
    report: seq<Line>, calls: seq<Call>, interrupted: bool)

  function Start(w: World): Run { Run(w, map[], [], {}, {}, [], [], false) }

  function SetAccount(w: World, h: Host, a: Account): World { w.(accounts := w.accounts[h.user := a]) }

  // ----- apply

  /** What applying a step leaves of its Host's account and of the checkout. */
  datatype Effect = Effect(account: Account, tree: Tree, calls: seq<Call>, ok: bool, restarted: bool)

  function NoEffect(a: Account, t: Tree, ok: bool): Effect { Effect(a, t, [], ok, false) }

  function Written(ops: HostOps, a: Account, t: Tree, h: Host, w: Write): Effect {
    var (b, ok) := ops.write(a, w);
    Effect(b, t, [Call(h.hostname, OnAccount(w), ok)], ok, false)
  }

  /** The effect `n`, made on what `e` left. */
  function Joined(e: Effect, n: Effect): Effect { n.(calls := e.calls + n.calls) }

  /** startAgent, once the Host's user is found. */
  function Started(ops: HostOps, a: Account, t: Tree, h: Host, restart: bool): Effect {
    var e := Written(ops, a, t, h, RunBootstrap);
    if e.ok && restart then Joined(e, Written(ops, e.account, t, h, RestartAgent)) else e
  }

  /** bootstrapHost, once the Agent is resolved and the Host's user found. */
  function Bootstrapped(ops: HostOps, a: Account, t: Tree, h: Host, restart: bool): Effect {
    var e := Started(ops, a, t, h, restart);
    if e.ok then Joined(e, Written(ops, e.account, t, h, WaitHealthy)).(restarted := restart) else e
  }

  /** placeCredential. */
  function Placed(ops: HostOps, a: Account, t: Tree, s: Step, fix: Fix, owner: User): Effect {
    Written(ops, a, t, s.host,
            if fix.FixOwnerMode? then SetOwnerMode(s.path, owner.uid, owner.gid, s.mode)
            else WriteFile(s.path, s.content, owner.uid, owner.gid, s.mode))
  }

  /** applyRootful. */
  function AppliedRootful(ops: HostOps, a: Account, t: Tree, s: Step): Effect {
    match s.kind
    case StepPodmanSocket => Written(ops, a, t, s.host, EnableSystemUnit)
    case StepDir => Written(ops, a, t, s.host, EnsureDir(s.path, 0, 0, s.mode))
    case _ => NoEffect(a, t, false)
  }

  /** applyUser, for the existing user `u`. */
  function AppliedUser(ops: HostOps, a: Account, t: Tree, s: Step, u: User): Effect {
    match s.kind
    case StepSubIDs => NoEffect(a, t, ops.read(a, SubIDs(u)).Answers? && a.subuid && a.subgid)
    case StepLinger => Written(ops, a, t, s.host, EnableLinger)
    case StepUserManager => Written(ops, a, t, s.host, WaitManager)
    case StepPodmanSocket => Written(ops, a, t, s.host, EnableUserUnit)
    case StepDir => Written(ops, a, t, s.host, EnsureDir(s.path, u.uid, u.gid, s.mode))
    case _ => NoEffect(a, t, false)
  }

  /** apply, when `l` is what a lookup of the Host's user answers. */
  function Apply(ops: HostOps, a: Account, t: Tree, s: Step, fix: Fix, l: Lookup, restart: bool): Effect {
    match s.kind
    case StepUser => Written(ops, a, t, s.host, CreateUser)
    case StepCheckout => (var (u, ok) := ops.makeReadable(t);
      Effect(a, u, [Call(s.host.hostname, OnTree, ok)], ok, false))
    case StepCredential =>
      if s.host.Rootful() then Placed(ops, a, t, s, fix, User(0, 0))
      else if l.Found? then Placed(ops, a, t, s, fix, l.user)
      else NoEffect(a, t, false)
    case StepHostBootstrap =>
      if ops.resolves(s.host.hostname) && (s.host.Rootful() || l.Found?) then Bootstrapped(ops, a, t, s.host, restart)
      else NoEffect(a, t, false)
    case _ =>
      if s.host.Rootful() then AppliedRootful(ops, a, t, s)
      else if l.Found? then AppliedUser(ops, a, t, s, l.user)
      else NoEffect(a, t, false)
  }

  /** Whether applying the step looks the Host's user up. */
  predicate AppliesAsUser(ops: HostOps, s: Step) {
    && !s.host.Rootful() && !s.kind.StepUser? && !s.kind.StepCheckout?
    && (s.kind.StepHostBootstrap? ==> ops.resolves(s.host.hostname))
  }

  // ----- a step of a run

  function Noted(r: Run, s: Step, o: Outcome): Run { r.(report := r.report + [Line(s, o)]) }

  /** The end of a step that was not done: an interruption, or a failure that stops the Host. */
  function Ended(r: Run, s: Step, ok: bool, cancelled: bool): Run {
    if cancelled then r.(interrupted := true)
    else if ok then r
    else Noted(r.(stopped := r.stopped[s.host.hostname := s.id], errs := r.errs + [s.id]), s, OutcomeFailed)
  }

  /** The run after the step's apply had the effect `e`. */
  function AfterApply(r: Run, s: Step, fix: Fix, e: Effect): Run {
    var host := s.host.hostname;
    var q := r.(world := SetAccount(r.world, s.host, e.account).(tree := e.tree), calls := r.calls + e.calls,
                restarted := if e.restarted then r.restarted + {host} else r.restarted);
    if !e.ok then q
    else Noted(if fix.FixContent? then q.(required := q.required + {host}) else q, s, OutcomeApplied)
  }

  /** A step whose check found `c`, a lookup of the Host's user answering `l`. */
  function Judged(ops: HostOps, r: Run, s: Step, c: Checked, l: Lookup, cancelled: bool): Run {
    match c
    case Done => Noted(r, s, OutcomeDone)
    case CheckError(_) => Ended(r, s, false, cancelled)
    case WouldDo(fix) =>
      var e := Apply(ops, AccountOf(r.world, s.host), r.world.tree, s, fix, l, s.host.hostname in r.required);
      Ended(AfterApply(r, s, fix, e), s, e.ok, cancelled)
  }

  /** A step with no cache: each question is asked when it comes up. */
  function PlainStep(ops: HostOps, r: Run, s: Step, cancelled: bool): Run {
    if s.host.hostname in r.stopped then Noted(r, s, OutcomeSkipped)
    else
      var a := AccountOf(r.world, s.host);
      Judged(ops, r, s, Check(ops, a, r.world.tree, s), LookupOf(ops, a), cancelled)
  }

  /** A run over `steps` from `r`; `cancelled(k)` says whether the interruption has come by the end
      of the step at k. */
  function PlainRun(ops: HostOps, r: Run, steps: seq<Step>, cancelled: nat -> bool): Run {
    if steps == [] then r
    else
      var n := |steps| - 1;
      var p := PlainRun(ops, r, steps[..n], cancelled);
      if p.interrupted then p else PlainStep(ops, p, steps[n], cancelled(n))
  }

  lemma RunNext(ops: HostOps, r: Run, steps: seq<Step>, s: Step, cancelled: nat -> bool)
    ensures var p := PlainRun(ops, r, steps, cancelled);
            PlainRun(ops, r, steps + [s], cancelled) == if p.interrupted then p
              else PlainStep(ops, p, s, cancelled(|steps|))
  {
    assert (steps + [s])[..|steps|] == steps;
  }

  function Never(k: nat): bool { false }

  /** The run over the first `n` steps. */
  function RunTo(ops: HostOps, r: Run, steps: seq<Step>, n: nat, cancelled: nat -> bool): Run
    requires n <= |steps|
  {
    PlainRun(ops, r, steps[..n], cancelled)
  }

  lemma RunToNone(ops: HostOps, r: Run, steps: seq<Step>, cancelled: nat -> bool)
    ensures RunTo(ops, r, steps, 0, cancelled) == r
  {
  }

  lemma RunToNext(ops: HostOps, r: Run, steps: seq<Step>, n: nat, cancelled: nat -> bool)
    requires n < |steps|
    ensures var p := RunTo(ops, r, steps, n, cancelled);
            RunTo(ops, r, steps, n + 1, cancelled) == if p.interrupted then p
              else PlainStep(ops, p, steps[n], cancelled(n))
  {
    assert steps[..n + 1] == steps[..n] + [steps[n]];
    RunNext(ops, r, steps[..n], steps[n], cancelled);
  }

  // ----- the same through the fact cache

  function FactsIn(facts: map<string, Facts>, h: Host): Facts {
    if h.hostname in facts then facts[h.hostname] else NoFacts()
  }

  function CachedApplyFacts(ops: HostOps, a: Account, s: Step, f: Facts): (Facts, Lookup) {
    if AppliesAsUser(ops, s) then CachedLookup(ops, a, f) else (f, Missing)
  }

  /** The step of a Host that has not stopped, through the Host's facts `f`. */
  function CachedTurn(ops: HostOps, r: Run, f: Facts, s: Step, cancelled: bool): (Facts, Run) {
    var a := AccountOf(r.world, s.host);
    var (g, c) := CachedCheck(ops, a, r.world.tree, f, s);
    if c.WouldDo? then
      var (after, l) := CachedApplyFacts(ops, a, s, g);
      (Forget(after), Judged(ops, r, s, c, l, cancelled))
    else (g, Judged(ops, r, s, c, Missing, cancelled))
  }

  /** The step as the runner makes it: its facts, and the run, after it. */
  function CachedStep(
    ops: HostOps, r: Run, facts: map<string, Facts>, s: Step, cancelled: bool): (map<string, Facts>, Run)
  {
    if s.host.hostname in r.stopped then (facts, Noted(r, s, OutcomeSkipped))
    else
      var (f, q) := CachedTurn(ops, r, FactsIn(facts, s.host), s, cancelled);
      (facts[s.host.hostname := f], q)
  }

  ghost predicate AllFresh(ops: HostOps, w: World, facts: map<string, Facts>, steps: seq<Step>) {
    forall s | s in steps :: Fresh(ops, AccountOf(w, s.host), FactsIn(facts, s.host))
  }

  /** A step touches the account of its own Host and the checkout, no other account. */
  lemma OtherAccountsStand(ops: HostOps, r: Run, s: Step, cancelled: bool, h: Host)
    requires h.user != s.host.user
    ensures AccountOf(PlainStep(ops, r, s, cancelled).world, h) == AccountOf(r.world, h)
  {
  }

  lemma LookupUnusedInApply(
    ops: HostOps, a: Account, t: Tree, s: Step, fix: Fix, l: Lookup, restart: bool)
    requires !AppliesAsUser(ops, s)
    ensures Apply(ops, a, t, s, fix, Missing, restart) == Apply(ops, a, t, s, fix, l, restart)
  {
  }

  /** A step whose apply looks no user up has the same effect whatever a lookup would answer. */
  lemma LookupUnused(ops: HostOps, r: Run, s: Step, c: Checked, l: Lookup, cancelled: bool)
    requires !c.WouldDo? || !AppliesAsUser(ops, s)
    ensures Judged(ops, r, s, c, Missing, cancelled) == Judged(ops, r, s, c, l, cancelled)
  {
    if c.WouldDo? {
      var restart := s.host.hostname in r.required;
      LookupUnusedInApply(ops, AccountOf(r.world, s.host), r.world.tree, s, c.fix, l, restart);
    }
  }

  lemma CachedStepIsPlain(ops: HostOps, r: Run, facts: map<string, Facts>, s: Step, cancelled: bool)
    requires Fresh(ops, AccountOf(r.world, s.host), FactsIn(facts, s.host))
    ensures CachedStep(ops, r, facts, s, cancelled).1 == PlainStep(ops, r, s, cancelled)
  {
    if s.host.hostname !in r.stopped {
      var a, f := AccountOf(r.world, s.host), FactsIn(facts, s.host);
      CacheCoherent(ops, a, r.world.tree, f, s);
      var (g, c) := CachedCheck(ops, a, r.world.tree, f, s);
      LookupCoherent(ops, a, g);
      if !c.WouldDo? || !AppliesAsUser(ops, s) {
        LookupUnused(ops, r, s, c, LookupOf(ops, a), cancelled);
      }
    }
  }

  /** A step that is not applied leaves the Machine as it was. */
  lemma UnappliedStands(ops: HostOps, r: Run, s: Step, c: Checked, l: Lookup, cancelled: bool)
    requires !c.WouldDo?
    ensures Judged(ops, r, s, c, l, cancelled).world == r.world
  {
  }

  lemma OwnFactsStayFresh(ops: HostOps, r: Run, facts: map<string, Facts>, s: Step, cancelled: bool)
    requires Fresh(ops, AccountOf(r.world, s.host), FactsIn(facts, s.host))
    ensures var (after, q) := CachedStep(ops, r, facts, s, cancelled);
            Fresh(ops, AccountOf(q.world, s.host), FactsIn(after, s.host))
  {
    if s.host.hostname !in r.stopped {
      var a, f := AccountOf(r.world, s.host), FactsIn(facts, s.host);
      CacheCoherent(ops, a, r.world.tree, f, s);
      var (g, c) := CachedCheck(ops, a, r.world.tree, f, s);
      if !c.WouldDo? {
        UnappliedStands(ops, r, s, c, Missing, cancelled);
      }
    }
  }

  lemma OtherFactsStand(ops: HostOps, r: Run, facts: map<string, Facts>, s: Step, cancelled: bool, h: Host)
    requires h.hostname != s.host.hostname
    ensures FactsIn(CachedStep(ops, r, facts, s, cancelled).0, h) == FactsIn(facts, h)
  {
  }

  /** The fact cache changes nothing: a step through fresh facts is the step without a cache, and
      leaves every Host's facts fresh. */
  lemma StepKeepsCacheFresh(ops: HostOps, r: Run, facts: map<string, Facts>, steps: seq<Step>, s: Step, cancelled: bool)
    requires s in steps && DistinctHosts(steps) && AllFresh(ops, r.world, facts, steps)
    ensures CachedStep(ops, r, facts, s, cancelled).1 == PlainStep(ops, r, s, cancelled)
    ensures AllFresh(ops, CachedStep(ops, r, facts, s, cancelled).1.world, CachedStep(ops, r, facts, s, cancelled).0,
            steps)
  {
    CachedStepIsPlain(ops, r, facts, s, cancelled);
    OwnFactsStayFresh(ops, r, facts, s, cancelled);
    var (after, q) := CachedStep(ops, r, facts, s, cancelled);
    forall t | t in steps ensures Fresh(ops, AccountOf(q.world, t.host), FactsIn(after, t.host)) {
      if t.host.user != s.host.user {
        OtherAccountsStand(ops, r, s, cancelled, t.host);
        OtherFactsStand(ops, r, facts, s, cancelled, t.host);
      } else {
        assert AccountOf(q.world, t.host) == AccountOf(q.world, s.host);
      }
    }
  }

  /** The facts and the run after `steps`. */
  function CachedRun(
    ops: HostOps, r: Run, facts: map<string, Facts>, steps: seq<Step>,
    cancelled: nat -> bool): (map<string, Facts>, Run)
  {
    if steps == [] then (facts, r)
    else
      var n := |steps| - 1;
      var (f, p) := CachedRun(ops, r, facts, steps[..n], cancelled);
      if p.interrupted then (f, p) else CachedStep(ops, p, f, steps[n], cancelled(n))
  }

  /** Fact cache coherence: over a whole run on distinct Hosts, interrupted or not, the cache changes
      no check, no call and no outcome. */
  lemma {:induction false} CachedRunIsPlain(
    ops: HostOps, r: Run, facts: map<string, Facts>, steps: seq<Step>, n: nat, cancelled: nat -> bool)
    requires n <= |steps| && DistinctHosts(steps) && AllFresh(ops, r.world, facts, steps)
    ensures CachedRun(ops, r, facts, steps[..n], cancelled).1 == PlainRun(ops, r, steps[..n], cancelled)
    ensures AllFresh(ops, PlainRun(ops, r, steps[..n], cancelled).world,
            CachedRun(ops, r, facts, steps[..n], cancelled).0, steps)
  {
    if n > 0 {
      CachedRunIsPlain(ops, r, facts, steps, n - 1, cancelled);
      assert steps[..n][..n - 1] == steps[..n - 1];
      var (f, p) := CachedRun(ops, r, facts, steps[..n - 1], cancelled);
      if !p.interrupted {
        StepKeepsCacheFresh(ops, p, f, steps, steps[n - 1], cancelled(n - 1));
      }
    }
  }

  lemma {:induction false} InterruptionEnds(
    ops: HostOps, r: Run, facts: map<string, Facts>, steps: seq<Step>, n: nat, cancelled: nat -> bool)
    requires n <= |steps| && CachedRun(ops, r, facts, steps[..n], cancelled).1.interrupted
    ensures CachedRun(ops, r, facts, steps, cancelled) == CachedRun(ops, r, facts, steps[..n], cancelled)
    decreases |steps|
  {
    if n < |steps| {
      var before := steps[..|steps| - 1];
      assert before[..n] == steps[..n];
      InterruptionEnds(ops, r, facts, before, n, cancelled);
    } else {
      assert steps[..n] == steps;
    }
  }

  // ----- the phases of a run

  function InPhase(steps: seq<Step>, phase: Phase): seq<Step> {
    if steps == [] then []
    else
      var n := |steps| - 1;
      InPhase(steps[..n], phase) + if steps[n].phase == phase then [steps[n]] else []
  }

  /** The order of a run: phase by phase, within a phase as planned. */
  function ByPhase(steps: seq<Step>): seq<Step> {
    InPhase(steps, PhaseSetup) + InPhase(steps, PhaseCredentials) + InPhase(steps, PhaseHostBootstrap)
  }

  lemma {:induction false} InPhaseMembers(steps: seq<Step>, phase: Phase)
    ensures forall s :: s in InPhase(steps, phase) <==> s in steps && s.phase == phase
  {
    if steps != [] {
      InPhaseMembers(steps[..|steps| - 1], phase);
    }
  }

  lemma ByPhaseMembers(steps: seq<Step>)
    ensures forall s :: s in ByPhase(steps) <==> s in steps
  {
    InPhaseMembers(steps, PhaseSetup);
    InPhaseMembers(steps, PhaseCredentials);
    InPhaseMembers(steps, PhaseHostBootstrap);
  }

  lemma {:induction false} InPhasePrefix(steps: seq<Step>, phase: Phase, n: nat)
    requires n <= |steps|
    ensures InPhase(steps[..n], phase) <= InPhase(steps, phase)
    decreases |steps|
  {
    if n < |steps| {
      assert steps[..|steps| - 1][..n] == steps[..n];
      InPhasePrefix(steps[..|steps| - 1], phase, n);
    } else {
      assert steps[..n] == steps;
    }
  }

  /** The step runner, on the Machine `world`. */
  class StepRunner {
    const ops: HostOps
    const plan: seq<Step>
    var world: World
    var facts: map<string, HostFacts>
    var stopped: map<string, string>
    var errs: seq<string>
    var required: set<string>
    var restarted: set<string>
    var report: seq<Line>
    var calls: seq<Call>
    var interrupted: bool

    /** Each Host has facts of its own, and each step's Host an account, its user existing or not. */
    ghost predicate Valid()
      reads this
    {
      && (forall g, h | g in facts && h in facts && g != h :: facts[g] != facts[h])
      && forall s | s in plan :: s.host.user in world.accounts
    }

    ghost function State(): Run
      reads this
    {
      Run(world, stopped, errs, required, restarted, report, calls, interrupted)
    }

    ghost function FactsNow(): map<string, Facts>
      reads this, facts.Values
    {
      map h | h in facts :: facts[h].AsFacts()
    }

    constructor (ops: HostOps, plan: seq<Step>, world: World)
      requires forall s | s in plan :: s.host.user in world.accounts
      ensures Valid() && this.ops == ops && this.plan == plan && State() == Start(world) && facts == map[]
              && FactsNow() == map[]
    {
      this.ops, this.plan, this.world := ops, plan, world;
      facts, stopped, errs, required, restarted := map[], map[], [], {}, {};
      report, calls, interrupted := [], [], false;
    }

    /** factsOf: a Host's facts, created on first use. */
    method FactsOf(h: Host) returns (f: HostFacts)
      requires Valid()
      modifies this`facts
      ensures Valid()
      ensures facts == old(facts)[h.hostname := f] && (f == old(FactsHere(h)) || fresh(f))
      ensures f.AsFacts() == FactsIn(old(FactsNow()), h)
    {
      if h.hostname in facts {
        f := facts[h.hostname];
      } else {
        f := new HostFacts();
        facts := facts[h.hostname := f];
      }
    }

    ghost function FactsHere(h: Host): object?
      reads this
    {
      if h.hostname in facts then facts[h.hostname] else null
    }

    method Write(h: Host, w: Write) returns (ok: bool)
      modifies this`world, this`calls
      ensures var e := Written(ops, AccountOf(old(world), h), old(world.tree), h, w);
              ok == e.ok && Shows(e, h, old(world), old(calls), restarted)
    {
      var (b, done) := ops.write(AccountOf(world, h), w);
      world := SetAccount(world, h, b);
      calls := calls + [Call(h.hostname, OnAccount(w), done)];
      ok := done;
    }

    /** startAgent, for a Host whose user is found. */
    method StartAgent(h: Host, restart: bool) returns (ok: bool)
      modifies this`world, this`calls
      ensures var e := Started(ops, AccountOf(old(world), h), old(world.tree), h, restart);
              ok == e.ok && Shows(e, h, old(world), old(calls), restarted)
    {
      ok := Write(h, RunBootstrap);
      if ok && restart {
        SetTwice(old(world), h, AccountOf(world, h), ops.write(AccountOf(world, h), RestartAgent).0);
        ok := Write(h, RestartAgent);
      }
    }

    method BootstrapHost(f: HostFacts, s: Step) returns (ok: bool)
      requires s.kind.StepHostBootstrap? && s.host.user in world.accounts
      modifies f, this`world, this`calls, this`restarted
      ensures f.AsFacts() == CachedApplyFacts(ops, AccountOf(old(world), s.host), s, old(f.AsFacts())).0
      ensures ok == EffectHere(old(world), old(f.AsFacts()), s, NoFix).ok
      ensures Shows(EffectHere(old(world), old(f.AsFacts()), s, NoFix), s.host, old(world), old(calls), old(restarted))
    {
      var h := s.host;
      SameAccount(world, h);
      if !ops.resolves(h.hostname) {
        return false;
      }
      if !h.Rootful() {
        var l := f.FindUser(ops, AccountOf(world, h));
        if !l.Found? {
          return false;
        }
      }
      var restart := h.hostname in required;
      ok := StartAgent(h, restart);
      if !ok {
        return;
      }
      if restart {
        restarted := restarted + {h.hostname};
      }
      SetTwice(old(world), h, AccountOf(world, h), ops.write(AccountOf(world, h), WaitHealthy).0);
      ok := Write(h, WaitHealthy);
    }

    method ApplyUser(f: HostFacts, s: Step) returns (ok: bool)
      requires !s.host.Rootful() && (s.kind.StepSubIDs? || s.kind.StepLinger? || s.kind.StepUserManager?
               || s.kind.StepPodmanSocket? || s.kind.StepDir?)
      requires s.host.user in world.accounts
      modifies f, this`world, this`calls
      ensures f.AsFacts() == CachedApplyFacts(ops, AccountOf(old(world), s.host), s, old(f.AsFacts())).0
      ensures ok == EffectHere(old(world), old(f.AsFacts()), s, NoFix).ok
      ensures Shows(EffectHere(old(world), old(f.AsFacts()), s, NoFix), s.host, old(world), old(calls), restarted)
    {
      var l := f.FindUser(ops, AccountOf(world, s.host));
      SameAccount(world, s.host);
      if !l.Found? {
        return false;
      }
      match s.kind
      case StepSubIDs =>
        var a := AccountOf(world, s.host);
        ok := ops.read(a, SubIDs(l.user)).Answers? && a.subuid && a.subgid;
      case StepLinger => ok := Write(s.host, EnableLinger);
      case StepUserManager => ok := Write(s.host, WaitManager);
      case StepPodmanSocket => ok := Write(s.host, EnableUserUnit);
      case StepDir => ok := Write(s.host, EnsureDir(s.path, l.user.uid, l.user.gid, s.mode));
    }

    method ApplyRootful(s: Step) returns (ok: bool)
      requires s.host.user in world.accounts
      modifies this`world, this`calls
      ensures var e := AppliedRootful(ops, AccountOf(old(world), s.host), old(world.tree), s);
              ok == e.ok && Shows(e, s.host, old(world), old(calls), restarted)
    {
      match s.kind
      case StepPodmanSocket => ok := Write(s.host, EnableSystemUnit);
      case StepDir => ok := Write(s.host, EnsureDir(s.path, 0, 0, s.mode));
      case _ =>
        SameAccount(world, s.host);
        ok := false;
    }

    method PlaceCredential(f: HostFacts, s: Step, fix: Fix) returns (ok: bool)
      requires s.kind.StepCredential? && s.host.user in world.accounts
      modifies f, this`world, this`calls
      ensures f.AsFacts() == CachedApplyFacts(ops, AccountOf(old(world), s.host), s, old(f.AsFacts())).0
      ensures ok == EffectHere(old(world), old(f.AsFacts()), s, fix).ok
      ensures Shows(EffectHere(old(world), old(f.AsFacts()), s, fix), s.host, old(world), old(calls), restarted)
    {
      var owner := User(0, 0);
      if !s.host.Rootful() {
        var l := f.FindUser(ops, AccountOf(world, s.host));
        if !l.Found? {
          SameAccount(world, s.host);
          return false;
        }
        owner := l.user;
      }
      if fix.FixOwnerMode? {
        ok := Write(s.host, SetOwnerMode(s.path, owner.uid, owner.gid, s.mode));
      } else {
        ok := Write(s.host, WriteFile(s.path, s.content, owner.uid, owner.gid, s.mode));
      }
    }

    method MakeReadable(s: Step) returns (ok: bool)
      requires s.kind.StepCheckout? && s.host.user in world.accounts
      modifies this`world, this`calls
      ensures ok == EffectHere(old(world), NoFacts(), s, NoFix).ok
      ensures Shows(EffectHere(old(world), NoFacts(), s, NoFix), s.host, old(world), old(calls), restarted)
    {
      SameAccount(world, s.host);
      var (t, done) := ops.makeReadable(world.tree);
      world := world.(tree := t);
      calls := calls + [Call(s.host.hostname, OnTree, done)];
      ok := done;
    }

    /** apply. */
    method ApplyStep(f: HostFacts, s: Step, fix: Fix) returns (ok: bool)
      requires s.host.user in world.accounts
      modifies f, this`world, this`calls, this`restarted
      ensures f.AsFacts() == CachedApplyFacts(ops, AccountOf(old(world), s.host), s, old(f.AsFacts())).0
      ensures ok == EffectHere(old(world), old(f.AsFacts()), s, fix).ok
      ensures Shows(EffectHere(old(world), old(f.AsFacts()), s, fix), s.host, old(world), old(calls), old(restarted))
    {
      if s.kind.StepUser? {
        ok := Write(s.host, CreateUser);
      } else if s.kind.StepCheckout? {
        ok := MakeReadable(s);
      } else if s.kind.StepCredential? {
        ok := PlaceCredential(f, s, fix);
      } else if s.kind.StepHostBootstrap? {
        ok := BootstrapHost(f, s);
      } else if s.host.Rootful() {
        ok := ApplyRootful(s);
      } else {
        ok := ApplyUser(f, s);
      }
    }

    method Note(s: Step, o: Outcome)
      modifies this`report
      ensures State() == Noted(old(State()), s, o)
    {
      report := report + [Line(s, o)];
    }

    /** The end of a step: its error, or an interruption. */
    method End(s: Step, ok: bool, cancelled: bool)
      modifies this`interrupted, this`report, this`stopped, this`errs
      ensures State() == Ended(old(State()), s, ok, cancelled)
    {
      if cancelled {
        interrupted := true;
        return;
      }
      if !ok {
        Note(s, OutcomeFailed);
        stopped := stopped[s.host.hostname := s.id];
        errs := errs + [s.id];
      }
    }

    /** applied: the Host is marked for an Agent restart when a credential file's content was written. */
    method RecordApplied(s: Step, fix: Fix)
      modifies this`required, this`report
      ensures var q := old(State());
              State() == Noted(if fix.FixContent? then q.(required := q.required + {s.host.hostname})
                else q, s, OutcomeApplied)
    {
      if fix.FixContent? {
        required := required + {s.host.hostname};
      }
      Note(s, OutcomeApplied);
    }

    /** The step's apply and what is recorded of it. */
    method CarryOut(f: HostFacts, s: Step, fix: Fix, cancelled: bool)
      requires s.host.user in world.accounts
      modifies f, this`world, this`calls, this`restarted, this`required, this`report, this`interrupted, this`stopped,
        this`errs
      ensures var (after, l) := CachedApplyFacts(ops, AccountOf(old(world), s.host), s, old(f.AsFacts()));
              f.AsFacts() == Forget(after) && State() == Judged(ops, old(State()), s, WouldDo(fix), l, cancelled)
    {
      var ok := ApplyStep(f, s, fix);
      f.ForgetAll();
      if ok {
        RecordApplied(s, fix);
      }
      End(s, ok, cancelled);
    }

    /** step, on the Host's facts `f`, once the Host is found not to be stopped. */
    method CheckAndApply(f: HostFacts, s: Step, cancelled: bool)
      requires s.host.user in world.accounts
      modifies f, this`world, this`calls, this`restarted, this`required, this`report, this`interrupted, this`stopped,
        this`errs
      ensures (f.AsFacts(), State()) == CachedTurn(ops, old(State()), old(f.AsFacts()), s, cancelled)
      ensures world.accounts.Keys == old(world.accounts.Keys)
    {
      StepKeepsAccounts(ops, State(), f.AsFacts(), s, cancelled);
      var c := f.CheckStep(ops, AccountOf(world, s.host), world.tree, s);
      match c
      case Done => Note(s, OutcomeDone);
      case WouldDo(fix) => CarryOut(f, s, fix, cancelled);
      case CheckError(_) => End(s, false, cancelled);
    }

    /** step, once the Host is found not to be stopped. */
    method Turn(s: Step, cancelled: bool)
      requires Valid() && s in plan
      modifies this, facts.Values
      ensures Valid() && fresh(facts.Values - old(facts.Values))
      ensures var (f, q) := CachedTurn(ops, old(State()), FactsIn(old(FactsNow()), s.host), s, cancelled);
              FactsNow() == old(FactsNow())[s.host.hostname := f] && State() == q
    {
      ghost var before := FactsNow();
      var f := FactsOf(s.host);
      CheckAndApply(f, s, cancelled);
      OthersKept(before, s.host.hostname, f);
    }

    /** The facts are those of `before` but for the facts `f` of `hostname`. */
    lemma OthersKept(before: map<string, Facts>, hostname: string, f: HostFacts)
      requires hostname in facts && facts[hostname] == f && facts.Keys == before.Keys + {hostname}
      requires forall h | h in before && h != hostname :: facts[h].AsFacts() == before[h]
      ensures FactsNow() == before[hostname := f.AsFacts()]
    {
    }

    /** step. */
    method Step(s: Step, cancelled: bool)
      requires Valid() && s in plan
      modifies this, facts.Values
      ensures Valid() && fresh(facts.Values - old(facts.Values))
      ensures (FactsNow(), State()) == CachedStep(ops, old(State()), old(FactsNow()), s, cancelled)
    {
      if s.host.hostname in stopped {
        Note(s, OutcomeSkipped);
        assert FactsNow() == old(FactsNow());
        return;
      }
      Turn(s, cancelled);
    }

    /** The run, from `r` with the facts `f`, is where it is after `done`. */
    ghost predicate At(r: Run, f: map<string, Facts>, done: seq<Machine.Step>, cancelled: nat -> bool)
      reads this, facts.Values
    {
      (FactsNow(), State()) == CachedRun(ops, r, f, done, cancelled)
    }

    /** The turn of the step at `i` in the loop over `phase`. */
    method NextStep(
      phase: Phase, i: nat, k: nat, cancelled: nat -> bool, ghost r: Run, ghost f: map<string, Facts>,
      ghost earlier: seq<Machine.Step>)
      returns (next: nat)
      requires Valid() && !interrupted && i < |plan| && k == |UpTo(plan, phase, i, earlier)|
      requires At(r, f, UpTo(plan, phase, i, earlier), cancelled)
      modifies this, facts.Values
      ensures Valid() && fresh(facts.Values - old(facts.Values)) && next == |UpTo(plan, phase, i + 1, earlier)|
      ensures At(r, f, UpTo(plan, phase, i + 1, earlier), cancelled)
    {
      UpToNext(plan, phase, i, earlier);
      next := k;
      if plan[i].phase == phase {
        ghost var done := UpTo(plan, phase, i, earlier);
        assert (done + [plan[i]])[..|done|] == done;
        Step(plan[i], cancelled(k));
        next := k + 1;
      }
    }

    /** The steps of one phase in plan order, until an interruption; `earlier` are the steps before them. */
    method RunPhase(
      phase: Phase, k: nat, cancelled: nat -> bool, ghost r: Run, ghost f: map<string, Facts>,
      ghost earlier: seq<Machine.Step>)
      returns (next: nat)
      requires Valid() && !interrupted && k == |earlier| && At(r, f, earlier, cancelled)
      modifies this, facts.Values
      ensures Valid() && fresh(facts.Values - old(facts.Values))
      ensures At(r, f, UpTo(plan, phase, |plan|, earlier), cancelled)
      ensures !interrupted ==> next == |UpTo(plan, phase, |plan|, earlier)|
    {
      next := k;
      ghost var done := UpTo(plan, phase, 0, earlier);
      assert done == earlier;
      for i := 0 to |plan|
        invariant Valid() && fresh(facts.Values - old(facts.Values)) && !interrupted
        invariant done == UpTo(plan, phase, i, earlier) && next == |done|
        invariant At(r, f, done, cancelled)
      {
        next := NextStep(phase, i, next, cancelled, r, f, earlier);
        done := UpTo(plan, phase, i + 1, earlier);
        if interrupted {
          PhaseEnds(phase, i, r, f, earlier, cancelled);
          return;
        }
      }
    }

    /** An interruption at the step at `i` ends the phase. */
    lemma PhaseEnds(
      phase: Phase, i: nat, r: Run, f: map<string, Facts>, earlier: seq<Machine.Step>, cancelled: nat -> bool)
      requires i < |plan| && At(r, f, UpTo(plan, phase, i + 1, earlier), cancelled) && interrupted
      ensures At(r, f, UpTo(plan, phase, |plan|, earlier), cancelled)
    {
      UpToNext(plan, phase, i, earlier);
      InterruptedAt(r, f, UpTo(plan, phase, i + 1, earlier), UpTo(plan, phase, |plan|, earlier), cancelled);
    }

    lemma InterruptedAt(
      r: Run, f: map<string, Facts>, done: seq<Machine.Step>, all: seq<Machine.Step>, cancelled: nat -> bool)
      requires At(r, f, done, cancelled) && interrupted && done <= all
      ensures At(r, f, all, cancelled)
    {
      assert all[..|done|] == done;
      InterruptionEnds(ops, r, f, all, |done|, cancelled);
    }

    /** Run: phase by phase, until an interruption. On distinct Hosts, and so with nothing to tell
        a cached fact from a new lookup, it is the run without a cache. */
    method RunPhases(cancelled: nat -> bool)
      requires Valid() && !interrupted && facts == map[]
      modifies this, facts.Values
      ensures Valid() && fresh(facts.Values - old(facts.Values))
      ensures State() == CachedRun(ops, old(State()), map[], ByPhase(plan), cancelled).1
      ensures DistinctHosts(plan) ==> State() == PlainRun(ops, old(State()), ByPhase(plan), cancelled)
    {
      ghost var r, order := State(), ByPhase(plan);
      if DistinctHosts(plan) {
        PlanRunIsPlain(r, cancelled);
      }
      var k := 0;
      ghost var done: seq<Machine.Step> := [];
      assert FactsNow() == map[];
      var phases := [PhaseSetup, PhaseCredentials, PhaseHostBootstrap];
      for p := 0 to |phases|
        invariant Valid() && fresh(facts.Values - old(facts.Values))
        invariant done == Phases(plan, p) && k == |done|
        invariant At(r, map[], done, cancelled) && !interrupted
      {
        k := RunPhase(phases[p], k, cancelled, r, map[], done);
        done := UpTo(plan, phases[p], |plan|, done);
        assert plan[..|plan|] == plan;
        assert done == Phases(plan, p + 1);
        if interrupted {
          PhasesPrefix(plan, p);
          InterruptedAt(r, map[], done, order, cancelled);
          return;
        }
      }
    }

    lemma PlanRunIsPlain(r: Run, cancelled: nat -> bool)
      requires DistinctHosts(plan)
      ensures CachedRun(ops, r, map[], ByPhase(plan), cancelled).1 == PlainRun(ops, r, ByPhase(plan), cancelled)
    {
      var order := ByPhase(plan);
      ByPhaseMembers(plan);
      assert order[..|order|] == order;
      CachedRunIsPlain(ops, r, map[], order, |order|, cancelled);
    }

    /** The effect the step's apply must have here. */
    ghost function EffectHere(w: World, f: Facts, s: Step, fix: Fix): Effect
      reads this`required
    {
      var a := AccountOf(w, s.host);
      Apply(ops, a, w.tree, s, fix, CachedApplyFacts(ops, a, s, f).1, s.host.hostname in required)
    }

    /** The effect `e` is what changed since `w`, `made` and `r`. */
    ghost predicate Shows(e: Effect, h: Host, w: World, made: seq<Call>, r: set<string>)
      reads this
    {
      && world == SetAccount(w, h, e.account).(tree := e.tree) && calls == made + e.calls
      && restarted == if e.restarted then r + {h.hostname} else r
    }
  }

  lemma StepKeepsAccounts(ops: HostOps, r: Run, f: Facts, s: Step, cancelled: bool)
    requires s.host.user in r.world.accounts
    ensures CachedTurn(ops, r, f, s, cancelled).1.world.accounts.Keys == r.world.accounts.Keys
  {
  }

  /** The steps of the first `p` phases. */
  function Phases(steps: seq<Step>, p: nat): seq<Step>
    requires p <= 3
  {
    if p == 0 then []
    else if p == 1 then InPhase(steps, PhaseSetup)
    else if p == 2 then InPhase(steps, PhaseSetup) + InPhase(steps, PhaseCredentials)
    else ByPhase(steps)
  }

  lemma PhasesPrefix(steps: seq<Step>, p: nat)
    requires p < 3
    ensures Phases(steps, p + 1) <= ByPhase(steps)
  {
  }

  /** `earlier`, and the steps of `phase` among the first `n`. */
  function UpTo(steps: seq<Step>, phase: Phase, n: nat, earlier: seq<Step>): seq<Step>
    requires n <= |steps|
  {
    earlier + InPhase(steps[..n], phase)
  }

  lemma UpToNext(steps: seq<Step>, phase: Phase, n: nat, earlier: seq<Step>)
    requires n < |steps|
    ensures UpTo(steps, phase, 0, earlier) == earlier
    ensures UpTo(steps, phase, n + 1, earlier)
            == if steps[n].phase == phase then UpTo(steps, phase, n, earlier) + [steps[n]]
              else UpTo(steps, phase, n, earlier)
    ensures UpTo(steps, phase, n + 1, earlier) <= UpTo(steps, phase, |steps|, earlier)
  {
    assert steps[..n + 1][..n] == steps[..n];
    assert steps[..|steps|] == steps;
    InPhasePrefix(steps, phase, n + 1);
  }

  lemma SetTwice(w: World, h: Host, a: Account, b: Account)
    ensures SetAccount(SetAccount(w, h, a), h, b) == SetAccount(w, h, b)
  {
    assert w.accounts[h.user := a][h.user := b] == w.accounts[h.user := b];
  }

  lemma SameAccount(w: World, h: Host)
    requires h.user in w.accounts
    ensures SetAccount(w, h, AccountOf(w, h)) == w
  {
    assert w.accounts[h.user := w.accounts[h.user]] == w.accounts;
  }
}
