/** A run brings every step's end state about, from any start and so after any interruption, and a
    second run changes nothing but to re-run the per-Host bootstraps. */
module Convergence {
  import opened Common
  import opened Machine
  import opened Runner

  /** What the rootful Host has steps for. */
  predicate WellFormed(s: Step) {
    s.host.Rootful() ==>
      s.kind.StepPodmanSocket? || s.kind.StepDir? || s.kind.StepCredential? || s.kind.StepHostBootstrap?
  }

  predicate PlacesPath(s: Step) { s.kind.StepDir? || s.kind.StepCredential? }

  /** Applying `t` after `s` cannot undo what `s` brought about. */
  predicate Spares(t: Step, s: Step) {
    t.host.user == s.host.user ==>
      && !s.kind.StepHostBootstrap?
      && (t.kind.StepLinger? ==> !s.kind.StepUserManager? && !s.kind.StepPodmanSocket?)
      && (t.kind.StepUserManager? ==> !s.kind.StepPodmanSocket?)
      && (PlacesPath(t) && PlacesPath(s) ==> t.path != s.path)
  }

  /** The paths of the plan's directories and credential files. */
  ghost function PathsOf(steps: seq<Step>): set<string> { set s | s in steps && PlacesPath(s) :: s.path }

  ghost predicate PathIn(s: Step, paths: set<string>) { PlacesPath(s) ==> s.path in paths }

  /** A plan in which no later step undoes an earlier one. */
  ghost predicate Ordered(steps: seq<Step>) {
    (forall s | s in steps :: WellFormed(s)) && forall i, j | 0 <= i < j < |steps| :: Spares(steps[j], steps[i])
  }

  /** Neither stopped nor interrupted. */
  predicate Clean(r: Run) { r.stopped == map[] && !r.interrupted }

  /** The effect of the step's apply, when the check asks for it. */
  function EffectOf(ops: HostOps, r: Run, s: Step): Effect
    requires Check(ops, AccountOf(r.world, s.host), r.world.tree, s).WouldDo?
  {
    var a := AccountOf(r.world, s.host);
    Apply(ops, a, r.world.tree, s, Check(ops, a, r.world.tree, s).fix, LookupOf(ops, a), s.host.hostname in r.required)
  }

  lemma StopShows(r: Run, host: string, id: string)
    ensures r.stopped[host := id] != map[]
  {
    assert host in r.stopped[host := id];
  }

  /** A clean step found its end state, or applied itself with success. */
  lemma CleanStep(ops: HostOps, r: Run, s: Step, cancelled: bool)
    requires Clean(PlainStep(ops, r, s, cancelled))
    ensures Clean(r)
    ensures var q, c := PlainStep(ops, r, s, cancelled), Check(ops, AccountOf(r.world, s.host), r.world.tree, s);
            if c.Done? then q.world == r.world
            else c.WouldDo? && EffectOf(ops, r, s).ok
                 && q.world == SetAccount(r.world, s.host, EffectOf(ops, r, s).account).(tree := EffectOf(ops, r,
                   s).tree)
  {
    StopShows(r, s.host.hostname, s.id);
  }

  /** The end state in terms of the account and the checkout alone. */
  ghost predicate Holds(a: Account, t: Tree, s: Step) { Goal(World(map[s.host.user := a], t), s) }

  lemma BootstrapContract(ops: HostOps, a: Account, t: Tree, h: Host, restart: bool, paths: set<string>)
    requires WritesMeetContract(ops, paths) && Bootstrapped(ops, a, t, h, restart).ok
    ensures var e := Bootstrapped(ops, a, t, h, restart);
            e.tree == t && e.account.(files := a.files) == a && KeepsPaths(a, e.account, paths)
  {
  }

  function UserOf(a: Account, h: Host): User {
    OwnerOf(h, if a.user.Some? then a.user.value else User(0, 0))
  }

  predicate HasUser(a: Account, h: Host) { h.Rootful() || a.user.Some? }

  /** What a step that its check asked for does to the account and the checkout when it succeeds. */
  ghost predicate Brings(a: Account, t: Tree, s: Step, b: Account, u: Tree, paths: set<string>) {
    var owner := UserOf(a, s.host);
    match s.kind
    case StepUser => u == t && a.user.None? && b.user.Some?
    case StepSubIDs => false
    case StepLinger => u == t && HasUser(a, s.host) && Contract(a, EnableLinger, b, paths)
    case StepUserManager => u == t && HasUser(a, s.host) && Contract(a, WaitManager, b, paths)
    case StepPodmanSocket =>
      u == t && HasUser(a, s.host) && Contract(a, if s.host.Rootful() then EnableSystemUnit
        else EnableUserUnit, b, paths)
    case StepDir => u == t && HasUser(a, s.host) && Contract(a, EnsureDir(s.path, owner.uid, owner.gid, s.mode), b,
      paths)
    case StepCheckout => b == a && u.readable
    case StepCredential =>
      u == t && HasUser(a, s.host)
      && (|| Contract(a, WriteFile(s.path, s.content, owner.uid, owner.gid, s.mode), b, paths)
          || (&& Contract(a, SetOwnerMode(s.path, owner.uid, owner.gid, s.mode), b, paths)
              && s.path in a.files && a.files[s.path].content == s.content))
    case StepHostBootstrap => u == t && b.(files := a.files) == a && KeepsPaths(a, b, paths)
  }

  predicate IsSession(s: Step) {
    s.kind.StepUser? || s.kind.StepSubIDs? || s.kind.StepLinger? || s.kind.StepUserManager? || s.kind.StepPodmanSocket?
  }

  lemma SessionBrings(ops: HostOps, a: Account, t: Tree, s: Step, restart: bool, paths: set<string>)
    requires MeetsContract(ops, paths) && WellFormed(s) && IsSession(s) && Check(ops, a, t, s).WouldDo?
    requires Apply(ops, a, t, s, NoFix, LookupOf(ops, a), restart).ok
    ensures var e := Apply(ops, a, t, s, NoFix, LookupOf(ops, a), restart); Brings(a, t, s, e.account, e.tree, paths)
  {
  }

  lemma CredentialFix(ops: HostOps, a: Account, t: Tree, s: Step)
    requires s.kind.StepCredential? && Check(ops, a, t, s).WouldDo? && Check(ops, a, t, s).fix.FixOwnerMode?
    ensures s.path in a.files && a.files[s.path].content == s.content
  {
  }

  lemma CredentialBrings(ops: HostOps, a: Account, t: Tree, s: Step, restart: bool, paths: set<string>)
    requires MeetsContract(ops, paths) && s.kind.StepCredential? && Check(ops, a, t, s).WouldDo?
    requires Apply(ops, a, t, s, Check(ops, a, t, s).fix, LookupOf(ops, a), restart).ok
    ensures var e := Apply(ops, a, t, s, Check(ops, a, t, s).fix, LookupOf(ops, a), restart);
            Brings(a, t, s, e.account, e.tree, paths)
  {
    var fix := Check(ops, a, t, s).fix;
    if fix.FixOwnerMode? {
      CredentialFix(ops, a, t, s);
    }
  }

  lemma OtherBrings(ops: HostOps, a: Account, t: Tree, s: Step, restart: bool, paths: set<string>)
    requires MeetsContract(ops, paths) && !IsSession(s) && !s.kind.StepCredential? && Check(ops, a, t, s).WouldDo?
    requires Apply(ops, a, t, s, NoFix, LookupOf(ops, a), restart).ok
    ensures var e := Apply(ops, a, t, s, NoFix, LookupOf(ops, a), restart); Brings(a, t, s, e.account, e.tree, paths)
  {
    if s.kind.StepHostBootstrap? {
      BootstrapContract(ops, a, t, s.host, restart, paths);
    }
  }

  lemma NoFixUnlessCredential(ops: HostOps, a: Account, t: Tree, s: Step)
    requires !s.kind.StepCredential? && Check(ops, a, t, s).WouldDo?
    ensures Check(ops, a, t, s).fix == NoFix
  {
  }

  lemma EffectBrings(ops: HostOps, r: Run, s: Step, paths: set<string>)
    requires MeetsContract(ops, paths) && WellFormed(s)
    requires Check(ops, AccountOf(r.world, s.host), r.world.tree, s).WouldDo? && EffectOf(ops, r, s).ok
    ensures Brings(AccountOf(r.world, s.host), r.world.tree, s, EffectOf(ops, r, s).account,
            EffectOf(ops, r, s).tree, paths)
  {
    var a, t, restart := AccountOf(r.world, s.host), r.world.tree, s.host.hostname in r.required;
    if s.kind.StepCredential? {
      CredentialBrings(ops, a, t, s, restart, paths);
    } else {
      NoFixUnlessCredential(ops, a, t, s);
      if IsSession(s) {
        SessionBrings(ops, a, t, s, restart, paths);
      } else {
        OtherBrings(ops, a, t, s, restart, paths);
      }
    }
  }

  /** What a step of the account needs to hold, given that a step succeeded there. */
  lemma SessionReaches(a: Account, t: Tree, s: Step, b: Account, u: Tree, paths: set<string>)
    requires Brings(a, t, s, b, u, paths) && WellFormed(s) && IsSession(s)
    ensures Holds(b, u, s)
  {
  }

  lemma DirReaches(a: Account, t: Tree, s: Step, b: Account, u: Tree, paths: set<string>)
    requires Brings(a, t, s, b, u, paths) && s.kind.StepDir?
    ensures Holds(b, u, s)
  {
  }

  lemma CredentialReaches(a: Account, t: Tree, s: Step, b: Account, u: Tree, paths: set<string>)
    requires Brings(a, t, s, b, u, paths) && s.kind.StepCredential?
    ensures Holds(b, u, s)
  {
  }

  /** A step that succeeds brings its own end state about. */
  lemma BringsReaches(a: Account, t: Tree, s: Step, b: Account, u: Tree, paths: set<string>)
    requires Brings(a, t, s, b, u, paths) && WellFormed(s) && !s.kind.StepHostBootstrap?
    ensures Holds(b, u, s)
  {
    if IsSession(s) {
      SessionReaches(a, t, s, b, u, paths);
    } else if s.kind.StepDir? {
      DirReaches(a, t, s, b, u, paths);
    } else if s.kind.StepCredential? {
      CredentialReaches(a, t, s, b, u, paths);
    }
  }

  /** The parts of an account that no session step but the first of a Host changes. */
  predicate SameSession(a: Account, b: Account) { b.(files := a.files) == a }

  /** Keeping the session, the files at the path of `s`, and the checkout keeps the end state of `s`. */
  lemma KeptHolds(a: Account, t: Tree, b: Account, u: Tree, s: Step)
    requires Holds(a, t, s) && SameSession(a, b) && (u == t || u.readable)
    requires PlacesPath(s) && s.path in a.files ==> s.path in b.files && b.files[s.path] == a.files[s.path]
    ensures Holds(b, u, s)
  {
  }

  lemma PlacingKeeps(a: Account, t: Tree, later: Step, b: Account, u: Tree, path: string, paths: set<string>)
    requires Brings(a, t, later, b, u, paths) && PlacesPath(later) && path in a.files && path in paths
             && path != later.path
    ensures path in b.files && b.files[path] == a.files[path]
  {
  }

  lemma PlacingSameSession(a: Account, t: Tree, later: Step, b: Account, u: Tree, paths: set<string>)
    requires Brings(a, t, later, b, u, paths) && (PlacesPath(later) || later.kind.StepCheckout?
             || later.kind.StepHostBootstrap?)
    ensures SameSession(a, b) && (u == t || u.readable)
  {
  }

  /** A session step keeps the paths of the plan, and the end state of the session steps it spares. */
  lemma SessionKeeps(a: Account, t: Tree, later: Step, b: Account, u: Tree, paths: set<string>)
    requires Brings(a, t, later, b, u, paths) && IsSession(later) && WellFormed(later) && !later.kind.StepUser?
    ensures u == t && b.user == a.user && b.subuid == a.subuid && b.subgid == a.subgid && KeepsPaths(a, b, paths)
    ensures a.linger ==> b.linger
    ensures !later.kind.StepLinger? && a.manager ==> b.manager
    ensures later.kind.StepPodmanSocket? && a.socket == UnitState(true, true) ==> b.socket == a.socket
  {
  }

  lemma SessionSpares(a: Account, t: Tree, later: Step, s: Step, b: Account, u: Tree, paths: set<string>)
    requires Brings(a, t, later, b, u, paths) && WellFormed(s) && WellFormed(later) && later.host.user == s.host.user
             && Spares(later, s) && PathIn(s, paths)
    requires IsSession(later) && !later.kind.StepUser? && Holds(a, t, s)
    ensures Holds(b, u, s)
  {
    SessionKeeps(a, t, later, b, u, paths);
  }

  /** The user is created only where nothing of the Host holds yet. */
  lemma CreatedFirst(a: Account, t: Tree, later: Step, s: Step, b: Account, u: Tree, paths: set<string>)
    requires Brings(a, t, later, b, u, paths) && WellFormed(later) && WellFormed(s) && later.host.user == s.host.user
             && later.kind.StepUser?
    requires Holds(a, t, s)
    ensures Holds(b, u, s)
  {
  }

  /** A step that succeeds keeps the end state of a step it spares. */
  lemma BringsSpares(a: Account, t: Tree, later: Step, s: Step, b: Account, u: Tree, paths: set<string>)
    requires Brings(a, t, later, b, u, paths) && WellFormed(s) && WellFormed(later) && later.host.user == s.host.user
             && Spares(later, s) && PathIn(s, paths)
    requires Holds(a, t, s)
    ensures Holds(b, u, s)
  {
    if later.kind.StepUser? {
      CreatedFirst(a, t, later, s, b, u, paths);
    } else if IsSession(later) {
      SessionSpares(a, t, later, s, b, u, paths);
    } else {
      PlacingSameSession(a, t, later, b, u, paths);
      if PlacesPath(later) && PlacesPath(s) && s.path in a.files {
        PlacingKeeps(a, t, later, b, u, s.path, paths);
      }
      KeptHolds(a, t, b, u, s);
    }
  }

  // ----- runs

  lemma GoalHolds(w: World, s: Step)
    ensures Goal(w, s) <==> Holds(AccountOf(w, s.host), w.tree, s)
  {
  }

  /** The checkout, once readable, stays so. */
  lemma StepKeepsTree(a: Account, t: Tree, s: Step, b: Account, u: Tree, paths: set<string>)
    requires Brings(a, t, s, b, u, paths)
    ensures u == t || u.readable
  {
  }

  /** The end state of another Host's step does not depend on this Host's account. */
  lemma HoldsOnTree(a: Account, t: Tree, u: Tree, s: Step)
    requires Holds(a, t, s) && (u == t || u.readable)
    ensures Holds(a, u, s)
  {
  }

  /** A clean step keeps every end state it spares, and brings its own about. */
  lemma StepKeepsGoal(ops: HostOps, r: Run, later: Step, cancelled: bool, s: Step, paths: set<string>)
    requires MeetsContract(ops, paths) && WellFormed(later) && WellFormed(s) && Spares(later, s) && PathIn(s, paths)
    requires Clean(PlainStep(ops, r, later, cancelled)) && Goal(r.world, s)
    ensures Goal(PlainStep(ops, r, later, cancelled).world, s)
  {
    CleanStep(ops, r, later, cancelled);
    var a, t := AccountOf(r.world, later.host), r.world.tree;
    if !Check(ops, a, t, later).Done? {
      var e, w := EffectOf(ops, r, later), PlainStep(ops, r, later, cancelled).world;
      EffectBrings(ops, r, later, paths);
      GoalHolds(r.world, s);
      GoalHolds(w, s);
      if later.host.user == s.host.user {
        BringsSpares(a, t, later, s, e.account, e.tree, paths);
      } else {
        StepKeepsTree(a, t, later, e.account, e.tree, paths);
        HoldsOnTree(AccountOf(r.world, s.host), t, e.tree, s);
      }
    }
  }

  lemma StepReaches(ops: HostOps, r: Run, s: Step, cancelled: bool, paths: set<string>)
    requires MeetsContract(ops, paths) && WellFormed(s) && !s.kind.StepHostBootstrap?
             && Clean(PlainStep(ops, r, s, cancelled))
    ensures Goal(PlainStep(ops, r, s, cancelled).world, s)
  {
    CleanStep(ops, r, s, cancelled);
    var a, t := AccountOf(r.world, s.host), r.world.tree;
    if Check(ops, a, t, s).Done? {
      DoneMeansGoal(ops, r.world, s);
    } else {
      var e := EffectOf(ops, r, s);
      EffectBrings(ops, r, s, paths);
      BringsReaches(a, t, s, e.account, e.tree, paths);
      GoalHolds(PlainStep(ops, r, s, cancelled).world, s);
    }
  }

  /** Convergence and resume: from any state of the Machine, and so from any an interrupted or failed
      run left, a run without failures ends with every step's end state but the bootstraps'. */
  lemma {:induction false} RunConverges(ops: HostOps, w: World, steps: seq<Step>, n: nat, cancelled: nat -> bool)
    requires MeetsContract(ops, PathsOf(steps)) && Ordered(steps) && n <= |steps|
    requires Clean(PlainRun(ops, Start(w), steps[..n], cancelled))
    ensures forall i | 0 <= i < n && !steps[i].kind.StepHostBootstrap? ::
              Goal(PlainRun(ops, Start(w), steps[..n], cancelled).world, steps[i])
  {
    if n > 0 {
      assert steps[..n][..n - 1] == steps[..n - 1];
      var p := PlainRun(ops, Start(w), steps[..n - 1], cancelled);
      var q := PlainStep(ops, p, steps[n - 1], cancelled(n - 1));
      CleanStep(ops, p, steps[n - 1], cancelled(n - 1));
      RunConverges(ops, w, steps, n - 1, cancelled);
      forall i | 0 <= i < n && !steps[i].kind.StepHostBootstrap? ensures Goal(q.world, steps[i]) {
        if i < n - 1 {
          StepKeepsGoal(ops, p, steps[n - 1], cancelled(n - 1), steps[i], PathsOf(steps));
        } else {
          StepReaches(ops, p, steps[i], cancelled(i), PathsOf(steps));
        }
      }
    }
  }

  // ----- the second run

  /** What a run on a bootstrapped Machine reports and does up to some step. */
  ghost predicate OnlyBootstraps(r: Run) {
    && r.required == {} && r.restarted == {}
    && (forall k | 0 <= k < |r.report| && !r.report[k].step.kind.StepHostBootstrap? :: r.report[k].outcome.OutcomeDone?)
    && forall c | c in r.calls :: c.target.OnAccount? && (c.target.write.RunBootstrap? || c.target.write.WaitHealthy?)
  }

  /** What is still to come finds its end state, its Host not stopped. */
  ghost predicate Settled(r: Run, steps: seq<Step>, n: nat) {
    forall i | n <= i < |steps| && !steps[i].kind.StepHostBootstrap? ::
      steps[i].host.hostname !in r.stopped && Goal(r.world, steps[i])
  }

  lemma BootstrapCalls(ops: HostOps, a: Account, t: Tree, h: Host)
    ensures var e := Bootstrapped(ops, a, t, h, false);
            && e.tree == t && !e.restarted
            && forall c | c in e.calls ::
                c.target.OnAccount? && (c.target.write.RunBootstrap? || c.target.write.WaitHealthy?)
  {
  }

  lemma BootstrapAfter(r: Run, s: Step, e: Effect, cancelled: bool)
    requires OnlyBootstraps(r) && s.kind.StepHostBootstrap? && e.tree == r.world.tree && !e.restarted
    requires forall c | c in e.calls ::
               c.target.OnAccount? && (c.target.write.RunBootstrap? || c.target.write.WaitHealthy?)
    ensures var q := Ended(AfterApply(r, s, NoFix, e), s, e.ok, cancelled);
            && OnlyBootstraps(q) && q.world.tree == r.world.tree
            && forall h :: h != s.host.hostname && h !in r.stopped ==> h !in q.stopped
  {
  }

  lemma BootstrapStep(ops: HostOps, r: Run, s: Step, cancelled: bool)
    requires OnlyBootstraps(r) && s.kind.StepHostBootstrap?
    ensures OnlyBootstraps(PlainStep(ops, r, s, cancelled))
    ensures PlainStep(ops, r, s, cancelled).world.tree == r.world.tree
    ensures forall h :: h != s.host.hostname && h !in r.stopped ==> h !in PlainStep(ops, r, s, cancelled).stopped
  {
    if s.host.hostname !in r.stopped {
      var a := AccountOf(r.world, s.host);
      BootstrapCalls(ops, a, r.world.tree, s.host);
      BootstrapAfter(r, s, Apply(ops, a, r.world.tree, s, NoFix, LookupOf(ops, a), false), cancelled);
    }
  }

  lemma SettledStep(ops: HostOps, r: Run, s: Step, cancelled: bool)
    requires ReadsAnswer(ops) && OnlyBootstraps(r) && !s.kind.StepHostBootstrap?
    requires s.host.hostname !in r.stopped && Goal(r.world, s)
    ensures PlainStep(ops, r, s, cancelled) == Noted(r, s, OutcomeDone)
  {
    DoneIsGoal(ops, r.world, s);
  }

  lemma {:induction false} SettledRun(ops: HostOps, w: World, steps: seq<Step>, n: nat, cancelled: nat -> bool)
    requires ReadsAnswer(ops) && Ordered(steps) && DistinctHosts(steps) && n <= |steps| && Settled(Start(w), steps, 0)
    ensures var r := PlainRun(ops, Start(w), steps[..n], cancelled); OnlyBootstraps(r) && Settled(r, steps, n)
  {
    if n > 0 {
      assert steps[..n][..n - 1] == steps[..n - 1];
      SettledRun(ops, w, steps, n - 1, cancelled);
      var p, s := PlainRun(ops, Start(w), steps[..n - 1], cancelled), steps[n - 1];
      if !p.interrupted {
        if s.kind.StepHostBootstrap? {
          SettledAfterBootstrap(ops, p, steps, n - 1, cancelled(n - 1));
        } else {
          SettledStep(ops, p, s, cancelled(n - 1));
        }
      }
    }
  }

  lemma SettledAfterBootstrap(ops: HostOps, r: Run, steps: seq<Step>, n: nat, cancelled: bool)
    requires OnlyBootstraps(r) && n < |steps| && Settled(r, steps, n) && Ordered(steps) && DistinctHosts(steps)
    requires steps[n].kind.StepHostBootstrap?
    ensures var q := PlainStep(ops, r, steps[n], cancelled); OnlyBootstraps(q) && Settled(q, steps, n + 1)
  {
    var s := steps[n];
    var q := PlainStep(ops, r, s, cancelled);
    BootstrapStep(ops, r, s, cancelled);
    forall i | n + 1 <= i < |steps| && !steps[i].kind.StepHostBootstrap?
      ensures steps[i].host.hostname !in q.stopped && Goal(q.world, steps[i])
    {
      assert Spares(steps[i], s);
      assert steps[i] in steps && s in steps;
      OtherAccountsStand(ops, r, s, cancelled, steps[i].host);
      GoalHolds(r.world, steps[i]);
      GoalHolds(q.world, steps[i]);
    }
  }

  /** Idempotence: after a run without failures a second run of the plan, interrupted or not, finds
      every step done but the bootstraps, makes no call but theirs, and restarts no Agent. */
  lemma SecondRunOnlyBootstraps(ops: HostOps, w: World, steps: seq<Step>, first: nat -> bool, second: nat -> bool)
    requires MeetsContract(ops, PathsOf(steps)) && ReadsAnswer(ops) && Ordered(steps) && DistinctHosts(steps)
    requires Clean(PlainRun(ops, Start(w), steps, first))
    ensures OnlyBootstraps(PlainRun(ops, Start(PlainRun(ops, Start(w), steps, first).world), steps, second))
  {
    var n := |steps|;
    assert steps[..n] == steps;
    RunConverges(ops, w, steps, n, first);
    SettledRun(ops, PlainRun(ops, Start(w), steps, first).world, steps, n, second);
  }
}
