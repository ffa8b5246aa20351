/** What a run makes of credential files that are in place: a restart an earlier run owed is not made
    (pkg/machine/run.go:189-232). */
module RestartsOwed {
  import opened Machine
  import opened Runner
  import opened Convergence
  import opened AgentRestarts
  import Outcomes

  predicate OwnCredential(s: Step, hostname: string) { s.kind.StepCredential? && s.host.hostname == hostname }

  /** The credential file holds its content; its owner and mode may still differ. */
  predicate ContentHolds(a: Account, s: Step) {
    HasUser(a, s.host) && s.path in a.files && a.files[s.path].kind.Regular? && a.files[s.path].content == s.content
  }

  predicate InPlace(w: World, s: Step) { ContentHolds(AccountOf(w, s.host), s) }

  /** A check asks for a credential's content exactly where it could look and the content is missing. */
  lemma ContentAskedFor(ops: HostOps, a: Account, t: Tree, s: Step)
    requires s.kind.StepCredential? && Check(ops, a, t, s).WouldDo?
    ensures Check(ops, a, t, s).fix.FixOwnerMode? <==> ContentHolds(a, s)
    ensures Check(ops, a, t, s).fix.FixContent? ==> HasUser(a, s.host)
  {
  }

  // ----- a run that finds every content in place

  /** A step that succeeds leaves the content of a credential with another path. */
  lemma BringsKeepsContent(a: Account, t: Tree, other: Step, s: Step, b: Account, u: Tree, paths: set<string>)
    requires Brings(a, t, other, b, u, paths) && WellFormed(other) && other.host.user == s.host.user
             && ContentHolds(a, s)
    requires s.path in paths && (PlacesPath(other) ==> other.path != s.path)
    ensures ContentHolds(b, s)
  {
    if IsSession(other) && !other.kind.StepUser? {
      SessionKeeps(a, t, other, b, u, paths);
    } else if !IsSession(other) {
      PlacingSameSession(a, t, other, b, u, paths);
      if PlacesPath(other) {
        PlacingKeeps(a, t, other, b, u, s.path, paths);
      }
    }
  }

  /** The credentials of the Host from the `n`-th step on are in place. */
  ghost predicate RestInPlace(w: World, steps: seq<Step>, n: nat, hostname: string) {
    forall i | n <= i < |steps| && OwnCredential(steps[i], hostname) :: InPlace(w, steps[i])
  }

  /** The Host is not marked, and what is still to be done for it is in place. */
  ghost predicate Quiet(r: Run, steps: seq<Step>, n: nat, hostname: string) {
    hostname !in r.required && (hostname in r.stopped || r.interrupted || RestInPlace(r.world, steps, n, hostname))
  }

  lemma OtherHostsStep(ops: HostOps, r: Run, s: Step, cancelled: bool, hostname: string)
    requires s.host.hostname != hostname
    ensures var q := PlainStep(ops, r, s, cancelled);
            (hostname in q.required <==> hostname in r.required) && (hostname in r.stopped ==> hostname in q.stopped)
  {
  }

  lemma QuietElsewhere(ops: HostOps, r: Run, steps: seq<Step>, n: nat, cancelled: bool, hostname: string)
    requires n < |steps| && DistinctHosts(steps) && steps[n].host.hostname != hostname && !r.interrupted
    requires Quiet(r, steps, n, hostname)
    ensures Quiet(PlainStep(ops, r, steps[n], cancelled), steps, n + 1, hostname)
  {
    var q := PlainStep(ops, r, steps[n], cancelled);
    OtherHostsStep(ops, r, steps[n], cancelled, hostname);
    if hostname !in r.stopped {
      forall i | n + 1 <= i < |steps| && OwnCredential(steps[i], hostname) ensures InPlace(q.world, steps[i]) {
        assert steps[i] in steps && steps[n] in steps;
        OtherAccountsStand(ops, r, steps[n], cancelled, steps[i].host);
      }
    }
  }

  /** The Host's own step, applied with success. */
  lemma QuietApply(ops: HostOps, r: Run, steps: seq<Step>, n: nat)
    requires n < |steps| && Ordered(steps) && DistinctHosts(steps) && MeetsContract(ops, PathsOf(steps))
    requires RestInPlace(r.world, steps, n, steps[n].host.hostname)
    requires Check(ops, AccountOf(r.world, steps[n].host), r.world.tree, steps[n]).WouldDo?
             && EffectOf(ops, r, steps[n]).ok
    ensures var e := EffectOf(ops, r, steps[n]);
            RestInPlace(SetAccount(r.world, steps[n].host, e.account).(tree := e.tree), steps, n + 1,
              steps[n].host.hostname)
  {
    var s, paths := steps[n], PathsOf(steps);
    var a, t, e := AccountOf(r.world, s.host), r.world.tree, EffectOf(ops, r, s);
    assert s in steps;
    EffectBrings(ops, r, s, paths);
    forall i | n + 1 <= i < |steps| && OwnCredential(steps[i], s.host.hostname)
      ensures ContentHolds(e.account, steps[i])
    {
      assert steps[i] in steps && steps[i].host.user == s.host.user;
      assert InPlace(r.world, steps[i]);
      assert Spares(steps[i], s);
      BringsKeepsContent(a, t, s, steps[i], e.account, e.tree, paths);
    }
    forall i | n + 1 <= i < |steps| && OwnCredential(steps[i], s.host.hostname)
      ensures InPlace(SetAccount(r.world, s.host, e.account).(tree := e.tree), steps[i])
    {
      assert steps[i] in steps && steps[i].host.user == s.host.user;
    }
  }

  /** A step whose check asks for no content marks no Host, and goes on only with success. */
  lemma UnmarkedApply(ops: HostOps, r: Run, s: Step, cancelled: bool)
    requires s.host.hostname !in r.stopped && !r.interrupted
    requires var c := Check(ops, AccountOf(r.world, s.host), r.world.tree, s); c.WouldDo? && !c.fix.FixContent?
    ensures var q, e := PlainStep(ops, r, s, cancelled), EffectOf(ops, r, s);
            && q.required == r.required
            && (s.host.hostname in q.stopped || q.interrupted
                || (e.ok && q.world == SetAccount(r.world, s.host, e.account).(tree := e.tree)))
  {
  }

  lemma UnappliedQuiet(ops: HostOps, r: Run, s: Step, cancelled: bool)
    requires s.host.hostname in r.stopped || !Check(ops, AccountOf(r.world, s.host), r.world.tree, s).WouldDo?
    ensures var q := PlainStep(ops, r, s, cancelled);
            q.required == r.required && q.world == r.world && (forall h | h in r.stopped :: h in q.stopped)
  {
  }

  lemma QuietStep(ops: HostOps, r: Run, steps: seq<Step>, n: nat, cancelled: bool, hostname: string)
    requires n < |steps| && Ordered(steps) && DistinctHosts(steps) && MeetsContract(ops, PathsOf(steps))
    requires Quiet(r, steps, n, hostname) && !r.interrupted
    ensures Quiet(PlainStep(ops, r, steps[n], cancelled), steps, n + 1, hostname)
  {
    var s := steps[n];
    var a := AccountOf(r.world, s.host);
    if s.host.hostname != hostname {
      QuietElsewhere(ops, r, steps, n, cancelled, hostname);
    } else if hostname in r.stopped || !Check(ops, a, r.world.tree, s).WouldDo? {
      UnappliedQuiet(ops, r, s, cancelled);
    } else {
      if s.kind.StepCredential? {
        ContentAskedFor(ops, a, r.world.tree, s);
        assert InPlace(r.world, s);
      } else {
        NoFixUnlessCredential(ops, a, r.world.tree, s);
      }
      UnmarkedApply(ops, r, s, cancelled);
      if EffectOf(ops, r, s).ok {
        QuietApply(ops, r, steps, n);
      }
    }
  }

  lemma {:induction false} QuietRun(
    ops: HostOps, w: World, steps: seq<Step>, n: nat, cancelled: nat -> bool, hostname: string)
    requires n <= |steps| && Ordered(steps) && DistinctHosts(steps) && MeetsContract(ops, PathsOf(steps))
    requires RestInPlace(w, steps, 0, hostname)
    ensures Quiet(PlainRun(ops, Start(w), steps[..n], cancelled), steps, n, hostname)
  {
    if n > 0 {
      QuietRun(ops, w, steps, n - 1, cancelled, hostname);
      assert steps[..n - 1] + [steps[n - 1]] == steps[..n];
      RunNext(ops, Start(w), steps[..n - 1], steps[n - 1], cancelled);
      var p := PlainRun(ops, Start(w), steps[..n - 1], cancelled);
      if !p.interrupted {
        QuietStep(ops, p, steps, n - 1, cancelled(n - 1), hostname);
      }
    }
  }

  /** Whatever an earlier run did and however it ended: a run, interrupted or not, that starts with
      every credential content of a Host in place neither marks the Host nor restarts its Agent. */
  lemma NothingMissingNothingRestarted(
    ops: HostOps, w: World, steps: seq<Step>, cancelled: nat -> bool, hostname: string)
    requires Ordered(steps) && DistinctHosts(steps) && BootstrapLast(steps) && MeetsContract(ops, PathsOf(steps))
    requires forall s | s in steps && OwnCredential(s, hostname) :: InPlace(w, s)
    ensures var r := PlainRun(ops, Start(w), steps, cancelled);
            && hostname !in r.required && hostname !in r.restarted
            && forall c | c in r.calls && IsRestart(c) :: c.hostname != hostname
  {
    assert steps[..|steps|] == steps;
    QuietRun(ops, w, steps, |steps|, cancelled, hostname);
    RestartsExact(ops, w, steps, cancelled);
    var r := PlainRun(ops, Start(w), steps, cancelled);
    forall c | c in r.calls && IsRestart(c) ensures c.hostname != hostname {
      var k :| 0 <= k < |r.calls| && r.calls[k] == c;
      assert Wrote(r.calls, k, c.hostname);
      assert Wrote(r.calls, |r.calls|, c.hostname);
    }
  }

  // ----- a clean run in which some content is missing

  /** Some credential of the Host lacks its content when its turn comes among the first `n` steps. */
  ghost predicate MissingAtTurn(
    ops: HostOps, w: World, steps: seq<Step>, n: nat, cancelled: nat -> bool, hostname: string) {
    exists k :: 0 <= k < n && k < |steps| && OwnCredential(steps[k], hostname)
      && !InPlace(RunTo(ops, Start(w), steps, k, cancelled).world, steps[k])
  }

  /** A clean step marks its Host exactly when it is a credential whose content is missing. */
  lemma CleanStepMarks(ops: HostOps, r: Run, s: Step, cancelled: bool, hostname: string)
    requires Clean(PlainStep(ops, r, s, cancelled))
    ensures hostname in PlainStep(ops, r, s, cancelled).required
            <==> hostname in r.required || (OwnCredential(s, hostname) && !InPlace(r.world, s))
  {
    var a := AccountOf(r.world, s.host);
    CleanStep(ops, r, s, cancelled);
    if Check(ops, a, r.world.tree, s).Done? {
      DoneMeansGoal(ops, r.world, s);
    } else {
      FixMeans(ops, a, r.world.tree, s);
      if s.kind.StepCredential? {
        ContentAskedFor(ops, a, r.world.tree, s);
      }
    }
  }

  lemma {:induction false} CleanRunMarks(
    ops: HostOps, w: World, steps: seq<Step>, n: nat, cancelled: nat -> bool, hostname: string)
    requires n <= |steps| && Clean(RunTo(ops, Start(w), steps, n, cancelled))
    ensures hostname in RunTo(ops, Start(w), steps, n, cancelled).required
            <==> MissingAtTurn(ops, w, steps, n, cancelled, hostname)
  {
    if n > 0 {
      var p, s := RunTo(ops, Start(w), steps, n - 1, cancelled), steps[n - 1];
      RunToNext(ops, Start(w), steps, n - 1, cancelled);
      CleanStep(ops, p, s, cancelled(n - 1));
      CleanRunMarks(ops, w, steps, n - 1, cancelled, hostname);
      CleanStepMarks(ops, p, s, cancelled(n - 1), hostname);
      MissingNext(ops, w, steps, n - 1, cancelled, hostname);
    }
  }

  lemma MissingNext(ops: HostOps, w: World, steps: seq<Step>, n: nat, cancelled: nat -> bool, hostname: string)
    requires n < |steps|
    ensures MissingAtTurn(ops, w, steps, n + 1, cancelled, hostname)
            <==> MissingAtTurn(ops, w, steps, n, cancelled, hostname)
                 || (OwnCredential(steps[n], hostname) && !InPlace(RunTo(ops, Start(w), steps, n, cancelled).world,
                   steps[n]))
  {
  }

  /** In a clean run every bootstrap is applied. */
  ghost predicate BootstrapsApplied(r: Run) {
    forall k | 0 <= k < |r.report| && r.report[k].step.kind.StepHostBootstrap? :: r.report[k].outcome.OutcomeApplied?
  }

  lemma CleanStepApplies(ops: HostOps, r: Run, s: Step, cancelled: bool)
    requires Clean(PlainStep(ops, r, s, cancelled)) && BootstrapsApplied(r)
    ensures BootstrapsApplied(PlainStep(ops, r, s, cancelled))
  {
    CleanStep(ops, r, s, cancelled);
  }

  lemma {:induction false} CleanRunApplies(ops: HostOps, w: World, steps: seq<Step>, n: nat, cancelled: nat -> bool)
    requires n <= |steps| && Clean(RunTo(ops, Start(w), steps, n, cancelled))
    ensures BootstrapsApplied(RunTo(ops, Start(w), steps, n, cancelled))
  {
    if n > 0 {
      var p, s := RunTo(ops, Start(w), steps, n - 1, cancelled), steps[n - 1];
      RunToNext(ops, Start(w), steps, n - 1, cancelled);
      CleanStep(ops, p, s, cancelled(n - 1));
      CleanRunApplies(ops, w, steps, n - 1, cancelled);
      CleanStepApplies(ops, p, s, cancelled(n - 1));
    }
  }

  /** A run without failures restarts a Host's Agent exactly when some credential content of the Host
      was missing at its turn in this very run. */
  lemma RestartedExact(ops: HostOps, w: World, steps: seq<Step>, cancelled: nat -> bool, b: nat)
    requires BootstrapLast(steps) && Clean(PlainRun(ops, Start(w), steps, cancelled))
    requires b < |steps| && steps[b].kind.StepHostBootstrap?
    ensures var hostname := steps[b].host.hostname;
            hostname in PlainRun(ops, Start(w), steps, cancelled).restarted
            <==> MissingAtTurn(ops, w, steps, |steps|, cancelled, hostname)
  {
    var hostname, r := steps[b].host.hostname, PlainRun(ops, Start(w), steps, cancelled);
    assert steps[..|steps|] == steps;
    CleanRunMarks(ops, w, steps, |steps|, cancelled, hostname);
    CleanRunApplies(ops, w, steps, |steps|, cancelled);
    RestartsExact(ops, w, steps, cancelled);
    Outcomes.OneOutcomePerStep(ops, w, steps, cancelled);
    assert r.report[b].step == steps[b];
  }
}
