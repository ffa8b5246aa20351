/** A run restarts a Host's Agent exactly when it wrote a credential file of the Host
    (pkg/machine/run.go:107-147, 224-232, pkg/machine/hostbootstrap.go:78-129). */
module AgentRestarts {
  import opened Machine
  import opened Runner
  import Outcomes

  predicate IsWrite(c: Call) { c.ok && c.target.OnAccount? && c.target.write.WriteFile? }

  predicate IsRestart(c: Call) { c.target.OnAccount? && c.target.write.RestartAgent? }

  /** One of the first `n` calls wrote the content of a credential file of the Host. */
  ghost predicate Wrote(calls: seq<Call>, n: nat, hostname: string) {
    exists j :: 0 <= j < n && j < |calls| && IsWrite(calls[j]) && calls[j].hostname == hostname
  }

  /** The Hosts marked for a restart are those with a file written, and every restart follows a
      write for the same Host. */
  ghost predicate MarksRight(r: Run) {
    && (forall h :: h in r.required <==> Wrote(r.calls, |r.calls|, h))
    && r.restarted <= r.required
    && forall k | 0 <= k < |r.calls| && IsRestart(r.calls[k]) :: Wrote(r.calls, k, r.calls[k].hostname)
  }

  /** What the calls of one apply say: a content write is its only call, and a restart is made only
      where it was asked for. */
  ghost predicate EffectMarks(e: Effect, s: Step, fix: Fix, restart: bool) {
    && (forall c | c in e.calls :: c.hostname == s.host.hostname)
    && (if e.ok && fix.FixContent? then |e.calls| == 1 && IsWrite(e.calls[0]) else forall c | c in e.calls ::
        !IsWrite(c))
    && (forall c | c in e.calls && IsRestart(c) :: restart)
    && (e.restarted ==> restart)
    && (s.kind.StepHostBootstrap? && e.ok ==> e.restarted == restart)
  }

  lemma BootstrapMarks(ops: HostOps, a: Account, t: Tree, s: Step, restart: bool)
    requires s.kind.StepHostBootstrap?
    ensures EffectMarks(Bootstrapped(ops, a, t, s.host, restart), s, NoFix, restart)
  {
  }

  lemma OneCallMarks(ops: HostOps, a: Account, t: Tree, s: Step, w: Write, fix: Fix, restart: bool)
    requires !s.kind.StepHostBootstrap? && !w.RestartAgent? && (fix.FixContent? <==> w.WriteFile?)
    ensures EffectMarks(Written(ops, a, t, s.host, w), s, fix, restart)
  {
  }

  /** How a check says a step is brought about: a file's content only for a credential of a user that
      exists. */
  lemma FixMeans(ops: HostOps, a: Account, t: Tree, s: Step)
    requires Check(ops, a, t, s).WouldDo?
    ensures var fix := Check(ops, a, t, s).fix;
            if s.kind.StepCredential? then fix.NoFix? ==> !s.host.Rootful() && LookupOf(ops, a).Missing?
            else fix.NoFix?
  {
  }

  lemma ApplyMarks(ops: HostOps, a: Account, t: Tree, s: Step, restart: bool)
    requires Check(ops, a, t, s).WouldDo?
    ensures var fix := Check(ops, a, t, s).fix;
            EffectMarks(Apply(ops, a, t, s, fix, LookupOf(ops, a), restart), s, fix, restart)
  {
    FixMeans(ops, a, t, s);
    var fix, l := Check(ops, a, t, s).fix, LookupOf(ops, a);
    match s.kind
    case StepHostBootstrap => BootstrapMarks(ops, a, t, s, restart);
    case StepCredential =>
      if s.host.Rootful() || l.Found? {
        var owner := if s.host.Rootful() then User(0, 0) else l.user;
        OneCallMarks(ops, a, t, s, WriteFile(s.path, s.content, owner.uid, owner.gid, s.mode), FixContent, restart);
        OneCallMarks(ops, a, t, s, SetOwnerMode(s.path, owner.uid, owner.gid, s.mode), FixOwnerMode, restart);
      }
    case _ =>
  }

  lemma WroteAppend(before: seq<Call>, more: seq<Call>, h: string)
    ensures Wrote(before + more, |before + more|, h) <==> Wrote(before, |before|, h) || Wrote(more, |more|, h)
    ensures forall k | 0 <= k <= |before| :: Wrote(before + more, k, h) <==> Wrote(before, k, h)
    ensures forall k | |before| <= k && Wrote(before, |before|, h) :: Wrote(before + more, k, h)
  {
    var calls := before + more;
    if j :| 0 <= j < |before| && IsWrite(before[j]) && before[j].hostname == h {
      assert calls[j] == before[j];
    }
    if j :| 0 <= j < |more| && IsWrite(more[j]) && more[j].hostname == h {
      assert calls[|before| + j] == more[j];
    }
    if j :| 0 <= j < |calls| && IsWrite(calls[j]) && calls[j].hostname == h {
      assert j >= |before| ==> calls[j] == more[j - |before|];
    }
    forall k | 0 <= k <= |before| ensures Wrote(calls, k, h) <==> Wrote(before, k, h) {
      if j :| 0 <= j < k && IsWrite(before[j]) && before[j].hostname == h {
        assert calls[j] == before[j];
      }
    }
  }

  lemma MarksAfter(r: Run, q: Run, s: Step, fix: Fix, e: Effect)
    requires MarksRight(r) && EffectMarks(e, s, fix, s.host.hostname in r.required)
    requires q.calls == r.calls + e.calls
    requires q.required == if e.ok && fix.FixContent? then r.required + {s.host.hostname} else r.required
    requires q.restarted == if e.restarted then r.restarted + {s.host.hostname} else r.restarted
    ensures MarksRight(q)
  {
    forall h ensures h in q.required <==> Wrote(q.calls, |q.calls|, h) {
      WroteAppend(r.calls, e.calls, h);
      assert e.ok && fix.FixContent? ==> Wrote(e.calls, |e.calls|, s.host.hostname);
    }
    forall k | 0 <= k < |q.calls| && IsRestart(q.calls[k]) ensures Wrote(q.calls, k, q.calls[k].hostname) {
      var h := q.calls[k].hostname;
      WroteAppend(r.calls, e.calls, h);
      if k < |r.calls| {
        assert q.calls[k] == r.calls[k];
      } else {
        assert q.calls[k] in e.calls;
        assert h in r.required;
      }
    }
  }

  /** An Agent whose per-Host bootstrap was applied was restarted when its Host was marked. */
  ghost predicate RestartedRight(r: Run) {
    forall k | 0 <= k < |r.report| && r.report[k].step.kind.StepHostBootstrap? && r.report[k].outcome.OutcomeApplied? ::
      r.report[k].step.host.hostname in r.required ==> r.report[k].step.host.hostname in r.restarted
  }

  /** No bootstrap of the Host is reported yet. */
  ghost predicate NoneYet(report: seq<Line>, hostname: string) {
    forall k | 0 <= k < |report| && report[k].step.host.hostname == hostname :: !report[k].step.kind.StepHostBootstrap?
  }

  lemma AppliedRestarts(r: Run, s: Step, fix: Fix, e: Effect, cancelled: bool)
    requires RestartedRight(r) && NoneYet(r.report, s.host.hostname)
    requires EffectMarks(e, s, fix, s.host.hostname in r.required) && (s.kind.StepHostBootstrap? ==> fix.NoFix?)
    ensures RestartedRight(Ended(AfterApply(r, s, fix, e), s, e.ok, cancelled))
  {
  }

  lemma StepMarks(ops: HostOps, r: Run, s: Step, cancelled: bool)
    requires MarksRight(r)
    ensures MarksRight(PlainStep(ops, r, s, cancelled))
  {
    var a := AccountOf(r.world, s.host);
    var c := Check(ops, a, r.world.tree, s);
    if s.host.hostname !in r.stopped && c.WouldDo? {
      var restart := s.host.hostname in r.required;
      ApplyMarks(ops, a, r.world.tree, s, restart);
      var e := Apply(ops, a, r.world.tree, s, c.fix, LookupOf(ops, a), restart);
      MarksAfter(r, Ended(AfterApply(r, s, c.fix, e), s, e.ok, cancelled), s, c.fix, e);
    }
  }

  lemma StepRestarts(ops: HostOps, r: Run, s: Step, cancelled: bool)
    requires RestartedRight(r) && NoneYet(r.report, s.host.hostname)
    ensures RestartedRight(PlainStep(ops, r, s, cancelled))
  {
    var a := AccountOf(r.world, s.host);
    var c := Check(ops, a, r.world.tree, s);
    if s.host.hostname !in r.stopped && c.WouldDo? {
      var restart := s.host.hostname in r.required;
      ApplyMarks(ops, a, r.world.tree, s, restart);
      FixMeans(ops, a, r.world.tree, s);
      AppliedRestarts(r, s, c.fix, Apply(ops, a, r.world.tree, s, c.fix, LookupOf(ops, a), restart), cancelled);
    }
  }

  /** The per-Host bootstrap is a Host's last step. */
  ghost predicate BootstrapLast(steps: seq<Step>) {
    forall i, j | 0 <= i < j < |steps| && steps[i].host.hostname == steps[j].host.hostname ::
        !steps[i].kind.StepHostBootstrap?
  }

  ghost predicate RestartsRight(r: Run) { MarksRight(r) && RestartedRight(r) }

  lemma StepRestartsRight(ops: HostOps, r: Run, q: Run, steps: seq<Step>, n: nat, cancelled: bool)
    requires BootstrapLast(steps) && n < |steps| && RestartsRight(r) && Outcomes.Reports(r, steps, n)
    requires q == PlainStep(ops, r, steps[n], cancelled)
    ensures RestartsRight(q)
  {
    StepMarks(ops, r, steps[n], cancelled);
    assert NoneYet(r.report, steps[n].host.hostname);
    StepRestarts(ops, r, steps[n], cancelled);
  }

  /** The restarts are right, and the report is of the first `n` steps. */
  ghost predicate RightSoFar(r: Run, steps: seq<Step>, n: nat) {
    RestartsRight(r) && Outcomes.RightTo(r, steps, n)
  }

  lemma RestartsOn(ops: HostOps, r: Run, steps: seq<Step>, n: nat, cancelled: nat -> bool)
    requires BootstrapLast(steps) && n < |steps| && RightSoFar(RunTo(ops, r, steps, n, cancelled), steps, n)
    ensures RightSoFar(RunTo(ops, r, steps, n + 1, cancelled), steps, n + 1)
  {
    var p, q := RunTo(ops, r, steps, n, cancelled), RunTo(ops, r, steps, n + 1, cancelled);
    RunToNext(ops, r, steps, n, cancelled);
    Outcomes.RightOn(ops, r, steps, n, cancelled);
    if !p.interrupted {
      StepRestartsRight(ops, p, q, steps, n, cancelled(n));
    }
  }

  lemma {:induction false} RestartsTo(ops: HostOps, r: Run, steps: seq<Step>, n: nat, cancelled: nat -> bool)
    requires BootstrapLast(steps) && n <= |steps| && RightSoFar(r, steps, 0)
    ensures RightSoFar(RunTo(ops, r, steps, n, cancelled), steps, n)
  {
    if n == 0 {
      RunToNone(ops, r, steps, cancelled);
    } else {
      RestartsTo(ops, r, steps, n - 1, cancelled);
      RestartsOn(ops, r, steps, n - 1, cancelled);
    }
  }

  /** A run marks exactly the Hosts with a credential file written, restarts an Agent only after a
      write for its Host, and, once the Host's bootstrap is applied, has restarted every marked one. */
  lemma RestartsExact(ops: HostOps, w: World, steps: seq<Step>, cancelled: nat -> bool)
    requires BootstrapLast(steps)
    ensures RestartsRight(PlainRun(ops, Start(w), steps, cancelled))
  {
    assert steps[..|steps|] == steps;
    RestartsTo(ops, Start(w), steps, |steps|, cancelled);
  }

  // ----- what an interruption leaves to the operator

  function AtFirst(k: nat): bool { k == 0 }

  /** The credential step and the bootstrap of a rootful Host. */
  function TwoSteps(): seq<Step> {
    var h := Host("edge", "");
    [Step("edge/credential/token", PhaseCredentials, StepCredential, h, "/etc/picolet/secrets/token", 384, "t", "", ""),
     Step("edge/bootstrap", PhaseHostBootstrap, StepHostBootstrap, h, "", 0, "", "", "")]
  }

  lemma RunOfTwo(ops: HostOps, w: World, cancelled: nat -> bool)
    ensures var s, p := TwoSteps(), PlainStep(ops, Start(w), TwoSteps()[0], cancelled(0));
            PlainRun(ops, Start(w), s, cancelled) == if p.interrupted then p else PlainStep(ops, p, s[1], cancelled(1))
  {
    var s := TwoSteps();
    assert s[..1] == [s[0]] && s[..1][..0] == [];
    assert PlainRun(ops, Start(w), s[..1], cancelled) == PlainStep(ops, Start(w), s[0], cancelled(0));
  }

  function TokenFile(): Account {
    NoAccount().(files := map["/etc/picolet/secrets/token" := Entry(Regular, 0, 0, 384, "t")])
  }

  /** The file is missing: the step writes it, and the interruption comes. */
  lemma TokenWritten(w: World)
    requires w == World(map[], Tree(true, 0))
    ensures PlainStep(IdealOps(), Start(w), TwoSteps()[0], true)
            == var s := TwoSteps()[0];
               Run(World(map["" := TokenFile()], w.tree), map[], [], {"edge"}, {}, [Line(s, OutcomeApplied)],
                   [Call("edge", OnAccount(WriteFile("/etc/picolet/secrets/token", "t", 0, 0, 384)), true)], true)
  {
    var s := TwoSteps()[0];
    var c := Check(IdealOps(), NoAccount(), w.tree, s);
    assert c == WouldDo(FixContent);
    var e := Apply(IdealOps(), NoAccount(), w.tree, s, FixContent, LookupOf(IdealOps(), NoAccount()), false);
    assert e.account == TokenFile();
  }

  lemma TokenFound(w: World)
    requires w == World(map["" := TokenFile()], Tree(true, 0))
    ensures PlainStep(IdealOps(), Start(w), TwoSteps()[0], false) == Noted(Start(w), TwoSteps()[0], OutcomeDone)
  {
  }

  /** The bootstrap of a Host that is not marked leaves its Agent running. */
  lemma UnmarkedBootstrap(r: Run)
    requires r.stopped == map[] && r.required == {} && r.restarted == {} && r.calls == []
    ensures var q := PlainStep(IdealOps(), r, TwoSteps()[1], false);
            && q.interrupted == r.interrupted && q.stopped == map[] && q.required == {} && q.restarted == {}
            && q.calls == [Call("edge", OnAccount(RunBootstrap), true), Call("edge", OnAccount(WaitHealthy), true)]
  {
    var e := Bootstrapped(IdealOps(), AccountOf(r.world, TwoSteps()[1].host), r.world.tree, TwoSteps()[1].host, false);
    assert e.ok && !e.restarted;
  }

  /** A restart is owed within its own run only: interrupted right after it wrote a credential file,
      a run marks the Host, and the run that completes it finds the file current and leaves the
      running Agent alone. */
  lemma InterruptedRestartIsNotResumed()
    ensures var ops, w := IdealOps(), World(map[], Tree(true, 0));
            var first := PlainRun(ops, Start(w), TwoSteps(), AtFirst);
            var second := PlainRun(ops, Start(first.world), TwoSteps(), Never);
            && first.interrupted && first.required == {"edge"} && first.restarted == {}
            && !second.interrupted && second.stopped == map[] && second.required == {} && second.restarted == {}
            && second.calls == [Call("edge", OnAccount(RunBootstrap), true), Call("edge", OnAccount(WaitHealthy), true)]
  {
    var ops, w := IdealOps(), World(map[], Tree(true, 0));
    RunOfTwo(ops, w, AtFirst);
    TokenWritten(w);
    var found := World(map["" := TokenFile()], w.tree);
    RunOfTwo(ops, found, Never);
    TokenFound(found);
    UnmarkedBootstrap(Noted(Start(found), TwoSteps()[0], OutcomeDone));
  }
}
