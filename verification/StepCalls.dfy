/** What one step of a run asks and does, in the terms of its Host's account
    (pkg/machine/run.go:168-296, pkg/machine/hostbootstrap.go:78-129). */
module StepCalls {
  import opened Machine
  import opened Runner

  // ----- the check

  /** A check fails only with the error of a question it asked; its privilege error comes from one that
      needs privileges, any other from one that breaks. */
  lemma ErrorFromRead(ops: HostOps, a: Account, t: Tree, s: Step)
    ensures Check(ops, a, t, s) == CheckError(true) ==>
              ops.treeRead(t).Unprivileged? || exists r :: ops.read(a, r).Unprivileged?
    ensures Check(ops, a, t, s) == CheckError(false) ==> ops.treeRead(t).Breaks? || exists r :: ops.read(a, r).Breaks?
  {
  }

  // ----- the calls

  /** The account has the step's file, with its content. */
  predicate HasContent(a: Account, s: Step) {
    s.path in a.files && a.files[s.path].kind.Regular? && a.files[s.path].content == s.content
  }

  function OwnerIn(a: Account, h: Host): User {
    if h.user == "" || a.user.None? then User(0, 0) else a.user.value
  }

  /** What a step whose end state does not hold asks for: a credential whose content is there gets
      owner and mode alone, and a bootstrap restarts the Agent between the bootstrap and the wait when
      its Host is marked. */
  function Wanted(a: Account, s: Step, marked: bool): seq<Target> {
    var owner := OwnerIn(a, s.host);
    match s.kind
    case StepUser => [OnAccount(CreateUser)]
    case StepSubIDs => []
    case StepLinger => [OnAccount(EnableLinger)]
    case StepUserManager => [OnAccount(WaitManager)]
    case StepPodmanSocket => [OnAccount(if s.host.user == "" then EnableSystemUnit else EnableUserUnit)]
    case StepDir => [OnAccount(EnsureDir(s.path, owner.uid, owner.gid, s.mode))]
    case StepCheckout => [OnTree]
    case StepCredential =>
      [OnAccount(if HasContent(a, s) then SetOwnerMode(s.path, owner.uid, owner.gid, s.mode)
                 else WriteFile(s.path, s.content, owner.uid, owner.gid, s.mode))]
    case StepHostBootstrap =>
      [OnAccount(RunBootstrap)] + (if marked then [OnAccount(RestartAgent)] else []) + [OnAccount(WaitHealthy)]
  }

  /** The calls are the first of those wanted, all of them successful but perhaps the last. */
  ghost predicate Carries(calls: seq<Call>, hostname: string, wanted: seq<Target>) {
    && |calls| <= |wanted|
    && (forall i | 0 <= i < |calls| :: calls[i].hostname == hostname && calls[i].target == wanted[i])
    && forall i | 0 <= i < |calls| - 1 :: calls[i].ok
  }

  ghost predicate Complete(calls: seq<Call>, wanted: seq<Target>) {
    |calls| == |wanted| && forall i | 0 <= i < |calls| :: calls[i].ok
  }

  /** A successful apply makes every call it wants; a failing one stops at the call that fails. */
  lemma ApplyCalls(ops: HostOps, a: Account, t: Tree, s: Step, marked: bool)
    requires Check(ops, a, t, s).WouldDo?
    ensures var e := Apply(ops, a, t, s, Check(ops, a, t, s).fix, LookupOf(ops, a), marked);
            && Carries(e.calls, s.host.hostname, Wanted(a, s, marked))
            && (!s.kind.StepSubIDs? ==> (e.ok <==> Complete(e.calls, Wanted(a, s, marked))))
            && (e.ok ==> e.restarted == (s.kind.StepHostBootstrap? && marked))
  {
    var l := LookupOf(ops, a);
    if s.kind.StepHostBootstrap? {
      if ops.resolves(s.host.hostname) && (s.host.Rootful() || l.Found?) {
        BootstrapCalls(ops, a, t, s.host, marked);
      }
    } else if s.kind.StepCredential? {
      if s.host.Rootful() || l.Found? {
        FixWanted(ops, a, t, s);
        var e := Apply(ops, a, t, s, Check(ops, a, t, s).fix, l, marked);
        assert |e.calls| == 1 && e.calls[0].ok == e.ok;
      }
    } else {
      OneCall(ops, a, t, s, marked);
    }
  }

  lemma BootstrapCalls(ops: HostOps, a: Account, t: Tree, h: Host, marked: bool)
    ensures var e := Bootstrapped(ops, a, t, h, marked);
            var wanted := [OnAccount(RunBootstrap)] + (if marked then [OnAccount(RestartAgent)] else [])
                          + [OnAccount(WaitHealthy)];
            && Carries(e.calls, h.hostname, wanted) && (e.ok <==> Complete(e.calls, wanted))
            && (e.ok ==> e.restarted == marked)
  {
    var ran := Written(ops, a, t, h, RunBootstrap);
    var started, e := Started(ops, a, t, h, marked), Bootstrapped(ops, a, t, h, marked);
    var first := Call(h.hostname, OnAccount(RunBootstrap), ran.ok);
    var second := Call(h.hostname, OnAccount(RestartAgent), started.ok);
    var last := Call(h.hostname, OnAccount(WaitHealthy), e.ok);
    if !ran.ok {
      assert e.calls == [first];
    } else if !marked {
      assert e.calls == [first, last];
      assert e.calls[1].ok == e.ok;
    } else if started.ok {
      assert e.calls == [first, second, last];
      assert e.calls[2].ok == e.ok;
    } else {
      assert e.calls == [first, second];
    }
    var restart := if marked then [OnAccount(RestartAgent)] else [];
    var wanted := [OnAccount(RunBootstrap)] + restart + [OnAccount(WaitHealthy)];
    assert if marked then |wanted| == 3 && wanted[1] == second.target && wanted[2] == last.target
           else |wanted| == 2 && wanted[1] == last.target;
  }

  lemma FixWanted(ops: HostOps, a: Account, t: Tree, s: Step)
    requires s.kind.StepCredential? && Check(ops, a, t, s).WouldDo? && (s.host.Rootful() || LookupOf(ops, a).Found?)
    ensures Check(ops, a, t, s).fix.FixOwnerMode? <==> HasContent(a, s)
  {
  }

  lemma OneCall(ops: HostOps, a: Account, t: Tree, s: Step, marked: bool)
    requires Check(ops, a, t, s).WouldDo? && !s.kind.StepHostBootstrap? && !s.kind.StepCredential?
    ensures var e := Apply(ops, a, t, s, Check(ops, a, t, s).fix, LookupOf(ops, a), marked);
            && Carries(e.calls, s.host.hostname, Wanted(a, s, marked)) && !e.restarted
            && (!s.kind.StepSubIDs? ==> (e.ok <==> Complete(e.calls, Wanted(a, s, marked))))
  {
    var e := Apply(ops, a, t, s, Check(ops, a, t, s).fix, LookupOf(ops, a), marked);
    assert e.calls == [] || (|e.calls| == 1 && e.calls[0].ok == e.ok);
  }

  /** A step of a Host that has not stopped, its end state not holding: its calls are the first of those
      wanted, up to the first that fails. The Host goes on exactly when all of them were made and
      succeeded; a step that is not interrupted then reports it as applied, and else stops the Host. */
  lemma StepCallsExact(ops: HostOps, r: Run, s: Step, cancelled: bool)
    requires s.host.hostname !in r.stopped && Check(ops, AccountOf(r.world, s.host), r.world.tree, s).WouldDo?
    ensures var q := PlainStep(ops, r, s, cancelled);
            var wanted := Wanted(AccountOf(r.world, s.host), s, s.host.hostname in r.required);
            && r.calls <= q.calls && Carries(q.calls[|r.calls|..], s.host.hostname, wanted)
            && (!cancelled && !s.kind.StepSubIDs? ==>
                  if Complete(q.calls[|r.calls|..], wanted)
                  then q.stopped == r.stopped && q.report == r.report + [Line(s, OutcomeApplied)]
                  else
                    && q.stopped == r.stopped[s.host.hostname := s.id]
                    && q.report == r.report + [Line(s, OutcomeFailed)])
            && (cancelled ==> q.interrupted && q.stopped == r.stopped && q.errs == r.errs)
  {
    var a := AccountOf(r.world, s.host);
    var e := Apply(ops, a, r.world.tree, s, Check(ops, a, r.world.tree, s).fix, LookupOf(ops, a),
      s.host.hostname in r.required);
    ApplyCalls(ops, a, r.world.tree, s, s.host.hostname in r.required);
    assert (r.calls + e.calls)[|r.calls|..] == e.calls;
  }

  /** A step whose end state holds, or whose check fails, makes no call. */
  lemma OtherwiseNoCall(ops: HostOps, r: Run, s: Step, cancelled: bool)
    requires s.host.hostname in r.stopped || !Check(ops, AccountOf(r.world, s.host), r.world.tree, s).WouldDo?
    ensures var q := PlainStep(ops, r, s, cancelled);
            q.calls == r.calls && q.world == r.world && q.required == r.required
  {
  }
}
