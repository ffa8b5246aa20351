/** Host isolation: a run does for each Host what a run over the Host's own steps does. */
module Isolation {
  import opened Machine
  import opened Runner
  import opened Outcomes

  function Own(steps: seq<Step>, hostname: string): seq<Step> {
    if steps == [] then []
    else
      var n := |steps| - 1;
      Own(steps[..n], hostname) + if steps[n].host.hostname == hostname then [steps[n]] else []
  }

  function LinesOf(report: seq<Line>, hostname: string): seq<Line> {
    if report == [] then []
    else
      var n := |report| - 1;
      LinesOf(report[..n], hostname) + if report[n].step.host.hostname == hostname then [report[n]] else []
  }

  function AccountCalls(calls: seq<Call>): seq<Call> {
    if calls == [] then []
    else
      var n := |calls| - 1;
      AccountCalls(calls[..n]) + if calls[n].target.OnAccount? then [calls[n]] else []
  }

  /** The same outcome; on the shared checkout, one run may apply what the other finds done. */
  predicate SameLine(a: Line, b: Line) {
    && a.step == b.step
    && (a.outcome == b.outcome
        || (a.step.kind.StepCheckout? && a.outcome in {OutcomeApplied, OutcomeDone}
          && b.outcome in {OutcomeApplied, OutcomeDone}))
  }

  ghost predicate SameLines(a: seq<Line>, b: seq<Line>) {
    |a| == |b| && forall k | 0 <= k < |a| :: SameLine(a[k], b[k])
  }

  /** The checkout is as in the other run, or was opened by another Host, which its own would do. */
  ghost predicate TreesAgree(ops: HostOps, full: Tree, solo: Tree) {
    full == solo || (full.readable && (solo.readable || ops.makeReadable(solo).1))
  }

  /** Whether the checkout's state can be read does not depend on that state. */
  ghost predicate TreeReadSteady(ops: HostOps) {
    forall t, u :: ops.treeRead(t) == ops.treeRead(u)
  }

  /** The Host's part of the run `full` is the run `solo`. */
  ghost predicate Matches(ops: HostOps, full: Run, solo: Run, h: Host) {
    && !full.interrupted && !solo.interrupted
    && AccountOf(full.world, h) == AccountOf(solo.world, h)
    && TreesAgree(ops, full.world.tree, solo.world.tree)
    && (h.hostname in full.stopped <==> h.hostname in solo.stopped)
    && (h.hostname in full.required <==> h.hostname in solo.required)
    && (h.hostname in full.restarted <==> h.hostname in solo.restarted)
    && SameLines(LinesOf(full.report, h.hostname), solo.report)
    && AccountCalls(CallsOf(full.calls, h.hostname)) == AccountCalls(solo.calls)
  }

  // ----- another Host's step

  lemma LinesOfNext(report: seq<Line>, line: Line, hostname: string)
    ensures LinesOf(report + [line], hostname)
            == if line.step.host.hostname == hostname then LinesOf(report, hostname) + [line]
              else LinesOf(report, hostname)
  {
    assert (report + [line])[..|report|] == report;
  }

  /** What a step of another Host leaves as it was. */
  ghost predicate Apart(r: Run, q: Run, h: Host) {
    && q.interrupted == r.interrupted
    && AccountOf(q.world, h) == AccountOf(r.world, h)
    && (h.hostname in q.stopped <==> h.hostname in r.stopped)
    && (h.hostname in q.required <==> h.hostname in r.required)
    && (h.hostname in q.restarted <==> h.hostname in r.restarted)
    && LinesOf(q.report, h.hostname) == LinesOf(r.report, h.hostname)
    && CallsOf(q.calls, h.hostname) == CallsOf(r.calls, h.hostname)
  }

  lemma NotedApart(r: Run, s: Step, o: Outcome, h: Host)
    requires s.host.hostname != h.hostname
    ensures Apart(r, Noted(r, s, o), h)
  {
    LinesOfNext(r.report, Line(s, o), h.hostname);
  }

  lemma EndedApart(r: Run, s: Step, ok: bool, h: Host)
    requires s.host.hostname != h.hostname
    ensures Apart(r, Ended(r, s, ok, false), h)
  {
    NotedApart(r, s, OutcomeFailed, h);
  }

  lemma AppliedApart(r: Run, s: Step, fix: Fix, e: Effect, h: Host)
    requires s.host.hostname != h.hostname && s.host.user != h.user
    requires forall c | c in e.calls :: c.hostname == s.host.hostname
    ensures Apart(r, AfterApply(r, s, fix, e), h)
  {
    OutcomesOfCalls(r.calls, e.calls, s.host.hostname, h.hostname);
    LinesOfNext(r.report, Line(s, OutcomeApplied), h.hostname);
  }

  lemma OutcomesOfCalls(calls: seq<Call>, more: seq<Call>, own: string, other: string)
    requires forall c | c in more :: c.hostname == own
    ensures CallsOf(calls + more, own) == CallsOf(calls, own) + more
    ensures other != own ==> CallsOf(calls + more, other) == CallsOf(calls, other)
  {
    CallsOfAppend(calls, more, own);
    CallsOfAppend(calls, more, other);
    OwnCalls(more, own);
    if other != own {
      OthersCalls(more, own, other);
    }
  }

  /** A step changes, of what belongs to another Host, at most the checkout. */
  lemma StepApart(ops: HostOps, r: Run, s: Step, h: Host)
    requires s.host.hostname != h.hostname && s.host.user != h.user
    ensures Apart(r, PlainStep(ops, r, s, false), h)
  {
    if s.host.hostname in r.stopped {
      NotedApart(r, s, OutcomeSkipped, h);
    } else {
      var a, l := AccountOf(r.world, s.host), LookupOf(ops, AccountOf(r.world, s.host));
      match Check(ops, a, r.world.tree, s)
      case Done => NotedApart(r, s, OutcomeDone, h);
      case CheckError(_) => EndedApart(r, s, false, h);
      case WouldDo(fix) =>
        var e := Apply(ops, a, r.world.tree, s, fix, l, s.host.hostname in r.required);
        EffectIsOwn(ops, a, r.world.tree, s, fix, l, s.host.hostname in r.required);
        AppliedApart(r, s, fix, e, h);
        EndedApart(AfterApply(r, s, fix, e), s, e.ok, h);
    }
  }

  lemma BootstrapTree(ops: HostOps, a: Account, t: Tree, h: Host, restart: bool)
    ensures Bootstrapped(ops, a, t, h, restart).tree == t
  {
  }

  lemma ApplyTree(ops: HostOps, a: Account, t: Tree, s: Step, fix: Fix, l: Lookup, restart: bool)
    ensures Apply(ops, a, t, s, fix, l, restart).tree == if s.kind.StepCheckout? then ops.makeReadable(t).0 else t
  {
    if s.kind.StepHostBootstrap? {
      BootstrapTree(ops, a, t, s.host, restart);
    }
  }

  /** A step changes the checkout only by opening it, for a checkout that is not yet readable. */
  lemma StepTree(ops: HostOps, r: Run, s: Step)
    ensures var t, u := r.world.tree, PlainStep(ops, r, s, false).world.tree;
            u == t || (!t.readable && u == ops.makeReadable(t).0)
  {
    if s.host.hostname !in r.stopped {
      var a := AccountOf(r.world, s.host);
      var c := Check(ops, a, r.world.tree, s);
      if c.WouldDo? {
        ApplyTree(ops, a, r.world.tree, s, c.fix, LookupOf(ops, a), s.host.hostname in r.required);
      }
    }
  }

  lemma OtherStepMatches(ops: HostOps, full: Run, solo: Run, s: Step, h: Host)
    requires OpensCheckout(ops) && Matches(ops, full, solo, h) && s.host.hostname != h.hostname && s.host.user != h.user
    ensures Matches(ops, PlainStep(ops, full, s, false), solo, h)
  {
    StepApart(ops, full, s, h);
    StepTree(ops, full, s);
  }

  // ----- the Host's own step

  lemma {:induction false} AccountCallsAppend(a: seq<Call>, b: seq<Call>)
    ensures AccountCalls(a + b) == AccountCalls(a) + AccountCalls(b)
    decreases |b|
  {
    if b == [] {
      assert a + b == a;
    } else {
      var n := |b| - 1;
      assert (a + b)[..|a + b| - 1] == a + b[..n];
      AccountCallsAppend(a, b[..n]);
    }
  }

  lemma NotedMatches(ops: HostOps, full: Run, solo: Run, s: Step, o: Outcome, p: Outcome)
    requires Matches(ops, full, solo, s.host) && SameLine(Line(s, o), Line(s, p))
    ensures Matches(ops, Noted(full, s, o), Noted(solo, s, p), s.host)
  {
    LinesOfNext(full.report, Line(s, o), s.host.hostname);
  }

  lemma EndedMatches(ops: HostOps, full: Run, solo: Run, s: Step, ok: bool)
    requires Matches(ops, full, solo, s.host)
    ensures Matches(ops, Ended(full, s, ok, false), Ended(solo, s, ok, false), s.host)
  {
    if !ok {
      var f := full.(stopped := full.stopped[s.host.hostname := s.id], errs := full.errs + [s.id]);
      var g := solo.(stopped := solo.stopped[s.host.hostname := s.id], errs := solo.errs + [s.id]);
      NotedMatches(ops, f, g, s, OutcomeFailed, OutcomeFailed);
    }
  }

  /** Two effects that agree on the account. */
  ghost predicate EffectsAgree(ops: HostOps, e: Effect, g: Effect, s: Step) {
    && e.account == g.account && e.ok == g.ok && e.restarted == g.restarted
      && AccountCalls(e.calls) == AccountCalls(g.calls)
    && TreesAgree(ops, e.tree, g.tree) && forall c | c in e.calls :: c.hostname == s.host.hostname
  }

  lemma AppliedMatches(ops: HostOps, full: Run, solo: Run, s: Step, fix: Fix, e: Effect, g: Effect)
    requires Matches(ops, full, solo, s.host) && EffectsAgree(ops, e, g, s)
    ensures Matches(ops, AfterApply(full, s, fix, e), AfterApply(solo, s, fix, g), s.host)
  {
    var f := AfterApply(full, s, fix, e.(ok := false));
    var u := AfterApply(solo, s, fix, g.(ok := false));
    OutcomesOfCalls(full.calls, e.calls, s.host.hostname, s.host.hostname);
    AccountCallsAppend(CallsOf(full.calls, s.host.hostname), e.calls);
    AccountCallsAppend(solo.calls, g.calls);
    assert Matches(ops, f, u, s.host);
    if e.ok {
      var host := s.host.hostname;
      NotedMatches(ops, if fix.FixContent? then f.(required := f.required + {host}) else f,
                   if fix.FixContent? then u.(required := u.required + {host})
                     else u, s, OutcomeApplied, OutcomeApplied);
    }
  }

  predicate SameOnAccount(e: Effect, g: Effect) {
    e.account == g.account && e.calls == g.calls && e.ok == g.ok && e.restarted == g.restarted
  }

  lemma BootstrapIgnoresTree(ops: HostOps, a: Account, t: Tree, u: Tree, h: Host, restart: bool)
    ensures SameOnAccount(Bootstrapped(ops, a, t, h, restart), Bootstrapped(ops, a, u, h, restart))
  {
  }

  /** Only the checkout step looks at the checkout. */
  lemma CheckIgnoresTree(ops: HostOps, a: Account, t: Tree, u: Tree, s: Step)
    requires !s.kind.StepCheckout?
    ensures Check(ops, a, t, s) == Check(ops, a, u, s)
  {
  }

  lemma CredentialIgnoresTree(ops: HostOps, a: Account, t: Tree, u: Tree, s: Step, fix: Fix, l: Lookup, restart: bool)
    requires s.kind.StepCredential?
    ensures SameOnAccount(Apply(ops, a, t, s, fix, l, restart), Apply(ops, a, u, s, fix, l, restart))
  {
  }

  lemma SetupIgnoresTree(ops: HostOps, a: Account, t: Tree, u: Tree, s: Step, fix: Fix, l: Lookup, restart: bool)
    requires !s.kind.StepCredential? && !s.kind.StepHostBootstrap? && !s.kind.StepCheckout?
    ensures SameOnAccount(Apply(ops, a, t, s, fix, l, restart), Apply(ops, a, u, s, fix, l, restart))
  {
  }

  lemma ApplyIgnoresTree(ops: HostOps, a: Account, t: Tree, u: Tree, s: Step, fix: Fix, l: Lookup, restart: bool)
    requires !s.kind.StepCheckout?
    ensures SameOnAccount(Apply(ops, a, t, s, fix, l, restart), Apply(ops, a, u, s, fix, l, restart))
  {
    match s.kind
    case StepHostBootstrap => BootstrapIgnoresTree(ops, a, t, u, s.host, restart);
    case StepCredential => CredentialIgnoresTree(ops, a, t, u, s, fix, l, restart);
    case _ => SetupIgnoresTree(ops, a, t, u, s, fix, l, restart);
  }

  lemma OwnStepMatches(ops: HostOps, full: Run, solo: Run, s: Step)
    requires Matches(ops, full, solo, s.host) && !s.kind.StepCheckout?
    ensures Matches(ops, PlainStep(ops, full, s, false), PlainStep(ops, solo, s, false), s.host)
  {
    if s.host.hostname in full.stopped {
      NotedMatches(ops, full, solo, s, OutcomeSkipped, OutcomeSkipped);
    } else {
      var a, t, u, restart := AccountOf(full.world, s.host), full.world.tree, solo.world.tree,
        s.host.hostname in full.required;
      var l := LookupOf(ops, a);
      CheckIgnoresTree(ops, a, t, u, s);
      match Check(ops, a, t, s)
      case Done => NotedMatches(ops, full, solo, s, OutcomeDone, OutcomeDone);
      case CheckError(_) => EndedMatches(ops, full, solo, s, false);
      case WouldDo(fix) =>
        var e, g := Apply(ops, a, t, s, fix, l, restart), Apply(ops, a, u, s, fix, l, restart);
        ApplyIgnoresTree(ops, a, t, u, s, fix, l, restart);
        EffectIsOwn(ops, a, t, s, fix, l, restart);
        ApplyTree(ops, a, t, s, fix, l, restart);
        ApplyTree(ops, a, u, s, fix, l, restart);
        AppliedMatches(ops, full, solo, s, fix, e, g);
        EndedMatches(ops, AfterApply(full, s, fix, e), AfterApply(solo, s, fix, g), s, e.ok);
    }
  }

  /** What opening the checkout does. */
  function Opening(ops: HostOps, r: Run, s: Step): Effect {
    var (u, ok) := ops.makeReadable(r.world.tree);
    Effect(AccountOf(r.world, s.host), u, [Call(s.host.hostname, OnTree, ok)], ok, false)
  }

  lemma CheckoutStep(ops: HostOps, r: Run, s: Step)
    requires s.kind.StepCheckout? && s.host.hostname !in r.stopped
    ensures PlainStep(ops, r, s, false)
            == if !ops.treeRead(r.world.tree).Answers? then Ended(r, s, false, false)
               else if r.world.tree.readable then Noted(r, s, OutcomeDone)
               else Ended(AfterApply(r, s, NoFix, Opening(ops, r, s)), s, Opening(ops, r, s).ok, false)
  {
  }

  /** The Host's own checkout step: what another Host opened counts as done in the full run. */
  lemma OwnCheckoutMatches(ops: HostOps, full: Run, solo: Run, s: Step)
    requires OpensCheckout(ops) && TreeReadSteady(ops) && Matches(ops, full, solo, s.host) && s.kind.StepCheckout?
    ensures Matches(ops, PlainStep(ops, full, s, false), PlainStep(ops, solo, s, false), s.host)
  {
    if s.host.hostname in full.stopped {
      NotedMatches(ops, full, solo, s, OutcomeSkipped, OutcomeSkipped);
    } else {
      CheckoutStep(ops, full, s);
      CheckoutStep(ops, solo, s);
      if !ops.treeRead(full.world.tree).Answers? {
        EndedMatches(ops, full, solo, s, false);
      } else if full.world.tree.readable && solo.world.tree.readable {
        NotedMatches(ops, full, solo, s, OutcomeDone, OutcomeDone);
      } else if full.world.tree == solo.world.tree {
        BothOpenMatches(ops, full, solo, s);
      } else {
        SoloOpensMatches(ops, full, solo, s);
      }
    }
  }

  lemma BothOpenMatches(ops: HostOps, full: Run, solo: Run, s: Step)
    requires Matches(ops, full, solo, s.host) && full.world.tree == solo.world.tree
    ensures var g := Opening(ops, solo, s);
            Opening(ops, full, s) == g
            && Matches(ops, Ended(AfterApply(full, s, NoFix, g), s, g.ok, false),
              Ended(AfterApply(solo, s, NoFix, g), s, g.ok, false), s.host)
  {
    var g := Opening(ops, solo, s);
    AppliedMatches(ops, full, solo, s, NoFix, g, g);
    EndedMatches(ops, AfterApply(full, s, NoFix, g), AfterApply(solo, s, NoFix, g), s, g.ok);
  }

  lemma SoloOpensMatches(ops: HostOps, full: Run, solo: Run, s: Step)
    requires OpensCheckout(ops) && Matches(ops, full, solo, s.host) && s.kind.StepCheckout?
    requires full.world.tree.readable && Opening(ops, solo, s).ok
    ensures Matches(ops, Noted(full, s, OutcomeDone), AfterApply(solo, s, NoFix, Opening(ops, solo, s)), s.host)
  {
    var g := Opening(ops, solo, s);
    assert g.tree.readable;
    assert AccountCalls(g.calls) == [];
    AccountCallsAppend(solo.calls, g.calls);
    var after := solo.(world := SetAccount(solo.world, s.host, g.account).(tree := g.tree),
      calls := solo.calls + g.calls);
    NotedMatches(ops, full, after, s, OutcomeDone, OutcomeApplied);
  }

  lemma StepMatches(ops: HostOps, full: Run, solo: Run, s: Step, h: Host)
    requires OpensCheckout(ops) && TreeReadSteady(ops) && Matches(ops, full, solo, h)
    requires s.host == h || (s.host.hostname != h.hostname && s.host.user != h.user)
    ensures Matches(ops, PlainStep(ops, full, s, false), if s.host == h then PlainStep(ops, solo, s, false)
            else solo, h)
  {
    if s.host != h {
      OtherStepMatches(ops, full, solo, s, h);
    } else if s.kind.StepCheckout? {
      OwnCheckoutMatches(ops, full, solo, s);
    } else {
      OwnStepMatches(ops, full, solo, s);
    }
  }

  /** The full run over the first `n` steps, and the Host's own run over its steps among them. */
  function FullTo(ops: HostOps, w: World, steps: seq<Step>, n: nat): Run
    requires n <= |steps|
  {
    RunTo(ops, Start(w), steps, n, Never)
  }

  function SoloTo(ops: HostOps, w: World, steps: seq<Step>, n: nat, hostname: string): Run
    requires n <= |steps|
  {
    PlainRun(ops, Start(w), Own(steps[..n], hostname), Never)
  }

  lemma SoloNext(ops: HostOps, w: World, steps: seq<Step>, n: nat, hostname: string)
    requires n < |steps| && !SoloTo(ops, w, steps, n, hostname).interrupted
    ensures SoloTo(ops, w, steps, n + 1, hostname)
            == if steps[n].host.hostname == hostname then PlainStep(ops, SoloTo(ops, w, steps, n, hostname),
              steps[n], false)
               else SoloTo(ops, w, steps, n, hostname)
  {
    assert steps[..n + 1][..n] == steps[..n];
    var own := Own(steps[..n], hostname);
    RunNext(ops, Start(w), own, steps[n], Never);
    assert own + [] == own;
  }

  lemma AloneOn(ops: HostOps, w: World, steps: seq<Step>, n: nat, h: Host)
    requires OpensCheckout(ops) && TreeReadSteady(ops) && n < |steps|
    requires steps[n].host == h || (steps[n].host.hostname != h.hostname && steps[n].host.user != h.user)
    requires Matches(ops, FullTo(ops, w, steps, n), SoloTo(ops, w, steps, n, h.hostname), h)
    ensures Matches(ops, FullTo(ops, w, steps, n + 1), SoloTo(ops, w, steps, n + 1, h.hostname), h)
  {
    RunToNext(ops, Start(w), steps, n, Never);
    SoloNext(ops, w, steps, n, h.hostname);
    StepMatches(ops, FullTo(ops, w, steps, n), SoloTo(ops, w, steps, n, h.hostname), steps[n], h);
  }

  lemma {:induction false} AloneTo(ops: HostOps, w: World, steps: seq<Step>, n: nat, h: Host)
    requires OpensCheckout(ops) && TreeReadSteady(ops) && n <= |steps|
    requires forall i | 0 <= i < n ::
               steps[i].host == h || (steps[i].host.hostname != h.hostname && steps[i].host.user != h.user)
    ensures Matches(ops, FullTo(ops, w, steps, n), SoloTo(ops, w, steps, n, h.hostname), h)
  {
    if n > 0 {
      AloneTo(ops, w, steps, n - 1, h);
      AloneOn(ops, w, steps, n - 1, h);
    }
  }

  /** Host isolation: in a run over distinct Hosts that is not interrupted, each Host's account,
      calls, outcomes and Agent restart are those of a run over its own steps alone, up to who opens
      the shared checkout. */
  lemma EachHostAlone(ops: HostOps, w: World, steps: seq<Step>, h: Host)
    requires OpensCheckout(ops) && TreeReadSteady(ops)
    requires forall s | s in steps :: s.host == h || (s.host.hostname != h.hostname && s.host.user != h.user)
    ensures Matches(ops, PlainRun(ops, Start(w), steps, Never),
            PlainRun(ops, Start(w), Own(steps, h.hostname), Never), h)
  {
    assert steps[..|steps|] == steps;
    AloneTo(ops, w, steps, |steps|, h);
  }
}
