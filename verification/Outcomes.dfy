/** What a run reports: one outcome per step, and nothing done for a stopped Host. */
module Outcomes {
  import opened Machine
  import opened Runner

  /** The line of an earlier failure of the Host at `k`. */
  ghost predicate FailedBefore(report: seq<Line>, k: nat, hostname: string) {
    exists j ::
        0 <= j < k && j < |report| && report[j].outcome.OutcomeFailed? && report[j].step.host.hostname == hostname
  }

  function Failures(report: seq<Line>): seq<string> {
    if report == [] then []
    else
      var n := |report| - 1;
      Failures(report[..n]) + if report[n].outcome.OutcomeFailed? then [report[n].step.id] else []
  }

  /** A step of an uninterrupted run adds its own line and no other, unless it is interrupted; a
      failing one stops its Host. */
  ghost predicate Moves(r: Run, q: Run, s: Step) {
    var n, host := |r.report|, s.host.hostname;
    if |q.report| == n then q.interrupted && q.report == r.report && q.stopped == r.stopped && q.errs == r.errs
    else
      && |q.report| == n + 1 && q.report[..n] == r.report && q.report[n].step == s
      && (q.report[n].outcome.OutcomeSkipped? <==> host in r.stopped)
      && if q.report[n].outcome.OutcomeFailed? then q.stopped == r.stopped[host := s.id] && q.errs == r.errs + [s.id]
         else q.stopped == r.stopped && q.errs == r.errs
  }

  lemma AppliedMoves(r: Run, s: Step, fix: Fix, e: Effect, cancelled: bool)
    requires !r.interrupted && s.host.hostname !in r.stopped
    ensures Moves(r, Ended(AfterApply(r, s, fix, e), s, e.ok, cancelled), s)
  {
  }

  lemma StepMoves(ops: HostOps, r: Run, s: Step, cancelled: bool)
    requires !r.interrupted
    ensures Moves(r, PlainStep(ops, r, s, cancelled), s)
  {
    var a := AccountOf(r.world, s.host);
    var c := Check(ops, a, r.world.tree, s);
    if s.host.hostname !in r.stopped && c.WouldDo? {
      AppliedMoves(r, s, c.fix, Apply(ops, a, r.world.tree, s, c.fix, LookupOf(ops, a),
        s.host.hostname in r.required), cancelled);
    }
  }

  /** The lines are those of the first steps, in order; of the first `n`, when the run over them was not
      interrupted. */
  ghost predicate Reports(r: Run, steps: seq<Step>, n: nat) {
    && |r.report| <= n <= |steps| && (!r.interrupted ==> |r.report| == n)
    && forall k | 0 <= k < |r.report| :: r.report[k].step == steps[k]
  }

  /** A Host is stopped exactly when a step of it failed, a step skipped exactly when its Host had
      stopped, and the errors are those of the failed steps. */
  ghost predicate StopsRight(r: Run) {
    && (forall h :: h in r.stopped <==> FailedBefore(r.report, |r.report|, h))
    && (forall k | 0 <= k < |r.report| ::
          r.report[k].outcome.OutcomeSkipped? <==> FailedBefore(r.report, k, r.report[k].step.host.hostname))
    && r.errs == Failures(r.report)
  }

  lemma FailedBeforePrefix(report: seq<Line>, n: nat, k: nat, h: string)
    requires k <= n <= |report|
    ensures FailedBefore(report, k, h) <==> FailedBefore(report[..n], k, h)
  {
    if FailedBefore(report, k, h) {
      var j :| 0 <= j < k && report[j].outcome.OutcomeFailed? && report[j].step.host.hostname == h;
      assert report[..n][j] == report[j];
    }
  }

  lemma FailedBeforeNext(report: seq<Line>, n: nat, h: string)
    requires n < |report|
    ensures FailedBefore(report, n + 1, h)
            <==> FailedBefore(report, n, h) || (report[n].outcome.OutcomeFailed? && report[n].step.host.hostname == h)
  {
    if FailedBefore(report, n, h) {
      var j :| 0 <= j < n && report[j].outcome.OutcomeFailed? && report[j].step.host.hostname == h;
    }
  }

  lemma StopsRightStep(r: Run, q: Run, s: Step)
    requires StopsRight(r) && Moves(r, q, s)
    ensures StopsRight(q)
  {
    var n := |r.report|;
    if |q.report| > n {
      forall h ensures h in q.stopped <==> FailedBefore(q.report, |q.report|, h) {
        FailedBeforePrefix(q.report, n, n, h);
        FailedBeforeNext(q.report, n, h);
      }
      forall k | 0 <= k < |q.report|
        ensures q.report[k].outcome.OutcomeSkipped? <==> FailedBefore(q.report, k, q.report[k].step.host.hostname)
      {
        FailedBeforePrefix(q.report, n, k, q.report[k].step.host.hostname);
        assert k < n ==> q.report[k] == r.report[k];
      }
    }
  }

  lemma ReportsStep(r: Run, q: Run, steps: seq<Step>, n: nat)
    requires n < |steps| && !r.interrupted && Reports(r, steps, n) && Moves(r, q, steps[n])
    ensures Reports(q, steps, n + 1)
  {
    forall k | 0 <= k < |q.report| ensures q.report[k].step == steps[k] {
      assert k < |r.report| ==> q.report[k] == r.report[k];
    }
  }

  /** The report is right so far. */
  ghost predicate RightTo(r: Run, steps: seq<Step>, n: nat) { Reports(r, steps, n) && StopsRight(r) }

  lemma RightNext(ops: HostOps, r: Run, q: Run, steps: seq<Step>, n: nat, cancelled: bool)
    requires n < |steps| && RightTo(r, steps, n) && !r.interrupted && q == PlainStep(ops, r, steps[n], cancelled)
    ensures RightTo(q, steps, n + 1)
  {
    StepMoves(ops, r, steps[n], cancelled);
    StopsRightStep(r, q, steps[n]);
    ReportsStep(r, q, steps, n);
  }

  lemma RightOn(ops: HostOps, r: Run, steps: seq<Step>, n: nat, cancelled: nat -> bool)
    requires n < |steps| && RightTo(RunTo(ops, r, steps, n, cancelled), steps, n)
    ensures RightTo(RunTo(ops, r, steps, n + 1, cancelled), steps, n + 1)
  {
    var p, q := RunTo(ops, r, steps, n, cancelled), RunTo(ops, r, steps, n + 1, cancelled);
    RunToNext(ops, r, steps, n, cancelled);
    if !p.interrupted {
      RightNext(ops, p, q, steps, n, cancelled(n));
    }
  }

  lemma {:induction false} OutcomesTo(ops: HostOps, r: Run, steps: seq<Step>, n: nat, cancelled: nat -> bool)
    requires n <= |steps| && RightTo(r, steps, 0)
    ensures RightTo(RunTo(ops, r, steps, n, cancelled), steps, n)
  {
    if n == 0 {
      RunToNone(ops, r, steps, cancelled);
    } else {
      OutcomesTo(ops, r, steps, n - 1, cancelled);
      RightOn(ops, r, steps, n - 1, cancelled);
    }
  }

  /** Every step of a run that is not interrupted gets exactly one outcome, and a failing step stops
      its Host: each later step of the Host, and no other step, is skipped. */
  lemma OneOutcomePerStep(ops: HostOps, w: World, steps: seq<Step>, cancelled: nat -> bool)
    ensures RightTo(PlainRun(ops, Start(w), steps, cancelled), steps, |steps|)
  {
    assert steps[..|steps|] == steps;
    OutcomesTo(ops, Start(w), steps, |steps|, cancelled);
  }

  // ----- a stopped Host is left alone

  function CallsOf(calls: seq<Call>, hostname: string): seq<Call> {
    if calls == [] then []
    else
      var n := |calls| - 1;
      CallsOf(calls[..n], hostname) + if calls[n].hostname == hostname then [calls[n]] else []
  }

  lemma {:induction false} CallsOfAppend(a: seq<Call>, b: seq<Call>, hostname: string)
    ensures CallsOf(a + b, hostname) == CallsOf(a, hostname) + CallsOf(b, hostname)
    decreases |b|
  {
    if b == [] {
      assert a + b == a;
    } else {
      var n := |b| - 1;
      assert (a + b)[..|a + b| - 1] == a + b[..n];
      CallsOfAppend(a, b[..n], hostname);
    }
  }

  lemma BootstrapIsOwn(ops: HostOps, a: Account, t: Tree, h: Host, restart: bool)
    ensures forall c | c in Bootstrapped(ops, a, t, h, restart).calls :: c.hostname == h.hostname
  {
  }

  /** The calls an apply makes are its Host's. */
  lemma EffectIsOwn(ops: HostOps, a: Account, t: Tree, s: Step, fix: Fix, l: Lookup, restart: bool)
    ensures forall c | c in Apply(ops, a, t, s, fix, l, restart).calls :: c.hostname == s.host.hostname
  {
    if s.kind.StepHostBootstrap? {
      BootstrapIsOwn(ops, a, t, s.host, restart);
    }
  }

  lemma {:induction false} OthersCalls(calls: seq<Call>, hostname: string, other: string)
    requires (forall c | c in calls :: c.hostname == hostname) && other != hostname
    ensures CallsOf(calls, other) == []
  {
    if calls != [] {
      OthersCalls(calls[..|calls| - 1], hostname, other);
    }
  }

  lemma {:induction false} OwnCalls(calls: seq<Call>, hostname: string)
    requires forall c | c in calls :: c.hostname == hostname
    ensures CallsOf(calls, hostname) == calls
  {
    if calls != [] {
      OwnCalls(calls[..|calls| - 1], hostname);
    }
  }

  lemma AppliedCalls(r: Run, s: Step, fix: Fix, e: Effect, cancelled: bool, hostname: string)
    requires (forall c | c in e.calls :: c.hostname == s.host.hostname) && hostname != s.host.hostname
    ensures CallsOf(Ended(AfterApply(r, s, fix, e), s, e.ok, cancelled).calls, hostname) == CallsOf(r.calls, hostname)
  {
    OthersCalls(e.calls, s.host.hostname, hostname);
    CallsOfAppend(r.calls, e.calls, hostname);
  }

  /** A step makes calls for its own Host only. */
  lemma StepCalls(ops: HostOps, r: Run, s: Step, cancelled: bool, hostname: string)
    requires hostname != s.host.hostname
    ensures CallsOf(PlainStep(ops, r, s, cancelled).calls, hostname) == CallsOf(r.calls, hostname)
  {
    var a := AccountOf(r.world, s.host);
    var c := Check(ops, a, r.world.tree, s);
    if s.host.hostname !in r.stopped && c.WouldDo? {
      var l, restart := LookupOf(ops, a), s.host.hostname in r.required;
      EffectIsOwn(ops, a, r.world.tree, s, c.fix, l, restart);
      AppliedCalls(r, s, c.fix, Apply(ops, a, r.world.tree, s, c.fix, l, restart), cancelled, hostname);
    }
  }

  /** The Host stays stopped, no call is made for it, and its account is as it was. */
  ghost predicate LeftAlone(r: Run, q: Run, h: Host) {
    h.hostname in r.stopped && h.hostname in q.stopped
    && CallsOf(q.calls, h.hostname) == CallsOf(r.calls, h.hostname) && AccountOf(q.world, h) == AccountOf(r.world, h)
  }

  lemma StoppedStays(ops: HostOps, r: Run, s: Step, cancelled: bool, hostname: string)
    requires hostname in r.stopped
    ensures hostname in PlainStep(ops, r, s, cancelled).stopped
  {
  }

  lemma StepLeavesAlone(ops: HostOps, r: Run, s: Step, cancelled: bool, h: Host)
    requires h.hostname in r.stopped && (s.host.user == h.user ==> s.host.hostname == h.hostname)
    ensures LeftAlone(r, PlainStep(ops, r, s, cancelled), h)
  {
    if s.host.hostname != h.hostname {
      StoppedStays(ops, r, s, cancelled, h.hostname);
      StepCalls(ops, r, s, cancelled, h.hostname);
      OtherAccountsStand(ops, r, s, cancelled, h);
    }
  }

  /** Once a step of a Host has failed, the run makes no call for the Host and leaves its account as
      it is. */
  lemma {:induction false} StoppedHostIsLeftAlone(
    ops: HostOps, r: Run, steps: seq<Step>, cancelled: nat -> bool, m: nat, n: nat, h: Host)
    requires m <= n <= |steps| && h.hostname in RunTo(ops, r, steps, m, cancelled).stopped
    requires forall i | m <= i < n && steps[i].host.user == h.user :: steps[i].host.hostname == h.hostname
    ensures LeftAlone(RunTo(ops, r, steps, m, cancelled), RunTo(ops, r, steps, n, cancelled), h)
    decreases n
  {
    var from := RunTo(ops, r, steps, m, cancelled);
    if m < n {
      StoppedHostIsLeftAlone(ops, r, steps, cancelled, m, n - 1, h);
      StepOn(ops, r, steps, cancelled, from, n - 1, h);
    } else {
      assert LeftAlone(from, from, h);
    }
  }

  lemma StepOn(ops: HostOps, r: Run, steps: seq<Step>, cancelled: nat -> bool, from: Run, n: nat, h: Host)
    requires n < |steps| && LeftAlone(from, RunTo(ops, r, steps, n, cancelled), h)
    requires steps[n].host.user == h.user ==> steps[n].host.hostname == h.hostname
    ensures LeftAlone(from, RunTo(ops, r, steps, n + 1, cancelled), h)
  {
    RunToNext(ops, r, steps, n, cancelled);
    StepLeavesAlone(ops, RunTo(ops, r, steps, n, cancelled), steps[n], cancelled(n), h);
  }
}
