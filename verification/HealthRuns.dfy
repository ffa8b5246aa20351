/** The health loop over whole runs of the Agent: passes, applies and Agent restarts in any order
    (pkg/health/health.go, pkg/agent/agent.go). */
module HealthRuns {
  import opened Common
  import opened Units
  import opened UnitRecords
  import opened Health

  /** What the health loop and recordApply share. `last` lives in the process, the rest on disk. */
  datatype Agent = Agent(last: map<string, nat>, pending: PendingUnits, files: Files, sha: string, clock: nat)

  datatype Event =
    | Checked(pass: Pass, end: nat)
    | Applied(cs: seq<Change>, restarted: seq<string>, failed: seq<string>, sha: string, now: nat)
    | ProcessRestarted

  function Visit(a: Agent, pass: Pass, unit: string): (Memory, Verdict) {
    EnforceOne(unit, MemoryOf(a.last, a.pending, unit), a.files, pass, a.sha)
  }

  function NextLast(a: Agent, pass: Pass): map<string, nat> {
    map u | u in Managed(a.files) && Visit(a, pass, u).0.last.Some? :: Visit(a, pass, u).0.last.value
  }

  function NextPending(a: Agent, pass: Pass): PendingUnits {
    map u | u in Managed(a.files) && Visit(a, pass, u).0.pending.Some? :: Visit(a, pass, u).0.pending.value
  }

  function Step(a: Agent, e: Event): Agent {
    match e
    case Checked(pass, end) => a.(last := NextLast(a, pass), pending := NextPending(a, pass), clock := end)
    case Applied(cs, restarted, failed, sha, now) =>
      var names := ServiceNamesOf(cs);
      Agent(a.last, Prune(Merge(a.pending, restarted, failed, sha, now), names), Files(names, CategoriesOf(cs)), sha,
        now)
    case ProcessRestarted => a.(last := map[])
  }

  /** The step of a pass is what Checker.Enforce does to the two maps, and the only such step. */
  lemma StepIsEnforce(a: Agent, pass: Pass, last: map<string, nat>, pending: PendingUnits)
    ensures Enforced(a.last, a.pending, last, pending, a.files, pass, a.sha)
            <==> last == NextLast(a, pass) && pending == NextPending(a, pass)
  {
    if Enforced(a.last, a.pending, last, pending, a.files, pass, a.sha) {
      forall u
        ensures Lookup(last, u) == Lookup(NextLast(a, pass), u)
        ensures Lookup(pending, u) == Lookup(NextPending(a, pass), u)
      {
        assert MemoryOf(last, pending, u) == if u in Managed(a.files) then Visit(a, pass, u).0 else Memory(None, None);
      }
      SameLookups(last, NextLast(a, pass));
      SameLookups(pending, NextPending(a, pass));
    }
  }

  lemma SameLookups<V>(a: map<string, V>, b: map<string, V>)
    requires forall u :: Lookup(a, u) == Lookup(b, u)
    ensures a == b
  {
    forall u ensures u in a <==> u in b {
      assert Lookup(a, u) == Lookup(b, u);
    }
    assert a.Keys == b.Keys;
    forall u | u in a ensures a[u] == b[u] {
      assert Lookup(a, u) == Lookup(b, u);
    }
  }

  /** The clock does not run backwards. */
  ghost predicate Timely(a: Agent, e: Event) {
    match e
    case Checked(pass, end) => a.clock <= end && forall u :: a.clock <= pass.checkedAt(u) <= pass.attemptAt(u) <= end
    case Applied(_, _, _, _, now) => a.clock <= now
    case ProcessRestarted => true
  }

  /** A run: its events and the states before and after each. */
  datatype Run = Run(states: seq<Agent>, events: seq<Event>)

  ghost predicate Follows(a: Agent, e: Event, b: Agent) { Timely(a, e) && b == Step(a, e) }

  ghost predicate IsRun(r: Run) {
    |r.states| == |r.events| + 1 && forall k | 0 <= k < |r.events| :: Follows(r.states[k], r.events[k], r.states[k + 1])
  }

  predicate Tries(a: Agent, e: Event, unit: string) {
    e.Checked? && unit in Managed(a.files) && Attempted(Visit(a, e.pass, unit).1)
  }

  /** Event k is a pass that tries to restart the unit. */
  ghost predicate Attempts(r: Run, k: nat, unit: string)
    requires IsRun(r)
  {
    k < |r.events| && Tries(r.states[k], r.events[k], unit)
  }

  // ----- one step

  /** A restart is tried a cooldown or more after the last one remembered, and remembered itself. */
  lemma AttemptMemory(unit: string, m: Memory, f: Files, pass: Pass, sha: string)
    requires pass.checkedAt(unit) <= pass.attemptAt(unit)
    requires Attempted(EnforceOne(unit, m, f, pass, sha).1)
    ensures EnforceOne(unit, m, f, pass, sha).0.last == Some(pass.attemptAt(unit))
    ensures m.last.Some? ==> pass.attemptAt(unit) >= m.last.value + RESTART_COOLDOWN
    ensures m.pending.Some? && m.pending.value.lastAttemptAt > 0 ==>
              pass.attemptAt(unit) >= m.pending.value.lastAttemptAt + RESTART_COOLDOWN
    ensures EnforceOne(unit, m, f, pass, sha).1.RestartFailed? ==>
              EnforceOne(unit, m, f, pass, sha).0.pending.Some?
              && EnforceOne(unit, m, f, pass, sha).0.pending.value.lastAttemptAt == Truncate(pass.attemptAt(unit))
  {
  }

  /** A pass remembers no earlier restart than before, in the process and in the record it keeps. */
  lemma MemoryGrows(unit: string, m: Memory, f: Files, pass: Pass, sha: string)
    requires m.last.Some? ==> m.last.value <= pass.attemptAt(unit)
    ensures var n := EnforceOne(unit, m, f, pass, sha).0;
            && (m.last.Some? ==> n.last.Some? && n.last.value >= m.last.value)
            && (n.pending.Some? ==>
                  n.pending.value.lastAttemptAt == Truncate(pass.attemptAt(unit)) || n.pending == m.pending)
  {
  }

  lemma TruncateMonotone(s: nat, t: nat)
    requires s <= t
    ensures Truncate(s) <= Truncate(t) && Truncate(t) <= t < Truncate(t) + SECOND
  {
    assert Truncate(s) == s / SECOND * SECOND && Truncate(t) == t / SECOND * SECOND;
  }

  lemma {:induction false} CountFailedLast(p: PendingUnits, failed: seq<string>, sha: string, now: nat, unit: string)
    ensures var m := CountFailed(p, failed, sha, now);
            unit in m ==> m[unit].lastAttemptAt == now || (unit in p && m[unit] == p[unit])
  {
    if failed != [] {
      CountFailedLast(p, failed[..|failed| - 1], sha, now, unit);
    }
  }

  /** The process still remembers a restart at `t` or later. */
  ghost predicate Remembers(a: Agent, unit: string, t: nat) {
    unit in a.last && a.last[unit] >= t && t <= a.clock
  }

  lemma TryIsRemembered(a: Agent, e: Event, b: Agent, unit: string)
    requires Follows(a, e, b) && Tries(a, e, unit)
    ensures Remembers(b, unit, e.pass.attemptAt(unit))
  {
    AttemptMemory(unit, MemoryOf(a.last, a.pending, unit), a.files, e.pass, a.sha);
  }

  lemma RememberedOn(a: Agent, e: Event, b: Agent, unit: string, t: nat)
    requires Follows(a, e, b) && Remembers(a, unit, t) && CoveredBy(a, e, unit)
    ensures Remembers(b, unit, t)
  {
    if e.Checked? {
      var m := MemoryOf(a.last, a.pending, unit);
      if m.last.value <= e.pass.attemptAt(unit) {
        MemoryGrows(unit, m, a.files, e.pass, a.sha);
      } else {
        MemoryKept(unit, m, a.files, e.pass, a.sha);
      }
    }
  }

  /** Even with a restart remembered from ahead of the clock, a pass forgets none. */
  lemma MemoryKept(unit: string, m: Memory, f: Files, pass: Pass, sha: string)
    requires pass.checkedAt(unit) <= pass.attemptAt(unit) < (if m.last.Some? then m.last.value else 0)
    ensures var n := EnforceOne(unit, m, f, pass, sha).0; n.last.Some? && n.last.value >= m.last.value
  {
  }

  /** The record on disk still has a restart at `t`, to the second, or later. */
  ghost predicate Records(a: Agent, unit: string, t: nat) {
    (unit in a.pending ==> a.pending[unit].lastAttemptAt >= Truncate(t)) && t <= a.clock
  }

  lemma TryIsRecorded(a: Agent, e: Event, unit: string)
    requires Timely(a, e) && Tries(a, e, unit) && Visit(a, e.pass, unit).1.RestartFailed?
    ensures Records(Step(a, e), unit, e.pass.attemptAt(unit)) && unit in Step(a, e).pending
  {
    AttemptMemory(unit, MemoryOf(a.last, a.pending, unit), a.files, e.pass, a.sha);
  }

  lemma RecordedOn(a: Agent, e: Event, unit: string, t: nat)
    requires Timely(a, e) && Records(a, unit, t) && unit in a.pending
    ensures Records(Step(a, e), unit, t)
  {
    match e {
      case Checked(pass, _) =>
        TruncateMonotone(t, pass.attemptAt(unit));
        PendingKeptOrNow(unit, MemoryOf(a.last, a.pending, unit), a.files, pass, a.sha);
      case Applied(_, restarted, failed, sha, now) =>
        TruncateMonotone(t, now);
        CountFailedLast(map u | u in a.pending && u !in restarted :: a.pending[u], failed, sha, Truncate(now), unit);
      case ProcessRestarted =>
    }
  }

  lemma PendingKeptOrNow(unit: string, m: Memory, f: Files, pass: Pass, sha: string)
    ensures var n := EnforceOne(unit, m, f, pass, sha).0;
            n.pending.Some? ==>
              n.pending.value.lastAttemptAt == Truncate(pass.attemptAt(unit)) || n.pending == m.pending
  {
  }

  // ----- the cooldown

  /** From event i to event j the Agent keeps running and every pass covers the unit. */
  ghost predicate StaysManaged(r: Run, i: nat, j: nat, unit: string)
    requires IsRun(r)
  {
    forall k | i <= k < j && k < |r.events| :: CoveredBy(r.states[k], r.events[k], unit)
  }

  predicate CoveredBy(a: Agent, e: Event, unit: string) {
    !e.ProcessRestarted? && (e.Checked? ==> unit in Managed(a.files))
  }

  lemma {:induction false} AttemptRemembered(r: Run, i: nat, j: nat, unit: string)
    requires IsRun(r) && i < j <= |r.events| && Attempts(r, i, unit) && StaysManaged(r, i, j, unit)
    ensures Remembers(r.states[j], unit, r.events[i].pass.attemptAt(unit))
    decreases j
  {
    var k := j - 1;
    assert Follows(r.states[k], r.events[k], r.states[k + 1]);
    if k > i {
      AttemptRemembered(r, i, k, unit);
      assert CoveredBy(r.states[k], r.events[k], unit);
      RememberedOn(r.states[k], r.events[k], r.states[j], unit, r.events[i].pass.attemptAt(unit));
    } else {
      TryIsRemembered(r.states[i], r.events[i], r.states[j], unit);
    }
  }

  /** Two restarts of a unit that stays managed, in one process, are a cooldown apart or more. */
  lemma CooldownKept(r: Run, i: nat, j: nat, unit: string)
    requires IsRun(r) && i < j && Attempts(r, i, unit) && Attempts(r, j, unit)
    requires StaysManaged(r, i, j, unit)
    ensures r.events[j].pass.attemptAt(unit) >= r.events[i].pass.attemptAt(unit) + 300_000_000_000
  {
    AttemptRemembered(r, i, j, unit);
    var a := r.states[j];
    assert Follows(r.states[j], r.events[j], r.states[j + 1]);
    AttemptMemory(unit, MemoryOf(a.last, a.pending, unit), a.files, r.events[j].pass, a.sha);
  }

  /** From after event i to event j the unit has a pending record throughout. */
  ghost predicate StaysPending(r: Run, i: nat, j: nat, unit: string)
    requires IsRun(r)
  {
    forall k | i < k <= j && k <= |r.events| :: unit in r.states[k].pending
  }

  /** A step that keeps the unit pending keeps its record of the restart at `t`, or a later one. */
  lemma RecordStep(r: Run, k: nat, unit: string, t: nat)
    requires IsRun(r) && k < |r.events| && Records(r.states[k], unit, t) && unit in r.states[k].pending
    ensures Records(r.states[k + 1], unit, t)
  {
    assert Follows(r.states[k], r.events[k], r.states[k + 1]);
    RecordedOn(r.states[k], r.events[k], unit, t);
  }

  lemma FirstRecorded(r: Run, i: nat, unit: string)
    requires IsRun(r) && i < |r.events| && Attempts(r, i, unit)
    requires Visit(r.states[i], r.events[i].pass, unit).1.RestartFailed?
    ensures Records(r.states[i + 1], unit, r.events[i].pass.attemptAt(unit))
  {
    assert Follows(r.states[i], r.events[i], r.states[i + 1]);
    TryIsRecorded(r.states[i], r.events[i], unit);
  }

  lemma {:induction false} AttemptRecorded(r: Run, i: nat, j: nat, unit: string)
    requires IsRun(r) && i < j <= |r.events| && Attempts(r, i, unit)
    requires Visit(r.states[i], r.events[i].pass, unit).1.RestartFailed?
    requires StaysPending(r, i, j, unit)
    ensures Records(r.states[j], unit, r.events[i].pass.attemptAt(unit))
    decreases j
  {
    if j - 1 > i {
      assert unit in r.states[j - 1].pending;
      AttemptRecorded(r, i, j - 1, unit);
      RecordStep(r, j - 1, unit, r.events[i].pass.attemptAt(unit));
    } else {
      FirstRecorded(r, i, unit);
    }
  }

  /** Whatever Agent restarts lie between, the gap after a failed restart whose record is kept is the
      cooldown but for the second the timestamp is truncated by. */
  lemma CooldownSurvivesRestart(r: Run, i: nat, j: nat, unit: string)
    requires IsRun(r) && i < j && Attempts(r, i, unit) && Attempts(r, j, unit)
    requires Visit(r.states[i], r.events[i].pass, unit).1.RestartFailed?
    requires StaysPending(r, i, j, unit) && r.events[i].pass.attemptAt(unit) >= SECOND
    ensures r.events[j].pass.attemptAt(unit) > r.events[i].pass.attemptAt(unit) + 299_000_000_000
  {
    AttemptRecorded(r, i, j, unit);
    TruncateMonotone(SECOND, r.events[i].pass.attemptAt(unit));
    var a := r.states[j];
    assert Follows(r.states[j], r.events[j], r.states[j + 1]);
    AttemptMemory(unit, MemoryOf(a.last, a.pending, unit), a.files, r.events[j].pass, a.sha);
  }

  // ----- report-only units

  ghost predicate BackedBy(f: Files, unit: string, category: string) {
    exists path | path in f.serviceNames :: f.serviceNames[path] == unit && CategoryOf(f, path) == category
  }

  /** No pass of any run restarts a unit a .build file generates. */
  lemma BuildNeverRestarted(r: Run, k: nat, unit: string)
    requires IsRun(r) && k < |r.events| && BackedBy(r.states[k].files, unit, "build")
    ensures !Attempts(r, k, unit)
  {
    var f := r.states[k].files;
    var path :| path in f.serviceNames && f.serviceNames[path] == unit && CategoryOf(f, path) == "build";
    assert !AllowsRestart(CategoryOf(f, path), true) && !AllowsRestart(CategoryOf(f, path), false);
  }

  /** Event k neither sees the unit up or at rest nor restarts it cleanly. */
  ghost predicate StaysFailed(e: Event, unit: string) {
    match e
    case Checked(pass, _) => pass.query(unit).None? || !(Up(pass.query(unit).value) || Resting(pass.query(unit).value))
    case Applied(_, restarted, failed, _, _) => unit !in restarted || unit in failed
    case ProcessRestarted => true
  }

  /** Event k fails to restart the unit: an apply, or a pass that finds no .image file behind the unit. */
  ghost predicate BeginsChain(r: Run, k: nat, unit: string)
    requires IsRun(r) && k < |r.events|
  {
    match r.events[k]
    case Applied(_, _, failed, _, _) => unit in failed
    case Checked(pass, _) =>
      && unit in Managed(r.states[k].files) && !BackedBy(r.states[k].files, unit, "image")
      && Visit(r.states[k], pass, unit).1.RestartFailed?
    case ProcessRestarted => false
  }

  lemma ImageNeedsRecord(a: Agent, pass: Pass, unit: string)
    requires unit in Managed(a.files) && BackedBy(a.files, unit, "image")
    ensures Attempted(Visit(a, pass, unit).1) ==> unit in a.pending
  {
    assert MemoryOf(a.last, a.pending, unit).pending.Some? <==> unit in a.pending;
    var path :| path in a.files.serviceNames && a.files.serviceNames[path] == unit
      && CategoryOf(a.files, path) == "image";
    assert !AllowsRestart(CategoryOf(a.files, path), false);
  }

  /** A record that a step leaves was there before, the unit staying failed, or the step failed to
      restart the unit. */
  lemma RecordFromBefore(a: Agent, e: Event, unit: string)
    requires unit in Step(a, e).pending && !(e.Applied? && unit in e.failed)
    ensures (unit in a.pending && StaysFailed(e, unit))
            || (e.Checked? && unit in Managed(a.files) && Visit(a, e.pass, unit).1.RestartFailed? && unit !in a.pending)
  {
    match e {
      case Checked(pass, _) => KeptIsFailed(unit, MemoryOf(a.last, a.pending, unit), a.files, pass, a.sha);
      case Applied(_, _, _, _, _) => NotFailedKept(a.pending, e, unit);
      case ProcessRestarted =>
    }
  }

  lemma KeptIsFailed(unit: string, m: Memory, f: Files, pass: Pass, sha: string)
    requires EnforceOne(unit, m, f, pass, sha).0.pending.Some?
    ensures pass.query(unit).None? || !(Up(pass.query(unit).value) || Resting(pass.query(unit).value))
    ensures m.pending.None? ==> EnforceOne(unit, m, f, pass, sha).1.RestartFailed?
  {
  }

  /** Where the chain behind a pending record begins. */
  lemma {:induction false} RecordFromFailure(r: Run, unit: string, j: nat) returns (i: nat)
    requires IsRun(r) && r.states[0].pending == map[] && j <= |r.events| && unit in r.states[j].pending
    ensures i < j && BeginsChain(r, i, unit)
    ensures forall k | i < k < j :: StaysFailed(r.events[k], unit)
    decreases j
  {
    assert j != 0;
    assert Follows(r.states[j - 1], r.events[j - 1], r.states[j]);
    var a, e := r.states[j - 1], r.events[j - 1];
    if e.Applied? && unit in e.failed {
      return j - 1;
    }
    RecordFromBefore(a, e, unit);
    if unit !in a.pending {
      if BackedBy(a.files, unit, "image") {
        ImageNeedsRecord(a, e.pass, unit);
      }
      return j - 1;
    }
    i := RecordFromFailure(r, unit, j - 1);
  }

  lemma NotFailedKept(p: PendingUnits, e: Event, unit: string)
    requires e.Applied? && unit !in e.failed
    requires unit in Merge(p, e.restarted, e.failed, e.sha, e.now)
    ensures unit in p && unit !in e.restarted
  {
    CountFailedMembers(map u | u in p && u !in e.restarted :: p[u], e.failed, e.sha, Truncate(e.now));
  }

  lemma {:induction false} CountFailedMembers(p: PendingUnits, failed: seq<string>, sha: string, now: nat)
    ensures forall u :: u in CountFailed(p, failed, sha, now) <==> u in p || u in failed
  {
    if failed != [] {
      CountFailedMembers(p, failed[..|failed| - 1], sha, now);
      assert failed == failed[..|failed| - 1] + [failed[|failed| - 1]];
    }
  }

  /** The health loop restarts a unit of an .image file only to retry: an apply failed to restart it
      before, or a pass did that found no .image file behind the unit; and since then it was never seen
      up or at rest, nor restarted cleanly. */
  lemma ImageRestartRetries(r: Run, j: nat, unit: string) returns (i: nat)
    requires IsRun(r) && r.states[0].pending == map[]
    requires Attempts(r, j, unit) && BackedBy(r.states[j].files, unit, "image")
    ensures i < j && BeginsChain(r, i, unit)
    ensures forall k | i < k < j :: StaysFailed(r.events[k], unit)
  {
    ImageNeedsRecord(r.states[j], r.events[j].pass, unit);
    i := RecordFromFailure(r, unit, j);
  }
}
