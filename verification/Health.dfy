/** The health loop (pkg/health/health.go): one pass over the managed units, restarting failed ones
    under a cooldown and keeping the pending records. */
module Health {
  import opened Common
  import opened Units
  import opened UnitRecords

  const RESTART_COOLDOWN := 5 * 60 * SECOND

  // ----- the category table (pkg/config/categories.go)

  datatype HealthClass = HealthNone | HealthDaemon | HealthReportOnly
  datatype RestartPolicy = RestartNone | RestartChanged | RestartActivate | RestartRebuild
  datatype Spec = Spec(health: HealthClass, restart: RestartPolicy)

  function SpecFor(category: string): Option<Spec> {
    if category in ["network", "volume", "container", "kube", "pod"] then Some(Spec(HealthDaemon, RestartChanged))
    else if category == "systemd" then Some(Spec(HealthDaemon, RestartActivate))
    else if category in ["image", "artifact"] then Some(Spec(HealthReportOnly, RestartChanged))
    else if category == "build" then Some(Spec(HealthReportOnly, RestartRebuild))
    else if category in ["manifest", "file", "secret"] then Some(Spec(HealthNone, RestartNone))
    else None
  }

  // ----- one unit

  /** The managed files: path to unit and path to category. */
  datatype Files = Files(serviceNames: map<string, string>, categories: map<string, string>)

  function Managed(f: Files): set<string> { set u | u in f.serviceNames.Values && u != "" }

  function CategoryOf(f: Files, path: string): string {
    if path in f.categories then f.categories[path] else ""
  }

  /** The file of that category may be restarted by the health loop. */
  predicate AllowsRestart(category: string, applyPending: bool) {
    match SpecFor(category)
    case None => true
    case Some(spec) =>
      spec.health.HealthDaemon? || (spec.health.HealthReportOnly? && applyPending && spec.restart.RestartChanged?)
  }

  /** restartableByHealth. */
  predicate Restartable(f: Files, unit: string, applyPending: bool) {
    forall path | path in f.serviceNames ::
        f.serviceNames[path] == unit ==> AllowsRestart(CategoryOf(f, path), applyPending)
  }

  /** How systemd answers in one pass, and when each unit is looked at: the cooldown is checked at
      `checkedAt`, the restart then issued and its time taken at `attemptAt`. */
  datatype Pass = Pass(
    query: string -> Option<UnitStatus>, restartOk: string -> bool, checkedAt: string -> nat, attemptAt: string -> nat)

  /** What the loop remembers of a unit: its last restart in this process, and its pending record. */
  datatype Memory = Memory(last: Option<nat>, pending: Option<PendingUnit>)

  datatype Verdict =
    | CheckFailed | PassiveHealthy | PassiveInactive | IsHealthy | IsInactive
    | LeftAlone | Skipped | Restarted | RestartFailed

  predicate Attempted(v: Verdict) { v.Restarted? || v.RestartFailed? }

  predicate Up(s: UnitStatus) { s.activeState in ["active", "activating"] }

  predicate Resting(s: UnitStatus) { s.activeState in ["inactive", "deactivating", "reloading", "maintenance"] }

  /** The cooldown restored from a pending record, as after an Agent restart. */
  function Restore(m: Memory): Memory {
    if m.pending.Some? && m.pending.value.lastAttemptAt > (if m.last.Some? then m.last.value else 0)
    then m.(last := Some(m.pending.value.lastAttemptAt))
    else m
  }

  /** maybeRestart. */
  function MaybeRestart(unit: string, m: Memory, pass: Pass, sha: string): (Memory, Verdict) {
    if m.last.Some? && pass.checkedAt(unit) - m.last.value < RESTART_COOLDOWN then (m, Skipped)
    else
      var now := pass.attemptAt(unit);
      if pass.restartOk(unit) then (m.(last := Some(now)), Restarted)
      else
        var pu := if m.pending.Some? then m.pending.value else PendingUnit("", 0, 0, 0);
        (Memory(Some(now), Some(FailedAgain(pu, sha, Truncate(now)))), RestartFailed)
  }

  /** enforceUnit. */
  function EnforceUnit(unit: string, m: Memory, f: Files, pass: Pass, sha: string): (Memory, Verdict) {
    match pass.query(unit)
    case None => (m, CheckFailed)
    case Some(s) =>
      if IsPassiveUnit(unit) then (m.(pending := None), if Up(s) then PassiveHealthy else PassiveInactive)
      else if Up(s) then (m.(pending := None), IsHealthy)
      else if Resting(s) then (m.(pending := None), IsInactive)
      else if ExternallyActivated(s) || !Restartable(f, unit, m.pending.Some?) then (m.(pending := None), LeftAlone)
      else MaybeRestart(unit, m, pass, sha)
  }

  function EnforceOne(unit: string, m: Memory, f: Files, pass: Pass, sha: string): (Memory, Verdict) {
    EnforceUnit(unit, Restore(m), f, pass, sha)
  }

  // ----- all units

  function Lookup<V>(m: map<string, V>, key: string): Option<V> { if key in m then Some(m[key]) else None }

  function MemoryOf(last: map<string, nat>, pending: PendingUnits, unit: string): Memory {
    Memory(Lookup(last, unit), Lookup(pending, unit))
  }

  /** The memory after a pass: that of each managed unit by itself, nothing of any other. */
  ghost predicate Enforced(
    before: map<string, nat>, pendingBefore: PendingUnits, after: map<string, nat>, pendingAfter: PendingUnits,
                           f: Files, pass: Pass, sha: string) {
    forall u ::
      MemoryOf(after, pendingAfter, u) ==
        if u in Managed(f) then EnforceOne(u, MemoryOf(before, pendingBefore, u), f, pass, sha).0
          else Memory(None, None)
  }

  /** CheckResult, of the counts AllFailed reads and the units restarted. */
  datatype CheckResult = CheckResult(
    healthy: seq<string>, unhealthy: seq<string>, inactive: seq<string>, restarted: seq<string>, errors: nat)

  function AllFailed(r: CheckResult): bool {
    var total := |r.healthy| + |r.unhealthy| + |r.inactive| + r.errors;
    total > 0 && r.errors == total
  }

  function AddVerdict(r: CheckResult, unit: string, v: Verdict): CheckResult {
    match v
    case CheckFailed => r.(errors := r.errors + 1)
    case PassiveHealthy | IsHealthy => r.(healthy := r.healthy + [unit])
    case PassiveInactive | IsInactive => r.(inactive := r.inactive + [unit])
    case LeftAlone => r.(unhealthy := r.unhealthy + [unit])
    case Skipped => r.(unhealthy := r.unhealthy + [unit])
    case Restarted => r.(unhealthy := r.unhealthy + [unit], restarted := r.restarted + [unit])
    case RestartFailed => r.(unhealthy := r.unhealthy + [unit], errors := r.errors + 1)
  }

  /** The result of the units visited, each judged by what was remembered of it before the pass. */
  function Judge(
    units: seq<string>, last: map<string, nat>, pending: PendingUnits, f: Files, pass: Pass, sha: string): CheckResult {
    if units == [] then CheckResult([], [], [], [], 0)
    else
      var n, u := |units| - 1, units[|units| - 1];
      AddVerdict(Judge(units[..n], last, pending, f, pass, sha), u,
        EnforceOne(u, MemoryOf(last, pending, u), f, pass, sha).1)
  }

  /** The units once each, in some order. */
  ghost predicate Enumerates(units: seq<string>, s: set<string>) {
    (forall u :: u in units <==> u in s) && forall i, j | 0 <= i < j < |units| :: units[i] != units[j]
  }

  class Checker {
    var lastRestart: map<string, nat>

    constructor ()
      ensures lastRestart == map[]
    {
      lastRestart := map[];
    }

    /** The first loop of Enforce: restarts of units no longer managed are forgotten. */
    method ForgetUnmanaged(managed: set<string>)
      modifies this
      ensures lastRestart == map u | u in old(lastRestart) && u in managed :: old(lastRestart)[u]
    {
      var units := lastRestart.Keys;
      while units != {}
        invariant units <= old(lastRestart).Keys
        invariant lastRestart == map u | u in old(lastRestart) && (u in units || u in managed) :: old(lastRestart)[u]
        decreases units
      {
        var u :| u in units;
        if u !in managed {
          lastRestart := lastRestart - {u};
        }
        units := units - {u};
      }
    }

    /** The second loop: the record of a unit no longer managed is dropped, and the cooldown of the
        others restored from theirs. */
    method RestoreFromRecords(st: State, managed: set<string>)
      requires lastRestart.Keys <= managed
      modifies this, st`pendingUnits
      ensures forall u :: MemoryOf(lastRestart, st.pendingUnits, u) ==
                          if u in managed then Restore(MemoryOf(old(lastRestart), old(st.pendingUnits), u))
                            else Memory(None, None)
    {
      var units := st.pendingUnits.Keys;
      while units != {}
        invariant units <= old(st.pendingUnits).Keys
        invariant st.pendingUnits == map u | u in old(st.pendingUnits) && (u in units || u in managed) ::
                    old(st.pendingUnits)[u]
        invariant forall u :: Lookup(lastRestart, u) ==
                              if u in units || u !in managed then Lookup(old(lastRestart), u)
                              else Restore(MemoryOf(old(lastRestart), old(st.pendingUnits), u)).last
        decreases units
      {
        var u :| u in units;
        if u !in managed {
          st.pendingUnits := st.pendingUnits - {u};
        } else if st.pendingUnits[u].lastAttemptAt > (if u in lastRestart then lastRestart[u] else 0) {
          lastRestart := lastRestart[u := st.pendingUnits[u].lastAttemptAt];
        }
        units := units - {u};
      }
    }

    /** What is remembered of units no longer managed is dropped, and the cooldown of the others
        restored. */
    method RestoreCooldowns(st: State, managed: set<string>)
      modifies this, st`pendingUnits
      ensures forall u :: MemoryOf(lastRestart, st.pendingUnits, u) ==
                          if u in managed then Restore(MemoryOf(old(lastRestart), old(st.pendingUnits), u))
                            else Memory(None, None)
    {
      ForgetUnmanaged(managed);
      RestoreFromRecords(st, managed);
    }

    /** enforceUnit, with maybeRestart: only this unit's memory changes. */
    method EnforceOneUnit(unit: string, st: State, pass: Pass, result: CheckResult) returns (r: CheckResult)
      modifies this, st`pendingUnits
      ensures var (m, v) := EnforceUnit(unit, MemoryOf(old(lastRestart), old(st.pendingUnits), unit),
                                        Files(st.serviceNames, st.categories), pass, st.appliedSHA);
              && r == AddVerdict(result, unit, v)
              && forall u :: MemoryOf(lastRestart, st.pendingUnits, u) ==
                             if u == unit then m else MemoryOf(old(lastRestart), old(st.pendingUnits), u)
    {
      var f := Files(st.serviceNames, st.categories);
      var status := pass.query(unit);
      if status.None? {
        return AddVerdict(result, unit, CheckFailed);
      }
      var s := status.value;
      if IsPassiveUnit(unit) {
        st.pendingUnits := st.pendingUnits - {unit};
        return AddVerdict(result, unit, if Up(s) then PassiveHealthy else PassiveInactive);
      }
      if Up(s) {
        st.pendingUnits := st.pendingUnits - {unit};
        return AddVerdict(result, unit, IsHealthy);
      }
      if Resting(s) {
        st.pendingUnits := st.pendingUnits - {unit};
        return AddVerdict(result, unit, IsInactive);
      }
      if ExternallyActivated(s) || !Restartable(f, unit, unit in st.pendingUnits) {
        st.pendingUnits := st.pendingUnits - {unit};
        return AddVerdict(result, unit, LeftAlone);
      }
      if unit in lastRestart && pass.checkedAt(unit) - lastRestart[unit] < RESTART_COOLDOWN {
        return AddVerdict(result, unit, Skipped);
      }
      var now := pass.attemptAt(unit);
      lastRestart := lastRestart[unit := now];
      if !pass.restartOk(unit) {
        var record := FailedAgain(RecordOf(st.pendingUnits, unit), st.appliedSHA, Truncate(now));
        st.pendingUnits := st.pendingUnits[unit := record];
        return AddVerdict(result, unit, RestartFailed);
      }
      return AddVerdict(result, unit, Restarted);
    }

    /** Enforce; `managed` lists the state's units, sorted. */
    method Enforce(st: State, managed: seq<string>, pass: Pass) returns (r: CheckResult)
      requires Enumerates(managed, Managed(Files(st.serviceNames, st.categories)))
      modifies this, st`pendingUnits
      ensures var f := Files(st.serviceNames, st.categories);
              && Enforced(old(lastRestart), old(st.pendingUnits), lastRestart, st.pendingUnits, f, pass, st.appliedSHA)
              && r == Judge(managed, old(lastRestart), old(st.pendingUnits), f, pass, st.appliedSHA)
    {
      ghost var f := Files(st.serviceNames, st.categories);
      RestoreCooldowns(st, set u | u in managed);
      r := CheckResult([], [], [], [], 0);
      for i := 0 to |managed|
        invariant r == Judge(managed[..i], old(lastRestart), old(st.pendingUnits), f, pass, st.appliedSHA)
        invariant forall u :: MemoryOf(lastRestart, st.pendingUnits, u) ==
                              if u in managed[..i] then EnforceOne(u,
                                MemoryOf(old(lastRestart), old(st.pendingUnits), u), f, pass, st.appliedSHA).0
                              else if u in managed then Restore(MemoryOf(old(lastRestart), old(st.pendingUnits), u))
                              else Memory(None, None)
      {
        assert managed[..i + 1][..i] == managed[..i] && managed[..i + 1] == managed[..i] + [managed[i]];
        assert managed[i] !in managed[..i];
        r := EnforceOneUnit(managed[i], st, pass, r);
      }
      assert managed[..|managed|] == managed;
    }
  }

  // ----- what one pass guarantees

  lemma CheckFailedExact(unit: string, m: Memory, f: Files, pass: Pass, sha: string)
    ensures EnforceOne(unit, m, f, pass, sha).1.CheckFailed? <==> pass.query(unit).None?
  {
  }

  lemma AddVerdictCounts(r: CheckResult, unit: string, v: Verdict)
    ensures var s := AddVerdict(r, unit, v);
            var seen := |r.healthy| + |r.unhealthy| + |r.inactive|;
            |s.healthy| + |s.unhealthy| + |s.inactive| == seen + (if v.CheckFailed? then 0 else 1)
            && s.errors == r.errors + (if v.CheckFailed? || v.RestartFailed? then 1 else 0)
  {
  }

  lemma {:induction false} JudgeCounts(
    units: seq<string>, last: map<string, nat>, pending: PendingUnits, f: Files, pass: Pass, sha: string)
    ensures var r := Judge(units, last, pending, f, pass, sha);
            var seen := |r.healthy| + |r.unhealthy| + |r.inactive|;
            && (seen == 0 <==> forall u | u in units :: pass.query(u).None?)
            && (r.errors + seen == 0 <==> units == [])
            && (seen == 0 ==> r.errors == |units|)
  {
    if units != [] {
      JudgeCounts(units[..|units| - 1], last, pending, f, pass, sha);
      var u := units[|units| - 1];
      var v := EnforceOne(u, MemoryOf(last, pending, u), f, pass, sha).1;
      CheckFailedExact(u, MemoryOf(last, pending, u), f, pass, sha);
      AddVerdictCounts(Judge(units[..|units| - 1], last, pending, f, pass, sha), u, v);
      assert units == units[..|units| - 1] + [units[|units| - 1]];
    }
  }

  /** AllFailed is the sign of a dead bus: at least one unit is managed and no status query answered.
      Failed restarts count as errors, but their unit was seen unhealthy first. */
  lemma AllFailedExact(
    managed: seq<string>, last: map<string, nat>, pending: PendingUnits, f: Files, pass: Pass, sha: string)
    ensures AllFailed(Judge(managed, last, pending, f, pass, sha)) <==>
            managed != [] && forall u | u in managed :: pass.query(u).None?
  {
    JudgeCounts(managed, last, pending, f, pass, sha);
  }

  /** The health loop may retry the unit as it is seen. */
  ghost predicate Retried(unit: string, f: Files, pass: Pass, applyPending: bool) {
    pass.query(unit).Some? && !IsPassiveUnit(unit)
    && !Up(pass.query(unit).value) && !Resting(pass.query(unit).value)
    && !ExternallyActivated(pass.query(unit).value) && Restartable(f, unit, applyPending)
  }

  /** After a pass a unit is pending exactly when it is managed and either had a record that could
      not be checked, or is one the loop retries and had a record or just failed to restart. No
      record is left without a retry. */
  lemma PendingExact(
    before: map<string, nat>, pendingBefore: PendingUnits, after: map<string, nat>, pendingAfter: PendingUnits,
                     f: Files, pass: Pass, sha: string, unit: string)
    requires Enforced(before, pendingBefore, after, pendingAfter, f, pass, sha)
    ensures unit in pendingAfter <==>
            if pass.query(unit).None? then unit in Managed(f) && unit in pendingBefore
            else
              && unit in Managed(f) && Retried(unit, f, pass, unit in pendingBefore)
              && (unit in pendingBefore
                  || EnforceOne(unit, MemoryOf(before, pendingBefore, unit), f, pass, sha).1.RestartFailed?)
  {
    assert MemoryOf(after, pendingAfter, unit).pending.Some? <==> unit in pendingAfter;
    assert MemoryOf(before, pendingBefore, unit).pending.Some? <==> unit in pendingBefore;
  }
}
