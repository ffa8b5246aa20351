/** Exactly which units a pass of the health loop restarts, and how it reports the others
    (pkg/health/health.go:87-282, pkg/config/categories.go:162-215). */
module HealthExact {
  import opened Common
  import opened Paths
  import opened Units
  import opened UnitRecords
  import opened Health

  // ----- how a unit is seen

  predicate Active(st: UnitStatus) { st.activeState == "active" || st.activeState == "activating" }

  predicate AtRest(st: UnitStatus) {
    st.activeState == "inactive" || st.activeState == "deactivating" || st.activeState == "reloading"
    || st.activeState == "maintenance"
  }

  predicate Activator(unit: string) {
    HasSuffix(unit, ".timer") || HasSuffix(unit, ".socket") || HasSuffix(unit, ".target") || HasSuffix(unit, ".path")
  }

  /** systemd runs the one-shot job itself. */
  ghost predicate SystemdsJob(st: UnitStatus) {
    st.serviceType == "oneshot"
    && (st.unitFileState == "static" || exists t :: t in st.triggeredBy && HasSuffix(t, ".timer"))
  }

  /** The pass sees the unit broken: neither up nor at rest, and for picolet to restart. */
  ghost predicate Broken(unit: string, st: UnitStatus) {
    !Activator(unit) && !Active(st) && !AtRest(st) && !SystemdsJob(st)
  }

  // ----- whether it may be restarted, and when

  /** No build, manifest, data file or secret names the unit, and an image or artifact does only while a
      failed restart of the unit is pending. */
  ghost predicate MayRestart(f: Files, unit: string, pending: bool) {
    forall path | path in f.serviceNames && f.serviceNames[path] == unit ::
      && CategoryOf(f, path) !in ["build", "manifest", "file", "secret"]
      && (CategoryOf(f, path) in ["image", "artifact"] ==> pending)
  }

  /** No restart within five minutes, in this process or on record. */
  predicate CooledDown(m: Memory, now: nat) {
    && (m.last.Some? ==> now - m.last.value >= 300_000_000_000)
    && (m.pending.Some? && m.pending.value.lastAttemptAt > 0 ==>
          now - m.pending.value.lastAttemptAt >= 300_000_000_000)
  }

  lemma AllowsExact(category: string, pending: bool)
    ensures AllowsRestart(category, pending) <==>
            category !in ["build", "manifest", "file", "secret"] && (category in ["image", "artifact"] ==> pending)
  {
  }

  lemma RestartableExact(f: Files, unit: string, pending: bool)
    ensures Restartable(f, unit, pending) <==> MayRestart(f, unit, pending)
  {
    forall path | path in f.serviceNames
      ensures AllowsRestart(CategoryOf(f, path), pending) <==>
              CategoryOf(f, path) !in ["build", "manifest", "file", "secret"]
              && (CategoryOf(f, path) in ["image", "artifact"] ==> pending)
    {
      AllowsExact(CategoryOf(f, path), pending);
    }
  }

  lemma SeenExact(unit: string, st: UnitStatus)
    ensures Up(st) <==> Active(st)
    ensures Resting(st) <==> AtRest(st)
    ensures IsPassiveUnit(unit) <==> Activator(unit)
    ensures ExternallyActivated(st) <==> SystemdsJob(st)
  {
    if t :| t in st.triggeredBy && HasSuffix(t, ".timer") {
      assert IsTimerUnit(t);
    }
  }

  lemma CooldownExact(m: Memory, now: nat)
    ensures var restored := Restore(m);
            (restored.last.Some? && now - restored.last.value < RESTART_COOLDOWN) <==> !CooledDown(m, now)
    ensures Restore(m).pending == m.pending
  {
  }

  /** The pass attempts to restart the unit. */
  ghost predicate Due(unit: string, m: Memory, f: Files, pass: Pass) {
    && pass.query(unit).Some? && Broken(unit, pass.query(unit).value)
    && MayRestart(f, unit, m.pending.Some?) && CooledDown(m, pass.checkedAt(unit))
  }

  /** A pass attempts to restart a unit exactly when it sees it broken, its files allow it, and no
      restart is within five minutes. */
  lemma AttemptExact(unit: string, m: Memory, f: Files, pass: Pass, sha: string)
    ensures var v := EnforceOne(unit, m, f, pass, sha).1;
            && (Attempted(v) <==> Due(unit, m, f, pass))
            && (v.Restarted? <==> Due(unit, m, f, pass) && pass.restartOk(unit))
  {
    CooldownExact(m, pass.checkedAt(unit));
    RestartableExact(f, unit, m.pending.Some?);
    if pass.query(unit).Some? {
      SeenExact(unit, pass.query(unit).value);
    }
  }

  /** What an attempt leaves in memory: its time, and when it failed the record counted once more, at the
      whole second. */
  lemma AttemptRemembered(unit: string, m: Memory, f: Files, pass: Pass, sha: string)
    requires Due(unit, m, f, pass)
    ensures var n, now := EnforceOne(unit, m, f, pass, sha).0, pass.attemptAt(unit);
            var second, was := now - now % 1_000_000_000, if m.pending.Some? then m.pending.value
              else PendingUnit("", 0, 0, 0);
            && n.last == Some(now)
            && n.pending ==
               if pass.restartOk(unit) then m.pending
               else Some(PendingUnit(sha, was.attempts + 1, if was.firstFailedAt == 0 then second
                 else was.firstFailedAt, second))
  {
    AttemptExact(unit, m, f, pass, sha);
    CooldownExact(m, pass.checkedAt(unit));
    RestartableExact(f, unit, m.pending.Some?);
    SeenExact(unit, pass.query(unit).value);
  }

  // ----- what a whole pass reports

  /** How a verdict is listed. */
  lemma VerdictListed(unit: string, m: Memory, f: Files, pass: Pass, sha: string)
    ensures var v, q := EnforceOne(unit, m, f, pass, sha).1, pass.query(unit);
            && (v.IsHealthy? || v.PassiveHealthy? <==> q.Some? && Active(q.value))
            && (v.IsInactive? || v.PassiveInactive?
                <==> q.Some? && !Active(q.value) && (Activator(unit) || AtRest(q.value)))
  {
    if pass.query(unit).Some? {
      SeenExact(unit, pass.query(unit).value);
    }
  }

  lemma ListedNext(r: CheckResult, unit: string, v: Verdict, u: string)
    ensures var s := AddVerdict(r, unit, v);
            && (u in s.healthy <==> u in r.healthy || (u == unit && (v.IsHealthy? || v.PassiveHealthy?)))
            && (u in s.inactive <==> u in r.inactive || (u == unit && (v.IsInactive? || v.PassiveInactive?)))
            && (u in s.restarted <==> u in r.restarted || (u == unit && v.Restarted?))
            && (u in s.unhealthy <==>
                u in r.unhealthy || (u == unit && (v.LeftAlone? || v.Skipped? || v.Restarted? || v.RestartFailed?)))
  {
  }

  /** The report of a pass: up is healthy, at rest or a quiet activator inactive, anything else that
      answered unhealthy; and restarted are the units due whose restart succeeded. */
  lemma {:induction false} ReportExact(
    units: seq<string>, last: map<string, nat>, pending: PendingUnits, f: Files, pass: Pass, sha: string, u: string)
    ensures var r, q, m := Judge(units, last, pending, f, pass, sha), pass.query(u), MemoryOf(last, pending, u);
            && (u in r.healthy <==> u in units && q.Some? && Active(q.value))
            && (u in r.inactive <==> u in units && q.Some? && !Active(q.value) && (Activator(u) || AtRest(q.value)))
            && (u in r.unhealthy <==> u in units && q.Some? && !Active(q.value) && !Activator(u) && !AtRest(q.value))
            && (u in r.restarted <==> u in units && Due(u, m, f, pass) && pass.restartOk(u))
  {
    if units != [] {
      var n, unit := |units| - 1, units[|units| - 1];
      var m := MemoryOf(last, pending, unit);
      ReportExact(units[..n], last, pending, f, pass, sha, u);
      assert units == units[..n] + [unit];
      var v := EnforceOne(unit, m, f, pass, sha).1;
      VerdictListed(unit, m, f, pass, sha);
      AttemptExact(unit, m, f, pass, sha);
      VerdictKinds(unit, m, f, pass, sha);
      ListedNext(Judge(units[..n], last, pending, f, pass, sha), unit, v, u);
    }
  }

  lemma VerdictKinds(unit: string, m: Memory, f: Files, pass: Pass, sha: string)
    ensures EnforceOne(unit, m, f, pass, sha).1.CheckFailed? <==> pass.query(unit).None?
  {
  }

  /** A daemon that failed and has not been restarted within five minutes is restarted, whether or not a
      failed restart of it is on record. */
  lemma FailedDaemonRestarted(
    managed: seq<string>, last: map<string, nat>, pending: PendingUnits, f: Files, pass: Pass, sha: string,
      unit: string)
    requires unit in managed && !Activator(unit) && pass.query(unit).Some?
    requires pass.query(unit).value.activeState == "failed" && pass.query(unit).value.serviceType != "oneshot"
    requires forall path | path in f.serviceNames && f.serviceNames[path] == unit ::
               CategoryOf(f, path) in ["network", "volume", "container", "kube", "pod", "systemd"]
    requires unit in last ==> pass.checkedAt(unit) - last[unit] >= 300_000_000_000
    requires unit in pending ==> pass.checkedAt(unit) - pending[unit].lastAttemptAt >= 300_000_000_000
    ensures Attempted(EnforceOne(unit, MemoryOf(last, pending, unit), f, pass, sha).1)
    ensures unit in Judge(managed, last, pending, f, pass, sha).restarted <==> pass.restartOk(unit)
  {
    ReportExact(managed, last, pending, f, pass, sha, unit);
    AttemptExact(unit, MemoryOf(last, pending, unit), f, pass, sha);
  }
}
