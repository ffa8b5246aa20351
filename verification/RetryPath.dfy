/** Which failed restarts of an apply the health loop retries (pkg/agent/agent.go:985-1077, 1248-1278,
    pkg/health/health.go:130-215). */
module RetryPath {
  import opened Common
  import opened Units
  import opened UnitRecords
  import opened Health
  import Restarts
  import Disposal
  import Hooks
  import HookRestarts

  // ----- one failed unit

  /** The managed files after the apply. */
  function FilesAfter(cs: seq<Change>): Files { Files(ServiceNamesOf(cs), CategoriesOf(cs)) }

  /** The pass sees the unit failed, and not as an activator or a job that systemd runs itself. */
  predicate SeenFailed(pass: Pass, unit: string) {
    && pass.query(unit).Some? && !IsPassiveUnit(unit)
    && !Up(pass.query(unit).value) && !Resting(pass.query(unit).value)
    && !ExternallyActivated(pass.query(unit).value)
  }

  /** A build, or a file that generates no unit of its own. */
  predicate NeverRetried(category: string) { category in ["build", "manifest", "file", "secret"] }

  lemma NeverRetriedExact(category: string)
    ensures AllowsRestart(category, true) <==> !NeverRetried(category)
  {
  }

  /** The file behind a path of the state, with the category the state records for it. */
  lemma FileBehind(cs: seq<Change>, path: string) returns (c: Change)
    requires DistinctPaths(cs) && path in ServiceNamesOf(cs)
    ensures c in cs && NamesUnit(c) && c.destPath == path && c.serviceName == ServiceNamesOf(cs)[path]
    ensures CategoryOf(FilesAfter(cs), path) == c.category
  {
    ServiceNamesExact(cs);
    c :| c in cs && NamesUnit(c) && c.destPath == path;
    CategoriesExact(cs, c);
  }

  /** A pending unit is restartable exactly when no file of such a category names it. */
  lemma RestartableExact(cs: seq<Change>, unit: string)
    requires DistinctPaths(cs)
    ensures Restartable(FilesAfter(cs), unit, true)
            <==> forall c | c in cs && NamesUnit(c) && c.serviceName == unit :: !NeverRetried(c.category)
  {
    var f := FilesAfter(cs);
    if forall c | c in cs && NamesUnit(c) && c.serviceName == unit :: !NeverRetried(c.category) {
      forall path | path in f.serviceNames && f.serviceNames[path]
        == unit ensures AllowsRestart(CategoryOf(f, path), true) {
        var c := FileBehind(cs, path);
        NeverRetriedExact(c.category);
      }
    } else {
      var c :| c in cs && NamesUnit(c) && c.serviceName == unit && NeverRetried(c.category);
      ServiceNamesExact(cs);
      CategoriesExact(cs, c);
      NeverRetriedExact(c.category);
      assert f.serviceNames[c.destPath] == unit;
    }
  }

  /** No file that is never retried names the unit. */
  predicate RetriedFiles(cs: seq<Change>, unit: string) {
    forall c | c in cs && NamesUnit(c) && c.serviceName == unit :: !NeverRetried(c.category)
  }

  /** The pending units after the apply. */
  function PendingAfter(
    cs: seq<Change>, before: PendingUnits, restarted: seq<string>, failed: seq<string>, sha: string,
      now: nat): PendingUnits
  {
    Prune(Merge(before, restarted, failed, sha, now), ServiceNamesOf(cs))
  }

  /** What the health loop makes of a unit behind an incomplete apply, in whatever state the next pass
      finds it. Without an answer the record is kept. With one, the pass restarts the unit, or waits its
      cooldown out, and keeps a record, exactly when it sees the unit failed, not as a job systemd runs
      itself, and no build and no file without a unit names it. Otherwise it restarts nothing and
      the record is gone. */
  lemma FailureRetriedExact(
    cs: seq<Change>, before: PendingUnits, restarted: seq<string>, failed: seq<string>, sha: string, now: nat,
    unit: string, last: map<string, nat>, pass: Pass)
    requires DistinctPaths(cs) && Distinct(failed) && Blocks(cs, failed, unit)
    ensures var after := PendingAfter(cs, before, restarted, failed, sha, now);
            var (m, v) := EnforceOne(unit, MemoryOf(last, after, unit), FilesAfter(cs), pass, sha);
            && unit in after
            && if pass.query(unit).None? then v.CheckFailed? && m.pending == Some(after[unit])
               else if SeenFailed(pass, unit) && RetriedFiles(cs, unit) then (Attempted(v) || v.Skipped?)
                 && m.pending.Some?
               else !Attempted(v) && !v.Skipped? && m.pending.None?
  {
    IncompleteApplyIsRecorded(cs, before, restarted, failed, sha, now, unit);
    RestartableExact(cs, unit);
  }

  // ----- a failure without a retry

  /** A triggered build that is a consumer of another and fails as one: recorded as restarted and as
      failed, it loses the failures counted before, and the next pass that sees it failed drops what is
      left and restarts nothing. */
  lemma BuildLosesRetry(
    r: Disposal.Run, cs: seq<Change>, c: Change, before: PendingUnits, sha: string, now: nat, last: map<string, nat>,
      pass: Pass)
    requires Restarts.Lists(r.sort) && DistinctPaths(cs) && c in cs && NamesUnit(c) && c.category == "build"
    requires var unit := c.serviceName;
             && unit in r.p.builds && unit in r.Consumers() && unit !in r.self && Disposal.FailsAsConsumer(r, unit)
             && SeenFailed(pass, unit)
    ensures var unit, restarted, failed := c.serviceName, Disposal.RestartedUnits(r), r.Trace().failed;
            var after := PendingAfter(cs, before, restarted, failed, sha, now);
            var (m, v) := EnforceOne(unit, MemoryOf(last, after, unit), FilesAfter(cs), pass, sha);
            && unit in restarted && unit in failed && Blocks(cs, failed, unit)
            && unit in after && after[unit].attempts == 1
            && v.LeftAlone? && m.pending.None?
  {
    var unit, restarted, failed := c.serviceName, Disposal.RestartedUnits(r), r.Trace().failed;
    Disposal.BuildRecorded(r, unit);
    Disposal.OnceAfterBuilds(r);
    NotRetried(cs, c, before, restarted, failed, sha, now, last, pass);
  }

  /** A unit of a build, recorded as restarted and as failed. */
  lemma NotRetried(
    cs: seq<Change>, c: Change, before: PendingUnits, restarted: seq<string>, failed: seq<string>, sha: string,
      now: nat,
    last: map<string, nat>, pass: Pass)
    requires DistinctPaths(cs) && Distinct(failed) && c in cs && NamesUnit(c) && c.category == "build"
    requires c.serviceName in restarted && c.serviceName in failed && SeenFailed(pass, c.serviceName)
    ensures var unit, after := c.serviceName, PendingAfter(cs, before, restarted, failed, sha, now);
            var (m, v) := EnforceOne(unit, MemoryOf(last, after, unit), FilesAfter(cs), pass, sha);
            && Blocks(cs, failed, unit) && unit in after && after[unit].attempts == 1 && v.LeftAlone? && m.pending.None?
  {
    IncompleteApplyIsRecorded(cs, before, restarted, failed, sha, now, c.serviceName);
    FailureRetriedExact(cs, before, restarted, failed, sha, now, c.serviceName, last, pass);
  }

  /** Such an apply: app-build is built from the image of base-build, and its restart fails. */
  lemma BuildOfBuildFails(env: Restarts.Env, sort: set<string> -> seq<string>)
    requires env.query("app-build.service") == Some(UnitStatus("inactive", "", [], "oneshot"))
             && !env.restartOk("app-build.service")
    ensures var unit := "app-build.service";
            var p := Restarts.Phase({}, {}, map[], map[], [], [unit, "base-build.service"], [], true);
            var r := Disposal.Run(p, map[unit := Restarts.UnitDeps(["base-build.service"], [])], {}, [], env, sort);
            unit in r.p.builds && unit in r.Consumers() && unit !in r.self && Disposal.FailsAsConsumer(r, unit)
  {
    var unit := "app-build.service";
    var p := Restarts.Phase({}, {}, map[], map[], [], [unit, "base-build.service"], [], true);
    var deps := map[unit := Restarts.UnitDeps(["base-build.service"], [])];
    assert "base-build.service" in p.builds && "base-build.service" in deps[unit].needs && unit in p.builds;
  }

  /** A unit restarted the ordinary way whose restart fails, and which the next pass sees as a job that
      systemd runs itself: its record is dropped, nothing restarted. */
  lemma TriggeredJobLosesRetry(
    r: Disposal.Run, cs: seq<Change>, c: Change, before: PendingUnits, sha: string, now: nat, last: map<string, nat>,
      pass: Pass)
    requires Restarts.Lists(r.sort) && DistinctPaths(cs) && c in cs && NamesUnit(c)
    requires var unit := c.serviceName;
             && unit in r.Ordinary() && unit !in r.self && !r.Gated(unit) && !r.env.restartOk(unit)
             && pass.query(unit).Some? && ExternallyActivated(pass.query(unit).value)
    ensures var unit, failed := c.serviceName, r.Trace().failed;
            var after := PendingAfter(cs, before, Disposal.RestartedUnits(r), failed, sha, now);
            var (m, v) := EnforceOne(unit, MemoryOf(last, after, unit), FilesAfter(cs), pass, sha);
            && Blocks(cs, failed, unit) && unit in after && !Attempted(v) && !v.Skipped? && m.pending.None?
  {
    var unit := c.serviceName;
    Disposal.TurnRecorded(r, unit);
    Disposal.OnceAfterBuilds(r);
    FailureRetriedExact(cs, before, Disposal.RestartedUnits(r), r.Trace().failed, sha, now, unit, last, pass);
  }

  /** Such an apply: a restart hook names a timer's job that the commit did not write, so it is not known
      as a one-shot, and its restart fails. */
  lemma HookRestartsTimersJob(henv: Hooks.Env, env: Restarts.Env, sort: set<string> -> seq<string>)
    requires !env.restartOk("backup.service")
    ensures var unit, h := "backup.service", HookRestarts.RestartHook("rotate", "backup-key", "backup.service");
            var p := Restarts.Phase({}, {}, map[], map[], [], [], [], false);
            var c := Hooks.Changed({"backup-key"}, {}, {});
            var s := HookRestarts.PassFor(p, [h], c, [], henv);
            var r := Disposal.Run(HookRestarts.AfterHooks(p, s), map[], {}, [], env, sort);
            unit in r.Ordinary() && unit !in r.self && !r.Gated(unit) && !r.env.restartOk(unit)
  {
    var h := HookRestarts.RestartHook("rotate", "backup-key", "backup.service");
    assert "backup-key" in h.secrets;
    HookRestarts.OneRestartHook(h, Hooks.Changed({"backup-key"}, {}, {}), {}, henv);
  }

  /** A consumer of a rebuilt image whose status cannot be read is recorded as failed without any restart
      call; the next pass that finds it up, on its old image, clears the record. */
  lemma UnreadConsumerLosesRetry(
    r: Disposal.Run, cs: seq<Change>, c: Change, before: PendingUnits, sha: string, now: nat, last: map<string, nat>,
      pass: Pass)
    requires Restarts.Lists(r.sort) && DistinctPaths(cs) && c in cs && NamesUnit(c)
    requires var unit := c.serviceName;
             && unit in r.Consumers() && unit !in r.self && r.env.query(unit).None?
             && pass.query(unit).Some? && Up(pass.query(unit).value)
    ensures var unit, failed := c.serviceName, r.Trace().failed;
            var after := PendingAfter(cs, before, Disposal.RestartedUnits(r), failed, sha, now);
            var (m, v) := EnforceOne(unit, MemoryOf(last, after, unit), FilesAfter(cs), pass, sha);
            && HookRestarts.RestartCalls(r, unit) == 0 && Blocks(cs, failed, unit) && unit in after
            && (v.IsHealthy? || v.PassiveHealthy?) && m.pending.None?
  {
    var unit := c.serviceName;
    Disposal.TurnRecorded(r, unit);
    Disposal.OnceAfterBuilds(r);
    Disposal.SyncRestartsExact(r, unit);
    Disposal.DeferredRestartsExact(r, unit);
    FailureRetriedExact(cs, before, Disposal.RestartedUnits(r), r.Trace().failed, sha, now, unit, last, pass);
  }

  /** Such an apply: systemd does not answer for the consumer of the rebuilt image. */
  lemma ConsumerUnread(env: Restarts.Env, sort: set<string> -> seq<string>)
    requires env.query("app.service").None?
    ensures var p := Restarts.Phase({}, {}, map[], map[], [], ["app-build.service"], [], true);
            var deps := map["app.service" := Restarts.UnitDeps(["app-build.service"], [])];
            var r := Disposal.Run(p, deps, {}, [], env, sort);
            "app.service" in r.Consumers() && "app.service" !in r.self && r.env.query("app.service").None?
  {
    var p := Restarts.Phase({}, {}, map[], map[], [], ["app-build.service"], [], true);
    var deps := map["app.service" := Restarts.UnitDeps(["app-build.service"], [])];
    assert "app-build.service" in p.builds && "app-build.service" in deps["app.service"].needs;
  }
}
