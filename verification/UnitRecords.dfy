/** What the Agent's state records of managed units and of failed restarts (pkg/agent/agent.go,
    pkg/state/state.go). */
module UnitRecords {
  import opened Common

  const SECOND := 1_000_000_000

  /** time.Truncate(time.Second); instants are nanoseconds, 0 the zero time. */
  function Truncate(t: nat): nat { t - t % SECOND }

  datatype PendingUnit = PendingUnit(sha: string, attempts: int, firstFailedAt: nat, lastAttemptAt: nat)

  type PendingUnits = map<string, PendingUnit>

  function RecordOf(p: PendingUnits, unit: string): PendingUnit {
    if unit in p then p[unit] else PendingUnit("", 0, 0, 0)
  }

  /** A record with one more failed attempt, at the whole second `now`. */
  function FailedAgain(pu: PendingUnit, sha: string, now: nat): PendingUnit {
    PendingUnit(sha, pu.attempts + 1, if pu.firstFailedAt == 0 then now else pu.firstFailedAt, now)
  }

  /** The failures counted one after the other. */
  function CountFailed(p: PendingUnits, failed: seq<string>, sha: string, now: nat): PendingUnits {
    if failed == [] then p
    else
      var n, u := |failed| - 1, failed[|failed| - 1];
      var m := CountFailed(p, failed[..n], sha, now);
      m[u := FailedAgain(RecordOf(m, u), sha, now)]
  }

  /** mergePendingUnits: cleanly restarted units are dropped, failed ones added or counted again. */
  function Merge(
    before: PendingUnits, restarted: seq<string>, failed: seq<string>, sha: string, now: nat): PendingUnits
  {
    CountFailed(map u | u in before && u !in restarted :: before[u], failed, sha, Truncate(now))
  }

  method MergePendingUnits(before: PendingUnits, restarted: seq<string>, failed: seq<string>, sha: string, now: nat)
    returns (merged: PendingUnits)
    ensures merged == Merge(before, restarted, failed, sha, now)
  {
    if |before| == 0 && |failed| == 0 {
      return map[];
    }
    var second := Truncate(now);
    merged := before;
    for i := 0 to |restarted|
      invariant merged == map u | u in before && u !in restarted[..i] :: before[u]
    {
      assert restarted[..i + 1] == restarted[..i] + [restarted[i]];
      merged := merged - {restarted[i]};
    }
    assert restarted[..|restarted|] == restarted;
    ghost var kept := merged;
    for i := 0 to |failed|
      invariant merged == CountFailed(kept, failed[..i], sha, second)
    {
      assert failed[..i + 1][..i] == failed[..i];
      merged := merged[failed[i] := FailedAgain(RecordOf(merged, failed[i]), sha, second)];
    }
    assert failed[..|failed|] == failed;
  }

  lemma {:induction false} CountFailedExact(p: PendingUnits, failed: seq<string>, sha: string, now: nat)
    requires Distinct(failed)
    ensures var m := CountFailed(p, failed, sha, now);
            && (forall u :: u in m <==> u in p || u in failed)
            && (forall u | u in m :: m[u] == if u in failed then FailedAgain(RecordOf(p, u), sha, now) else p[u])
  {
    if failed != [] {
      CountFailedExact(p, failed[..|failed| - 1], sha, now);
      assert failed == failed[..|failed| - 1] + [failed[|failed| - 1]];
    }
  }

  /** prunePendingUnits. */
  function Prune(p: PendingUnits, serviceNames: map<string, string>): PendingUnits {
    map u | u in p && u in serviceNames.Values :: p[u]
  }

  method PrunePendingUnits(p: PendingUnits, serviceNames: map<string, string>) returns (kept: PendingUnits)
    ensures kept == Prune(p, serviceNames)
  {
    kept := p;
    var managed := serviceNames.Values;
    var units := p.Keys;
    while units != {}
      invariant units <= p.Keys
      invariant kept == map u | u in p && (u in units || u in managed) :: p[u]
      decreases units
    {
      var u :| u in units;
      if u !in managed {
        kept := kept - {u};
      }
      units := units - {u};
    }
  }

  // ----- the changeset

  datatype Action = Create | Update | Delete | Noop

  datatype Change = Change(destPath: string, category: string, action: Action, serviceName: string)

  ghost predicate DistinctPaths(cs: seq<Change>) {
    forall i, j | 0 <= i < j < |cs| :: cs[i].destPath != cs[j].destPath
  }

  predicate NamesUnit(c: Change) { !c.action.Delete? && c.serviceName != "" }

  /** What recordApply keeps of a unit's life. */
  class State {
    var appliedSHA: string
    var categories: map<string, string>     // ManagedFiles: path to category
    var serviceNames: map<string, string>   // path to unit
    var pendingUnits: PendingUnits

    constructor ()
      ensures appliedSHA == "" && categories == map[] && serviceNames == map[] && pendingUnits == map[]
    {
      appliedSHA, categories, serviceNames, pendingUnits := "", map[], map[], map[];
    }

    /** UpdateState. */
    method UpdateState(cs: seq<Change>)
      modifies this`categories, this`serviceNames
      ensures categories == CategoriesOf(cs) && serviceNames == ServiceNamesOf(cs)
    {
      categories, serviceNames := map[], map[];
      for i := 0 to |cs|
        invariant categories == CategoriesOf(cs[..i]) && serviceNames == ServiceNamesOf(cs[..i])
      {
        assert cs[..i + 1][..i] == cs[..i];
        if cs[i].action.Delete? {
          continue;
        }
        categories := categories[cs[i].destPath := cs[i].category];
        if cs[i].serviceName != "" {
          serviceNames := serviceNames[cs[i].destPath := cs[i].serviceName];
        }
      }
      assert cs[..|cs|] == cs;
    }

    /** recordApply, of the pending units. */
    method RecordApply(cs: seq<Change>, restarted: seq<string>, failed: seq<string>, sha: string, now: nat)
      modifies this`categories, this`serviceNames, this`pendingUnits
      ensures categories == CategoriesOf(cs) && serviceNames == ServiceNamesOf(cs)
      ensures pendingUnits == Prune(Merge(old(pendingUnits), restarted, failed, sha, now), serviceNames)
    {
      UpdateState(cs);
      var merged := MergePendingUnits(pendingUnits, restarted, failed, sha, now);
      pendingUnits := PrunePendingUnits(merged, serviceNames);
    }
  }

  function CategoriesOf(cs: seq<Change>): map<string, string> {
    if cs == [] then map[]
    else
      var n, c := |cs| - 1, cs[|cs| - 1];
      if c.action.Delete? then CategoriesOf(cs[..n]) else CategoriesOf(cs[..n])[c.destPath := c.category]
  }

  function ServiceNamesOf(cs: seq<Change>): map<string, string> {
    if cs == [] then map[]
    else
      var n, c := |cs| - 1, cs[|cs| - 1];
      if NamesUnit(c) then ServiceNamesOf(cs[..n])[c.destPath := c.serviceName] else ServiceNamesOf(cs[..n])
  }

  /** changesetUnitNames. */
  method ChangesetUnitNames(cs: seq<Change>) returns (names: set<string>)
    ensures forall u :: u in names <==> u != "" && exists c | c in cs :: !c.action.Delete? && c.serviceName == u
  {
    names := {};
    for i := 0 to |cs|
      invariant forall u ::
                  u in names <==> u != "" && exists c | c in cs[..i] :: !c.action.Delete? && c.serviceName == u
    {
      assert cs[..i + 1] == cs[..i] + [cs[i]];
      if NamesUnit(cs[i]) {
        names := names + {cs[i].serviceName};
      }
    }
    assert cs[..|cs|] == cs;
  }

  /** UpdateState records one unit per path, and no path twice. */
  lemma {:induction false} ServiceNamesExact(cs: seq<Change>)
    requires DistinctPaths(cs)
    ensures forall p ::
              p in ServiceNamesOf(cs)
              <==> exists c | c in cs :: !c.action.Delete? && c.serviceName != "" && c.destPath == p
    ensures forall c | c in cs && !c.action.Delete? && c.serviceName != "" ::
              c.destPath in ServiceNamesOf(cs) && ServiceNamesOf(cs)[c.destPath] == c.serviceName
  {
    if cs != [] {
      var n := |cs| - 1;
      ServiceNamesExact(cs[..n]);
      assert cs == cs[..n] + [cs[n]];
      forall c | c in cs[..n] ensures c.destPath != cs[n].destPath {
        var i :| 0 <= i < n && cs[i] == c;
      }
    }
  }

  /** The units the incomplete check counts as managed are exactly those the state just recorded
      counts as managed, so the two agree on which failures have a retry. */
  lemma ManagedAgree(cs: seq<Change>, unit: string)
    requires DistinctPaths(cs)
    ensures unit in ServiceNamesOf(cs).Values
            <==> unit != "" && exists c | c in cs :: !c.action.Delete? && c.serviceName == unit
  {
    ServiceNamesExact(cs);
    if unit in ServiceNamesOf(cs).Values {
      var p :| p in ServiceNamesOf(cs) && ServiceNamesOf(cs)[p] == unit;
      var c :| c in cs && NamesUnit(c) && c.destPath == p;
    }
    if c :| c in cs && !c.action.Delete? && c.serviceName == unit && unit != "" {
      assert ServiceNamesOf(cs)[c.destPath] == unit;
    }
  }

  /** applyIncompleteError: the failed units that keep an apply from being complete. */
  predicate Blocks(cs: seq<Change>, failed: seq<string>, unit: string) {
    unit in failed && unit != "" && exists c | c in cs :: !c.action.Delete? && c.serviceName == unit
  }

  /** The record of one failure more than `earlier`, at the instant `now` cut to the whole second. */
  function OneMore(earlier: PendingUnit, sha: string, now: nat): PendingUnit {
    var second := now - now % 1_000_000_000;
    PendingUnit(sha, earlier.attempts + 1, if earlier.firstFailedAt == 0 then second else earlier.firstFailedAt, second)
  }

  /** Every unit behind an incomplete apply has a record, one failure more than the one it had; a unit
      recorded as restarted too, as a build can be that is also a consumer, loses that one first;
      every record is of a managed unit; and nothing else is pending that was not before. */
  lemma IncompleteApplyIsRecorded(
    cs: seq<Change>, before: PendingUnits, restarted: seq<string>, failed: seq<string>, sha: string, now: nat,
    unit: string)
    requires DistinctPaths(cs) && Distinct(failed)
    ensures var after := Prune(Merge(before, restarted, failed, sha, now), ServiceNamesOf(cs));
            && (unit in after ==> unit in ServiceNamesOf(cs).Values)
            && (unit in failed ==> (unit in after <==> Blocks(cs, failed, unit)))
            && (Blocks(cs, failed, unit) ==>
                  after[unit] == OneMore(if unit in before && unit !in restarted then before[unit]
                                         else PendingUnit("", 0, 0, 0), sha, now))
            && (unit !in failed ==> (unit in after
              <==> unit in before && unit !in restarted && unit in ServiceNamesOf(cs).Values))
            && (unit !in failed && unit in after ==> after[unit] == before[unit])
  {
    ManagedAgree(cs, unit);
    CountFailedExact(map u | u in before && u !in restarted :: before[u], failed, sha, Truncate(now));
  }

  /** A path's category is that of its one change. */
  lemma {:induction false} CategoriesExact(cs: seq<Change>, c: Change)
    requires DistinctPaths(cs) && c in cs && !c.action.Delete?
    ensures c.destPath in CategoriesOf(cs) && CategoriesOf(cs)[c.destPath] == c.category
  {
    var n := |cs| - 1;
    if c != cs[n] {
      var i :| 0 <= i < |cs| && cs[i] == c;
      assert cs[..n][i] == c;
      CategoriesExact(cs[..n], c);
    }
  }
}
