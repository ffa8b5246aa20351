/** The restart phase of an apply (pkg/applier/applier.go, pkg/applier/build.go): what happens to
    each changed unit once the files are written and the hooks have run. */
module Restarts {
  import opened Common
  import opened Paths
  import opened Units

  /** What the files and hooks of this apply leave to do. */
  datatype Phase = Phase(
    changedUnits: set<string>, oneshotUnits: set<string>,
    changedPods: map<string, string>, podMembers: map<string, string>,
    activations: seq<(string, string)>, builds: seq<string>, buildTags: seq<string>, needsReload: bool)

  datatype UnitDeps = UnitDeps(needs: seq<string>, wants: seq<string>)

  /** The systemd and deferred operations of the phase, in order. `Alone` is a restart that ignores
      the unit's dependencies. */
  datatype Call =
    | DaemonReload
    | RunBuild(unit: string)
    | Operation(unit: string, op: string)
    | Query(unit: string)
    | Restart(unit: string)
    | RestartAlone(unit: string)
    | DeferRestart(unit: string)
    | DeferStop(unit: string)
    | DeferRestartAlone(unit: string)

  /** The image tags of the store: a full reference to the image it names. */
  type Images = map<string, string>

  /** How systemd and Podman answer in this apply. A build leaves the store `built` says, whether it
      succeeds or not; `idOk` and `writeOk` say which image calls of the restore succeed. */
  datatype Env = Env(
    reloadOk: bool, buildOk: string -> bool, built: (string, Images) -> Images,
    query: string -> Option<UnitStatus>, restartOk: string -> bool,
    recordOk: string -> bool, idOk: string -> bool, writeOk: string -> bool)

  // ----- image tags

  function LastIndex(s: string, c: char): int {
    if s == "" then -1
    else if s[|s| - 1] == c then |s| - 1
    else LastIndex(s[..|s| - 1], c)
  }

  lemma {:induction false} LastIndexBounds(s: string, c: char)
    ensures -1 <= LastIndex(s, c) < |s|
  {
    if s != "" && s[|s| - 1] != c {
      LastIndexBounds(s[..|s| - 1], c);
    }
  }

  /** The full reference splitImageRef reads: a reference without a tag means "latest". */
  function Canonical(ref: string): string {
    var i := LastIndex(ref, ':');
    if 0 <= i <= |ref| && '/' !in ref[i..] then ref else ref + ":latest"
  }

  /** A colon with no slash after it begins a tag. */
  lemma {:induction false} LastColon(s: string, n: nat, c: char)
    requires n <= |s|
    ensures var i := LastIndex(s[..n], c);
            && -1 <= i < n && (i >= 0 ==> s[i] == c)
            && forall j | i < j < n :: s[j] != c
  {
    if n > 0 {
      assert s[..n][..n - 1] == s[..n - 1];
      LastColon(s, n - 1, c);
    }
  }

  lemma CanonicalExact(ref: string)
    ensures Canonical(ref)
            == if exists i | 0 <= i < |ref| :: ref[i] == ':' && '/' !in ref[i..] then ref else ref + ":latest"
  {
    LastColon(ref, |ref|, ':');
    assert ref[..|ref|] == ref;
    var last := LastIndex(ref, ':');
    forall i | 0 <= i < |ref| && ref[i] == ':' && '/' !in ref[i..] ensures last >= 0 && '/' !in ref[last..] {
      assert i <= last && ref[last..] == ref[i..][last - i..];
    }
  }

  /** ImageID: "" when no image has the reference. */
  function ImageID(images: Images, ref: string): string {
    if Canonical(ref) in images then images[Canonical(ref)] else ""
  }

  ghost predicate Named(images: Images) { forall r | r in images :: images[r] != "" }

  /** Builds write the tags they list and no others. */
  ghost predicate BuildsWriteTags(env: Env, tags: seq<string>) {
    forall unit, images | Named(images) ::
      && Named(env.built(unit, images))
      && forall r | (forall t | t in tags :: Canonical(t) != r) ::
           (r in env.built(unit, images) <==> r in images)
           && (r in images ==> env.built(unit, images)[r] == images[r])
  }

  /** Only references of the tags differ. */
  ghost predicate DiffersInTags(a: Images, b: Images, tags: seq<string>) {
    forall r | (forall t | t in tags :: Canonical(t) != r) :: (r in a <==> r in b) && (r in a ==> a[r] == b[r])
  }

  lemma BuildKeepsStore(start: Images, images: Images, unit: string, tags: seq<string>, env: Env)
    requires BuildsWriteTags(env, tags) && Named(images) && DiffersInTags(start, images, tags)
    ensures Named(env.built(unit, images)) && DiffersInTags(start, env.built(unit, images), tags)
  {
    var now := env.built(unit, images);
    forall r | (forall t | t in tags :: Canonical(t) != r)
      ensures (r in start <==> r in now) && (r in start ==> start[r] == now[r])
    {
      assert r in now <==> r in images;
    }
  }

  lemma SameIdsSameStore(a: Images, b: Images, tags: seq<string>)
    requires Named(a) && Named(b) && DiffersInTags(a, b, tags)
    requires forall t | t in tags :: ImageID(a, t) == ImageID(b, t)
    ensures a == b
  {
    forall r ensures (r in a <==> r in b) && (r in a ==> a[r] == b[r]) {
      if t :| t in tags && Canonical(t) == r {
        assert ImageID(a, t) == ImageID(b, t);
      }
    }
    assert a.Keys == b.Keys;
  }

  /** The image calls that put one tag back succeed. */
  predicate CallsOk(env: Env, tag: string) { env.idOk(tag) && env.writeOk(tag) }

  /** One tag's turn in restoreTags. */
  function RestoreTag(images: Images, tag: string, id: string, env: Env): Images {
    if !env.idOk(tag) || ImageID(images, tag) == id || !env.writeOk(tag) then images
    else if id == "" then images - {Canonical(tag)}
    else images[Canonical(tag) := id]
  }

  function RestoreAll(images: Images, tags: seq<string>, before: map<string, string>, env: Env): Images
    requires forall t | t in tags :: t in before
  {
    if tags == [] then images
    else
      var n, t := |tags| - 1, tags[|tags| - 1];
      RestoreTag(RestoreAll(images, tags[..n], before, env), t, before[t], env)
  }

  lemma RestoreTagSteps(images: Images, start: Images, tags: seq<string>, tag: string, env: Env)
    requires Named(images) && Named(start) && DiffersInTags(start, images, tags) && tag in tags
    ensures var now := RestoreTag(images, tag, ImageID(start, tag), env);
            && Named(now) && DiffersInTags(start, now, tags)
            && (CallsOk(env, tag) ==> ImageID(now, tag) == ImageID(start, tag))
            && (forall t :: ImageID(images, t) == ImageID(start, t) ==> ImageID(now, t) == ImageID(start, t))
  {
    var now := RestoreTag(images, tag, ImageID(start, tag), env);
    forall t | ImageID(images, t) == ImageID(start, t) ensures ImageID(now, t) == ImageID(start, t) {
      assert Canonical(t) == Canonical(tag) ==> ImageID(start, t) == ImageID(start, tag);
    }
  }

  /** Every tag whose image calls succeed names the image it named at the start again, whichever
      other calls fail and however the tags alias each other. */
  lemma {:induction false} RestoreAllRestores(images: Images, start: Images, all: seq<string>, tags: seq<string>,
                                              before: map<string, string>, env: Env)
    requires Named(images) && Named(start) && DiffersInTags(start, images, all)
    requires forall t | t in tags :: t in all && t in before && before[t] == ImageID(start, t)
    ensures var now := RestoreAll(images, tags, before, env);
            && Named(now) && DiffersInTags(start, now, all)
            && forall t | t in tags && CallsOk(env, t) :: ImageID(now, t) == ImageID(start, t)
  {
    if tags != [] {
      var n, t := |tags| - 1, tags[|tags| - 1];
      assert t in tags && tags == tags[..n] + [t];
      RestoreAllRestores(images, start, all, tags[..n], before, env);
      RestoreTagSteps(RestoreAll(images, tags[..n], before, env), start, all, t, env);
    }
  }

  // ----- which unit is handled how

  /** dropPodMemberRestarts: members of a restarting pod. */
  function Covered(p: Phase): set<string> {
    set m | m in p.podMembers && p.podMembers[m] in p.changedPods
  }

  predicate PodStarted(p: Phase, deps: map<string, UnitDeps>, unit: string) {
    exists pod | pod in p.changedPods.Values :: pod in deps && unit in deps[pod].wants
  }

  /** takeBuildConsumers: the units requiring a rebuilt build, but those a restarting pod starts. */
  function Consumers(p: Phase, deps: map<string, UnitDeps>): set<string> {
    set u | u in deps && (exists d | d in deps[u].needs :: d in p.builds) && !PodStarted(p, deps, u)
  }

  function BuildSet(p: Phase): set<string> { set b | b in p.builds }

  /** The units restarted the ordinary way. */
  function Ordinary(p: Phase, deps: map<string, UnitDeps>): set<string> {
    p.changedUnits - BuildSet(p) - Covered(p) - Consumers(p, deps)
  }

  /** What one unit's turn issues and records. */
  datatype Turn = Turn(calls: seq<Call>, restarted: seq<string>, failed: seq<string>)

  function Recorded(unit: string, ok: bool, calls: seq<Call>): Turn {
    if ok then Turn(calls, [unit], []) else Turn(calls, [], [unit])
  }

  /** restartChangedUnit. */
  function OrdinaryTurn(unit: string, oneshots: set<string>, env: Env): Turn {
    var gate := if unit in oneshots then [Query(unit)] else [];
    if unit in oneshots && (env.query(unit).None? || TimerTriggered(env.query(unit).value)) then Turn(gate, [], [])
    else Recorded(unit, env.restartOk(unit), gate + [Restart(unit)])
  }

  predicate Running(s: UnitStatus) { s.activeState in ["active", "activating", "reloading"] }

  /** restartConsumer. */
  function ConsumerTurn(unit: string, env: Env): Turn {
    match env.query(unit)
    case None => Turn([Query(unit)], [], [unit])
    case Some(st) =>
      if ExternallyActivated(st) then Turn([Query(unit)], [], [])
      else Recorded(unit, env.restartOk(unit), [Query(unit), if Running(st) then RestartAlone(unit) else Restart(unit)])
  }

  function OrdinaryTurnOf(oneshots: set<string>, env: Env): string -> Turn { u => OrdinaryTurn(u, oneshots, env) }
  function ConsumerTurnOf(env: Env): string -> Turn { u => ConsumerTurn(u, env) }

  function Join(a: Turn, b: Turn): Turn { Turn(a.calls + b.calls, a.restarted + b.restarted, a.failed + b.failed) }

  /** restartEach over the units that are not the Agent's own. */
  function Each(units: seq<string>, self: set<string>, turn: string -> Turn): Turn {
    if units == [] then Turn([], [], [])
    else
      var n, u := |units| - 1, units[|units| - 1];
      Join(Each(units[..n], self, turn), if u in self then Turn([], [], []) else turn(u))
  }

  function SelfOf(units: seq<string>, self: set<string>): seq<string> {
    if units == [] then []
    else
      var n, u := |units| - 1, units[|units| - 1];
      SelfOf(units[..n], self) + (if u in self then [u] else [])
  }

  function MapCalls(units: seq<string>, call: string -> Call): seq<Call> {
    if units == [] then [] else MapCalls(units[..|units| - 1], call) + [call(units[|units| - 1])]
  }

  function StopCalls(stops: seq<string>, selfRestarts: seq<string>): seq<Call> {
    if stops == [] then []
    else
      var n, u := |stops| - 1, stops[|stops| - 1];
      StopCalls(stops[..n], selfRestarts) + (if u in selfRestarts then [] else [DeferStop(u)])
  }

  function OperationCalls(activations: seq<(string, string)>): seq<Call> {
    if activations == [] then []
    else
      var n := |activations| - 1;
      OperationCalls(activations[..n]) + [Operation(activations[n].0, activations[n].1)]
  }

  function Restarting(u: string): Call { DeferRestart(u) }
  function RestartingAlone(u: string): Call { DeferRestartAlone(u) }

  /** An order that lists every element once, as slices.Sorted does. */
  ghost predicate Lists(sort: set<string> -> seq<string>) {
    forall s :: (forall u :: u in sort(s) <==> u in s) && Distinct(sort(s))
  }

  function OrdinaryTurns(
    p: Phase, deps: map<string, UnitDeps>, self: set<string>, env: Env, sort: set<string> -> seq<string>): Turn {
    Each(sort(Ordinary(p, deps)), self, OrdinaryTurnOf(p.oneshotUnits, env))
  }

  function ConsumerTurns(
    p: Phase, deps: map<string, UnitDeps>, self: set<string>, env: Env, sort: set<string> -> seq<string>): Turn {
    Each(sort(Consumers(p, deps)), self, ConsumerTurnOf(env))
  }

  /** scheduleSelfUnitOps. */
  function SelfOpsTurn(selfRestarts: seq<string>, stops: seq<string>): Turn {
    Turn(MapCalls(selfRestarts, Restarting) + StopCalls(stops, selfRestarts), selfRestarts, [])
  }

  /** scheduleSelfConsumerRestarts. */
  function SelfConsumersTurn(selfConsumers: seq<string>): Turn {
    Turn(MapCalls(selfConsumers, RestartingAlone), selfConsumers, [])
  }

  /** Everything after the builds, when they succeed. */
  function AfterBuilds(p: Phase, deps: map<string, UnitDeps>, self: set<string>, stops: seq<string>,
                       env: Env, sort: set<string> -> seq<string>): Turn {
    Join(Join(Join(Join(
      Turn(OperationCalls(p.activations), [], []),
      OrdinaryTurns(p, deps, self, env, sort)),
      ConsumerTurns(p, deps, self, env, sort)),
      SelfOpsTurn(SelfOf(sort(Ordinary(p, deps)), self), stops)),
      SelfConsumersTurn(SelfOf(sort(Consumers(p, deps)), self)))
  }

  lemma JoinAssociates(a: Turn, b: Turn, c: Turn)
    ensures Join(Join(a, b), c) == Join(a, Join(b, c))
  {
  }

  function BuildCalls(builds: seq<string>): seq<Call> {
    if builds == [] then [] else BuildCalls(builds[..|builds| - 1]) + [RunBuild(builds[|builds| - 1])]
  }

  function ReloadCalls(p: Phase): seq<Call> { if p.needsReload then [DaemonReload] else [] }

  /** Of the builds the first `ran` are run, the last of them failing. */
  ghost predicate FailsAt(builds: seq<string>, ran: nat, env: Env) {
    && 0 < ran <= |builds| && !env.buildOk(builds[ran - 1])
    && forall i | 0 <= i < ran - 1 :: env.buildOk(builds[i])
  }

  /** What each tag names before the builds can be read. */
  ghost predicate TagsRecorded(p: Phase, env: Env) { forall t | t in p.buildTags :: env.recordOk(t) }

  // ----- the applier

  class Applier {
    const selfUnits: set<string>
    const deps: map<string, UnitDeps>
    const sort: set<string> -> seq<string>
    var images: Images
    var restartedUnits: seq<string>
    var failedRestartUnits: seq<string>
    var deferredSelfStops: seq<string>
    ghost var calls: seq<Call>

    constructor (selfUnits: set<string>, deps: map<string, UnitDeps>, sort: set<string> -> seq<string>, images: Images)
      ensures this.selfUnits == selfUnits && this.deps == deps && this.sort == sort && this.images == images
      ensures calls == [] && restartedUnits == [] && failedRestartUnits == [] && deferredSelfStops == []
    {
      this.selfUnits, this.deps, this.sort, this.images := selfUnits, deps, sort, images;
      restartedUnits, failedRestartUnits, deferredSelfStops, calls := [], [], [], [];
    }

    /** The calls issued and the outcomes recorded so far. */
    ghost function Log(): Turn
      reads this
    {
      Turn(calls, restartedUnits, failedRestartUnits)
    }

    method ImageIDs(tags: seq<string>, env: Env) returns (ok: bool, ids: map<string, string>)
      ensures ok <==> forall t | t in tags :: env.recordOk(t)
      ensures ok ==> forall t | t in tags :: t in ids && ids[t] == ImageID(images, t)
    {
      ids := map[];
      for i := 0 to |tags|
        invariant forall t | t in tags[..i] :: env.recordOk(t) && t in ids && ids[t] == ImageID(images, t)
      {
        assert tags[..i + 1] == tags[..i] + [tags[i]];
        if !env.recordOk(tags[i]) {
          return false, map[];
        }
        ids := ids[tags[i] := ImageID(images, tags[i])];
      }
      assert tags[..|tags|] == tags;
      return true, ids;
    }

    /** restoreTags. */
    method RestoreTags(tags: seq<string>, before: map<string, string>, env: Env) returns (ok: bool)
      requires forall t | t in tags :: t in before
      modifies this`images
      ensures images == RestoreAll(old(images), tags, before, env)
      ensures (forall t | t in tags :: CallsOk(env, t)) ==> ok
    {
      ok := true;
      for i := 0 to |tags|
        invariant images == RestoreAll(old(images), tags[..i], before, env)
        invariant (forall t | t in tags :: CallsOk(env, t)) ==> ok
      {
        var tag := tags[i];
        assert tag in tags && tags[..i + 1][..i] == tags[..i];
        if !env.idOk(tag) {
          ok := false;
        } else if ImageID(images, tag) == before[tag] {
        } else if !env.writeOk(tag) {
          ok := false;
        } else if before[tag] == "" {
          images := images - {Canonical(tag)};
        } else {
          images := images[Canonical(tag) := before[tag]];
        }
      }
      assert tags[..|tags|] == tags;
    }

    method RollBackTags(tags: seq<string>, before: map<string, string>, env: Env, ghost start: Images)
      requires Named(start) && Named(images) && DiffersInTags(start, images, tags)
      requires forall t | t in tags :: t in before && before[t] == ImageID(start, t)
      modifies this`images
      ensures forall t | t in tags && CallsOk(env, t) :: ImageID(images, t) == ImageID(start, t)
      ensures (forall t | t in tags :: CallsOk(env, t)) ==> images == start
    {
      var ok := RestoreTags(tags, before, env);
      RestoreAllRestores(old(images), start, tags, tags, before, env);
      if forall t | t in tags :: CallsOk(env, t) {
        SameIdsSameStore(images, start, tags);
      }
    }

    method RunBuildUnit(unit: string, tags: seq<string>, env: Env, ghost start: Images)
      requires BuildsWriteTags(env, tags) && Named(images) && DiffersInTags(start, images, tags)
      modifies this`images, this`calls
      ensures images == env.built(unit, old(images)) && Named(images) && DiffersInTags(start, images, tags)
      ensures calls == old(calls) + [RunBuild(unit)]
    {
      calls := calls + [RunBuild(unit)];
      BuildKeepsStore(start, images, unit, tags, env);
      images := env.built(unit, images);
    }

    /** The loop of runBuilds, to the first build that fails. */
    method RunBuildUnits(p: Phase, env: Env) returns (ok: bool, ghost ran: nat)
      requires Named(images) && BuildsWriteTags(env, p.buildTags)
      modifies this`images, this`restartedUnits, this`calls
      ensures Named(images) && DiffersInTags(old(images), images, p.buildTags)
      ensures ran <= |p.builds| && calls == old(calls) + BuildCalls(p.builds[..ran])
      ensures ok <==> forall b | b in p.builds :: env.buildOk(b)
      ensures ok ==> ran == |p.builds| && restartedUnits == old(restartedUnits) + p.builds
      ensures !ok ==> FailsAt(p.builds, ran, env) && restartedUnits == old(restartedUnits) + p.builds[..ran - 1]
    {
      ran := 0;
      for i := 0 to |p.builds|
        invariant ran == i
        invariant Named(images) && DiffersInTags(old(images), images, p.buildTags)
        invariant calls == old(calls) + BuildCalls(p.builds[..i])
        invariant restartedUnits == old(restartedUnits) + p.builds[..i]
        invariant forall b | b in p.builds[..i] :: env.buildOk(b)
      {
        var unit := p.builds[i];
        assert p.builds[..i + 1][..i] == p.builds[..i] && p.builds[..i + 1] == p.builds[..i] + [unit];
        RunBuildUnit(unit, p.buildTags, env, old(images));
        ran := i + 1;
        if !env.buildOk(unit) {
          return false, ran;
        }
        restartedUnits := restartedUnits + [unit];
      }
      assert p.builds[..|p.builds|] == p.builds;
      return true, ran;
    }

    /** runBuilds: on a failure every tag whose image calls succeed names the image it named before,
        and all of the store is as it was when they all do. */
    method RunBuilds(p: Phase, env: Env) returns (ok: bool, ghost ran: nat)
      requires Named(images) && BuildsWriteTags(env, p.buildTags)
      modifies this`images, this`restartedUnits, this`calls
      ensures ran <= |p.builds| && calls == old(calls) + BuildCalls(p.builds[..ran])
      ensures ok <==>
              p.builds == []
              || ((forall t | t in p.buildTags :: env.recordOk(t)) && forall b | b in p.builds :: env.buildOk(b))
      ensures ok ==> ran == |p.builds| && restartedUnits == old(restartedUnits) + p.builds
      ensures !ok ==> if TagsRecorded(p, env)
                      then FailsAt(p.builds, ran, env) && restartedUnits == old(restartedUnits) + p.builds[..ran - 1]
                      else ran == 0 && restartedUnits == old(restartedUnits)
      ensures !ok ==> forall t | t in p.buildTags && CallsOk(env, t) :: ImageID(images, t) == ImageID(old(images), t)
      ensures !ok && (forall t | t in p.buildTags :: CallsOk(env, t)) ==> images == old(images)
    {
      if |p.builds| == 0 {
        return true, 0;
      }
      var recorded, before := ImageIDs(p.buildTags, env);
      if !recorded {
        return false, 0;
      }
      ok, ran := RunBuildUnits(p, env);
      if !ok {
        RollBackTags(p.buildTags, before, env, old(images));
      }
    }

    method RecordRestart(unit: string, ok: bool)
      modifies this`restartedUnits, this`failedRestartUnits
      ensures Log() == Join(old(Log()), Recorded(unit, ok, []))
    {
      if ok {
        restartedUnits := restartedUnits + [unit];
      } else {
        failedRestartUnits := failedRestartUnits + [unit];
      }
    }

    method RestartChangedUnit(unit: string, oneshots: set<string>, env: Env)
      modifies this`calls, this`restartedUnits, this`failedRestartUnits
      ensures Log() == Join(old(Log()), OrdinaryTurn(unit, oneshots, env))
    {
      if unit in oneshots {
        calls := calls + [Query(unit)];
        var st := env.query(unit);
        if st.None? || TimerTriggered(st.value) {
          return;
        }
      }
      calls := calls + [Restart(unit)];
      RecordRestart(unit, env.restartOk(unit));
    }

    method RestartConsumer(unit: string, env: Env)
      modifies this`calls, this`restartedUnits, this`failedRestartUnits
      ensures Log() == Join(old(Log()), ConsumerTurn(unit, env))
    {
      calls := calls + [Query(unit)];
      var st := env.query(unit);
      if st.None? {
        RecordRestart(unit, false);
        return;
      }
      if ExternallyActivated(st.value) {
        return;
      }
      calls := calls + [if Running(st.value) then RestartAlone(unit) else Restart(unit)];
      RecordRestart(unit, env.restartOk(unit));
    }

    /** restartChangedUnits. */
    method RestartChangedUnits(units: seq<string>, oneshots: set<string>, env: Env) returns (selfRestarts: seq<string>)
      modifies this`calls, this`restartedUnits, this`failedRestartUnits
      ensures Log() == Join(old(Log()), Each(units, selfUnits, OrdinaryTurnOf(oneshots, env)))
      ensures selfRestarts == SelfOf(units, selfUnits)
    {
      selfRestarts := [];
      ghost var turn := OrdinaryTurnOf(oneshots, env);
      for i := 0 to |units|
        invariant Log() == Join(old(Log()), Each(units[..i], selfUnits, turn))
        invariant selfRestarts == SelfOf(units[..i], selfUnits)
      {
        assert units[..i + 1][..i] == units[..i];
        if units[i] in selfUnits {
          selfRestarts := selfRestarts + [units[i]];
        } else {
          JoinAssociates(old(Log()), Each(units[..i], selfUnits, turn), turn(units[i]));
          RestartChangedUnit(units[i], oneshots, env);
        }
      }
      assert units[..|units|] == units;
    }

    method RestartConsumers(units: seq<string>, env: Env) returns (selfConsumers: seq<string>)
      modifies this`calls, this`restartedUnits, this`failedRestartUnits
      ensures Log() == Join(old(Log()), Each(units, selfUnits, ConsumerTurnOf(env)))
      ensures selfConsumers == SelfOf(units, selfUnits)
    {
      selfConsumers := [];
      ghost var turn := ConsumerTurnOf(env);
      for i := 0 to |units|
        invariant Log() == Join(old(Log()), Each(units[..i], selfUnits, turn))
        invariant selfConsumers == SelfOf(units[..i], selfUnits)
      {
        assert units[..i + 1][..i] == units[..i];
        if units[i] in selfUnits {
          selfConsumers := selfConsumers + [units[i]];
        } else {
          JoinAssociates(old(Log()), Each(units[..i], selfUnits, turn), turn(units[i]));
          RestartConsumer(units[i], env);
        }
      }
      assert units[..|units|] == units;
    }

    method ActivateSystemdUnits(activations: seq<(string, string)>)
      modifies this`calls
      ensures Log() == Join(old(Log()), Turn(OperationCalls(activations), [], []))
    {
      for i := 0 to |activations|
        invariant calls == old(calls) + OperationCalls(activations[..i])
      {
        assert activations[..i + 1][..i] == activations[..i];
        calls := calls + [Operation(activations[i].0, activations[i].1)];
      }
      assert activations[..|activations|] == activations;
    }

    method DeferEach(units: seq<string>, call: string -> Call)
      modifies this`calls, this`restartedUnits
      ensures Log() == Join(old(Log()), Turn(MapCalls(units, call), units, []))
    {
      for i := 0 to |units|
        invariant calls == old(calls) + MapCalls(units[..i], call)
        invariant restartedUnits == old(restartedUnits) + units[..i]
      {
        assert units[..i + 1][..i] == units[..i] && units[..i + 1] == units[..i] + [units[i]];
        restartedUnits := restartedUnits + [units[i]];
        calls := calls + [call(units[i])];
      }
      assert units[..|units|] == units;
    }

    method ScheduleSelfUnitOps(selfRestarts: seq<string>)
      modifies this`calls, this`restartedUnits
      ensures Log() == Join(old(Log()), SelfOpsTurn(selfRestarts, deferredSelfStops))
    {
      DeferEach(selfRestarts, Restarting);
      ghost var restarts, restarted := calls, restartedUnits;
      for i := 0 to |deferredSelfStops|
        invariant restartedUnits == restarted
        invariant calls == restarts + StopCalls(deferredSelfStops[..i], selfRestarts)
      {
        var unit := deferredSelfStops[i];
        assert deferredSelfStops[..i + 1][..i] == deferredSelfStops[..i];
        if unit !in selfRestarts {
          calls := calls + [DeferStop(unit)];
        }
      }
      assert deferredSelfStops[..|deferredSelfStops|] == deferredSelfStops;
    }

    /** restartUnits once the builds have succeeded. */
    method RestartAfterBuilds(p: Phase, env: Env)
      modifies this`calls, this`restartedUnits, this`failedRestartUnits
      ensures Log() == Join(old(Log()), AfterBuilds(p, deps, selfUnits, deferredSelfStops, env, sort))
    {
      var units := p.changedUnits - BuildSet(p);
      ActivateSystemdUnits(p.activations);
      ghost var turn := Turn(OperationCalls(p.activations), [], []);
      units := units - Covered(p);
      var consumers := Consumers(p, deps);
      units := units - consumers;
      assert units == Ordinary(p, deps);
      var selfRestarts := RestartChangedUnits(sort(units), p.oneshotUnits, env);
      JoinAssociates(old(Log()), turn, OrdinaryTurns(p, deps, selfUnits, env, sort));
      turn := Join(turn, OrdinaryTurns(p, deps, selfUnits, env, sort));
      var selfConsumers := RestartConsumers(sort(consumers), env);
      JoinAssociates(old(Log()), turn, ConsumerTurns(p, deps, selfUnits, env, sort));
      turn := Join(turn, ConsumerTurns(p, deps, selfUnits, env, sort));
      ScheduleSelfUnitOps(selfRestarts);
      JoinAssociates(old(Log()), turn, SelfOpsTurn(selfRestarts, deferredSelfStops));
      turn := Join(turn, SelfOpsTurn(selfRestarts, deferredSelfStops));
      DeferEach(selfConsumers, RestartingAlone);
      JoinAssociates(old(Log()), turn, SelfConsumersTurn(selfConsumers));
    }

    /** restartUnits. A failed reload or build issues nothing further, and leaves the tags as they
        were; otherwise every changed unit is disposed of as `AfterBuilds` says. */
    method RestartUnits(p: Phase, env: Env) returns (ok: bool, ghost ran: nat)
      requires Named(images) && BuildsWriteTags(env, p.buildTags)
      modifies this
      ensures ran <= |p.builds|
      ensures ok <==> Idle(p, old(deferredSelfStops))
                      || ((p.needsReload ==> env.reloadOk)
                          && (p.builds == [] || (TagsRecorded(p, env) && forall b | b in p.builds :: env.buildOk(b))))
      ensures !ok ==> calls == old(calls) + ReloadCalls(p) + BuildCalls(p.builds[..ran])
      ensures !ok ==> if (p.needsReload ==> env.reloadOk) && TagsRecorded(p, env)
                      then FailsAt(p.builds, ran, env) && restartedUnits == old(restartedUnits) + p.builds[..ran - 1]
                      else ran == 0 && restartedUnits == old(restartedUnits)
      ensures !ok ==> forall t | t in p.buildTags && CallsOk(env, t) :: ImageID(images, t) == ImageID(old(images), t)
      ensures !ok && (forall t | t in p.buildTags :: CallsOk(env, t)) ==> images == old(images)
      ensures !ok ==> failedRestartUnits == old(failedRestartUnits)
      ensures var after := AfterBuilds(p, deps, selfUnits, old(deferredSelfStops), env, sort);
              ok && !Idle(p, old(deferredSelfStops)) ==>
                && calls == old(calls) + ReloadCalls(p) + BuildCalls(p.builds) + after.calls
                && restartedUnits == old(restartedUnits) + p.builds + after.restarted
                && failedRestartUnits == old(failedRestartUnits) + after.failed
      ensures Idle(p, old(deferredSelfStops)) ==> ok && calls == old(calls) && images == old(images)
    {
      ran := 0;
      if p.changedUnits == {} && !p.needsReload && |deferredSelfStops| == 0 && |p.activations| == 0 && |p.builds| == 0 {
        return true, 0;
      }
      if p.needsReload {
        calls := calls + [DaemonReload];
        if !env.reloadOk {
          return false, 0;
        }
      }
      assert calls == old(calls) + ReloadCalls(p);
      ok, ran := RunBuilds(p, env);
      if !ok {
        return;
      }
      assert p.builds[..ran] == p.builds;
      RestartAfterBuilds(p, env);
    }
  }

  /** There is nothing to do. */
  predicate Idle(p: Phase, stops: seq<string>) {
    p.changedUnits == {} && !p.needsReload && stops == [] && p.activations == [] && p.builds == []
  }
}
