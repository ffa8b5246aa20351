/** The self-restart guard (pkg/agent/selfconfig.go): what a changeset may do to the Agent's config
    and unit so that the Agent's next start reads the credentials its running container was checked
    with. */
module Guard {
  import opened Common
  import opened Paths
  import opened Mounts
  import PodmanArgs

  datatype Action = Create | Update | Delete | Noop

  datatype Change = Change(destPath: string, category: string, action: Action)

  type Changeset = seq<Change>

  predicate Writes(cs: Changeset, destPath: string) {
    exists c | c in cs :: c.destPath == destPath && (c.action.Create? || c.action.Update?)
  }

  function SecretDestPath(name: string): string { "secret:" + name }

  /** path.Base. */
  function Base(p: string): string {
    if p == "" then "."
    else if p[|p| - 1] == '/' then (if |p| == 1 then "/" else Base(p[..|p| - 1]))
    else Split(p, '/')[|Split(p, '/')| - 1]
  }

  /** A file's name is what comes after the last slash. */
  lemma BaseExact(dir: string, name: string)
    requires name != "" && '/' !in name
    ensures Base(name) == name && Base(dir + "/" + name) == name
  {
    SplitLast(dir, name);
    SplitLast("", name);
    SplitWord(name, "");
    assert name + "" == name && name[|name| - 1] in name;
  }

  predicate WritesVolumeUnit(cs: Changeset, name: string) {
    exists c | c in cs :: c.category == "volume" && Base(c.destPath) == name && !c.action.Noop?
  }

  // ----- frozen lines

  const FROZEN_KEYS := [
    "Volume", "Mount", "Tmpfs", "Secret", "Mask", "Unmask", "VolatileTmp",
    "ReadOnly", "ReadOnlyTmpfs", "Rootfs", "WorkingDir", "AddDevice", "Annotation",
    "User", "Group", "GroupAdd", "UserNS", "UIDMap", "GIDMap", "SubUIDMap", "SubGIDMap",
    "RemapUsers", "RemapUid", "RemapGid", "RemapUidSize",
    "AddCapability", "DropCapability", "AppArmor", "SeccompProfile",
    "SecurityLabelDisable", "SecurityLabelFileType", "SecurityLabelLevel", "SecurityLabelNested", "SecurityLabelType",
    "Exec", "Entrypoint", "EnvironmentFile", "EnvironmentHost",
    "PodmanArgs", "GlobalArgs", "ContainersConfModule"]

  const CHANGEABLE_SERVICE_KEYS := ["Restart", "RestartSec", "TimeoutStartSec", "TimeoutStopSec"]

  const AGENT_CONFIG_TARGET := "/etc/picolet/config.yml"

  /** configPath: where the Agent in the unit's container reads its config. */
  function ConfigPath(u: Unit, p: Parser): string {
    var env := p.keyVals(Values(u.container, "Environment"));
    if "PICOLET_CONFIG" !in env then AGENT_CONFIG_TARGET
    else match env["PICOLET_CONFIG"]
         case None => "$PICOLET_CONFIG"
         case Some(value) => value
  }

  predicate SameKey(a: map<string, seq<string>>, b: map<string, seq<string>>, key: string) {
    Values(a, key) == Values(b, key)
  }

  /** No frozen line differs. */
  ghost predicate Frozen(running: Unit, next: Unit, p: Parser) {
    && (forall key | key in FROZEN_KEYS :: SameKey(running.container, next.container, key))
    && ConfigPath(running, p) == ConfigPath(next, p)
    && (forall key | key in running.service.Keys + next.service.Keys && key !in CHANGEABLE_SERVICE_KEYS ::
          SameKey(running.service, next.service, key))
  }

  /** Where the unit's container reads its config. */
  ghost predicate ReadsConfigAt(u: Unit, p: Parser, path: string) {
    var env := p.keyVals(if "Environment" in u.container then u.container["Environment"] else []);
    if "PICOLET_CONFIG" !in env then path == "/etc/picolet/config.yml"
    else if env["PICOLET_CONFIG"].None? then path == "$PICOLET_CONFIG"
    else env["PICOLET_CONFIG"] == Some(path)
  }

  /** With no frozen line changed, both containers read one config path, and only when and how the
      service is restarted can change besides lines of [Container] that are not frozen. */
  lemma FrozenAgrees(running: Unit, next: Unit, p: Parser)
    requires Frozen(running, next, p)
    ensures exists path :: ReadsConfigAt(running, p, path) && ReadsConfigAt(next, p, path)
    ensures forall key | Values(running.service, key) != Values(next.service, key) ::
              key == "Restart" || key == "RestartSec" || key == "TimeoutStartSec" || key == "TimeoutStopSec"
  {
    assert ReadsConfigAt(running, p, ConfigPath(running, p)) && ReadsConfigAt(next, p, ConfigPath(next, p));
    forall key | Values(running.service, key) != Values(next.service, key) ensures key in CHANGEABLE_SERVICE_KEYS {
      assert key in running.service.Keys + next.service.Keys;
    }
  }

  /** Another config path is always found. */
  lemma ConfigMoveFound(running: Unit, next: Unit, p: Parser, was: string, now: string)
    requires ReadsConfigAt(running, p, was) && ReadsConfigAt(next, p, now) && was != now
    ensures !Frozen(running, next, p)
  {
    assert ConfigPath(running, p) == was && ConfigPath(next, p) == now;
  }

  /** The keys whose values differ, named between `before` and "=". */
  method ChangedKeys(
    a: map<string, seq<string>>, b: map<string, seq<string>>, keys: seq<string>, skip: seq<string>, before: string)
    returns (changed: seq<string>)
    ensures changed == [] <==> forall key | key in keys && key !in skip :: SameKey(a, b, key)
  {
    changed := [];
    for i := 0 to |keys|
      invariant changed == [] <==> forall j | 0 <= j < i && keys[j] !in skip :: SameKey(a, b, keys[j])
    {
      if keys[i] !in skip && Values(a, keys[i]) != Values(b, keys[i]) {
        changed := changed + [before + keys[i] + "="];
      }
    }
  }

  /** frozenChanges; `serviceKeys` are the [Service] keys of both units, sorted. */
  method FrozenChanges(running: Unit, next: Unit, p: Parser, serviceKeys: seq<string>) returns (changed: seq<string>)
    requires forall key :: key in serviceKeys <==> key in running.service || key in next.service
    ensures changed == [] <==> Frozen(running, next, p)
  {
    changed := ChangedKeys(running.container, next.container, FROZEN_KEYS, [], "");
    if ConfigPath(running, p) != ConfigPath(next, p) {
      changed := changed + ["Environment=PICOLET_CONFIG"];
    }
    var service := ChangedKeys(running.service, next.service, serviceKeys, CHANGEABLE_SERVICE_KEYS, "[Service] ");
    changed := changed + service;
  }

  /** unitMounts reads frozen keys only. */
  lemma FrozenKeepsMounts(running: Unit, next: Unit, p: Parser)
    requires Frozen(running, next, p)
    ensures UnitMounts(running, p) == UnitMounts(next, p) && VolumesFrom(running, p) == VolumesFrom(next, p)
  {
    forall key | key in MOUNT_KEYS ensures Values(running.container, key) == Values(next.container, key) {
      MountKeysAreFrozen(key);
      assert SameKey(running.container, next.container, key);
    }
    MountsDependOnKeys(running, next, p);
  }

  lemma MountKeysAreFrozen(key: string)
    requires key in MOUNT_KEYS
    ensures key in FROZEN_KEYS
  {
    assert FROZEN_KEYS[0] == "Volume" && FROZEN_KEYS[1] == "Mount" && FROZEN_KEYS[2] == "Tmpfs";
    assert FROZEN_KEYS[3] == "Secret" && FROZEN_KEYS[6] == "VolatileTmp" && FROZEN_KEYS[38] == "PodmanArgs";
  }

  // ----- one credential

  datatype Credential = Credential(path: string, dir: bool)

  datatype Verdict = Accept | Relative | VolumesFromUnread | InChangedImage | Fresh(m: Mount)

  /** The changes write what the mount is filled from at a fresh start. */
  predicate WrittenBy(m: Mount, cs: Changeset) {
    || (m.secret != "" && Writes(cs, SecretDestPath(m.secret)))
    || (m.volumeUnit != "" && WritesVolumeUnit(cs, m.volumeUnit))
  }

  /** freshMount: a fresh start fills the mount otherwise than the running container shows it. */
  predicate FreshMount(m: Mount, cs: Changeset) { m.empty || m.image || WrittenBy(m, cs) }

  function FirstFresh(held: seq<Mount>, cs: Changeset): Verdict {
    if held == [] then Accept
    else if FreshMount(held[0], cs) then Fresh(held[0])
    else FirstFresh(held[1..], cs)
  }

  predicate ImageChanged(running: Unit, next: Unit) {
    !SameKey(running.container, next.container, "Image")
  }

  /** sameView's decision on the mounts that may hold a file credential. */
  function HeldVerdict(mounts: seq<Mount>, path: string, cs: Changeset, imageChanged: bool): Verdict {
    var held := MayHold(mounts, path);
    if imageChanged && !(exists m | m in held :: Placed(m)) then InChangedImage else FirstFresh(held, cs)
  }

  /** sameView, of one credential. */
  function SameView(running: Unit, next: Unit, p: Parser, cs: Changeset, cred: Credential): Verdict {
    if !IsAbs(cred.path) then Relative
    else if cred.dir then Accept
    else if VolumesFrom(next, p) != [] then VolumesFromUnread
    else HeldVerdict(UnitMounts(next, p), cred.path, cs, ImageChanged(running, next))
  }

  // ----- what the two containers show

  /** What the Host's secrets and volumes hold, at the path seen, by secret and by volume unit. */
  datatype Stores = Stores(secrets: string -> string, volumes: string -> string)

  /** The stores differ only where the changes write: a secret created or updated, a volume unit
      changed in any way. */
  ghost predicate Evolves(was: Stores, now: Stores, cs: Changeset) {
    && (forall name ::
          (forall c | c in cs && c.destPath == "secret:" + name :: c.action.Delete? || c.action.Noop?)
          ==> now.secrets(name) == was.secrets(name))
    && forall name ::
         (forall c | c in cs && c.category == "volume" && Base(c.destPath) == name :: c.action.Noop?)
         ==> now.volumes(name) == was.volumes(name)
  }

  /** A container, seen at one path: its mounts, and what each of them and the image beneath would
      show there. */
  datatype View = View(mounts: seq<Mount>, content: seq<string>, rootfs: string)

  /** What a mount may show in a container just created: of an image anything, since a pull or a
      rebuild may have changed it; an empty mount nothing; a secret or a volume what the store holds;
      any other what is at its source on the Host. */
  predicate StartsWith(m: Mount, stores: Stores, host: string, content: string) {
    if m.image then true
    else if m.empty then content == ""
    else if m.secret != "" then content == stores.secrets(m.secret)
    else if m.volumeUnit != "" then content == stores.volumes(m.volumeUnit)
    else content == host
  }

  /** What it may show later: what was mounted empty may have been written since. */
  predicate RunsWith(m: Mount, stores: Stores, host: string, content: string) {
    m.empty || StartsWith(m, stores, host, content)
  }

  /** The content the container may show at the path. Several mounts at the deepest target leave it
      open which one podman mounts last. */
  ghost predicate MayShow(v: View, place: Placement, p: Comps, content: string)
    requires |place| == |v.mounts| == |v.content|
  {
    || (NoneHolds(v.mounts, place, p) && content == v.rootfs)
    || exists i :: Shows(v.mounts, place, p, i) && content == v.content[i]
  }

  /** A restart: the running container, created with the stores as they `was`, and the one created in
      its place with the stores as they are `now`; `host` is what lies at the sources on the Host. */
  datatype Restart = Restart(before: View, after: View, was: Stores, now: Stores, host: seq<string>)

  ghost predicate Replaces(r: Restart, mounts: seq<Mount>, cs: Changeset, imageChanged: bool) {
    && r.before.mounts == r.after.mounts == mounts
    && |r.before.content| == |r.after.content| == |r.host| == |mounts|
    && Evolves(r.was, r.now, cs)
    && (forall i | 0 <= i < |mounts| :: RunsWith(mounts[i], r.was, r.host[i], r.before.content[i]))
    && (forall i | 0 <= i < |mounts| :: StartsWith(mounts[i], r.now, r.host[i], r.after.content[i]))
    && (!imageChanged ==> r.before.rootfs == r.after.rootfs)
  }

  ghost predicate SameContent(r: Restart, place: Placement, p: Comps)
    requires |place| == |r.before.mounts| == |r.before.content| == |r.after.mounts| == |r.after.content|
  {
    forall content :: MayShow(r.before, place, p, content) <==> MayShow(r.after, place, p, content)
  }

  /** Whatever the unplaced mounts' targets turn out to be, the next container shows the path's
      content that the running one, with the mounts of the unit it was started from, does. `cs` are all
      the changes since that one was started. */
  ghost predicate NextShowsSame(
    running: seq<Mount>, next: seq<Mount>, cs: Changeset, imageChanged: bool, path: Comps)
  {
    running == next
    && forall place: Placement, r: Restart | Places(place, next) && Replaces(r, next, cs, imageChanged) ::
         SameContent(r, place, path)
  }

  lemma {:induction false} FirstFreshExact(held: seq<Mount>, cs: Changeset)
    ensures FirstFresh(held, cs).Accept? <==> forall m | m in held :: !FreshMount(m, cs)
    ensures FirstFresh(held, cs).Accept? || FirstFresh(held, cs).Fresh?
  {
    if held != [] {
      FirstFreshExact(held[1..], cs);
      assert forall m :: m in held <==> m == held[0] || m in held[1..];
    }
  }

  /** A mount that is not fresh shows the same before and after. */
  lemma StaleShowsSame(m: Mount, r: Restart, host: string, before: string, after: string, cs: Changeset)
    requires !FreshMount(m, cs) && Evolves(r.was, r.now, cs)
    requires RunsWith(m, r.was, host, before) && StartsWith(m, r.now, host, after)
    ensures before == after
  {
    if m.secret != "" {
      assert SecretDestPath(m.secret) == "secret:" + m.secret;
      assert forall c | c in cs && c.destPath == "secret:" + m.secret :: c.action.Delete? || c.action.Noop?;
    }
    if m.volumeUnit != "" {
      assert forall c | c in cs && c.category == "volume" && Base(c.destPath) == m.volumeUnit :: c.action.Noop?;
    }
  }

  lemma AcceptedShowsSame(
    place: Placement, r: Restart, mounts: seq<Mount>, cs: Changeset, imageChanged: bool, path: string)
    requires IsAbs(path) && CleanTargets(mounts) && |place| == |mounts| && Replaces(r, mounts, cs, imageChanged)
    requires HeldVerdict(mounts, path, cs, imageChanged).Accept?
    ensures SameContent(r, place, CompsOf(path))
  {
    var p, held := CompsOf(path), MayHold(mounts, path);
    CompsAreClean(path);
    FirstFreshExact(held, cs);
    forall i | Shows(mounts, place, p, i) ensures r.before.content[i] == r.after.content[i] {
      ShownMayHold(mounts, p, place, i);
      StaleShowsSame(mounts[i], r, r.host[i], r.before.content[i], r.after.content[i], cs);
    }
    if imageChanged {
      var m :| m in held && Placed(m);
      PlacedHeldHolds(mounts, place, p, m);
    }
  }

  /** A placed mount that may hold the path does hold it, wherever the unplaced ones are. */
  lemma PlacedHeldHolds(mounts: seq<Mount>, place: Placement, p: Comps, m: Mount)
    requires CleanTargets(mounts) && IsClean(p) && |place| == |mounts| && Placed(m)
    requires m in HeldAt(mounts, Render(p), Deepest(mounts, Render(p))) + Unplaced(mounts)
    ensures !NoneHolds(mounts, place, p)
  {
    HeldAtMembers(mounts, Render(p), Deepest(mounts, Render(p)));
    var i :| 0 <= i < |mounts| && mounts[i] == m;
    PlacedHolds(m, p);
    assert TargetOf(mounts, place, i) <= p;
  }

  /** The changes of several changesets, applied one after the other. */
  function Changes(applied: seq<Changeset>): Changeset {
    if applied == [] then [] else Changes(applied[..|applied| - 1]) + applied[|applied| - 1]
  }

  lemma WrittenByEither(m: Mount, a: Changeset, b: Changeset)
    ensures WrittenBy(m, a + b) <==> WrittenBy(m, a) || WrittenBy(m, b)
  {
    forall path ensures Writes(a + b, path) <==> Writes(a, path) || Writes(b, path) {
    }
  }

  /** The unit's Image= lines differ. */
  predicate OtherImage(running: Unit, next: Unit) {
    Values(running.container, "Image") != Values(next.container, "Image")
  }

  /** Over all the changes since the running container was started: an accepted file credential reads
      the same after the restart exactly when no earlier changeset wrote the secret or the volume unit
      of a mount that may hold it. The guard looks at the last changeset only. */
  lemma GuardSound(running: Unit, next: Unit, p: Parser, earlier: seq<Changeset>, cs: Changeset, cred: Credential)
    requires Frozen(running, next, p) && !cred.dir && SameView(running, next, p, cs, cred).Accept?
    ensures NextShowsSame(UnitMounts(running, p), UnitMounts(next, p), Changes(earlier) + cs,
                          OtherImage(running, next), CompsOf(cred.path))
            <==> forall m | m in MayHold(UnitMounts(next, p), cred.path) :: !WrittenBy(m, Changes(earlier))
  {
    FrozenKeepsMounts(running, next, p);
    UnitMountsClean(next, p);
    UnitMountsOneSource(next, p);
    SinceExact(UnitMounts(next, p), earlier, cs, OtherImage(running, next), cred.path);
  }

  lemma SinceExact(mounts: seq<Mount>, earlier: seq<Changeset>, cs: Changeset, imageChanged: bool, path: string)
    requires IsAbs(path) && CleanTargets(mounts) && OneSources(mounts)
    requires HeldVerdict(mounts, path, cs, imageChanged).Accept?
    ensures NextShowsSame(mounts, mounts, Changes(earlier) + cs, imageChanged, CompsOf(path))
            <==> forall m | m in MayHold(mounts, path) :: !WrittenBy(m, Changes(earlier))
  {
    var since, held := Changes(earlier) + cs, MayHold(mounts, path);
    FirstFreshExact(held, cs);
    forall m | m in held ensures FreshMount(m, since) <==> WrittenBy(m, Changes(earlier)) {
      WrittenByEither(m, Changes(earlier), cs);
    }
    if m :| m in held && WrittenBy(m, Changes(earlier)) {
      FreshShowsOther(mounts, since, imageChanged, path, m);
    } else {
      FirstFreshExact(held, since);
      AcceptedHolds(mounts, since, imageChanged, path);
    }
  }

  lemma AcceptedHolds(mounts: seq<Mount>, cs: Changeset, imageChanged: bool, path: string)
    requires IsAbs(path) && CleanTargets(mounts) && HeldVerdict(mounts, path, cs, imageChanged).Accept?
    ensures NextShowsSame(mounts, mounts, cs, imageChanged, CompsOf(path))
  {
    forall place: Placement, r: Restart | Places(place, mounts) && Replaces(r, mounts, cs, imageChanged)
      ensures SameContent(r, place, CompsOf(path))
    {
      AcceptedShowsSame(place, r, mounts, cs, imageChanged, path);
    }
  }

  // ----- what a refused mount can show

  function Unchanging(): Stores { Stores((name: string) => "same", (name: string) => "same") }

  /** A content the mount may show in a container just created. */
  function Sample(m: Mount, stores: Stores): string {
    if m.image then "same"
    else if m.empty then ""
    else if m.secret != "" then stores.secrets(m.secret)
    else if m.volumeUnit != "" then stores.volumes(m.volumeUnit)
    else "same"
  }

  function Samples(mounts: seq<Mount>, stores: Stores): View {
    View(mounts, seq(|mounts|, i requires 0 <= i < |mounts| => Sample(mounts[i], stores)), "same")
  }

  function Sources(mounts: seq<Mount>): seq<string> { seq(|mounts|, i => "same") }

  lemma OneDiffers(r: Restart, place: Placement, p: Comps, i: nat)
    requires |place| == |r.before.mounts| == |r.before.content| == |r.after.content|
             && r.after.mounts == r.before.mounts
    requires i < |place| && Shows(r.before.mounts, place, p, i) && r.before.rootfs == r.after.rootfs == "same"
    requires || (r.after.content[i] == "other" && forall j | 0 <= j < |place| :: r.before.content[j] != "other")
             || (r.before.content[i] == "other" && forall j | 0 <= j < |place| :: r.after.content[j] != "other")
    ensures !SameContent(r, place, p)
  {
    assert MayShow(r.before, place, p, "other") <==> r.before.content[i] == "other";
    assert MayShow(r.after, place, p, "other") <==> r.after.content[i] == "other";
  }

  /** An image mount can show anything at each start. */
  lemma ImageDiffers(mounts: seq<Mount>, place: Placement, p: Comps, i: nat, cs: Changeset, imageChanged: bool)
    requires |place| == |mounts| && i < |mounts| && Shows(mounts, place, p, i) && mounts[i].image
    ensures !NextShowsSame(mounts, mounts, cs, imageChanged, p)
  {
    var before := Samples(mounts, Unchanging());
    var after := before.(content := before.content[i := "other"]);
    var r := Restart(before, after, Unchanging(), Unchanging(), Sources(mounts));
    assert Places(place, mounts) && Replaces(r, mounts, cs, imageChanged);
    OneDiffers(r, place, p, i);
  }

  /** An empty mount loses what was written into it. */
  lemma EmptyDiffers(mounts: seq<Mount>, place: Placement, p: Comps, i: nat, cs: Changeset, imageChanged: bool)
    requires |place| == |mounts| && i < |mounts| && Shows(mounts, place, p, i) && mounts[i].empty && !mounts[i].image
    ensures !NextShowsSame(mounts, mounts, cs, imageChanged, p)
  {
    var after := Samples(mounts, Unchanging());
    var before := after.(content := after.content[i := "other"]);
    var r := Restart(before, after, Unchanging(), Unchanging(), Sources(mounts));
    assert Places(place, mounts) && Replaces(r, mounts, cs, imageChanged);
    OneDiffers(r, place, p, i);
  }

  /** The stores after the changes wrote the mount's source. */
  function Rewritten(m: Mount): Stores {
    Stores((name: string) => if m.secret != "" && name == m.secret then "other" else "same",
           (name: string) => if m.secret == "" && name == m.volumeUnit then "other" else "same")
  }

  lemma RewrittenEvolves(m: Mount, cs: Changeset)
    requires WrittenBy(m, cs) && OneSource(m)
    ensures Evolves(Unchanging(), Rewritten(m), cs)
  {
    forall name | forall c | c in cs && c.destPath == "secret:" + name :: c.action.Delete? || c.action.Noop?
      ensures Rewritten(m).secrets(name) == "same"
    {
      assert SecretDestPath(m.secret) == "secret:" + m.secret;
    }
    forall name | forall c | c in cs && c.category == "volume" && Base(c.destPath) == name :: c.action.Noop?
      ensures Rewritten(m).volumes(name) == "same"
    {
    }
  }

  /** A mount whose secret or volume unit the changes wrote shows the new content. */
  lemma WrittenDiffers(mounts: seq<Mount>, place: Placement, p: Comps, i: nat, cs: Changeset, imageChanged: bool)
    requires |place| == |mounts| && i < |mounts| && Shows(mounts, place, p, i)
    requires var m := mounts[i]; !m.image && !m.empty && WrittenBy(m, cs) && OneSource(m)
    ensures !NextShowsSame(mounts, mounts, cs, imageChanged, p)
  {
    var m := mounts[i];
    RewrittenEvolves(m, cs);
    var before, after := Samples(mounts, Unchanging()), Samples(mounts, Rewritten(m));
    var r := Restart(before, after, Unchanging(), Rewritten(m), Sources(mounts));
    assert Places(place, mounts) && Replaces(r, mounts, cs, imageChanged);
    OneDiffers(r, place, p, i);
  }

  /** A fresh mount that may hold the path is shown where it lies on the path itself, and then with
      other content than before. */
  lemma FreshShowsOther(mounts: seq<Mount>, cs: Changeset, imageChanged: bool, path: string, m: Mount)
    requires IsAbs(path) && CleanTargets(mounts) && OneSources(mounts)
    requires m in MayHold(mounts, path) && FreshMount(m, cs)
    ensures !NextShowsSame(mounts, mounts, cs, imageChanged, CompsOf(path))
  {
    var p := CompsOf(path);
    CompsAreClean(path);
    HeldAtMembers(mounts, Render(p), Deepest(mounts, Render(p)));
    var i :| 0 <= i < |mounts| && mounts[i] == m;
    var place := seq(|mounts|, (j: int) => if j == i then p else []);
    MayHoldShown(mounts, p, place, i);
    if m.image {
      ImageDiffers(mounts, place, p, i, cs, imageChanged);
    } else if m.empty {
      EmptyDiffers(mounts, place, p, i, cs, imageChanged);
    } else {
      WrittenDiffers(mounts, place, p, i, cs, imageChanged);
    }
  }

  /** Without a placed mount over the path, the unplaced ones may all lie elsewhere, and a changed
      image shows through. */
  lemma ImageShowsThrough(mounts: seq<Mount>, cs: Changeset, path: string)
    requires IsAbs(path) && CleanTargets(mounts) && forall m | m in MayHold(mounts, path) :: !Placed(m)
    ensures !NextShowsSame(mounts, mounts, cs, true, CompsOf(path))
  {
    var p := CompsOf(path);
    CompsAreClean(path);
    var place := seq(|mounts|, (j: int) => p + ["away"]);
    forall i | 0 <= i < |mounts| ensures !(TargetOf(mounts, place, i) <= p) {
      if Placed(mounts[i]) {
        PlacedHolds(mounts[i], p);
        if Holds(mounts[i], Render(p)) {
          HoldingIsHeld(mounts, Render(p), mounts[i]);
          assert false;
        }
      }
    }
    var before := Samples(mounts, Unchanging());
    var after := before.(rootfs := "other");
    var r := Restart(before, after, Unchanging(), Unchanging(), Sources(mounts));
    assert Places(place, mounts) && Replaces(r, mounts, cs, true);
    assert NoneHolds(mounts, place, p);
    assert MayShow(after, place, p, "other") && !MayShow(before, place, p, "other");
    assert !SameContent(r, place, p);
  }

  lemma HoldingIsHeld(mounts: seq<Mount>, p: string, m: Mount)
    requires m in mounts && Holds(m, p)
    ensures exists h | h in HeldAt(mounts, p, Deepest(mounts, p)) :: Placed(h)
  {
    HeldAtMembers(mounts, p, Deepest(mounts, p));
    var h := HeldAt(mounts, p, Deepest(mounts, p))[0];
    assert h in HeldAt(mounts, p, Deepest(mounts, p)) && Placed(h);
  }

  /** The guard is exact on the changes it is asked about: over units with the same frozen lines and
      without --volumes-from, an absolute file credential is accepted if and only if every placement
      shows it alike before and after. What is refused for a mount or the image can in fact read
      differently. */
  lemma SameViewExact(running: Unit, next: Unit, p: Parser, cs: Changeset, cred: Credential)
    requires Frozen(running, next, p) && IsAbs(cred.path) && !cred.dir && VolumesFrom(next, p) == []
    ensures SameView(running, next, p, cs, cred).Accept? <==>
            NextShowsSame(UnitMounts(running, p), UnitMounts(next, p), cs, OtherImage(running, next),
              CompsOf(cred.path))
  {
    FrozenKeepsMounts(running, next, p);
    UnitMountsClean(next, p);
    UnitMountsOneSource(next, p);
    var mounts, imageChanged := UnitMounts(next, p), OtherImage(running, next);
    var held := MayHold(mounts, cred.path);
    FirstFreshExact(held, cs);
    match HeldVerdict(mounts, cred.path, cs, imageChanged)
    case Accept => AcceptedHolds(mounts, cs, imageChanged, cred.path);
    case InChangedImage => ImageShowsThrough(mounts, cs, cred.path);
    case Fresh(_) =>
      var m :| m in held && FreshMount(m, cs);
      FreshShowsOther(mounts, cs, imageChanged, cred.path, m);
  }

  /** What is refused whatever the changes: a path that is not absolute, what --volumes-from may hold,
      and a file below a mount that starts empty or from an image; a directory credential need only be
      absolute. */
  lemma RefusedOutright(running: Unit, next: Unit, p: Parser, cs: Changeset, cred: Credential)
    ensures SameView(running, next, p, cs, cred).Accept? ==> cred.path != "" && cred.path[0] == '/'
    ensures cred.dir && cred.path != "" && cred.path[0] == '/' ==> SameView(running, next, p, cs, cred).Accept?
    ensures SameView(running, next, p, cs, cred).Accept? && !cred.dir ==>
              VolumesFrom(next, p) == []
              && forall m | m in MayHold(UnitMounts(next, p), cred.path) :: !m.empty && !m.image
  {
    FirstFreshExact(MayHold(UnitMounts(next, p), cred.path), cs);
  }

  /** A secret mounted over a path. */
  function SecretMount(secret: string, target: string): Mount {
    Mount(target := target, secret := secret, volumeUnit := "", empty := false, image := false)
  }

  lemma OnlySecretHeld(secret: string, path: string)
    requires secret != "" && IsAbs(path) && Clean(path) == path && Placed(SecretMount(secret, path))
    ensures forall m :: m in MayHold([SecretMount(secret, path)], path) <==> m == SecretMount(secret, path)
  {
    var m := SecretMount(secret, path);
    var mounts := [m];
    HeldAtMembers(mounts, path, Deepest(mounts, path));
    assert m in mounts && Holds(m, path);
    HoldingIsHeld(mounts, path, m);
  }

  /** A secret that an earlier changeset wrote, restarting nothing: a changeset that does not write it
      is accepted, and the next container can show other content. */
  lemma EarlierSecretAccepted(secret: string, path: string)
    requires secret != "" && IsAbs(path) && Clean(path) == path && Placed(SecretMount(secret, path))
    ensures var mounts := [SecretMount(secret, path)];
            var earlier := [[Change(SecretDestPath(secret), "secret", Update)]];
            && HeldVerdict(mounts, path, [], false).Accept?
            && !NextShowsSame(mounts, mounts, Changes(earlier) + [], false, CompsOf(path))
  {
    var m, write := SecretMount(secret, path), Change(SecretDestPath(secret), "secret", Update);
    var mounts, earlier := [m], [[write]];
    OnlySecretHeld(secret, path);
    FirstFreshExact(MayHold(mounts, path), []);
    CleanIsClean(path);
    assert earlier[..0] == [];
    assert write in Changes(earlier) + [];
    FreshShowsOther(mounts, Changes(earlier) + [], false, path, m);
  }
}
