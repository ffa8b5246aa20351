/** The mounts of the Agent unit's container, as the self-restart guard reads them
    (pkg/agent/unitmounts.go), and what the container shows. */
module Mounts {
  import opened Common
  import opened Paths
  import PodmanArgs

  /** The values of each key of a unit's [Container] and [Service] groups, trimmed. */
  datatype Unit = Unit(container: map<string, seq<string>>, service: map<string, seq<string>>)

  function Values(group: map<string, seq<string>>, key: string): seq<string> {
    if key in group then group[key] else []
  }

  /** The parts of podman's unit parser the guard relies on: splitting a value into arguments,
      reading Environment= lines, and reading a boolean. */
  datatype Parser = Parser(
    args: string -> seq<string>,
    keyVals: seq<string> -> map<string, Option<string>>,
    isTrue: string -> bool)

  datatype Mount = Mount(target: string, empty: bool, image: bool, volumeUnit: string, secret: string)

  function PlainMount(target: string): Mount { Mount(target, false, false, "", "") }

  // ----- parsing one value

  /** parseVolume: source:target[:options], or a target alone. */
  function ParseVolume(volume: string, quadlet: bool): Mount {
    var (source, rest, found) := Cut(volume, ':');
    if !found then PlainMount(Clean(source)).(empty := true)
    else
      var target := Cut(rest, ':').0;
      PlainMount(Clean(target)).(
        empty := source == "",
        volumeUnit := if quadlet && HasSuffix(source, ".volume") then source else "")
  }

  datatype MountFields = MountFields(target: string, kind: string, source: string)

  function ReadFields(fields: seq<string>, m: MountFields): MountFields
    decreases |fields|
  {
    if fields == [] then m
    else
      var (key, value, _) := Cut(fields[0], '=');
      ReadFields(fields[1..],
                 if key in ["destination", "dst", "target"] then m.(target := Clean(value))
                 else if key == "type" then m.(kind := value)
                 else if key in ["source", "src"] then m.(source := value)
                 else m)
  }

  /** parseMount: type=…,source=…,destination=…. */
  function ParseMount(spec: string, quadlet: bool): Mount {
    var m := ReadFields(Split(spec, ','), MountFields("", "", ""));
    PlainMount(m.target).(
      empty := m.kind in ["tmpfs", "ramfs", "devpts"] || (m.kind in ["volume", ""] && m.source == ""),
      image := m.kind == "image",
      volumeUnit := if quadlet && HasSuffix(m.source, ".volume") then m.source else "")
  }

  function ParseTmpfs(tmpfs: string): Mount {
    PlainMount(Clean(Cut(tmpfs, ':').0)).(empty := true)
  }

  datatype SecretFields = SecretFields(name: string, target: string, mounted: bool)

  function ReadSecretFields(fields: seq<string>, s: SecretFields): SecretFields
    decreases |fields|
  {
    if fields == [] then s
    else
      var (key, value, _) := Cut(fields[0], '=');
      ReadSecretFields(fields[1..],
                       if key == "source" then s.(name := value)
                       else if key == "type" then s.(mounted := value == "mount")
                       else if key == "target" then s.(target := value)
                       else s)
  }

  const SECRETS_DIR := "/run/secrets"

  /** resolver.ParseSecretMount. */
  function ParseSecretMount(spec: string): SecretFields {
    var fields := Split(spec, ',');
    if |fields| == 1 then SecretFields(spec, Clean(SECRETS_DIR + "/" + spec), true)
    else
      var named := !Cut(fields[0], '=').2;
      var s := ReadSecretFields(if named then fields[1..] else fields,
                                SecretFields(if named then fields[0] else "", "", true));
      if !s.mounted then s.(target := "")
      else
        var target := if s.target == "" then s.name else s.target;
        s.(target := Clean(if IsAbs(target) then target else SECRETS_DIR + "/" + target))
  }

  /** appendSecret: an env secret mounts nothing. */
  function SecretMounts(spec: string): seq<Mount> {
    var s := ParseSecretMount(spec);
    if s.mounted then [PlainMount(s.target).(secret := s.name)] else []
  }

  // ----- the unit's mounts

  function ConcatMap<A, B>(f: A -> seq<B>, s: seq<A>): seq<B> {
    if s == [] then [] else ConcatMap(f, s[..|s| - 1]) + f(s[|s| - 1])
  }

  function AllArgs(u: Unit, p: Parser, key: string): seq<string> {
    ConcatMap(p.args, Values(u.container, key))
  }

  function LookupBool(u: Unit, p: Parser, key: string): bool {
    var v := Values(u.container, key);
    v != [] && p.isTrue(v[|v| - 1])
  }

  /** The mounts of one podman run option, none for --volumes-from. */
  function SettingMounts(s: PodmanArgs.Setting): seq<Mount> {
    if s.0 == "volume" then [ParseVolume(s.1, false)]
    else if s.0 == "mount" then [ParseMount(s.1, false)]
    else if s.0 == "tmpfs" then [ParseTmpfs(s.1)]
    else if s.0 == "secret" then SecretMounts(s.1)
    else []
  }

  function SettingVolumesFrom(s: PodmanArgs.Setting): seq<string> {
    if s.0 in ["volume", "mount", "tmpfs", "secret"] then [] else ["--" + s.0 + " " + s.1]
  }

  function PodmanSettings(u: Unit, p: Parser): seq<PodmanArgs.Setting> {
    PodmanArgs.FlagValues(AllArgs(u, p, "PodmanArgs"), PodmanArgs.MOUNT_FLAGS)
  }

  function VolumeMounts(v: string): seq<Mount> { [ParseVolume(v, true)] }
  function MountMounts(v: string): seq<Mount> { [ParseMount(v, true)] }
  function TmpfsMounts(v: string): seq<Mount> { [ParseTmpfs(v)] }

  function UnitMounts(u: Unit, p: Parser): seq<Mount> {
    ConcatMap(VolumeMounts, Values(u.container, "Volume"))
    + ConcatMap(MountMounts, AllArgs(u, p, "Mount"))
    + ConcatMap(TmpfsMounts, Values(u.container, "Tmpfs"))
    + ConcatMap(SecretMounts, AllArgs(u, p, "Secret"))
    + (if LookupBool(u, p, "VolatileTmp") then [PlainMount("/tmp").(empty := true)] else [])
    + ConcatMap(SettingMounts, PodmanSettings(u, p))
  }

  function VolumesFrom(u: Unit, p: Parser): seq<string> {
    ConcatMap(SettingVolumesFrom, PodmanSettings(u, p))
  }

  lemma ConcatMapStep<A, B>(f: A -> seq<B>, s: seq<A>, i: nat)
    requires i < |s|
    ensures ConcatMap(f, s[..i + 1]) == ConcatMap(f, s[..i]) + f(s[i])
  {
    assert s[..i + 1][..i] == s[..i] && s[..i + 1][i] == s[i];
  }

  /** podmanArgsMounts. */
  method PodmanArgsMounts(u: Unit, p: Parser) returns (mounts: seq<Mount>, volumesFrom: seq<string>)
    ensures mounts == ConcatMap(SettingMounts, PodmanSettings(u, p))
    ensures volumesFrom == VolumesFrom(u, p)
  {
    var settings := PodmanArgs.PodmanArgsValues(AllArgs(u, p, "PodmanArgs"), PodmanArgs.MOUNT_FLAGS);
    mounts, volumesFrom := [], [];
    for i := 0 to |settings|
      invariant mounts == ConcatMap(SettingMounts, settings[..i])
      invariant volumesFrom == ConcatMap(SettingVolumesFrom, settings[..i])
    {
      ConcatMapStep(SettingMounts, settings, i);
      ConcatMapStep(SettingVolumesFrom, settings, i);
      var (flag, value) := settings[i];
      if flag == "volume" {
        mounts := mounts + [ParseVolume(value, false)];
      } else if flag == "mount" {
        mounts := mounts + [ParseMount(value, false)];
      } else if flag == "tmpfs" {
        mounts := mounts + [ParseTmpfs(value)];
      } else if flag == "secret" {
        mounts := mounts + SecretMounts(value);
      } else {
        volumesFrom := volumesFrom + ["--" + flag + " " + value];
      }
    }
    assert settings[..|settings|] == settings;
  }

  method AppendEach(mounts: seq<Mount>, values: seq<string>, parse: string -> seq<Mount>) returns (out: seq<Mount>)
    ensures out == mounts + ConcatMap(parse, values)
  {
    out := mounts;
    for i := 0 to |values|
      invariant out == mounts + ConcatMap(parse, values[..i])
    {
      ConcatMapStep(parse, values, i);
      out := out + parse(values[i]);
    }
    assert values[..|values|] == values;
  }

  /** unitMounts. */
  method ListUnitMounts(u: Unit, p: Parser) returns (mounts: seq<Mount>, volumesFrom: seq<string>)
    ensures mounts == UnitMounts(u, p) && volumesFrom == VolumesFrom(u, p)
  {
    mounts := AppendEach([], Values(u.container, "Volume"), VolumeMounts);
    assert mounts == ConcatMap(VolumeMounts, Values(u.container, "Volume"));
    mounts := AppendEach(mounts, AllArgs(u, p, "Mount"), MountMounts);
    mounts := AppendEach(mounts, Values(u.container, "Tmpfs"), TmpfsMounts);
    mounts := AppendEach(mounts, AllArgs(u, p, "Secret"), SecretMounts);
    if LookupBool(u, p, "VolatileTmp") {
      mounts := mounts + [PlainMount("/tmp").(empty := true)];
    }
    var podmanMounts;
    podmanMounts, volumesFrom := PodmanArgsMounts(u, p);
    mounts := mounts + podmanMounts;
  }

  /** The keys of [Container] the mounts are read from. */
  const MOUNT_KEYS := ["Volume", "Mount", "Tmpfs", "Secret", "VolatileTmp", "PodmanArgs"]

  lemma MountsDependOnKeys(u: Unit, v: Unit, p: Parser)
    requires forall key | key in MOUNT_KEYS :: Values(u.container, key) == Values(v.container, key)
    ensures UnitMounts(u, p) == UnitMounts(v, p) && VolumesFrom(u, p) == VolumesFrom(v, p)
  {
    assert forall key | key in MOUNT_KEYS :: AllArgs(u, p, key) == AllArgs(v, p, key);
    assert "Volume" in MOUNT_KEYS && "Mount" in MOUNT_KEYS && "Tmpfs" in MOUNT_KEYS && "Secret" in MOUNT_KEYS;
    assert "VolatileTmp" in MOUNT_KEYS && "PodmanArgs" in MOUNT_KEYS;
  }

  // ----- targets are clean

  /** A target the container path of which the guard reads off: absolute ones are path.Clean's. */
  ghost predicate CleanTarget(m: Mount) {
    IsAbs(m.target) ==> m.target == Render(CompsOf(m.target))
  }

  ghost predicate CleanTargets(mounts: seq<Mount>) {
    forall i | 0 <= i < |mounts| :: CleanTarget(mounts[i])
  }

  lemma {:induction false} ReduceRelative(parts: seq<string>, kept: seq<string>)
    requires forall c | c in parts :: '/' !in c
    requires forall c | c in kept :: c != "" && '/' !in c
    ensures forall c | c in Reduce(false, parts, kept) :: c != "" && '/' !in c
    decreases |parts|
  {
    if parts != [] {
      var c, rest := parts[0], parts[1..];
      assert c in parts && forall d | d in rest :: d in parts;
      ReduceRelative(rest, kept);
      if c != "" {
        ReduceRelative(rest, kept + [c]);
      }
      if kept != [] {
        var shorter := kept[..|kept| - 1];
        forall d | d in shorter ensures d != "" && '/' !in d { assert d in kept; }
        ReduceRelative(rest, shorter);
      }
    }
  }

  lemma CleanIsClean(target: string)
    ensures IsAbs(Clean(target)) ==> Clean(target) == Render(CompsOf(Clean(target)))
  {
    if IsAbs(target) {
      CompsAreClean(target);
      RenderRoundTrip(CompsOf(target));
    } else {
      SplitParts(target, '/');
      ReduceRelative(Split(target, '/'), []);
      var kept := Reduce(false, Split(target, '/'), []);
      if kept != [] {
        SlashedHead(kept);
        assert kept[0] in kept && kept[0][0] in kept[0];
        assert Clean(target)[0] == kept[0][0];
      }
    }
  }

  lemma {:induction false} FieldsTargetClean(fields: seq<string>, m: MountFields)
    requires CleanTarget(PlainMount(m.target))
    ensures CleanTarget(PlainMount(ReadFields(fields, m).target))
    decreases |fields|
  {
    if fields != [] {
      var (key, value, _) := Cut(fields[0], '=');
      CleanIsClean(value);
      FieldsTargetClean(fields[1..],
                        if key in ["destination", "dst", "target"] then m.(target := Clean(value))
                        else if key == "type" then m.(kind := value)
                        else if key in ["source", "src"] then m.(source := value)
                        else m);
    }
  }

  lemma ParsedTargetsClean(v: string, quadlet: bool)
    ensures CleanTarget(ParseVolume(v, quadlet)) && CleanTarget(ParseMount(v, quadlet)) && CleanTarget(ParseTmpfs(v))
    ensures CleanTargets(SecretMounts(v))
  {
    CleanIsClean(Cut(v, ':').0);
    CleanIsClean(Cut(Cut(v, ':').1, ':').0);
    FieldsTargetClean(Split(v, ','), MountFields("", "", ""));
    SecretTargetClean(v);
  }

  lemma SecretTargetClean(spec: string)
    ensures ParseSecretMount(spec).mounted ==> CleanTarget(PlainMount(ParseSecretMount(spec).target))
  {
    var fields := Split(spec, ',');
    if |fields| == 1 {
      CleanIsClean(SECRETS_DIR + "/" + spec);
    } else {
      var named := !Cut(fields[0], '=').2;
      var s := ReadSecretFields(if named then fields[1..] else fields,
                                SecretFields(if named then fields[0] else "", "", true));
      var target := if s.target == "" then s.name else s.target;
      CleanIsClean(if IsAbs(target) then target else SECRETS_DIR + "/" + target);
    }
  }

  lemma {:induction false} ConcatMapClean<A(!new)>(f: A -> seq<Mount>, s: seq<A>)
    requires forall a: A :: CleanTargets(f(a))
    ensures CleanTargets(ConcatMap(f, s))
  {
    if s != [] {
      ConcatMapClean(f, s[..|s| - 1]);
    }
  }

  lemma CleanConcat(a: seq<Mount>, b: seq<Mount>)
    requires CleanTargets(a) && CleanTargets(b)
    ensures CleanTargets(a + b)
  {
  }

  lemma QuadletTargetsClean(v: string)
    ensures CleanTargets(VolumeMounts(v)) && CleanTargets(MountMounts(v))
    ensures CleanTargets(TmpfsMounts(v)) && CleanTargets(SecretMounts(v))
  {
    ParsedTargetsClean(v, true);
  }

  lemma OneClean(m: Mount)
    requires CleanTarget(m)
    ensures CleanTargets([m])
  {
  }

  lemma SettingTargetsClean(s: PodmanArgs.Setting)
    ensures CleanTargets(SettingMounts(s))
  {
    ParsedTargetsClean(s.1, false);
    OneClean(ParseVolume(s.1, false));
    OneClean(ParseMount(s.1, false));
    OneClean(ParseTmpfs(s.1));
  }

  /** Every absolute target unitMounts reports is clean. */
  lemma UnitMountsClean(u: Unit, p: Parser)
    ensures CleanTargets(UnitMounts(u, p))
  {
    forall v: string { QuadletTargetsClean(v); }
    forall s: PodmanArgs.Setting { SettingTargetsClean(s); }
    TmpIsClean();
    var volumes := ConcatMap(VolumeMounts, Values(u.container, "Volume"));
    var mounts := ConcatMap(MountMounts, AllArgs(u, p, "Mount"));
    var tmpfs := ConcatMap(TmpfsMounts, Values(u.container, "Tmpfs"));
    var secrets := ConcatMap(SecretMounts, AllArgs(u, p, "Secret"));
    var tmp := if LookupBool(u, p, "VolatileTmp") then [PlainMount("/tmp").(empty := true)] else [];
    ConcatMapClean(VolumeMounts, Values(u.container, "Volume"));
    ConcatMapClean(MountMounts, AllArgs(u, p, "Mount"));
    ConcatMapClean(TmpfsMounts, Values(u.container, "Tmpfs"));
    ConcatMapClean(SecretMounts, AllArgs(u, p, "Secret"));
    ConcatMapClean(SettingMounts, PodmanSettings(u, p));
    CleanConcat(volumes, mounts);
    CleanConcat(volumes + mounts, tmpfs);
    CleanConcat(volumes + mounts + tmpfs, secrets);
    CleanConcat(volumes + mounts + tmpfs + secrets, tmp);
    CleanConcat(volumes + mounts + tmpfs + secrets + tmp, ConcatMap(SettingMounts, PodmanSettings(u, p)));
  }

  lemma TmpIsClean()
    ensures CleanTarget(PlainMount("/tmp"))
  {
    var comps: Comps := ["tmp"];
    assert Slashed(comps) == "/" + "tmp" + "";
    RenderRoundTrip(comps);
  }

  // ----- a mount is filled from one source

  /** Not from both a secret and a volume unit. */
  predicate OneSource(m: Mount) { m.secret == "" || m.volumeUnit == "" }

  ghost predicate OneSources(mounts: seq<Mount>) { forall m | m in mounts :: OneSource(m) }

  lemma {:induction false} ConcatMapOneSource<A(!new)>(f: A -> seq<Mount>, s: seq<A>)
    requires forall a :: OneSources(f(a))
    ensures OneSources(ConcatMap(f, s))
  {
    if s != [] {
      ConcatMapOneSource(f, s[..|s| - 1]);
    }
  }

  lemma OneSourceConcat(a: seq<Mount>, b: seq<Mount>)
    requires OneSources(a) && OneSources(b)
    ensures OneSources(a + b)
  {
  }

  lemma ValueOneSource(v: string, quadlet: bool)
    ensures OneSource(ParseVolume(v, quadlet)) && OneSource(ParseMount(v, quadlet)) && OneSource(ParseTmpfs(v))
    ensures OneSources(SecretMounts(v))
  {
  }

  lemma KeyOneSource(v: string)
    ensures OneSources(VolumeMounts(v)) && OneSources(MountMounts(v)) && OneSources(TmpfsMounts(v))
  {
    ValueOneSource(v, true);
  }

  lemma SettingOneSource(s: PodmanArgs.Setting)
    ensures OneSources(SettingMounts(s))
  {
    ValueOneSource(s.1, false);
  }

  lemma AllParsedOneSource()
    ensures forall v :: OneSources(VolumeMounts(v))
    ensures forall v :: OneSources(MountMounts(v))
    ensures forall v :: OneSources(TmpfsMounts(v))
    ensures forall v :: OneSources(SecretMounts(v))
    ensures forall s :: OneSources(SettingMounts(s))
  {
    forall v ensures OneSources(VolumeMounts(v)) { KeyOneSource(v); }
    forall v ensures OneSources(MountMounts(v)) { KeyOneSource(v); }
    forall v ensures OneSources(TmpfsMounts(v)) { KeyOneSource(v); }
    forall v ensures OneSources(SecretMounts(v)) { ValueOneSource(v, true); }
    forall s ensures OneSources(SettingMounts(s)) { SettingOneSource(s); }
  }

  /** Every mount unitMounts reports is filled from one source. */
  lemma UnitMountsOneSource(u: Unit, p: Parser)
    ensures OneSources(UnitMounts(u, p))
  {
    AllParsedOneSource();
    var volumes := ConcatMap(VolumeMounts, Values(u.container, "Volume"));
    var mounts := ConcatMap(MountMounts, AllArgs(u, p, "Mount"));
    var tmpfs := ConcatMap(TmpfsMounts, Values(u.container, "Tmpfs"));
    var secrets := ConcatMap(SecretMounts, AllArgs(u, p, "Secret"));
    var tmp := if LookupBool(u, p, "VolatileTmp") then [PlainMount("/tmp").(empty := true)] else [];
    ConcatMapOneSource(VolumeMounts, Values(u.container, "Volume"));
    ConcatMapOneSource(MountMounts, AllArgs(u, p, "Mount"));
    ConcatMapOneSource(TmpfsMounts, Values(u.container, "Tmpfs"));
    ConcatMapOneSource(SecretMounts, AllArgs(u, p, "Secret"));
    ConcatMapOneSource(SettingMounts, PodmanSettings(u, p));
    OneSourceConcat(volumes, mounts);
    OneSourceConcat(volumes + mounts, tmpfs);
    OneSourceConcat(volumes + mounts + tmpfs, secrets);
    OneSourceConcat(volumes + mounts + tmpfs + secrets, tmp);
    OneSourceConcat(volumes + mounts + tmpfs + secrets + tmp, ConcatMap(SettingMounts, PodmanSettings(u, p)));
  }

  // ----- which mounts may hold a path

  /** placed: an absolute target without a systemd specifier. */
  predicate Placed(m: Mount) { IsAbs(m.target) && '%' !in m.target }

  predicate Holds(m: Mount, p: string) { Placed(m) && Under(p, m.target) }

  /** The length of the longest placed target that holds `p`, -1 when none does. */
  function Deepest(mounts: seq<Mount>, p: string): int {
    if mounts == [] then -1
    else
      var n, m := |mounts| - 1, mounts[|mounts| - 1];
      var d := Deepest(mounts[..n], p);
      if Holds(m, p) && |m.target| > d then |m.target| else d
  }

  function HeldAt(mounts: seq<Mount>, p: string, depth: int): seq<Mount> {
    if mounts == [] then []
    else
      var n, m := |mounts| - 1, mounts[|mounts| - 1];
      HeldAt(mounts[..n], p, depth) + (if Holds(m, p) && |m.target| == depth then [m] else [])
  }

  function Unplaced(mounts: seq<Mount>): seq<Mount> {
    if mounts == [] then []
    else
      var n, m := |mounts| - 1, mounts[|mounts| - 1];
      Unplaced(mounts[..n]) + (if Placed(m) then [] else [m])
  }

  /** mayHold: the mounts at the deepest target that holds the path, then every unplaced one. */
  function MayHold(mounts: seq<Mount>, p: string): seq<Mount> {
    HeldAt(mounts, Clean(p), Deepest(mounts, Clean(p))) + Unplaced(mounts)
  }

  lemma {:induction false} HeldAtMembers(mounts: seq<Mount>, p: string, depth: int)
    ensures forall m :: m in HeldAt(mounts, p, depth) <==> m in mounts && Holds(m, p) && |m.target| == depth
    ensures forall m :: m in Unplaced(mounts) <==> m in mounts && !Placed(m)
    ensures forall m | m in mounts && Holds(m, p) :: |m.target| <= Deepest(mounts, p)
    ensures depth > Deepest(mounts, p) ==> HeldAt(mounts, p, depth) == []
    ensures Deepest(mounts, p) >= 0 ==> HeldAt(mounts, p, Deepest(mounts, p)) != []
    ensures Deepest(mounts, p) >= -1
  {
    if mounts != [] {
      var n, m := |mounts| - 1, mounts[|mounts| - 1];
      HeldAtMembers(mounts[..n], p, depth);
      HeldAtMembers(mounts[..n], p, Deepest(mounts[..n], p));
      assert mounts == mounts[..n] + [m];
    }
  }

  /** What one more mount makes of the deepest group. */
  lemma HeldNext(done: seq<Mount>, m: Mount, p: string)
    ensures var next, held := done + [m], HeldAt(done, p, Deepest(done, p));
            HeldAt(next, p, Deepest(next, p))
            == if !Holds(m, p) || |m.target| < Deepest(done, p) then held
               else if |m.target| > Deepest(done, p) then [m]
               else held + [m]
    ensures Unplaced(done + [m]) == if Placed(m) then Unplaced(done) else Unplaced(done) + [m]
  {
    assert (done + [m])[..|done|] == done;
    if Holds(m, p) && |m.target| > Deepest(done, p) {
      HeldAtMembers(done, p, |m.target|);
    }
  }

  /** The depth of the group is the length of its first target; without a group nothing is as deep. */
  lemma DepthOfGroup(done: seq<Mount>, p: string)
    ensures var held := HeldAt(done, p, Deepest(done, p));
            if held == [] then Deepest(done, p) == -1 else |held[0].target| == Deepest(done, p) && Holds(held[0], p)
  {
    HeldAtMembers(done, p, Deepest(done, p));
    var held := HeldAt(done, p, Deepest(done, p));
    assert held != [] ==> held[0] in held;
  }

  /** A mount that holds the path, against the first of the group: targets holding one path are prefixes
      of it, so equal lengths are equal targets. */
  lemma GroupNext(done: seq<Mount>, m: Mount, p: string)
    requires Holds(m, p)
    ensures var held, next := HeldAt(done, p, Deepest(done, p)), done + [m];
            HeldAt(next, p, Deepest(next, p))
            == if held == [] || |m.target| > |held[0].target| then [m]
               else if m.target == held[0].target then held + [m]
               else held
  {
    HeldNext(done, m, p);
    DepthOfGroup(done, p);
    var held := HeldAt(done, p, Deepest(done, p));
    if held != [] && |m.target| == |held[0].target| {
      SameLengthSameTarget(p, m.target, held[0].target);
    }
  }

  /** mayHold's single pass keeps a deepest group that every longer target restarts. */
  method MayHoldPass(mounts: seq<Mount>, path: string) returns (all: seq<Mount>)
    ensures all == MayHold(mounts, path)
  {
    var p := Clean(path);
    var held: seq<Mount>, unplaced: seq<Mount> := [], [];
    for i := 0 to |mounts|
      invariant held == HeldAt(mounts[..i], p, Deepest(mounts[..i], p))
      invariant unplaced == Unplaced(mounts[..i])
    {
      assert mounts[..i + 1] == mounts[..i] + [mounts[i]];
      held, unplaced := MayHoldNext(mounts[..i], mounts[i], p, held, unplaced);
    }
    assert mounts[..|mounts|] == mounts;
    all := held + unplaced;
  }

  /** One mount's turn, `done` being those before it. */
  method MayHoldNext(ghost done: seq<Mount>, m: Mount, p: string, held: seq<Mount>, unplaced: seq<Mount>)
    returns (group: seq<Mount>, others: seq<Mount>)
    requires held == HeldAt(done, p, Deepest(done, p)) && unplaced == Unplaced(done)
    ensures group == HeldAt(done + [m], p, Deepest(done + [m], p)) && others == Unplaced(done + [m])
  {
    HeldNext(done, m, p);
    group, others := held, unplaced;
    if !Placed(m) {
      others := unplaced + [m];
    } else if Under(p, m.target) {
      GroupNext(done, m, p);
      if held == [] || |m.target| > |held[0].target| {
        group := [m];
      } else if m.target == held[0].target {
        group := held + [m];
      }
    }
  }

  // ----- what the container shows

  /** A directory for every mount whose target the guard cannot read off: where podman and systemd
      put it. Entries of placed mounts are not used. */
  type Placement = seq<Comps>

  ghost predicate Places(place: Placement, mounts: seq<Mount>) { |place| == |mounts| }

  function TargetOf(mounts: seq<Mount>, place: Placement, i: nat): Comps
    requires |place| == |mounts| && i < |mounts|
  {
    var target := mounts[i].target;
    if target != "" && target[0] == '/' && '%' !in target then CompsOf(target) else place[i]
  }

  /** Mount i is one the container shows at path `p`: no other that holds `p` is deeper. */
  ghost predicate Shows(mounts: seq<Mount>, place: Placement, p: Comps, i: int)
    requires |place| == |mounts|
  {
    && 0 <= i < |mounts| && TargetOf(mounts, place, i) <= p
    && forall j | 0 <= j < |mounts| && TargetOf(mounts, place, j) <= p ::
         |TargetOf(mounts, place, j)| <= |TargetOf(mounts, place, i)|
  }

  ghost predicate NoneHolds(mounts: seq<Mount>, place: Placement, p: Comps)
    requires |place| == |mounts|
  {
    forall i | 0 <= i < |mounts| :: !(TargetOf(mounts, place, i) <= p)
  }

  lemma {:induction false} SomeShows(mounts: seq<Mount>, place: Placement, p: Comps, i: nat)
    requires |place| == |mounts| && i < |mounts| && TargetOf(mounts, place, i) <= p
    ensures exists j :: Shows(mounts, place, p, j)
    decreases |p| - |TargetOf(mounts, place, i)|
  {
    if !Shows(mounts, place, p, i) {
      var j :| 0 <= j < |mounts| && TargetOf(mounts, place, j) <= p
               && |TargetOf(mounts, place, j)| > |TargetOf(mounts, place, i)|;
      SomeShows(mounts, place, p, j);
    }
  }

  /** The spelling of a placed target holds the path's spelling when its components begin the
      path's; its length grows with its depth along the path. */
  lemma PlacedHolds(m: Mount, p: Comps)
    requires Placed(m) && CleanTarget(m) && IsClean(p)
    ensures Holds(m, Render(p)) <==> CompsOf(m.target) <= p
  {
    CompsAreClean(m.target);
    UnderIsPrefix(p, CompsOf(m.target));
  }

  lemma {:induction false} SlashedLength(a: Comps, b: Comps)
    requires a <= b
    ensures |Slashed(a)| <= |Slashed(b)| && (a != b ==> |Slashed(a)| < |Slashed(b)|)
  {
    if a != [] {
      SlashedLength(a[1..], b[1..]);
      assert a == [a[0]] + a[1..] && b == [b[0]] + b[1..];
    }
  }

  /** Along one path, the longer target is the deeper one. */
  lemma LongerIsDeeper(s: Mount, t: Mount, p: Comps)
    requires Placed(s) && CleanTarget(s) && CompsOf(s.target) <= p
    requires Placed(t) && CleanTarget(t) && CompsOf(t.target) <= p
    ensures |s.target| <= |t.target| <==> |CompsOf(s.target)| <= |CompsOf(t.target)|
  {
    var a, b := CompsOf(s.target), CompsOf(t.target);
    CompsAreClean(s.target);
    CompsAreClean(t.target);
    if |a| <= |b| {
      assert a <= b;
      RenderedLength(a, b);
    } else {
      assert b <= a;
      RenderedLength(b, a);
    }
  }

  lemma RenderedLength(a: Comps, b: Comps)
    requires IsClean(a) && IsClean(b) && a <= b
    ensures |Render(a)| <= |Render(b)| && (a != b ==> |Render(a)| < |Render(b)|)
  {
    SlashedLength(a, b);
    if b != [] {
      SlashedEndsInComponent(b);
    }
  }

  /** mayHold is exact: a mount is returned if and only if some placement of the unplaced mounts
      makes the container show it at the path. */
  lemma MayHoldExact(mounts: seq<Mount>, path: string, m: Mount)
    requires CleanTargets(mounts) && IsAbs(path)
    ensures m in MayHold(mounts, path) <==>
            exists place, i :: Places(place, mounts) && Shows(mounts, place, CompsOf(path), i) && mounts[i] == m
  {
    var p := CompsOf(path);
    CompsAreClean(path);
    HeldAtMembers(mounts, Render(p), Deepest(mounts, Render(p)));
    if m in MayHold(mounts, path) {
      var i :| 0 <= i < |mounts| && mounts[i] == m;
      var place := seq(|mounts|, (j: int) => if j == i then p else []);
      MayHoldShown(mounts, p, place, i);
      assert Places(place, mounts) && Shows(mounts, place, p, i) && mounts[i] == m;
    }
    if place, i :| Places(place, mounts) && Shows(mounts, place, p, i) && mounts[i] == m {
      ShownMayHold(mounts, p, place, i);
    }
  }

  /** Placed at the path itself an unplaced mount is shown; placed at "/" it hides no other. */
  lemma MayHoldShown(mounts: seq<Mount>, p: Comps, place: Placement, i: nat)
    requires CleanTargets(mounts) && IsClean(p) && i < |mounts| == |place|
    requires forall j | 0 <= j < |place| :: place[j] == if j == i then p else []
    requires Placed(mounts[i]) ==> Holds(mounts[i], Render(p)) && |mounts[i].target| == Deepest(mounts, Render(p))
    ensures Shows(mounts, place, p, i)
  {
    HeldAtMembers(mounts, Render(p), 0);
    if Placed(mounts[i]) {
      PlacedHolds(mounts[i], p);
    }
    forall j | 0 <= j < |mounts| && TargetOf(mounts, place, j) <= p
      ensures |TargetOf(mounts, place, j)| <= |TargetOf(mounts, place, i)|
    {
      if Placed(mounts[j]) && Placed(mounts[i]) {
        PlacedHolds(mounts[j], p);
        LongerIsDeeper(mounts[j], mounts[i], p);
      }
    }
  }

  lemma ShownMayHold(mounts: seq<Mount>, p: Comps, place: Placement, i: nat)
    requires CleanTargets(mounts) && IsClean(p) && |place| == |mounts| && Shows(mounts, place, p, i)
    ensures mounts[i] in HeldAt(mounts, Render(p), Deepest(mounts, Render(p))) + Unplaced(mounts)
  {
    var d := Deepest(mounts, Render(p));
    HeldAtMembers(mounts, Render(p), d);
    assert mounts[i] in mounts;
    if Placed(mounts[i]) {
      PlacedHolds(mounts[i], p);
      var m := HeldAt(mounts, Render(p), d)[0];
      assert m in HeldAt(mounts, Render(p), d);
      var j :| 0 <= j < |mounts| && mounts[j] == m;
      PlacedHolds(m, p);
      assert |TargetOf(mounts, place, j)| <= |TargetOf(mounts, place, i)|;
      LongerIsDeeper(m, mounts[i], p);
    }
  }
}
