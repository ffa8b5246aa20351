/** What the mount options of a unit report, option by option (pkg/agent/unitmounts.go:79-137,
    pkg/resolver/agent.go:71-108). */
module MountSpecs {
  import opened Common
  import opened Paths
  import opened Mounts
  import PodmanArgs

  // ----- Volume= and --volume

  lemma {:induction false} CutAt(a: string, sep: char, b: string)
    requires sep !in a
    ensures Cut(a + [sep] + b, sep) == (a, b, true)
  {
    var s := a + [sep] + b;
    if a == "" {
      assert s[1..] == b;
    } else {
      assert s[0] == a[0] && s[1..] == a[1..] + [sep] + b;
      CutAt(a[1..], sep, b);
      assert a == [a[0]] + a[1..];
    }
  }

  /** source:target and source:target:options: an empty source is an anonymous volume, which starts
      empty; in Quadlet a source that ends in .volume names a volume unit. */
  lemma VolumeReported(source: string, target: string, options: string, quadlet: bool)
    requires ':' !in source && ':' !in target
    ensures var m := Mount(Clean(target), source == "", false, if quadlet && HasSuffix(source, ".volume") then source
            else "", "");
            ParseVolume(source + ":" + target, quadlet) == m
              && ParseVolume(source + ":" + target + ":" + options, quadlet) == m
  {
    CutAt(source, ':', target);
    assert source + ":" + target + ":" + options == source + [':'] + (target + ":" + options);
    CutAt(source, ':', target + ":" + options);
    CutAt(target, ':', options);
    PodmanArgs.CutAbsent(target, ':');
    assert source + ":" + target == source + [':'] + target;
    assert target + ":" + options == target + [':'] + options;
  }

  /** A target alone is an anonymous volume; a tmpfs starts empty, whatever its options. */
  lemma TargetAloneReported(target: string, options: string, quadlet: bool)
    requires ':' !in target
    ensures ParseVolume(target, quadlet) == Mount(Clean(target), true, false, "", "")
    ensures ParseTmpfs(target) == ParseTmpfs(target + ":" + options) == Mount(Clean(target), true, false, "", "")
  {
    PodmanArgs.CutAbsent(target, ':');
    assert target + ":" + options == target + [':'] + options;
    CutAt(target, ':', options);
  }

  // ----- Mount= and --mount

  /** The value of the last field with one of the keys. */
  function LastOf(fields: seq<string>, keys: seq<string>): Option<string> {
    if fields == [] then None
    else
      var (key, value, _) := Cut(fields[|fields| - 1], '=');
      if key in keys then Some(value) else LastOf(fields[..|fields| - 1], keys)
  }

  function Default(o: Option<string>, otherwise: string): string { if o.Some? then o.value else otherwise }

  lemma {:induction false} LastOfCons(field: string, fields: seq<string>, keys: seq<string>)
    ensures LastOf([field] + fields, keys) ==
            if LastOf(fields, keys).Some? then LastOf(fields, keys)
            else if Cut(field, '=').0 in keys then Some(Cut(field, '=').1) else None
  {
    if fields == [] {
      assert [field] + fields == [field] && [field][..0] == [];
    } else {
      var n := |fields| - 1;
      assert ([field] + fields)[..n + 1] == [field] + fields[..n];
      LastOfCons(field, fields[..n], keys);
    }
  }

  const TARGET_KEYS := ["destination", "dst", "target"]
  const SOURCE_KEYS := ["source", "src"]

  /** Of several fields with one meaning the last counts. */
  lemma {:induction false} FieldsRead(fields: seq<string>, m: MountFields)
    ensures var r, target := ReadFields(fields, m), LastOf(fields, TARGET_KEYS);
            && r.target == (if target.Some? then Clean(target.value) else m.target)
            && r.kind == Default(LastOf(fields, ["type"]), m.kind)
            && r.source == Default(LastOf(fields, SOURCE_KEYS), m.source)
    decreases |fields|
  {
    if fields != [] {
      var (key, value, _) := Cut(fields[0], '=');
      assert fields == [fields[0]] + fields[1..];
      LastOfCons(fields[0], fields[1..], TARGET_KEYS);
      LastOfCons(fields[0], fields[1..], ["type"]);
      LastOfCons(fields[0], fields[1..], SOURCE_KEYS);
      OneMeaning(key);
      FieldsRead(fields[1..],
                 if key in ["destination", "dst", "target"] then m.(target := Clean(value))
                 else if key == "type" then m.(kind := value)
                 else if key in ["source", "src"] then m.(source := value)
                 else m);
    }
  }

  lemma OneMeaning(key: string)
    ensures key in TARGET_KEYS ==> key != "type" && key !in SOURCE_KEYS
    ensures key == "type" ==> key !in SOURCE_KEYS
  {
    assert "destination"[0] == 'd' && "dst"[0] == 'd' && "target"[1] == 'a' && "type"[1] == 'y';
    assert "source"[0] == 's' && "src"[0] == 's';
  }

  /** type=…,source=…,destination=…, in any order and spelling: a tmpfs, ramfs or devpts mount starts
      empty, as does a volume, the default type, without a source; a mount of type image is an image's;
      in Quadlet a source that ends in .volume names a volume unit. */
  lemma MountReported(spec: string, quadlet: bool)
    ensures var fields := Split(spec, ',');
            var kind, source := Default(LastOf(fields, ["type"]), ""), Default(LastOf(fields, SOURCE_KEYS), "");
            var target, m := LastOf(fields, TARGET_KEYS), ParseMount(spec, quadlet);
            && m.target == (if target.Some? then Clean(target.value) else "")
            && (m.empty <==> kind == "tmpfs" || kind == "ramfs" || kind == "devpts"
                             || ((kind == "volume" || kind == "") && source == ""))
            && (m.image <==> kind == "image")
            && m.volumeUnit == (if quadlet && HasSuffix(source, ".volume") then source else "")
            && m.secret == ""
  {
    FieldsRead(Split(spec, ','), MountFields("", "", ""));
  }

  // ----- Secret= and --secret

  lemma {:induction false} SecretFieldsRead(fields: seq<string>, s: SecretFields)
    ensures var r, kind := ReadSecretFields(fields, s), LastOf(fields, ["type"]);
            && r.name == Default(LastOf(fields, ["source"]), s.name)
            && r.target == Default(LastOf(fields, ["target"]), s.target)
            && r.mounted == (if kind.Some? then kind.value == "mount" else s.mounted)
    decreases |fields|
  {
    if fields != [] {
      var (key, value, _) := Cut(fields[0], '=');
      assert fields == [fields[0]] + fields[1..];
      LastOfCons(fields[0], fields[1..], ["source"]);
      LastOfCons(fields[0], fields[1..], ["type"]);
      LastOfCons(fields[0], fields[1..], ["target"]);
      assert "source"[0] == 's' && "type"[1] == 'y' && "target"[1] == 'a';
      SecretFieldsRead(fields[1..],
                       if key == "source" then s.(name := value)
                       else if key == "type" then s.(mounted := value == "mount")
                       else if key == "target" then s.(target := value)
                       else s);
    }
  }

  /** A secret named alone is mounted below /run/secrets. */
  lemma SecretAloneReported(name: string)
    requires ',' !in name
    ensures SecretMounts(name) == [Mount(Clean("/run/secrets/" + name), false, false, "", name)]
  {
    SplitNone(name, ',');
    assert SECRETS_DIR + "/" + name == "/run/secrets/" + name;
  }

  lemma {:induction false} SplitNone(s: string, sep: char)
    requires sep !in s
    ensures Split(s, sep) == [s]
  {
    if s != "" {
      assert s[0] in s && forall c | c in s[1..] :: c in s;
      SplitNone(s[1..], sep);
      assert s == [s[0]] + s[1..];
    }
  }

  /** The secret a list of fields names: the source field, or the first field when it is no option. */
  function SecretName(fields: seq<string>): string
    requires fields != []
  {
    var named := !Cut(fields[0], '=').2;
    Default(LastOf(if named then fields[1..] else fields, ["source"]), if named then fields[0] else "")
  }

  /** A secret with options mounts nothing when its type is not mount; else it is mounted at its target,
      or by its name, below /run/secrets when that is relative. */
  lemma SecretReported(spec: string)
    requires |Split(spec, ',')| > 1
    ensures var fields := Split(spec, ',');
            var options := if Cut(fields[0], '=').2 then fields else fields[1..];
            var kind, target, name := LastOf(options, ["type"]), Default(LastOf(options, ["target"]), ""),
              SecretName(fields);
            var at := if target == "" then name else target;
            SecretMounts(spec) ==
              if kind.Some? && kind.value != "mount" then []
              else [Mount(Clean(if at != "" && at[0] == '/' then at else "/run/secrets/" + at), false, false, "", name)]
  {
    var fields := Split(spec, ',');
    var named := !Cut(fields[0], '=').2;
    SecretFieldsRead(if named then fields[1..] else fields, SecretFields(if named then fields[0] else "", "", true));
    var at := ReadSecretFields(if named then fields[1..] else fields,
      SecretFields(if named then fields[0] else "", "", true));
    assert SECRETS_DIR + "/" + at.target == "/run/secrets/" + at.target;
    assert SECRETS_DIR + "/" + at.name == "/run/secrets/" + at.name;
  }

  // ----- all of a unit's mounts

  lemma {:induction false} ConcatMembers<A, B>(f: A -> seq<B>, s: seq<A>, x: B)
    ensures x in ConcatMap(f, s) <==> exists a | a in s :: x in f(a)
  {
    if s != [] {
      ConcatMembers(f, s[..|s| - 1], x);
      assert s == s[..|s| - 1] + [s[|s| - 1]];
    }
  }

  /** An argument of a line of the key. */
  ghost predicate IsArg(u: Unit, p: Parser, key: string, arg: string) {
    key in u.container && exists line | line in u.container[key] :: arg in p.args(line)
  }

  lemma ArgsExact(u: Unit, p: Parser, key: string, arg: string)
    ensures arg in AllArgs(u, p, key) <==> IsArg(u, p, key, arg)
  {
    ConcatMembers(p.args, Values(u.container, key), arg);
  }

  /** The flags looked for in PodmanArgs=, and what they are set to. */
  ghost predicate IsSetting(u: Unit, p: Parser, flag: string, value: string) {
    (flag, value) in PodmanArgs.FlagValues(AllArgs(u, p, "PodmanArgs"),
                                           PodmanArgs.FlagSpec(["volume", "mount", "tmpfs", "secret", "volumes-from"],
                                                               Some('v'), "volume"))
  }

  ghost predicate OfVolume(u: Unit, m: Mount) {
    "Volume" in u.container && exists v | v in u.container["Volume"] :: m == ParseVolume(v, true)
  }

  ghost predicate OfMount(u: Unit, p: Parser, m: Mount) {
    exists v :: IsArg(u, p, "Mount", v) && m == ParseMount(v, true)
  }

  ghost predicate OfTmpfs(u: Unit, m: Mount) {
    "Tmpfs" in u.container && exists v | v in u.container["Tmpfs"] :: m == ParseTmpfs(v)
  }

  ghost predicate OfSecret(u: Unit, p: Parser, m: Mount) {
    exists v :: IsArg(u, p, "Secret", v) && m in SecretMounts(v)
  }

  /** The last VolatileTmp= line is true. */
  ghost predicate OfVolatileTmp(u: Unit, p: Parser, m: Mount) {
    && "VolatileTmp" in u.container && |u.container["VolatileTmp"]| > 0
    && p.isTrue(u.container["VolatileTmp"][|u.container["VolatileTmp"]| - 1])
    && m == Mount("/tmp", true, false, "", "")
  }

  ghost predicate OfPodmanArgs(u: Unit, p: Parser, m: Mount) {
    || (exists v :: IsSetting(u, p, "volume", v) && m == ParseVolume(v, false))
    || (exists v :: IsSetting(u, p, "mount", v) && m == ParseMount(v, false))
    || (exists v :: IsSetting(u, p, "tmpfs", v) && m == ParseTmpfs(v))
    || (exists v :: IsSetting(u, p, "secret", v) && m in SecretMounts(v))
  }

  lemma {:induction false} SettingNames(args: seq<string>, spec: PodmanArgs.FlagSpec)
    requires spec.shortName in spec.longs
    ensures forall s | s in PodmanArgs.FlagValues(args, spec) :: s.0 in spec.longs
    decreases |args|
  {
    if args != [] {
      FlagName(args[0], spec);
      SettingNames(args[1..], spec);
      if |args| > 1 {
        SettingNames(args[1..][1..], spec);
      }
    }
  }

  lemma FlagName(arg: string, spec: PodmanArgs.FlagSpec)
    requires spec.shortName in spec.longs
    ensures var f := PodmanArgs.FlagOf(arg, spec); f.Flag? ==> f.name in spec.longs
  {
    if "-" <= arg {
      ClusterName(arg[1..], spec);
    }
  }

  lemma {:induction false} ClusterName(cluster: string, spec: PodmanArgs.FlagSpec)
    ensures var f := PodmanArgs.ClusterFlag(cluster, spec); f.Flag? ==> f.name == spec.shortName
  {
    if cluster != "" {
      ClusterName(cluster[1..], spec);
    }
  }

  /** What a setting mounts, by its flag. */
  lemma SettingExact(flag: string, value: string, m: Mount)
    ensures m in SettingMounts((flag, value))
            <==> || (flag == "volume" && m == ParseVolume(value, false))
                 || (flag == "mount" && m == ParseMount(value, false))
                 || (flag == "tmpfs" && m == ParseTmpfs(value))
                 || (flag == "secret" && m in SecretMounts(value))
  {
    assert "volume"[0] == 'v' && "mount"[0] == 'm' && "tmpfs"[0] == 't' && "secret"[0] == 's';
  }

  lemma PodmanMountsExact(u: Unit, p: Parser, m: Mount)
    ensures m in ConcatMap(SettingMounts, PodmanSettings(u, p)) <==> OfPodmanArgs(u, p, m)
  {
    ConcatMembers(SettingMounts, PodmanSettings(u, p), m);
    if s :| s in PodmanSettings(u, p) && m in SettingMounts(s) {
      SettingExact(s.0, s.1, m);
      assert IsSetting(u, p, s.0, s.1);
    }
    forall flag, v | IsSetting(u, p, flag, v) ensures (flag, v) in PodmanSettings(u, p) {
    }
    forall flag, v { SettingExact(flag, v, m); }
  }

  /** Every mount of the unit is reported, and nothing else: those of its own keys as Quadlet reads them,
      and those of its PodmanArgs= as podman run does. */
  lemma UnitMountsExact(u: Unit, p: Parser, m: Mount)
    ensures m in UnitMounts(u, p)
            <==> || OfVolume(u, m) || OfMount(u, p, m) || OfTmpfs(u, m) || OfSecret(u, p, m)
                 || OfVolatileTmp(u, p, m) || OfPodmanArgs(u, p, m)
  {
    var tmp := if LookupBool(u, p, "VolatileTmp") then [PlainMount("/tmp").(empty := true)] else [];
    InParts(ConcatMap(VolumeMounts, Values(u.container, "Volume")), ConcatMap(MountMounts, AllArgs(u, p, "Mount")),
      ConcatMap(TmpfsMounts, Values(u.container, "Tmpfs")), ConcatMap(SecretMounts, AllArgs(u, p, "Secret")),
      tmp, ConcatMap(SettingMounts, PodmanSettings(u, p)), m);
    OwnMountsReported(u, p, m);
    VolatileReported(u, p, m);
    PodmanMountsExact(u, p, m);
  }

  lemma InParts(a: seq<Mount>, b: seq<Mount>, c: seq<Mount>, d: seq<Mount>, e: seq<Mount>, f: seq<Mount>, m: Mount)
    ensures m in a + b + c + d + e + f <==> m in a || m in b || m in c || m in d || m in e || m in f
  {
  }

  lemma VolatileReported(u: Unit, p: Parser, m: Mount)
    ensures m in (if LookupBool(u, p, "VolatileTmp") then [PlainMount("/tmp").(empty := true)] else [])
            <==> OfVolatileTmp(u, p, m)
  {
  }

  lemma OwnMountsReported(u: Unit, p: Parser, m: Mount)
    ensures m in ConcatMap(VolumeMounts, Values(u.container, "Volume")) <==> OfVolume(u, m)
    ensures m in ConcatMap(MountMounts, AllArgs(u, p, "Mount")) <==> OfMount(u, p, m)
    ensures m in ConcatMap(TmpfsMounts, Values(u.container, "Tmpfs")) <==> OfTmpfs(u, m)
    ensures m in ConcatMap(SecretMounts, AllArgs(u, p, "Secret")) <==> OfSecret(u, p, m)
  {
    VolumesReported(u, m);
    MountsReported(u, p, m);
    TmpfsReported(u, m);
    SecretsReported(u, p, m);
  }

  lemma VolumesReported(u: Unit, m: Mount)
    ensures m in ConcatMap(VolumeMounts, Values(u.container, "Volume")) <==> OfVolume(u, m)
  {
    ConcatMembers(VolumeMounts, Values(u.container, "Volume"), m);
  }

  lemma MountsReported(u: Unit, p: Parser, m: Mount)
    ensures m in ConcatMap(MountMounts, AllArgs(u, p, "Mount")) <==> OfMount(u, p, m)
  {
    ConcatMembers(MountMounts, AllArgs(u, p, "Mount"), m);
    forall v { ArgsExact(u, p, "Mount", v); }
  }

  lemma TmpfsReported(u: Unit, m: Mount)
    ensures m in ConcatMap(TmpfsMounts, Values(u.container, "Tmpfs")) <==> OfTmpfs(u, m)
  {
    ConcatMembers(TmpfsMounts, Values(u.container, "Tmpfs"), m);
  }

  lemma SecretsReported(u: Unit, p: Parser, m: Mount)
    ensures m in ConcatMap(SecretMounts, AllArgs(u, p, "Secret")) <==> OfSecret(u, p, m)
  {
    ConcatMembers(SecretMounts, AllArgs(u, p, "Secret"), m);
    forall v { ArgsExact(u, p, "Secret", v); }
  }

  /** The containers whose volumes the unit takes, each as its option. */
  lemma VolumesFromExact(u: Unit, p: Parser, option: string)
    ensures option in VolumesFrom(u, p)
            <==> exists v :: IsSetting(u, p, "volumes-from", v) && option == "--volumes-from " + v
  {
    var settings := PodmanSettings(u, p);
    ConcatMembers(SettingVolumesFrom, settings, option);
    assert PodmanArgs.MOUNT_FLAGS.shortName == PodmanArgs.MOUNT_FLAGS.longs[0];
    SettingNames(AllArgs(u, p, "PodmanArgs"), PodmanArgs.MOUNT_FLAGS);
    if s :| s in settings && option in SettingVolumesFrom(s) {
      assert s.0 == "volumes-from" && IsSetting(u, p, "volumes-from", s.1);
      OptionSpelled(s.1);
    }
    if v :| IsSetting(u, p, "volumes-from", v) && option == "--volumes-from " + v {
      OptionSpelled(v);
      assert ("volumes-from", v) in settings;
    }
  }

  lemma OptionSpelled(v: string)
    ensures SettingVolumesFrom(("volumes-from", v)) == ["--volumes-from " + v]
  {
    assert "volumes-from"[0] == 'v' && |"volumes-from"| != |"volume"|;
    assert "--" + "volumes-from" + " " + v == "--volumes-from " + v;
  }
}
