/** Reading the flags in a unit's PodmanArgs= (pkg/agent/unitmounts.go) against the way podman run
    parses its command line. */
module PodmanArgs {
  import opened Common
  import opened Paths

  /** podman run flags to look for: long names, and a one-letter flag standing for `shortName`. */
  datatype FlagSpec = FlagSpec(longs: seq<string>, short: Option<char>, shortName: string)

  const MOUNT_FLAGS := FlagSpec(["volume", "mount", "tmpfs", "secret", "volumes-from"], Some('v'), "volume")

  /** podman run's one-letter flags that take a value. */
  const VALUE_SHORTHANDS := "acehlmpuvw"

  /** A flag of the spec and the value its argument carries, None when that is the next argument. */
  datatype Flag = NoFlag | Flag(name: string, value: Option<string>)

  function TrimEquals(s: string): string {
    if s != "" && s[0] == '=' then s[1..] else s
  }

  /** A one-letter cluster after its dash, up to the first flag that takes a value. */
  function ClusterFlag(cluster: string, spec: FlagSpec): Flag {
    if cluster == "" then NoFlag
    else if spec.short == Some(cluster[0]) then
      var value := TrimEquals(cluster[1..]);
      Flag(spec.shortName, if value != "" then Some(value) else None)
    else if cluster[0] in VALUE_SHORTHANDS then NoFlag
    else ClusterFlag(cluster[1..], spec)
  }

  /** podmanFlag. */
  function FlagOf(arg: string, spec: FlagSpec): Flag {
    if "--" <= arg then
      var (name, value, hasValue) := Cut(arg[2..], '=');
      if name !in spec.longs then NoFlag
      else Flag(name, if hasValue then Some(value) else None)
    else if "-" <= arg then ClusterFlag(arg[1..], spec)
    else NoFlag
  }

  type Setting = (string, string)

  /** The flags of the spec and their values, in order; a flag at the end without one is dropped. */
  function FlagValues(args: seq<string>, spec: FlagSpec): seq<Setting>
    decreases |args|
  {
    if args == [] then []
    else
      var rest := args[1..];
      match FlagOf(args[0], spec)
      case NoFlag => FlagValues(rest, spec)
      case Flag(name, Some(value)) => [(name, value)] + FlagValues(rest, spec)
      case Flag(name, None) =>
        if rest == [] then [] else [(name, rest[0])] + FlagValues(rest[1..], spec)
  }

  /** podmanArgsValues, its callbacks collected. */
  method PodmanArgsValues(args: seq<string>, spec: FlagSpec) returns (out: seq<Setting>)
    ensures out == FlagValues(args, spec)
  {
    out := [];
    var i := 0;
    while i < |args|
      invariant 0 <= i <= |args|
      invariant out + FlagValues(args[i..], spec) == FlagValues(args, spec)
    {
      var flag := FlagOf(args[i], spec);
      assert args[i..][1..] == args[i + 1..];
      if flag.Flag? {
        var value;
        if flag.value.Some? {
          value := flag.value.value;
        } else {
          if i + 1 == |args| {
            assert FlagValues(args[i..], spec) == [];
            break;
          }
          i := i + 1;
          assert args[i..][1..] == args[i + 1..];
          value := args[i];
        }
        out := out + [(flag.name, value)];
      }
      i := i + 1;
    }
  }

  // ----- podman run's own reading

  /** Which of podman run's flags exist beyond those of the spec: long flags with and without a
      value, and one-letter flags without one (the others are VALUE_SHORTHANDS). */
  datatype Podman = Podman(valueLongs: set<string>, boolLongs: set<string>, boolShorts: set<char>)

  /** The spec's flags all take a value, its short one is a letter no boolean value holds and stands
      for one of its long ones, and no flag is of two kinds. */
  ghost predicate Knows(podman: Podman, spec: FlagSpec) {
    && (forall name | name in spec.longs :: name in podman.valueLongs)
    && podman.valueLongs !! podman.boolLongs
    && (forall name | name in podman.valueLongs + podman.boolLongs :: '=' !in name && name != "" && name[0] != '-')
    && (forall c | c in podman.boolShorts :: c !in VALUE_SHORTHANDS && c != '=')
    && (spec.short.Some? ==>
          spec.short.value in VALUE_SHORTHANDS && spec.shortName in spec.longs && forall w | w in BOOL_VALUES ::
              spec.short.value !in w)
  }

  /** What one argument is to podman run's left-to-right parse. */
  datatype Word =
    | Refused                                          // podman run fails
    | Operand                                          // no flag: it ends the flags
    | Plain                                            // boolean flags only
    | Valued(name: string, value: Option<string>)      // the flag that takes a value; None: the next argument

  /** A one-letter cluster: boolean flags, then at most one flag that takes a value, `x` or `x=` the
      rest of the argument. A boolean flag may end the cluster with `=value`. */
  function ClusterWord(cluster: string, podman: Podman, spec: FlagSpec): Word {
    if cluster == "" then Plain
    else if cluster[0] in VALUE_SHORTHANDS then
      Valued(if spec.short == Some(cluster[0]) then spec.shortName else "-" + [cluster[0]],
             if |cluster| == 1 then None
             else if |cluster| > 2 && cluster[1] == '=' then Some(cluster[2..])
             else Some(cluster[1..]))
    else if cluster[0] !in podman.boolShorts then Refused
    else if |cluster| > 2 && cluster[1] == '=' then
      if cluster[2..] in BOOL_VALUES then Plain else Refused
    else ClusterWord(cluster[1..], podman, spec)
  }

  const BOOL_VALUES := {"1", "t", "T", "true", "TRUE", "True", "0", "f", "F", "false", "FALSE", "False"}

  function WordOf(arg: string, podman: Podman, spec: FlagSpec): Word {
    if arg == "--" || arg == "-" || arg == "" || arg[0] != '-' then Operand
    else if "--" <= arg then
      var (name, value, hasValue) := Cut(arg[2..], '=');
      if name in podman.valueLongs then Valued(name, if hasValue then Some(value) else None)
      else if name in podman.boolLongs then Plain
      else Refused
    else ClusterWord(arg[1..], podman, spec)
  }

  /** The flags of the spec podman run reads, with their values in order; None when it fails. */
  function Parsed(args: seq<string>, podman: Podman, spec: FlagSpec): Option<seq<Setting>>
    decreases |args|
  {
    if args == [] then Some([])
    else
      match WordOf(args[0], podman, spec)
      case Refused => None
      case Operand => Some([])
      case Plain => Parsed(args[1..], podman, spec)
      case Valued(name, value) =>
        var n := if value.Some? then 1 else 2;
        if |args| < n then None
        else
          var rest := Parsed(args[n..], podman, spec);
          if rest.None? then None
          else
            Some((if name in spec.longs then [(name, if value.Some? then value.value else args[1])]
              else []) + rest.value)
  }

  /** The cluster ends in the spec's one-letter flag with nothing after its `=`. */
  predicate EmptyEquals(cluster: string, spec: FlagSpec) {
    cluster != "" &&
      if cluster[0] in VALUE_SHORTHANDS then spec.short == Some(cluster[0]) && cluster[1..] == "="
      else EmptyEquals(cluster[1..], spec)
  }

  predicate EmptyShort(arg: string, spec: FlagSpec) {
    "-" <= arg && !("--" <= arg) && EmptyEquals(arg[1..], spec)
  }

  /** No value that podman run reads from an argument of its own is a bare flag of the spec, as far
      as it belongs to another flag, and no argument ends in `-v=`. */
  ghost predicate ValuesInSight(args: seq<string>, podman: Podman, spec: FlagSpec)
    decreases |args|
  {
    args == [] ||
      match WordOf(args[0], podman, spec)
      case Refused => true
      case Operand => true
      case Plain => ValuesInSight(args[1..], podman, spec)
      case Valued(_, Some(_)) => !EmptyShort(args[0], spec) && ValuesInSight(args[1..], podman, spec)
      case Valued(name, None) =>
        |args| > 1 ==>
          && (name in spec.longs || !BareFlag(args[1], spec))
          && ValuesInSight(args[2..], podman, spec)
  }

  predicate BareFlag(arg: string, spec: FlagSpec) {
    FlagOf(arg, spec).Flag? && FlagOf(arg, spec).value.None?
  }

  // ----- one argument

  /** The flag of the spec that podman run sees in a word. */
  function SpecFlag(word: Word, spec: FlagSpec): Flag
    requires word.Valued?
  {
    if word.name in spec.longs then Flag(word.name, word.value) else NoFlag
  }

  lemma {:induction false} LetterAbsent(cluster: string, spec: FlagSpec)
    requires spec.short.Some? ==> spec.short.value !in cluster
    ensures ClusterFlag(cluster, spec) == NoFlag
  {
    if cluster != "" {
      assert cluster[0] in cluster && forall c | c in cluster[1..] :: c in cluster;
      LetterAbsent(cluster[1..], spec);
    }
  }

  /** The two readings of a one-letter cluster agree but for an empty `=`. */
  lemma {:induction false} ClusterAgrees(cluster: string, podman: Podman, spec: FlagSpec)
    requires Knows(podman, spec) && !EmptyEquals(cluster, spec)
    ensures var word := ClusterWord(cluster, podman, spec);
            && (word.Plain? ==> ClusterFlag(cluster, spec) == NoFlag)
            && (word.Valued? ==> ClusterFlag(cluster, spec) == SpecFlag(word, spec))
  {
    if cluster != "" {
      if cluster[0] in VALUE_SHORTHANDS {
        assert ("-" + [cluster[0]])[0] == '-' && "-" + [cluster[0]] !in spec.longs;
        assert |cluster| > 1 && cluster[1] == '=' ==> cluster[1..][1..] == cluster[2..];
      } else if cluster[0] in podman.boolShorts {
        if |cluster| > 2 && cluster[1] == '=' {
          if cluster[2..] in BOOL_VALUES {
            assert cluster[1..][1..] == cluster[2..];
            LetterAbsent(cluster[2..], spec);
            assert ClusterFlag(cluster[1..], spec) == ClusterFlag(cluster[2..], spec);
          }
        } else {
          ClusterAgrees(cluster[1..], podman, spec);
        }
      }
    }
  }

  /** podmanFlag reads an argument as podman run does: as the flag of the spec it is, or as none. */
  lemma FlagAgrees(arg: string, podman: Podman, spec: FlagSpec)
    requires Knows(podman, spec) && !EmptyShort(arg, spec)
    ensures var word := WordOf(arg, podman, spec);
            && (word.Plain? ==> FlagOf(arg, spec) == NoFlag)
            && (word.Valued? ==> FlagOf(arg, spec) == SpecFlag(word, spec))
  {
    if "-" <= arg && !("--" <= arg) {
      ClusterAgrees(arg[1..], podman, spec);
    }
  }

  // ----- the whole command line

  ghost predicate InOrder(a: seq<Setting>, b: seq<Setting>)
    decreases |b|
  {
    a == [] || (b != [] && ((a[0] == b[0] && InOrder(a[1..], b[1..])) || InOrder(a, b[1..])))
  }

  /** Every flag of the spec that podman run reads is reported with its value, in order. */
  lemma {:induction false} NoFlagMissed(args: seq<string>, podman: Podman, spec: FlagSpec)
    requires Knows(podman, spec) && Parsed(args, podman, spec).Some? && ValuesInSight(args, podman, spec)
    ensures InOrder(Parsed(args, podman, spec).value, FlagValues(args, spec))
    decreases |args|
  {
    if args != [] {
      var word := WordOf(args[0], podman, spec);
      EmptyShortHasValue(args[0], podman, spec);
      if word.Plain? || word.Valued? {
        FlagAgrees(args[0], podman, spec);
        var n := if word.Valued? && word.value.None? then 2 else 1;
        NoFlagMissed(args[n..], podman, spec);
        assert n == 2 ==> args[1..][1..] == args[2..];
        var mine, all := Parsed(args, podman, spec).value, FlagValues(args, spec);
        if word.Valued? && word.name in spec.longs {
          assert mine[1..] == Parsed(args[n..], podman, spec).value;
          assert all[1..] == FlagValues(args[n..], spec);
        } else {
          assert mine == Parsed(args[n..], podman, spec).value;
          if n == 2 && FlagOf(args[1], spec).Flag? {
            assert all[1..] == FlagValues(args[2..], spec);
          }
        }
      }
    }
  }

  lemma {:induction false} EmptyEqualsHasValue(cluster: string, podman: Podman, spec: FlagSpec)
    requires Knows(podman, spec) && EmptyEquals(cluster, spec)
    ensures var word := ClusterWord(cluster, podman, spec); word.Refused? || (word.Valued? && word.value.Some?)
  {
    if cluster[0] !in VALUE_SHORTHANDS && cluster[0] in podman.boolShorts && !(|cluster| > 2 && cluster[1] == '=') {
      EmptyEqualsHasValue(cluster[1..], podman, spec);
    } else if |cluster| > 2 && cluster[1] == '=' && cluster[2..] in BOOL_VALUES && cluster[0] !in VALUE_SHORTHANDS {
      assert cluster[1..] == "=" + cluster[2..];
      EmptyEqualsHoldsLetter(cluster[1..], spec);
    }
  }

  lemma {:induction false} EmptyEqualsHoldsLetter(cluster: string, spec: FlagSpec)
    requires EmptyEquals(cluster, spec)
    ensures spec.short.Some? && spec.short.value in cluster
  {
    if cluster[0] !in VALUE_SHORTHANDS {
      EmptyEqualsHoldsLetter(cluster[1..], spec);
      assert forall c | c in cluster[1..] :: c in cluster;
    }
  }

  lemma EmptyShortHasValue(arg: string, podman: Podman, spec: FlagSpec)
    requires Knows(podman, spec)
    ensures var word := WordOf(arg, podman, spec);
            word.Plain? || (word.Valued? && word.value.None?) ==> !EmptyShort(arg, spec)
  {
    if EmptyShort(arg, spec) {
      EmptyEqualsHasValue(arg[1..], podman, spec);
    }
  }

  // ----- the hypotheses are needed

  /** The source's claim that a flag is read wherever it appears fails: behind another flag, a bare
      mount flag swallows the flag after it, and that flag's value is no flag. */
  lemma BareFlagHidesNext(other: string, bare: string, flag: string, value: string, podman: Podman, spec: FlagSpec)
    requires Knows(podman, spec) && other in podman.valueLongs && other !in spec.longs && flag in spec.longs
    requires BareFlag(bare, spec) && !("-" <= value)
    ensures var args := ["--" + other, bare, "--" + flag, value];
            && Parsed(args, podman, spec) == Some([(flag, value)])
            && FlagValues(args, spec) == [(FlagOf(bare, spec).name, "--" + flag)]
  {
    var args := ["--" + other, bare, "--" + flag, value];
    var tail := ["--" + flag, value];
    LongFlag(other, podman, spec);
    LastFlag(flag, value, podman, spec);
    assert args[2..] == tail && args[1..][1..] == tail && tail[1..] == [value];
    assert FlagValues(args, spec) == FlagValues(args[1..], spec);
    assert args[1..][0] == bare;
    var none: seq<Setting> := [];
    assert none + [(flag, value)] == [(flag, value)];
  }

  lemma LastFlag(flag: string, value: string, podman: Podman, spec: FlagSpec)
    requires Knows(podman, spec) && flag in spec.longs && !("-" <= value)
    ensures Parsed(["--" + flag, value], podman, spec) == Some([(flag, value)])
    ensures FlagValues([value], spec) == []
  {
    LongFlag(flag, podman, spec);
    var args := ["--" + flag, value];
    assert args[2..] == [] && [value][1..] == [];
    assert [(flag, value)] + [] == [(flag, value)];
  }

  lemma LongFlag(name: string, podman: Podman, spec: FlagSpec)
    requires Knows(podman, spec) && name in podman.valueLongs
    ensures WordOf("--" + name, podman, spec) == Valued(name, None)
    ensures FlagOf("--" + name, spec) == if name in spec.longs then Flag(name, None) else NoFlag
  {
    assert ("--" + name)[2..] == name;
    CutAbsent(name, '=');
  }

  lemma {:induction false} CutAbsent(s: string, sep: char)
    requires sep !in s
    ensures Cut(s, sep) == (s, "", false)
  {
    if s != "" {
      assert s[0] in s && forall c | c in s[1..] :: c in s;
      CutAbsent(s[1..], sep);
      assert s == [s[0]] + s[1..];
    }
  }

  /** With an empty `-v=` the flag after it is hidden the same way: podman run reads the value "=",
      podmanArgsValues takes the next argument. */
  lemma EmptyEqualsHidesNext(flag: string, value: string, podman: Podman, spec: FlagSpec)
    requires Knows(podman, spec) && spec.short == Some('v') && flag in spec.longs && !("-" <= value)
    ensures var args := ["-v=", "--" + flag, value];
            && Parsed(args, podman, spec) == Some([(spec.shortName, "="), (flag, value)])
            && FlagValues(args, spec) == [(spec.shortName, "--" + flag)]
  {
    var args := ["-v=", "--" + flag, value];
    var tail := ["--" + flag, value];
    EmptyEqualsWord(podman, spec);
    LastFlag(flag, value, podman, spec);
    assert args[1..] == tail && tail[1..] == [value];
    assert Parsed(args, podman, spec) == Some([(spec.shortName, "=")] + [(flag, value)]);
    assert [(spec.shortName, "=")] + [(flag, value)] == [(spec.shortName, "="), (flag, value)];
    assert FlagValues(args, spec) == [(spec.shortName, "--" + flag)] + FlagValues([value], spec);
  }

  lemma EmptyEqualsWord(podman: Podman, spec: FlagSpec)
    requires spec.short == Some('v')
    ensures WordOf("-v=", podman, spec) == Valued(spec.shortName, Some("="))
    ensures FlagOf("-v=", spec) == Flag(spec.shortName, None)
  {
    assert "-v="[1..] == "v=" && "v="[1..] == "=" && "="[1..] == "";
    assert !("--" <= "-v=") by { assert "-v="[1] == 'v'; }
  }
}
