/** Exactly when the reading of PodmanArgs= cannot miss a flag, whatever follows
    (pkg/agent/unitmounts.go:33-34, 199-267). */
module FlagsInSight {
  import opened Common
  import opened Paths
  import opened PodmanArgs

  /** Every flag of the spec that podman run reads is reported, in order. */
  ghost predicate Reported(args: seq<string>, podman: Podman, spec: FlagSpec) {
    Parsed(args, podman, spec).Some? ==> InOrder(Parsed(args, podman, spec).value, FlagValues(args, spec))
  }

  /** However the arguments go on after any of their complete flags, as long as what follows is in
      sight, no flag is missed. */
  ghost predicate NeverMisses(args: seq<string>, podman: Podman, spec: FlagSpec) {
    forall n: nat, tail | n <= |args| && Parsed(args[..n], podman, spec).Some? && ValuesInSight(tail, podman, spec) ::
      Reported(args[..n] + tail, podman, spec)
  }

  lemma {:induction false} SightExtends(args: seq<string>, n: nat, tail: seq<string>, podman: Podman, spec: FlagSpec)
    requires n <= |args| && Parsed(args[..n], podman, spec).Some?
    requires ValuesInSight(args, podman, spec) && ValuesInSight(tail, podman, spec)
    ensures ValuesInSight(args[..n] + tail, podman, spec)
    decreases |args|
  {
    var all := args[..n] + tail;
    if n == 0 {
      assert all == tail;
    } else {
      var word := WordOf(args[0], podman, spec);
      if word.Plain? || (word.Valued? && word.value.Some?) {
        assert args[..n][1..] == args[1..][..n - 1] && all[1..] == args[1..][..n - 1] + tail;
        SightExtends(args[1..], n - 1, tail, podman, spec);
      } else if word.Valued? {
        assert args[..n][2..] == args[2..][..n - 2] && all[2..] == args[2..][..n - 2] + tail;
        SightExtends(args[2..], n - 2, tail, podman, spec);
      }
    }
  }

  // ----- arguments out of sight lose a flag

  function Longest(args: seq<string>): nat {
    if args == [] then 0 else if |args[0]| > Longest(args[1..]) then |args[0]| else Longest(args[1..])
  }

  ghost predicate Shorter(args: seq<string>, n: nat) { forall a | a in args :: |a| < n }

  lemma {:induction false} LongestIs(args: seq<string>)
    ensures Shorter(args, Longest(args) + 1)
  {
    if args != [] {
      LongestIs(args[1..]);
      assert args == [args[0]] + args[1..];
    }
  }

  lemma {:induction false} CutShortens(s: string, sep: char)
    ensures |Cut(s, sep).1| <= |s|
  {
    if s != "" {
      CutShortens(s[1..], sep);
    }
  }

  lemma {:induction false} ClusterShortens(cluster: string, spec: FlagSpec)
    ensures var f := ClusterFlag(cluster, spec); f.Flag? && f.value.Some? ==> |f.value.value| <= |cluster|
  {
    if cluster != "" {
      ClusterShortens(cluster[1..], spec);
    }
  }

  lemma ValueShortens(arg: string, spec: FlagSpec)
    ensures var f := FlagOf(arg, spec); f.Flag? && f.value.Some? ==> |f.value.value| <= |arg|
  {
    if "--" <= arg {
      CutShortens(arg[2..], '=');
    } else if "-" <= arg {
      ClusterShortens(arg[1..], spec);
    }
  }

  /** An empty `-v=` is read as the flag with its value in the next argument. */
  lemma {:induction false} EmptyEqualsIsBare(cluster: string, spec: FlagSpec)
    requires EmptyEquals(cluster, spec) && (spec.short.Some? ==> spec.short.value in VALUE_SHORTHANDS)
    ensures ClusterFlag(cluster, spec) == Flag(spec.shortName, None)
  {
    if cluster[0] !in VALUE_SHORTHANDS {
      EmptyEqualsIsBare(cluster[1..], spec);
    }
  }

  lemma EmptyShortIsBare(arg: string, podman: Podman, spec: FlagSpec)
    requires Knows(podman, spec) && EmptyShort(arg, spec)
    ensures FlagOf(arg, spec) == Flag(spec.shortName, None)
  {
    EmptyEqualsIsBare(arg[1..], spec);
  }

  /** podman run reads the flag after the first `n` arguments. */
  ghost predicate Read(args: seq<string>, n: nat, flag: string, value: string, podman: Podman, spec: FlagSpec) {
    n <= |args| && Parsed(args[..n], podman, spec).Some?
    && var all := args[..n] + ["--" + flag, value];
       Parsed(all, podman, spec).Some? && (flag, value) in Parsed(all, podman, spec).value
  }

  ghost predicate Unreported(all: seq<string>, value: string, spec: FlagSpec) {
    forall e | e in FlagValues(all, spec) :: e.1 != value
  }

  /** `flag` and `value`, after the first `n` arguments, are read by podman run and not reported. */
  ghost predicate Loses(args: seq<string>, n: nat, flag: string, value: string, podman: Podman, spec: FlagSpec) {
    Read(args, n, flag, value, podman, spec) && Unreported(args[..n] + ["--" + flag, value], value, spec)
  }

  /** A flag whose value no argument is as long as. */
  ghost predicate Marks(flag: string, value: string, args: seq<string>, podman: Podman, spec: FlagSpec) {
    Knows(podman, spec) && flag in spec.longs && !("-" <= value) && Shorter(args, |value|) && |flag| + 2 < |value|
  }

  lemma SwallowedHere(args: seq<string>, flag: string, value: string, podman: Podman, spec: FlagSpec)
    requires Marks(flag, value, args, podman, spec) && args != []
    requires var word := WordOf(args[0], podman, spec); word.Valued? && word.value.Some? && EmptyShort(args[0], spec)
    ensures Loses(args, 1, flag, value, podman, spec)
  {
    var all := args[..1] + ["--" + flag, value];
    EmptyShortIsBare(args[0], podman, spec);
    LastFlag(flag, value, podman, spec);
    assert all[1..] == ["--" + flag, value] && all[1..][1..] == [value] && args[..1][1..] == [];
  }

  lemma SwallowedNext(args: seq<string>, flag: string, value: string, podman: Podman, spec: FlagSpec)
    requires Marks(flag, value, args, podman, spec) && |args| > 1
    requires var word := WordOf(args[0], podman, spec); word.Valued? && word.value.None? && word.name !in spec.longs
    requires BareFlag(args[1], spec)
    ensures Loses(args, 2, flag, value, podman, spec)
  {
    var all := args[..2] + ["--" + flag, value];
    EmptyShortHasValue(args[0], podman, spec);
    FlagAgrees(args[0], podman, spec);
    LastFlag(flag, value, podman, spec);
    assert all[2..] == ["--" + flag, value] && all[1..][1..] == ["--" + flag, value] && args[..2][2..] == [];
    assert all[1..][0] == args[1] && ["--" + flag, value][1..] == [value];
  }

  lemma ReadOne(args: seq<string>, n: nat, flag: string, value: string, podman: Podman, spec: FlagSpec)
    requires args != [] && Read(args[1..], n, flag, value, podman, spec)
    requires var word := WordOf(args[0], podman, spec); word.Plain? || (word.Valued? && word.value.Some?)
    ensures Read(args, n + 1, flag, value, podman, spec)
  {
    assert args[..n + 1][1..] == args[1..][..n];
    assert (args[..n + 1] + ["--" + flag, value])[1..] == args[1..][..n] + ["--" + flag, value];
  }

  lemma ReadTwo(args: seq<string>, n: nat, flag: string, value: string, podman: Podman, spec: FlagSpec)
    requires |args| > 1 && Read(args[2..], n, flag, value, podman, spec)
    requires var word := WordOf(args[0], podman, spec); word.Valued? && word.value.None?
    ensures Read(args, n + 2, flag, value, podman, spec)
  {
    assert args[..n + 2][2..] == args[2..][..n];
    assert (args[..n + 2] + ["--" + flag, value])[2..] == args[2..][..n] + ["--" + flag, value];
  }

  /** An argument that needs no other adds at most a value of its own. */
  lemma OneArgument(args: seq<string>, podman: Podman, spec: FlagSpec)
    requires Knows(podman, spec) && args != [] && !EmptyShort(args[0], spec)
    requires var word := WordOf(args[0], podman, spec); word.Plain? || (word.Valued? && word.value.Some?)
    ensures forall e | e in FlagValues(args, spec) :: e in FlagValues(args[1..], spec) || |e.1| <= |args[0]|
  {
    FlagAgrees(args[0], podman, spec);
    ValueShortens(args[0], spec);
  }

  /** What is lost after the first complete flags is lost with them before it. */
  lemma LosesOne(args: seq<string>, n: nat, flag: string, value: string, podman: Podman, spec: FlagSpec)
    requires Marks(flag, value, args, podman, spec) && args != [] && Loses(args[1..], n, flag, value, podman, spec)
    requires var word := WordOf(args[0], podman, spec); word.Plain? || (word.Valued? && word.value.Some?)
    requires !EmptyShort(args[0], spec)
    ensures Loses(args, n + 1, flag, value, podman, spec)
  {
    var all := args[..n + 1] + ["--" + flag, value];
    assert all[1..] == args[1..][..n] + ["--" + flag, value] && all[0] == args[0];
    ReadOne(args, n, flag, value, podman, spec);
    OneArgument(all, podman, spec);
    assert args[0] in args;
  }

  /** A flag with its value in the next argument takes both, or neither is reported as a bare flag. */
  lemma TwoArguments(args: seq<string>, podman: Podman, spec: FlagSpec)
    requires Knows(podman, spec) && |args| > 1
    requires var word := WordOf(args[0], podman, spec);
             word.Valued? && word.value.None? && (word.name in spec.longs || !BareFlag(args[1], spec))
    ensures forall e | e in FlagValues(args, spec) :: e in FlagValues(args[2..], spec) || |e.1| <= |args[1]|
  {
    EmptyShortHasValue(args[0], podman, spec);
    FlagAgrees(args[0], podman, spec);
    ValueShortens(args[1], spec);
    assert args[1..][1..] == args[2..] && args[1..][0] == args[1];
  }

  lemma LosesTwo(args: seq<string>, n: nat, flag: string, value: string, podman: Podman, spec: FlagSpec)
    requires Marks(flag, value, args, podman, spec) && |args| > 1 && Loses(args[2..], n, flag, value, podman, spec)
    requires var word := WordOf(args[0], podman, spec);
             word.Valued? && word.value.None? && (word.name in spec.longs || !BareFlag(args[1], spec))
    ensures Loses(args, n + 2, flag, value, podman, spec)
  {
    var all := args[..n + 2] + ["--" + flag, value];
    assert all[2..] == args[2..][..n] + ["--" + flag, value] && all[0] == args[0] && all[1] == args[1];
    ReadTwo(args, n, flag, value, podman, spec);
    TwoArguments(all, podman, spec);
    assert args[1] in args;
  }

  lemma {:induction false} OutOfSightLoses(
    args: seq<string>, flag: string, value: string, podman: Podman, spec: FlagSpec)
    requires Marks(flag, value, args, podman, spec) && !ValuesInSight(args, podman, spec)
    ensures exists n :: Loses(args, n, flag, value, podman, spec)
    decreases |args|
  {
    var word := WordOf(args[0], podman, spec);
    if word.Plain? || (word.value.Some? && !EmptyShort(args[0], spec)) {
      EmptyShortHasValue(args[0], podman, spec);
      assert forall a | a in args[1..] :: a in args;
      OutOfSightLoses(args[1..], flag, value, podman, spec);
      var n :| Loses(args[1..], n, flag, value, podman, spec);
      LosesOne(args, n, flag, value, podman, spec);
    } else if word.value.Some? {
      SwallowedHere(args, flag, value, podman, spec);
    } else if word.name in spec.longs || !BareFlag(args[1], spec) {
      assert forall a | a in args[2..] :: a in args;
      OutOfSightLoses(args[2..], flag, value, podman, spec);
      var n :| Loses(args[2..], n, flag, value, podman, spec);
      LosesTwo(args, n, flag, value, podman, spec);
    } else {
      SwallowedNext(args, flag, value, podman, spec);
    }
  }

  lemma {:induction false} InOrderMembers(a: seq<Setting>, b: seq<Setting>, x: Setting)
    requires InOrder(a, b) && x in a
    ensures x in b
    decreases |b|
  {
    if a[0] == b[0] && InOrder(a[1..], b[1..]) {
      if x != a[0] {
        InOrderMembers(a[1..], b[1..], x);
      }
    } else {
      InOrderMembers(a, b[1..], x);
    }
  }

  /** The reading never misses a flag, whatever follows in sight, exactly when the values are in
      sight: no other flag's separate value is a bare flag of the spec, and no `-v=` is empty. */
  lemma NeverMissesExact(args: seq<string>, podman: Podman, spec: FlagSpec)
    requires Knows(podman, spec) && spec.longs != []
    ensures NeverMisses(args, podman, spec) <==> ValuesInSight(args, podman, spec)
  {
    if ValuesInSight(args, podman, spec) {
      forall n: nat, tail | n <= |args| && Parsed(args[..n], podman, spec).Some? && ValuesInSight(tail, podman, spec)
        ensures Reported(args[..n] + tail, podman, spec)
      {
        SightExtends(args, n, tail, podman, spec);
        if Parsed(args[..n] + tail, podman, spec).Some? {
          NoFlagMissed(args[..n] + tail, podman, spec);
        }
      }
    } else {
      MissesSome(args, podman, spec);
    }
  }

  lemma TailInSight(flag: string, value: string, podman: Podman, spec: FlagSpec)
    requires Knows(podman, spec) && flag in spec.longs
    ensures ValuesInSight(["--" + flag, value], podman, spec)
  {
    LongFlag(flag, podman, spec);
    assert ["--" + flag, value][2..] == [];
  }

  lemma LossIsMissed(args: seq<string>, n: nat, flag: string, value: string, podman: Podman, spec: FlagSpec)
    requires Loses(args, n, flag, value, podman, spec)
    ensures !Reported(args[..n] + ["--" + flag, value], podman, spec)
  {
    var all := args[..n] + ["--" + flag, value];
    if Reported(all, podman, spec) {
      InOrderMembers(Parsed(all, podman, spec).value, FlagValues(all, spec), (flag, value));
    }
  }

  lemma MissesSome(args: seq<string>, podman: Podman, spec: FlagSpec)
    requires Knows(podman, spec) && spec.longs != [] && !ValuesInSight(args, podman, spec)
    ensures !NeverMisses(args, podman, spec)
  {
    var flag := spec.longs[0];
    var value := seq(Longest(args) + |flag| + 3, _ => 'x');
    LongestIs(args);
    assert Marks(flag, value, args, podman, spec);
    OutOfSightLoses(args, flag, value, podman, spec);
    var n :| Loses(args, n, flag, value, podman, spec);
    TailInSight(flag, value, podman, spec);
    LossIsMissed(args, n, flag, value, podman, spec);
  }
}
