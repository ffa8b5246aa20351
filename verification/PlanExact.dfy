/** Exactly what a plan holds for each Host, and what a run without failures therefore leaves in its
    credential files (pkg/machine/plan.go:202-251, 316-341, pkg/machine/credentials.go:20-67). */
module PlanExact {
  import opened Common
  import opened Machine
  import opened Runner
  import opened Convergence
  import opened Planning
  import opened Fleet
  import Topology

  /** What a step is for, without its name and the source shown of it. */
  datatype Essence = Essence(
    phase: Phase, kind: Kind, host: Host, path: string, mode: nat, content: string, ref: string)

  function EssenceOf(s: Step): Essence { Essence(s.phase, s.kind, s.host, s.path, s.mode, s.content, s.ref) }

  ghost predicate Holds(steps: seq<Step>, e: Essence) { exists s :: s in steps && EssenceOf(s) == e }

  // ----- what is wanted for a Host

  function SecretsOf(h: Host): string { if h.user == "" then "/etc/picolet/secrets" else ".config/picolet/secrets" }

  /** A step that only names its kind. */
  function Bare(phase: Phase, kind: Kind, h: Host): Essence { Essence(phase, kind, h, "", 0, "", "") }

  function Directory(phase: Phase, h: Host, path: string, mode: nat): Essence {
    Essence(phase, StepDir, h, path, mode, "", "")
  }

  function DataOf(h: Host): string { if h.user == "" then "/var/lib/picolet-system" else ".local/share/picolet" }

  function QuadletsOf(h: Host): string {
    if h.user == "" then "/etc/containers/systemd" else ".config/containers/systemd"
  }

  function UnitsOf(h: Host): string { if h.user == "" then "/etc/systemd/system" else ".config/systemd/user" }

  /** A credential file of mode 0600 in the Host's secrets directory. */
  function Credential(h: Host, rel: string, content: string, ref: string): Essence {
    Essence(PhaseCredentials, StepCredential, h, SecretsOf(h) + "/" + rel, 384, content, ref)
  }

  /** The user's session and the checkout, for a rootless Host; the socket and the Agent's directories,
      with modes 0700, 0700, 0755 and 0755. */
  ghost predicate WantedSetup(e: Essence, h: Host, repoDir: string) {
    || (h.user != ""
        && e in {Bare(PhaseSetup, StepUser, h), Bare(PhaseSetup, StepSubIDs, h), Bare(PhaseSetup, StepLinger, h),
                 Bare(PhaseSetup, StepUserManager, h), Bare(PhaseSetup, StepCheckout, h).(path := repoDir)})
    || e == Bare(PhaseSetup, StepPodmanSocket, h)
    || e == Directory(PhaseSetup, h, SecretsOf(h), 448)
    || e == Directory(PhaseSetup, h, DataOf(h), 448)
    || e == Directory(PhaseSetup, h, QuadletsOf(h), 493)
    || e == Directory(PhaseSetup, h, UnitsOf(h), 493)
  }

  /** A file or directory below the Host's directory of --secrets-dir. */
  ghost predicate WantedEntry(e: Essence, h: Host, entries: seq<SecretEntry>) {
    || (exists rel, content :: SecretFile(rel, Some(content)) in entries && e == Credential(h, rel, content, ""))
    || (exists rel :: SecretDir(rel) in entries && e == Directory(PhaseCredentials, h, SecretsOf(h) + "/" + rel, 448))
  }

  ghost predicate WantedBlockFile(e: Essence, h: Host, files: seq<BootstrapFile>) {
    exists name, ref :: BootstrapFile(name, ref) in files && e == Credential(h, name, "", ref)
  }

  /** The entries of --secrets-dir; the provider's token for a Host without a bootstrap: block; and the
      block's files, their content still to come. */
  ghost predicate WantedCredential(e: Essence, h: Host, opts: Options) {
    var block := opts.bootstrap(h.hostname);
    || (opts.secrets(h.hostname).Entries? && WantedEntry(e, h, opts.secrets(h.hostname).entries))
    || (opts.token.Some? && block.None? && e == Credential(h, opts.token.value.name, opts.token.value.content, ""))
    || (block.Some? && WantedBlockFile(e, h, block.value))
  }

  ghost predicate Wanted(e: Essence, h: Host, opts: Options) {
    WantedSetup(e, h, opts.repoDir) || WantedCredential(e, h, opts)
      || e == Bare(PhaseHostBootstrap, StepHostBootstrap, h)
  }

  // ----- what is planned

  lemma HoldsConcat(a: seq<Step>, b: seq<Step>, e: Essence)
    ensures Holds(a + b, e) <==> Holds(a, e) || Holds(b, e)
  {
    if s :| s in a && EssenceOf(s) == e {
      assert s in a + b;
    }
    if s :| s in b && EssenceOf(s) == e {
      assert s in a + b;
    }
  }

  lemma HoldsOne(s: Step, e: Essence)
    ensures Holds([s], e) <==> EssenceOf(s) == e
  {
    assert s in [s];
  }

  lemma SessionHolds(h: Host, e: Essence)
    ensures Holds(SessionSteps(h), e) <==>
            h.user != "" && e in {Bare(PhaseSetup, StepUser, h), Bare(PhaseSetup, StepSubIDs, h),
                                  Bare(PhaseSetup, StepLinger, h), Bare(PhaseSetup, StepUserManager, h)}
  {
    if h.user != "" {
      var s := SessionSteps(h);
      assert s[0] in s && s[1] in s && s[2] in s && s[3] in s;
    }
  }

  lemma DirsHold(h: Host, e: Essence)
    ensures Holds(DirSteps(h), e) <==>
            || e == Directory(PhaseSetup, h, SecretsOf(h), 448)
            || e == Directory(PhaseSetup, h, DataOf(h), 448)
            || e == Directory(PhaseSetup, h, QuadletsOf(h), 493)
            || e == Directory(PhaseSetup, h, UnitsOf(h), 493)
  {
    var s := DirSteps(h);
    assert s[0] in s && s[1] in s && s[2] in s && s[3] in s;
  }

  lemma SetupHolds(h: Host, repoDir: string, e: Essence)
    ensures Holds(SetupSteps(h, repoDir), e) <==> WantedSetup(e, h, repoDir)
  {
    var session, socket := SessionSteps(h), [SetupStep(h, "podman-socket", StepPodmanSocket)];
    var dirs, checkout := DirSteps(h), CheckoutSteps(h, repoDir);
    SessionHolds(h, e);
    HoldsOne(socket[0], e);
    DirsHold(h, e);
    if h.user != "" {
      HoldsOne(checkout[0], e);
    }
    HoldsConcat(session, socket, e);
    HoldsConcat(session + socket, dirs, e);
    HoldsConcat(session + socket + dirs, checkout, e);
  }

  lemma {:induction false} EntriesHold(h: Host, entries: seq<SecretEntry>, e: Essence)
    requires EntrySteps(h, entries).Some?
    ensures Holds(EntrySteps(h, entries).value, e) <==> WantedEntry(e, h, entries)
  {
    if entries != [] {
      var n := |entries| - 1;
      var last := EntryStep(h, entries[n]).value;
      EntriesHold(h, entries[..n], e);
      HoldsConcat(EntrySteps(h, entries[..n]).value, [last], e);
      HoldsOne(last, e);
      assert entries == entries[..n] + [entries[n]];
      WantedEntryNext(e, h, entries, n);
      OneEntryHolds(e, h, entries[n]);
    }
  }

  lemma OneEntryHolds(e: Essence, h: Host, entry: SecretEntry)
    requires EntryStep(h, entry).Some?
    ensures EssenceOf(EntryStep(h, entry).value) == e <==> WantedEntry(e, h, [entry])
  {
    assert entry in [entry];
  }

  lemma WantedEntryNext(e: Essence, h: Host, entries: seq<SecretEntry>, n: nat)
    requires n < |entries| && entries == entries[..n] + [entries[n]]
    ensures WantedEntry(e, h, entries) <==> WantedEntry(e, h, entries[..n]) || WantedEntry(e, h, [entries[n]])
  {
    assert forall x :: x in entries <==> x in entries[..n] || x in [entries[n]];
  }

  lemma WantedBlockFileNext(e: Essence, h: Host, files: seq<BootstrapFile>, n: nat)
    requires n < |files| && files == files[..n] + [files[n]]
    ensures WantedBlockFile(e, h, files)
            <==> WantedBlockFile(e, h, files[..n]) || e == Credential(h, files[n].name, "", files[n].ref)
  {
    assert forall x :: x in files <==> x in files[..n] || x == files[n];
    assert files[n] == BootstrapFile(files[n].name, files[n].ref);
  }

  lemma {:induction false} BlockHolds(h: Host, files: seq<BootstrapFile>, e: Essence)
    ensures Holds(BootstrapSteps(h, files), e) <==> WantedBlockFile(e, h, files)
  {
    if files != [] {
      var n := |files| - 1;
      var last := CredentialStep(h, files[n].name, "", files[n].ref).(ref := files[n].ref);
      BlockHolds(h, files[..n], e);
      HoldsConcat(BootstrapSteps(h, files[..n]), [last], e);
      HoldsOne(last, e);
      assert files == files[..n] + [files[n]];
      WantedBlockFileNext(e, h, files, n);
    }
  }

  lemma CredentialsHold(h: Host, opts: Options, e: Essence)
    requires Placeable(h, opts)
    ensures Holds(SourcedSteps(h, opts).value, e) <==> WantedCredential(e, h, opts)
  {
    var s, block, token := opts.secrets(h.hostname), opts.bootstrap(h.hostname), opts.token;
    var files := if s.Entries? then EntrySteps(h, s.entries).value else [];
    var tokens := if token.Some? && block.None?
                  then [CredentialStep(h, token.value.name, token.value.content, token.value.flag)] else [];
    var blocks := if block.Some? then BootstrapSteps(h, block.value) else [];
    assert SourcedSteps(h, opts).value == files + tokens + blocks;
    HoldsConcat(files, tokens, e);
    HoldsConcat(files + tokens, blocks, e);
    if s.Entries? {
      EntriesHold(h, s.entries, e);
    }
    if tokens != [] {
      HoldsOne(tokens[0], e);
    }
    if block.Some? {
      BlockHolds(h, block.value, e);
    }
  }

  ghost predicate WantedPart(part: Part, e: Essence, h: Host, opts: Options) {
    match part
    case Setup => WantedSetup(e, h, opts.repoDir)
    case Credentials => WantedCredential(e, h, opts)
    case PerHost => e == Bare(PhaseHostBootstrap, StepHostBootstrap, h)
  }

  lemma PartHolds(part: Part, h: Host, opts: Options, e: Essence)
    requires Placeable(h, opts)
    ensures Holds(PartSteps(part, h, opts), e) <==> WantedPart(part, e, h, opts)
  {
    match part
    case Setup => SetupHolds(h, opts.repoDir, e);
    case Credentials => CredentialsHold(h, opts, e);
    case PerHost => HoldsOne(PartSteps(PerHost, h, opts)[0], e);
  }

  ghost predicate WantedOfSome(part: Part, e: Essence, hosts: seq<Host>, opts: Options) {
    exists h :: h in hosts && WantedPart(part, e, h, opts)
  }

  lemma {:induction false} AllGrows(part: Part, hosts: seq<Host>, opts: Options, n: nat, s: Step)
    requires n <= |hosts| && s in AllOf(part, hosts[..n], opts)
    ensures s in AllOf(part, hosts, opts)
    decreases |hosts| - n
  {
    if n == |hosts| {
      assert hosts[..n] == hosts;
    } else {
      AllNext(part, hosts, opts, n);
      AllGrows(part, hosts, opts, n + 1, s);
    }
  }

  lemma AllContains(part: Part, hosts: seq<Host>, opts: Options, i: nat, s: Step)
    requires i < |hosts| && s in PartSteps(part, hosts[i], opts)
    ensures s in AllOf(part, hosts, opts)
  {
    AllNext(part, hosts, opts, i);
    AllGrows(part, hosts, opts, i + 1, s);
  }

  lemma AllHold(part: Part, hosts: seq<Host>, opts: Options, e: Essence)
    requires forall i | 0 <= i < |hosts| :: Placeable(hosts[i], opts)
    ensures Holds(AllOf(part, hosts, opts), e) <==> WantedOfSome(part, e, hosts, opts)
  {
    if Holds(AllOf(part, hosts, opts), e) {
      HeldIsWanted(part, hosts, opts, e);
    }
    if WantedOfSome(part, e, hosts, opts) {
      WantedIsHeld(part, hosts, opts, e);
    }
  }

  lemma HeldIsWanted(part: Part, hosts: seq<Host>, opts: Options, e: Essence)
    requires (forall i | 0 <= i < |hosts| :: Placeable(hosts[i], opts)) && Holds(AllOf(part, hosts, opts), e)
    ensures WantedOfSome(part, e, hosts, opts)
  {
    var s :| s in AllOf(part, hosts, opts) && EssenceOf(s) == e;
    AllMembers(part, hosts, opts, s);
    PartHolds(part, s.host, opts, e);
  }

  lemma WantedIsHeld(part: Part, hosts: seq<Host>, opts: Options, e: Essence)
    requires (forall i | 0 <= i < |hosts| :: Placeable(hosts[i], opts)) && WantedOfSome(part, e, hosts, opts)
    ensures Holds(AllOf(part, hosts, opts), e)
  {
    var h :| h in hosts && WantedPart(part, e, h, opts);
    var i :| 0 <= i < |hosts| && hosts[i] == h;
    PartHolds(part, h, opts, e);
    var s :| s in PartSteps(part, h, opts) && EssenceOf(s) == e;
    AllContains(part, hosts, opts, i, s);
  }

  lemma WantedParts(e: Essence, hosts: seq<Host>, opts: Options)
    ensures (exists h :: h in hosts && Wanted(e, h, opts))
            <==> WantedOfSome(Setup, e, hosts, opts) || WantedOfSome(Credentials, e, hosts, opts)
                 || WantedOfSome(PerHost, e, hosts, opts)
  {
    if h :| h in hosts && Wanted(e, h, opts) {
      assert WantedPart(Setup, e, h, opts) || WantedPart(Credentials, e, h, opts) || WantedPart(PerHost, e, h, opts);
    }
    if h :| h in hosts && WantedPart(Setup, e, h, opts) {
      assert Wanted(e, h, opts);
    }
    if h :| h in hosts && WantedPart(Credentials, e, h, opts) {
      assert Wanted(e, h, opts);
    }
    if h :| h in hosts && WantedPart(PerHost, e, h, opts) {
      assert Wanted(e, h, opts);
    }
  }

  /** The plan holds, for each Host, exactly what its setup, the operator's files and token, its block
      and its bootstrap want, and nothing else. */
  lemma PlanHoldsExact(hosts: seq<Host>, opts: Options, e: Essence)
    requires forall h | h in hosts :: Placeable(h, opts)
    ensures Holds(PlanSteps(hosts, opts), e) <==> exists h :: h in hosts && Wanted(e, h, opts)
  {
    var a, b, c := AllOf(Setup, hosts, opts), AllOf(Credentials, hosts, opts), AllOf(PerHost, hosts, opts);
    AllHold(Setup, hosts, opts, e);
    AllHold(Credentials, hosts, opts, e);
    AllHold(PerHost, hosts, opts, e);
    HoldsConcat(a, b, e);
    HoldsConcat(a + b, c, e);
    WantedParts(e, hosts, opts);
  }

  // ----- in which order

  /** User, subordinate ids, lingering and user manager first, then the socket, the directories and the
      checkout, then the credentials, and last the bootstrap. */
  function Turn(s: Step): nat {
    if s.phase == PhaseCredentials then 7
    else match s.kind
      case StepUser => 0
      case StepSubIDs => 1
      case StepLinger => 2
      case StepUserManager => 3
      case StepPodmanSocket => 4
      case StepDir => 5
      case StepCheckout => 6
      case StepCredential => 7
      case StepHostBootstrap => 8
  }

  ghost predicate InTurn(steps: seq<Step>) {
    forall i, j | 0 <= i < j < |steps| :: steps[i].host == steps[j].host ==> Turn(steps[i]) <= Turn(steps[j])
  }

  lemma InTurnConcat(a: seq<Step>, b: seq<Step>)
    requires InTurn(a) && InTurn(b) && forall x, y | x in a && y in b && x.host == y.host :: Turn(x) <= Turn(y)
    ensures InTurn(a + b)
  {
    var c := a + b;
    forall i, j | 0 <= i < j < |c| && c[i].host == c[j].host ensures Turn(c[i]) <= Turn(c[j]) {
      assert i < |a| ==> c[i] in a;
      assert j >= |a| ==> c[j] in b;
      assert i >= |a| ==> c[i] == b[i - |a|] && c[j] == b[j - |a|];
    }
  }

  ghost predicate TurnsOf(part: Part, steps: seq<Step>) {
    forall s | s in steps :: match part
                             case Setup => Turn(s) < 7
                             case Credentials => Turn(s) == 7
                             case PerHost => Turn(s) == 8
  }

  lemma {:induction false} AllInTurn(part: Part, hosts: seq<Host>, opts: Options)
    requires DistinctList(hosts)
    ensures InTurn(AllOf(part, hosts, opts)) && TurnsOf(part, AllOf(part, hosts, opts))
  {
    if hosts != [] {
      var n := |hosts| - 1;
      AllInTurn(part, hosts[..n], opts);
      PartInTurn(part, hosts[n], opts);
      forall x, y | x in AllOf(part, hosts[..n], opts) && y in PartSteps(part, hosts[n], opts)
        ensures x.host != y.host
      {
        AllMembers(part, hosts[..n], opts, x);
        PartMembers(part, hosts[n], opts, y);
        var i :| 0 <= i < n && hosts[i] == x.host;
      }
      InTurnConcat(AllOf(part, hosts[..n], opts), PartSteps(part, hosts[n], opts));
    }
  }

  lemma PartInTurn(part: Part, h: Host, opts: Options)
    ensures InTurn(PartSteps(part, h, opts)) && TurnsOf(part, PartSteps(part, h, opts))
  {
    if part.Setup? {
      SetupInTurn(h, opts.repoDir);
    } else {
      forall s | s in PartSteps(part, h, opts) ensures Turn(s) == if part.Credentials? then 7 else 8 {
        PartMembers(part, h, opts, s);
      }
    }
  }

  lemma SessionInTurn(h: Host)
    ensures var session := SessionSteps(h) + [SetupStep(h, "podman-socket", StepPodmanSocket)];
            InTurn(session) && forall s | s in session :: Turn(s) <= 4
  {
  }

  lemma DirsInTurn(h: Host)
    ensures InTurn(DirSteps(h)) && forall s | s in DirSteps(h) :: Turn(s) == 5
  {
  }

  lemma SetupInTurn(h: Host, repoDir: string)
    ensures InTurn(SetupSteps(h, repoDir)) && TurnsOf(Setup, SetupSteps(h, repoDir))
  {
    SessionInTurn(h);
    DirsInTurn(h);
    PartsInTurn(SessionSteps(h) + [SetupStep(h, "podman-socket", StepPodmanSocket)], DirSteps(h),
      CheckoutSteps(h, repoDir));
  }

  lemma PartsInTurn(session: seq<Step>, dirs: seq<Step>, checkout: seq<Step>)
    requires InTurn(session) && InTurn(dirs) && InTurn(checkout)
    requires (forall s | s in session :: Turn(s) <= 4) && (forall s | s in dirs :: Turn(s) == 5)
    requires forall s | s in checkout :: Turn(s) == 6
    ensures InTurn(session + dirs + checkout) && forall s | s in session + dirs + checkout :: Turn(s) < 7
  {
    InTurnConcat(session, dirs);
    InTurnConcat(session + dirs, checkout);
  }

  /** Each Host's steps are planned in that order. */
  lemma PlanInTurn(hosts: seq<Host>, opts: Options)
    requires DistinctList(hosts)
    ensures InTurn(PlanSteps(hosts, opts))
  {
    AllInTurn(Setup, hosts, opts);
    AllInTurn(Credentials, hosts, opts);
    AllInTurn(PerHost, hosts, opts);
    InTurnConcat(AllOf(Setup, hosts, opts), AllOf(Credentials, hosts, opts));
    InTurnConcat(AllOf(Setup, hosts, opts) + AllOf(Credentials, hosts, opts), AllOf(PerHost, hosts, opts));
  }

  // ----- when there is a plan

  /** The files and directories placed in the Host's secrets directory, in order. */
  function Names(h: Host, opts: Options): seq<string> {
    var secrets, block := opts.secrets(h.hostname), opts.bootstrap(h.hostname);
    (if secrets.Entries? then seq(|secrets.entries|, i requires 0 <= i < |secrets.entries| => secrets.entries[i].rel)
      else [])
    + (if opts.token.Some? && block.None? then [opts.token.value.name] else [])
    + (if block.Some? then seq(|block.value|, i requires 0 <= i < |block.value| => block.value[i].name) else [])
  }

  ghost predicate Readable(s: Secrets) {
    !s.SecretsError? && (s.Entries? ==> forall rel :: SecretFile(rel, None) !in s.entries)
  }

  lemma {:induction false} EntryPaths(h: Host, entries: seq<SecretEntry>)
    ensures EntrySteps(h, entries).Some? <==> Readable(Entries(entries))
    ensures EntrySteps(h, entries).Some? ==>
              && |EntrySteps(h, entries).value| == |entries|
              && forall i | 0 <= i < |entries| :: EntrySteps(h, entries).value[i].path == SecretPath(h, entries[i].rel)
  {
    if entries != [] {
      var n := |entries| - 1;
      EntryPaths(h, entries[..n]);
      assert entries == entries[..n] + [entries[n]];
      assert EntryStep(h, entries[n]).None? <==> entries[n] == SecretFile(entries[n].rel, None);
      assert forall rel :: SecretFile(rel, None) in entries
                           <==> SecretFile(rel, None) in entries[..n] || SecretFile(rel, None) == entries[n];
    }
  }

  lemma {:induction false} BlockPaths(h: Host, files: seq<BootstrapFile>)
    ensures |BootstrapSteps(h, files)| == |files|
    ensures forall i | 0 <= i < |files| :: BootstrapSteps(h, files)[i].path == SecretPath(h, files[i].name)
  {
    if files != [] {
      BlockPaths(h, files[..|files| - 1]);
    }
  }

  lemma SourcedPaths(h: Host, opts: Options)
    ensures SourcedSteps(h, opts).Some? <==> Readable(opts.secrets(h.hostname))
    ensures SourcedSteps(h, opts).Some? ==>
              && |SourcedSteps(h, opts).value| == |Names(h, opts)|
              && forall i | 0 <= i < |Names(h, opts)| ::
                   SourcedSteps(h, opts).value[i].path == SecretPath(h, Names(h, opts)[i])
  {
    var secrets, block := opts.secrets(h.hostname), opts.bootstrap(h.hostname);
    if secrets.Entries? {
      EntryPaths(h, secrets.entries);
      assert Entries(secrets.entries) == secrets;
    }
    if block.Some? {
      BlockPaths(h, block.value);
    }
  }

  /** A Host's credentials are planned exactly when everything below its directory of --secrets-dir can
      be read and no name comes from two places. */
  lemma PlaceableExact(h: Host, opts: Options)
    ensures Placeable(h, opts)
            <==> Readable(opts.secrets(h.hostname))
                 && forall i, j | 0 <= i < j < |Names(h, opts)| :: Names(h, opts)[i] != Names(h, opts)[j]
  {
    SourcedPaths(h, opts);
    if SourcedSteps(h, opts).Some? {
      var steps, names := SourcedSteps(h, opts).value, Names(h, opts);
      forall i, j | 0 <= i < j < |names| ensures steps[i].path == steps[j].path <==> names[i] == names[j] {
        SameNameSamePath(h, names[i], names[j]);
      }
    }
  }

  lemma SameNameSamePath(h: Host, a: string, b: string)
    ensures SecretPath(h, a) == SecretPath(h, b) <==> a == b
  {
    var d := DirPath(SECRETS_AGENT_DIR, h) + "/";
    assert SecretPath(h, a)[|d|..] == a && SecretPath(h, b)[|d|..] == b;
  }

  // ----- nothing twice

  ghost predicate NothingTwice(steps: seq<Step>) {
    forall i, j | 0 <= i < j < |steps| :: EssenceOf(steps[i]) != EssenceOf(steps[j])
  }

  lemma NothingTwiceConcat(a: seq<Step>, b: seq<Step>)
    requires NothingTwice(a) && NothingTwice(b) && forall x, y | x in a && y in b :: EssenceOf(x) != EssenceOf(y)
    ensures NothingTwice(a + b)
  {
    var c := a + b;
    forall i, j | 0 <= i < j < |c| ensures EssenceOf(c[i]) != EssenceOf(c[j]) {
      assert i < |a| ==> c[i] in a;
      assert j >= |a| ==> c[j] in b;
      assert i >= |a| ==> c[i] == b[i - |a|] && c[j] == b[j - |a|];
    }
  }

  lemma SetupNothingTwice(h: Host, repoDir: string)
    ensures NothingTwice(SetupSteps(h, repoDir))
  {
    AgentDirsApart(h, 0, 1);
    AgentDirsApart(h, 0, 2);
    AgentDirsApart(h, 0, 3);
    AgentDirsApart(h, 1, 2);
    AgentDirsApart(h, 1, 3);
    AgentDirsApart(h, 2, 3);
    var session := SessionSteps(h) + [SetupStep(h, "podman-socket", StepPodmanSocket)];
    assert NothingTwice(session);
    assert NothingTwice(DirSteps(h));
    NothingTwiceConcat(session, DirSteps(h));
    NothingTwiceConcat(session + DirSteps(h), CheckoutSteps(h, repoDir));
  }

  lemma PartNothingTwice(part: Part, h: Host, opts: Options)
    requires Placeable(h, opts)
    ensures NothingTwice(PartSteps(part, h, opts))
  {
    if part.Setup? {
      SetupNothingTwice(h, opts.repoDir);
    }
  }

  lemma {:induction false} AllNothingTwice(part: Part, hosts: seq<Host>, opts: Options)
    requires DistinctList(hosts) && forall i | 0 <= i < |hosts| :: Placeable(hosts[i], opts)
    ensures NothingTwice(AllOf(part, hosts, opts))
  {
    if hosts != [] {
      var n := |hosts| - 1;
      AllNothingTwice(part, hosts[..n], opts);
      PartNothingTwice(part, hosts[n], opts);
      forall x, y | x in AllOf(part, hosts[..n], opts) && y in PartSteps(part, hosts[n], opts)
        ensures EssenceOf(x) != EssenceOf(y)
      {
        AllMembers(part, hosts[..n], opts, x);
        PartMembers(part, hosts[n], opts, y);
        var i :| 0 <= i < n && hosts[i] == x.host;
      }
      NothingTwiceConcat(AllOf(part, hosts[..n], opts), PartSteps(part, hosts[n], opts));
    }
  }

  lemma AllInPhase(part: Part, hosts: seq<Host>, opts: Options)
    ensures forall s | s in AllOf(part, hosts, opts) :: s.phase == PhaseOf(part)
  {
    forall s | s in AllOf(part, hosts, opts) ensures s.phase == PhaseOf(part) {
      AllMembers(part, hosts, opts, s);
      PartMembers(part, s.host, opts, s);
    }
  }

  /** And each of them once. */
  lemma PlanNothingTwice(hosts: seq<Host>, opts: Options)
    requires DistinctList(hosts) && forall i | 0 <= i < |hosts| :: Placeable(hosts[i], opts)
    ensures NothingTwice(PlanSteps(hosts, opts))
  {
    var a, b, c := AllOf(Setup, hosts, opts), AllOf(Credentials, hosts, opts), AllOf(PerHost, hosts, opts);
    AllNothingTwice(Setup, hosts, opts);
    AllNothingTwice(Credentials, hosts, opts);
    AllNothingTwice(PerHost, hosts, opts);
    AllInPhase(Setup, hosts, opts);
    AllInPhase(Credentials, hosts, opts);
    AllInPhase(PerHost, hosts, opts);
    NothingTwiceConcat(a, b);
    NothingTwiceConcat(a + b, c);
  }

  // ----- what is reported as not placed

  /** A step with a reference is named by the file it places. */
  ghost predicate NamedByFile(s: Step) {
    s.ref != "" ==> exists rel :: s.path == SecretsOf(s.host) + "/" + rel && FileOf(s) == s.host.hostname + "/" + rel
  }

  lemma CredentialName(h: Host, name: string, ref: string)
    ensures NamedByFile(CredentialStep(h, name, "", ref).(ref := ref))
  {
    var s, prefix := CredentialStep(h, name, "", ref).(ref := ref), h.hostname + "/credential/";
    assert s.id == prefix + name;
    assert s.id[|prefix|..] == name && prefix <= s.id;
    assert s.path == SecretsOf(h) + "/" + name;
  }

  lemma {:induction false} BlockNamed(h: Host, files: seq<BootstrapFile>)
    ensures forall s | s in BootstrapSteps(h, files) :: NamedByFile(s)
  {
    if files != [] {
      var n := |files| - 1;
      BlockNamed(h, files[..n]);
      CredentialName(h, files[n].name, files[n].ref);
    }
  }

  lemma {:induction false} EntriesUnreferenced(h: Host, entries: seq<SecretEntry>)
    requires EntrySteps(h, entries).Some?
    ensures forall s | s in EntrySteps(h, entries).value :: s.ref == ""
  {
    if entries != [] {
      EntriesUnreferenced(h, entries[..|entries| - 1]);
    }
  }

  lemma SourcedNamed(h: Host, opts: Options)
    requires SourcedSteps(h, opts).Some?
    ensures forall s | s in SourcedSteps(h, opts).value :: NamedByFile(s)
  {
    if opts.secrets(h.hostname).Entries? {
      EntriesUnreferenced(h, opts.secrets(h.hostname).entries);
    }
    if opts.bootstrap(h.hostname).Some? {
      BlockNamed(h, opts.bootstrap(h.hostname).value);
    }
  }

  lemma PartNamed(part: Part, h: Host, opts: Options)
    requires Placeable(h, opts)
    ensures forall s | s in PartSteps(part, h, opts) :: NamedByFile(s)
  {
    match part
    case Setup => SetupUnreferenced(h, opts.repoDir);
    case Credentials => SourcedNamed(h, opts);
    case PerHost =>
  }

  lemma SetupUnreferenced(h: Host, repoDir: string)
    ensures forall s | s in SetupSteps(h, repoDir) :: s.ref == ""
  {
  }

  lemma {:induction false} AllNamed(part: Part, hosts: seq<Host>, opts: Options)
    requires forall i | 0 <= i < |hosts| :: Placeable(hosts[i], opts)
    ensures forall s | s in AllOf(part, hosts, opts) :: NamedByFile(s)
  {
    forall s | s in AllOf(part, hosts, opts) ensures NamedByFile(s) {
      AllMembers(part, hosts, opts, s);
      PartNamed(part, s.host, opts);
    }
  }

  lemma PlanNamed(hosts: seq<Host>, opts: Options, s: Step)
    requires (forall h | h in hosts :: Placeable(h, opts)) && s in PlanSteps(hosts, opts)
    ensures NamedByFile(s)
  {
    AllNamed(Setup, hosts, opts);
    AllNamed(Credentials, hosts, opts);
    AllNamed(PerHost, hosts, opts);
  }

  /** A block file of a Host, and its reference. */
  ghost predicate HasBlockFile(h: Host, opts: Options, name: string, ref: string) {
    opts.bootstrap(h.hostname).Some? && BootstrapFile(name, ref) in opts.bootstrap(h.hostname).value
  }

  /** Reported as not placed are exactly the block files whose reference has no value, each as its
      Host's name and its own. */
  lemma UnresolvedExact(hosts: seq<Host>, opts: Options, values: map<string, string>, file: string)
    requires forall h | h in hosts :: Placeable(h, opts)
    ensures file in Unresolved(PlanSteps(hosts, opts), values)
            <==> exists h, name, ref | h in hosts && HasBlockFile(h, opts, name, ref) ::
                   ref != "" && ref !in values && file == h.hostname + "/" + name
  {
    var steps := PlanSteps(hosts, opts);
    ResolvedMembers(steps, values);
    if file in Unresolved(steps, values) {
      var s :| s in steps && Dropped(s, values) && file == FileOf(s);
      var _, _ := ReferencedIsBlockFile(hosts, opts, s);
    }
    if h, name, ref :| h in hosts && HasBlockFile(h, opts, name, ref) && ref != "" && ref !in values
                       && file == h.hostname + "/" + name {
      var s := BlockFileIsPlanned(hosts, opts, h, name, ref);
      assert Dropped(s, values);
    }
  }

  lemma ReferencedIsBlockFile(hosts: seq<Host>, opts: Options, s: Step) returns (h: Host, name: string)
    requires (forall g | g in hosts :: Placeable(g, opts)) && s in PlanSteps(hosts, opts) && s.ref != ""
    ensures h in hosts && HasBlockFile(h, opts, name, s.ref) && FileOf(s) == h.hostname + "/" + name
  {
    PlanNamed(hosts, opts, s);
    PlanHoldsExact(hosts, opts, EssenceOf(s));
    h :| h in hosts && Wanted(EssenceOf(s), h, opts);
    name := WantedReference(EssenceOf(s), h, opts);
    var rel :| s.path == SecretsOf(s.host) + "/" + rel && FileOf(s) == s.host.hostname + "/" + rel;
    SameNameSamePath(h, name, rel);
  }

  lemma WantedReference(e: Essence, h: Host, opts: Options) returns (name: string)
    requires Wanted(e, h, opts) && e.ref != ""
    ensures HasBlockFile(h, opts, name, e.ref) && e == Credential(h, name, "", e.ref)
  {
    assert opts.bootstrap(h.hostname).Some? && WantedBlockFile(e, h, opts.bootstrap(h.hostname).value);
    var n, ref :| BootstrapFile(n, ref) in opts.bootstrap(h.hostname).value && e == Credential(h, n, "", ref);
    name := n;
  }

  lemma BlockFileIsPlanned(hosts: seq<Host>, opts: Options, h: Host, name: string, ref: string) returns (s: Step)
    requires forall g | g in hosts :: Placeable(g, opts)
    requires h in hosts && HasBlockFile(h, opts, name, ref) && ref != ""
    ensures s in PlanSteps(hosts, opts) && s.ref == ref && FileOf(s) == h.hostname + "/" + name
  {
    var e := Credential(h, name, "", ref);
    assert WantedBlockFile(e, h, opts.bootstrap(h.hostname).value);
    PlanHoldsExact(hosts, opts, e);
    s :| s in PlanSteps(hosts, opts) && EssenceOf(s) == e;
    PlanNamed(hosts, opts, s);
    var rel :| s.path == SecretsOf(s.host) + "/" + rel && FileOf(s) == s.host.hostname + "/" + rel;
    SameNameSamePath(h, name, rel);
  }

  // ----- what a run leaves

  /** The account holds the credential file: its content, mode 0600, and for owner root or the user. */
  ghost predicate Placed(w: World, h: Host, rel: string, content: string) {
    var a, path := AccountOf(w, h), SecretsOf(h) + "/" + rel;
    && path in a.files
    && if h.user == "" then a.files[path] == Entry(Regular, 0, 0, 384, content)
       else a.user.Some? && a.files[path] == Entry(Regular, a.user.value.uid, a.user.value.gid, 384, content)
  }

  lemma {:induction false} Keeps(steps: seq<Step>, values: map<string, string>, s: Step)
    requires s in steps && (s.ref != "" ==> s.ref in values)
    ensures (if s.ref == "" then s else s.(content := values[s.ref])) in Resolved(steps, values)
  {
    ResolvedMembers(steps, values);
    assert !Dropped(s, values);
  }

  lemma GoalIsPlaced(w: World, s: Step, h: Host, rel: string, content: string)
    requires Goal(w, s) && s.kind.StepCredential? && s.host == h && s.mode == 384 && s.content == content
    requires s.path == SecretsOf(h) + "/" + rel
    ensures Placed(w, h, rel, content)
  {
  }

  /** After a run without failures the end state of a step other than a bootstrap holds. */
  lemma ReachesGoal(ops: HostOps, w: World, steps: seq<Step>, cancelled: nat -> bool, s: Step)
    requires MeetsContract(ops, PathsOf(steps)) && Ordered(steps) && Clean(PlainRun(ops, Start(w), steps, cancelled))
    requires s in steps && !s.kind.StepHostBootstrap?
    ensures Goal(PlainRun(ops, Start(w), steps, cancelled).world, s)
  {
    var i :| 0 <= i < |steps| && steps[i] == s;
    assert steps[..|steps|] == steps;
    RunConverges(ops, w, steps, |steps|, cancelled);
  }

  /** A credential of the plan is in place after a run without failures, its content the reference's value
      if it has one. */
  lemma CredentialPlaced(
    ops: HostOps, w: World, planned: seq<Step>, values: map<string, string>, cancelled: nat -> bool,
    h: Host, rel: string, content: string, ref: string)
    requires var steps := Resolved(planned, values);
             MeetsContract(ops, PathsOf(steps)) && Ordered(steps) && Clean(PlainRun(ops, Start(w), steps, cancelled))
    requires Holds(planned, Credential(h, rel, content, ref)) && (ref != "" ==> ref in values)
    ensures Placed(PlainRun(ops, Start(w), Resolved(planned, values), cancelled).world, h, rel,
                   if ref == "" then content else values[ref])
  {
    var p :| p in planned && EssenceOf(p) == Credential(h, rel, content, ref);
    Keeps(planned, values, p);
    var s := if ref == "" then p else p.(content := values[ref]);
    ReachesGoal(ops, w, Resolved(planned, values), cancelled, s);
    GoalIsPlaced(PlainRun(ops, Start(w), Resolved(planned, values), cancelled).world, s, h, rel,
      if ref == "" then content else values[ref]);
  }

  /** The Machine after the plan has been run, its references resolved. */
  function AfterRun(
    ops: HostOps, w: World, hosts: seq<Host>, opts: Options, values: map<string, string>, cancelled: nat -> bool): Run
  {
    PlainRun(ops, Start(w), ByPhase(Resolved(PlanSteps(hosts, opts), values)), cancelled)
  }

  /** Bootstrapping a Machine of a Fleet without clashes: after a run without failures every file the
      operator gave below --secrets-dir, the provider's token, and every block file whose reference has
      a value are in place at their Hosts, with the content given. */
  lemma CredentialsInPlace(
    ops: HostOps, w: World, hosts: seq<Host>, at: seq<nat>, configs: seq<Topology.HostConfig>, machine: string,
    opts: Options, values: map<string, string>, cancelled: nat -> bool, h: Host)
    requires Topology.Clashes(configs) == [] && OnMachine(hosts, at, configs, machine) && h in hosts
    requires forall g | g in hosts :: Placeable(g, opts)
    requires MeetsContract(ops, PathsOf(Resolved(PlanSteps(hosts, opts), values)))
    requires Clean(AfterRun(ops, w, hosts, opts, values, cancelled))
    ensures var secrets := opts.secrets(h.hostname);
            secrets.Entries? ==>
              forall rel, content | SecretFile(rel, Some(content)) in secrets.entries ::
                Placed(AfterRun(ops, w, hosts, opts, values, cancelled).world, h, rel, content)
    ensures opts.token.Some? && opts.bootstrap(h.hostname).None? ==>
              Placed(AfterRun(ops, w, hosts, opts, values, cancelled).world, h, opts.token.value.name,
                     opts.token.value.content)
    ensures forall name, ref | HasBlockFile(h, opts, name, ref) && ref != "" && ref in values ::
              Placed(AfterRun(ops, w, hosts, opts, values, cancelled).world, h, name, values[ref])
  {
    PlanIsSound(hosts, at, configs, machine, opts, values);
    var secrets, block := opts.secrets(h.hostname), opts.bootstrap(h.hostname);
    if secrets.Entries? {
      forall rel, content | SecretFile(rel, Some(content)) in secrets.entries
        ensures Placed(AfterRun(ops, w, hosts, opts, values, cancelled).world, h, rel, content)
      {
        FileIsWanted(h, opts, rel, content);
        PlanHoldsExact(hosts, opts, Credential(h, rel, content, ""));
        CredentialPlaced(ops, w, PlanSteps(hosts, opts), values, cancelled, h, rel, content, "");
      }
    }
    if opts.token.Some? && block.None? {
      var token := opts.token.value;
      assert Wanted(Credential(h, token.name, token.content, ""), h, opts);
      PlanHoldsExact(hosts, opts, Credential(h, token.name, token.content, ""));
      CredentialPlaced(ops, w, PlanSteps(hosts, opts), values, cancelled, h, token.name, token.content, "");
    }
    forall name, ref | HasBlockFile(h, opts, name, ref) && ref != "" && ref in values
      ensures Placed(AfterRun(ops, w, hosts, opts, values, cancelled).world, h, name, values[ref])
    {
      assert WantedBlockFile(Credential(h, name, "", ref), h, block.value);
      PlanHoldsExact(hosts, opts, Credential(h, name, "", ref));
      CredentialPlaced(ops, w, PlanSteps(hosts, opts), values, cancelled, h, name, "", ref);
    }
  }

  lemma FileIsWanted(h: Host, opts: Options, rel: string, content: string)
    requires opts.secrets(h.hostname).Entries? && SecretFile(rel, Some(content)) in opts.secrets(h.hostname).entries
    ensures Wanted(Credential(h, rel, content, ""), h, opts)
  {
    assert WantedEntry(Credential(h, rel, content, ""), h, opts.secrets(h.hostname).entries);
  }
}
