/** Planning the bootstrap of a Machine (pkg/machine/plan.go, pkg/machine/credentials.go). */
module Planning {
  import opened Common
  import opened Machine
  import opened Runner
  import opened Convergence

  // ----- inputs

  /** An entry below a Host's directory of --secrets-dir, by its path there; None for a file that
      cannot be read. */
  datatype SecretEntry = SecretDir(rel: string) | SecretFile(rel: string, content: Option<string>)

  /** What --secrets-dir holds for a Host, in lexical order; NoSecrets without the directory. */
  datatype Secrets = NoSecrets | SecretsError | Entries(entries: seq<SecretEntry>)

  datatype Token = Token(name: string, content: string, flag: string)

  /** A file of a bootstrap: block and its Secret Reference. */
  datatype BootstrapFile = BootstrapFile(name: string, ref: string)

  /** The operator's inputs, and by hostname the Fleet's bootstrap: files in name order; None for a
      Host without the block. */
  datatype Options = Options(
    repoDir: string, secrets: string -> Secrets, token: Option<Token>, bootstrap: string -> Option<seq<BootstrapFile>>)

  // ----- setup

  datatype AgentDir = AgentDir(name: string, userPath: string, rootPath: string, mode: nat)

  /** Modes 0700 and 0755. */
  const SECRETS_AGENT_DIR := AgentDir("secrets", ".config/picolet/secrets", "/etc/picolet/secrets", 448)

  const AGENT_DIRS := [
    SECRETS_AGENT_DIR,
    AgentDir("data", ".local/share/picolet", "/var/lib/picolet-system", 448),
    AgentDir("quadlets", ".config/containers/systemd", "/etc/containers/systemd", 493),
    AgentDir("units", ".config/systemd/user", "/etc/systemd/system", 493)]

  function DirPath(d: AgentDir, h: Host): string { if h.Rootful() then d.rootPath else d.userPath }

  function SetupStep(h: Host, name: string, kind: Kind): Step {
    Step(h.hostname + "/" + name, PhaseSetup, kind, h, "", 0, "", "", "")
  }

  function DirStep(h: Host, d: AgentDir): Step {
    SetupStep(h, "dir/" + d.name, StepDir).(path := DirPath(d, h), mode := d.mode)
  }

  function SessionSteps(h: Host): seq<Step> {
    if h.Rootful() then []
    else [SetupStep(h, "user", StepUser), SetupStep(h, "subids", StepSubIDs), SetupStep(h, "linger", StepLinger),
          SetupStep(h, "user-manager", StepUserManager)]
  }

  function DirSteps(h: Host): seq<Step> {
    [DirStep(h, AGENT_DIRS[0]), DirStep(h, AGENT_DIRS[1]), DirStep(h, AGENT_DIRS[2]), DirStep(h, AGENT_DIRS[3])]
  }

  function CheckoutSteps(h: Host, repoDir: string): seq<Step> {
    if h.Rootful() then [] else [SetupStep(h, "checkout", StepCheckout).(path := repoDir)]
  }

  function SetupSteps(h: Host, repoDir: string): seq<Step> {
    SessionSteps(h) + [SetupStep(h, "podman-socket", StepPodmanSocket)] + DirSteps(h) + CheckoutSteps(h, repoDir)
  }

  // ----- credentials

  /** The path of `rel` in the Host's secrets directory. */
  function SecretPath(h: Host, rel: string): string { DirPath(SECRETS_AGENT_DIR, h) + "/" + rel }

  /** Mode 0600. */
  function CredentialStep(h: Host, rel: string, content: string, source: string): Step {
    Step(h.hostname + "/credential/" + rel, PhaseCredentials, StepCredential, h, SecretPath(h, rel), 384, content,
      source, "")
  }

  function EntryStep(h: Host, e: SecretEntry): Option<Step> {
    match e
    case SecretDir(rel) =>
      Some(Step(h.hostname + "/credential-dir/" + rel, PhaseCredentials, StepDir, h, SecretPath(h, rel),
        SECRETS_AGENT_DIR.mode, "", "", ""))
    case SecretFile(rel, Some(content)) => Some(CredentialStep(h, rel, content, ""))
    case SecretFile(_, None) => None
  }

  function EntrySteps(h: Host, entries: seq<SecretEntry>): Option<seq<Step>> {
    if entries == [] then Some([])
    else
      var n := |entries| - 1;
      var before, last := EntrySteps(h, entries[..n]), EntryStep(h, entries[n]);
      if before.None? || last.None? then None else Some(before.value + [last.value])
  }

  function BootstrapSteps(h: Host, files: seq<BootstrapFile>): seq<Step> {
    if files == [] then []
    else
      var n := |files| - 1;
      BootstrapSteps(h, files[..n]) + [CredentialStep(h, files[n].name, "", files[n].ref).(ref := files[n].ref)]
  }

  /** The credential steps of a Host before their sources are compared. */
  function SourcedSteps(h: Host, opts: Options): Option<seq<Step>> {
    var s := opts.secrets(h.hostname);
    var block := opts.bootstrap(h.hostname);
    var files := match s
                 case NoSecrets => Some([])
                 case SecretsError => None
                 case Entries(entries) => EntrySteps(h, entries);
    if files.None? then None
    else Some(files.value
              + (if opts.token.Some? && block.None?
                 then [CredentialStep(h, opts.token.value.name, opts.token.value.content, opts.token.value.flag)]
                   else [])
              + (if block.Some? then BootstrapSteps(h, block.value) else []))
  }

  ghost predicate DistinctPaths(steps: seq<Step>) {
    forall i, j | 0 <= i < j < |steps| :: steps[i].path != steps[j].path
  }

  /** The step at `i` places `path`, from `source`. */
  predicate Places(steps: seq<Step>, i: int, path: string, source: string) {
    0 <= i < |steps| && steps[i].path == path && SourceOf(steps[i]) == source
  }

  /** oneSourcePerPath: no error exactly when no two steps place one path; else the path and the two
      sources. */
  method OneSourcePerPath(steps: seq<Step>) returns (clash: Option<(string, string, string)>)
    ensures clash.None? <==> DistinctPaths(steps)
    ensures clash.Some? ==> exists i, j | 0 <= i < j < |steps| ::
                              Places(steps, i, clash.value.0, clash.value.1)
                                && Places(steps, j, clash.value.0, clash.value.2)
  {
    var from: map<string, string> := map[];
    for i := 0 to |steps|
      invariant forall j | 0 <= j < i :: steps[j].path in from
      invariant forall p | p in from :: exists j | 0 <= j < i :: Places(steps, j, p, from[p])
      invariant forall j, k | 0 <= j < k < i :: steps[j].path != steps[k].path
    {
      var path, source := steps[i].path, SourceOf(steps[i]);
      if path in from {
        ghost var j :| 0 <= j < i && Places(steps, j, path, from[path]);
        assert Places(steps, i, path, source);
        return Some((path, from[path], source));
      }
      from := from[path := source];
      assert Places(steps, i, path, source);
    }
    return None;
  }

  function SourceOf(s: Step): string { if s.source != "" then s.source else "--secrets-dir" }

  /** credentialSteps. */
  method CredentialSteps(h: Host, secrets: Secrets) returns (steps: Option<seq<Step>>)
    ensures steps == match secrets
                     case NoSecrets => Some([])
                     case SecretsError => None
                     case Entries(entries) => EntrySteps(h, entries)
  {
    match secrets
    case NoSecrets => return Some([]);
    case SecretsError => return None;
    case Entries(entries) =>
      var found: seq<Step> := [];
      for i := 0 to |entries|
        invariant EntrySteps(h, entries[..i]) == Some(found)
      {
        assert entries[..i + 1][..i] == entries[..i];
        var s := EntryStep(h, entries[i]);
        if s.None? {
          UnreadableEntry(h, entries, i);
          return None;
        }
        found := found + [s.value];
      }
      assert entries[..|entries|] == entries;
      return Some(found);
  }

  lemma UnreadableEntry(h: Host, entries: seq<SecretEntry>, i: nat)
    requires i < |entries| && EntryStep(h, entries[i]).None?
    ensures EntrySteps(h, entries).None?
  {
    if i < |entries| - 1 {
      UnreadableEntry(h, entries[..|entries| - 1], i);
    }
  }

  /** hostCredentialSteps: None when a file cannot be read or two sources place one file. */
  method HostCredentialSteps(h: Host, opts: Options) returns (steps: Option<seq<Step>>)
    ensures steps == OwnCredentials(h, opts)
  {
    var files := CredentialSteps(h, opts.secrets(h.hostname));
    if files.None? {
      return None;
    }
    var found := files.value;
    var block := opts.bootstrap(h.hostname);
    if opts.token.Some? && block.None? {
      found := found + [CredentialStep(h, opts.token.value.name, opts.token.value.content, opts.token.value.flag)];
    }
    ghost var before := found;
    if block.Some? {
      for i := 0 to |block.value|
        invariant found == before + BootstrapSteps(h, block.value[..i])
      {
        assert block.value[..i + 1][..i] == block.value[..i];
        var s := CredentialStep(h, block.value[i].name, "", block.value[i].ref);
        found := found + [s.(ref := block.value[i].ref)];
      }
      assert block.value[..|block.value|] == block.value;
    }
    assert found == before + if block.Some? then BootstrapSteps(h, block.value) else [];
    assert SourcedSteps(h, opts).value == found;
    var clash := OneSourcePerPath(found);
    return if clash.None? then Some(found) else None;
  }

  /** Every file is readable and has one source. */
  ghost predicate Placeable(h: Host, opts: Options) {
    SourcedSteps(h, opts).Some? && DistinctPaths(SourcedSteps(h, opts).value)
  }

  // ----- the plan

  datatype Part = Setup | Credentials | PerHost

  function PartSteps(part: Part, h: Host, opts: Options): seq<Step> {
    match part
    case Setup => SetupSteps(h, opts.repoDir)
    case Credentials => (var s := SourcedSteps(h, opts); if s.None? then [] else s.value)
    case PerHost => [Step(h.hostname + "/bootstrap", PhaseHostBootstrap, StepHostBootstrap, h, "", 0, "", "", "")]
  }

  function AllOf(part: Part, hosts: seq<Host>, opts: Options): seq<Step> {
    if hosts == [] then []
    else var n := |hosts| - 1; AllOf(part, hosts[..n], opts) + PartSteps(part, hosts[n], opts)
  }

  function PlanSteps(hosts: seq<Host>, opts: Options): seq<Step> {
    AllOf(Setup, hosts, opts) + AllOf(Credentials, hosts, opts) + AllOf(PerHost, hosts, opts)
  }

  lemma AllNext(part: Part, hosts: seq<Host>, opts: Options, n: nat)
    requires n < |hosts|
    ensures AllOf(part, hosts[..n + 1], opts) == AllOf(part, hosts[..n], opts) + PartSteps(part, hosts[n], opts)
  {
    assert hosts[..n + 1][..n] == hosts[..n];
  }

  /** The Host's credential steps, unless they are not placeable. */
  ghost function OwnCredentials(h: Host, opts: Options): Option<seq<Step>> {
    if Placeable(h, opts) then SourcedSteps(h, opts) else None
  }

  ghost function AllCredentials(hosts: seq<Host>, opts: Options): Option<seq<Step>> {
    if hosts == [] then Some([])
    else
      var n := |hosts| - 1;
      var before, own := AllCredentials(hosts[..n], opts), OwnCredentials(hosts[n], opts);
      if before.None? || own.None? then None else Some(before.value + own.value)
  }

  lemma {:induction false} CredentialsFail(hosts: seq<Host>, opts: Options, n: nat)
    requires n <= |hosts| && AllCredentials(hosts[..n], opts).None?
    ensures AllCredentials(hosts, opts).None?
    decreases |hosts|
  {
    if n < |hosts| {
      assert hosts[..|hosts| - 1][..n] == hosts[..n];
      CredentialsFail(hosts[..|hosts| - 1], opts, n);
    } else {
      assert hosts[..n] == hosts;
    }
  }

  lemma {:induction false} CredentialsExact(hosts: seq<Host>, opts: Options)
    ensures AllCredentials(hosts, opts).Some? <==> forall h | h in hosts :: Placeable(h, opts)
    ensures AllCredentials(hosts, opts).Some? ==> AllCredentials(hosts, opts).value == AllOf(Credentials, hosts, opts)
  {
    if hosts != [] {
      var n := |hosts| - 1;
      CredentialsExact(hosts[..n], opts);
      assert hosts == hosts[..n] + [hosts[n]];
    }
  }

  method PlanCredentials(hosts: seq<Host>, opts: Options) returns (steps: Option<seq<Step>>)
    ensures steps == AllCredentials(hosts, opts)
  {
    steps := Some([]);
    for i := 0 to |hosts|
      invariant steps.Some? && steps == AllCredentials(hosts[..i], opts)
    {
      assert hosts[..i + 1][..i] == hosts[..i];
      var own := HostCredentialSteps(hosts[i], opts);
      if own.None? {
        CredentialsFail(hosts, opts, i + 1);
        return None;
      }
      steps := Some(steps.value + own.value);
    }
    assert hosts[..|hosts|] == hosts;
  }

  /** The steps of a part that needs no inputs read. */
  method PlanPart(part: Part, hosts: seq<Host>, opts: Options) returns (steps: seq<Step>)
    requires !part.Credentials?
    ensures steps == AllOf(part, hosts, opts)
  {
    steps := [];
    for i := 0 to |hosts|
      invariant steps == AllOf(part, hosts[..i], opts)
    {
      AllNext(part, hosts, opts, i);
      steps := steps + PartSteps(part, hosts[i], opts);
    }
    assert hosts[..|hosts|] == hosts;
  }

  /** New, for the Hosts of the Machine: a plan exactly when every Host's credentials are placeable. */
  method New(hosts: seq<Host>, opts: Options) returns (plan: Option<seq<Step>>)
    ensures plan.Some? <==> forall h | h in hosts :: Placeable(h, opts)
    ensures plan.Some? ==> plan.value == PlanSteps(hosts, opts)
  {
    var setup := PlanPart(Setup, hosts, opts);
    CredentialsExact(hosts, opts);
    var credentials := PlanCredentials(hosts, opts);
    if credentials.None? {
      return None;
    }
    var perHost := PlanPart(PerHost, hosts, opts);
    return Some(setup + credentials.value + perHost);
  }

  // ----- a plan never undoes itself

  /** No two Hosts share a hostname or a user. */
  ghost predicate DistinctList(hosts: seq<Host>) {
    forall i, j | 0 <= i < j < |hosts| :: hosts[i].hostname != hosts[j].hostname && hosts[i].user != hosts[j].user
  }

  lemma OrderedConcat(a: seq<Step>, b: seq<Step>)
    requires Ordered(a) && Ordered(b) && forall x, y | x in a && y in b :: Spares(y, x)
    ensures Ordered(a + b)
  {
    var c := a + b;
    forall i, j | 0 <= i < j < |c| ensures Spares(c[j], c[i]) {
      if j < |a| {
        assert c[i] == a[i] && c[j] == a[j];
      } else if i < |a| {
        assert c[i] in a && c[j] in b;
      } else {
        assert c[i] == b[i - |a|] && c[j] == b[j - |a|];
      }
    }
  }

  lemma AgentDirsApart(h: Host, d: nat, e: nat)
    requires d < e < 4
    ensures DirPath(AGENT_DIRS[d], h) != DirPath(AGENT_DIRS[e], h)
  {
    var p, q := DirPath(AGENT_DIRS[d], h), DirPath(AGENT_DIRS[e], h);
    if |p| == |q| {
      assert p[1] != q[1];
    }
  }

  lemma SecretsApart(h: Host, rel: string, d: nat)
    requires d < 4
    ensures SecretPath(h, rel) != DirPath(AGENT_DIRS[d], h)
  {
    var p, q := SecretPath(h, rel), DirPath(AGENT_DIRS[d], h);
    var k := if h.Rootful() then 5 else 8;
    assert p[k] == 'p';
    if d == 1 {
      assert p[1] != q[1];
    } else if d > 1 {
      assert q[k] != 'p';
    } else {
      assert |p| > |q|;
    }
  }

  lemma SessionOrdered(h: Host)
    ensures Ordered(SessionSteps(h) + [SetupStep(h, "podman-socket", StepPodmanSocket)])
  {
  }

  lemma DirsOrdered(h: Host)
    ensures Ordered(DirSteps(h))
  {
    AgentDirsApart(h, 0, 1);
    AgentDirsApart(h, 0, 2);
    AgentDirsApart(h, 0, 3);
    AgentDirsApart(h, 1, 2);
    AgentDirsApart(h, 1, 3);
    AgentDirsApart(h, 2, 3);
  }

  lemma SetupMembers(h: Host, repoDir: string, s: Step)
    requires s in SetupSteps(h, repoDir)
    ensures s.host == h && s.phase == PhaseSetup && !s.kind.StepHostBootstrap? && !s.kind.StepCredential?
    ensures s.kind.StepDir? ==> s in DirSteps(h)
  {
  }

  lemma SetupOrdered(h: Host, repoDir: string)
    ensures Ordered(SetupSteps(h, repoDir))
  {
    SessionOrdered(h);
    DirsOrdered(h);
    var session := SessionSteps(h) + [SetupStep(h, "podman-socket", StepPodmanSocket)];
    OrderedConcat(session, DirSteps(h));
    OrderedConcat(session + DirSteps(h), CheckoutSteps(h, repoDir));
  }

  // ----- credentials

  /** A credential step: a directory or a file below the Host's secrets directory. */
  ghost predicate BelowSecrets(s: Step, h: Host) {
    && s.host == h && s.phase == PhaseCredentials && PlacesPath(s)
    && exists rel :: s.path == SecretPath(h, rel)
  }

  lemma {:induction false} EntriesBelow(h: Host, entries: seq<SecretEntry>)
    requires EntrySteps(h, entries).Some?
    ensures forall s | s in EntrySteps(h, entries).value :: BelowSecrets(s, h)
  {
    if entries != [] {
      var n := |entries| - 1;
      EntriesBelow(h, entries[..n]);
      assert EntryStep(h, entries[n]).value.path == SecretPath(h, entries[n].rel);
    }
  }

  lemma {:induction false} BlockBelow(h: Host, files: seq<BootstrapFile>)
    ensures forall s | s in BootstrapSteps(h, files) :: BelowSecrets(s, h)
  {
    if files != [] {
      var n := |files| - 1;
      BlockBelow(h, files[..n]);
      var s := CredentialStep(h, files[n].name, "", files[n].ref).(ref := files[n].ref);
      assert s.path == SecretPath(h, files[n].name);
    }
  }

  lemma SourcedBelow(h: Host, opts: Options)
    requires SourcedSteps(h, opts).Some?
    ensures forall s | s in SourcedSteps(h, opts).value :: BelowSecrets(s, h)
  {
    var s, block := opts.secrets(h.hostname), opts.bootstrap(h.hostname);
    if s.Entries? {
      EntriesBelow(h, s.entries);
    }
    if block.Some? {
      BlockBelow(h, block.value);
    }
    if opts.token.Some? {
      assert CredentialStep(h, opts.token.value.name, opts.token.value.content, opts.token.value.flag).path
        == SecretPath(h, opts.token.value.name);
    }
  }

  lemma CredentialsOrdered(h: Host, opts: Options)
    requires Placeable(h, opts)
    ensures Ordered(PartSteps(Credentials, h, opts))
  {
    SourcedBelow(h, opts);
    var steps := PartSteps(Credentials, h, opts);
    assert forall i | 0 <= i < |steps| :: steps[i] in steps;
  }

  // ----- the parts of one Host, and of all

  function PhaseOf(part: Part): Phase {
    match part case Setup => PhaseSetup case Credentials => PhaseCredentials case PerHost => PhaseHostBootstrap
  }

  lemma PartMembers(part: Part, h: Host, opts: Options, s: Step)
    requires s in PartSteps(part, h, opts)
    ensures s.host == h && s.phase == PhaseOf(part) && (s.kind.StepHostBootstrap? <==> part.PerHost?)
    ensures part.Credentials? ==> BelowSecrets(s, h)
    ensures part.Setup? && PlacesPath(s) ==> s in DirSteps(h)
  {
    match part
    case Setup => SetupMembers(h, opts.repoDir, s);
    case Credentials => SourcedBelow(h, opts);
    case PerHost =>
  }

  lemma PartOrdered(part: Part, h: Host, opts: Options)
    requires Placeable(h, opts)
    ensures Ordered(PartSteps(part, h, opts))
  {
    match part
    case Setup => SetupOrdered(h, opts.repoDir);
    case Credentials => CredentialsOrdered(h, opts);
    case PerHost =>
  }

  predicate Before(p: Part, q: Part) { (p.Setup? && !q.Setup?) || (p.Credentials? && q.PerHost?) }

  /** A later part of a Host spares an earlier one: no credential is placed at a directory of the Agent. */
  lemma PartsSpare(p: Part, q: Part, h: Host, opts: Options, x: Step, y: Step)
    requires Before(p, q) && x in PartSteps(p, h, opts) && y in PartSteps(q, h, opts)
    ensures Spares(y, x)
  {
    PartMembers(p, h, opts, x);
    PartMembers(q, h, opts, y);
    if p.Setup? && PlacesPath(x) && PlacesPath(y) {
      var rel :| y.path == SecretPath(h, rel);
      SecretsApart(h, rel, 0);
      SecretsApart(h, rel, 1);
      SecretsApart(h, rel, 2);
      SecretsApart(h, rel, 3);
    }
  }

  lemma {:induction false} AllMembers(part: Part, hosts: seq<Host>, opts: Options, s: Step)
    requires s in AllOf(part, hosts, opts)
    ensures s.host in hosts && s in PartSteps(part, s.host, opts)
  {
    var n := |hosts| - 1;
    if s in PartSteps(part, hosts[n], opts) {
      PartMembers(part, hosts[n], opts, s);
    } else {
      AllMembers(part, hosts[..n], opts, s);
    }
  }

  lemma {:induction false} AllOrdered(part: Part, hosts: seq<Host>, opts: Options)
    requires DistinctList(hosts) && forall h | h in hosts :: Placeable(h, opts)
    ensures Ordered(AllOf(part, hosts, opts))
  {
    if hosts != [] {
      var n := |hosts| - 1;
      var a, b := AllOf(part, hosts[..n], opts), PartSteps(part, hosts[n], opts);
      AllOrdered(part, hosts[..n], opts);
      PartOrdered(part, hosts[n], opts);
      forall x, y | x in a && y in b ensures Spares(y, x) {
        AllMembers(part, hosts[..n], opts, x);
        PartMembers(part, hosts[n], opts, y);
        var i :| 0 <= i < n && hosts[i] == x.host;
      }
      OrderedConcat(a, b);
    }
  }

  lemma AllPartsSpare(p: Part, q: Part, hosts: seq<Host>, opts: Options, x: Step, y: Step)
    requires DistinctList(hosts) && Before(p, q) && x in AllOf(p, hosts, opts) && y in AllOf(q, hosts, opts)
    ensures Spares(y, x)
  {
    AllMembers(p, hosts, opts, x);
    AllMembers(q, hosts, opts, y);
    if x.host == y.host {
      PartsSpare(p, q, x.host, opts, x, y);
    } else {
      DistinctUsers(hosts, x.host, y.host);
    }
  }

  lemma DistinctUsers(hosts: seq<Host>, g: Host, h: Host)
    requires DistinctList(hosts) && g in hosts && h in hosts && g != h
    ensures g.hostname != h.hostname && g.user != h.user
  {
    var i :| 0 <= i < |hosts| && hosts[i] == g;
    var j :| 0 <= j < |hosts| && hosts[j] == h;
    if i < j {
      assert hosts[i].user != hosts[j].user;
    } else {
      assert hosts[j].user != hosts[i].user;
    }
  }

  /** The plan of distinct Hosts never undoes itself. */
  lemma PlanOrdered(hosts: seq<Host>, opts: Options)
    requires DistinctList(hosts) && forall h | h in hosts :: Placeable(h, opts)
    ensures Ordered(PlanSteps(hosts, opts))
  {
    var a, b, c := AllOf(Setup, hosts, opts), AllOf(Credentials, hosts, opts), AllOf(PerHost, hosts, opts);
    AllOrdered(Setup, hosts, opts);
    AllOrdered(Credentials, hosts, opts);
    AllOrdered(PerHost, hosts, opts);
    forall x, y | x in a && y in b ensures Spares(y, x) { AllPartsSpare(Setup, Credentials, hosts, opts, x, y); }
    OrderedConcat(a, b);
    forall x, y | x in a + b && y in c ensures Spares(y, x) {
      if x in a {
        AllPartsSpare(Setup, PerHost, hosts, opts, x, y);
      } else {
        AllPartsSpare(Credentials, PerHost, hosts, opts, x, y);
      }
    }
    OrderedConcat(a + b, c);
  }

  /** Every step of the plan is one of a Host's, and every Host has a per-Host bootstrap. */
  lemma PlanHosts(hosts: seq<Host>, opts: Options)
    requires DistinctList(hosts)
    ensures DistinctHosts(PlanSteps(hosts, opts))
    ensures forall s | s in PlanSteps(hosts, opts) :: s.host in hosts
  {
    var steps := PlanSteps(hosts, opts);
    forall s | s in steps ensures s.host in hosts {
      var part := if s in AllOf(Setup, hosts, opts) then Setup else if s in AllOf(Credentials, hosts, opts)
        then Credentials else PerHost;
      AllMembers(part, hosts, opts, s);
    }
    forall s, t | s in steps && t in steps ensures s.host.hostname == t.host.hostname <==> s.host.user == t.host.user {
      if s.host != t.host {
        DistinctUsers(hosts, s.host, t.host);
      }
    }
  }
}
