/** The Machine that bootstrap machine brings up, the steps of a plan, and their checks
    (pkg/machine/hostops.go, pkg/machine/plan.go, pkg/machine/evaluate.go). */
module Machine {
  import opened Common

  /** The rootful Host has no user of its own. */
  datatype Host = Host(hostname: string, user: string) {
    predicate Rootful() { user == "" }
  }

  datatype Kind = StepUser | StepSubIDs | StepLinger | StepUserManager | StepPodmanSocket | StepDir
    | StepCheckout | StepCredential | StepHostBootstrap

  datatype Phase = PhaseSetup | PhaseCredentials | PhaseHostBootstrap

  datatype Step = Step(id: string, phase: Phase, kind: Kind, host: Host, path: string, mode: nat, content: string,
    source: string, ref: string)

  // ----- the state of the Machine

  datatype User = User(uid: int, gid: int)

  datatype UnitState = UnitState(enabled: bool, active: bool)

  datatype FileKind = Directory | Regular | Other

  datatype Entry = Entry(kind: FileKind, uid: int, gid: int, mode: nat, content: string)

  /** What belongs to one Linux user, or to root: the files below the home, or /, by their path there.
      The accounts' files are disjoint: no write leaves its base directory, and no home lies in
      another or in the rootful Host's directories. */
  datatype Account = Account(
    user: Option<User>, subuid: bool, subgid: bool, linger: bool, manager: bool, socket: UnitState,
      files: map<string, Entry>)

  /** The Fleet checkout, shared by the Hosts. */
  datatype Tree = Tree(readable: bool, version: nat)

  datatype World = World(accounts: map<string, Account>, tree: Tree)

  function NoAccount(): Account { Account(None, false, false, false, false, UnitState(false, false), map[]) }

  function AccountOf(w: World, h: Host): Account {
    if h.user in w.accounts then w.accounts[h.user] else NoAccount()
  }

  // ----- HostOps

  datatype Read = LookupUser | SubIDs(user: User) | LingerEnabled(user: User) | ManagerRunning(user: User)
    | UserUnit(user: User) | SystemUnit | Stat(path: string) | ContentEquals(path: string)

  datatype Write = CreateUser | EnableLinger | WaitManager | EnableUserUnit | EnableSystemUnit
    | EnsureDir(path: string, uid: int, gid: int, mode: nat)
    | WriteFile(path: string, content: string, uid: int, gid: int, mode: nat)
    | SetOwnerMode(path: string, uid: int, gid: int, mode: nat)
    | RunBootstrap | RestartAgent | WaitHealthy

  datatype ReadStatus = Answers | Unprivileged | Breaks

  /** The operations' behaviour: whether a read answers, and what a write leaves, with its success.
      `resolves` says whether the Host's Agent can be resolved from the Fleet. */
  datatype HostOps = HostOps(
    read: (Account, Read) -> ReadStatus, treeRead: Tree -> ReadStatus,
    write: (Account, Write) -> (Account, bool), makeReadable: Tree -> (Tree, bool), resolves: string -> bool)

  /** Of the given paths, what exists is unchanged. */
  ghost predicate KeepsPaths(a: Account, b: Account, paths: set<string>) {
    forall q | q in paths && q in a.files :: q in b.files && b.files[q] == a.files[q]
  }

  /** The documented contract of each successful write, as far as the directories and credential files
      at `paths` go: other files may appear, change or go. A user unit is enabled in the running
      manager, and starting the manager may start the units enabled in it. */
  ghost predicate Contract(a: Account, w: Write, b: Account, paths: set<string>) {
    match w
    case CreateUser => b.user.Some?
    case EnableLinger =>
      b.user == a.user && b.subuid == a.subuid && b.subgid == a.subgid && b.linger && KeepsPaths(a, b, paths)
    case WaitManager => b.(socket := a.socket, files := a.files) == a.(manager := true) && KeepsPaths(a, b, paths)
    case EnableUserUnit => a.manager && b.(files := a.files) == a.(socket := UnitState(true, true))
      && KeepsPaths(a, b, paths)
    case EnableSystemUnit => b.(files := a.files) == a.(socket := UnitState(true, true)) && KeepsPaths(a, b, paths)
    case EnsureDir(path, uid, gid, mode) =>
      && b.(files := a.files) == a && KeepsPaths(a, b, paths - {path})
      && path in b.files && b.files[path].kind.Directory?
      && b.files[path].uid == uid && b.files[path].gid == gid && b.files[path].mode == mode
    case WriteFile(path, content, uid, gid, mode) =>
      && b.(files := a.files) == a && KeepsPaths(a, b, paths - {path})
      && path in b.files && b.files[path] == Entry(Regular, uid, gid, mode, content)
    case SetOwnerMode(path, uid, gid, mode) =>
      && b.(files := a.files) == a && KeepsPaths(a, b, paths - {path})
      && path in a.files && a.files[path].kind.Regular?
      && path in b.files && b.files[path] == a.files[path].(uid := uid, gid := gid, mode := mode)
    case RunBootstrap => b.(files := a.files) == a && KeepsPaths(a, b, paths)
    case RestartAgent => b.(files := a.files) == a && KeepsPaths(a, b, paths)
    case WaitHealthy => b.(files := a.files) == a && KeepsPaths(a, b, paths)
  }

  ghost predicate WritesMeetContract(ops: HostOps, paths: set<string>) {
    forall a, w :: ops.write(a, w).1 ==> Contract(a, w, ops.write(a, w).0, paths)
  }

  /** MakeWorldReadable opens the checkout, or fails and changes nothing. */
  ghost predicate OpensCheckout(ops: HostOps) {
    && (forall t :: ops.makeReadable(t).1 ==> ops.makeReadable(t).0.readable)
    && (forall t :: !ops.makeReadable(t).1 ==> ops.makeReadable(t).0 == t)
  }

  ghost predicate MeetsContract(ops: HostOps, paths: set<string>) {
    WritesMeetContract(ops, paths) && OpensCheckout(ops)
  }

  /** Run as root, every question has an answer. */
  ghost predicate ReadsAnswer(ops: HostOps) {
    (forall a, r :: ops.read(a, r).Answers?) && forall t :: ops.treeRead(t).Answers?
  }

  const STATE_FILE := ".local/share/picolet/state.json"

  /** A Machine on which every operation succeeds; the per-Host bootstrap rewrites its state file. */
  function IdealWrite(a: Account, w: Write): (Account, bool) {
    match w
    case CreateUser => (a.(user := Some(User(1000, 1000)), subuid := true, subgid := true), true)
    case EnableLinger => (a.(linger := true, manager := true), true)
    case WaitManager => (a.(manager := true), true)
    case EnableUserUnit => if a.manager then (a.(socket := UnitState(true, true)), true) else (a, false)
    case EnableSystemUnit => (a.(socket := UnitState(true, true)), true)
    case EnsureDir(path, uid, gid, mode) => (a.(files := a.files[path := Entry(Directory, uid, gid, mode, "")]), true)
    case WriteFile(path, content, uid, gid, mode) => (a.(files := a.files[path := Entry(Regular, uid, gid, mode,
      content)]), true)
    case SetOwnerMode(path, uid, gid, mode) =>
      if path in a.files && a.files[path].kind.Regular? then
        (a.(files := a.files[path := a.files[path].(uid := uid, gid := gid, mode := mode)]), true)
      else (a, false)
    case RunBootstrap =>
      var version := if STATE_FILE in a.files then a.files[STATE_FILE].content + "+" else "";
      (a.(files := a.files[STATE_FILE := Entry(Regular, 1000, 1000, 384, version)]), true)
    case RestartAgent => (a, true)
    case WaitHealthy => (a, true)
  }

  function IdealOps(): HostOps {
    HostOps((a: Account, r: Read) => Answers, (t: Tree) => Answers, IdealWrite,
      (t: Tree) => (t.(readable := true), true), (h: string) => true)
  }

  /** The contracts can be met, by a bootstrap that rewrites files of its own too. */
  lemma ContractsAreMet(paths: set<string>)
    requires STATE_FILE !in paths
    ensures MeetsContract(IdealOps(), paths) && ReadsAnswer(IdealOps())
  {
    forall a, w | IdealWrite(a, w).1 ensures Contract(a, w, IdealWrite(a, w).0, paths) {
    }
  }

  // ----- checks, without the cache

  datatype Fix = NoFix | FixContent | FixOwnerMode

  datatype Checked = CheckError(unprivileged: bool) | Done | WouldDo(fix: Fix)

  function BoolResult(status: ReadStatus, ok: bool): Checked {
    match status
    case Answers => if ok then Done else WouldDo(NoFix)
    case Unprivileged => CheckError(true)
    case Breaks => CheckError(false)
  }

  datatype Lookup = LookupError(unprivileged: bool) | Missing | Found(user: User)

  function LookupOf(ops: HostOps, a: Account): Lookup {
    match ops.read(a, LookupUser)
    case Answers => (match a.user case None => Missing case Some(u) => Found(u))
    case Unprivileged => LookupError(true)
    case Breaks => LookupError(false)
  }

  function ManagerOf(ops: HostOps, a: Account, l: Lookup): Checked {
    match l
    case LookupError(u) => CheckError(u)
    case Missing => WouldDo(NoFix)
    case Found(u) => BoolResult(ops.read(a, ManagerRunning(u)), a.manager)
  }

  /** The state of podman.socket in the manager of `u`. */
  function SocketOf(a: Account, u: Option<User>): bool {
    a.user == u && a.socket.enabled && a.socket.active
  }

  function OwnerOf(h: Host, u: User): User { if h.Rootful() then User(0, 0) else u }

  predicate Owned(e: Entry, owner: User, mode: nat) { e.uid == owner.uid && e.gid == owner.gid && e.mode == mode }

  function StatOf(a: Account, path: string): Option<Entry> { if path in a.files then Some(a.files[path]) else None }

  /** checkDir below a known base. */
  function DirResult(ops: HostOps, a: Account, s: Step, owner: User): Checked {
    var info := StatOf(a, s.path);
    BoolResult(ops.read(a, Stat(s.path)), info.Some? && info.value.kind.Directory? && Owned(info.value, owner, s.mode))
  }

  /** checkCredential below a known base. */
  function CredentialResult(ops: HostOps, a: Account, s: Step, owner: User): Checked {
    match BoolResult(ops.read(a, Stat(s.path)), true)
    case CheckError(u) => CheckError(u)
    case _ =>
      var info := StatOf(a, s.path);
      if info.None? || !info.value.kind.Regular? then WouldDo(FixContent)
      else match BoolResult(ops.read(a, ContentEquals(s.path)), true)
           case CheckError(u) => CheckError(u)
           case _ =>
             if info.value.content != s.content then WouldDo(FixContent)
             else if Owned(info.value, owner, s.mode) then Done
             else WouldDo(FixOwnerMode)
  }

  /** base: who owns what the Host places; of root, no user is needed. */
  function Placer(h: Host, l: Lookup): Lookup { if h.Rootful() then Found(User(0, 0)) else l }

  /** A check below the base of the Host's user, whose result for an existing one is `found`. */
  function BelowBase(placer: Lookup, found: Checked): Checked {
    match placer
    case LookupError(u) => CheckError(u)
    case Missing => WouldDo(NoFix)
    case Found(_) => found
  }

  function Placing(placer: Lookup): User { if placer.Found? then placer.user else User(0, 0) }

  /** The check of a step given what the lookups it makes answer: `l` for the Host's user, `manager`
      and the user `known` with it for its systemd manager. */
  function CheckGiven(
    ops: HostOps, a: Account, t: Tree, s: Step, l: Lookup, manager: Checked, known: Option<User>): Checked {
    match s.kind
    case StepUser => (match l case LookupError(u) => CheckError(u) case Missing => WouldDo(NoFix) case Found(_) => Done)
    case StepSubIDs =>
      (match l
       case LookupError(u) => CheckError(u)
       case Missing => WouldDo(NoFix)
       case Found(u) => BoolResult(ops.read(a, SubIDs(u)), a.subuid && a.subgid))
    case StepLinger =>
      (match l
       case LookupError(u) => CheckError(u)
       case Missing => WouldDo(NoFix)
       case Found(u) => BoolResult(ops.read(a, LingerEnabled(u)), a.linger))
    case StepUserManager => manager
    case StepPodmanSocket =>
      if s.host.Rootful() then BoolResult(ops.read(a, SystemUnit), a.socket.enabled && a.socket.active)
      else if !manager.Done? then manager
      else if known.None? then CheckError(false)
      else BoolResult(ops.read(a, UserUnit(known.value)), SocketOf(a, known))
    case StepDir => BelowBase(Placer(s.host, l), DirResult(ops, a, s, Placing(Placer(s.host, l))))
    case StepCheckout => BoolResult(ops.treeRead(t), t.readable)
    case StepCredential => BelowBase(Placer(s.host, l), CredentialResult(ops, a, s, Placing(Placer(s.host, l))))
    case StepHostBootstrap => WouldDo(NoFix)
  }

  /** The check made with no cache. */
  function Check(ops: HostOps, a: Account, t: Tree, s: Step): Checked {
    var l := LookupOf(ops, a);
    CheckGiven(ops, a, t, s, l, ManagerOf(ops, a, l), a.user)
  }

  // ----- the fact cache

  /** hostFacts. `user` outlives `forget`; None when the user was not found. */
  datatype Facts = Facts(userChecked: bool, user: Option<User>, managerChecked: bool, manager: Checked)

  function NoFacts(): Facts { Facts(false, None, false, WouldDo(NoFix)) }

  function Forget(f: Facts): Facts { f.(userChecked := false, managerChecked := false) }

  function CachedLookup(ops: HostOps, a: Account, f: Facts): (Facts, Lookup) {
    if f.userChecked then (f, match f.user case None => Missing case Some(u) => Found(u))
    else
      var l := LookupOf(ops, a);
      if l.LookupError? then (f, l)
      else (f.(userChecked := true, user := if l.Found? then Some(l.user) else None), l)
  }

  function CachedManager(ops: HostOps, a: Account, f: Facts): (Facts, Checked) {
    if f.managerChecked then (f, f.manager)
    else
      var (g, l) := CachedLookup(ops, a, f);
      var m := ManagerOf(ops, a, l);
      (g.(managerChecked := true, manager := m), m)
  }

  predicate NeedsManager(s: Step) {
    s.kind.StepUserManager? || (s.kind.StepPodmanSocket? && !s.host.Rootful())
  }

  predicate NeedsUser(s: Step) {
    s.kind.StepUser? || s.kind.StepSubIDs? || s.kind.StepLinger?
    || ((s.kind.StepDir? || s.kind.StepCredential?) && !s.host.Rootful())
  }

  /** hostFacts.check: the facts after it, and its result. */
  function CachedCheck(ops: HostOps, a: Account, t: Tree, f: Facts, s: Step): (Facts, Checked) {
    if NeedsManager(s) then
      var (g, m) := CachedManager(ops, a, f);
      (g, CheckGiven(ops, a, t, s, Missing, m, g.user))
    else if NeedsUser(s) then
      var (g, l) := CachedLookup(ops, a, f);
      (g, CheckGiven(ops, a, t, s, l, WouldDo(NoFix), None))
    else (f, CheckGiven(ops, a, t, s, Missing, WouldDo(NoFix), None))
  }

  /** The cached facts are those a lookup would find now. */
  ghost predicate Fresh(ops: HostOps, a: Account, f: Facts) {
    && (f.userChecked ==> ops.read(a, LookupUser).Answers? && f.user == a.user)
    && (f.managerChecked ==> f.manager == ManagerOf(ops, a, LookupOf(ops, a)))
    && (f.managerChecked && !f.manager.CheckError? ==> f.user == a.user)
  }

  /** hostFacts as the source keeps it. */
  class HostFacts {
    var userChecked: bool
    var user: Option<User>
    var managerChecked: bool
    var manager: Checked

    function AsFacts(): Facts
      reads this
    {
      Facts(userChecked, user, managerChecked, manager)
    }

    constructor ()
      ensures AsFacts() == NoFacts()
    {
      userChecked, user, managerChecked, manager := false, None, false, WouldDo(NoFix);
    }

    method ForgetAll()
      modifies this
      ensures AsFacts() == Forget(old(AsFacts()))
    {
      userChecked, managerChecked := false, false;
    }

    method FindUser(ops: HostOps, a: Account) returns (l: Lookup)
      modifies this
      ensures (AsFacts(), l) == CachedLookup(ops, a, old(AsFacts()))
    {
      if !userChecked {
        l := LookupOf(ops, a);
        if l.LookupError? {
          return;
        }
        user := if l.Found? then Some(l.user) else None;
        userChecked := true;
      }
      l := if user.None? then Missing else Found(user.value);
    }

    method CheckUserManager(ops: HostOps, a: Account) returns (m: Checked)
      modifies this
      ensures (AsFacts(), m) == CachedManager(ops, a, old(AsFacts()))
    {
      if !managerChecked {
        var l := FindUser(ops, a);
        manager := ManagerOf(ops, a, l);
        managerChecked := true;
      }
      m := manager;
    }

    /** While the cache is fresh, the check through it is the check without it, and leaves it fresh. */
    method CheckStep(ops: HostOps, a: Account, t: Tree, s: Step) returns (c: Checked)
      modifies this
      ensures (AsFacts(), c) == CachedCheck(ops, a, t, old(AsFacts()), s)
      ensures old(Fresh(ops, a, AsFacts())) && (s.host.Rootful() ==> !s.kind.StepUserManager?)
              ==> c == Check(ops, a, t, s) && Fresh(ops, a, AsFacts())
    {
      ghost var before := AsFacts();
      if Fresh(ops, a, before) {
        CacheCoherent(ops, a, t, before, s);
      }
      if NeedsManager(s) {
        var m := CheckUserManager(ops, a);
        return CheckGiven(ops, a, t, s, Missing, m, user);
      } else if NeedsUser(s) {
        var l := FindUser(ops, a);
        return CheckGiven(ops, a, t, s, l, WouldDo(NoFix), None);
      }
      return CheckGiven(ops, a, t, s, Missing, WouldDo(NoFix), None);
    }
  }

  lemma LookupCoherent(ops: HostOps, a: Account, f: Facts)
    requires Fresh(ops, a, f)
    ensures CachedLookup(ops, a, f).1 == LookupOf(ops, a) && Fresh(ops, a, CachedLookup(ops, a, f).0)
  {
  }

  lemma ManagerCoherent(ops: HostOps, a: Account, f: Facts)
    requires Fresh(ops, a, f)
    ensures CachedManager(ops, a, f).1 == ManagerOf(ops, a, LookupOf(ops, a))
            && Fresh(ops, a, CachedManager(ops, a, f).0)
  {
    LookupCoherent(ops, a, f);
  }

  /** Fact cache coherence: through a fresh cache every check finds what it would find without one. */
  lemma CacheCoherent(ops: HostOps, a: Account, t: Tree, f: Facts, s: Step)
    requires Fresh(ops, a, f)
    ensures CachedCheck(ops, a, t, f, s).1 == Check(ops, a, t, s)
    ensures Fresh(ops, a, CachedCheck(ops, a, t, f, s).0)
  {
    LookupCoherent(ops, a, f);
    ManagerCoherent(ops, a, f);
  }

  /** The Hosts' hostnames are distinct, and so are their users. */
  ghost predicate DistinctHosts(steps: seq<Step>) {
    forall s, t | s in steps && t in steps :: s.host.hostname == t.host.hostname <==> s.host.user == t.host.user
  }

  // ----- goals

  /** The end state a step brings about. */
  ghost predicate Goal(w: World, s: Step) {
    var a := AccountOf(w, s.host);
    match s.kind
    case StepUser => a.user.Some?
    case StepSubIDs => a.user.Some? && a.subuid && a.subgid
    case StepLinger => a.user.Some? && a.linger
    case StepUserManager => a.user.Some? && a.manager
    case StepPodmanSocket => a.socket == UnitState(true, true) && (s.host.Rootful() || (a.user.Some? && a.manager))
    case StepDir =>
      (s.host.Rootful() || a.user.Some?) && s.path in a.files && a.files[s.path].kind.Directory?
      && Owned(a.files[s.path], OwnerOf(s.host, if a.user.Some? then a.user.value else User(0, 0)), s.mode)
    case StepCheckout => w.tree.readable
    case StepCredential =>
      (s.host.Rootful() || a.user.Some?) && s.path in a.files && a.files[s.path].kind.Regular?
      && Owned(a.files[s.path], OwnerOf(s.host, if a.user.Some? then a.user.value else User(0, 0)), s.mode)
      && a.files[s.path].content == s.content
    case StepHostBootstrap => false
  }

  /** Where the questions are answered, a step's check is done exactly when its end state holds. */
  lemma DoneIsGoal(ops: HostOps, w: World, s: Step)
    requires ReadsAnswer(ops)
    ensures Check(ops, AccountOf(w, s.host), w.tree, s).Done? <==> Goal(w, s)
  {
  }

  /** A check that says done is right, whatever other questions go unanswered. */
  lemma DoneMeansGoal(ops: HostOps, w: World, s: Step)
    requires Check(ops, AccountOf(w, s.host), w.tree, s).Done?
    ensures Goal(w, s)
  {
  }
}
