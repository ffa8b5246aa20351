/** The Hosts a Fleet declares: collisions on one Machine (pkg/config/topology.go). */
module Topology {

  datatype HostConfig = HostConfig(dir: string, hostname: string, machine: string, user: string, listenPort: int)

  function ToLower(s: string): string {
    if s == "" then "" else [if 'A' <= s[0] <= 'Z' then s[0] + ('a' - 'A') else s[0]] + ToLower(s[1..])
  }

  /** MachineKey: hostname labels are case-insensitive. */
  function MachineKey(machine: string): string { ToLower(machine) }

  /** The same character, or the two cases of one letter. */
  predicate SameLetter(a: char, b: char) {
    a == b || ('A' <= a <= 'Z' && b as int == a as int + 32) || ('A' <= b <= 'Z' && a as int == b as int + 32)
  }

  predicate SameIgnoringCase(a: string, b: string) {
    |a| == |b| && forall i | 0 <= i < |a| :: SameLetter(a[i], b[i])
  }

  lemma {:induction false} MachineKeyExact(a: string, b: string)
    ensures MachineKey(a) == MachineKey(b) <==> SameIgnoringCase(a, b)
  {
    if a != "" && b != "" {
      MachineKeyExact(a[1..], b[1..]);
      assert MachineKey(a)[1..] == MachineKey(a[1..]) && MachineKey(b)[1..] == MachineKey(b[1..]);
      assert MachineKey(a)[0] == MachineKey(b)[0] <==> SameLetter(a[0], b[0]);
      assert SameIgnoringCase(a, b) <==> SameLetter(a[0], b[0]) && SameIgnoringCase(a[1..], b[1..]) by {
        if SameIgnoringCase(a, b) {
          forall i | 0 <= i < |a[1..]| ensures SameLetter(a[1..][i], b[1..][i]) {
            assert SameLetter(a[i + 1], b[i + 1]);
          }
        }
        assert forall i | 0 < i < |a| && |a| == |b| :: a[i] == a[1..][i - 1] && b[i] == b[1..][i - 1];
      }
    }
  }

  datatype Clash = SameHostname(first: string, dir: string) | SameUser(first: string,
    dir: string) | SamePort(first: string, dir: string)

  function Hostname(h: HostConfig): string { h.hostname }
  function MachineUser(h: HostConfig): (string, string) { (MachineKey(h.machine), h.user) }
  function MachinePort(h: HostConfig): (string, int) { (MachineKey(h.machine), h.listenPort) }

  /** The directories of the first Host with each key. */
  function FirstSeen<K(==)>(hosts: seq<HostConfig>, key: HostConfig -> K): map<K, string> {
    if hosts == [] then map[]
    else
      var n, h := |hosts| - 1, hosts[|hosts| - 1];
      var seen := FirstSeen(hosts[..n], key);
      if key(h) in seen then seen else seen[key(h) := h.dir]
  }

  function ClashesOf(h: HostConfig, before: seq<HostConfig>): seq<Clash> {
    var byHostname, byUser, byPort := FirstSeen(before, Hostname), FirstSeen(before, MachineUser),
      FirstSeen(before, MachinePort);
    (if Hostname(h) in byHostname then [SameHostname(byHostname[Hostname(h)], h.dir)] else [])
    + (if MachineUser(h) in byUser then [SameUser(byUser[MachineUser(h)], h.dir)] else [])
    + (if MachinePort(h) in byPort then [SamePort(byPort[MachinePort(h)], h.dir)] else [])
  }

  function Clashes(hosts: seq<HostConfig>): seq<Clash> {
    if hosts == [] then []
    else Clashes(hosts[..|hosts| - 1]) + ClashesOf(hosts[|hosts| - 1], hosts[..|hosts| - 1])
  }

  /** The keys of the first Hosts seen, and the clashes among them, as the loop keeps them. */
  ghost predicate Seen(hosts: seq<HostConfig>, byHostname: map<string, string>, byUser: map<(string, string), string>,
                       byPort: map<(string, int), string>, errs: seq<Clash>) {
    && byHostname == FirstSeen(hosts, Hostname) && byUser == FirstSeen(hosts, MachineUser)
      && byPort == FirstSeen(hosts, MachinePort)
    && errs == Clashes(hosts)
  }

  /** One Host's turn, `hosts` being those before it. */
  method NoteHost(
    ghost hosts: seq<HostConfig>, h: HostConfig, byHostname: map<string, string>, byUser: map<(string, string), string>,
                  byPort: map<(string, int), string>, errs: seq<Clash>)
    returns (hostnames: map<string, string>, users: map<(string, string), string>, ports: map<(string, int), string>,
      all: seq<Clash>)
    requires Seen(hosts, byHostname, byUser, byPort, errs)
    ensures Seen(hosts + [h], hostnames, users, ports, all)
  {
    ghost var longer := hosts + [h];
    assert longer[..|hosts|] == hosts && longer[|hosts|] == h;
    var found: seq<Clash> := [];
    hostnames, users, ports := byHostname, byUser, byPort;
    if h.hostname in byHostname {
      found := found + [SameHostname(byHostname[h.hostname], h.dir)];
    } else {
      hostnames := byHostname[h.hostname := h.dir];
    }
    var mu := (MachineKey(h.machine), h.user);
    if mu in byUser {
      found := found + [SameUser(byUser[mu], h.dir)];
    } else {
      users := byUser[mu := h.dir];
    }
    var mp := (MachineKey(h.machine), h.listenPort);
    if mp in byPort {
      found := found + [SamePort(byPort[mp], h.dir)];
    } else {
      ports := byPort[mp := h.dir];
    }
    assert found == ClashesOf(h, hosts);
    all := errs + found;
  }

  /** validateTopology, over the Hosts sorted by directory. */
  method ValidateTopology(hosts: seq<HostConfig>) returns (errs: seq<Clash>)
    ensures errs == Clashes(hosts)
  {
    var byHostname: map<string, string>, byUser: map<(string, string), string>, byPort: map<(string, int),
      string> := map[], map[], map[];
    errs := [];
    for i := 0 to |hosts|
      invariant Seen(hosts[..i], byHostname, byUser, byPort, errs)
    {
      assert hosts[..i + 1] == hosts[..i] + [hosts[i]];
      byHostname, byUser, byPort, errs := NoteHost(hosts[..i], hosts[i], byHostname, byUser, byPort, errs);
    }
    assert hosts[..|hosts|] == hosts;
  }

  ghost predicate DistinctBy<K>(hosts: seq<HostConfig>, key: HostConfig -> K) {
    forall i, j | 0 <= i < j < |hosts| :: key(hosts[i]) != key(hosts[j])
  }

  ghost predicate Occurs<K>(hosts: seq<HostConfig>, key: HostConfig -> K, k: K) {
    exists i :: 0 <= i < |hosts| && key(hosts[i]) == k
  }

  lemma {:induction false} FirstSeenKeys<K>(hosts: seq<HostConfig>, key: HostConfig -> K)
    ensures forall k: K :: k in FirstSeen(hosts, key) <==> Occurs(hosts, key, k)
  {
    if hosts != [] {
      var n := |hosts| - 1;
      var before := hosts[..n];
      FirstSeenKeys(before, key);
      forall k: K ensures k in FirstSeen(hosts, key) <==> Occurs(hosts, key, k) {
        if k in FirstSeen(before, key) {
          var i :| 0 <= i < n && key(before[i]) == k;
          assert key(hosts[i]) == k;
        }
        if i :| 0 <= i < |hosts| && key(hosts[i]) == k {
          assert i < n ==> key(before[i]) == k;
        }
      }
    }
  }

  lemma {:induction false} NoClashByKey(hosts: seq<HostConfig>)
    ensures Clashes(hosts) == [] <==>
            DistinctBy(hosts, Hostname) && DistinctBy(hosts, MachineUser) && DistinctBy(hosts, MachinePort)
  {
    if hosts != [] {
      var n, h := |hosts| - 1, hosts[|hosts| - 1];
      NoClashByKey(hosts[..n]);
      NewKeyIsDistinct(hosts, Hostname);
      NewKeyIsDistinct(hosts, MachineUser);
      NewKeyIsDistinct(hosts, MachinePort);
    }
  }

  /** The two Hosts cannot both be declared: they share a hostname, or a Machine and on it a user or a
      port. */
  predicate Collide(g: HostConfig, h: HostConfig) {
    || g.hostname == h.hostname
    || (SameIgnoringCase(g.machine, h.machine) && (g.user == h.user || g.listenPort == h.listenPort))
  }

  /** No collision is reported exactly when hostnames are distinct and, on each Machine, users and
      ports are. */
  lemma NoClashExact(hosts: seq<HostConfig>)
    ensures Clashes(hosts) == [] <==> forall i, j | 0 <= i < j < |hosts| :: !Collide(hosts[i], hosts[j])
  {
    NoClashByKey(hosts);
    forall i, j | 0 <= i < j < |hosts|
      ensures Collide(hosts[i], hosts[j])
              <==> Hostname(hosts[i]) == Hostname(hosts[j]) || MachineUser(hosts[i]) == MachineUser(hosts[j])
                   || MachinePort(hosts[i]) == MachinePort(hosts[j])
    {
      MachineKeyExact(hosts[i].machine, hosts[j].machine);
    }
  }

  lemma NewKeyIsDistinct<K>(hosts: seq<HostConfig>, key: HostConfig -> K)
    requires hosts != []
    ensures var n, h := |hosts| - 1, hosts[|hosts| - 1];
            DistinctBy(hosts, key) <==> DistinctBy(hosts[..n], key) && key(h) !in FirstSeen(hosts[..n], key)
  {
    var n, h := |hosts| - 1, hosts[|hosts| - 1];
    var before := hosts[..n];
    FirstSeenKeys(before, key);
    if key(h) in FirstSeen(before, key) {
      assert Occurs(before, key, key(h));
      var i :| 0 <= i < n && key(before[i]) == key(h);
      assert key(hosts[i]) == key(hosts[n]);
    } else {
      assert !Occurs(before, key, key(h));
      assert forall i | 0 <= i < n :: key(before[i]) != key(h);
    }
    assert DistinctBy(hosts, key) ==> forall i, j | 0 <= i < j < n :: key(hosts[i]) != key(hosts[j]);
    assert forall i | 0 <= i < n :: before[i] == hosts[i];
  }

  // ----- what is reported

  /** The Host at `i` is the first with the key of the one at `j`, and comes before it. */
  ghost predicate FirstWith<K>(hosts: seq<HostConfig>, key: HostConfig -> K, i: int, j: int) {
    && 0 <= i < j < |hosts| && key(hosts[i]) == key(hosts[j])
    && forall k | 0 <= k < i :: key(hosts[k]) != key(hosts[j])
  }

  lemma {:induction false} FirstSeenIs<K>(hosts: seq<HostConfig>, key: HostConfig -> K, n: nat, k: K)
    returns (i: nat)
    requires n <= |hosts| && k in FirstSeen(hosts[..n], key)
    ensures i < n && key(hosts[i]) == k && hosts[i].dir == FirstSeen(hosts[..n], key)[k]
    ensures forall e | 0 <= e < i :: key(hosts[e]) != k
  {
    assert hosts[..n][..n - 1] == hosts[..n - 1];
    if k in FirstSeen(hosts[..n - 1], key) {
      i := FirstSeenIs(hosts, key, n - 1, k);
    } else {
      FirstSeenKeys(hosts[..n - 1], key);
      assert !Occurs(hosts[..n - 1], key, k);
      forall e | 0 <= e < n - 1 ensures key(hosts[e]) != k {
        assert hosts[e] == hosts[..n - 1][e];
      }
      i := n - 1;
    }
  }

  /** The Host at `j` clashes by the key with the first Host that has it, whose directory is `first`. */
  ghost predicate Reported<K>(hosts: seq<HostConfig>, key: HostConfig -> K, first: string, dir: string) {
    exists i, j :: FirstWith(hosts, key, i, j) && hosts[i].dir == first && hosts[j].dir == dir
  }

  /** A clash among the first `n` Hosts and not among fewer. */
  lemma ReportedNext<K(!new)>(hosts: seq<HostConfig>, key: HostConfig -> K, n: nat, first: string, dir: string)
    requires n < |hosts|
    ensures Reported(hosts[..n + 1], key, first, dir)
            <==> Reported(hosts[..n], key, first, dir)
                 || (key(hosts[n]) in FirstSeen(hosts[..n], key) && first == FirstSeen(hosts[..n], key)[key(hosts[n])]
                     && dir == hosts[n].dir)
  {
    if Reported(hosts[..n], key, first, dir) {
      ReportedStays(hosts, key, n, first, dir);
    }
    if key(hosts[n]) in FirstSeen(hosts[..n], key) && first == FirstSeen(hosts[..n], key)[key(hosts[n])]
       && dir == hosts[n].dir {
      FirstIsReported(hosts, key, n);
    }
    if Reported(hosts[..n + 1], key, first, dir) {
      ReportedFrom(hosts, key, n, first, dir);
    }
  }

  lemma ReportedStays<K>(hosts: seq<HostConfig>, key: HostConfig -> K, n: nat, first: string, dir: string)
    requires n < |hosts| && Reported(hosts[..n], key, first, dir)
    ensures Reported(hosts[..n + 1], key, first, dir)
  {
    var i, j :| FirstWith(hosts[..n], key, i, j) && hosts[..n][i].dir == first && hosts[..n][j].dir == dir;
    assert FirstWith(hosts[..n + 1], key, i, j);
  }

  lemma FirstIsReported<K>(hosts: seq<HostConfig>, key: HostConfig -> K, n: nat)
    requires n < |hosts| && key(hosts[n]) in FirstSeen(hosts[..n], key)
    ensures Reported(hosts[..n + 1], key, FirstSeen(hosts[..n], key)[key(hosts[n])], hosts[n].dir)
  {
    var i := FirstSeenIs(hosts, key, n, key(hosts[n]));
    assert FirstWith(hosts[..n + 1], key, i, n);
  }

  lemma OneFirst<K>(hosts: seq<HostConfig>, key: HostConfig -> K, i: nat, e: nat, k: K)
    requires i < |hosts| && key(hosts[i]) == k && forall x | 0 <= x < i :: key(hosts[x]) != k
    requires e < |hosts| && key(hosts[e]) == k && forall x | 0 <= x < e :: key(hosts[x]) != k
    ensures i == e
  {
  }

  lemma ReportedFrom<K(!new)>(hosts: seq<HostConfig>, key: HostConfig -> K, n: nat, first: string, dir: string)
    requires n < |hosts| && Reported(hosts[..n + 1], key, first, dir)
    ensures Reported(hosts[..n], key, first, dir)
            || (key(hosts[n]) in FirstSeen(hosts[..n], key) && first == FirstSeen(hosts[..n], key)[key(hosts[n])]
                && dir == hosts[n].dir)
  {
    var i, j :| FirstWith(hosts[..n + 1], key, i, j) && hosts[..n + 1][i].dir == first && hosts[..n + 1][j].dir == dir;
    if j < n {
      assert FirstWith(hosts[..n], key, i, j);
    } else {
      FirstSeenKeys(hosts[..n], key);
      assert key(hosts[..n][i]) == key(hosts[n]);
      assert Occurs(hosts[..n], key, key(hosts[n]));
      var e := FirstSeenIs(hosts, key, n, key(hosts[n]));
      OneFirst(hosts, key, i, e, key(hosts[n]));
    }
  }

  /** Every collision is reported, and each names the two directories: the first Host's and the
      colliding one's. */
  lemma {:induction false} ClashesExact(hosts: seq<HostConfig>, n: nat, first: string, dir: string)
    requires n <= |hosts|
    ensures SameHostname(first, dir) in Clashes(hosts[..n]) <==> Reported(hosts[..n], Hostname, first, dir)
    ensures SameUser(first, dir) in Clashes(hosts[..n]) <==> Reported(hosts[..n], MachineUser, first, dir)
    ensures SamePort(first, dir) in Clashes(hosts[..n]) <==> Reported(hosts[..n], MachinePort, first, dir)
  {
    if n > 0 {
      assert hosts[..n][..n - 1] == hosts[..n - 1];
      ClashesExact(hosts, n - 1, first, dir);
      ReportedNext(hosts, Hostname, n - 1, first, dir);
      ReportedNext(hosts, MachineUser, n - 1, first, dir);
      ReportedNext(hosts, MachinePort, n - 1, first, dir);
    }
  }
}
