/** Making the Fleet checkout readable by every user: the read side WorldReadableTree
    (pkg/machine/hostops_os.go) and the write side MakeWorldReadable
    (pkg/machine/hostops_os_write.go) over one file system. */
module Checkout {
  import opened Common

  /** An absolute path by its components; [] is "/". */
  type Path = seq<string>

  /** fs.FileMode: the type bits on top of the permission bits. */
  type Mode = bv32

  const MODE_DIR: Mode := 0x8000_0000
  const MODE_SYMLINK: Mode := 0x0800_0000
  const MODE_TYPE: Mode := 0x8F28_0000    // dir, symlink, device, pipe, socket, char device, irregular
  const MODE_CHMOD: Mode := 0x00D0_01FF   // permission, setuid, setgid and sticky: what chmod sets

  predicate IsDir(m: Mode) { m & MODE_DIR != 0 }
  predicate IsSymlink(m: Mode) { m & MODE_SYMLINK != 0 }
  predicate IsRegular(m: Mode) { m & MODE_TYPE == 0 }

  /** The mode after chmod o+rX. */
  function WorldReadableMode(m: Mode): Mode {
    if IsDir(m) || m & 0x49 != 0 then m | 5 else m | 4
  }

  predicate WorldReadable(m: Mode) {
    IsSymlink(m) || WorldReadableMode(m) == m
  }

  /** The mode chmod leaves an inode of mode `m` with. */
  function Chmodded(m: Mode, want: Mode): Mode {
    (m & !MODE_CHMOD) | (want & MODE_CHMOD)
  }

  // Bit facts about the two masks o+rX may add.

  lemma ChmodAddsSearch(m: Mode)
    ensures Chmodded(m, m | 5) == m | 5
  {
  }

  lemma ChmodAddsRead(m: Mode)
    ensures Chmodded(m, m | 4) == m | 4
  {
  }

  lemma OrKeepsType(m: Mode)
    ensures (m | 5) & MODE_TYPE == m & MODE_TYPE && (m | 4) & MODE_TYPE == m & MODE_TYPE
  {
  }

  lemma OrTwice(m: Mode)
    ensures (m | 5) | 5 == m | 5 && (m | 5) | 4 == m | 5 && (m | 4) | 4 == m | 4
    ensures (m | 4) & 0x49 == m & 0x49
  {
  }

  lemma OrKeepsSearch(m: Mode)
    ensures m & 1 != 0 ==> (m | 5) & 1 != 0 && (m | 4) & 1 != 0
  {
  }

  /** chmod with the wanted mode sets it whole: the type bits it cannot set are unchanged. */
  lemma ChmodSetsMode(m: Mode)
    ensures Chmodded(m, WorldReadableMode(m)) == WorldReadableMode(m)
  {
    ChmodAddsSearch(m);
    ChmodAddsRead(m);
  }

  lemma OpenedBothIsFinal(m: Mode)
    ensures WorldReadableMode(m | 5) == m | 5
  {
    OrTwice(m);
  }

  lemma OpenedReadIsFinal(m: Mode)
    requires !IsDir(m) && m & 0x49 == 0
    ensures WorldReadableMode(m | 4) == m | 4
  {
    OrTwice(m);
  }

  lemma ReadableModeIsFinal(m: Mode)
    ensures WorldReadableMode(WorldReadableMode(m)) == WorldReadableMode(m)
  {
    if IsDir(m) || m & 0x49 != 0 {
      OpenedBothIsFinal(m);
    } else {
      OpenedReadIsFinal(m);
    }
  }

  /** A second link of an inode gets the same mode again. */
  lemma ChmodTwice(m: Mode)
    ensures Chmodded(WorldReadableMode(m), WorldReadableMode(m)) == WorldReadableMode(m)
  {
    ChmodSetsMode(WorldReadableMode(m));
    ReadableModeIsFinal(m);
  }

  /** A chmod o+rX leaves nothing to add and takes no search away. */
  lemma ChmodReadable(m: Mode)
    ensures WorldReadable(WorldReadableMode(m))
    ensures m & 1 != 0 ==> WorldReadableMode(m) & 1 != 0
  {
    ReadableModeIsFinal(m);
    OrKeepsSearch(m);
  }

  /** It adds read and search for others at most, and takes nothing away. */
  lemma OnlyAddsReadAndSearch(m: Mode)
    ensures WorldReadableMode(m) == m | 4 || WorldReadableMode(m) == m | 5
    ensures IsRegular(WorldReadableMode(m)) == IsRegular(m)
  {
    OrKeepsType(m);
  }

  lemma SearchableReadable(m: Mode)
    requires !IsSymlink(m) && (IsDir(m) || m & 0x49 != 0)
    ensures WorldReadable(m) <==> m & 4 != 0 && m & 1 != 0
  {
    BothAddNothing(m);
  }

  lemma PlainReadable(m: Mode)
    requires !IsSymlink(m) && !IsDir(m) && m & 0x49 == 0
    ensures WorldReadable(m) <==> m & 4 != 0
  {
    ReadAddsNothing(m);
  }

  /** A symbolic link, or an entry with the read bit and, as a directory or an executable, the search
      bit. */
  predicate ReadableBits(m: Mode) {
    if m & 0x0800_0000 != 0 then true
    else if m & 0x8000_0000 != 0 || m & 0x49 != 0 then m & 4 != 0 && m & 1 != 0
    else m & 4 != 0
  }

  lemma LinkBits(m: Mode)
    requires IsSymlink(m)
    ensures WorldReadable(m) == ReadableBits(m)
  {
  }

  lemma SearchableBits(m: Mode)
    requires !IsSymlink(m) && (IsDir(m) || m & 0x49 != 0)
    ensures WorldReadable(m) == ReadableBits(m)
  {
    SearchableReadable(m);
  }

  lemma PlainBits(m: Mode)
    requires !IsSymlink(m) && !IsDir(m) && m & 0x49 == 0
    ensures WorldReadable(m) == ReadableBits(m)
  {
    PlainReadable(m);
  }

  lemma WorldReadableExact(m: Mode)
    ensures WorldReadable(m) == ReadableBits(m)
  {
    if IsSymlink(m) {
      LinkBits(m);
    } else if IsDir(m) || m & 0x49 != 0 {
      SearchableBits(m);
    } else {
      PlainBits(m);
    }
  }

  lemma BothAddNothing(m: Mode)
    ensures m | 5 == m <==> m & 4 != 0 && m & 1 != 0
  {
  }

  lemma ReadAddsNothing(m: Mode)
    ensures m | 4 == m <==> m & 4 != 0
  {
  }

  // ----- the file system

  datatype Inode = Inode(mode: Mode, links: nat)

  datatype FileSystem = FileSystem(names: map<Path, nat>, inodes: map<nat, Inode>) {
    ghost predicate Valid() {
      forall q | q in names :: names[q] in inodes
    }

    function ModeOf(q: Path): Mode
      requires q in names && names[q] in inodes
    {
      inodes[names[q]].mode
    }

    predicate Searchable(dir: Path)
      requires dir in names ==> names[dir] in inodes
    {
      dir in names && ModeOf(dir) & 1 != 0
    }

    function NamesOf(i: nat): set<Path> {
      set q | q in names && names[q] == i
    }

    /** Link counts are exact for everything but directories, which have one name only. */
    ghost predicate LinksCounted() {
      && Valid()
      && (forall q | q in names && !IsDir(ModeOf(q)) :: inodes[names[q]].links == |NamesOf(names[q])|)
      && (forall q, r | q in names && r in names && names[q] == names[r] && IsDir(ModeOf(q)) :: q == r)
    }
  }

  /** The k-th directory above `p`, from "/" down; "/" is its own parent. */
  ghost predicate AncestorsSearchable(fs: FileSystem, p: Path)
    requires fs.Valid()
  {
    fs.Searchable([]) && forall k | 0 <= k < |p| :: fs.Searchable(p[..k])
  }

  ghost predicate InTree(fs: FileSystem, p: Path, q: Path) {
    q in fs.names && p <= q
  }

  /** What WalkDir visits: every entry at or below `p`, once. */
  ghost predicate Walks(fs: FileSystem, p: Path, walk: seq<Path>) {
    && (forall q :: q in walk <==> InTree(fs, p, q))
    && (forall i, j | 0 <= i < j < |walk| :: walk[i] != walk[j])
  }

  /** The HostOps contract of WorldReadableTree. */
  ghost predicate TreeReadable(fs: FileSystem, p: Path)
    requires fs.Valid()
  {
    && p in fs.names && AncestorsSearchable(fs, p)
    && forall q | InTree(fs, p, q) :: WorldReadable(fs.ModeOf(q))
  }

  /** The tree is there, every directory above it can be searched by others, and every entry in it read. */
  lemma TreeReadableExact(fs: FileSystem, p: Path)
    requires fs.Valid()
    ensures TreeReadable(fs, p)
            <==> && p in fs.names
                 && (forall k | 0 <= k <= |p| :: k == |p| > 0 || (p[..k] in fs.names && fs.ModeOf(p[..k]) & 1 != 0))
                 && forall q | q in fs.names && p <= q ::
                      ReadableBits(fs.ModeOf(q))
  {
    forall q | q in fs.names {
      WorldReadableExact(fs.ModeOf(q));
    }
    assert p == [] ==> p[..0] == [];
    assert p != [] ==> p[..0] == [];
    assert forall q | q in fs.names && p <= q :: InTree(fs, p, q);
  }

  /** The entry needs a chmod. */
  predicate NeedsChmod(fs: FileSystem, q: Path)
    requires q in fs.names && fs.names[q] in fs.inodes
  {
    !WorldReadable(fs.ModeOf(q))
  }

  /** The entry is a regular file whose chmod would reach another link. */
  predicate LinkedFile(fs: FileSystem, q: Path)
    requires q in fs.names && fs.names[q] in fs.inodes
  {
    NeedsChmod(fs, q) && IsRegular(fs.ModeOf(q)) && fs.inodes[fs.names[q]].links > 1
  }

  datatype ModeChange = ModeChange(name: Path, mode: Mode)

  /** Each change is the o+rX of an entry of the walk that needs one and is no linked file. */
  ghost predicate ChangesFor(fs: FileSystem, walk: seq<Path>, changes: seq<ModeChange>)
    requires fs.Valid() && forall q | q in walk :: q in fs.names
  {
    forall c | c in changes ::
      c.name in walk && NeedsChmod(fs, c.name) && !LinkedFile(fs, c.name)
      && c.mode == WorldReadableMode(fs.ModeOf(c.name))
  }

  /** `fs` after the chmod o+rX of the given inodes. */
  ghost function Opened(fs: FileSystem, chmodded: set<nat>): FileSystem {
    fs.(inodes := map i | i in fs.inodes ::
          if i in chmodded then fs.inodes[i].(mode := WorldReadableMode(fs.inodes[i].mode)) else fs.inodes[i])
  }

  /** The inode is the one of an entry of the tree that needs a chmod and is no linked file. */
  ghost predicate Chmoddable(fs: FileSystem, p: Path, i: nat)
    requires fs.Valid()
  {
    exists q :: InTree(fs, p, q) && fs.names[q] == i && NeedsChmod(fs, q) && !LinkedFile(fs, q)
  }

  ghost predicate HoldsLinkedFile(fs: FileSystem, p: Path)
    requires fs.Valid()
  {
    exists q :: InTree(fs, p, q) && LinkedFile(fs, q)
  }

  ghost function NeedingInodes(fs: FileSystem, p: Path): set<nat>
    requires fs.Valid()
  {
    set q | q in fs.names && p <= q && NeedsChmod(fs, q) :: fs.names[q]
  }

  class OSHostOps {
    var fs: FileSystem

    constructor (fs: FileSystem)
      ensures this.fs == fs
    {
      this.fs := fs;
    }

    /** The first directory above `p`, from `p` upwards, that is missing or denies search to
        others. */
    method UnsearchableAncestor(p: Path) returns (blocked: Option<Path>)
      requires fs.Valid()
      ensures blocked.None? <==> AncestorsSearchable(fs, p)
      ensures blocked.Some? ==>
        blocked.value <= p && !fs.Searchable(blocked.value)
        && forall k | |blocked.value| < k < |p| :: fs.Searchable(p[..k])
    {
      var k := if |p| == 0 then 0 else |p| - 1;
      while true
        invariant 0 <= k <= |p| && (p != [] ==> k < |p|)
        invariant forall j | k < j < |p| :: fs.Searchable(p[..j])
        decreases k
      {
        if !fs.Searchable(p[..k]) {
          return Some(p[..k]);
        }
        if k == 0 {
          return None;
        }
        k := k - 1;
      }
    }

    method WorldReadableTree(p: Path, walk: seq<Path>) returns (readable: bool)
      requires fs.Valid() && Walks(fs, p, walk)
      ensures readable <==> TreeReadable(fs, p)
    {
      var blocked := UnsearchableAncestor(p);
      if blocked.Some? || p !in fs.names {
        return false;
      }
      assert forall j | 0 <= j < |walk| :: walk[j] in walk;
      for i := 0 to |walk|
        invariant forall j | 0 <= j < |walk| :: InTree(fs, p, walk[j])
        invariant forall j | 0 <= j < i :: WorldReadable(fs.ModeOf(walk[j]))
      {
        if !WorldReadable(fs.ModeOf(walk[i])) {
          return false;
        }
      }
      return true;
    }

    method WorldReadableChanges(walk: seq<Path>) returns (changes: seq<ModeChange>, linked: seq<Path>)
      requires fs.Valid() && forall q | q in walk :: q in fs.names
      ensures ChangesFor(fs, walk, changes)
      ensures forall q | q in walk && NeedsChmod(fs, q) :: LinkedFile(fs, q) || exists c :: c in changes && c.name == q
      ensures forall q :: q in linked <==> q in walk && LinkedFile(fs, q)
    {
      changes, linked := [], [];
      for i := 0 to |walk|
        invariant ChangesFor(fs, walk, changes)
        invariant forall j | 0 <= j < i && NeedsChmod(fs, walk[j]) ::
          LinkedFile(fs, walk[j]) || exists c :: c in changes && c.name == walk[j]
        invariant forall q :: q in linked <==> q in walk[..i] && LinkedFile(fs, q)
      {
        var name, mode := walk[i], fs.ModeOf(walk[i]);
        var want := WorldReadableMode(mode);
        if IsSymlink(mode) || want == mode {
        } else if IsRegular(mode) && fs.inodes[fs.names[name]].links > 1 {
          linked := linked + [name];
        } else {
          changes := changes + [ModeChange(name, want)];
          assert changes[|changes| - 1] in changes;
        }
        assert walk[..i + 1] == walk[..i] + [name];
      }
      assert walk[..|walk|] == walk;
    }

    /** One chmod of MakeWorldReadable, among those of `before` still to come. */
    method Chmod(c: ModeChange, ghost before: FileSystem, ghost chmodded: set<nat>)
      requires before.Valid() && c.name in before.names
      requires c.mode == WorldReadableMode(before.ModeOf(c.name))
      requires fs == Opened(before, chmodded)
      modifies this
      ensures fs == Opened(before, chmodded + {before.names[c.name]})
    {
      var i := fs.names[c.name];
      ChmodSetsMode(before.inodes[i].mode);
      ChmodTwice(before.inodes[i].mode);
      fs := fs.(inodes := fs.inodes[i := fs.inodes[i].(mode := Chmodded(fs.inodes[i].mode, c.mode))]);
      assert fs.inodes == Opened(before, chmodded + {i}).inodes;
    }

    /** `denied` are the entries whose chmod the system refuses. A directory above that denies search,
        or one linked file, fails the call with nothing changed; success opens exactly the inodes
        that needed it. */
    method MakeWorldReadable(p: Path, walk: seq<Path>, denied: set<Path>) returns (ok: bool, ghost chmodded: set<nat>)
      requires fs.Valid() && Walks(fs, p, walk)
      modifies this
      ensures fs == Opened(old(fs), chmodded)
      ensures forall i | i in chmodded :: Chmoddable(old(fs), p, i)
      ensures ok ==> chmodded == NeedingInodes(old(fs), p)
      ensures !AncestorsSearchable(old(fs), p) || p !in old(fs).names || HoldsLinkedFile(old(fs), p)
              ==> !ok && chmodded == {}
      ensures ok ==> TreeReadable(fs, p)
      ensures !ok && denied == {} ==> chmodded == {}
    {
      chmodded := {};
      assert fs.inodes == Opened(fs, {}).inodes;
      var blocked := UnsearchableAncestor(p);
      if blocked.Some? || p !in fs.names || !IsDir(fs.ModeOf(p)) {
        return false, {};
      }
      var changes, linked := WorldReadableChanges(walk);
      if |linked| > 0 {
        return false, {};
      }
      assert !HoldsLinkedFile(fs, p);
      ghost var before := fs;
      for k := 0 to |changes|
        invariant chmodded == set c | c in changes[..k] :: before.names[c.name]
        invariant fs == Opened(before, chmodded)
      {
        var c := changes[k];
        assert c in changes && InTree(before, p, c.name);
        if c.name in denied {
          ChangesAreNeeding(before, p, walk, changes[..k]);
          return false, chmodded;
        }
        Chmod(c, before, chmodded);
        assert changes[..k + 1] == changes[..k] + [c];
        chmodded := chmodded + {before.names[c.name]};
      }
      assert changes[..|changes|] == changes;
      ChangesAreNeeding(before, p, walk, changes);
      assert NeedingInodes(before, p) <= chmodded by {
        forall q | q in before.names && p <= q && NeedsChmod(before, q) ensures before.names[q] in chmodded {
          assert InTree(before, p, q) && !LinkedFile(before, q);
        }
      }
      OpeningSuffices(before, p);
      return true, chmodded;
    }
  }

  lemma ChangesAreNeeding(fs: FileSystem, p: Path, walk: seq<Path>, changes: seq<ModeChange>)
    requires fs.Valid() && Walks(fs, p, walk) && ChangesFor(fs, walk, changes)
    ensures forall c | c in changes :: Chmoddable(fs, p, fs.names[c.name]) && fs.names[c.name] in NeedingInodes(fs, p)
  {
    forall c | c in changes ensures Chmoddable(fs, p, fs.names[c.name]) && fs.names[c.name] in NeedingInodes(fs, p) {
      assert InTree(fs, p, c.name);
    }
  }

  /** Opening every inode of the tree that needs it makes the tree readable; the ancestors stay as
      they are, or gain search. */
  lemma OpeningSuffices(fs: FileSystem, p: Path)
    requires fs.Valid() && p in fs.names && AncestorsSearchable(fs, p)
    ensures TreeReadable(Opened(fs, NeedingInodes(fs, p)), p)
  {
    var after := Opened(fs, NeedingInodes(fs, p));
    forall d | fs.Searchable(d) ensures after.Searchable(d) {
      ChmodReadable(fs.ModeOf(d));
    }
    forall q | InTree(after, p, q) ensures WorldReadable(after.ModeOf(q)) {
      ChmodReadable(fs.ModeOf(q));
      if NeedsChmod(fs, q) {
        assert InTree(fs, p, q) && fs.names[q] in NeedingInodes(fs, p);
      }
    }
  }

  // ----- what a successful call opens beyond the tree

  /** The entries the hard-link guard does not look at although they can have several links:
      pipes, sockets and devices. */
  predicate Special(m: Mode) {
    !IsRegular(m) && !IsDir(m) && !IsSymlink(m)
  }

  ghost predicate NamedInTreeOnly(fs: FileSystem, p: Path, i: nat) {
    forall q | q in fs.NamesOf(i) :: p <= q
  }

  /** The call opens no inode that has a name outside the tree exactly when no special file needing
      the chmod has one: the guard covers regular files, and directories have one name. */
  lemma OpensTreeOnly(fs: FileSystem, p: Path)
    requires fs.LinksCounted() && !HoldsLinkedFile(fs, p)
    ensures (forall i | i in NeedingInodes(fs, p) :: NamedInTreeOnly(fs, p, i))
            <==> (forall q | InTree(fs, p, q) && NeedsChmod(fs, q) && Special(fs.ModeOf(q)) ::
                NamedInTreeOnly(fs, p, fs.names[q]))
  {
    forall q | InTree(fs, p, q) && NeedsChmod(fs, q)
      ensures fs.names[q] in NeedingInodes(fs, p)
      ensures !Special(fs.ModeOf(q)) ==> NamedInTreeOnly(fs, p, fs.names[q])
    {
      var i := fs.names[q];
      assert q in fs.NamesOf(i);
      if !Special(fs.ModeOf(q)) {
        if !IsDir(fs.ModeOf(q)) {
          assert !LinkedFile(fs, q) && |fs.NamesOf(i)| <= 1;
          assert |fs.NamesOf(i) - {q}| == |fs.NamesOf(i)| - 1;
        }
        forall r | r in fs.NamesOf(i) ensures p <= r {
          assert IsDir(fs.ModeOf(q)) || r !in fs.NamesOf(i) - {q};
          assert r == q;
        }
      }
    }
  }

  /** A pipe in the checkout with a second link outside it: the guard passes it, and its chmod opens
      the other link's file too. */
  lemma SpecialFileOpensOutside()
    returns (fs: FileSystem, p: Path, outside: Path)
    ensures fs.LinksCounted() && p in fs.names && IsDir(fs.ModeOf(p)) && AncestorsSearchable(fs, p)
    ensures !HoldsLinkedFile(fs, p)
    ensures outside in fs.names && !InTree(fs, p, outside) && fs.names[outside] in NeedingInodes(fs, p)
  {
    var pipe: Path := ["srv", "pipe"];
    p, outside := ["srv"], ["private"];
    var root: Path := [];
    var dir, fifo := Inode(0x8000_01ED, 2), Inode(0x0200_0180, 2);
    fs := FileSystem(map[root := 0, p := 1, pipe := 2, outside := 2], map[0 := dir, 1 := dir, 2 := fifo]);
    assert fs.NamesOf(2) == {pipe, outside};
    assert pipe[0] != outside[0] && p[0] != outside[0] && |p| != |pipe|;
    assert InTree(fs, p, pipe) && NeedsChmod(fs, pipe);
    assert p[..0] == root;
  }

  /** The second call finds nothing to do: the step is done. */
  lemma ReadableTreeNeedsNothing(fs: FileSystem, p: Path)
    requires fs.Valid() && TreeReadable(fs, p)
    ensures NeedingInodes(fs, p) == {} && !HoldsLinkedFile(fs, p)
  {
    forall q | q in fs.names && p <= q ensures !NeedsChmod(fs, q) {
      assert InTree(fs, p, q);
    }
  }
}
