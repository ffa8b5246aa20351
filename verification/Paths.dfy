/** Slash-separated paths as Go's path package treats them, and the components they stand for. */
module Paths {

  /** strings.Split by one character: always at least one part. */
  function Split(s: string, sep: char): (parts: seq<string>)
    ensures |parts| >= 1
  {
    if s == "" then [""]
    else
      var rest := Split(s[1..], sep);
      if s[0] == sep then [""] + rest else [[s[0]] + rest[0]] + rest[1..]
  }

  /** strings.Cut by one character: what is before it, after it, and whether it was there. */
  function Cut(s: string, sep: char): (string, string, bool) {
    if s == "" then ("", "", false)
    else if s[0] == sep then ("", s[1..], true)
    else
      var (before, after, found) := Cut(s[1..], sep);
      ([s[0]] + before, after, found)
  }

  predicate HasSuffix(s: string, suffix: string) {
    |suffix| <= |s| && s[|s| - |suffix|..] == suffix
  }

  lemma SuffixExact(s: string, suffix: string)
    ensures HasSuffix(s, suffix) <==> exists front :: s == front + suffix
  {
    if HasSuffix(s, suffix) {
      assert s == s[..|s| - |suffix|] + suffix;
    }
  }

  predicate IsAbs(p: string) { p != "" && p[0] == '/' }

  /** A path from the root by its components. */
  type Comps = seq<string>

  predicate CleanComp(c: string) { c != "" && c != "." && c != ".." && '/' !in c }

  predicate IsClean(comps: Comps) { forall c | c in comps :: CleanComp(c) }

  /** The elements of a path reduced as path.Clean reduces them, onto those kept so far. */
  function Reduce(rooted: bool, parts: seq<string>, kept: seq<string>): seq<string>
    decreases |parts|
  {
    if parts == [] then kept
    else
      var c, rest := parts[0], parts[1..];
      if c == "" || c == "." then Reduce(rooted, rest, kept)
      else if c != ".." then Reduce(rooted, rest, kept + [c])
      else if kept != [] && kept[|kept| - 1] != ".." then Reduce(rooted, rest, kept[..|kept| - 1])
      else Reduce(rooted, rest, if rooted then kept else kept + [c])
  }

  function Slashed(comps: Comps): string {
    if comps == [] then "" else "/" + comps[0] + Slashed(comps[1..])
  }

  /** The absolute path of clean components. */
  function Render(comps: Comps): string {
    if comps == [] then "/" else Slashed(comps)
  }

  function CompsOf(p: string): Comps { Reduce(true, Split(p, '/'), []) }

  /** path.Clean. */
  function Clean(p: string): string {
    if IsAbs(p) then Render(CompsOf(p))
    else
      var kept := Reduce(false, Split(p, '/'), []);
      if kept == [] then "." else Slashed(kept)[1..]
  }

  function TrimSlash(s: string): string {
    if HasSuffix(s, "/") then s[..|s| - 1] else s
  }

  /** Whether p is target or lies below it, by spelling. */
  predicate Under(p: string, target: string) {
    p == target || TrimSlash(target) + "/" <= p
  }

  // ----- spelling and components agree

  lemma {:induction false} SplitParts(s: string, sep: char)
    ensures forall c | c in Split(s, sep) :: sep !in c
  {
    if s != "" {
      SplitParts(s[1..], sep);
      var rest := Split(s[1..], sep);
      assert rest[0] in rest && forall c | c in rest[1..] :: c in rest;
    }
  }

  lemma {:induction false} ReduceIsClean(parts: seq<string>, kept: seq<string>)
    requires forall c | c in parts :: '/' !in c
    requires IsClean(kept)
    ensures IsClean(Reduce(true, parts, kept))
    decreases |parts|
  {
    if parts != [] {
      var c, rest := parts[0], parts[1..];
      assert c in parts && forall d | d in rest :: d in parts;
      ReduceIsClean(rest, kept);
      if CleanComp(c) {
        ReduceIsClean(rest, kept + [c]);
      }
      if kept != [] {
        ReduceIsClean(rest, kept[..|kept| - 1]);
      }
    }
  }

  /** The components of any path from the root are clean. */
  lemma CompsAreClean(p: string)
    ensures IsClean(CompsOf(p))
  {
    SplitParts(p, '/');
    ReduceIsClean(Split(p, '/'), []);
  }

  lemma {:induction false} SplitLast(p: string, c: string)
    requires '/' !in c
    ensures Split(p + "/" + c, '/') == Split(p, '/') + [c]
  {
    if p == "" {
      assert ("/" + c)[1..] == c;
      SplitWord(c, "");
      assert c + "" == c && p + "/" + c == "/" + c;
    } else {
      assert (p + "/" + c)[1..] == p[1..] + "/" + c;
      SplitLast(p[1..], c);
      assert (Split(p[1..], '/') + [c])[1..] == Split(p[1..], '/')[1..] + [c];
    }
  }

  lemma {:induction false} ReduceLast(parts: seq<string>, c: string, kept: seq<string>)
    ensures Reduce(true, parts + [c], kept) == Reduce(true, [c], Reduce(true, parts, kept))
    decreases |parts|
  {
    if parts == [] {
      assert parts + [c] == [c];
    } else {
      var rest := parts[1..];
      assert (parts + [c])[1..] == rest + [c];
      ReduceLast(rest, c, kept);
      ReduceLast(rest, c, kept + [parts[0]]);
      if kept != [] {
        ReduceLast(rest, c, kept[..|kept| - 1]);
      }
    }
  }

  /** What one more element does to a path from the root: "" and "." nothing, ".." takes the last
      component away, and anything else is added. */
  lemma CompsNext(p: string, c: string)
    requires '/' !in c
    ensures CompsOf("") == []
    ensures CompsOf(p + "/" + c)
            == var comps := CompsOf(p);
               if c == "" || c == "." then comps
               else if c == ".." then (if comps == [] then [] else comps[..|comps| - 1])
               else comps + [c]
  {
    SplitLast(p, c);
    ReduceLast(Split(p, '/'), c, []);
    var comps := CompsOf(p);
    CompsAreClean(p);
    assert comps != [] ==> comps[|comps| - 1] in comps && comps[|comps| - 1] != "..";
  }

  lemma {:induction false} SplitWord(c: string, s: string)
    requires '/' !in c && (s == "" || s[0] == '/')
    ensures Split(c + s, '/') == [c] + (if s == "" then [] else Split(s[1..], '/'))
  {
    if c == "" {
      assert c + s == s;
      if s != "" {
        assert Split(s, '/') == [""] + Split(s[1..], '/');
      }
    } else {
      assert (c + s)[1..] == c[1..] + s && c[0] in c && forall d | d in c[1..] :: d in c;
      SplitWord(c[1..], s);
      assert c == [c[0]] + c[1..];
    }
  }

  lemma SlashedHead(comps: Comps)
    requires comps != []
    ensures Slashed(comps)[1..] == comps[0] + Slashed(comps[1..]) && Slashed(comps)[0] == '/'
  {
    assert "/" + comps[0] + Slashed(comps[1..]) == "/" + (comps[0] + Slashed(comps[1..]));
  }

  lemma {:induction false} SplitSlashed(comps: Comps)
    requires comps != [] && IsClean(comps)
    ensures Split(Slashed(comps)[1..], '/') == comps
  {
    var rest := comps[1..];
    assert comps[0] in comps && forall c | c in rest :: c in comps;
    SlashedHead(comps);
    if rest != [] {
      SlashedHead(rest);
      SplitSlashed(rest);
    }
    SplitWord(comps[0], Slashed(rest));
    assert comps == [comps[0]] + rest;
  }

  lemma {:induction false} ReduceKeepsClean(comps: Comps, kept: Comps)
    requires IsClean(comps)
    ensures Reduce(true, comps, kept) == kept + comps
    decreases |comps|
  {
    if comps != [] {
      assert comps[0] in comps && forall c | c in comps[1..] :: c in comps;
      ReduceKeepsClean(comps[1..], kept + [comps[0]]);
      assert kept + [comps[0]] + comps[1..] == kept + comps;
    } else {
      assert kept + comps == kept;
    }
  }

  /** Reading back a rendered path gives its components, so path.Clean is idempotent. */
  lemma RenderRoundTrip(comps: Comps)
    requires IsClean(comps)
    ensures CompsOf(Render(comps)) == comps && Clean(Render(comps)) == Render(comps)
  {
    if comps == [] {
      assert Split("/", '/') == [""] + Split("", '/');
      assert Reduce(true, ["", ""], []) == Reduce(true, [""], []) == [];
    } else {
      var s := Slashed(comps);
      assert Split(s, '/') == [""] + Split(s[1..], '/');
      SplitSlashed(comps);
      assert ([""] + comps)[1..] == comps;
      ReduceKeepsClean(comps, []);
    }
  }

  lemma CommonHead(head: string, s: string, t: string)
    ensures head + s == head + t <==> s == t
    ensures head + s <= head + t <==> s <= t
  {
    assert (head + s)[|head|..] == s && (head + t)[|head|..] == t;
  }

  /** Spelled without the slash of "/", a path is the other or continues it with a slash exactly when
      its components begin with the other's. */
  lemma {:induction false} SlashedPrefix(t: Comps, p: Comps)
    requires IsClean(t) && IsClean(p)
    ensures Slashed(t) == Slashed(p) || Slashed(t) + "/" <= Slashed(p) <==> t <= p
  {
    if t != [] && p != [] {
      if t[0] == p[0] {
        SlashedPrefix(t[1..], p[1..]);
        var head := "/" + t[0];
        CommonHead(head, Slashed(t[1..]), Slashed(p[1..]));
        CommonHead(head, Slashed(t[1..]) + "/", Slashed(p[1..]));
        assert Slashed(t) + "/" == head + (Slashed(t[1..]) + "/");
        assert t == [t[0]] + t[1..] && p == [p[0]] + p[1..];
      } else {
        SlashedWord(t);
        SlashedWord(p);
        if Slashed(t) == Slashed(p) || Slashed(t) + "/" <= Slashed(p) {
          SameFirstComponent(Slashed(t), Slashed(p), t[0], p[0]);
          assert false;
        }
      }
    }
  }

  lemma SlashedWord(comps: Comps)
    requires comps != [] && IsClean(comps)
    ensures '/' !in comps[0]
    ensures var s := Slashed(comps);
            var n := 1 + |comps[0]|;
            n <= |s| && s[1..n] == comps[0] && (|s| > n ==> s[n] == '/')
  {
    assert comps[0] in comps;
    SlashedHead(comps);
    if comps[1..] != [] {
      SlashedHead(comps[1..]);
    }
  }

  lemma {:induction false} CutWord(c: string, s: string)
    requires '/' !in c && (s == "" || s[0] == '/')
    ensures Cut(c + s, '/').0 == c
  {
    if c == "" {
      assert c + s == s;
    } else {
      assert (c + s)[1..] == c[1..] + s && c[0] in c && forall d | d in c[1..] :: d in c;
      CutWord(c[1..], s);
      assert c == [c[0]] + c[1..];
    }
  }

  /** A path that ends where a component of the other ends begins with the same component. */
  lemma SameFirstComponent(st: string, sp: string, a: string, b: string)
    requires '/' !in a && '/' !in b
    requires 1 + |a| <= |st| && st[1..1 + |a|] == a && (|st| > 1 + |a| ==> st[1 + |a|] == '/')
    requires 1 + |b| <= |sp| && sp[1..1 + |b|] == b && (|sp| > 1 + |b| ==> sp[1 + |b|] == '/')
    requires st == sp || st + "/" <= sp
    ensures a == b
  {
    assert st <= sp;
    assert sp[1..1 + |a|] == st[1..1 + |a|];
    assert st != sp ==> sp[|st|] == '/';
    assert sp[1..] == a + sp[1 + |a|..];
    assert sp[1..] == b + sp[1 + |b|..];
    CutWord(a, sp[1 + |a|..]);
    CutWord(b, sp[1 + |b|..]);
  }

  /** The spelling test `Under` decides whether the target's components begin the path's. */
  lemma UnderIsPrefix(p: Comps, t: Comps)
    requires IsClean(p) && IsClean(t)
    ensures Under(Render(p), Render(t)) <==> t <= p
  {
    SlashedPrefix(t, p);
    if t == [] {
      assert TrimSlash("/") + "/" == "/";
      assert p != [] ==> Slashed(p)[0] == '/';
    } else {
      SlashedEndsInComponent(t);
      assert TrimSlash(Render(t)) == Slashed(t);
      if p == [] {
        assert |Slashed(t)| > 1;
      }
    }
  }

  lemma {:induction false} SlashedEndsInComponent(t: Comps)
    requires t != [] && IsClean(t)
    ensures var s := Slashed(t); |s| > 1 && s[|s| - 1] != '/' && s[0] == '/'
  {
    assert t[0] in t && forall c | c in t[1..] :: c in t;
    if |t| == 1 {
      assert Slashed(t[1..]) == "";
      assert t[0][|t[0]| - 1] in t[0];
    } else {
      SlashedEndsInComponent(t[1..]);
    }
  }

  /** Two targets of one length that hold the same path by spelling are one target. */
  lemma SameLengthSameTarget(p: string, s: string, t: string)
    requires Under(p, s) && Under(p, t) && |s| == |t|
    ensures s == t
  {
    assert s <= p && t <= p;
  }
}
