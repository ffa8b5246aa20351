/** Redaction of provider error text (pkg/machine/provider.go): every secret that
    bootstrap holds is replaced by a marker before the text is shown. */
module Redaction {

  const MARKER := "<redacted>"

  predicate OccursAt(s: string, t: string, i: int) {
    0 <= i && i + |t| <= |s| && s[i..i + |t|] == t
  }

  ghost predicate Contains(s: string, t: string) {
    exists i :: OccursAt(s, t, i)
  }

  /** `t` laid over the marker at offset `k` (negative when `t` starts before it) agrees with the
      marker wherever the two overlap. */
  ghost predicate Agrees(t: string, mark: string, k: int) {
    forall j :: 0 <= j < |t| && 0 <= j + k < |mark| ==> t[j] == mark[j + k]
  }

  /** Some overlap of `t` with the marker agrees: text around a marker could then spell `t`. */
  ghost predicate Touches(t: string, mark: string) {
    exists k :: -|t| < k < |mark| && Agrees(t, mark, k)
  }

  /** strings.ReplaceAll: leftmost occurrences first, not overlapping. */
  function ReplaceAll(s: string, t: string, mark: string): string
    requires t != ""
  {
    if |s| < |t| then s
    else if s[..|t|] == t then mark + ReplaceAll(s[|t|..], t, mark)
    else [s[0]] + ReplaceAll(s[1..], t, mark)
  }

  /** The redactions in the order given, empty secrets skipped. */
  function ReplaceEach(msg: string, secrets: seq<string>, mark: string): string
    decreases |secrets|
  {
    if secrets == [] then msg
    else
      ReplaceEach(if secrets[0] == "" then msg else ReplaceAll(msg, secrets[0], mark), secrets[1..], mark)
  }

  ghost predicate Hides(out: string, secrets: seq<string>) {
    forall t | t in secrets && t != "" :: !Contains(out, t)
  }

  // ----- where an occurrence in the output comes from

  lemma OccursInSuffix(s: string, n: nat, t: string, i: int)
    requires n <= |s|
    ensures OccursAt(s[n..], t, i) <==> i >= 0 && OccursAt(s, t, n + i)
  {
    if 0 <= i && n + i + |t| <= |s| {
      assert s[n..][i..i + |t|] == s[n + i..n + i + |t|];
    }
  }

  /** An occurrence that reaches into a marker standing at `at` shows that `t` touches it. */
  lemma OverlapTouches(r: string, mark: string, at: nat, t: string, i: nat)
    requires at + |mark| <= |r| && r[at..at + |mark|] == mark
    requires OccursAt(r, t, i) && i < at + |mark| && at < i + |t|
    ensures Touches(t, mark)
  {
    forall j | 0 <= j < |t| && 0 <= j + (i - at) < |mark| ensures t[j] == mark[j + (i - at)] {
      assert t[j] == r[i..i + |t|][j] == r[i + j] == r[at..at + |mark|][j + (i - at)];
    }
    assert Agrees(t, mark, i - at);
  }

  /** What stands at the front of the output, and continues a `t` begun before it, stood at the
      front of the input: reaching into a marker would make `t` touch it. */
  lemma {:induction false} FrontComesFromInput(s: string, secret: string, mark: string, t: string, k: nat)
    requires secret != "" && mark != "" && k <= |t| && !Touches(t, mark)
    requires t[k..] <= ReplaceAll(s, secret, mark)
    ensures t[k..] <= s
    decreases |s|
  {
    var r := ReplaceAll(s, secret, mark);
    if k < |t| && |s| >= |secret| {
      if s[..|secret|] == secret {
        var whole := t[..k] + r;
        assert whole[0..|t|] == t && whole[k..k + |mark|] == mark;
        OverlapTouches(whole, mark, k, t, 0);
        assert false;
      } else {
        assert t[k..][0] == r[0] == s[0];
        assert t[k + 1..] == t[k..][1..] <= r[1..] == ReplaceAll(s[1..], secret, mark);
        FrontComesFromInput(s[1..], secret, mark, t, k + 1);
        assert t[k..] == [s[0]] + t[k + 1..] <= [s[0]] + s[1..] == s;
      }
    }
  }

  /** A `t` that does not touch the marker occurs in the output only where the input had it, and
      never when it is the string just replaced. */
  lemma {:induction false} OccurrenceComesFromInput(s: string, secret: string, mark: string, t: string, i: nat)
    requires secret != "" && mark != "" && t != "" && !Touches(t, mark)
    requires OccursAt(ReplaceAll(s, secret, mark), t, i)
    ensures Contains(s, t) && t != secret
    decreases |s|
  {
    var r := ReplaceAll(s, secret, mark);
    if |s| < |secret| {
      assert OccursAt(s, t, i);
    } else if i == 0 && s[..|secret|] != secret {
      assert t[0..] == t;
      FrontComesFromInput(s, secret, mark, t, 0);
      assert OccursAt(s, t, 0);
    } else {
      var head, n := if s[..|secret|] == secret then mark else [s[0]], if s[..|secret|] == secret then |secret| else 1;
      var rest := ReplaceAll(s[n..], secret, mark);
      assert r == head + rest && r[|head|..] == rest;
      if i < |head| {
        OverlapTouches(r, mark, 0, t, i);
        assert false;
      } else {
        OccursInSuffix(r, |head|, t, i - |head|);
        OccurrenceComesFromInput(s[n..], secret, mark, t, i - |head|);
        var j :| OccursAt(s[n..], t, j);
        OccursInSuffix(s, n, t, j);
        assert OccursAt(s, t, n + j);
      }
    }
  }

  /** Once out of the message, a `t` that does not touch the marker stays out. */
  lemma {:induction false} NeverReappears(msg: string, secrets: seq<string>, mark: string, t: string)
    requires mark != "" && t != "" && !Touches(t, mark) && !Contains(msg, t)
    ensures !Contains(ReplaceEach(msg, secrets, mark), t)
    decreases |secrets|
  {
    if secrets != [] {
      var next := if secrets[0] == "" then msg else ReplaceAll(msg, secrets[0], mark);
      if secrets[0] != "" && Contains(next, t) {
        var i :| OccursAt(next, t, i);
        OccurrenceComesFromInput(msg, secrets[0], mark, t, i);
      }
      NeverReappears(next, secrets[1..], mark, t);
    }
  }

  /** A secret that does not touch the marker is hidden, whatever the other secrets and the order. */
  lemma {:induction false} UntouchedIsHidden(msg: string, secrets: seq<string>, mark: string, t: string)
    requires mark != "" && t in secrets && t != "" && !Touches(t, mark)
    ensures !Contains(ReplaceEach(msg, secrets, mark), t)
    decreases |secrets|
  {
    var next := if secrets[0] == "" then msg else ReplaceAll(msg, secrets[0], mark);
    if secrets[0] != t {
      assert secrets == [secrets[0]] + secrets[1..];
      UntouchedIsHidden(next, secrets[1..], mark, t);
    } else {
      if Contains(next, t) {
        var i :| OccursAt(next, t, i);
        OccurrenceComesFromInput(msg, t, mark, t, i);
      }
      NeverReappears(next, secrets[1..], mark, t);
    }
  }

  // ----- redact

  predicate LongestFirst(s: seq<string>) {
    forall i, j | 0 <= i < j < |s| :: |s[i]| >= |s[j]|
  }

  /** slices.SortFunc by descending length. */
  function InsertByLength(x: string, s: seq<string>): seq<string> {
    if s == [] || |x| >= |s[0]| then [x] + s else [s[0]] + InsertByLength(x, s[1..])
  }

  function SortLongestFirst(s: seq<string>): seq<string> {
    if s == [] then [] else InsertByLength(s[0], SortLongestFirst(s[1..]))
  }

  lemma {:induction false} InsertMembers(x: string, s: seq<string>)
    ensures multiset(InsertByLength(x, s)) == multiset(s) + multiset{x}
    ensures forall y :: y in InsertByLength(x, s) <==> y == x || y in s
  {
    if s != [] && |x| < |s[0]| {
      InsertMembers(x, s[1..]);
      assert s == [s[0]] + s[1..];
    }
  }

  lemma {:induction false} InsertKeepsOrder(x: string, s: seq<string>)
    requires LongestFirst(s)
    ensures LongestFirst(InsertByLength(x, s))
  {
    if s != [] && |x| < |s[0]| {
      var rest := InsertByLength(x, s[1..]);
      InsertKeepsOrder(x, s[1..]);
      InsertMembers(x, s[1..]);
      forall i | 0 <= i < |rest| ensures |s[0]| >= |rest[i]| {
        assert rest[i] in rest && (rest[i] in s[1..] ==> rest[i] in s);
        NoLonger(s, rest[i]);
      }
    } else if s != [] {
      assert forall i | 0 <= i < |s| :: |s[0]| >= |s[i]|;
    }
  }

  lemma NoLonger(s: seq<string>, y: string)
    requires LongestFirst(s)
    ensures y in s ==> |s[0]| >= |y|
  {
    if i :| 0 <= i < |s| && s[i] == y {
      assert i > 0 ==> |s[0]| >= |s[i]|;
    }
  }

  /** The order the secrets are replaced in: a permutation, longest first. */
  lemma {:induction false} SortIsLongestFirst(s: seq<string>)
    ensures LongestFirst(SortLongestFirst(s)) && multiset(SortLongestFirst(s)) == multiset(s)
    ensures forall y :: y in SortLongestFirst(s) <==> y in s
  {
    if s != [] {
      assert s == [s[0]] + s[1..];
      SortIsLongestFirst(s[1..]);
      InsertKeepsOrder(s[0], SortLongestFirst(s[1..]));
      InsertMembers(s[0], SortLongestFirst(s[1..]));
    }
  }

  predicate IsSpace(c: char) { c in " \t\n\r" || c == 11 as char || c == 12 as char }

  /** strings.TrimSpace over ASCII. */
  function TrimSpace(s: string): string {
    if s != "" && IsSpace(s[0]) then TrimSpace(s[1..])
    else if s != "" && IsSpace(s[|s| - 1]) then TrimSpace(s[..|s| - 1])
    else s
  }

  /** The secrets one call redacts: the provider's values and the token, as read and trimmed. */
  function SecretsOf(token: string, values: seq<string>): seq<string> {
    values + [token, TrimSpace(token)]
  }

  /** What redact shows of the message. */
  function Redacted(msg: string, token: string, values: seq<string>): string {
    ReplaceEach(msg, SortLongestFirst(SecretsOf(token, values)), MARKER)
  }

  /** redact: no secret that keeps clear of the marker is left in the output, whatever the others. */
  method Redact(msg: string, token: string, values: seq<string>) returns (out: string)
    ensures out == Redacted(msg, token, values)
    ensures forall t | t in SecretsOf(token, values) && t != "" && !Touches(t, MARKER) :: !Contains(out, t)
  {
    var secrets := SortLongestFirst(SecretsOf(token, values));
    out := msg;
    var i := 0;
    while i < |secrets|
      invariant 0 <= i <= |secrets|
      invariant ReplaceEach(out, secrets[i..], MARKER) == ReplaceEach(msg, secrets, MARKER)
    {
      assert secrets[i..][1..] == secrets[i + 1..];
      if secrets[i] != "" {
        out := ReplaceAll(out, secrets[i], MARKER);
      }
      i := i + 1;
    }
    forall t | t in SecretsOf(token, values) && t != "" && !Touches(t, MARKER) ensures !Contains(out, t) {
      RedactedHides(msg, token, values, t);
    }
  }

  lemma RedactedHides(msg: string, token: string, values: seq<string>, t: string)
    requires t in SecretsOf(token, values) && t != "" && !Touches(t, MARKER)
    ensures !Contains(Redacted(msg, token, values), t)
  {
    SortIsLongestFirst(SecretsOf(token, values));
    UntouchedIsHidden(msg, SortLongestFirst(SecretsOf(token, values)), MARKER, t);
  }

  // ----- a secret is replaced whole

  /** A secret that does not touch the marker matches nowhere from inside a marker. */
  lemma {:induction false} MarkerIsCopied(s: string, mark: string, k: nat, rest: string)
    requires s != "" && !Touches(s, mark) && k <= |mark|
    ensures ReplaceAll(mark[k..] + rest, s, mark) == mark[k..] + ReplaceAll(rest, s, mark)
    decreases |mark| - k
  {
    var whole := mark[k..] + rest;
    if k == |mark| {
      assert whole == rest;
    } else {
      assert whole[1..] == mark[k + 1..] + rest && whole[0] == mark[k];
      MarkerIsCopied(s, mark, k + 1, rest);
      NoMatchInMarker(s, mark, k, rest);
      assert mark[k..] == [mark[k]] + mark[k + 1..];
      if |whole| < |s| {
        assert ReplaceAll(rest, s, mark) == rest;
      }
    }
  }

  lemma NoMatchInMarker(s: string, mark: string, k: nat, rest: string)
    requires s != "" && !Touches(s, mark) && k < |mark|
    ensures !(s <= mark[k..] + rest)
  {
    if s <= mark[k..] + rest {
      forall j | 0 <= j < |s| && 0 <= j + k < |mark| ensures s[j] == mark[j + k] {
        assert (mark[k..] + rest)[j] == mark[k..][j];
      }
      assert Agrees(s, mark, k);
    }
  }

  /** Nor does it match across the front of a marker. */
  lemma NoMatchAcross(s: string, x: string, mark: string, y: string)
    requires s != "" && mark != "" && !Touches(s, mark) && s <= x + mark + y
    ensures |s| <= |x|
  {
    if |x| < |s| {
      forall j | 0 <= j < |s| && 0 <= j - |x| < |mark| ensures s[j] == mark[j - |x|] {
        assert s[j] == (x + mark + y)[j];
      }
      assert Agrees(s, mark, -|x|);
    }
  }

  lemma MatchHere(x: string, s: string, mark: string)
    requires s != "" && s <= x
    ensures ReplaceAll(x, s, mark) == mark + ReplaceAll(x[|s|..], s, mark)
  {
    assert x[..|s|] == s;
  }

  lemma JoinParts(p: string, a: string, m: string, b: string)
    ensures p + (a + m + b) == p + a + m + b
  {
  }

  lemma FrontOf(n: nat, x: string, mark: string, y: string)
    requires n <= |x|
    ensures (x + mark + y)[n..] == x[n..] + mark + y
  {
  }

  /** What stands on either side of a marker is redacted by itself. */
  lemma {:induction false} MarkerParts(x: string, y: string, s: string, mark: string)
    requires s != "" && mark != "" && !Touches(s, mark)
    ensures ReplaceAll(x + mark + y, s, mark) == ReplaceAll(x, s, mark) + mark + ReplaceAll(y, s, mark)
    decreases |x|
  {
    var whole, last := x + mark + y, ReplaceAll(y, s, mark);
    if x == "" {
      assert whole == mark[0..] + y;
      MarkerIsCopied(s, mark, 0, y);
    } else {
      var matches := s <= whole;
      if matches {
        NoMatchAcross(s, x, mark, y);
        assert s <= x by { assert whole[..|s|] == x[..|s|]; }
        MatchHere(whole, s, mark);
        MatchHere(x, s, mark);
      } else {
        NoMatchHere(x, s, mark, whole);
        NoMatchHere(whole, s, mark, whole);
      }
      var n, head := if matches then |s| else 1, if matches then mark else [x[0]];
      FrontOf(n, x, mark, y);
      MarkerParts(x[n..], y, s, mark);
      JoinParts(head, ReplaceAll(x[n..], s, mark), mark, last);
    }
  }

  /** Where the string does not begin with `s`, its first character is copied. */
  lemma NoMatchHere(x: string, s: string, mark: string, whole: string)
    requires s != "" && x != "" && x <= whole && !(s <= whole)
    ensures ReplaceAll(x, s, mark) == [x[0]] + ReplaceAll(x[1..], s, mark)
  {
    assert x == [x[0]] + x[1..];
    if |x| >= |s| {
      assert whole[..|s|] == x[..|s|];
    }
  }

  lemma {:induction false} MarkerPartsEach(x: string, y: string, secrets: seq<string>, mark: string)
    requires mark != "" && forall s | s in secrets && s != "" :: !Touches(s, mark)
    ensures ReplaceEach(x + mark + y, secrets, mark) == ReplaceEach(x, secrets, mark) + mark + ReplaceEach(y,
            secrets, mark)
    decreases |secrets|
  {
    if secrets != [] {
      var s, rest := secrets[0], secrets[1..];
      assert s in secrets && forall t | t in rest :: t in secrets;
      if s != "" {
        MarkerParts(x, y, s, mark);
        MarkerPartsEach(ReplaceAll(x, s, mark), ReplaceAll(y, s, mark), rest, mark);
      } else {
        MarkerPartsEach(x, y, rest, mark);
      }
    }
  }

  /** The first occurrence of a secret becomes a marker. */
  lemma {:induction false} FirstReplaced(a: string, t: string, b: string, mark: string)
    requires t != "" && forall i | 0 <= i < |a| :: !OccursAt(a + t + b, t, i)
    ensures ReplaceAll(a + t + b, t, mark) == a + mark + ReplaceAll(b, t, mark)
    decreases |a|
  {
    var whole := a + t + b;
    if a == "" {
      assert whole[..|t|] == t && whole[|t|..] == b;
    } else {
      var rest := a[1..] + t + b;
      assert whole[1..] == rest && whole[0] == a[0] && !OccursAt(whole, t, 0);
      forall i | 0 <= i < |a[1..]| ensures !OccursAt(rest, t, i) {
        OccursInSuffix(whole, 1, t, i);
      }
      FirstReplaced(a[1..], t, b, mark);
      assert [a[0]] + (a[1..] + mark + ReplaceAll(b, t, mark)) == a + mark + ReplaceAll(b, t, mark);
    }
  }

  /** No secret of these occurs in the message. */
  ghost predicate NoneOccurs(
    secrets: seq<string>, msg: string) { forall s | s in secrets && s != "" :: !Contains(msg, s) }

  lemma {:induction false} NothingToReplaceEach(msg: string, first: seq<string>, rest: seq<string>, mark: string)
    requires NoneOccurs(first, msg)
    ensures ReplaceEach(msg, first + rest, mark) == ReplaceEach(msg, rest, mark)
  {
    if first == [] {
      assert first + rest == rest;
    } else {
      assert (first + rest)[0] == first[0] && (first + rest)[1..] == first[1..] + rest;
      assert first[0] in first && forall s | s in first[1..] :: s in first;
      if first[0] != "" {
        NothingToReplace(msg, first[0], mark);
      }
      NothingToReplaceEach(msg, first[1..], rest, mark);
    }
  }

  lemma PartContains(a: string, m: string, b: string, s: string)
    ensures Contains(m, s) ==> Contains(a + m + b, s)
  {
    if i :| OccursAt(m, s, i) {
      assert (a + m + b)[|a| + i..|a| + i + |s|] == m[i..i + |s|];
      assert OccursAt(a + m + b, s, |a| + i);
    }
  }

  lemma PartsClear(a: string, t: string, b: string, secrets: seq<string>)
    requires NoneOccurs(secrets, a + t + b)
    ensures NoneOccurs(secrets, a) && NoneOccurs(secrets, b)
  {
    assert "" + a + (t + b) == a + t + b && a + t + b + "" == a + t + b;
    forall s | s in secrets && s != "" ensures !Contains(a, s) && !Contains(b, s) {
      PartContains("", a, t + b, s);
      PartContains(a + t, b, "", s);
    }
  }

  lemma {:induction false} FirstOfOthers(sorted: seq<string>, t: string) returns (k: nat)
    requires LongestFirst(sorted) && t in sorted
    ensures k < |sorted| && sorted[k] == t
    ensures forall s | s in sorted[..k] :: s != t && |s| >= |t|
  {
    if sorted[0] == t {
      return 0;
    }
    var n := FirstOfOthers(sorted[1..], t);
    k := n + 1;
    assert sorted[..k] == [sorted[0]] + sorted[1..][..n] && |sorted[0]| >= |sorted[k]|;
  }

  /** Why the secrets are replaced longest first: the first occurrence of a secret becomes one marker
      whole, whatever shorter secrets it holds or overlaps, and the text on either side is redacted
      by itself; unless another secret as long, or longer, occurs in the message. */
  lemma SecretReplacedWhole(a: string, t: string, b: string, token: string, values: seq<string>)
    requires t in SecretsOf(token, values) && t != ""
    requires forall s | s in SecretsOf(token, values) && s != "" :: !Touches(s, MARKER)
    requires forall s | s in SecretsOf(token, values) && s != t && |s| >= |t| :: !Contains(a + t + b, s)
    requires forall i | 0 <= i < |a| :: !OccursAt(a + t + b, t, i)
    ensures Redacted(a + t + b, token, values) == Redacted(a, token, values) + MARKER + Redacted(b, token, values)
  {
    var sorted := SortLongestFirst(SecretsOf(token, values));
    SortIsLongestFirst(SecretsOf(token, values));
    assert forall s :: s in sorted <==> s in SecretsOf(token, values);
    WholeInOrder(a, t, b, sorted);
  }

  lemma WholeInOrder(a: string, t: string, b: string, sorted: seq<string>)
    requires LongestFirst(sorted) && t in sorted && t != ""
    requires forall s | s in sorted && s != "" :: !Touches(s, MARKER)
    requires forall s | s in sorted && s != t && |s| >= |t| :: !Contains(a + t + b, s)
    requires forall i | 0 <= i < |a| :: !OccursAt(a + t + b, t, i)
    ensures ReplaceEach(a + t + b, sorted, MARKER) == ReplaceEach(a, sorted, MARKER) + MARKER + ReplaceEach(b,
            sorted, MARKER)
  {
    var k := FirstOfOthers(sorted, t);
    var longer, rest := sorted[..k], sorted[k + 1..];
    assert sorted == longer + ([t] + rest);
    assert forall s | s in longer || s in rest :: s in sorted;
    PartsClear(a, t, b, longer);
    NothingToReplaceEach(a + t + b, longer, [t] + rest, MARKER);
    NothingToReplaceEach(a, longer, [t] + rest, MARKER);
    NothingToReplaceEach(b, longer, [t] + rest, MARKER);
    WholeFrom(a, t, b, rest);
  }

  lemma OccursInFront(a: string, rest: string, t: string, i: int)
    requires t != ""
    ensures OccursAt(a, t, i) ==> i < |a| && OccursAt(a + rest, t, i)
  {
    if OccursAt(a, t, i) {
      assert (a + rest)[i..i + |t|] == a[i..i + |t|];
    }
  }

  lemma WholeFrom(a: string, t: string, b: string, rest: seq<string>)
    requires t != "" && forall s | s in rest && s != "" :: !Touches(s, MARKER)
    requires forall i | 0 <= i < |a| :: !OccursAt(a + t + b, t, i)
    ensures ReplaceEach(a + t + b, [t] + rest, MARKER)
            == ReplaceEach(a, [t] + rest, MARKER) + MARKER + ReplaceEach(b, [t] + rest, MARKER)
  {
    assert ([t] + rest)[1..] == rest;
    FirstReplaced(a, t, b, MARKER);
    forall i ensures !OccursAt(a, t, i) {
      OccursInFront(a, t + b, t, i);
      assert a + (t + b) == a + t + b;
    }
    NothingToReplace(a, t, MARKER);
    MarkerPartsEach(a, ReplaceAll(b, t, MARKER), rest, MARKER);
  }

  // ----- which secrets keep clear of the marker, and what happens to those that do not

  /** An overlap with the marker takes in a bracket, or lies in the word between them. */
  lemma OverlapOfMarker(t: string, k: int)
    requires -|t| < k < |MARKER| && Agrees(t, MARKER, k)
    ensures '<' in t || '>' in t || Contains("redacted", t)
  {
    if k <= 0 {
      assert t[-k] == MARKER[-k + k] == '<';
    } else if k + |t| >= |MARKER| {
      var j := |MARKER| - 1 - k;
      assert t[j] == MARKER[j + k] == '>';
    } else {
      var word := "redacted";
      forall j | 0 <= j < |t| ensures t[j] == word[k - 1..k - 1 + |t|][j] {
        assert t[j] == MARKER[j + k] == word[j + k - 1];
      }
      assert OccursAt(word, t, k - 1);
    }
  }

  /** A secret without angle brackets that is no part of the word between them keeps clear of the
      marker. */
  lemma PlainSecretNeverTouches(t: string)
    requires '<' !in t && '>' !in t && !Contains("redacted", t)
    ensures !Touches(t, MARKER)
  {
    if Touches(t, MARKER) {
      var k :| -|t| < k < |MARKER| && Agrees(t, MARKER, k);
      OverlapOfMarker(t, k);
      assert false;
    }
  }

  lemma {:induction false} NothingToReplace(s: string, t: string, mark: string)
    requires t != "" && !Contains(s, t)
    ensures ReplaceAll(s, t, mark) == s
    decreases |s|
  {
    if |s| >= |t| {
      assert !OccursAt(s, t, 0);
      forall i ensures !OccursAt(s[1..], t, i) {
        OccursInSuffix(s, 1, t, i);
      }
      NothingToReplace(s[1..], t, mark);
    }
  }

  lemma {:induction false} ReplacementLeavesMarker(s: string, t: string, mark: string, i: int)
    requires t != "" && OccursAt(s, t, i)
    ensures Contains(ReplaceAll(s, t, mark), mark)
    decreases |s|
  {
    var r := ReplaceAll(s, t, mark);
    if s[..|t|] == t {
      assert OccursAt(r, mark, 0);
    } else {
      assert i != 0;
      OccursInSuffix(s, 1, t, i - 1);
      ReplacementLeavesMarker(s[1..], t, mark, i - 1);
      var j :| OccursAt(ReplaceAll(s[1..], t, mark), mark, j);
      assert r[1..] == ReplaceAll(s[1..], t, mark);
      OccursInSuffix(r, 1, mark, j);
      assert OccursAt(r, mark, 1 + j);
    }
  }

  /** A message is shown as it is when it holds no secret, and otherwise with a marker in it that
      no later replacement removes. */
  lemma {:induction false} MarkerShowsReplacement(msg: string, secrets: seq<string>, mark: string)
    ensures Hides(msg, secrets) ==> ReplaceEach(msg, secrets, mark) == msg
    ensures !Hides(msg, secrets) || Contains(msg, mark) ==> Contains(ReplaceEach(msg, secrets, mark), mark)
    decreases |secrets|
  {
    if secrets != [] {
      var t, rest := secrets[0], secrets[1..];
      var next := if t == "" then msg else ReplaceAll(msg, t, mark);
      MarkerShowsReplacement(next, rest, mark);
      assert secrets == [t] + rest;
      if t != "" && Contains(msg, t) {
        var i :| OccursAt(msg, t, i);
        ReplacementLeavesMarker(msg, t, mark, i);
      } else if t != "" {
        NothingToReplace(msg, t, mark);
      }
    }
  }

  lemma MarkerContainsPart(out: string, t: string, mark: string)
    requires Contains(out, mark) && Contains(mark, t)
    ensures Contains(out, t)
  {
    var i :| OccursAt(out, mark, i);
    var j :| OccursAt(mark, t, j);
    forall x | 0 <= x < |t| ensures out[i + j..i + j + |t|][x] == t[x] {
      assert t[x] == mark[j..j + |t|][x] == mark[j + x] == out[i..i + |mark|][j + x];
    }
    assert OccursAt(out, t, i + j);
  }

  /** The exact behaviour on a secret that is part of the marker (a token "red", say): it shows in
      the output of every message that holds any secret at all, and of no other message. */
  lemma MarkerPartAlwaysShown(msg: string, secrets: seq<string>, t: string)
    requires t in secrets && t != "" && Contains(MARKER, t)
    ensures Contains(ReplaceEach(msg, secrets, MARKER), t) <==> !Hides(msg, secrets)
  {
    MarkerShowsReplacement(msg, secrets, MARKER);
    if !Hides(msg, secrets) {
      MarkerContainsPart(ReplaceEach(msg, secrets, MARKER), t, MARKER);
    }
  }

  /** In any order of replacement each secret clear of the marker is hidden, a message without any
      secret is shown as it is, and one with a secret clear of the marker is not. */
  lemma RedactionComplete(msg: string, secrets: seq<string>, mark: string)
    requires mark != ""
    ensures var out := ReplaceEach(msg, secrets, mark);
            && (forall t | t in secrets && t != "" && !Touches(t, mark) :: !Contains(out, t))
            && (Hides(msg, secrets) ==> out == msg)
            && ((exists t | t in secrets && t != "" && !Touches(t, mark) :: Contains(msg, t)) ==> out != msg)
  {
    MarkerShowsReplacement(msg, secrets, mark);
    forall t | t in secrets && t != "" && !Touches(t, mark) ensures !Contains(ReplaceEach(msg, secrets, mark), t) {
      UntouchedIsHidden(msg, secrets, mark, t);
    }
  }

  // ----- the exact condition

  /** The text of `t` before and after a marker standing at `k` from its start. */
  function BeforeMarker(t: string, k: int): string
    requires -|t| < k
  {
    if k < 0 then t[..-k] else ""
  }

  function AfterMarker(t: string, k: int, mark: string): string
    requires k < |mark|
  {
    if |mark| < k + |t| then t[|mark| - k..] else ""
  }

  lemma {:induction false} ReplaceLetter(a: string, c: char, b: string, mark: string)
    requires c !in a && c !in b
    ensures ReplaceAll(a + [c] + b, [c], mark) == a + mark + b
    decreases |a|
  {
    var s := a + [c] + b;
    if a == "" {
      LetterAbsent(b, c);
      NothingToReplace(b, [c], mark);
      assert s[..1] == [c] && s[1..] == b;
    } else {
      assert s[0] == a[0] && s[..1] == [a[0]] && s[1..] == a[1..] + [c] + b;
      ReplaceLetter(a[1..], c, b, mark);
      assert [a[0]] + (a[1..] + mark + b) == a + mark + b;
    }
  }

  lemma LetterAbsent(s: string, c: char)
    requires c !in s
    ensures !Contains(s, [c])
  {
    if i :| OccursAt(s, [c], i) {
      assert s[i..i + 1][0] == s[i];
    }
  }

  /** The text around a letter outside `t` is too short on either side to hold `t`. */
  lemma TooShortAround(t: string, c: char, k: int, mark: string)
    requires t != "" && c !in t && -|t| < k < |mark|
    ensures !Contains(BeforeMarker(t, k) + [c] + AfterMarker(t, k, mark), t)
  {
    var a, b := BeforeMarker(t, k), AfterMarker(t, k, mark);
    var msg := a + [c] + b;
    assert |a| < |t| && |b| < |t|;
    forall i ensures !OccursAt(msg, t, i) {
      if 0 <= i <= |a| < i + |t| <= |msg| {
        assert msg[i..i + |t|][|a| - i] == msg[|a|] == c;
      }
    }
  }

  /** Around the marker the same text spells `t`. */
  lemma SpeltAround(t: string, k: int, mark: string)
    requires t != "" && -|t| < k < |mark| && Agrees(t, mark, k)
    ensures Contains(BeforeMarker(t, k) + mark + AfterMarker(t, k, mark), t)
  {
    var out := BeforeMarker(t, k) + mark + AfterMarker(t, k, mark);
    var at := if k < 0 then 0 else k;
    assert at + |t| <= |out|;
    forall j | 0 <= j < |t| ensures out[at..at + |t|][j] == t[j] {
      assert out[at..at + |t|][j] == out[at + j];
    }
    assert OccursAt(out, t, at);
  }

  lemma TwoSecrets(t: string, c: char)
    requires t != "" && !IsSpace(c)
    ensures SortLongestFirst(SecretsOf([c], [t])) == [t, [c], [c]]
  {
    assert TrimSpace([c]) == [c];
    assert SecretsOf([c], [t]) == [t, [c], [c]];
    assert [t, [c], [c]][1..] == [[c], [c]] && [[c], [c]][1..] == [[c]] && [[c]][1..] == [];
    assert SortLongestFirst([[c]]) == [[c]];
    assert SortLongestFirst([[c], [c]]) == [[c], [c]];
  }

  /** A value that touches the marker is shown by some message, beside a token of one letter that is
      in neither. */
  lemma TouchingIsShown(t: string, c: char)
    requires t != "" && Touches(t, MARKER) && c !in t && c !in MARKER && !IsSpace(c)
    ensures exists msg :: Contains(Redacted(msg, [c], [t]), t)
  {
    var k :| -|t| < k < |MARKER| && Agrees(t, MARKER, k);
    var a, b := BeforeMarker(t, k), AfterMarker(t, k, MARKER);
    var msg, out := a + [c] + b, a + MARKER + b;
    TwoSecrets(t, c);
    TooShortAround(t, c, k, MARKER);
    NothingToReplace(msg, t, MARKER);
    ReplaceLetter(a, c, b, MARKER);
    LetterAbsent(out, c);
    NothingToReplace(out, [c], MARKER);
    var secrets := [t, [c], [c]];
    assert secrets[1..] == [[c], [c]] && secrets[1..][1..] == [[c]] && [[c]][1..] == [];
    assert ReplaceEach(out, [[c]], MARKER) == out;
    assert ReplaceEach(msg, [[c], [c]], MARKER) == ReplaceEach(out, [[c]], MARKER);
    SpeltAround(t, k, MARKER);
    assert Redacted(msg, [c], [t]) == out;
  }

  /** No message shows the secret, whatever the other secrets. */
  ghost predicate AlwaysHidden(t: string) {
    forall msg, token, values | t in SecretsOf(token, values) :: !Contains(Redacted(msg, token, values), t)
  }

  /** Exactly the secrets clear of the marker are always hidden, of those that leave some letter `c`
      unused. */
  lemma HiddenExact(t: string, c: char)
    requires t != "" && c !in t && c !in MARKER && !IsSpace(c)
    ensures AlwaysHidden(t) <==> !Touches(t, MARKER)
  {
    if Touches(t, MARKER) {
      TouchingIsShown(t, c);
      var msg :| Contains(Redacted(msg, [c], [t]), t);
      assert t in SecretsOf([c], [t]);
    } else {
      forall msg, token, values | t in SecretsOf(token, values) ensures !Contains(Redacted(msg, token, values), t) {
        RedactedHides(msg, token, values, t);
      }
    }
  }

  /** A bracket in a secret is enough to defeat the redaction: text left of a marker and the
      marker's own bracket spell the secret again. */
  lemma BracketSecretReappears()
    ensures ReplaceEach("xx<", ["x<"], MARKER) == "x<redacted>"
    ensures Contains(ReplaceEach("xx<", ["x<"], MARKER), "x<")
    ensures Touches("x<", MARKER)
  {
    var msg := "xx<";
    assert msg[1..] == "x<" && msg[..2] == "xx" && msg[1..][..2] == "x<" && msg[1..][2..] == "";
    assert ReplaceAll("x<", "x<", MARKER) == MARKER + ReplaceAll("", "x<", MARKER);
    assert ReplaceAll(msg, "x<", MARKER) == "x" + MARKER;
    var out := "x<redacted>";
    assert OccursAt(out, "x<", 0);
    assert Agrees("x<", MARKER, -1);
  }
}
