/** The failed-SHA gate of the Agent's tick (pkg/agent/agent.go): a commit whose reconciliation keeps
    failing is retried at once twice, then once an hour. */
module ShaGate {

  const SECOND := 1_000_000_000
  const FAILED_SHA_EXPIRY := 60 * 60 * SECOND
  const MAX_RETRIES := 3

  datatype Gate = Gate(failedSHA: string, failedCount: nat, failedAt: nat)

  /** ClearFailureGate, as at every Agent start and after every apply. */
  function Cleared(): Gate { Gate("", 0, 0) }

  predicate Closed(g: Gate, head: string, now: nat) {
    head == g.failedSHA && g.failedCount >= MAX_RETRIES && now - g.failedAt < FAILED_SHA_EXPIRY
  }

  function Failed(g: Gate, head: string, at: nat): Gate {
    Gate(head, if g.failedSHA == head then g.failedCount + 1 else 1, at)
  }

  datatype Outcome = Applied | ApplyFailed

  /** One tick that has something to reconcile: whether it is attempted, and the gate after it. */
  function TickGate(g: Gate, head: string, now: nat, outcome: Outcome, at: nat): (bool, Gate) {
    if Closed(g, head, now) then (false, g)
    else (true, if outcome.Applied? then Cleared() else Failed(g, head, at))
  }

  class State {
    var failedSHA: string
    var failedCount: nat
    var failedAt: nat

    ghost function AsGate(): Gate
      reads this
    {
      Gate(failedSHA, failedCount, failedAt)
    }

    constructor ()
      ensures AsGate() == Cleared()
    {
      failedSHA, failedCount, failedAt := "", 0, 0;
    }

    method ClearFailureGate() returns (sha: string, count: nat)
      modifies this
      ensures AsGate() == Cleared() && sha == old(failedSHA) && count == old(failedCount)
    {
      sha, count := failedSHA, failedCount;
      failedSHA, failedCount, failedAt := "", 0, 0;
    }

    method Tick(head: string, now: nat, outcome: Outcome, at: nat) returns (attempted: bool)
      modifies this
      ensures (attempted, AsGate()) == TickGate(old(AsGate()), head, now, outcome, at)
    {
      if head == failedSHA && failedCount >= MAX_RETRIES && now - failedAt < FAILED_SHA_EXPIRY {
        return false;
      }
      if outcome.Applied? {
        var _, _ := ClearFailureGate();
        return true;
      }
      if failedSHA == head {
        failedCount := failedCount + 1;
      } else {
        failedSHA, failedCount := head, 1;
      }
      failedAt := at;
      return true;
    }
  }

  // ----- one commit whose every reconciliation fails

  /** The gate is read at `check`; the failure, if the tick attempts, is recorded at `end`. */
  datatype Failure = Failure(check: nat, end: nat)

  ghost predicate Timely(ticks: seq<Failure>) {
    && (forall i | 0 <= i < |ticks| :: ticks[i].check <= ticks[i].end)
    && (forall i, j | 0 <= i < j < |ticks| :: ticks[i].end <= ticks[j].check)
  }

  /** The gate after the first `n` ticks. */
  function GateAfter(head: string, ticks: seq<Failure>, n: nat): Gate
    requires n <= |ticks|
  {
    if n == 0 then Cleared()
    else TickGate(GateAfter(head, ticks, n - 1), head, ticks[n - 1].check, ApplyFailed, ticks[n - 1].end).1
  }

  predicate Attempts(head: string, ticks: seq<Failure>, i: nat)
    requires i < |ticks|
  {
    !Closed(GateAfter(head, ticks, i), head, ticks[i].check)
  }

  /** How many of the first `n` ticks attempt. */
  function CountAttempts(head: string, ticks: seq<Failure>, n: nat): nat
    requires n <= |ticks|
  {
    if n == 0 then 0 else CountAttempts(head, ticks, n - 1) + if Attempts(head, ticks, n - 1) then 1 else 0
  }

  lemma {:induction false} GateCounts(head: string, ticks: seq<Failure>, n: nat)
    requires head != "" && n <= |ticks|
    ensures GateAfter(head, ticks, n).failedCount == CountAttempts(head, ticks, n)
    ensures GateAfter(head, ticks, n).failedSHA == if CountAttempts(head, ticks, n) == 0 then "" else head
  {
    if n > 0 {
      GateCounts(head, ticks, n - 1);
    }
  }

  /** What a tick does to the gate: from the third failure on it waits the hour out. */
  lemma GateNext(head: string, ticks: seq<Failure>, n: nat)
    requires head != "" && n < |ticks|
    ensures var g, q, count := GateAfter(head, ticks, n), GateAfter(head, ticks, n + 1), CountAttempts(head, ticks, n);
            if Attempts(head, ticks, n) then
              && q.failedAt == ticks[n].end && CountAttempts(head, ticks, n + 1) == count + 1
              && (count >= 3 ==> ticks[n].check - g.failedAt >= FAILED_SHA_EXPIRY)
            else q == g && CountAttempts(head, ticks, n + 1) == count
  {
    GateCounts(head, ticks, n);
  }

  /** The gate after tick i keeps the time of the failure, or a later one. */
  lemma {:induction false} FailureRemembered(head: string, ticks: seq<Failure>, i: nat, n: nat)
    requires head != "" && Timely(ticks) && i < n <= |ticks| && Attempts(head, ticks, i)
    ensures GateAfter(head, ticks, n).failedAt >= ticks[i].end
    ensures CountAttempts(head, ticks, n) >= CountAttempts(head, ticks, i) + 1
  {
    GateNext(head, ticks, n - 1);
    if i < n - 1 {
      FailureRemembered(head, ticks, i, n - 1);
      assert ticks[i].end <= ticks[n - 1].check <= ticks[n - 1].end;
    }
  }

  /** From the third failed attempt on, the next one, and every later one, starts an hour or more
      after it ended. */
  lemma AttemptsSpaced(head: string, ticks: seq<Failure>, i: nat, j: nat)
    requires head != "" && Timely(ticks) && i < j < |ticks|
    requires Attempts(head, ticks, i) && Attempts(head, ticks, j) && CountAttempts(head, ticks, i) >= 2
    ensures ticks[j].check >= ticks[i].end + 3_600_000_000_000
  {
    FailureRemembered(head, ticks, i, j);
    GateNext(head, ticks, j);
  }

  /** The first three ticks hold nothing back. */
  lemma FirstThreeAtOnce(head: string, ticks: seq<Failure>, i: nat)
    requires head != "" && i < |ticks| && CountAttempts(head, ticks, i) < 3
    ensures Attempts(head, ticks, i)
  {
    GateCounts(head, ticks, i);
  }

  function Hours(k: int): int { k * 3_600_000_000_000 }

  /** The failure recorded last came as many hours after the first tick as there were attempts beyond
      the third. */
  lemma {:induction false} FailuresTakeHours(head: string, ticks: seq<Failure>, n: nat)
    requires head != "" && Timely(ticks) && 0 < n <= |ticks|
    ensures CountAttempts(head, ticks, n) >= 3 ==>
              GateAfter(head, ticks, n).failedAt >= ticks[0].check + Hours(CountAttempts(head, ticks, n) - 3)
  {
    assert Hours(1) == FAILED_SHA_EXPIRY;
    GateNext(head, ticks, n - 1);
    if n > 1 {
      FailuresTakeHours(head, ticks, n - 1);
      assert ticks[0].check <= ticks[n - 2].end <= ticks[n - 1].check <= ticks[n - 1].end;
    }
  }

  /** A window from the first tick to the start of any attempt holds at most three attempts and one
      more per hour, that attempt included. */
  lemma WindowBound(head: string, ticks: seq<Failure>, i: nat)
    requires head != "" && Timely(ticks) && i < |ticks| && Attempts(head, ticks, i)
    ensures Hours(CountAttempts(head, ticks, i + 1) - 3) <= ticks[i].check - ticks[0].check
  {
    assert Hours(1) == FAILED_SHA_EXPIRY;
    GateNext(head, ticks, i);
    if i > 0 {
      FailuresTakeHours(head, ticks, i);
      assert ticks[0].check <= ticks[i].check;
    }
  }

  // ----- any commits, some reconciled and some not

  datatype Visit = Visit(head: string, check: nat, outcome: Outcome, end: nat)

  /** The gate after the first `n` ticks. */
  function GateOver(visits: seq<Visit>, n: nat): Gate
    requires n <= |visits|
  {
    if n == 0 then Cleared()
    else
      var v := visits[n - 1];
      TickGate(GateOver(visits, n - 1), v.head, v.check, v.outcome, v.end).1
  }

  predicate Tried(visits: seq<Visit>, i: nat)
    requires i < |visits|
  {
    TickGate(GateOver(visits, i), visits[i].head, visits[i].check, visits[i].outcome, visits[i].end).0
  }

  /** How often `head` was tried and failed before tick `n`, back to a success or a try of another
      commit. */
  function Streak(visits: seq<Visit>, n: nat, head: string): nat
    requires n <= |visits|
  {
    if n == 0 then 0
    else if !Tried(visits, n - 1) then Streak(visits, n - 1, head)
    else if visits[n - 1].head == head && visits[n - 1].outcome.ApplyFailed? then Streak(visits, n - 1, head) + 1
    else 0
  }

  /** Tick `i` is the last one tried before tick `n`. */
  predicate LastTried(visits: seq<Visit>, i: nat, n: nat)
    requires i < n <= |visits|
  {
    Tried(visits, i) && forall k | i < k < n :: !Tried(visits, k)
  }

  lemma OneLastTried(visits: seq<Visit>, i: nat, j: nat, n: nat)
    requires i < n <= |visits| && j < n && LastTried(visits, i, n) && LastTried(visits, j, n)
    ensures i == j
  {
  }

  lemma {:induction false} GateIsStreak(visits: seq<Visit>, n: nat, head: string)
    requires head != "" && n <= |visits| && forall i | 0 <= i < |visits| :: visits[i].head != ""
    ensures Streak(visits, n, head)
            == if GateOver(visits, n).failedSHA == head then GateOver(visits, n).failedCount else 0
    ensures GateOver(visits, n).failedSHA == "" ==> GateOver(visits, n).failedCount == 0
  {
    if n > 0 {
      GateIsStreak(visits, n - 1, head);
    }
  }

  lemma {:induction false} LastFailure(visits: seq<Visit>, n: nat, head: string) returns (i: nat)
    requires n <= |visits| && Streak(visits, n, head) > 0
    ensures i < n && LastTried(visits, i, n) && visits[i].head == head && visits[i].outcome.ApplyFailed?
    ensures GateOver(visits, n).failedAt == visits[i].end
  {
    if Tried(visits, n - 1) {
      i := n - 1;
    } else {
      i := LastFailure(visits, n - 1, head);
    }
  }

  /** Over any history a tick is held back exactly when its commit failed at its last three tries or
      more, nothing else being tried in between, and the last of them ended less than an hour ago. */
  lemma HeldBackExact(visits: seq<Visit>, n: nat)
    requires n < |visits| && forall i | 0 <= i < |visits| :: visits[i].head != ""
    ensures !Tried(visits, n)
            <==> Streak(visits, n, visits[n].head) >= 3
                 && exists i | 0 <= i < n ::
                     LastTried(visits, i, n) && visits[n].check - visits[i].end < 3_600_000_000_000
  {
    GateIsStreak(visits, n, visits[n].head);
    if Streak(visits, n, visits[n].head) > 0 {
      var i := LastFailure(visits, n, visits[n].head);
      forall j | 0 <= j < n && LastTried(visits, j, n) ensures j == i {
        OneLastTried(visits, i, j, n);
      }
    }
  }

  /** After a success, or a try of another commit, a commit is tried at once and its failure counts as
      the first; a success leaves the gate open to every commit. */
  lemma StartsAfresh(visits: seq<Visit>, i: nat, n: nat)
    requires i < n < |visits| && LastTried(visits, i, n) && forall k | 0 <= k < |visits| :: visits[k].head != ""
    requires visits[i].outcome.Applied? || visits[i].head != visits[n].head
    ensures Tried(visits, n)
    ensures Streak(visits, n + 1, visits[n].head) == (if visits[n].outcome.ApplyFailed? then 1 else 0)
    ensures GateOver(visits, n + 1)
            == if visits[n].outcome.Applied? then Gate("", 0, 0) else Gate(visits[n].head, 1, visits[n].end)
  {
    GateIsStreak(visits, n, visits[n].head);
    GateIsStreak(visits, n + 1, visits[n].head);
    if Streak(visits, n, visits[n].head) > 0 {
      var j := LastFailure(visits, n, visits[n].head);
      OneLastTried(visits, i, j, n);
    }
  }
}
