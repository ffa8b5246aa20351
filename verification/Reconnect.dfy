/** The D-Bus reconnect protocol of withReconnect (pkg/applier/systemd.go): any number of callers
    share one connection, and the first to find it dead replaces it under the mutex. */
module Reconnect {
  import opened Common

  const SECOND := 1_000_000_000
  const RECONNECT_COOLDOWN := 30 * SECOND

  /** The fields of DBusSystemdManager the mutex guards. Connections are numbered in the order they
      are made, so equal numbers are equal pointers; `made` is the next number. */
  datatype Shared = Shared(conn: nat, made: nat, lastAttempt: int, lastErr: Option<string>)

  datatype Check = Use(conn: nat) | Cooling(err: string) | MustDial

  /** The decision taken under the mutex by a caller that found `seen` dead. */
  function CheckConnection(s: Shared, seen: nat, now: int): Check {
    if s.conn != seen then Use(s.conn)
    else if now - s.lastAttempt < RECONNECT_COOLDOWN && s.lastErr.Some? then Cooling(s.lastErr.value)
    else MustDial
  }

  /** The fields after a dial begun at `now`, which failed with `err` or connected (None). */
  function Dialed(s: Shared, now: int, err: Option<string>): Shared {
    if err.Some? then s.(lastAttempt := now, lastErr := err)
    else Shared(s.made, s.made + 1, 0, None)
  }

  // ----- the manager object

  class DBusSystemdManager {
    var conn: nat
    var made: nat
    var lastReconnectAttempt: int
    var lastReconnectErr: Option<string>

    ghost function Fields(): Shared
      reads this
    {
      Shared(conn, made, lastReconnectAttempt, lastReconnectErr)
    }

    constructor ()
      ensures Fields() == Init().shared
    {
      conn, made, lastReconnectAttempt, lastReconnectErr := 0, 1, 0, None;
    }

    /** The second critical section of withReconnect: `retry` names the connection to run fn on
        again, otherwise `err` is returned. `dial` is what connect would answer. */
    method Renew(seen: nat, now: int, dial: Option<string>) returns (retry: bool, err: string)
      modifies this
      ensures var check := CheckConnection(old(Fields()), seen, now);
              && Fields() == (if check.MustDial? then Dialed(old(Fields()), now, dial) else old(Fields()))
              && retry == (check.Use? || (check.MustDial? && dial.None?))
              && err == (if check.Cooling? then check.err else if check.MustDial? && dial.Some? then dial.value else "")
    {
      if conn == seen {
        if now - lastReconnectAttempt < RECONNECT_COOLDOWN && lastReconnectErr.Some? {
          return false, lastReconnectErr.value;
        }
        if dial.Some? {
          lastReconnectAttempt := now;
          lastReconnectErr := dial;
          return false, dial.value;
        }
        conn, made := made, made + 1;
        lastReconnectAttempt := 0;
        lastReconnectErr := None;
      }
      return true, "";
    }
  }

  // ----- the protocol

  /** Where a call of withReconnect stands. `Checking` waits for the mutex with a dead connection;
      `Dialing` holds it. */
  datatype Call =
    | First(conn: nat)
    | Checking(conn: nat)
    | Dialing(conn: nat, start: int)
    | Second(conn: nat)
    | Returned

  datatype Dial = Dial(start: int, replaced: nat, err: Option<string>)

  /** All calls made so far, by an identity of their own, with the connections each ran fn on. */
  datatype System = System(
    shared: Shared, calls: map<nat, Call>, ran: map<nat, seq<nat>>,
    holder: Option<nat>, clock: int, dials: seq<Dial>)

  datatype Step =
    | Begin(id: nat)                              // read conn under the mutex, run fn
    | FnReturns(id: nat, retryable: bool)         // retryable: dead connection, context active
    | Enter(id: nat, now: int)                    // take the mutex with a dead connection
    | DialEnds(id: nat, at: int, err: Option<string>)

  function Init(): System {
    System(Shared(0, 1, 0, None), map[], map[], None, 0, [])
  }

  predicate Enabled(s: System, step: Step) {
    match step
    case Begin(id) => id !in s.calls && s.holder.None?
    case FnReturns(id, _) => id in s.calls && (s.calls[id].First? || s.calls[id].Second?)
    case Enter(id, now) => id in s.calls && s.calls[id].Checking? && s.holder.None? && now >= s.clock
    case DialEnds(id, at, _) => id in s.calls && s.calls[id].Dialing? && at >= s.clock
  }

  function RunFn(s: System, id: nat, call: Call, conn: nat): System {
    s.(calls := s.calls[id := call],
       ran := s.ran[id := (if id in s.ran then s.ran[id] else []) + [conn]])
  }

  function Do(s: System, step: Step): System
    requires Enabled(s, step)
  {
    match step
    case Begin(id) =>
      RunFn(s, id, First(s.shared.conn), s.shared.conn)
    case FnReturns(id, retryable) =>
      s.(calls := s.calls[id := if s.calls[id].First? && retryable then Checking(s.calls[id].conn) else Returned])
    case Enter(id, now) =>
      (match CheckConnection(s.shared, s.calls[id].conn, now)
       case Use(conn) => RunFn(s, id, Second(conn), conn).(clock := now)
       case Cooling(_) => s.(calls := s.calls[id := Returned], clock := now)
       case MustDial => s.(calls := s.calls[id := Dialing(s.shared.conn, now)], holder := Some(id), clock := now))
    case DialEnds(id, at, err) =>
      var start := s.calls[id].start;
      var t := s.(shared := Dialed(s.shared, start, err), holder := None, clock := at,
                  dials := s.dials + [Dial(start, s.shared.conn, err)]);
      if err.Some? then t.(calls := t.calls[id := Returned])
      else RunFn(t, id, Second(t.shared.conn), t.shared.conn)
  }

  /** The system after `steps`, None when one of them was not enabled. */
  function After(steps: seq<Step>): Option<System> {
    if steps == [] then Some(Init())
    else
      var before := After(steps[..|steps| - 1]);
      var step := steps[|steps| - 1];
      if before.Some? && Enabled(before.value, step) then Some(Do(before.value, step)) else None
  }

  // ----- the invariant

  /** A successful dial takes the connection out of use for good. */
  ghost predicate ReplacedOnce(s: System) {
    && s.shared.conn < s.shared.made
    && (forall i | 0 <= i < |s.dials| && s.dials[i].err.None? :: s.dials[i].replaced < s.shared.conn)
    && (forall i, j | 0 <= i < j < |s.dials| && s.dials[i].err.None? && s.dials[j].err.None? ::
          s.dials[i].replaced < s.dials[j].replaced)
  }

  /** A dial may start at `start` after the dial `d`. */
  predicate MayFollow(d: Dial, start: int) {
    start >= if d.err.Some? then d.start + RECONNECT_COOLDOWN else d.start
  }

  ghost predicate MayDialAt(dials: seq<Dial>, start: int) {
    forall i | 0 <= i < |dials| :: MayFollow(dials[i], start)
  }

  ghost predicate Spaced(s: System) {
    && (forall i | 0 <= i < |s.dials| :: s.dials[i].start <= s.clock)
    && (forall i, j | 0 <= i < j < |s.dials| :: MayFollow(s.dials[i], s.dials[j].start))
    && (if s.dials != [] && s.dials[|s.dials| - 1].err.Some? then
          s.shared.lastErr == s.dials[|s.dials| - 1].err && s.shared.lastAttempt == s.dials[|s.dials| - 1].start
        else s.shared.lastErr.None?)
  }

  ghost predicate CallOk(s: System, id: nat, call: Call, ran: seq<nat>) {
    && (call.Dialing? <==> s.holder == Some(id))
    && (forall c | c in ran :: c <= s.shared.conn)
    && match call
       case First(c) => ran == [c]
       case Checking(c) => ran == [c]
       case Dialing(c, start) => ran == [c] && c == s.shared.conn && start <= s.clock && MayDialAt(s.dials, start)
       case Second(c) => |ran| == 2 && ran[0] < ran[1] == c
       case Returned => |ran| == 1 || (|ran| == 2 && ran[0] < ran[1])
  }

  ghost predicate Inv(s: System) {
    && ReplacedOnce(s) && Spaced(s)
    && s.calls.Keys == s.ran.Keys
    && (s.holder.Some? ==> s.holder.value in s.calls)
    && forall id | id in s.calls :: CallOk(s, id, s.calls[id], s.ran[id])
  }

  /** A caller told to dial keeps the distance from every dial before. */
  lemma MustDialKeepsDistance(s: System, seen: nat, now: int)
    requires Spaced(s) && now >= s.clock && CheckConnection(s.shared, seen, now).MustDial?
    ensures MayDialAt(s.dials, now)
  {
    var n := |s.dials|;
    forall i | 0 <= i < n ensures MayFollow(s.dials[i], now) {
      assert i < n - 1 ==> MayFollow(s.dials[i], s.dials[n - 1].start);
    }
  }

  lemma OtherCallsKept(s: System, step: Step, id: nat)
    requires Inv(s) && Enabled(s, step) && id in s.calls && id != step.id
    ensures var t := Do(s, step); CallOk(t, id, t.calls[id], t.ran[id])
  {
    assert CallOk(s, id, s.calls[id], s.ran[id]);
    assert step.Begin? || CallOk(s, step.id, s.calls[step.id], s.ran[step.id]);
  }

  lemma OwnCallKept(s: System, step: Step)
    requires Inv(s) && Enabled(s, step)
    ensures var t := Do(s, step); CallOk(t, step.id, t.calls[step.id], t.ran[step.id])
  {
    if !step.Begin? {
      assert CallOk(s, step.id, s.calls[step.id], s.ran[step.id]);
      assert s.calls[step.id].Checking? ==> s.calls[step.id].conn in s.ran[step.id];
      if step.Enter? && CheckConnection(s.shared, s.calls[step.id].conn, step.now).MustDial? {
        MustDialKeepsDistance(s, s.calls[step.id].conn, step.now);
      }
    }
  }

  /** Only the end of a dial touches the dials and the connection. */
  lemma DialsUntouched(s: System, step: Step)
    requires Enabled(s, step) && !step.DialEnds?
    ensures var t := Do(s, step); t.dials == s.dials && t.shared == s.shared && t.clock >= s.clock
  {
  }

  lemma SpacedKept(s: System, step: Step)
    requires Inv(s) && Enabled(s, step)
    ensures Spaced(Do(s, step))
  {
    var t := Do(s, step);
    if step.DialEnds? {
      assert CallOk(s, step.id, s.calls[step.id], s.ran[step.id]);
      assert forall i | 0 <= i < |s.dials| :: t.dials[i] == s.dials[i];
    } else {
      DialsUntouched(s, step);
    }
  }

  lemma ReplacedKept(s: System, step: Step)
    requires Inv(s) && Enabled(s, step)
    ensures ReplacedOnce(Do(s, step))
  {
    var t := Do(s, step);
    if step.DialEnds? {
      assert CallOk(s, step.id, s.calls[step.id], s.ran[step.id]);
      assert forall i | 0 <= i < |s.dials| :: t.dials[i] == s.dials[i];
    } else {
      DialsUntouched(s, step);
    }
  }

  lemma StepKeepsInv(s: System, step: Step)
    requires Inv(s) && Enabled(s, step)
    ensures Inv(Do(s, step))
  {
    var t := Do(s, step);
    SpacedKept(s, step);
    ReplacedKept(s, step);
    forall id | id in t.calls ensures CallOk(t, id, t.calls[id], t.ran[id]) {
      if id == step.id {
        OwnCallKept(s, step);
      } else {
        OtherCallsKept(s, step, id);
      }
    }
  }

  lemma {:induction false} InvHolds(steps: seq<Step>)
    requires After(steps).Some?
    ensures Inv(After(steps).value)
  {
    if steps != [] {
      InvHolds(steps[..|steps| - 1]);
      StepKeepsInv(After(steps[..|steps| - 1]).value, steps[|steps| - 1]);
    }
  }

  // ----- what every interleaving guarantees

  /** Each connection is successfully replaced at most once, whoever finds it dead and when. */
  lemma ConnectionReplacedOnce(steps: seq<Step>, i: nat, j: nat)
    requires After(steps).Some?
    requires i < j < |After(steps).value.dials|
    requires After(steps).value.dials[i].err.None? && After(steps).value.dials[j].err.None?
    ensures After(steps).value.dials[i].replaced != After(steps).value.dials[j].replaced
  {
    InvHolds(steps);
  }

  /** After a failed dial the next dial, and so every later one, starts a cooldown later or more. */
  lemma DialsSpaced(steps: seq<Step>, i: nat, j: nat)
    requires After(steps).Some?
    requires i < j < |After(steps).value.dials| && After(steps).value.dials[i].err.Some?
    ensures After(steps).value.dials[j].start >= After(steps).value.dials[i].start + 30_000_000_000
  {
    InvHolds(steps);
    var dials := After(steps).value.dials;
    assert MayFollow(dials[i], dials[j].start);
  }

  /** A call runs its function once or twice, the second time on a connection made after the first
      one was found dead. */
  lemma RunsAtMostTwice(steps: seq<Step>, id: nat)
    requires After(steps).Some? && id in After(steps).value.calls
    ensures var s := After(steps).value;
            && id in s.ran && 1 <= |s.ran[id]| <= 2
            && (|s.ran[id]| == 2 ==> s.ran[id][0] < s.ran[id][1])
  {
    InvHolds(steps);
    assert CallOk(After(steps).value, id, After(steps).value.calls[id], After(steps).value.ran[id]);
  }

  /** At most one call dials at a time. */
  lemma OneDialer(steps: seq<Step>, a: nat, b: nat)
    requires After(steps).Some?
    requires a in After(steps).value.calls && After(steps).value.calls[a].Dialing?
    requires b in After(steps).value.calls && After(steps).value.calls[b].Dialing?
    ensures a == b
  {
    InvHolds(steps);
    var s := After(steps).value;
    assert CallOk(s, a, s.calls[a], s.ran[a]) && CallOk(s, b, s.calls[b], s.ran[b]);
  }

  /** A caller is turned away without a dial exactly when the connection it found dead is still the
      current one and the latest dial failed less than a cooldown ago; it gets that dial's error. */
  lemma TurnedAwayInCooldown(steps: seq<Step>, seen: nat, now: int)
    requires After(steps).Some?
    ensures var s := After(steps).value;
            var check := CheckConnection(s.shared, seen, now);
            var latest := if s.dials == [] then [] else s.dials[|s.dials| - 1..];
            && (check.Cooling? <==> seen == s.shared.conn && latest != [] && latest[0].err.Some?
                                    && now < latest[0].start + 30_000_000_000)
            && (check.Cooling? ==> Some(check.err) == latest[0].err)
  {
    InvHolds(steps);
  }

  /** A call in its first run, from there on: without a dead connection it is over. With one it waits
      for the mutex, and then runs again on the connection if another caller has replaced it, and
      otherwise dials, unless a dial failed within the last 30 seconds. It runs again on the connection
      it makes, and not at all when its dial fails. */
  lemma RunsAgainExact(steps: seq<Step>, id: nat, retryable: bool, now: int, at: int, err: Option<string>)
    requires After(steps).Some? && id in After(steps).value.calls && After(steps).value.calls[id].First?
    requires After(steps).value.holder.None? && After(steps).value.clock <= now <= at
    ensures var s := After(steps).value;
            var seen, t := s.calls[id].conn, Do(s, FnReturns(id, retryable));
            && id in s.ran && t.ran == s.ran && (t.calls[id].Returned? <==> !retryable)
            && (retryable ==>
                  && Enabled(t, Enter(id, now))
                  && var u := Do(t, Enter(id, now));
                     if s.shared.conn != seen then
                       u.ran == s.ran[id := s.ran[id] + [s.shared.conn]] && u.calls[id].Second? && u.dials == s.dials
                     else if s.shared.lastErr.Some? && now < s.shared.lastAttempt + 30_000_000_000 then
                       u.ran == s.ran && u.calls[id].Returned? && u.dials == s.dials
                     else
                       && u.ran == s.ran && u.holder == Some(id) && Enabled(u, DialEnds(id, at, err))
                       && var v := Do(u, DialEnds(id, at, err));
                          && v.dials == s.dials + [Dial(now, seen, err)] && v.holder.None?
                          && (err.Some? ==> v.ran == s.ran && v.calls[id].Returned? && v.shared.conn == seen)
                          && (err.None? ==> v.ran == s.ran[id := s.ran[id] + [v.shared.conn]] && v.calls[id].Second?
                                            && v.shared.conn != seen))
  {
    InvHolds(steps);
  }
}
