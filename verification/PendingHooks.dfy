/** What the Agent remembers of failed hooks from tick to tick (pkg/agent/agent.go): the pending map
    merged with each pass and cut down to the retry budget. */
module PendingHooks {
  import opened Common
  import opened Hooks

  /** Hook name to consecutive failed attempts. */
  type Pending = map<string, int>

  function CountOf(p: Pending, name: string): int { if name in p then p[name] else 0 }

  /** mergePendingHooks. */
  function Merge(before: Pending, attempted: seq<string>, failed: seq<string>): Pending {
    map n | n in before.Keys + (set f | f in failed) && (n in failed || n !in attempted) ::
      if n in failed then CountOf(before, n) + 1 else before[n]
  }

  /** The first loop of mergePendingHooks: what was not attempted is kept. */
  method KeepUnattempted(before: Pending, attempted: seq<string>) returns (kept: Pending)
    ensures kept == map n | n in before && n !in attempted :: before[n]
  {
    kept := map[];
    var names := before.Keys;
    while names != {}
      invariant names <= before.Keys
      invariant kept == map n | n in before.Keys - names && n !in attempted :: before[n]
      decreases names
    {
      var name :| name in names;
      if name !in attempted {
        kept := kept[name := before[name]];
      }
      names := names - {name};
    }
  }

  method MergePendingHooks(before: Pending, attempted: seq<string>, failed: seq<string>) returns (merged: Pending)
    ensures merged == Merge(before, attempted, failed)
  {
    if |before| == 0 && |failed| == 0 {
      return map[];
    }
    merged := KeepUnattempted(before, attempted);
    for i := 0 to |failed|
      invariant forall n :: n in merged <==> (n in before && n !in attempted) || n in failed[..i]
      invariant forall n | n in merged :: merged[n] == if n in failed[..i] then CountOf(before, n) + 1 else before[n]
    {
      assert failed[..i + 1] == failed[..i] + [failed[i]];
      merged := merged[failed[i] := CountOf(before, failed[i]) + 1];
    }
    assert failed[..|failed|] == failed;
  }

  /** The retry limit of the configured hook of that name, the last of several. */
  function LimitOf(hooks: seq<Hook>, name: string): int
    requires ByName(hooks, name).Run?
  {
    ByName(hooks, name).hook.Limit()
  }

  predicate Configured(hooks: seq<Hook>, name: string) { ByName(hooks, name).Run? }

  predicate OverBudget(hooks: seq<Hook>, name: string, count: int) {
    Configured(hooks, name) && count >= LimitOf(hooks, name)
  }

  /** enforceRetryBudget. */
  function Enforce(p: Pending, hooks: seq<Hook>): Pending {
    map n | n in p && !OverBudget(hooks, n, p[n]) :: p[n]
  }

  method EnforceRetryBudget(p: Pending, hooks: seq<Hook>) returns (kept: Pending)
    ensures kept == Enforce(p, hooks)
  {
    var maxByName: map<string, int> := map[];
    for i := 0 to |hooks|
      invariant forall n :: n in maxByName <==> Configured(hooks[..i], n)
      invariant forall n | n in maxByName :: maxByName[n] == ByName(hooks[..i], n).hook.maxRetries
    {
      assert hooks[..i + 1][..i] == hooks[..i];
      maxByName := maxByName[hooks[i].name := hooks[i].maxRetries];
    }
    assert hooks[..|hooks|] == hooks;
    kept := p;
    var names := p.Keys;
    while names != {}
      invariant names <= p.Keys
      invariant kept == map n | n in p && (n in names || !OverBudget(hooks, n, p[n])) :: p[n]
      decreases names
    {
      var name :| name in names;
      if name in maxByName {
        var limit := if maxByName[name] <= 0 then DEFAULT_MAX_RETRIES else maxByName[name];
        if p[name] >= limit {
          kept := kept - {name};
        }
      }
      names := names - {name};
    }
  }

  // ----- one reconciliation

  /** A reconciliation that runs its hooks: an apply that does not fail, or the retry of pending
      hooks alone (`changed` empty). */
  datatype Reconcile = Reconcile(hooks: seq<Hook>, changed: Changed, scheduled: set<string>, env: Env)

  /** pendingHookNames: the keys, sorted. The order is left open. */
  ghost predicate NamesOf(p: Pending, names: seq<string>) {
    Distinct(names) && forall n :: n in names <==> n in p
  }

  function PassOf(r: Reconcile, names: seq<string>): Pass {
    RunHooks(r.hooks, r.changed, r.scheduled, names, r.env)
  }

  function AfterPass(p: Pending, r: Reconcile, names: seq<string>): Pending {
    var s := PassOf(r, names);
    Enforce(Merge(p, s.attempted, s.pending), r.hooks)
  }

  lemma FailedAreAttempted(r: Reconcile, names: seq<string>)
    ensures var s := PassOf(r, names); forall n | n in s.pending :: n in s.attempted
    ensures var s := PassOf(r, names); forall n | n in names :: n in s.attempted
    ensures var s := PassOf(r, names); forall n | n in s.pending :: Configured(r.hooks, n)
  {
    var s, items := PassOf(r, names), ItemsOf(r.hooks, r.changed, names);
    PassInvHolds(r.scheduled, items, r.env);
    NamesMembers(items);
    RunItemsAreConfigured(r.hooks, r.changed, names);
    forall n | n in s.pending ensures n in s.attempted && Configured(r.hooks, n) {
      var q :| q in s.reloads && q.result.Failed? && q.hook.name == n;
      assert Run(q.hook) in items && ItemName(Run(q.hook)) == n;
      ByNameKeepsName(r.hooks, n);
    }
    forall n | n in names ensures n in s.attempted {
      FirstPassItems(r.hooks, r.changed);
      SecondPassItems(r.hooks, r.changed, names);
      ByNameKeepsName(r.hooks, n);
      if InFirstPass(r.hooks, r.changed, n) {
        var h :| h in r.hooks && h.name == n && Matches(h, r.changed);
        assert Run(h) in items && ItemName(Run(h)) == n;
      } else {
        assert ByName(r.hooks, n) in items;
      }
    }
  }

  /** The pending map after a pass is exactly the hooks whose reload failed and kept its unit
      running, each with its count one higher: nothing is carried over without an attempt. */
  lemma MergedAreTheFailed(p: Pending, r: Reconcile, names: seq<string>)
    requires NamesOf(p, names)
    ensures var s := PassOf(r, names);
            var m := Merge(p, s.attempted, s.pending);
            && (forall n :: n in m <==> exists q | q in s.reloads :: q.result.Failed? && q.hook.name == n)
            && (forall n | n in m :: m[n] == CountOf(p, n) + 1)
  {
    var s := PassOf(r, names);
    FailedAreAttempted(r, names);
    PassInvHolds(r.scheduled, ItemsOf(r.hooks, r.changed, names), r.env);
  }

  // ----- runs

  /** What one tick does to the pending map; a tick without a reconciliation, or whose apply fails
      fatally, leaves it alone. */
  datatype Event = Quiet | Reconciled(r: Reconcile, names: seq<string>)

  /** The pending map before and after an event; a reconciliation retries the names pending before it. */
  ghost predicate Follows(p: Pending, e: Event, q: Pending) {
    match e
    case Quiet => q == p
    case Reconciled(r, names) => NamesOf(p, names) && q == AfterPass(p, r, names)
  }

  /** Events, and the pending map before and after each. */
  datatype History = History(events: seq<Event>, maps: seq<Pending>)

  ghost predicate IsRun(h: History) {
    && |h.maps| == |h.events| + 1 && h.maps[0] == map[]
    && forall k | 0 <= k < |h.events| :: Follows(h.maps[k], h.events[k], h.maps[k + 1])
  }

  ghost predicate WithinBudget(p: Pending, hooks: seq<Hook>) {
    forall n | n in p :: Configured(hooks, n) && 1 <= p[n] < LimitOf(hooks, n)
  }

  /** The hook at `i` is the last of that name. */
  ghost predicate LastOfName(hooks: seq<Hook>, i: int, name: string) {
    0 <= i < |hooks| && hooks[i].name == name && forall j | i < j < |hooks| :: hooks[j].name != name
  }

  /** The attempts a hook is given before it is dropped. */
  function MaxAttempts(h: Hook): int { if h.maxRetries <= 0 then 10 else h.maxRetries }

  lemma {:induction false} ByNameIsLast(hooks: seq<Hook>, name: string, i: int)
    requires LastOfName(hooks, i, name)
    ensures Configured(hooks, name) && ByName(hooks, name).hook == hooks[i]
  {
    var n := |hooks| - 1;
    if i < n {
      ByNameIsLast(hooks[..n], name, i);
    }
  }

  lemma {:induction false} HasLast(hooks: seq<Hook>, name: string) returns (i: int)
    requires exists h | h in hooks :: h.name == name
    ensures LastOfName(hooks, i, name)
  {
    i := |hooks| - 1;
    if hooks[i].name != name {
      assert hooks == hooks[..i] + [hooks[i]];
      i := HasLast(hooks[..i], name);
    }
  }

  /** The budget drops exactly the configured hooks that have had their attempts, and changes no count. */
  lemma EnforceExact(p: Pending, hooks: seq<Hook>, name: string)
    ensures name in Enforce(p, hooks)
            <==> name in p && forall i | LastOfName(hooks, i, name) :: p[name] < MaxAttempts(hooks[i])
    ensures name in Enforce(p, hooks) ==> Enforce(p, hooks)[name] == p[name]
  {
    ByNameKeepsName(hooks, name);
    forall i | LastOfName(hooks, i, name)
      ensures Configured(hooks, name) && LimitOf(hooks, name) == MaxAttempts(hooks[i])
    {
      ByNameIsLast(hooks, name, i);
    }
    if Configured(hooks, name) {
      var i := HasLast(hooks, name);
    }
  }

  /** Each name is that of a configured hook, its count from 1 to less than the attempts the last hook of
      that name is given. */
  ghost predicate BelowLimits(p: Pending, hooks: seq<Hook>) {
    && (forall n | n in p :: exists h | h in hooks :: h.name == n)
    && forall n, i | n in p && LastOfName(hooks, i, n) :: 1 <= p[n] < MaxAttempts(hooks[i])
  }

  lemma BudgetInLimits(p: Pending, hooks: seq<Hook>)
    requires WithinBudget(p, hooks)
    ensures BelowLimits(p, hooks)
  {
    forall n, i | n in p && LastOfName(hooks, i, n) ensures 1 <= p[n] < MaxAttempts(hooks[i]) {
      ByNameIsLast(hooks, n, i);
    }
    forall n | n in p ensures exists h | h in hooks :: h.name == n {
      ByNameKeepsName(hooks, n);
    }
  }

  ghost predicate Positive(p: Pending) { forall n | n in p :: p[n] >= 1 }

  lemma PassBudget(p: Pending, r: Reconcile, names: seq<string>)
    requires NamesOf(p, names) && Positive(p)
    ensures WithinBudget(AfterPass(p, r, names), r.hooks)
  {
    FailedAreAttempted(r, names);
  }

  lemma {:induction false} CountsPositive(h: History, n: nat)
    requires IsRun(h) && n <= |h.events|
    ensures Positive(h.maps[n])
  {
    if n > 0 {
      CountsPositive(h, n - 1);
      assert Follows(h.maps[n - 1], h.events[n - 1], h.maps[n]);
      if h.events[n - 1].Reconciled? {
        PassBudget(h.maps[n - 1], h.events[n - 1].r, h.events[n - 1].names);
      }
    }
  }

  /** Over every run: right after a reconciliation each pending name is a configured hook with a
      count from 1 to its limit less one. Names no longer configured are gone. */
  lemma BudgetKept(h: History, n: nat)
    requires IsRun(h) && 0 < n <= |h.events| && h.events[n - 1].Reconciled?
    ensures WithinBudget(h.maps[n], h.events[n - 1].r.hooks)
    ensures BelowLimits(h.maps[n], h.events[n - 1].r.hooks)
  {
    CountsPositive(h, n - 1);
    assert Follows(h.maps[n - 1], h.events[n - 1], h.maps[n]);
    PassBudget(h.maps[n - 1], h.events[n - 1].r, h.events[n - 1].names);
    BudgetInLimits(h.maps[n], h.events[n - 1].r.hooks);
  }

  /** The hook is pending from after event `from` to after event `to`, through every reconciliation
      between with the given limit for it. */
  ghost predicate KeepsFailing(h: History, from: nat, to: nat, name: string, limit: int)
    requires IsRun(h) && from <= to <= |h.events|
  {
    && (forall k | from <= k <= to :: name in h.maps[k])
    && (forall k | from <= k < to && h.events[k].Reconciled? ::
          Configured(h.events[k].r.hooks, name) && LimitOf(h.events[k].r.hooks, name) == limit)
  }

  function Reconciliations(events: seq<Event>, from: nat, to: nat): nat
    requires from <= to <= |events|
  {
    if from == to then 0 else Reconciliations(events, from, to - 1) + if events[to - 1].Reconciled? then 1 else 0
  }

  /** One event that leaves a hook pending counts it once more if it is a reconciliation. */
  lemma CountStep(p: Pending, e: Event, q: Pending, name: string)
    requires Follows(p, e, q) && name in p && name in q
    ensures q[name] == p[name] + if e.Reconciled? then 1 else 0
  {
    if e.Reconciled? {
      FailedAreAttempted(e.r, e.names);
    }
  }

  /** Each reconciliation that leaves a hook pending counts it once more. */
  lemma {:induction false} CountGrows(h: History, from: nat, to: nat, name: string)
    requires IsRun(h) && from <= to <= |h.events| && forall k | from <= k <= to :: name in h.maps[k]
    ensures h.maps[to][name] == h.maps[from][name] + Reconciliations(h.events, from, to)
  {
    if from < to {
      CountGrows(h, from, to - 1, name);
      CountStep(h.maps[to - 1], h.events[to - 1], h.maps[to], name);
    }
  }

  /** A hook whose attempts all fail leaves the pending map within its limit: it outlives fewer
      reconciliations than the limit still allows. */
  lemma GivesUpInTime(h: History, from: nat, to: nat, name: string, limit: int)
    requires IsRun(h) && from < to <= |h.events| && KeepsFailing(h, from, to, name, limit)
    requires h.events[to - 1].Reconciled?
    ensures h.maps[from][name] >= 1
    ensures Reconciliations(h.events, from, to) < limit - h.maps[from][name]
  {
    CountsPositive(h, from);
    CountGrows(h, from, to, name);
    BudgetKept(h, to);
    assert LimitOf(h.events[to - 1].r.hooks, name) == limit;
  }
}
