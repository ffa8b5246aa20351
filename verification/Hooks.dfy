/** The hook pass of an apply (pkg/applier/applier.go, pkg/applier/hook.go). */
module Hooks {
  import opened Common
  import opened Paths

  const HTTP := "http"
  const SIGNAL := "signal"
  const RESTART := "restart"
  const DEFAULT_MAX_RETRIES := 10

  datatype Hook = Hook(
    name: string, secrets: seq<string>, manifests: seq<string>, files: seq<string>,
    unit: string, action: string, method_: string, url: string, healthURL: string,
    container: string, signal: string, onFailure: string, maxRetries: int)
  {
    predicate FallbackToRestart() { onFailure == RESTART }

    /** The retry limit in force. */
    function Limit(): int { if maxRetries <= 0 then DEFAULT_MAX_RETRIES else maxRetries }
  }

  // ----- execution keys

  const NUL: char := '\0'

  function Sep(): string { [NUL] }

  /** What a key of the action holds after the action and its separator. */
  function KeyTail(h: Hook): string {
    if h.action == HTTP then h.unit + (Sep() + (h.method_ + (Sep() + (h.url + (Sep() + h.healthURL)))))
    else if h.action == SIGNAL then h.unit + (Sep() + (h.container + (Sep() + h.signal)))
    else h.unit
  }

  /** hookExecutionKey: hooks with one key are one side effect. */
  function ExecutionKey(h: Hook): string {
    if h.action in [HTTP, SIGNAL, RESTART] then h.action + (Sep() + KeyTail(h)) else h.name
  }

  /** What loading the Fleet has normalized: a known action, and no field with a null character. */
  predicate Normal(h: Hook) {
    && h.action in [HTTP, SIGNAL, RESTART]
    && NUL !in h.unit && NUL !in h.method_ && NUL !in h.url && NUL !in h.healthURL
    && NUL !in h.container && NUL !in h.signal
  }

  predicate SameEffect(g: Hook, h: Hook) {
    && g.action == h.action && g.unit == h.unit
    && (h.action == HTTP ==> g.method_ == h.method_ && g.url == h.url && g.healthURL == h.healthURL)
    && (h.action == SIGNAL ==> g.container == h.container && g.signal == h.signal)
  }

  lemma {:induction false} CutSep(a: string, rest: string)
    requires NUL !in a
    ensures Cut(a + (Sep() + rest), NUL) == (a, rest, true)
  {
    if a == "" {
      assert a + (Sep() + rest) == Sep() + rest;
      assert (Sep() + rest)[1..] == rest;
    } else {
      assert (a + (Sep() + rest))[1..] == a[1..] + (Sep() + rest);
      assert a[0] in a && forall c | c in a[1..] :: c in a;
      CutSep(a[1..], rest);
      assert a == [a[0]] + a[1..];
    }
  }

  lemma SplitKey(a: string, rest: string, b: string, more: string)
    requires NUL !in a && NUL !in b
    ensures a + (Sep() + rest) == b + (Sep() + more) <==> a == b && rest == more
  {
    CutSep(a, rest);
    CutSep(b, more);
  }

  /** The dedup key identifies the side effect: the separators keep the fields apart. */
  lemma KeyIsSideEffect(g: Hook, h: Hook)
    requires Normal(g) && Normal(h)
    ensures ExecutionKey(g) == ExecutionKey(h) <==> SameEffect(g, h)
  {
    assert NUL !in HTTP && NUL !in SIGNAL && NUL !in RESTART;
    SplitKey(g.action, KeyTail(g), h.action, KeyTail(h));
    if g.action == h.action == HTTP {
      var gu, hu := g.url + (Sep() + g.healthURL), h.url + (Sep() + h.healthURL);
      SplitKey(g.unit, g.method_ + (Sep() + gu), h.unit, h.method_ + (Sep() + hu));
      SplitKey(g.method_, gu, h.method_, hu);
      SplitKey(g.url, g.healthURL, h.url, h.healthURL);
    } else if g.action == h.action == SIGNAL {
      SplitKey(g.unit, g.container + (Sep() + g.signal), h.unit, h.container + (Sep() + h.signal));
      SplitKey(g.container, g.signal, h.container, h.signal);
    }
  }

  // ----- one hook

  datatype Result = Success | Failed | FallbackRestart | Skipped

  /** How the unit and the reload of a hook answer this tick. */
  datatype Answer = UnitInactive | ReloadFails | ReloadWorks

  type Env = Hook -> Answer

  datatype Reload = Reload(hook: Hook, result: Result)

  /** The locals and result fields of one pass, with the reloads it issued. */
  datatype Pass = Pass(
    restartSet: set<string>, executed: set<string>, restartUnits: set<string>,
    attempted: seq<string>, pending: seq<string>, fallback: seq<string>, reloads: seq<Reload>)

  function StartPass(scheduled: set<string>): Pass {
    Pass(scheduled, {}, {}, [], [], [], [])
  }

  /** HookReloader.Run: whether to restart the unit, and the outcome (its errors but ErrHookSkipped
      are Failed). */
  function ReloaderRun(h: Hook, scheduled: set<string>, answer: Answer): (bool, Result) {
    if h.unit in scheduled && h.action != RESTART then (false, Skipped)
    else if h.action == RESTART then (true, Success)
    else if answer.UnitInactive? then (h.FallbackToRestart(), Failed)
    else if h.action != HTTP && h.action != SIGNAL then (false, Failed)
    else if answer.ReloadFails? then (h.FallbackToRestart(), Failed)
    else (false, Success)
  }

  /** dispatchHookResult. */
  function Dispatch(s: Pass, h: Hook, restart: bool, result: Result): Pass {
    s.(attempted := s.attempted + [h.name],
       pending := if result.Failed? && !restart then s.pending + [h.name] else s.pending,
       fallback := if result.Failed? && restart then s.fallback + [h.unit] else s.fallback,
       restartUnits := if restart then s.restartUnits + {h.unit} else s.restartUnits)
  }

  /** runOneHook. */
  function RunOne(s: Pass, h: Hook, env: Env): Pass {
    var key := ExecutionKey(h);
    if key in s.executed then Dispatch(s, h, false, Skipped)
    else
      var (restart, result) := ReloaderRun(h, s.restartSet, env(h));
      Dispatch(s, h, restart, result).(
        executed := s.executed + {key},
        restartSet := if restart then s.restartSet + {h.unit} else s.restartSet,
        reloads := s.reloads + [Reload(h, if result.Failed? && restart then FallbackRestart else result)])
  }

  // ----- the two passes

  datatype Changed = Changed(secrets: set<string>, manifests: set<string>, files: set<string>)

  predicate Matches(h: Hook, c: Changed) {
    || (exists s | s in h.secrets :: s in c.secrets)
    || (exists m | m in h.manifests :: m in c.manifests)
    || (exists f | f in h.files :: f in c.files)
  }

  /** A hook to run, or a pending name no longer in the config. */
  datatype Item = Run(hook: Hook) | Stale(name: string)

  function ItemName(i: Item): string { if i.Run? then i.hook.name else i.name }

  function FirstPass(hooks: seq<Hook>, c: Changed): seq<Item> {
    if hooks == [] then []
    else
      var n, h := |hooks| - 1, hooks[|hooks| - 1];
      FirstPass(hooks[..n], c) + (if Matches(h, c) then [Run(h)] else [])
  }

  /** The configured hook of that name, the last of several. */
  function ByName(hooks: seq<Hook>, name: string): Item {
    if hooks == [] then Stale(name)
    else if hooks[|hooks| - 1].name == name then Run(hooks[|hooks| - 1])
    else ByName(hooks[..|hooks| - 1], name)
  }

  /** The name was run in the first pass. */
  predicate InFirstPass(hooks: seq<Hook>, c: Changed, name: string) {
    exists h | h in hooks :: h.name == name && Matches(h, c)
  }

  function SecondPass(hooks: seq<Hook>, c: Changed, pendingNames: seq<string>): seq<Item> {
    if pendingNames == [] then []
    else
      var n, name := |pendingNames| - 1, pendingNames[|pendingNames| - 1];
      SecondPass(hooks, c, pendingNames[..n])
      + (if InFirstPass(hooks, c, name) then [] else [ByName(hooks, name)])
  }

  function RunItem(s: Pass, i: Item, env: Env): Pass {
    match i
    case Run(h) => RunOne(s, h, env)
    case Stale(name) => s.(attempted := s.attempted + [name])
  }

  function RunItems(s: Pass, items: seq<Item>, env: Env): Pass {
    if items == [] then s
    else RunItem(RunItems(s, items[..|items| - 1], env), items[|items| - 1], env)
  }

  function ItemsOf(hooks: seq<Hook>, c: Changed, pendingNames: seq<string>): seq<Item> {
    FirstPass(hooks, c) + SecondPass(hooks, c, pendingNames)
  }

  /** runHooksWithPending as a whole. */
  function RunHooks(hooks: seq<Hook>, c: Changed, scheduled: set<string>, pendingNames: seq<string>, env: Env): Pass {
    RunItems(StartPass(scheduled), ItemsOf(hooks, c, pendingNames), env)
  }

  class HookPass {
    var restartSet: set<string>
    var executed: set<string>
    var restartUnits: set<string>
    var attempted: seq<string>
    var pending: seq<string>
    var fallback: seq<string>
    ghost var reloads: seq<Reload>

    ghost function State(): Pass
      reads this
    {
      Pass(restartSet, executed, restartUnits, attempted, pending, fallback, reloads)
    }

    constructor (scheduled: set<string>)
      ensures State() == StartPass(scheduled)
    {
      restartSet, executed, restartUnits := scheduled, {}, {};
      attempted, pending, fallback, reloads := [], [], [], [];
    }

    method DispatchHookResult(h: Hook, restart: bool, result: Result)
      modifies this
      ensures State() == Dispatch(old(State()), h, restart, result)
    {
      attempted := attempted + [h.name];
      if result.Failed? {
        if restart {
          fallback := fallback + [h.unit];
        } else {
          pending := pending + [h.name];
        }
      }
      if restart {
        restartUnits := restartUnits + {h.unit};
      }
    }

    method RunOneHook(h: Hook, env: Env)
      modifies this
      ensures State() == RunOne(old(State()), h, env)
    {
      var key := ExecutionKey(h);
      if key in executed {
        DispatchHookResult(h, false, Skipped);
        return;
      }
      executed := executed + {key};
      var (restart, result) := ReloaderRun(h, restartSet, env(h));
      reloads := reloads + [Reload(h, if result.Failed? && restart then FallbackRestart else result)];
      DispatchHookResult(h, restart, result);
      if restart {
        restartSet := restartSet + {h.unit};
      }
    }

    /** The hooks a change triggers, in config order. */
    method RunTriggered(hooks: seq<Hook>, c: Changed, env: Env)
      modifies this
      ensures State() == RunItems(old(State()), FirstPass(hooks, c), env)
    {
      ghost var start := State();
      for i := 0 to |hooks|
        invariant State() == RunItems(start, FirstPass(hooks[..i], c), env)
      {
        assert hooks[..i + 1][..i] == hooks[..i];
        if Matches(hooks[i], c) {
          RunItemsStep(start, FirstPass(hooks[..i], c), Run(hooks[i]), env);
          RunOneHook(hooks[i], env);
        } else {
          assert FirstPass(hooks[..i + 1], c) == FirstPass(hooks[..i], c);
        }
      }
      assert hooks[..|hooks|] == hooks;
    }

    /** A pending name that no change triggered: its hook, or nothing but the attempt for a name no
        longer configured. */
    method RunPendingItem(item: Item, env: Env)
      modifies this
      ensures State() == RunItem(old(State()), item, env)
    {
      match item
      case Run(h) => RunOneHook(h, env);
      case Stale(name) => attempted := attempted + [name];
    }

    /** runHooksWithPending. */
    method RunHooksWithPending(hooks: seq<Hook>, c: Changed, pendingNames: seq<string>, env: Env)
      requires State() == StartPass(restartSet)
      modifies this
      ensures State() == RunHooks(hooks, c, old(restartSet), pendingNames, env)
    {
      ghost var start := State();
      if c == Changed({}, {}, {}) && pendingNames == [] {
        NothingChanged(hooks, c);
        return;
      }
      if hooks == [] && pendingNames == [] {
        return;
      }
      RunTriggered(hooks, c, env);
      ghost var done := FirstPass(hooks, c);
      assert done + [] == done;
      for i := 0 to |pendingNames|
        invariant done == FirstPass(hooks, c) + SecondPass(hooks, c, pendingNames[..i])
        invariant State() == RunItems(start, done, env)
      {
        var name := pendingNames[i];
        assert pendingNames[..i + 1][..i] == pendingNames[..i];
        if !InFirstPass(hooks, c, name) {
          var item := ByName(hooks, name);
          RunItemsStep(start, done, item, env);
          done := done + [item];
          RunPendingItem(item, env);
        }
      }
      assert pendingNames[..|pendingNames|] == pendingNames;
    }
  }

  lemma RunItemsStep(s: Pass, items: seq<Item>, i: Item, env: Env)
    ensures RunItems(s, items + [i], env) == RunItem(RunItems(s, items, env), i, env)
  {
    assert (items + [i])[..|items|] == items;
  }

  lemma {:induction false} ByNameKeepsName(hooks: seq<Hook>, name: string)
    ensures ItemName(ByName(hooks, name)) == name
    ensures ByName(hooks, name).Run? ==> ByName(hooks, name).hook in hooks
    ensures ByName(hooks, name).Stale? <==> forall h | h in hooks :: h.name != name
  {
    if hooks != [] {
      var n := |hooks| - 1;
      assert hooks == hooks[..n] + [hooks[n]];
      ByNameKeepsName(hooks[..n], name);
    }
  }

  lemma {:induction false} NothingChanged(hooks: seq<Hook>, c: Changed)
    requires c == Changed({}, {}, {})
    ensures FirstPass(hooks, c) == []
  {
    if hooks != [] {
      NothingChanged(hooks[..|hooks| - 1], c);
    }
  }

  // ----- what the pass did

  function Names(items: seq<Item>): seq<string> {
    if items == [] then [] else Names(items[..|items| - 1]) + [ItemName(items[|items| - 1])]
  }

  /** A hook of the same side effect was reloaded, and its unit answered that it works. */
  ghost predicate Worked(s: Pass, env: Env, key: string) {
    exists r | r in s.reloads ::
      (r.hook.action == "http" || r.hook.action == "signal") && !r.result.Skipped? && env(r.hook).ReloadWorks?
      && ExecutionKey(r.hook) == key
  }

  /** A hook of the same side effect failed and stays pending under its own name. */
  ghost predicate Owed(s: Pass, key: string) {
    exists r | r in s.reloads :: r.result.Failed? && ExecutionKey(r.hook) == key && r.hook.name in s.pending
  }

  /** What becomes of the change a hook announces: a reload worked, is still owed, or the unit is in
      the restart set. */
  ghost predicate Covered(s: Pass, env: Env, h: Hook) {
    h.unit in s.restartSet || Worked(s, env, ExecutionKey(h)) || Owed(s, ExecutionKey(h))
  }

  ghost predicate KeysOnce(s: Pass) {
    && s.executed == (set r | r in s.reloads :: ExecutionKey(r.hook))
    && forall i, j | 0 <= i < j < |s.reloads| :: ExecutionKey(s.reloads[i].hook) != ExecutionKey(s.reloads[j].hook)
  }

  /** The pending names are those of the hooks whose reload failed without a fallback. */
  ghost predicate PendingFailed(s: Pass) {
    && (forall r | r in s.reloads && r.result.Failed? :: r.hook.name in s.pending)
    && (forall n | n in s.pending :: exists r | r in s.reloads :: r.result.Failed? && r.hook.name == n)
  }

  /** A hook that reloads nothing, or gave its reload up, has its unit in the restart set. */
  ghost predicate RestartsInstead(s: Pass) {
    forall r | r in s.reloads && (r.result.Skipped? || r.result.FallbackRestart? || r.hook.action == RESTART) ::
      r.hook.unit in s.restartSet
  }

  ghost predicate PassInv(s: Pass, scheduled: set<string>, items: seq<Item>) {
    && s.restartSet == scheduled + s.restartUnits
    && s.attempted == Names(items)
    && KeysOnce(s) && PendingFailed(s) && RestartsInstead(s)
    && (forall h | Run(h) in items :: ExecutionKey(h) in s.executed)
    && (forall r | r in s.reloads :: Run(r.hook) in items)
  }

  lemma RunOneKeepsKeys(s: Pass, h: Hook, env: Env)
    requires KeysOnce(s)
    ensures KeysOnce(RunOne(s, h, env))
  {
    if ExecutionKey(h) !in s.executed {
      var t := RunOne(s, h, env);
      var r := t.reloads[|s.reloads|];
      assert t.reloads == s.reloads + [r];
      assert forall q :: q in t.reloads <==> q in s.reloads || q == r;
      assert forall i | 0 <= i < |s.reloads| :: s.reloads[i] in s.reloads;
    }
  }

  lemma RunOneKeepsPending(s: Pass, h: Hook, env: Env)
    requires PendingFailed(s)
    ensures PendingFailed(RunOne(s, h, env))
  {
    if ExecutionKey(h) !in s.executed {
      var t := RunOne(s, h, env);
      var r := t.reloads[|s.reloads|];
      assert t.reloads == s.reloads + [r];
      forall n | n in t.pending ensures exists q | q in t.reloads :: q.result.Failed? && q.hook.name == n {
        if n in s.pending {
          var q :| q in s.reloads && q.result.Failed? && q.hook.name == n;
          assert q in t.reloads;
        } else {
          assert r in t.reloads && r.result.Failed?;
        }
      }
    }
  }

  lemma RunOneRestarts(s: Pass, scheduled: set<string>, h: Hook, env: Env)
    requires s.restartSet == scheduled + s.restartUnits && RestartsInstead(s)
    ensures var t := RunOne(s, h, env); t.restartSet == scheduled + t.restartUnits && RestartsInstead(t)
  {
  }

  /** What a hook adds to the pass: its own attempt, and its reload unless its key ran before. */
  lemma RunOneAdds(s: Pass, h: Hook, env: Env)
    ensures var t := RunOne(s, h, env);
            && t.attempted == s.attempted + [h.name]
            && t.executed == s.executed + {ExecutionKey(h)}
            && (t.reloads == s.reloads || (|t.reloads| == |s.reloads| + 1 && t.reloads[..|s.reloads|] == s.reloads
              && t.reloads[|s.reloads|].hook == h))
  {
  }

  lemma RunOneKeepsInv(s: Pass, scheduled: set<string>, items: seq<Item>, h: Hook, env: Env)
    requires PassInv(s, scheduled, items)
    ensures PassInv(RunOne(s, h, env), scheduled, items + [Run(h)])
  {
    var t, all := RunOne(s, h, env), items + [Run(h)];
    assert all[..|items|] == items && all[|items|] == Run(h);
    RunOneKeepsKeys(s, h, env);
    RunOneKeepsPending(s, h, env);
    RunOneRestarts(s, scheduled, h, env);
    RunOneAdds(s, h, env);
    forall r | r in t.reloads ensures Run(r.hook) in all {
      var k :| 0 <= k < |t.reloads| && t.reloads[k] == r;
      if k < |s.reloads| {
        assert r == s.reloads[k];
        assert Run(r.hook) in items;
      }
    }
  }

  lemma {:induction false} PassInvHolds(scheduled: set<string>, items: seq<Item>, env: Env)
    ensures PassInv(RunItems(StartPass(scheduled), items, env), scheduled, items)
  {
    if items != [] {
      var n := |items| - 1;
      PassInvHolds(scheduled, items[..n], env);
      assert items == items[..n] + [items[n]];
      var s := RunItems(StartPass(scheduled), items[..n], env);
      if items[n].Run? {
        RunOneKeepsInv(s, scheduled, items[..n], items[n].hook, env);
      }
    }
  }

  // ----- which items there are

  ghost predicate UniqueNames(hooks: seq<Hook>) {
    forall i, j | 0 <= i < j < |hooks| :: hooks[i].name != hooks[j].name
  }

  lemma {:induction false} NamesMembers(items: seq<Item>)
    ensures forall n :: n in Names(items) <==> exists i | i in items :: ItemName(i) == n
  {
    if items != [] {
      NamesMembers(items[..|items| - 1]);
      assert items == items[..|items| - 1] + [items[|items| - 1]];
    }
  }

  lemma {:induction false} NamesConcat(a: seq<Item>, b: seq<Item>)
    ensures Names(a + b) == Names(a) + Names(b)
  {
    if b == [] {
      assert a + b == a;
    } else {
      var n := |b| - 1;
      NamesConcat(a, b[..n]);
      assert (a + b)[..|a| + n] == a + b[..n];
    }
  }

  lemma NamesSnoc(items: seq<Item>, i: Item)
    ensures Names(items + [i]) == Names(items) + [ItemName(i)]
  {
    assert (items + [i])[..|items|] == items;
  }

  lemma {:induction false} FirstPassItems(hooks: seq<Hook>, c: Changed)
    ensures forall i :: i in FirstPass(hooks, c) <==> i.Run? && i.hook in hooks && Matches(i.hook, c)
  {
    if hooks != [] {
      FirstPassItems(hooks[..|hooks| - 1], c);
      assert hooks == hooks[..|hooks| - 1] + [hooks[|hooks| - 1]];
    }
  }

  lemma {:induction false} FirstPassDistinct(hooks: seq<Hook>, c: Changed)
    requires UniqueNames(hooks)
    ensures Distinct(Names(FirstPass(hooks, c)))
  {
    if hooks != [] {
      var n := |hooks| - 1;
      FirstPassDistinct(hooks[..n], c);
      FirstPassItems(hooks[..n], c);
      NamesMembers(FirstPass(hooks[..n], c));
      assert hooks[n].name !in Names(FirstPass(hooks[..n], c));
      if Matches(hooks[n], c) {
        NamesSnoc(FirstPass(hooks[..n], c), Run(hooks[n]));
        DistinctConcat(Names(FirstPass(hooks[..n], c)), [hooks[n].name]);
      } else {
        assert FirstPass(hooks, c) == FirstPass(hooks[..n], c);
      }
    }
  }

  lemma {:induction false} SecondPassItems(hooks: seq<Hook>, c: Changed, pendingNames: seq<string>)
    ensures forall i :: i in SecondPass(hooks, c, pendingNames)
                        <==> exists n | n in pendingNames :: !InFirstPass(hooks, c, n) && i == ByName(hooks, n)
  {
    if pendingNames != [] {
      var n, name := |pendingNames| - 1, pendingNames[|pendingNames| - 1];
      SecondPassItems(hooks, c, pendingNames[..n]);
      assert pendingNames == pendingNames[..n] + [name];
    }
  }

  lemma {:induction false} SecondPassNames(hooks: seq<Hook>, c: Changed, pendingNames: seq<string>)
    ensures forall n ::
              n in Names(SecondPass(hooks, c, pendingNames)) <==> n in pendingNames && !InFirstPass(hooks, c, n)
    ensures Distinct(pendingNames) ==> Distinct(Names(SecondPass(hooks, c, pendingNames)))
  {
    if pendingNames != [] {
      var n, name := |pendingNames| - 1, pendingNames[|pendingNames| - 1];
      SecondPassNames(hooks, c, pendingNames[..n]);
      ByNameKeepsName(hooks, name);
      assert pendingNames == pendingNames[..n] + [name];
      var before := SecondPass(hooks, c, pendingNames[..n]);
      if InFirstPass(hooks, c, name) {
        assert SecondPass(hooks, c, pendingNames) == before;
      } else {
        NamesSnoc(before, ByName(hooks, name));
        if Distinct(pendingNames) {
          DistinctConcat(Names(before), [name]);
        }
      }
    }
  }

  /** The items are the triggered hooks and the pending names, each name once. */
  lemma ItemsNamed(hooks: seq<Hook>, c: Changed, pendingNames: seq<string>)
    requires UniqueNames(hooks) && Distinct(pendingNames)
    ensures Distinct(Names(ItemsOf(hooks, c, pendingNames)))
    ensures forall n :: n in Names(ItemsOf(hooks, c, pendingNames)) <==> n in pendingNames || InFirstPass(hooks, c, n)
  {
    var first := FirstPass(hooks, c);
    FirstPassItems(hooks, c);
    FirstPassDistinct(hooks, c);
    SecondPassNames(hooks, c, pendingNames);
    NamesConcat(first, SecondPass(hooks, c, pendingNames));
    NamesMembers(first);
    forall n ensures n in Names(first) <==> InFirstPass(hooks, c, n) {
      if InFirstPass(hooks, c, n) {
        var h :| h in hooks && h.name == n && Matches(h, c);
        assert Run(h) in first;
      }
    }
    DistinctConcat(Names(first), Names(SecondPass(hooks, c, pendingNames)));
  }

  /** A hook of that name watches a secret, manifest or file that changed. */
  ghost predicate TriggeredName(hooks: seq<Hook>, c: Changed, name: string) {
    exists h :: h in hooks && h.name == name
                && ((exists s :: s in h.secrets && s in c.secrets)
                    || (exists m :: m in h.manifests && m in c.manifests)
                    || (exists f :: f in h.files && f in c.files))
  }

  lemma TriggeredIsFirstPass(hooks: seq<Hook>, c: Changed, name: string)
    ensures TriggeredName(hooks, c, name) <==> InFirstPass(hooks, c, name)
  {
    forall h | h in hooks
      ensures Matches(h, c) <==>
              ((exists s :: s in h.secrets && s in c.secrets)
               || (exists m :: m in h.manifests && m in c.manifests)
               || (exists f :: f in h.files && f in c.files))
    {
    }
  }

  /** The first `k` attempts are of triggered hooks, the others of names that no change triggered. */
  ghost predicate TriggeredFirst(hooks: seq<Hook>, c: Changed, attempted: seq<string>, k: nat) {
    k <= |attempted|
    && (forall i | 0 <= i < k :: TriggeredName(hooks, c, attempted[i]))
    && forall i | k <= i < |attempted| :: !TriggeredName(hooks, c, attempted[i])
  }

  /** Every triggered hook and every pending name is attempted exactly once, a name no longer
      configured included, and the triggered ones first. */
  lemma AttemptedOnce(hooks: seq<Hook>, c: Changed, scheduled: set<string>, pendingNames: seq<string>, env: Env)
    requires UniqueNames(hooks) && Distinct(pendingNames)
    ensures var s := RunHooks(hooks, c, scheduled, pendingNames, env);
            && Distinct(s.attempted)
            && (forall n :: n in s.attempted <==> n in pendingNames || TriggeredName(hooks, c, n))
            && TriggeredFirst(hooks, c, s.attempted, |Names(FirstPass(hooks, c))|)
  {
    ItemsNamed(hooks, c, pendingNames);
    PassInvHolds(scheduled, ItemsOf(hooks, c, pendingNames), env);
    forall n ensures TriggeredName(hooks, c, n) <==> InFirstPass(hooks, c, n) { TriggeredIsFirstPass(hooks, c, n); }
    var first, second := Names(FirstPass(hooks, c)), Names(SecondPass(hooks, c, pendingNames));
    NamesConcat(FirstPass(hooks, c), SecondPass(hooks, c, pendingNames));
    FirstPassItems(hooks, c);
    NamesMembers(FirstPass(hooks, c));
    SecondPassNames(hooks, c, pendingNames);
    forall i | 0 <= i < |first| ensures InFirstPass(hooks, c, (first + second)[i]) {
      assert (first + second)[i] in first;
    }
    forall i | |first| <= i < |first + second| ensures !InFirstPass(hooks, c, (first + second)[i]) {
      assert (first + second)[i] in second;
    }
  }

  /** The reloader runs at most once per side effect. */
  lemma ReloadedOnce(
    hooks: seq<Hook>, c: Changed, scheduled: set<string>, pendingNames: seq<string>, env: Env, i: nat, j: nat)
    requires forall h | h in hooks :: Normal(h)
    requires i < j < |RunHooks(hooks, c, scheduled, pendingNames, env).reloads|
    ensures var r := RunHooks(hooks, c, scheduled, pendingNames, env).reloads;
            !SameEffect(r[i].hook, r[j].hook)
  {
    var s := RunHooks(hooks, c, scheduled, pendingNames, env);
    var items := ItemsOf(hooks, c, pendingNames);
    PassInvHolds(scheduled, items, env);
    RunItemsAreConfigured(hooks, c, pendingNames);
    assert s.reloads[i] in s.reloads && s.reloads[j] in s.reloads;
    KeyIsSideEffect(s.reloads[i].hook, s.reloads[j].hook);
  }

  lemma RunItemsAreConfigured(hooks: seq<Hook>, c: Changed, pendingNames: seq<string>)
    ensures forall i | i in ItemsOf(hooks, c, pendingNames) && i.Run? :: i.hook in hooks
  {
    FirstPassItems(hooks, c);
    SecondPassItems(hooks, c, pendingNames);
    forall n { ByNameKeepsName(hooks, n); }
  }

  /** Every reload recorded as a success is of a hook whose unit answered that it works. */
  ghost predicate Answered(s: Pass, env: Env) {
    forall r | r in s.reloads && r.result.Success? && r.hook.action != RESTART ::
      (r.hook.action == "http" || r.hook.action == "signal") && env(r.hook).ReloadWorks?
  }

  lemma RunOneAnswered(s: Pass, h: Hook, env: Env)
    requires Answered(s, env)
    ensures Answered(RunOne(s, h, env), env)
  {
    RunOneAdds(s, h, env);
    var t := RunOne(s, h, env);
    forall r | r in t.reloads ensures r in s.reloads || r == t.reloads[|s.reloads|] {
      var k :| 0 <= k < |t.reloads| && t.reloads[k] == r;
      assert k < |s.reloads| ==> r == s.reloads[k];
    }
  }

  lemma {:induction false} ReloadsAnswered(scheduled: set<string>, items: seq<Item>, env: Env)
    ensures Answered(RunItems(StartPass(scheduled), items, env), env)
  {
    if items != [] {
      var n := |items| - 1;
      ReloadsAnswered(scheduled, items[..n], env);
      if items[n].Run? {
        RunOneAnswered(RunItems(StartPass(scheduled), items[..n], env), items[n].hook, env);
      }
    }
  }

  /** No announced change is lost to the dedup: each triggered or pending hook's reload worked, is owed
      by a hook that stays pending, or its unit is in the restart set. */
  lemma NothingLost(hooks: seq<Hook>, c: Changed, scheduled: set<string>, pendingNames: seq<string>, env: Env, h: Hook)
    requires forall g | g in hooks :: Normal(g)
    requires Run(h) in ItemsOf(hooks, c, pendingNames)
    ensures Covered(RunHooks(hooks, c, scheduled, pendingNames, env), env, h)
  {
    var s := RunHooks(hooks, c, scheduled, pendingNames, env);
    PassInvHolds(scheduled, ItemsOf(hooks, c, pendingNames), env);
    RunItemsAreConfigured(hooks, c, pendingNames);
    assert ExecutionKey(h) in s.executed;
    var r :| r in s.reloads && ExecutionKey(r.hook) == ExecutionKey(h);
    KeyIsSideEffect(r.hook, h);
    ReloadsAnswered(scheduled, ItemsOf(hooks, c, pendingNames), env);
  }

  // ----- one hook's turn

  /** What a hook does at its turn, by how its unit and its reload answer. A side effect already had,
      and a reload of a unit that is restarted anyway, do nothing; a restart hook schedules its unit; a
      reload that fails is owed, or has the unit restarted when the hook says so. */
  lemma TurnExact(s: Pass, h: Hook, env: Env)
    requires Normal(h)
    ensures var t := RunOne(s, h, env);
            var idle := ExecutionKey(h) in s.executed || (h.unit in s.restartSet && h.action != "restart");
            var fails := !idle && h.action != "restart" && !env(h).ReloadWorks?;
            var restarts := (!idle && h.action == "restart") || (fails && h.onFailure == "restart");
            && t.attempted == s.attempted + [h.name]
            && t.pending == s.pending + (if fails && !restarts then [h.name] else [])
            && t.fallback == s.fallback + (if fails && restarts then [h.unit] else [])
            && t.restartUnits == s.restartUnits + (if restarts then {h.unit} else {})
            && t.restartSet == s.restartSet + (if restarts then {h.unit} else {})
  {
  }

  /** What one item adds stays. */
  ghost predicate Grows(s: Pass, t: Pass) {
    s.pending <= t.pending && s.fallback <= t.fallback && s.restartUnits <= t.restartUnits
  }

  lemma {:induction false} PassGrows(s: Pass, items: seq<Item>, n: nat, env: Env)
    requires n <= |items|
    ensures Grows(RunItems(s, items[..n], env), RunItems(s, items, env))
    decreases |items|
  {
    if n < |items| {
      var before := items[..|items| - 1];
      assert before[..n] == items[..n];
      PassGrows(s, before, n, env);
    } else {
      assert items[..n] == items;
    }
  }

  /** A side effect has not been had when no hook before had it. */
  lemma KeyIsNew(scheduled: set<string>, items: seq<Item>, env: Env, h: Hook)
    requires Normal(h) && forall g | Run(g) in items :: Normal(g) && !SameEffect(g, h)
    ensures ExecutionKey(h) !in RunItems(StartPass(scheduled), items, env).executed
  {
    PassInvHolds(scheduled, items, env);
    var s := RunItems(StartPass(scheduled), items, env);
    forall r | r in s.reloads ensures ExecutionKey(r.hook) != ExecutionKey(h) {
      KeyIsSideEffect(r.hook, h);
    }
  }

  /** The turn of a reload that is neither a repetition nor covered by a restart. */
  lemma ReloadTurn(s: Pass, h: Hook, env: Env)
    requires Normal(h) && h.action != "restart" && ExecutionKey(h) !in s.executed && h.unit !in s.restartSet
    ensures var t := RunOne(s, h, env);
            if env(h).ReloadWorks? then t.pending == s.pending && t.fallback == s.fallback
              && t.restartUnits == s.restartUnits
            else if h.onFailure == "restart" then h.unit in t.fallback && h.unit in t.restartUnits
            else h.name in t.pending
  {
    TurnExact(s, h, env);
    var t := RunOne(s, h, env);
    if !env(h).ReloadWorks? {
      if h.onFailure == "restart" {
        assert t.fallback[|s.fallback|] == h.unit;
      } else {
        assert t.pending[|s.pending|] == h.name;
      }
    }
  }

  lemma ItemTurn(start: Pass, items: seq<Item>, i: nat, env: Env)
    requires i < |items| && items[i].Run? && items[i].hook.action != "restart" && Normal(items[i].hook)
    requires ExecutionKey(items[i].hook) !in RunItems(start, items[..i], env).executed
    requires items[i].hook.unit !in RunItems(start, items[..i], env).restartSet
    ensures var h, t, u := items[i].hook, RunItems(start, items[..i], env), RunItems(start, items[..i + 1], env);
            if env(h).ReloadWorks? then u.pending == t.pending && u.fallback == t.fallback
              && u.restartUnits == t.restartUnits
            else if h.onFailure == "restart" then h.unit in u.fallback && h.unit in u.restartUnits
            else h.name in u.pending
  {
    assert items[..i + 1] == items[..i] + [items[i]];
    RunItemsStep(start, items[..i], items[i], env);
    ReloadTurn(RunItems(start, items[..i], env), items[i].hook, env);
  }

  lemma ItemOwed(scheduled: set<string>, items: seq<Item>, i: nat, env: Env)
    requires i < |items| && items[i].Run? && items[i].hook.action != "restart"
    requires Normal(items[i].hook) && forall g | Run(g) in items[..i] :: Normal(g) && !SameEffect(g, items[i].hook)
    requires items[i].hook.unit !in RunItems(StartPass(scheduled), items[..i], env).restartSet
    ensures var h, s := items[i].hook, RunItems(StartPass(scheduled), items, env);
            var t, u := RunItems(StartPass(scheduled), items[..i], env),
              RunItems(StartPass(scheduled), items[..i + 1], env);
            if env(h).ReloadWorks? then u.pending == t.pending && u.fallback == t.fallback
              && u.restartUnits == t.restartUnits
            else if h.onFailure == "restart" then h.unit in s.fallback && h.unit in s.restartUnits
            else h.name in s.pending
  {
    KeyIsNew(scheduled, items[..i], env, items[i].hook);
    ItemTurn(StartPass(scheduled), items, i, env);
    PassGrows(StartPass(scheduled), items, i + 1, env);
  }

  /** The first reload of a side effect, of a unit that is not restarted anyway: when its unit is down
      or the reload fails, the hook stays pending, or its unit is restarted when the hook says so; when
      the reload works, the turn adds neither. */
  lemma FailedReloadOwed(
    hooks: seq<Hook>, c: Changed, scheduled: set<string>, pendingNames: seq<string>, env: Env, i: nat)
    requires forall g | g in hooks :: Normal(g)
    requires var items := ItemsOf(hooks, c, pendingNames);
             && i < |items| && items[i].Run? && items[i].hook.action != "restart"
             && (forall g | Run(g) in items[..i] :: !SameEffect(g, items[i].hook))
             && items[i].hook.unit !in RunItems(StartPass(scheduled), items[..i], env).restartSet
    ensures var items := ItemsOf(hooks, c, pendingNames);
            var h, s := items[i].hook, RunHooks(hooks, c, scheduled, pendingNames, env);
            var t, u := RunItems(StartPass(scheduled), items[..i], env),
              RunItems(StartPass(scheduled), items[..i + 1], env);
            if env(h).ReloadWorks? then u.pending == t.pending && u.fallback == t.fallback
              && u.restartUnits == t.restartUnits
            else if h.onFailure == "restart" then h.unit in s.fallback && h.unit in s.restartUnits
            else h.name in s.pending
  {
    var items := ItemsOf(hooks, c, pendingNames);
    RunItemsAreConfigured(hooks, c, pendingNames);
    forall g | Run(g) in items[..i] ensures Normal(g) {
      assert Run(g) in items;
    }
    assert items[i] in items;
    ItemOwed(scheduled, items, i, env);
  }
}
