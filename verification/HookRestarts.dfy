/** What becomes of the units in the restart set after the hooks (pkg/applier/applier.go:434-447). */
module HookRestarts {
  import Hooks
  import Restarts
  import Units
  import opened Disposal

  /** ApplyWithPending's merge: the hooks' units join those changed. */
  function AfterHooks(p: Restarts.Phase, s: Hooks.Pass): Restarts.Phase {
    p.(changedUnits := p.changedUnits + s.restartUnits)
  }

  /** The pass over the hooks of an apply that changed what `p` says. */
  function PassFor(
    p: Restarts.Phase, hooks: seq<Hooks.Hook>, c: Hooks.Changed, names: seq<string>, env: Hooks.Env): Hooks.Pass
  {
    Hooks.RunHooks(hooks, c, p.changedUnits, names, env)
  }

  /** The restart set the hooks see in the end is what the apply then restarts. */
  lemma RestartSetIsMerged(
    p: Restarts.Phase, hooks: seq<Hooks.Hook>, c: Hooks.Changed, names: seq<string>, env: Hooks.Env)
    ensures var s := PassFor(p, hooks, c, names, env); AfterHooks(p, s).changedUnits == s.restartSet
  {
    Hooks.PassInvHolds(p.changedUnits, Hooks.ItemsOf(hooks, c, names), env);
  }

  /** The calls that restart the unit, in this apply or deferred. */
  function RestartCalls(r: Run, unit: string): nat {
    SyncRestarts(r.Trace().calls, unit) + DeferredRestarts(r.Trace().calls, unit)
  }

  /** The unit's turn leaves it alone: a timer's one-shot written in this apply, a consumer that
      systemd starts itself, or one whose status cannot be read. */
  predicate LeftAlone(r: Run, unit: string) {
    unit !in r.self && ((unit in r.Ordinary() && r.Gated(unit)) || (unit in r.Consumers() && r.Left(unit)))
  }

  predicate HasTurn(r: Run, unit: string) { unit in r.Ordinary() || unit in r.Consumers() }

  /** A unit in the restart set is a build, left to its pod, or has a turn; it is restarted by exactly one
      call when it has a turn that does not leave it alone, and by none otherwise. */
  lemma RestartSetDisposed(r: Run, unit: string)
    requires Restarts.Lists(r.sort) && unit in r.p.changedUnits
    ensures unit in Restarts.BuildSet(r.p) || unit in Restarts.Covered(r.p) || HasTurn(r, unit)
    ensures RestartCalls(r, unit) == if HasTurn(r, unit) && !LeftAlone(r, unit) then 1 else 0
  {
    SyncRestartsExact(r, unit);
    DeferredRestartsExact(r, unit);
  }

  /** What becomes of the change a triggered or pending hook announces: its reload worked, is owed by a
      hook that stays pending, or its unit is a build, left to its pod, restarted by one call, or left
      alone by its turn, and then by no call. */
  lemma HookReaches(
    p: Restarts.Phase, hooks: seq<Hooks.Hook>, c: Hooks.Changed, names: seq<string>, env: Hooks.Env, h: Hooks.Hook,
      r: Run)
    requires forall g | g in hooks :: Hooks.Normal(g)
    requires Hooks.Run(h) in Hooks.ItemsOf(hooks, c, names)
    requires Restarts.Lists(r.sort) && r.p == AfterHooks(p, PassFor(p, hooks, c, names, env))
    ensures var s, key := PassFor(p, hooks, c, names, env), Hooks.ExecutionKey(h);
            || Hooks.Worked(s, env, key) || Hooks.Owed(s, key)
            || h.unit in Restarts.BuildSet(r.p) || h.unit in Restarts.Covered(r.p)
            || (HasTurn(r, h.unit) && (RestartCalls(r, h.unit) == 0 <==> LeftAlone(r, h.unit))
                && (RestartCalls(r, h.unit) == 1 <==> !LeftAlone(r, h.unit)))
  {
    Hooks.NothingLost(hooks, c, p.changedUnits, names, env, h);
    RestartSetIsMerged(p, hooks, c, names, env);
    if h.unit in r.p.changedUnits {
      RestartSetDisposed(r, h.unit);
    }
  }

  // ----- a hook's unit that is not restarted

  function RestartHook(name: string, secret: string, unit: string): Hooks.Hook {
    Hooks.Hook(name, [secret], [], [], unit, Hooks.RESTART, "", "", "", "", "", "", 0)
  }

  lemma OneRestartHook(h: Hooks.Hook, c: Hooks.Changed, scheduled: set<string>, env: Hooks.Env)
    requires Hooks.Matches(h, c) && h.action == Hooks.RESTART
    ensures Hooks.ItemsOf([h], c, []) == [Hooks.Run(h)]
    ensures var s := Hooks.RunHooks([h], c, scheduled, [], env); s.restartUnits == {h.unit} && s.pending == []
  {
    assert [h][..0] == [];
    assert Hooks.FirstPass([h], c) == [Hooks.Run(h)];
    assert [Hooks.Run(h)] + [] == [Hooks.Run(h)];
    var start := Hooks.StartPass(scheduled);
    assert [Hooks.Run(h)][..0] == [];
    assert Hooks.RunItems(start, [Hooks.Run(h)], env) == Hooks.RunOne(start, h, env);
  }

  /** One commit updates a timer's one-shot and the secret its restart hook names: the hook schedules
      the unit, nothing stays pending, and no call restarts it. */
  lemma TimersJobNotRestarted(henv: Hooks.Env, env: Restarts.Env, sort: set<string> -> seq<string>)
    requires Restarts.Lists(sort)
    requires env.query("backup.service").Some? && Units.TimerTriggered(env.query("backup.service").value)
    ensures var unit, h := "backup.service", RestartHook("rotate", "backup-key", "backup.service");
            var p := Restarts.Phase({unit}, {unit}, map[], map[], [], [], [], true);
            var c := Hooks.Changed({"backup-key"}, {}, {});
            var s := PassFor(p, [h], c, [], henv);
            var r := Run(AfterHooks(p, s), map[], {}, [], env, sort);
            && Hooks.Run(h) in Hooks.ItemsOf([h], c, []) && s.restartUnits == {unit} && s.pending == []
            && RestartCalls(r, unit) == 0 && unit !in r.Trace().failed
  {
    var unit, h := "backup.service", RestartHook("rotate", "backup-key", "backup.service");
    var p := Restarts.Phase({unit}, {unit}, map[], map[], [], [], [], true);
    var c := Hooks.Changed({"backup-key"}, {}, {});
    assert "backup-key" in h.secrets;
    OneRestartHook(h, c, {unit}, henv);
    var r := Run(AfterHooks(p, PassFor(p, [h], c, [], henv)), map[], {}, [], env, sort);
    RestartSetDisposed(r, unit);
    TurnRecorded(r, unit);
  }
}
