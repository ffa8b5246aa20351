/** The dry run: the state of every step, read through the fact cache (pkg/machine/evaluate.go:13-77). */
module Evaluate {
  import opened Machine

  datatype Status = StatusWouldDo | StatusDone | StatusUnknown

  datatype Result = Result(step: Step, status: Status)

  datatype Evaluation = Aborted(at: nat) | Evaluated(results: seq<Result>)

  predicate Breaking(c: Checked) { c.CheckError? && !c.unprivileged }

  function StatusOf(c: Checked): Status {
    match c
    case Done => StatusDone
    case WouldDo(_) => StatusWouldDo
    case CheckError(_) => StatusUnknown
  }

  /** The check of a step of the plan, made with no cache. */
  function CheckOn(ops: HostOps, w: World, s: Step): Checked { Check(ops, AccountOf(w, s.host), w.tree, s) }

  /** The facts of each Host are its own, and fresh. */
  ghost predicate AllFresh(ops: HostOps, w: World, plan: seq<Step>, facts: map<string, HostFacts>)
    reads facts.Values
  {
    && (forall g, h | g in facts && h in facts && g != h :: facts[g] != facts[h])
    && forall s | s in plan && s.host.hostname in facts ::
        Fresh(ops, AccountOf(w, s.host), facts[s.host.hostname].AsFacts())
  }

  /** One step's check through its Host's facts. */
  method CheckFresh(ops: HostOps, w: World, plan: seq<Step>, facts: map<string, HostFacts>, s: Step)
    returns (c: Checked)
    requires s in plan && DistinctHosts(plan) && AllFresh(ops, w, plan, facts) && s.host.hostname in facts
    modifies facts.Values
    ensures c == CheckOn(ops, w, s) && AllFresh(ops, w, plan, facts)
  {
    var f := facts[s.host.hostname];
    CacheCoherent(ops, AccountOf(w, s.host), w.tree, f.AsFacts(), s);
    c := f.CheckStep(ops, AccountOf(w, s.host), w.tree, s);
    assert forall t | t in plan && t.host.hostname == s.host.hostname :: AccountOf(w, t.host) == AccountOf(w, s.host);
  }

  /** Fact cache coherence of an evaluation: it reports, in plan order, what each check finds on its
      own, and aborts at the first check that breaks. */
  method Evaluate(ops: HostOps, w: World, plan: seq<Step>) returns (e: Evaluation)
    requires DistinctHosts(plan)
    ensures e.Aborted? ==> e.at < |plan| && CheckOn(ops, w, plan[e.at]) == CheckError(false)
    ensures var n := if e.Aborted? then e.at else |plan|;
            forall i | 0 <= i < n :: CheckOn(ops, w, plan[i]) != CheckError(false)
    ensures e.Evaluated? ==>
              |e.results| == |plan| && forall i | 0 <= i < |plan| ::
                  && e.results[i].step == plan[i]
                  && match CheckOn(ops, w, plan[i])
                     case Done => e.results[i].status == StatusDone
                     case WouldDo(_) => e.results[i].status == StatusWouldDo
                     case CheckError(_) => e.results[i].status == StatusUnknown
  {
    var facts: map<string, HostFacts> := map[];
    var results: seq<Result> := [];
    for i := 0 to |plan|
      invariant fresh(facts.Values) && AllFresh(ops, w, plan, facts)
      invariant |results| == i
      invariant forall j | 0 <= j < i :: !Breaking(CheckOn(ops, w, plan[j]))
      invariant forall j | 0 <= j < i :: results[j] == Result(plan[j], StatusOf(CheckOn(ops, w, plan[j])))
    {
      var s := plan[i];
      if s.host.hostname !in facts {
        var f := new HostFacts();
        AddedValue(facts, s.host.hostname, f);
        facts := facts[s.host.hostname := f];
      }
      var c := CheckFresh(ops, w, plan, facts, s);
      if Breaking(c) {
        return Aborted(i);
      }
      results := results + [Result(s, StatusOf(c))];
    }
    return Evaluated(results);
  }

  lemma AddedValue<V>(m: map<string, V>, k: string, v: V)
    ensures m[k := v].Values <= m.Values + {v}
  {
    forall x | x in m[k := v].Values ensures x in m.Values + {v} {
      var g :| g in m[k := v] && m[k := v][g] == x;
      assert g != k ==> g in m && m[g] == x;
    }
  }
}
