/** Workflow graphs: steps, outcome-routed transitions, and the loop budget of
    the edges. Budgets are kept per text key, so different edges may share one. */
module Workflows {
  import opened Text
  import opened Numbers
  import opened Sequences

  datatype StepOutcome = Success | Retryable | Fatal | Fixable | Abandon | Wait

  function ConditionStr(o: StepOutcome): string
  {
    match o
    case Success => "success"
    case Retryable => "retryable"
    case Fatal => "fatal"
    case Fixable => "fixable"
    case Abandon => "abandon"
    case Wait => "wait"
  }

  /** `registered`: an executor exists for the step's type. `cleanup`: the step
      is a terminal step of the failure-cleanup type. */
  datatype Step = Step(id: string, registered: bool, cleanup: bool)

  datatype Transition = Transition(from: string, to: string, condition: Option<string>, maxIterations: Option<nat>)

  datatype Workflow = Workflow(steps: seq<Step>, transitions: seq<Transition>, maxLoops: nat)

  /** All limits fit the source's 32-bit counters. */
  ghost predicate LimitsFit(wf: Workflow)
  {
    wf.maxLoops <= U32_MAX &&
    forall t :: t in wf.transitions && t.maxIterations.Some? ==> t.maxIterations.value <= U32_MAX
  }

  // ----- routing

  predicate Applies(t: Transition, from: string, o: StepOutcome)
  {
    t.from == from && (if t.condition.Some? then t.condition.value == ConditionStr(o) else o == Success)
  }

  /** A transition without a condition applies to success; one with a condition to
      the outcome of that name, and to none if there is no such outcome. */
  lemma AppliesExactly(t: Transition, from: string, o: StepOutcome)
    ensures Applies(t, from, o) <==>
      && t.from == from
      && match o
         case Success => t.condition.None? || t.condition == Some("success")
         case Retryable => t.condition == Some("retryable")
         case Fatal => t.condition == Some("fatal")
         case Fixable => t.condition == Some("fixable")
         case Abandon => t.condition == Some("abandon")
         case Wait => t.condition == Some("wait")
  {}

  /** The first transition in declaration order that applies. */
  function FirstMatch(ts: seq<Transition>, from: string, o: StepOutcome): (r: Option<Transition>)
    ensures r.Some? ==> r.value in ts && Applies(r.value, from, o)
    ensures r.None? <==> forall t :: t in ts ==> !Applies(t, from, o)
  {
    if ts == [] then None
    else if Applies(ts[0], from, o) then Some(ts[0])
    else FirstMatch(ts[1..], from, o)
  }

  function TargetOf(t: Option<Transition>): Option<string> { if t.Some? then Some(t.value.to) else None }

  lemma {:induction false} FirstMatchAt(ts: seq<Transition>, from: string, o: StepOutcome, i: nat)
    requires i < |ts| && Applies(ts[i], from, o) && forall j :: 0 <= j < i ==> !Applies(ts[j], from, o)
    ensures FirstMatch(ts, from, o) == Some(ts[i])
  {
    if i > 0 { FirstMatchAt(ts[1..], from, o, i - 1); }
  }

  /** The routing scan: where to go next. */
  method ResolveTransition(step: string, o: StepOutcome, ts: seq<Transition>) returns (next: Option<string>)
    ensures next == TargetOf(FirstMatch(ts, step, o))
  {
    for i := 0 to |ts|
      invariant forall j :: 0 <= j < i ==> !Applies(ts[j], step, o)
    {
      if ts[i].from == step {
        if ts[i].condition.Some? {
          if ts[i].condition.value == ConditionStr(o) {
            FirstMatchAt(ts, step, o, i);
            return Some(ts[i].to);
          }
        } else if o == Success {
          FirstMatchAt(ts, step, o, i);
          return Some(ts[i].to);
        }
      }
    }
    return None;
  }

  /** The budget scan: which edge was taken. It is a separate lookup in the
      source and agrees with the routing scan. */
  method FindTransition(step: string, o: StepOutcome, ts: seq<Transition>) returns (t: Option<Transition>)
    ensures t == FirstMatch(ts, step, o)
  {
    for i := 0 to |ts|
      invariant forall j :: 0 <= j < i ==> !Applies(ts[j], step, o)
    {
      if ts[i].from == step {
        if ts[i].condition.Some? {
          if ts[i].condition.value == ConditionStr(o) {
            FirstMatchAt(ts, step, o, i);
            return Some(ts[i]);
          }
        } else if o == Success {
          FirstMatchAt(ts, step, o, i);
          return Some(ts[i]);
        }
      }
    }
    return None;
  }

  // ----- steps and limited edges

  /** The position of the first step with this id. */
  function Index(steps: seq<Step>, id: string): (r: Option<nat>)
    ensures r.Some? ==> r.value < |steps| && steps[r.value].id == id
    ensures r.Some? ==> forall i :: 0 <= i < r.value ==> steps[i].id != id
    ensures r.None? <==> forall s :: s in steps ==> s.id != id
  {
    if steps == [] then None
    else if steps[0].id == id then Some(0)
    else match Index(steps[1..], id) case None => None case Some(i) => Some(i + 1)
  }

  predicate IsCleanup(wf: Workflow, id: string) { exists s :: s in wf.steps && s.id == id && s.cleanup }

  /** A step more is a cleanup step if it says so, whatever others share its id. */
  lemma CleanupSteps(wf: Workflow, s: Step, id: string)
    ensures IsCleanup(wf.(steps := []), id) == false
    ensures IsCleanup(wf.(steps := [s] + wf.steps), id) <==> (s.id == id && s.cleanup) || IsCleanup(wf, id)
  {
    var more := [s] + wf.steps;
    assert s == more[0] && forall x :: x in more <==> x == s || x in wf.steps;
  }

  predicate IsLoopBack(wf: Workflow, from: string, to: string)
  {
    var curr, next := Index(wf.steps, from), Index(wf.steps, to);
    curr.Some? && next.Some? && next.value <= curr.value
  }

  predicate Limited(wf: Workflow, t: Transition) { IsLoopBack(wf, t.from, t.to) || t.maxIterations.Some? }

  /** An edge is limited exactly when it sets a limit, or leads from a step to that
      step or one listed before it. */
  lemma LimitedExactly(wf: Workflow, t: Transition)
    ensures Limited(wf, t) <==>
            || t.maxIterations.Some?
            || exists i, j :: 0 <= j <= i < |wf.steps| && FirstAt(wf.steps, t.from, i) && FirstAt(wf.steps, t.to, j)
  {
    var curr, next := Index(wf.steps, t.from), Index(wf.steps, t.to);
    if curr.Some? && next.Some? {
      assert FirstAt(wf.steps, t.from, curr.value) && FirstAt(wf.steps, t.to, next.value);
    }
  }

  predicate FirstAt(steps: seq<Step>, id: string, i: nat)
  {
    i < |steps| && steps[i].id == id && forall j :: 0 <= j < i ==> steps[j].id != id
  }

  function EdgeKey(from: string, to: string): string { from + ":" + to }

  function KeyOf(t: Transition): string { EdgeKey(t.from, t.to) }

  function LimitOf(wf: Workflow, t: Transition): nat
  {
    if t.maxIterations.Some? then t.maxIterations.value else wf.maxLoops
  }

  /** The largest limit of any limited transition with this key. */
  function LargestLimit(wf: Workflow, ts: seq<Transition>, key: string): nat
  {
    if ts == [] then 0
    else
      var rest := LargestLimit(wf, ts[1..], key);
      if Limited(wf, ts[0]) && KeyOf(ts[0]) == key then Max(LimitOf(wf, ts[0]), rest) else rest
  }

  function KeyLimit(wf: Workflow, key: string): nat { LargestLimit(wf, wf.transitions, key) }

  /** The keys of the limited transitions, each once. */
  function LimitedKeys(wf: Workflow, ts: seq<Transition>): seq<string>
  {
    if ts == [] then []
    else
      var rest := LimitedKeys(wf, ts[1..]);
      if Limited(wf, ts[0]) && KeyOf(ts[0]) !in rest then [KeyOf(ts[0])] + rest else rest
  }

  lemma {:induction false} LimitedKeysDistinct(wf: Workflow, ts: seq<Transition>)
    ensures NoDuplicates(LimitedKeys(wf, ts))
  {
    if ts != [] { LimitedKeysDistinct(wf, ts[1..]); }
  }

  lemma {:induction false} LargestLimitBounds(wf: Workflow, ts: seq<Transition>, t: Transition)
    requires t in ts && Limited(wf, t)
    ensures LimitOf(wf, t) <= LargestLimit(wf, ts, KeyOf(t)) && KeyOf(t) in LimitedKeys(wf, ts)
  {
    if t != ts[0] { LargestLimitBounds(wf, ts[1..], t); }
    else if t in ts[1..] { LargestLimitBounds(wf, ts[1..], t); }
  }

  /** The largest limit of a key is the limit of one of its transitions. */
  lemma {:induction false} LargestLimitAttained(wf: Workflow, ts: seq<Transition>, key: string)
    requires key in LimitedKeys(wf, ts)
    ensures exists t :: t in ts && Limited(wf, t) && KeyOf(t) == key && LimitOf(wf, t) == LargestLimit(wf, ts, key)
  {
    var rest := ts[1..];
    if key in LimitedKeys(wf, rest) {
      LargestLimitAttained(wf, rest, key);
      var t :| t in rest && Limited(wf, t) && KeyOf(t) == key && LimitOf(wf, t) == LargestLimit(wf, rest, key);
      assert t in ts;
    } else {
      NoLimitElsewhere(wf, rest, key);
    }
    assert ts[0] in ts;
  }

  lemma {:induction false} NoLimitElsewhere(wf: Workflow, ts: seq<Transition>, key: string)
    requires key !in LimitedKeys(wf, ts)
    ensures LargestLimit(wf, ts, key) == 0
  {
    if ts != [] { NoLimitElsewhere(wf, ts[1..], key); }
  }

  lemma {:induction false} LargestLimitFits(wf: Workflow, ts: seq<Transition>, key: string)
    requires LimitsFit(wf) && forall t :: t in ts ==> t in wf.transitions
    ensures LargestLimit(wf, ts, key) <= U32_MAX
  {
    if ts != [] { LargestLimitFits(wf, ts[1..], key); }
  }

  // ----- the loop budget

  type EdgeCounts = map<string, nat>

  function CountOf(counts: EdgeCounts, key: string): nat { if key in counts then counts[key] else 0 }

  /** Only limited edges are counted, and no count passes the largest limit of its key. */
  ghost predicate WithinLimits(wf: Workflow, counts: EdgeCounts)
  {
    forall k :: k in counts ==> k in LimitedKeys(wf, wf.transitions) && counts[k] <= KeyLimit(wf, k)
  }

  /** How many more limited transitions the counters allow. */
  ghost function Left(wf: Workflow, counts: EdgeCounts, keys: seq<string>): nat
    requires WithinLimits(wf, counts)
  {
    if keys == [] then 0 else KeyLimit(wf, keys[0]) - CountOf(counts, keys[0]) + Left(wf, counts, keys[1..])
  }

  ghost function Remaining(wf: Workflow, counts: EdgeCounts): nat
    requires WithinLimits(wf, counts)
  {
    Left(wf, counts, LimitedKeys(wf, wf.transitions))
  }

  /** The whole budget: the largest limits of the distinct keys, summed. */
  ghost function Capacity(wf: Workflow): nat { Remaining(wf, map[]) }

  function Sum(counts: EdgeCounts, keys: seq<string>): nat
  {
    if keys == [] then 0 else CountOf(counts, keys[0]) + Sum(counts, keys[1..])
  }

  /** What is spent and what is left make up the whole budget. */
  lemma {:induction false} SpentAndLeft(wf: Workflow, counts: EdgeCounts, keys: seq<string>)
    requires WithinLimits(wf, counts)
    ensures Sum(counts, keys) + Left(wf, counts, keys) == Left(wf, map[], keys)
  {
    if keys != [] { SpentAndLeft(wf, counts, keys[1..]); }
  }

  lemma {:induction false} LeftElsewhere(wf: Workflow, counts: EdgeCounts, keys: seq<string>, key: string, n: nat)
    requires WithinLimits(wf, counts) && WithinLimits(wf, counts[key := n]) && key !in keys
    ensures Left(wf, counts[key := n], keys) == Left(wf, counts, keys)
  {
    if keys != [] { LeftElsewhere(wf, counts, keys[1..], key, n); }
  }

  lemma {:induction false} LeftDrops(wf: Workflow, counts: EdgeCounts, keys: seq<string>, key: string)
    requires WithinLimits(wf, counts) && WithinLimits(wf, counts[key := CountOf(counts, key) + 1])
    requires key in keys && NoDuplicates(keys)
    ensures Left(wf, counts[key := CountOf(counts, key) + 1], keys) == Left(wf, counts, keys) - 1
  {
    if keys[0] == key {
      assert key !in keys[1..] by {
        assert forall i :: 0 <= i < |keys[1..]| ==> keys[1..][i] == keys[i + 1] != keys[0];
      }
      LeftElsewhere(wf, counts, keys[1..], key, CountOf(counts, key) + 1);
    } else {
      LeftDrops(wf, counts, keys[1..], key);
    }
  }

  /** Taking a limited edge whose counter is below its limit spends one unit,
      even when other edges share the key or carry a larger limit. */
  lemma SpendOne(wf: Workflow, counts: EdgeCounts, t: Transition)
    requires WithinLimits(wf, counts) && t in wf.transitions && Limited(wf, t)
    requires CountOf(counts, KeyOf(t)) < LimitOf(wf, t)
    ensures var after := counts[KeyOf(t) := CountOf(counts, KeyOf(t)) + 1];
      WithinLimits(wf, after) && Remaining(wf, after) == Remaining(wf, counts) - 1
  {
    LargestLimitBounds(wf, wf.transitions, t);
    var keys := LimitedKeys(wf, wf.transitions);
    LimitedKeysDistinct(wf, wf.transitions);
    assert KeyOf(t) in keys;
    LeftDrops(wf, counts, keys, KeyOf(t));
  }

  /** The counters and their total stay inside the budget; each fits 32 bits. */
  lemma CountersFit(wf: Workflow, counts: EdgeCounts, key: string)
    requires WithinLimits(wf, counts) && LimitsFit(wf)
    ensures CountOf(counts, key) <= U32_MAX
    ensures Sum(counts, LimitedKeys(wf, wf.transitions)) <= Capacity(wf)
  {
    LargestLimitFits(wf, wf.transitions, key);
    SpentAndLeft(wf, counts, LimitedKeys(wf, wf.transitions));
  }
}
