/** The durable, outcome-routed engine loop: a run as a function of the executors'
    answers and the interrupts, and the runner that computes it in place. */
module Engine {
  import opened Text
  import opened Numbers
  import opened Context
  import opened Workflows

  // ----- what the loop cannot decide itself

  /** What a step executor reports back. */
  datatype Report = Finished(outcome: StepOutcome) | StepError(message: string) | ToolUnavailable(message: string)
                  | OtherError

  datatype Execution = Execution(report: Report, writes: seq<(string, string)>)

  /** The surroundings of a run. Each question is asked with the number of steps
      dispatched so far: the executors' answers, interrupt requests seen before
      and after a step, failed database writes, denied workspace ownership. */
  datatype Env = Env(
    execute: (nat, string, Ctx) -> Execution,
    interruptBefore: nat -> bool,
    interruptAfter: nat -> bool,
    persistFails: nat -> bool,
    ownershipDenied: nat -> bool,
    completionFails: nat -> bool)

  // ----- run state

  datatype Checkpoint = Checkpoint(step: string, values: map<string, Json>, status: string)

  /** Provenance of failed work that was routed into a cleanup step. */
  datatype Failure = Failure(failedStep: string, outcome: StepOutcome, snapshot: map<string, Json>,
                             cleanupStep: string, cleanupSucceeded: bool, ownershipDenied: bool)

  /** `saved` is the newest checkpoint and `failure` the recorded failure, both durable. */
  datatype State = State(step: string, counts: EdgeCounts, ctx: Ctx, failure: Option<Failure>,
                         saved: Option<Checkpoint>)

  datatype Reason =
    | OwnershipLost
    | StepAbandoned
    | EdgeLimitReached(limit: nat, key: string)
    | NoTransition(outcome: StepOutcome)
    | CleanedUp
    | CleanupEnded(outcome: StepOutcome)

  datatype EngineError = StepNotFound | StepFailed | NoProvenance | PersistenceError

  datatype RunOutcome =
    | Succeeded
    | Failed(step: string, reason: Reason)
    | Abandoned(step: string, reason: Reason)
    | Interrupted(step: string)
    | WaitingExternal(step: string)
    | Error(error: EngineError)

  // ----- the pieces of one round

  function CheckpointAt(st: State, status: string): Checkpoint
  {
    Checkpoint(st.step, Saved(st.ctx, st.counts), status)
  }

  function Store(st: State, status: string): State { st.(saved := Some(CheckpointAt(st, status))) }

  function Prepare(wf: Workflow, st: State): Option<State>
  {
    var entered := st.(ctx := st.ctx.Enter(st.step));
    if !IsCleanup(wf, st.step) then Some(entered)
    else if st.failure.None? then None
    else Some(entered.(ctx := entered.ctx.Set("failed_work_step", st.failure.value.failedStep)
                                         .Set("failed_work_outcome", ConditionStr(st.failure.value.outcome))))
  }

  function WriteAll(c: Ctx, writes: seq<(string, string)>): Ctx
    decreases |writes|
  {
    if writes == [] then c else WriteAll(c.Set(writes[0].0, writes[0].1), writes[1..])
  }

  datatype Executed = Ran(outcome: StepOutcome, ctx: Ctx) | Broke(error: EngineError, ctx: Ctx)

  predicate Dispatched(wf: Workflow, step: string)
  {
    var i := Index(wf.steps, step);
    i.Some? && wf.steps[i.value].registered
  }

  /** Step errors of registered steps and missing tools become fatal outcomes. */
  function Execute(wf: Workflow, env: Env, st: State, n: nat): Executed
  {
    if Index(wf.steps, st.step).None? then Broke(StepNotFound, st.ctx)
    else if !Dispatched(wf, st.step) then Broke(StepFailed, st.ctx)
    else
      var e := env.execute(n, st.step, st.ctx);
      var ctx := WriteAll(st.ctx, e.writes);
      match e.report
      case Finished(o) => Ran(o, ctx)
      case StepError(m) => Ran(Fatal, ctx.Set("diagnostic", m))
      case ToolUnavailable(m) => Ran(Fatal, ctx.Set("diagnostic", m))
      case OtherError => Broke(StepFailed, ctx)
  }

  function Next(wf: Workflow, step: string, o: StepOutcome): Option<string>
  {
    if o == Abandon then None else TargetOf(FirstMatch(wf.transitions, step, o))
  }

  predicate EntersCleanup(wf: Workflow, o: StepOutcome, next: Option<string>)
  {
    next.Some? && o != Success && IsCleanup(wf, next.value)
  }

  datatype Persisted = Stored(st: State) | Denied(st: State) | NotStored(error: EngineError)

  /** One transaction: the checkpoint of the finished step and the failure record. */
  function Persist(wf: Workflow, env: Env, st: State, o: StepOutcome, n: nat): Persisted
  {
    var next := Next(wf, st.step, o);
    var done := Store(st, "completed");
    if env.persistFails(n) then NotStored(PersistenceError)
    else if EntersCleanup(wf, o, next) && env.ownershipDenied(n) then
      Denied(done.(failure := Some(Failure(st.step, o, done.saved.value.values, next.value, false, true))))
    else if IsCleanup(wf, st.step) then
      if st.failure.None? then NotStored(NoProvenance)
      else Stored(done.(failure := Some(if o == Success then st.failure.value.(cleanupSucceeded := true)
                                        else st.failure.value)))
    else if EntersCleanup(wf, o, next) then
      Stored(done.(failure := Some(Failure(st.step, o, done.saved.value.values, next.value, false, false))))
    else Stored(done)
  }

  /** Without a transition the run ends, or pauses on an external wait. */
  function Finish(wf: Workflow, env: Env, st: State, o: StepOutcome, n: nat): (RunOutcome, State)
  {
    if IsCleanup(wf, st.step) then
      if st.failure.None? then (Error(NoProvenance), st)
      else if o == Success then (Abandoned(st.failure.value.failedStep, CleanedUp), st)
      else (Failed(st.failure.value.failedStep, CleanupEnded(o)), st)
    else
      var end := if o == Wait then Store(st, "waiting") else st;
      if env.completionFails(n) then (Error(PersistenceError), end)
      else if o == Wait then (WaitingExternal(st.step), end)
      else if o == Success then (Succeeded, end)
      else (Failed(st.step, NoTransition(o)), end)
  }

  datatype Move = Continue(st: State) | Stop(result: RunOutcome, st: State)

  /** Taking an edge: limited edges are counted, and refused at their limit. */
  function Advance(wf: Workflow, st: State, t: Transition): Move
  {
    var key, limit := KeyOf(t), LimitOf(wf, t);
    if !Limited(wf, t) then Continue(st.(step := t.to))
    else if CountOf(st.counts, key) >= limit then Stop(Abandoned(st.step, EdgeLimitReached(limit, key)), st)
    else Continue(st.(step := t.to, counts := st.counts[key := CountOf(st.counts, key) + 1]))
  }

  function Settle(wf: Workflow, env: Env, st: State, o: StepOutcome, n: nat): Move
  {
    match Persist(wf, env, st, o, n)
    case NotStored(error) => Stop(Error(error), st)
    case Denied(s) => Stop(Failed(st.step, OwnershipLost), s)
    case Stored(s) =>
      var taken := FirstMatch(wf.transitions, st.step, o);
      if o == Abandon && !IsCleanup(wf, st.step) then Stop(Abandoned(st.step, StepAbandoned), s)
      else if o == Abandon || taken.None? then
        var (result, end) := Finish(wf, env, s, o, n);
        Stop(result, end)
      else Advance(wf, s, taken.value)
  }

  /** One round of the loop, from the interrupt check to the next step. */
  function Round(wf: Workflow, env: Env, st: State, n: nat): Move
  {
    if env.interruptBefore(n) then Stop(Interrupted(st.step), Store(st, "interrupted"))
    else match Prepare(wf, st)
      case None => Stop(Error(NoProvenance), st.(ctx := st.ctx.Enter(st.step)))
      case Some(ready) =>
        match Execute(wf, env, ready, n)
        case Broke(error, ctx) => Stop(Error(error), ready.(ctx := ctx))
        case Ran(o, ctx) =>
          var ran := ready.(ctx := ctx);
          if env.interruptAfter(n) then Stop(Interrupted(st.step), Store(ran, "interrupted"))
          else Settle(wf, env, ran, o, n)
  }

  /** Whether the round reaches an executor. */
  predicate Dispatches(wf: Workflow, env: Env, st: State, n: nat)
  {
    !env.interruptBefore(n) && Prepare(wf, st).Some? && Dispatched(wf, st.step)
  }

  function StepsIn(wf: Workflow, env: Env, st: State, n: nat): seq<string>
  {
    if Dispatches(wf, env, st, n) then [st.step] else []
  }

  // ----- resuming in a new process

  function LoadCounts(values: map<string, Json>): EdgeCounts
  {
    if EDGE_COUNTS in values && values[EDGE_COUNTS].Counts? then values[EDGE_COUNTS].counts else map[]
  }

  /** Failed work whose cleanup has not succeeded yet. */
  predicate CleanupDue(st: State) { st.failure.Some? && !st.failure.value.cleanupSucceeded }

  /** Where a new process takes the run up; nothing when it must not or cannot. */
  ghost function Resume(st: State): Option<State>
  {
    if CleanupDue(st) then
      var f := st.failure.value;
      if f.ownershipDenied || !Restorable(st.ctx.allow, f.snapshot) then None
      else Some(st.(step := f.cleanupStep, counts := LoadCounts(f.snapshot), ctx := Restored(st.ctx, f.snapshot)))
    else if st.saved.Some? then
      var cp := st.saved.value;
      if !Restorable(st.ctx.allow, cp.values) then None
      else Some(st.(step := cp.step, counts := LoadCounts(cp.values), ctx := Restored(st.ctx, cp.values)))
    else Some(st)
  }

  // ----- progress

  /** The steps from this one to the last, this one included. */
  function Ahead(wf: Workflow, step: string): (r: nat)
    ensures r <= |wf.steps| && (r == 0 <==> Index(wf.steps, step).None?)
  {
    match Index(wf.steps, step) case None => 0 case Some(i) => |wf.steps| - i
  }

  function Walks(n: nat, k: nat): nat { n * k }

  /** A bound on the steps still to be dispatched: every unit of loop budget
      allows one more walk over the steps. */
  ghost function Potential(wf: Workflow, step: string, counts: EdgeCounts): nat
    requires WithinLimits(wf, counts)
  {
    Walks(|wf.steps|, Remaining(wf, counts)) + Ahead(wf, step)
  }

  lemma OneWalkLess(n: nat, less: nat, more: nat)
    requires less == more - 1
    ensures Walks(n, less) == Walks(n, more) - n
  {
    assert n * less == n * more - n;
  }

  /** Both kinds of edge use up potential: limited ones a unit of budget, the
      others lead forward or out of the graph. */
  lemma AdvanceProgress(wf: Workflow, st: State, t: Transition)
    requires WithinLimits(wf, st.counts) && t in wf.transitions && t.from == st.step && Ahead(wf, st.step) > 0
    ensures var m := Advance(wf, st, t);
      && WithinLimits(wf, m.st.counts)
      && (m.Continue? ==> Potential(wf, m.st.step, m.st.counts) < Potential(wf, st.step, st.counts))
  {
    if Limited(wf, t) && CountOf(st.counts, KeyOf(t)) < LimitOf(wf, t) {
      SpendOne(wf, st.counts, t);
      var after := st.counts[KeyOf(t) := CountOf(st.counts, KeyOf(t)) + 1];
      OneWalkLess(|wf.steps|, Remaining(wf, after), Remaining(wf, st.counts));
    }
  }

  lemma PersistKeeps(wf: Workflow, env: Env, st: State, o: StepOutcome, n: nat)
    ensures var p := Persist(wf, env, st, o, n);
      !p.NotStored? ==> p.st.step == st.step && p.st.counts == st.counts && p.st.ctx == st.ctx
  {}

  lemma SettleProgress(wf: Workflow, env: Env, st: State, o: StepOutcome, n: nat)
    requires WithinLimits(wf, st.counts) && Ahead(wf, st.step) > 0
    ensures var m := Settle(wf, env, st, o, n);
      && WithinLimits(wf, m.st.counts)
      && (m.Continue? ==> Potential(wf, m.st.step, m.st.counts) < Potential(wf, st.step, st.counts))
  {
    var p := Persist(wf, env, st, o, n);
    var taken := FirstMatch(wf.transitions, st.step, o);
    PersistKeeps(wf, env, st, o, n);
    if p.Stored? && taken.Some? {
      AdvanceProgress(wf, p.st, taken.value);
    }
  }

  /** Every round that goes on has dispatched a step and used up potential. */
  lemma RoundProgress(wf: Workflow, env: Env, st: State, n: nat)
    requires WithinLimits(wf, st.counts)
    ensures var m := Round(wf, env, st, n);
      && WithinLimits(wf, m.st.counts)
      && (m.Continue? ==> Potential(wf, m.st.step, m.st.counts) < Potential(wf, st.step, st.counts))
    ensures Round(wf, env, st, n).Continue? ==> Dispatches(wf, env, st, n)
    ensures Dispatches(wf, env, st, n) ==> Ahead(wf, st.step) > 0
  {
    var ready := Prepare(wf, st);
    if ready.Some? {
      var executed := Execute(wf, env, ready.value, n);
      if executed.Ran? {
        SettleProgress(wf, env, ready.value.(ctx := executed.ctx), executed.outcome, n);
      }
    }
  }

  // ----- a whole run

  datatype RunResult = RunResult(trace: seq<string>, outcome: RunOutcome, end: State)

  /** The run from `st` on, with `n` steps dispatched before: its dispatched
      steps, its outcome and the state it leaves. It always ends. */
  function Run(wf: Workflow, env: Env, st: State, n: nat): RunResult
    requires WithinLimits(wf, st.counts)
    decreases Potential(wf, st.step, st.counts)
  {
    RoundProgress(wf, env, st, n);
    var steps := StepsIn(wf, env, st, n);
    match Round(wf, env, st, n)
    case Stop(result, end) => RunResult(steps, result, end)
    case Continue(next) => After(steps, Run(wf, env, next, n + 1))
  }

  function After(steps: seq<string>, r: RunResult): RunResult { r.(trace := steps + r.trace) }

  lemma AfterNothing(r: RunResult)
    ensures After([], r) == r
  {
    assert [] + r.trace == r.trace;
  }

  lemma AfterAfter(a: seq<string>, b: seq<string>, r: RunResult)
    ensures After(a, After(b, r)) == After(a + b, r)
  {
    assert a + (b + r.trace) == a + b + r.trace;
  }

  /** What one more round of the loop adds to the run so far. */
  lemma LoopStep(wf: Workflow, env: Env, st: State, n: nat, trace: seq<string>, m: Move)
    requires WithinLimits(wf, st.counts) && m == Round(wf, env, st, n)
    ensures WithinLimits(wf, m.st.counts)
    ensures m.Stop? ==>
      After(trace, Run(wf, env, st, n)) == RunResult(trace + StepsIn(wf, env, st, n), m.result, m.st)
    ensures m.Continue? ==>
      After(trace, Run(wf, env, st, n)) == After(trace + StepsIn(wf, env, st, n), Run(wf, env, m.st, n + 1))
    ensures m.Continue? ==> Potential(wf, m.st.step, m.st.counts) < Potential(wf, st.step, st.counts)
  {
    RunUnfolds(wf, env, st, n);
    RoundProgress(wf, env, st, n);
    if m.Continue? {
      AfterAfter(trace, StepsIn(wf, env, st, n), Run(wf, env, m.st, n + 1));
    }
  }

  /** The run that has dispatched `trace` so far and goes on from `st`. */
  function Going(trace: seq<string>, wf: Workflow, env: Env, st: State, n: nat): RunResult
    requires WithinLimits(wf, st.counts)
  {
    After(trace, Run(wf, env, st, n))
  }

  lemma RunUnfolds(wf: Workflow, env: Env, st: State, n: nat)
    requires WithinLimits(wf, st.counts)
    ensures var m := Round(wf, env, st, n);
      WithinLimits(wf, m.st.counts) &&
      Run(wf, env, st, n) == if m.Stop? then RunResult(StepsIn(wf, env, st, n), m.result, m.st)
                             else After(StepsIn(wf, env, st, n), Run(wf, env, m.st, n + 1))
  {
    RoundProgress(wf, env, st, n);
  }

  /** A run dispatches no more steps than its potential, and its counters stay in the budget. */
  lemma {:induction false} RunBounded(wf: Workflow, env: Env, st: State, n: nat)
    requires WithinLimits(wf, st.counts)
    ensures |Run(wf, env, st, n).trace| <= Potential(wf, st.step, st.counts)
    ensures WithinLimits(wf, Run(wf, env, st, n).end.counts)
    decreases Potential(wf, st.step, st.counts)
  {
    RoundProgress(wf, env, st, n);
    var m := Round(wf, env, st, n);
    if m.Continue? { RunBounded(wf, env, m.st, n + 1); }
  }

  /** Whatever the executors answer, a run that starts with fresh counters
      dispatches at most N * (1 + C) steps. */
  lemma RunTerminates(wf: Workflow, env: Env, st: State, n: nat)
    requires st.counts == map[]
    ensures |Run(wf, env, st, n).trace| <= |wf.steps| * (1 + Capacity(wf))
  {
    RunBounded(wf, env, st, n);
    assert |wf.steps| * (1 + Capacity(wf)) == |wf.steps| + |wf.steps| * Capacity(wf);
    assert Walks(|wf.steps|, Remaining(wf, st.counts)) == |wf.steps| * Capacity(wf);
  }

  // ----- the runner

  class EngineRunner {
    const wf: Workflow
    const context: StepContext
    var step: string
    var counts: EdgeCounts
    var failure: Option<Failure>
    var saved: Option<Checkpoint>

    ghost function View(): State
      reads this, context
    {
      State(step, counts, context.View(), failure, saved)
    }

    /** A new runner stands at the first step. */
    constructor (wf: Workflow, context: StepContext)
      ensures this.wf == wf && this.context == context
      ensures View() == State(if wf.steps == [] then "" else wf.steps[0].id, map[], context.View(), None, None)
    {
      this.wf, this.context := wf, context;
      this.step := if wf.steps == [] then "" else wf.steps[0].id;
      this.counts, this.failure, this.saved := map[], None, None;
    }

    method SaveCheckpoint(status: string)
      modifies `saved
      ensures View() == Store(old(View()), status)
    {
      saved := Some(Checkpoint(step, Saved(ContextValue(), counts), status));
    }

    /** The context as a value. */
    function ContextValue(): (c: Ctx)
      reads this, context
      ensures c == context.View()
    {
      Ctx(context.variables, context.current, context.order, context.namespaced, context.allow)
    }

    /** Takes up the pending cleanup, or else the newest checkpoint. */
    method ResumeFromCheckpoint() returns (ok: bool)
      modifies this, context
      ensures ok <==> Resume(old(View())).Some?
      ensures ok ==> View() == Resume(old(View())).value
    {
      if failure.Some? && !failure.value.cleanupSucceeded {
        if failure.value.ownershipDenied {
          return false;
        }
        ok := context.RestoreCheckpointValues(failure.value.snapshot);
        if ok {
          step, counts := failure.value.cleanupStep, LoadCounts(failure.value.snapshot);
        }
        return;
      }
      if saved.Some? {
        ok := context.RestoreCheckpointValues(saved.value.values);
        if ok {
          step, counts := saved.value.step, LoadCounts(saved.value.values);
        }
        return;
      }
      return true;
    }

    method InterruptAtStep() returns (result: RunOutcome)
      modifies `saved
      ensures View() == Store(old(View()), "interrupted") && result == Interrupted(step)
    {
      SaveCheckpoint("interrupted");
      result := Interrupted(step);
    }

    method PrepareStepStart() returns (ok: bool)
      modifies context
      ensures ok <==> Prepare(wf, old(View())).Some?
      ensures View() == if ok then Prepare(wf, old(View())).value
                        else old(View()).(ctx := old(View()).ctx.Enter(step))
    {
      context.SetCurrentStepId(step);
      if IsCleanup(wf, step) {
        if failure.None? {
          return false;
        }
        context.Set("failed_work_step", failure.value.failedStep);
        context.Set("failed_work_outcome", ConditionStr(failure.value.outcome));
      }
      return true;
    }

    method ApplyWrites(writes: seq<(string, string)>)
      modifies context
      ensures context.View() == WriteAll(old(context.View()), writes)
    {
      ghost var c := context.View();
      for i := 0 to |writes|
        invariant WriteAll(context.View(), writes[i..]) == WriteAll(c, writes)
      {
        assert writes[i..][1..] == writes[i + 1..];
        context.Set(writes[i].0, writes[i].1);
      }
    }

    method ExecuteCurrentStep(env: Env, n: nat) returns (executed: Executed)
      modifies context
      ensures executed == Execute(wf, env, old(View()), n)
      ensures View() == old(View()).(ctx := executed.ctx)
    {
      var index := Index(wf.steps, step);
      if index.None? {
        return Broke(StepNotFound, ContextValue());
      }
      if !wf.steps[index.value].registered {
        return Broke(StepFailed, ContextValue());
      }
      var e := env.execute(n, step, ContextValue());
      ApplyWrites(e.writes);
      match e.report {
        case Finished(o) =>
          executed := Ran(o, ContextValue());
        case StepError(m) =>
          context.Set("diagnostic", m);
          executed := Ran(Fatal, ContextValue());
        case ToolUnavailable(m) =>
          context.Set("diagnostic", m);
          executed := Ran(Fatal, ContextValue());
        case OtherError =>
          executed := Broke(StepFailed, ContextValue());
      }
    }

    method PersistStepResult(env: Env, o: StepOutcome, next: Option<string>, n: nat) returns (r: Persisted)
      requires next == Next(wf, step, o)
      modifies `saved, `failure
      ensures r == Persist(wf, env, old(View()), o, n)
      ensures View() == if r.NotStored? then old(View()) else r.st
    {
      if env.persistFails(n) {
        return NotStored(PersistenceError);
      }
      var snapshot := Saved(ContextValue(), counts);
      var enters := EntersCleanup(wf, o, next);
      if enters && env.ownershipDenied(n) {
        SaveCheckpoint("completed");
        failure := Some(Failure(step, o, snapshot, next.value, false, true));
        return Denied(State(step, counts, ContextValue(), failure, saved));
      }
      if IsCleanup(wf, step) && failure.None? {
        return NotStored(NoProvenance);
      }
      SaveCheckpoint("completed");
      if IsCleanup(wf, step) {
        if o == Success {
          failure := Some(failure.value.(cleanupSucceeded := true));
        }
      } else if enters {
        failure := Some(Failure(step, o, snapshot, next.value, false, false));
      }
      return Stored(State(step, counts, ContextValue(), failure, saved));
    }

    /** Counts a limited edge, or refuses it at its limit. */
    method EnforceEdgeLimit(next: string, o: StepOutcome, ghost taken: Transition) returns (refused: Option<RunOutcome>)
      requires LimitsFit(wf) && FirstMatch(wf.transitions, step, o) == Some(taken) && taken.to == next
      modifies `counts
      ensures var m := Advance(wf, old(View()), taken);
        && (refused.Some? ==> m == Stop(refused.value, View()))
        && (refused.None? ==> m == Continue(View().(step := next)))
    {
      var t := FindTransition(step, o, wf.transitions);
      if !(IsLoopBack(wf, step, next) || (t.Some? && t.value.maxIterations.Some?)) {
        return None;
      }
      var key := EdgeKey(step, next);
      var limit := if t.Some? && t.value.maxIterations.Some? then t.value.maxIterations.value else wf.maxLoops;
      var count := if key in counts then counts[key] else 0;
      if count >= limit {
        return Some(Abandoned(step, EdgeLimitReached(limit, key)));
      }
      assert count + 1 <= U32_MAX;
      counts := counts[key := count + 1];
      return None;
    }

    method FinishWithoutTransition(env: Env, o: StepOutcome, n: nat) returns (result: RunOutcome)
      modifies `saved
      ensures (result, View()) == Finish(wf, env, old(View()), o, n)
    {
      if IsCleanup(wf, step) {
        if failure.None? {
          return Error(NoProvenance);
        }
        if o == Success {
          return Abandoned(failure.value.failedStep, CleanedUp);
        }
        return Failed(failure.value.failedStep, CleanupEnded(o));
      }
      if o == Wait {
        SaveCheckpoint("waiting");
        return if env.completionFails(n) then Error(PersistenceError) else WaitingExternal(step);
      }
      if env.completionFails(n) {
        return Error(PersistenceError);
      }
      return if o == Success then Succeeded else Failed(step, NoTransition(o));
    }

    /** What follows a step that ran: persist, then end or take an edge. */
    method SettleOutcome(env: Env, o: StepOutcome, n: nat) returns (stop: Option<RunOutcome>)
      requires LimitsFit(wf)
      modifies this
      ensures var m := Settle(wf, env, old(View()), o, n);
        m == if stop.Some? then Stop(stop.value, View()) else Continue(View())
    {
      ghost var taken := FirstMatch(wf.transitions, step, o);
      var next := None;
      if o != Abandon {
        next := ResolveTransition(step, o, wf.transitions);
      }
      var persisted := PersistStepResult(env, o, next, n);
      if persisted.NotStored? {
        return Some(Error(persisted.error));
      }
      if persisted.Denied? {
        return Some(Failed(step, OwnershipLost));
      }
      if o == Abandon && !IsCleanup(wf, step) {
        return Some(Abandoned(step, StepAbandoned));
      }
      if next.None? {
        var result := FinishWithoutTransition(env, o, n);
        return Some(result);
      }
      stop := EnforceEdgeLimit(next.value, o, taken.value);
      if stop.None? {
        step := next.value;
      }
    }

    /** The body of the loop. */
    method OneRound(env: Env, n: nat) returns (stop: Option<RunOutcome>, dispatched: bool)
      requires LimitsFit(wf)
      modifies this, context
      ensures dispatched == Dispatches(wf, env, old(View()), n)
      ensures var m := Round(wf, env, old(View()), n);
        m == if stop.Some? then Stop(stop.value, View()) else Continue(View())
    {
      dispatched := false;
      if env.interruptBefore(n) {
        var result := InterruptAtStep();
        return Some(result), false;
      }
      var ready := PrepareStepStart();
      if !ready {
        return Some(Error(NoProvenance)), false;
      }
      dispatched := Dispatched(wf, step);
      var executed := ExecuteCurrentStep(env, n);
      if executed.Broke? {
        return Some(Error(executed.error)), dispatched;
      }
      if env.interruptAfter(n) {
        var result := InterruptAtStep();
        return Some(result), dispatched;
      }
      stop := SettleOutcome(env, executed.outcome, n);
    }

    /** The body of the loop, extending the trace of the run so far. */
    method LoopBody(env: Env, n: nat, trace: seq<string>, ghost whole: RunResult)
      returns (stop: Option<RunOutcome>, longer: seq<string>, next: nat)
      requires WithinLimits(wf, counts) && LimitsFit(wf) && whole == Going(trace, wf, env, View(), n)
      modifies this, context
      ensures WithinLimits(wf, counts)
      ensures stop.Some? ==> whole == RunResult(longer, stop.value, View())
      ensures stop.None? ==> whole == Going(longer, wf, env, View(), next)
      ensures stop.None? ==> Potential(wf, step, counts) < old(Potential(wf, step, counts))
    {
      ghost var st := View();
      var current := step;
      var dispatched;
      stop, dispatched := OneRound(env, n);
      ghost var m := if stop.Some? then Stop(stop.value, View()) else Continue(View());
      LoopStep(wf, env, st, n, trace, m);
      assert m.st == View() && trace + [] == trace;
      longer := if dispatched then trace + [current] else trace;
      next := n + 1;
    }

    /** The transition loop computes the run. */
    method RunTransitionLoop(env: Env, before: nat) returns (trace: seq<string>, result: RunOutcome)
      requires WithinLimits(wf, counts) && LimitsFit(wf)
      modifies this, context
      ensures RunResult(trace, result, View()) == Run(wf, env, old(View()), before)
    {
      trace := [];
      var n, stop := before, None;
      ghost var whole := Run(wf, env, View(), n);
      AfterNothing(whole);
      while stop.None?
        invariant WithinLimits(wf, counts)
        invariant stop.None? ==> whole == Going(trace, wf, env, View(), n)
        invariant stop.Some? ==> whole == RunResult(trace, stop.value, View())
        decreases stop.None?, Potential(wf, step, counts)
      {
        stop, trace, n := LoopBody(env, n, trace, whole);
      }
      result := stop.value;
    }
  }
}
