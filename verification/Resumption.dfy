/** Interrupting and resuming a run: nothing an executor can see is lost, and
    the loop budget holds across processes. */
module Resumption {
  import opened Text
  import opened Context
  import opened Workflows
  import opened Engine

  // ----- contexts that look alike through the allowlist

  /** What a checkpoint carries is the same. */
  ghost predicate Alike(a: Ctx, b: Ctx)
  {
    && a.allow == b.allow && a.order == b.order
    && Allowed(a.variables, a.allow) == Allowed(b.variables, a.allow)
    && a.namespaced.Keys == b.namespaced.Keys
    && forall s :: s in a.namespaced ==> Allowed(a.namespaced[s], a.allow) == Allowed(b.namespaced[s], a.allow)
  }

  lemma AlikeCheckpoints(a: Ctx, b: Ctx)
    requires Alike(a, b)
    ensures a.CheckpointValues() == b.CheckpointValues()
  {
    var va, vb := Allowed(a.variables, a.allow), Allowed(b.variables, b.allow);
    assert (map k | k in a.variables && k in a.allow :: Str(a.variables[k])) == map k | k in va :: Str(va[k]);
    assert (map k | k in b.variables && k in b.allow :: Str(b.variables[k])) == map k | k in vb :: Str(vb[k]);
    assert (map s | s in a.namespaced :: Allowed(a.namespaced[s], a.allow)) ==
           map s | s in b.namespaced :: Allowed(b.namespaced[s], b.allow);
  }

  lemma AlikeEnter(a: Ctx, b: Ctx, step: string)
    requires Alike(a, b)
    ensures Alike(a.Enter(step), b.Enter(step))
  {
    AllowedUpdate(a.variables, "current_step_id", step, a.allow);
    AllowedUpdate(b.variables, "current_step_id", step, b.allow);
  }

  lemma AllowedUpdate(vars: Vars, key: string, value: string, allow: set<string>)
    ensures Allowed(vars[key := value], allow) ==
            if key in allow then Allowed(vars, allow)[key := value] else Allowed(vars, allow)
  {}

  lemma AlikeSet(a: Ctx, b: Ctx, key: string, value: string)
    requires Alike(a, b) && a.current == b.current
    ensures Alike(a.Set(key, value), b.Set(key, value))
  {
    AllowedUpdate(a.variables, key, value, a.allow);
    AllowedUpdate(b.variables, key, value, b.allow);
    if a.current.Some? {
      var s := a.current.value;
      var ownA := if s in a.namespaced then a.namespaced[s] else map[];
      var ownB := if s in b.namespaced then b.namespaced[s] else map[];
      assert Allowed(ownA, a.allow) == Allowed(ownB, a.allow);
      AllowedUpdate(ownA, key, value, a.allow);
      AllowedUpdate(ownB, key, value, b.allow);
    }
  }

  lemma {:induction false} AlikeWriteAll(a: Ctx, b: Ctx, writes: seq<(string, string)>)
    requires Alike(a, b) && a.current == b.current
    ensures Alike(WriteAll(a, writes), WriteAll(b, writes))
    ensures WriteAll(a, writes).current == WriteAll(b, writes).current
    decreases |writes|
  {
    if writes != [] {
      AlikeSet(a, b, writes[0].0, writes[0].1);
      AlikeWriteAll(a.Set(writes[0].0, writes[0].1), b.Set(writes[0].0, writes[0].1), writes[1..]);
    }
  }

  /** The executors' answers depend on nothing but what a checkpoint carries. */
  ghost predicate ReadsOnlyCarried(env: Env)
  {
    forall n, s, a, b :: Alike(a, b) ==> env.execute(n, s, a) == env.execute(n, s, b)
  }

  // ----- runs from similar states

  ghost predicate Similar(a: State, b: State)
  {
    a.step == b.step && a.counts == b.counts && a.failure == b.failure && Alike(a.ctx, b.ctx)
  }

  lemma SimilarPrepare(wf: Workflow, a: State, b: State)
    requires Similar(a, b)
    ensures Prepare(wf, a).Some? == Prepare(wf, b).Some?
    ensures Prepare(wf, a).Some? ==>
      Similar(Prepare(wf, a).value, Prepare(wf, b).value)
        && Prepare(wf, a).value.ctx.current == Prepare(wf, b).value.ctx.current
  {
    AlikeEnter(a.ctx, b.ctx, a.step);
    if IsCleanup(wf, a.step) && a.failure.Some? {
      var f := a.failure.value;
      var ca, cb := a.ctx.Enter(a.step), b.ctx.Enter(b.step);
      AlikeSet(ca, cb, "failed_work_step", f.failedStep);
      AlikeSet(ca.Set("failed_work_step", f.failedStep), cb.Set("failed_work_step", f.failedStep),
               "failed_work_outcome", ConditionStr(f.outcome));
    }
  }

  lemma SimilarExecute(wf: Workflow, env: Env, a: State, b: State, n: nat)
    requires Similar(a, b) && a.ctx.current == b.ctx.current && ReadsOnlyCarried(env)
    ensures var ea, eb := Execute(wf, env, a, n), Execute(wf, env, b, n);
      Alike(ea.ctx, eb.ctx)
      && (if ea.Ran? then eb.Ran? && ea.outcome == eb.outcome else eb.Broke? && ea.error == eb.error)
  {
    if Dispatched(wf, a.step) {
      assert env.execute(n, a.step, a.ctx) == env.execute(n, b.step, b.ctx);
      var e := env.execute(n, a.step, a.ctx);
      AlikeWriteAll(a.ctx, b.ctx, e.writes);
      var ca, cb := WriteAll(a.ctx, e.writes), WriteAll(b.ctx, e.writes);
      match e.report {
        case StepError(m) => AlikeSet(ca, cb, "diagnostic", m);
        case ToolUnavailable(m) => AlikeSet(ca, cb, "diagnostic", m);
        case Finished(_) =>
        case OtherError =>
      }
    }
  }

  lemma SimilarPersist(wf: Workflow, env: Env, a: State, b: State, o: StepOutcome, n: nat)
    requires Similar(a, b)
    ensures var pa, pb := Persist(wf, env, a, o, n), Persist(wf, env, b, o, n);
      match pa
      case NotStored(e) => pb == NotStored(e)
      case Stored(s) => pb.Stored? && Similar(s, pb.st) && s.step == a.step
      case Denied(s) => pb.Denied? && Similar(s, pb.st)
  {
    AlikeCheckpoints(a.ctx, b.ctx);
    assert Saved(a.ctx, a.counts) == Saved(b.ctx, b.counts);
  }

  lemma SimilarFinish(wf: Workflow, env: Env, a: State, b: State, o: StepOutcome, n: nat)
    requires Similar(a, b)
    ensures var (ra, sa) := Finish(wf, env, a, o, n); var (rb, sb) := Finish(wf, env, b, o, n);
      ra == rb && Similar(sa, sb)
  {}

  lemma SimilarAdvance(wf: Workflow, a: State, b: State, t: Transition)
    requires Similar(a, b)
    ensures SameMove(Advance(wf, a, t), Advance(wf, b, t))
  {}

  lemma SimilarSettle(wf: Workflow, env: Env, a: State, b: State, o: StepOutcome, n: nat)
    requires Similar(a, b)
    ensures SameMove(Settle(wf, env, a, o, n), Settle(wf, env, b, o, n))
  {
    SimilarPersist(wf, env, a, b, o, n);
    var pa, pb := Persist(wf, env, a, o, n), Persist(wf, env, b, o, n);
    if pa.Stored? {
      SimilarFinish(wf, env, pa.st, pb.st, o, n);
      var taken := FirstMatch(wf.transitions, a.step, o);
      if taken.Some? {
        SimilarAdvance(wf, pa.st, pb.st, taken.value);
      }
    }
  }

  ghost predicate SameMove(a: Move, b: Move)
  {
    Similar(a.st, b.st) && (if a.Stop? then b.Stop? && a.result == b.result else b.Continue?)
  }

  lemma SimilarRound(wf: Workflow, env: Env, a: State, b: State, n: nat)
    requires Similar(a, b) && ReadsOnlyCarried(env)
    ensures SameMove(Round(wf, env, a, n), Round(wf, env, b, n))
    ensures StepsIn(wf, env, a, n) == StepsIn(wf, env, b, n)
  {
    SimilarPrepare(wf, a, b);
    AlikeEnter(a.ctx, b.ctx, a.step);
    var pa, pb := Prepare(wf, a), Prepare(wf, b);
    if pa.Some? {
      SimilarExecute(wf, env, pa.value, pb.value, n);
      var ea, eb := Execute(wf, env, pa.value, n), Execute(wf, env, pb.value, n);
      if ea.Ran? {
        SimilarSettle(wf, env, pa.value.(ctx := ea.ctx), pb.value.(ctx := eb.ctx), ea.outcome, n);
      }
    }
  }

  // ----- what one round leaves behind

  /** `after` differs from `before` by writes: no variable and no allowlist entry is lost. */
  ghost predicate Grown(before: Ctx, after: Ctx)
  {
    before.variables.Keys <= after.variables.Keys && before.allow == after.allow
  }

  lemma {:induction false} WritesGrow(c: Ctx, writes: seq<(string, string)>)
    ensures Grown(c, WriteAll(c, writes))
    decreases |writes|
  {
    if writes != [] { WritesGrow(c.Set(writes[0].0, writes[0].1), writes[1..]); }
  }

  lemma ExecuteGrows(wf: Workflow, env: Env, st: State, n: nat)
    ensures Grown(st.ctx, Execute(wf, env, st, n).ctx)
  {
    if Dispatched(wf, st.step) {
      WritesGrow(st.ctx, env.execute(n, st.step, st.ctx).writes);
    }
  }

  ghost predicate Checkpointed(st: State, after: State)
  {
    after.saved.Some? && after.saved.value.step == st.step && after.saved.value.values == Saved(st.ctx, st.counts)
  }

  /** The context as in `st`; the checkpoint and the failure record as before, or describing `st`. */
  ghost predicate Kept(st: State, after: State)
  {
    && after.ctx == st.ctx
    && (after.saved == st.saved || Checkpointed(st, after))
    && (after.failure.Some? ==>
        (st.failure.Some? && after.failure.value.snapshot == st.failure.value.snapshot)
        || after.failure.value.snapshot == Saved(st.ctx, st.counts))
  }

  lemma PersistRecords(wf: Workflow, env: Env, st: State, o: StepOutcome, n: nat)
    ensures var p := Persist(wf, env, st, o, n);
      !p.NotStored? ==> Kept(st, p.st) && Checkpointed(st, p.st) && p.st.step == st.step && p.st.counts == st.counts
  {}

  lemma FinishRecords(wf: Workflow, env: Env, st: State, o: StepOutcome, n: nat)
    ensures Kept(st, Finish(wf, env, st, o, n).1)
  {}

  lemma AdvanceRecords(wf: Workflow, st: State, t: Transition)
    ensures var m := Advance(wf, st, t); m.st.ctx == st.ctx && m.st.saved == st.saved && m.st.failure == st.failure
  {}

  lemma SettleRecords(wf: Workflow, env: Env, st: State, o: StepOutcome, n: nat)
    ensures var m := Settle(wf, env, st, o, n); Kept(st, m.st) && (m.Continue? ==> Checkpointed(st, m.st))
  {
    PersistRecords(wf, env, st, o, n);
    var p, taken := Persist(wf, env, st, o, n), FirstMatch(wf.transitions, st.step, o);
    if p.Stored? {
      FinishRecords(wf, env, p.st, o, n);
      if taken.Some? { AdvanceRecords(wf, p.st, taken.value); }
    }
  }

  /** The state a round works on once its step has been executed. */
  ghost function Worked(wf: Workflow, env: Env, st: State, n: nat): State
  {
    if env.interruptBefore(n) then st
    else match Prepare(wf, st)
         case None => st.(ctx := st.ctx.Enter(st.step))
         case Some(ready) => ready.(ctx := Execute(wf, env, ready, n).ctx)
  }

  lemma WorkedGrows(wf: Workflow, env: Env, st: State, n: nat)
    ensures var w := Worked(wf, env, st, n);
      Grown(st.ctx, w.ctx) && w == st.(ctx := w.ctx)
  {
    var p := Prepare(wf, st);
    if p.Some? { ExecuteGrows(wf, env, p.value, n); }
  }

  lemma RoundRecords(wf: Workflow, env: Env, st: State, n: nat)
    ensures var m, w := Round(wf, env, st, n), Worked(wf, env, st, n);
      Kept(w, m.st) && (m.Continue? ==> Checkpointed(w, m.st))
  {
    var p := Prepare(wf, st);
    if p.Some? {
      var e := Execute(wf, env, p.value, n);
      if e.Ran? {
        SettleRecords(wf, env, p.value.(ctx := e.ctx), e.outcome, n);
      }
    }
  }

  // ----- one interrupt at the loop head

  /** The runner of a new process: first step, no counters, only durable state kept. */
  function NewProcess(wf: Workflow, blank: Ctx, durable: State): State
  {
    State(if wf.steps == [] then "" else wf.steps[0].id, map[], blank, durable.failure, durable.saved)
  }

  /** Interrupted at the loop head, stored, and taken up by a new process. */
  ghost function Reborn(wf: Workflow, blank: Ctx, st: State): Option<State>
  {
    Resume(NewProcess(wf, blank, Store(st, "interrupted")))
  }

  /** The blank context seeds nothing the run does not hold, and the allowlist spares the reserved keys. */
  ghost predicate Seeded(blank: Ctx, c: Ctx)
  {
    blank.allow == c.allow && ReservedKeysFree(c.allow) && SeedsKept(c, blank)
  }

  lemma CarriedAlike(c: Ctx, blank: Ctx)
    requires Seeded(blank, c)
    ensures Alike(c, Carried(c, blank)) && Seeded(blank, Carried(c, blank))
  {
    var r := Carried(c, blank);
    assert Allowed(r.variables, c.allow) == Allowed(c.variables, c.allow);
    forall s | s in c.namespaced
      ensures Allowed(Allowed(c.namespaced[s], c.allow), c.allow) == Allowed(c.namespaced[s], c.allow) {}
  }

  /** An interrupt at the loop head, with no failed cleanup pending, leaves the same run to do. */
  lemma RebornSimilar(wf: Workflow, blank: Ctx, st: State)
    requires Seeded(blank, st.ctx) && !CleanupDue(st)
    ensures Reborn(wf, blank, st).Some?
    ensures Similar(st, Reborn(wf, blank, st).value) && Seeded(blank, Reborn(wf, blank, st).value.ctx)
  {
    CheckpointDecodes(st.ctx, blank, st.counts);
    CarriedAlike(st.ctx, blank);
    var values := Saved(st.ctx, st.counts);
    assert values[EDGE_COUNTS] == Counts(st.counts);
  }

  // ----- any number of interrupts

  ghost function Restarted(wf: Workflow, blank: Ctx, cut: bool, st: State): State
  {
    if cut && !CleanupDue(st) && Reborn(wf, blank, st).Some? then Reborn(wf, blank, st).value else st
  }

  lemma RestartedSimilar(wf: Workflow, blank: Ctx, cut: bool, st: State)
    requires Seeded(blank, st.ctx)
    ensures Similar(st, Restarted(wf, blank, cut, st)) && Seeded(blank, Restarted(wf, blank, cut, st).ctx)
  {
    if cut && !CleanupDue(st) { RebornSimilar(wf, blank, st); }
  }

  lemma RoundKeepsSeeds(wf: Workflow, env: Env, blank: Ctx, st: State, n: nat)
    requires Seeded(blank, st.ctx)
    ensures Seeded(blank, Round(wf, env, st, n).st.ctx)
  {
    RoundRecords(wf, env, st, n);
    WorkedGrows(wf, env, st, n);
  }

  /** The run in which the process is replaced at every loop head that `cut` selects. */
  ghost function RunCut(wf: Workflow, env: Env, blank: Ctx, cut: nat -> bool, st: State, n: nat): RunResult
    requires WithinLimits(wf, st.counts) && Seeded(blank, st.ctx)
    decreases Potential(wf, st.step, st.counts)
  {
    RestartedSimilar(wf, blank, cut(n), st);
    var here := Restarted(wf, blank, cut(n), st);
    RoundProgress(wf, env, here, n);
    RoundKeepsSeeds(wf, env, blank, here, n);
    var steps := StepsIn(wf, env, here, n);
    match Round(wf, env, here, n)
    case Stop(result, end) => RunResult(steps, result, end)
    case Continue(next) => After(steps, RunCut(wf, env, blank, cut, next, n + 1))
  }

  /** Interrupting at any loop heads and resuming gives the same steps and the
      same outcome as the uninterrupted run, and a similar final state. */
  lemma {:induction false} InterruptsInvisible(wf: Workflow, env: Env, blank: Ctx, cut: nat -> bool, a: State,
                                               b: State, n: nat)
    requires WithinLimits(wf, a.counts) && Similar(a, b) && Seeded(blank, b.ctx) && ReadsOnlyCarried(env)
    ensures var whole, pieces := Run(wf, env, a, n), RunCut(wf, env, blank, cut, b, n);
      whole.trace == pieces.trace && whole.outcome == pieces.outcome && Similar(whole.end, pieces.end)
    decreases Potential(wf, a.step, a.counts)
  {
    RestartedSimilar(wf, blank, cut(n), b);
    var here := Restarted(wf, blank, cut(n), b);
    SimilarTransitive(a, b, here);
    SimilarRound(wf, env, a, here, n);
    RoundProgress(wf, env, a, n);
    RoundProgress(wf, env, here, n);
    RoundKeepsSeeds(wf, env, blank, here, n);
    var ma, mb := Round(wf, env, a, n), Round(wf, env, here, n);
    if ma.Continue? {
      InterruptsInvisible(wf, env, blank, cut, ma.st, mb.st, n + 1);
    }
  }

  lemma SimilarTransitive(a: State, b: State, c: State)
    requires Similar(a, b) && Similar(b, c)
    ensures Similar(a, c)
  {}

  /** A run from round `n` on passed no loop head at which it is interrupted; if it
      ended interrupted, the flag was seen just where it ended, and it left the
      checkpoint of its own last state. */
  ghost predicate EndsAtInterrupt(env: Env, r: RunResult, n: nat)
  {
    && (forall m :: n <= m < n + |r.trace| ==> !env.interruptBefore(m))
    && (r.outcome.Interrupted? ==>
          && r.outcome.step == r.end.step && r.end == Store(r.end, "interrupted")
          && (env.interruptBefore(n + |r.trace|) || (r.trace != [] && env.interruptAfter(n + |r.trace| - 1))))
  }

  lemma SettleNeverInterrupts(wf: Workflow, env: Env, st: State, o: StepOutcome, n: nat)
    ensures var m := Settle(wf, env, st, o, n); m.Stop? ==> !m.result.Interrupted?
  {}

  lemma LastRound(wf: Workflow, env: Env, st: State, n: nat)
    ensures var m := Round(wf, env, st, n);
      m.Stop? ==> EndsAtInterrupt(env, RunResult(StepsIn(wf, env, st, n), m.result, m.st), n)
  {
    var m := Round(wf, env, st, n);
    var ready := Prepare(wf, st);
    if !env.interruptBefore(n) && ready.Some? {
      var executed := Execute(wf, env, ready.value, n);
      if executed.Ran? && !env.interruptAfter(n) {
        SettleNeverInterrupts(wf, env, ready.value.(ctx := executed.ctx), executed.outcome, n);
        assert m.Stop? ==> !m.result.Interrupted?;
      }
    }
  }

  lemma OneRoundMore(env: Env, steps: seq<string>, r: RunResult, n: nat)
    requires |steps| == 1 && !env.interruptBefore(n) && EndsAtInterrupt(env, r, n + 1)
    ensures EndsAtInterrupt(env, After(steps, r), n)
  {}

  /** A run that is interrupted stops at the first loop head where the flag is up,
      and leaves the checkpoint the next process takes up. */
  lemma {:induction false} InterruptedRunIsStored(wf: Workflow, env: Env, st: State, n: nat)
    requires WithinLimits(wf, st.counts)
    ensures EndsAtInterrupt(env, Run(wf, env, st, n), n)
    decreases Potential(wf, st.step, st.counts)
  {
    RunUnfolds(wf, env, st, n);
    RoundProgress(wf, env, st, n);
    LastRound(wf, env, st, n);
    var m := Round(wf, env, st, n);
    if m.Continue? {
      InterruptedRunIsStored(wf, env, m.st, n + 1);
      OneRoundMore(env, StepsIn(wf, env, st, n), Run(wf, env, m.st, n + 1), n);
    }
  }

  // ----- the loop budget across processes

  /** A stored context that decodes, with counters inside the budget. */
  ghost predicate Sound(wf: Workflow, allow: set<string>, values: map<string, Json>)
  {
    Restorable(allow, values) && WithinLimits(wf, LoadCounts(values))
  }

  ghost predicate Durable(wf: Workflow, st: State)
  {
    && ReservedKeysFree(st.ctx.allow) && WithinLimits(wf, st.counts)
    && (st.saved.Some? ==> Sound(wf, st.ctx.allow, st.saved.value.values))
    && (st.failure.Some? ==> Sound(wf, st.ctx.allow, st.failure.value.snapshot))
  }

  lemma SavedSound(wf: Workflow, c: Ctx, counts: EdgeCounts)
    requires ReservedKeysFree(c.allow) && WithinLimits(wf, counts)
    ensures Sound(wf, c.allow, Saved(c, counts)) && LoadCounts(Saved(c, counts)) == counts
  {
    CheckpointDecodes(c, c, counts);
  }

  /** The newest checkpoint stands at `step` with these counters. */
  ghost predicate SavedAt(saved: Option<Checkpoint>, step: string, counts: EdgeCounts)
  {
    saved.Some? && saved.value.step == step && LoadCounts(saved.value.values) == counts
  }

  lemma RoundKeepsDurable(wf: Workflow, env: Env, st: State, n: nat)
    requires Durable(wf, st)
    ensures var m := Round(wf, env, st, n);
      && Durable(wf, m.st) && m.st.ctx.allow == st.ctx.allow
      && (m.st.saved != st.saved || m.Continue? ==> SavedAt(m.st.saved, st.step, st.counts))
  {
    RoundProgress(wf, env, st, n);
    RoundRecords(wf, env, st, n);
    WorkedGrows(wf, env, st, n);
    SavedSound(wf, Worked(wf, env, st, n).ctx, st.counts);
  }

  /** How much a run can still do after its newest checkpoint is taken up again. */
  ghost function SavedPotential(wf: Workflow, st: State): nat
    requires Durable(wf, st) && st.saved.Some?
  {
    Potential(wf, st.saved.value.step, LoadCounts(st.saved.value.values))
  }

  /** A run that stores nothing dispatches at most one step; otherwise what it
      dispatched and what its checkpoint leaves to do exceed the potential by at
      most the two steps a resume may repeat. */
  lemma {:induction false} RunKeepsDurable(wf: Workflow, env: Env, st: State, n: nat)
    requires Durable(wf, st)
    ensures var r := Run(wf, env, st, n);
      && Durable(wf, r.end) && r.end.ctx.allow == st.ctx.allow
      && (if r.end.saved == st.saved && |r.trace| <= 1 then true
          else r.end.saved.Some? && |r.trace| + SavedPotential(wf, r.end) <= Potential(wf, st.step, st.counts) + 2)
    decreases Potential(wf, st.step, st.counts)
  {
    RoundKeepsDurable(wf, env, st, n);
    RoundProgress(wf, env, st, n);
    RunUnfolds(wf, env, st, n);
    var m := Round(wf, env, st, n);
    if m.Continue? {
      RunKeepsDurable(wf, env, m.st, n + 1);
    }
  }

  /** The counters a new process starts from are inside the budget, whatever it takes up. */
  lemma ResumeKeepsLimits(wf: Workflow, blank: Ctx, end: State)
    requires Durable(wf, end) && blank.allow == end.ctx.allow
    ensures var r := Resume(NewProcess(wf, blank, end));
      r.Some? ==> Durable(wf, r.value) && r.value.ctx.allow == blank.allow
  {}

  /** Where a process stands when it starts: at its checkpoint, or at the beginning. */
  ghost predicate Standing(wf: Workflow, blank: Ctx, st: State)
  {
    && Durable(wf, st) && blank.allow == st.ctx.allow
    && match st.saved
       case Some(cp) => st.step == cp.step && st.counts == LoadCounts(cp.values)
       case None => st.step == NewProcess(wf, blank, st).step && st.counts == map[]
  }

  /** The potential of the process that takes over. */
  lemma NextStanding(wf: Workflow, blank: Ctx, end: State)
    requires Durable(wf, end) && blank.allow == end.ctx.allow && !CleanupDue(end)
    ensures var next := Resume(NewProcess(wf, blank, end));
      && next.Some? && Standing(wf, blank, next.value) && next.value.saved == end.saved
      && (end.saved.Some? ==> Potential(wf, next.value.step, next.value.counts) == SavedPotential(wf, end))
  {}

  /** What one process dispatches, and the state the next one starts from, if
      no failed cleanup is pending. */
  ghost function Handover(wf: Workflow, env: Env, blank: Ctx, st: State, n: nat): Relay
    requires Durable(wf, st)
  {
    var run := Run(wf, env, st, n);
    Relay(|run.trace|, n + |run.trace|, if CleanupDue(run.end) then None else Resume(NewProcess(wf, blank, run.end)))
  }

  datatype Relay = Relay(steps: nat, dispatched: nat, next: Option<State>)

  lemma HandoverBounded(wf: Workflow, env: Env, blank: Ctx, st: State, n: nat)
    requires Standing(wf, blank, st)
    ensures var h := Handover(wf, env, blank, st, n);
      match h.next
      case None => h.steps <= Potential(wf, st.step, st.counts)
      case Some(next) =>
        Standing(wf, blank, next) &&
        h.steps + Potential(wf, next.step, next.counts) <= Potential(wf, st.step, st.counts) + 2
  {
    RunKeepsDurable(wf, env, st, n);
    RunBounded(wf, env, st, n);
    if !CleanupDue(Run(wf, env, st, n).end) {
      NextStanding(wf, blank, Run(wf, env, st, n).end);
    }
  }

  /** All steps dispatched by one process after another, each taking up the
      newest checkpoint of the one before, until a failed cleanup is pending. */
  ghost function TotalSteps(wf: Workflow, envs: seq<Env>, blank: Ctx, st: State, n: nat): nat
    requires Standing(wf, blank, st)
    decreases |envs|
  {
    if envs == [] then 0
    else
      HandoverBounded(wf, envs[0], blank, st, n);
      var h := Handover(wf, envs[0], blank, st, n);
      h.steps + if h.next.None? then 0 else TotalSteps(wf, envs[1..], blank, h.next.value, h.dispatched)
  }

  /** Across any number of processes the budget is spent only once: every
      process adds at most the two steps it may repeat. */
  lemma {:induction false} SegmentsBounded(wf: Workflow, envs: seq<Env>, blank: Ctx, st: State, n: nat)
    requires Standing(wf, blank, st)
    ensures TotalSteps(wf, envs, blank, st, n) <= Potential(wf, st.step, st.counts) + 2 * |envs|
    decreases |envs|
  {
    if envs != [] {
      HandoverBounded(wf, envs[0], blank, st, n);
      var h := Handover(wf, envs[0], blank, st, n);
      if h.next.Some? {
        SegmentsBounded(wf, envs[1..], blank, h.next.value, h.dispatched);
      }
    }
  }

  /** A whole run in K processes dispatches at most N * (1 + C) + 2 * K steps. */
  lemma ProcessesBounded(wf: Workflow, envs: seq<Env>, blank: Ctx)
    requires ReservedKeysFree(blank.allow)
    ensures var start := NewProcess(wf, blank, State("", map[], blank, None, None));
      Standing(wf, blank, start) &&
      TotalSteps(wf, envs, blank, start, 0) <= |wf.steps| * (1 + Capacity(wf)) + 2 * |envs|
  {
    var start := NewProcess(wf, blank, State("", map[], blank, None, None));
    SegmentsBounded(wf, envs, blank, start, 0);
    assert |wf.steps| * (1 + Capacity(wf)) == |wf.steps| + |wf.steps| * Capacity(wf);
    assert Walks(|wf.steps|, Remaining(wf, map[])) == |wf.steps| * Capacity(wf);
  }
}
