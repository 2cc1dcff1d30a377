/** What a run leaves: the context its executors are shown, the checkpoint and
    the record of failed work, and where the next process takes it up. */
module RunRecords {
  import opened Text
  import opened Context
  import opened Workflows
  import opened Engine
  import opened RunLaws

  // ----- the context as a log

  function Writes(writes: seq<(string, string)>): seq<Event>
  {
    if writes == [] then [] else [Wrote(writes[0].0, writes[0].1)] + Writes(writes[1..])
  }

  /** What the executor of step `j` writes, and the diagnostic of its error. */
  function Written(env: Env, j: nat, a: State): seq<Event>
  {
    var e := env.execute(j, a.step, a.ctx);
    Writes(e.writes) + match e.report
                       case StepError(m) => [Wrote("diagnostic", m)]
                       case ToolUnavailable(m) => [Wrote("diagnostic", m)]
                       case _ => []
  }

  /** A step is entered; a cleanup step is told which step failed, and how. */
  function Arrival(wf: Workflow, a: State): seq<Event>
  {
    [Entered(a.step)] +
    if IsCleanup(wf, a.step) && a.failure.Some?
    then [Wrote("failed_work_step", a.failure.value.failedStep),
          Wrote("failed_work_outcome", ConditionStr(a.failure.value.outcome))]
    else []
  }

  /** All that was entered and written up to the moment step `i` begins. */
  function LogUpTo(wf: Workflow, env: Env, s: seq<State>, n: nat, i: nat): seq<Event>
    requires i < |s|
  {
    if i == 0 then Arrival(wf, s[0])
    else LogUpTo(wf, env, s, n, i - 1) + (Written(env, n + i - 1, s[i - 1]) + Arrival(wf, s[i]))
  }

  lemma {:induction false} ReplayConcat(c: Ctx, a: seq<Event>, b: seq<Event>)
    ensures Replay(c, a + b) == Replay(Replay(c, a), b)
  {
    if b == [] {
      assert a + b == a;
    } else {
      assert (a + b)[..|a + b| - 1] == a + b[..|b| - 1];
      ReplayConcat(c, a, b[..|b| - 1]);
    }
  }

  lemma ReplayOne(c: Ctx, e: Event)
    ensures Replay(c, [e]) == Apply(c, e)
  {
    assert [e][..0] == [];
  }

  lemma {:induction false} ReplayWrites(c: Ctx, writes: seq<(string, string)>)
    ensures Replay(c, Writes(writes)) == WriteAll(c, writes)
    decreases |writes|
  {
    if writes != [] {
      var first := Wrote(writes[0].0, writes[0].1);
      ReplayConcat(c, [first], Writes(writes[1..]));
      ReplayOne(c, first);
      ReplayWrites(Apply(c, first), writes[1..]);
    }
  }

  lemma ReplayArrival(wf: Workflow, st: State)
    requires Prepare(wf, st).Some?
    ensures var a := Prepare(wf, st).value; a.ctx == Replay(st.ctx, Arrival(wf, a))
  {
    var a := Prepare(wf, st).value;
    ReplayOne(st.ctx, Entered(st.step));
    if IsCleanup(wf, st.step) {
      var f := a.failure.value;
      var x, y := Wrote("failed_work_step", f.failedStep), Wrote("failed_work_outcome", ConditionStr(f.outcome));
      ReplayConcat(st.ctx, [Entered(st.step)], [x, y]);
      ReplayTwo(st.ctx.Enter(st.step), x, y);
    } else {
      assert Arrival(wf, a) == [Entered(st.step)];
    }
  }

  lemma ReplayTwo(c: Ctx, x: Event, y: Event)
    ensures Replay(c, [x, y]) == Apply(Apply(c, x), y)
  {
    assert [x, y] == [x] + [y];
    ReplayConcat(c, [x], [y]);
    ReplayOne(c, x);
    ReplayOne(Apply(c, x), y);
  }

  lemma ReplayStep(wf: Workflow, env: Env, a: State, n: nat)
    requires Dispatched(wf, a.step)
    ensures Execute(wf, env, a, n).ctx == Replay(a.ctx, Written(env, n, a))
  {
    var e := env.execute(n, a.step, a.ctx);
    ReplayWrites(a.ctx, e.writes);
    match e.report {
      case StepError(m) =>
        ReplayConcat(a.ctx, Writes(e.writes), [Wrote("diagnostic", m)]);
        ReplayOne(WriteAll(a.ctx, e.writes), Wrote("diagnostic", m));
      case ToolUnavailable(m) =>
        ReplayConcat(a.ctx, Writes(e.writes), [Wrote("diagnostic", m)]);
        ReplayOne(WriteAll(a.ctx, e.writes), Wrote("diagnostic", m));
      case _ =>
        assert Writes(e.writes) + [] == Writes(e.writes);
    }
  }

  lemma SettleKeepsContext(wf: Workflow, env: Env, st: State, o: StepOutcome, n: nat)
    ensures Settle(wf, env, st, o, n).st.ctx == st.ctx
  {
    PersistKeeps(wf, env, st, o, n);
  }

  lemma RoundWrites(wf: Workflow, env: Env, st: State, n: nat)
    requires WithinLimits(wf, st.counts) && Round(wf, env, st, n).Continue?
    ensures var a := Shown(wf, env, st, n)[0];
      a.ctx == Replay(st.ctx, Arrival(wf, a)) && Round(wf, env, st, n).st.ctx == Replay(a.ctx, Written(env, n, a))
  {
    RoundProgress(wf, env, st, n);
    var a := Shown(wf, env, st, n)[0];
    var ran := Execute(wf, env, a, n);
    ReplayArrival(wf, st);
    ReplayStep(wf, env, a, n);
    SettleKeepsContext(wf, env, a.(ctx := ran.ctx), ran.outcome, n);
  }

  lemma Regroup(a: seq<Event>, b: seq<Event>, c: seq<Event>)
    ensures a + b + c == a + (b + c)
  {}

  lemma {:induction false} LogLater(wf: Workflow, env: Env, a: State, later: seq<State>, n: nat, i: nat)
    requires i < |later|
    ensures LogUpTo(wf, env, [a] + later, n, i + 1)
         == Arrival(wf, a) + Written(env, n, a) + LogUpTo(wf, env, later, n + 1, i)
  {
    var s := [a] + later;
    var first := Arrival(wf, a) + Written(env, n, a);
    assert s[i + 1] == later[i];
    if i == 0 {
      Regroup(Arrival(wf, a), Written(env, n, a), Arrival(wf, later[0]));
    } else {
      LogLater(wf, env, a, later, n, i - 1);
      var more := Written(env, n + i, later[i - 1]) + Arrival(wf, later[i]);
      assert n + 1 + i - 1 == n + i && s[i] == later[i - 1];
      Regroup(first, LogUpTo(wf, env, later, n + 1, i - 1), more);
    }
  }

  /** Each executor is shown what the log up to its step makes of the first context. */
  ghost predicate ToldByLog(wf: Workflow, env: Env, s: seq<State>, n: nat, c: Ctx)
  {
    forall i :: 0 <= i < |s| ==> s[i].ctx == Replay(c, LogUpTo(wf, env, s, n, i))
  }

  lemma LogCons(wf: Workflow, env: Env, a: State, later: seq<State>, n: nat, c: Ctx, after: Ctx)
    requires a.ctx == Replay(c, Arrival(wf, a)) && after == Replay(a.ctx, Written(env, n, a))
    requires ToldByLog(wf, env, later, n + 1, after)
    ensures ToldByLog(wf, env, [a] + later, n, c)
  {
    var s := [a] + later;
    ReplayConcat(c, Arrival(wf, a), Written(env, n, a));
    forall i | 0 <= i < |s| ensures s[i].ctx == Replay(c, LogUpTo(wf, env, s, n, i)) {
      if i > 0 {
        assert later[i - 1].ctx == Replay(after, LogUpTo(wf, env, later, n + 1, i - 1));
        LogUpToLater(wf, env, a, later, n, c, after, i - 1);
      }
    }
  }

  lemma LogUpToLater(wf: Workflow, env: Env, a: State, later: seq<State>, n: nat, c: Ctx, after: Ctx, i: nat)
    requires i < |later| && after == Replay(c, Arrival(wf, a) + Written(env, n, a))
    ensures Replay(c, LogUpTo(wf, env, [a] + later, n, i + 1)) == Replay(after, LogUpTo(wf, env, later, n + 1, i))
  {
    LogLater(wf, env, a, later, n, i);
    ReplayConcat(c, Arrival(wf, a) + Written(env, n, a), LogUpTo(wf, env, later, n + 1, i));
  }

  /** What the executors of a run are shown is the replay of all that was entered
      and written before. */
  lemma {:induction false} RunReplaysLog(wf: Workflow, env: Env, st: State, n: nat)
    requires WithinLimits(wf, st.counts)
    ensures ToldByLog(wf, env, Seen(wf, env, st, n), n, st.ctx)
    decreases Potential(wf, st.step, st.counts)
  {
    RoundProgress(wf, env, st, n);
    var m := Round(wf, env, st, n);
    if m.Continue? {
      RoundWrites(wf, env, st, n);
      RunReplaysLog(wf, env, m.st, n + 1);
      var a, later := Shown(wf, env, st, n)[0], Seen(wf, env, m.st, n + 1);
      LogCons(wf, env, a, later, n, st.ctx, m.st.ctx);
      assert Seen(wf, env, st, n) == [a] + later;
    } else {
      OnlyArrival(wf, env, st, n);
    }
  }

  lemma OnlyArrival(wf: Workflow, env: Env, st: State, n: nat)
    ensures ToldByLog(wf, env, Shown(wf, env, st, n), n, st.ctx)
  {
    if Dispatches(wf, env, st, n) { ReplayArrival(wf, st); }
  }

  // ----- the checkpoint

  function StatusOf(outcome: RunOutcome): string
  {
    match outcome
    case Interrupted(_) => "interrupted"
    case WaitingExternal(_) => "waiting"
    case _ => "completed"
  }

  lemma SettleStores(wf: Workflow, env: Env, st: State, o: StepOutcome, n: nat)
    ensures var m := Settle(wf, env, st, o, n);
      m.Stop? && !m.result.Error? ==> m.st.saved == Some(CheckpointAt(m.st, StatusOf(m.result)))
  {}

  lemma RoundStores(wf: Workflow, env: Env, st: State, n: nat)
    ensures var m := Round(wf, env, st, n);
      m.Stop? && !m.result.Error? ==> m.st.saved == Some(CheckpointAt(m.st, StatusOf(m.result)))
  {
    var ready := Prepare(wf, st);
    if ready.Some? {
      var ran := Execute(wf, env, ready.value, n);
      if ran.Ran? { SettleStores(wf, env, ready.value.(ctx := ran.ctx), ran.outcome, n); }
    }
  }

  /** A run that ends without an error leaves the checkpoint of its last state,
      marked interrupted, waiting or completed. */
  lemma {:induction false} RunStores(wf: Workflow, env: Env, st: State, n: nat, r: RunResult)
    requires WithinLimits(wf, st.counts) && r == Run(wf, env, st, n) && !r.outcome.Error?
    ensures r.end.saved == Some(CheckpointAt(r.end, StatusOf(r.outcome)))
    decreases Potential(wf, st.step, st.counts)
  {
    RunUnfolds(wf, env, st, n);
    RoundProgress(wf, env, st, n);
    RoundStores(wf, env, st, n);
    var m := Round(wf, env, st, n);
    if m.Continue? { RunStores(wf, env, m.st, n + 1, Run(wf, env, m.st, n + 1)); }
  }

  // ----- the record of failed work

  /** What the end of a run leaves on record of failed work. */
  predicate LeavesOnRecord(result: RunOutcome, failure: Option<Failure>)
  {
    && (result.Failed? && result.reason.OwnershipLost? ==>
          failure.Some? && failure.value.failedStep == result.step && failure.value.ownershipDenied
          && !failure.value.cleanupSucceeded)
    && (result.Failed? && result.reason.CleanupEnded? ==>
          failure.Some? && failure.value.failedStep == result.step)
    && (result.Abandoned? && result.reason.CleanedUp? ==>
          failure.Some? && failure.value.failedStep == result.step && failure.value.cleanupSucceeded)
  }

  lemma SettleLeaves(wf: Workflow, env: Env, st: State, o: StepOutcome, n: nat)
    ensures var m := Settle(wf, env, st, o, n); m.Stop? ==> LeavesOnRecord(m.result, m.st.failure)
  {}

  lemma RoundLeaves(wf: Workflow, env: Env, st: State, n: nat)
    ensures var m := Round(wf, env, st, n); m.Stop? ==> LeavesOnRecord(m.result, m.st.failure)
  {
    var ready := Prepare(wf, st);
    if ready.Some? {
      var ran := Execute(wf, env, ready.value, n);
      if ran.Ran? { SettleLeaves(wf, env, ready.value.(ctx := ran.ctx), ran.outcome, n); }
    }
  }

  /** A run that fails for lost ownership leaves the step that failed on record, and
      that its cleanup must not run; one that ends in cleanup leaves the step that
      failed, with the cleanup done exactly if the run is abandoned for it. */
  lemma {:induction false} RunLeaves(wf: Workflow, env: Env, st: State, n: nat, r: RunResult)
    requires WithinLimits(wf, st.counts) && r == Run(wf, env, st, n)
    ensures LeavesOnRecord(r.outcome, r.end.failure)
    decreases Potential(wf, st.step, st.counts)
  {
    RunUnfolds(wf, env, st, n);
    RoundProgress(wf, env, st, n);
    RoundLeaves(wf, env, st, n);
    var m := Round(wf, env, st, n);
    if m.Continue? { RunLeaves(wf, env, m.st, n + 1, Run(wf, env, m.st, n + 1)); }
  }

  // ----- the next process

  /** The first step a run dispatches is the one it stands at. */
  lemma FirstDispatched(wf: Workflow, env: Env, st: State, n: nat)
    requires WithinLimits(wf, st.counts)
    ensures Run(wf, env, st, n).trace != [] ==> Run(wf, env, st, n).trace[0] == st.step
  {
    RunFollowsEdges(wf, env, st, n);
  }

  /** A process that finds failed work not cleaned up dispatches the recorded
      cleanup step first, with the counters the failed step had; it is refused
      exactly when ownership was denied or the record does not decode. */
  lemma ResumeCleansUpFirst(wf: Workflow, env: Env, st: State, n: nat)
    requires st.failure.Some? && !st.failure.value.cleanupSucceeded
    ensures var f := st.failure.value;
      && (Resume(st).None? <==> f.ownershipDenied || !Restorable(st.ctx.allow, f.snapshot))
      && (Resume(st).Some? ==>
            var next := Resume(st).value;
            next.counts == LoadCounts(f.snapshot) && next.failure == st.failure
            && (WithinLimits(wf, next.counts) && Run(wf, env, next, n).trace != [] ==>
                  Run(wf, env, next, n).trace[0] == f.cleanupStep))
  {
    if Resume(st).Some? && WithinLimits(wf, Resume(st).value.counts) {
      FirstDispatched(wf, env, Resume(st).value, n);
    }
  }

  /** Any other process goes on with the step of the newest checkpoint, or where
      it stands if there is none. */
  lemma ResumeGoesOn(wf: Workflow, env: Env, st: State, n: nat)
    requires st.failure.Some? ==> st.failure.value.cleanupSucceeded
    requires Resume(st).Some? && WithinLimits(wf, Resume(st).value.counts)
    ensures var trace := Run(wf, env, Resume(st).value, n).trace;
      trace != [] ==> trace[0] == if st.saved.Some? then st.saved.value.step else st.step
  {
    FirstDispatched(wf, env, Resume(st).value, n);
  }
}
