/** What a run does, told from the steps it dispatches: which step follows which,
    what every executor is shown, and how the run ends. */
module RunLaws {
  import opened Text
  import opened Numbers
  import opened Context
  import opened Workflows
  import opened Engine

  // ----- the steps of a run

  /** The state the executor of a round is shown, if the round reaches one. */
  function Shown(wf: Workflow, env: Env, st: State, n: nat): seq<State>
  {
    if Dispatches(wf, env, st, n) then [Prepare(wf, st).value] else []
  }

  /** The states the executors are shown, one for each dispatched step. */
  ghost function Seen(wf: Workflow, env: Env, st: State, n: nat): seq<State>
    requires WithinLimits(wf, st.counts)
    decreases Potential(wf, st.step, st.counts)
  {
    RoundProgress(wf, env, st, n);
    match Round(wf, env, st, n)
    case Stop(_, _) => Shown(wf, env, st, n)
    case Continue(next) => Shown(wf, env, st, n) + Seen(wf, env, next, n + 1)
  }

  /** What a report counts as; other errors end the run. */
  function Reported(report: Report): Option<StepOutcome>
  {
    match report
    case Finished(o) => Some(o)
    case StepError(_) => Some(Fatal)
    case ToolUnavailable(_) => Some(Fatal)
    case OtherError => None
  }

  /** What the executor of step `j` answers in `a`. */
  function Answer(env: Env, j: nat, a: State): Option<StepOutcome>
  {
    Reported(env.execute(j, a.step, a.ctx).report)
  }

  predicate NoneApplies(wf: Workflow, step: string, o: StepOutcome)
  {
    forall t :: t in wf.transitions ==> !Applies(t, step, o)
  }

  /** Step `j` answered `o`, was not interrupted, and its result was kept. */
  predicate Kept(env: Env, j: nat, a: State, o: StepOutcome)
  {
    Answer(env, j, a) == Some(o) && !env.interruptAfter(j) && !env.persistFails(j)
  }

  /** The edge leads failed work into a cleanup step of a workspace that is not the run's own. */
  predicate Forbidden(wf: Workflow, env: Env, j: nat, o: StepOutcome, t: Transition)
  {
    o != Success && IsCleanup(wf, t.to) && env.ownershipDenied(j)
  }

  /** Step `j` leads on to edge `t`: the first that applies to its answer. */
  predicate LeadsTo(wf: Workflow, env: Env, j: nat, a: State, o: StepOutcome, t: Transition)
  {
    Kept(env, j, a, o) && o != Abandon && FirstMatch(wf.transitions, a.step, o) == Some(t)
  }

  /** The edge's counter has reached its limit. */
  predicate UsedUp(wf: Workflow, counts: EdgeCounts, t: Transition)
  {
    Limited(wf, t) && CountOf(counts, KeyOf(t)) >= LimitOf(wf, t)
  }

  /** Step `j` leads on to edge `t`, which may be taken. */
  predicate Takes(wf: Workflow, env: Env, j: nat, a: State, o: StepOutcome, t: Transition)
  {
    LeadsTo(wf, env, j, a, o, t) && !Forbidden(wf, env, j, o, t) && !UsedUp(wf, a.counts, t)
  }

  /** Limited edges are counted, others are not. */
  function Counted(wf: Workflow, counts: EdgeCounts, t: Transition): EdgeCounts
  {
    if Limited(wf, t) then counts[KeyOf(t) := CountOf(counts, KeyOf(t)) + 1] else counts
  }

  /** What is recorded of failed work when edge `t` is taken in `a`. */
  ghost predicate Recorded(wf: Workflow, a: State, o: StepOutcome, t: Transition, after: Option<Failure>)
  {
    if IsCleanup(wf, a.step) then
      a.failure.Some? && after.Some?
      && after.value == a.failure.value.(cleanupSucceeded := after.value.cleanupSucceeded)
      && (after.value.cleanupSucceeded <==> a.failure.value.cleanupSucceeded || o == Success)
    else if o != Success && IsCleanup(wf, t.to) then
      && after.Some? && after.value.failedStep == a.step && after.value.outcome == o
      && after.value.cleanupStep == t.to && !after.value.cleanupSucceeded && !after.value.ownershipDenied
      && LoadCounts(after.value.snapshot) == a.counts
    else after == a.failure
  }

  /** In `b` the run stands where edge `t`, taken in `a`, leads. */
  ghost predicate Follows(wf: Workflow, env: Env, j: nat, a: State, o: StepOutcome, t: Transition, b: State)
  {
    && Takes(wf, env, j, a, o, t) && b.step == t.to && b.counts == Counted(wf, a.counts, t)
    && Recorded(wf, a, o, t, b.failure)
  }

  ghost predicate Linked(wf: Workflow, env: Env, j: nat, a: State, b: State)
  {
    exists o, t :: Follows(wf, env, j, a, o, t, b)
  }

  // ----- one round

  lemma PersistLaw(wf: Workflow, env: Env, st: State, o: StepOutcome, n: nat, t: Transition)
    requires !env.persistFails(n) && !Forbidden(wf, env, n, o, t) && (IsCleanup(wf, st.step) ==> st.failure.Some?)
    requires o != Abandon && FirstMatch(wf.transitions, st.step, o) == Some(t)
    ensures var p := Persist(wf, env, st, o, n);
      p.Stored? && p.st.step == st.step && p.st.counts == st.counts && Recorded(wf, st, o, t, p.st.failure)
  {}

  lemma AdvanceTakes(wf: Workflow, st: State, t: Transition)
    ensures var m := Advance(wf, st, t);
      if UsedUp(wf, st.counts, t)
      then m.Stop? && m.result == Abandoned(st.step, EdgeLimitReached(LimitOf(wf, t), KeyOf(t)))
      else m.Continue? && m.st.step == t.to && m.st.counts == Counted(wf, st.counts, t) && m.st.failure == st.failure
  {}

  lemma SettleOnEdge(wf: Workflow, env: Env, st: State, o: StepOutcome, n: nat, t: Transition)
    requires (IsCleanup(wf, st.step) ==> st.failure.Some?) && !env.persistFails(n)
    requires o != Abandon && FirstMatch(wf.transitions, st.step, o) == Some(t)
    ensures var m := Settle(wf, env, st, o, n);
      if Forbidden(wf, env, n, o, t) then m.Stop? && m.result == Failed(st.step, OwnershipLost)
      else if UsedUp(wf, st.counts, t)
      then m.Stop? && m.result == Abandoned(st.step, EdgeLimitReached(LimitOf(wf, t), KeyOf(t)))
      else m.Continue? && m.st.step == t.to && m.st.counts == Counted(wf, st.counts, t)
           && Recorded(wf, st, o, t, m.st.failure)
  {
    if !Forbidden(wf, env, n, o, t) {
      PersistLaw(wf, env, st, o, n, t);
      AdvanceTakes(wf, Persist(wf, env, st, o, n).st, t);
    }
  }

  /** A result that is kept and leads on along an edge that may be taken leads
      there, and nothing else goes on. */
  lemma SettleGoesOn(wf: Workflow, env: Env, st: State, o: StepOutcome, n: nat)
    requires (IsCleanup(wf, st.step) ==> st.failure.Some?) && Settle(wf, env, st, o, n).Continue?
    ensures var next := Settle(wf, env, st, o, n).st;
      && !env.persistFails(n) && o != Abandon && FirstMatch(wf.transitions, st.step, o).Some?
      && var t := FirstMatch(wf.transitions, st.step, o).value;
         && !Forbidden(wf, env, n, o, t) && !UsedUp(wf, st.counts, t)
         && next.step == t.to && next.counts == Counted(wf, st.counts, t) && Recorded(wf, st, o, t, next.failure)
  {
    var taken := FirstMatch(wf.transitions, st.step, o);
    if !env.persistFails(n) && o != Abandon && taken.Some? {
      SettleOnEdge(wf, env, st, o, n, taken.value);
    }
  }

  lemma RoundGoesOn(wf: Workflow, env: Env, st: State, n: nat)
    requires WithinLimits(wf, st.counts)
    ensures var m := Round(wf, env, st, n);
      m.Continue? ==> Dispatches(wf, env, st, n) && Linked(wf, env, n, Prepare(wf, st).value, m.st)
  {
    RoundProgress(wf, env, st, n);
    var m := Round(wf, env, st, n);
    if m.Continue? {
      var a := Prepare(wf, st).value;
      var ran := Execute(wf, env, a, n);
      var after := a.(ctx := ran.ctx);
      SettleGoesOn(wf, env, after, ran.outcome, n);
      var t := FirstMatch(wf.transitions, a.step, ran.outcome).value;
      assert Recorded(wf, a, ran.outcome, t, m.st.failure);
      assert Follows(wf, env, n, a, ran.outcome, t, m.st);
    }
  }

  // ----- the last round

  function Last(s: seq<State>): State
    requires s != []
  {
    s[|s| - 1]
  }

  function StepsOf(s: seq<State>): seq<string> { if s == [] then [] else [s[0].step] + StepsOf(s[1..]) }

  /** From each shown state to the next the edge its answer leads to. */
  ghost predicate Chain(wf: Workflow, env: Env, s: seq<State>, n: nat)
  {
    forall i :: 0 <= i < |s| - 1 ==> Linked(wf, env, n + i, s[i], s[i + 1])
  }

  predicate Starts(s: seq<State>, st: State)
  {
    s != [] ==> s[0].step == st.step && s[0].counts == st.counts && s[0].failure == st.failure
  }

  lemma LinkedAlike(wf: Workflow, env: Env, n: nat, a: State, b: State, c: State)
    requires Linked(wf, env, n, a, b) && b.step == c.step && b.counts == c.counts && b.failure == c.failure
    ensures Linked(wf, env, n, a, c)
  {
    var o, t :| Follows(wf, env, n, a, o, t, b);
    assert Follows(wf, env, n, a, o, t, c);
  }

  lemma ChainCons(wf: Workflow, env: Env, a: State, later: seq<State>, n: nat)
    requires Chain(wf, env, later, n + 1) && (later != [] ==> Linked(wf, env, n, a, later[0]))
    ensures Chain(wf, env, [a] + later, n)
  {
    var s := [a] + later;
    forall i | 0 <= i < |s| - 1 ensures Linked(wf, env, n + i, s[i], s[i + 1]) {
      if i > 0 { assert Linked(wf, env, (n + 1) + (i - 1), later[i - 1], later[i]); }
    }
  }

  lemma ShownAs(wf: Workflow, env: Env, st: State, n: nat)
    ensures var s := Shown(wf, env, st, n); StepsOf(s) == StepsIn(wf, env, st, n) && Starts(s, st)
  {}

  /** One shown state for each dispatched step, from the first on, each followed
      by the one its answer leads to. */
  lemma {:induction false} RunFollowsEdges(wf: Workflow, env: Env, st: State, n: nat)
    requires WithinLimits(wf, st.counts)
    ensures StepsOf(Seen(wf, env, st, n)) == Run(wf, env, st, n).trace
    ensures Starts(Seen(wf, env, st, n), st) && Chain(wf, env, Seen(wf, env, st, n), n)
    decreases Potential(wf, st.step, st.counts)
  {
    RunUnfolds(wf, env, st, n);
    RoundProgress(wf, env, st, n);
    RoundGoesOn(wf, env, st, n);
    ShownAs(wf, env, st, n);
    var m := Round(wf, env, st, n);
    if m.Continue? {
      RunFollowsEdges(wf, env, m.st, n + 1);
      var a, later := Shown(wf, env, st, n)[0], Seen(wf, env, m.st, n + 1);
      if later != [] { LinkedAlike(wf, env, n, a, m.st, later[0]); }
      ChainCons(wf, env, a, later, n);
      assert Seen(wf, env, st, n) == [a] + later && ([a] + later)[1..] == later;
    }
  }

  // ----- where the last round stops

  /** What a kept result comes to when no edge leads on from it. */
  predicate EndsWith(wf: Workflow, env: Env, st: State, o: StepOutcome, n: nat, result: RunOutcome)
  {
    if IsCleanup(wf, st.step) then
      st.failure.Some? &&
      result == if o == Success then Abandoned(st.failure.value.failedStep, CleanedUp)
                else Failed(st.failure.value.failedStep, CleanupEnded(o))
    else if o == Abandon then result == Abandoned(st.step, StepAbandoned)
    else if env.completionFails(n) then result == Error(PersistenceError)
    else if o == Wait then result == WaitingExternal(st.step)
    else if o == Success then result == Succeeded
    else result == Failed(st.step, NoTransition(o))
  }

  lemma SettleStops(wf: Workflow, env: Env, st: State, o: StepOutcome, n: nat)
    requires (IsCleanup(wf, st.step) ==> st.failure.Some?) && !env.persistFails(n)
    requires o == Abandon || FirstMatch(wf.transitions, st.step, o).None?
    ensures var m := Settle(wf, env, st, o, n); m.Stop? && EndsWith(wf, env, st, o, n, m.result)
  {}

  /** How a round ends that reached an executor, from what that was shown. */
  predicate StopsAfter(wf: Workflow, env: Env, a: State, n: nat, result: RunOutcome)
  {
    match Answer(env, n, a)
    case None => result == Error(StepFailed)
    case Some(o) =>
      if env.interruptAfter(n) then result == Interrupted(a.step)
      else if env.persistFails(n) then result == Error(PersistenceError)
      else
        var taken := FirstMatch(wf.transitions, a.step, o);
        if o == Abandon || taken.None? then EndsWith(wf, env, a, o, n, result)
        else if Forbidden(wf, env, n, o, taken.value) then result == Failed(a.step, OwnershipLost)
        else
          UsedUp(wf, a.counts, taken.value)
          && result == Abandoned(a.step, EdgeLimitReached(LimitOf(wf, taken.value), KeyOf(taken.value)))
  }

  lemma RoundStopsAfter(wf: Workflow, env: Env, h: State, n: nat)
    requires Dispatches(wf, env, h, n) && Round(wf, env, h, n).Stop?
    ensures StopsAfter(wf, env, Prepare(wf, h).value, n, Round(wf, env, h, n).result)
  {
    var a := Prepare(wf, h).value;
    var executed := Execute(wf, env, a, n);
    if executed.Ran? && !env.interruptAfter(n) && !env.persistFails(n) {
      var o, b := executed.outcome, a.(ctx := executed.ctx);
      var taken := FirstMatch(wf.transitions, a.step, o);
      if o == Abandon || taken.None? {
        SettleStops(wf, env, b, o, n);
        assert EndsWith(wf, env, a, o, n, Round(wf, env, h, n).result);
      } else {
        SettleOnEdge(wf, env, b, o, n, taken.value);
      }
    }
  }

  predicate Listed(wf: Workflow, step: string) { exists s :: s in wf.steps && s.id == step }

  /** The first step of that id has an executor. */
  predicate HasExecutor(wf: Workflow, step: string)
  {
    exists i :: 0 <= i < |wf.steps| && wf.steps[i].id == step && wf.steps[i].registered
                && forall j :: 0 <= j < i ==> wf.steps[j].id != step
  }

  /** How a round ends at its head. */
  predicate StopsAt(wf: Workflow, env: Env, h: State, n: nat, result: RunOutcome)
  {
    if env.interruptBefore(n) then result == Interrupted(h.step)
    else if IsCleanup(wf, h.step) && h.failure.None? then result == Error(NoProvenance)
    else if !Listed(wf, h.step) then result == Error(StepNotFound)
    else !HasExecutor(wf, h.step) && result == Error(StepFailed)
  }

  lemma RoundStopsAt(wf: Workflow, env: Env, h: State, n: nat)
    requires !Dispatches(wf, env, h, n)
    ensures Round(wf, env, h, n).Stop? && StopsAt(wf, env, h, n, Round(wf, env, h, n).result)
  {
    assert Listed(wf, h.step) <==> Index(wf.steps, h.step).Some?;
  }

  /** A run that showed `s` ends with this outcome: behind its last dispatched step,
      or at the head `h` that step leads to. */
  ghost predicate Ends(wf: Workflow, env: Env, st: State, s: seq<State>, n: nat, outcome: RunOutcome, behind: bool,
                       h: State)
  {
    if behind then s != [] && StopsAfter(wf, env, Last(s), n + |s| - 1, outcome)
    else StopsAt(wf, env, h, n + |s|, outcome)
         && (if s == [] then h == st
             else Linked(wf, env, n + |s| - 1, Last(s), h))
  }

  lemma EndsLater(wf: Workflow, env: Env, st: State, a: State, next: State, later: seq<State>, n: nat,
                  outcome: RunOutcome, behind: bool, h: State)
    requires Ends(wf, env, next, later, n + 1, outcome, behind, h) && Linked(wf, env, n, a, next)
    ensures Ends(wf, env, st, [a] + later, n, outcome, behind, h)
  {
    var s := [a] + later;
    assert n + |s| == n + 1 + |later|;
    if later != [] { assert Last(s) == Last(later); }
  }

  lemma FinalBehind(wf: Workflow, env: Env, st: State, n: nat)
    requires Dispatches(wf, env, st, n) && Round(wf, env, st, n).Stop?
    ensures Ends(wf, env, st, Shown(wf, env, st, n), n, Round(wf, env, st, n).result, true, st)
  {
    RoundStopsAfter(wf, env, st, n);
    assert Last(Shown(wf, env, st, n)) == Prepare(wf, st).value;
  }

  lemma FinalAtHead(wf: Workflow, env: Env, st: State, n: nat)
    requires !Dispatches(wf, env, st, n)
    ensures Round(wf, env, st, n).Stop?
    ensures Ends(wf, env, st, Shown(wf, env, st, n), n, Round(wf, env, st, n).result, false, st)
  {
    RoundStopsAt(wf, env, st, n);
  }

  lemma {:induction false} RunEnds(wf: Workflow, env: Env, st: State, n: nat) returns (behind: bool, h: State)
    requires WithinLimits(wf, st.counts)
    ensures Ends(wf, env, st, Seen(wf, env, st, n), n, Run(wf, env, st, n).outcome, behind, h)
    decreases Potential(wf, st.step, st.counts)
  {
    RunUnfolds(wf, env, st, n);
    RoundProgress(wf, env, st, n);
    RoundGoesOn(wf, env, st, n);
    var m := Round(wf, env, st, n);
    if m.Continue? {
      behind, h := RunEnds(wf, env, m.st, n + 1);
      var a, later := Shown(wf, env, st, n)[0], Seen(wf, env, m.st, n + 1);
      EndsLater(wf, env, st, a, m.st, later, n, Run(wf, env, m.st, n + 1).outcome, behind, h);
      assert Seen(wf, env, st, n) == [a] + later;
    } else {
      behind, h := Dispatches(wf, env, st, n), st;
      if behind { FinalBehind(wf, env, st, n); } else { FinalAtHead(wf, env, st, n); }
    }
  }

  // ----- how a run ends

  /** The last of the steps shown `s` answered `o`, and its result was kept. */
  predicate LastAnswered(env: Env, s: seq<State>, n: nat, o: StepOutcome)
  {
    s != [] && Kept(env, n + |s| - 1, Last(s), o)
  }

  /** It did, and no transition applies to that. */
  predicate NowhereToGo(wf: Workflow, env: Env, s: seq<State>, n: nat, o: StepOutcome)
  {
    LastAnswered(env, s, n, o) && NoneApplies(wf, Last(s).step, o)
  }

  /** That outside cleanup, and the completion of the run was recorded. */
  predicate Concludes(wf: Workflow, env: Env, s: seq<State>, n: nat, o: StepOutcome)
  {
    NowhereToGo(wf, env, s, n, o) && !IsCleanup(wf, Last(s).step) && !env.completionFails(n + |s| - 1)
  }

  /** The work recorded as failed when the last step began. */
  predicate FailedWork(s: seq<State>, x: string)
  {
    s != [] && Last(s).failure.Some? && Last(s).failure.value.failedStep == x
  }

  predicate LastIs(s: seq<State>, x: string) { s != [] && Last(s).step == x }

  lemma LedOn(wf: Workflow, env: Env, a: State, j: nat, h: State)
    requires Linked(wf, env, j, a, h)
    ensures Answer(env, j, a).Some?
    ensures var o := Answer(env, j, a).value;
      && Kept(env, j, a, o) && o != Abandon && FirstMatch(wf.transitions, a.step, o).Some?
      && Follows(wf, env, j, a, o, FirstMatch(wf.transitions, a.step, o).value, h)
  {}

  /** How the last step's answer, the edges and the surroundings decide the outcome. */
  lemma OutcomesOutside(wf: Workflow, env: Env, st: State, s: seq<State>, n: nat, r: RunOutcome, behind: bool, h: State,
                        x: string, o: StepOutcome)
    requires Ends(wf, env, st, s, n, r, behind, h)
    ensures r == Succeeded <==> Concludes(wf, env, s, n, Success)
    ensures r == WaitingExternal(x) <==> Concludes(wf, env, s, n, Wait) && LastIs(s, x)
    ensures r == Failed(x, NoTransition(o)) <==>
      Concludes(wf, env, s, n, o) && o != Success && o != Wait && o != Abandon && LastIs(s, x)
    ensures r == Abandoned(x, StepAbandoned) <==>
      LastAnswered(env, s, n, Abandon) && !IsCleanup(wf, Last(s).step) && LastIs(s, x)
  {
    if !behind && s != [] { LedOn(wf, env, Last(s), n + |s| - 1, h); }
  }

  lemma OutcomesInside(wf: Workflow, env: Env, st: State, s: seq<State>, n: nat, r: RunOutcome, behind: bool, h: State,
                       x: string, o: StepOutcome)
    requires Ends(wf, env, st, s, n, r, behind, h)
    ensures r == Abandoned(x, CleanedUp) <==>
      NowhereToGo(wf, env, s, n, Success) && IsCleanup(wf, Last(s).step) && FailedWork(s, x)
    ensures r == Failed(x, CleanupEnded(o)) <==>
      && (NowhereToGo(wf, env, s, n, o) || (o == Abandon && LastAnswered(env, s, n, o)))
      && o != Success && IsCleanup(wf, Last(s).step) && FailedWork(s, x)
  {
    if !behind && s != [] { LedOn(wf, env, Last(s), n + |s| - 1, h); }
  }

  /** Step `j` leads on to an edge that is used up. */
  predicate MeetsLimit(wf: Workflow, env: Env, j: nat, a: State, limit: nat, key: string)
  {
    var o := Answer(env, j, a);
    o.Some? &&
    var t := FirstMatch(wf.transitions, a.step, o.value);
    t.Some? && LeadsTo(wf, env, j, a, o.value, t.value) && !Forbidden(wf, env, j, o.value, t.value)
    && key == t.value.from + ":" + t.value.to
    && limit == (if t.value.maxIterations.Some? then t.value.maxIterations.value else wf.maxLoops)
    && Limited(wf, t.value) && (if key in a.counts then a.counts[key] else 0) >= limit
  }

  /** Step `j` leads failed work on to a cleanup step of a workspace that is not the run's own. */
  predicate LosesOwnership(wf: Workflow, env: Env, j: nat, a: State)
  {
    var o := Answer(env, j, a);
    o.Some? &&
    var t := FirstMatch(wf.transitions, a.step, o.value);
    t.Some? && LeadsTo(wf, env, j, a, o.value, t.value) && Forbidden(wf, env, j, o.value, t.value)
  }

  lemma OutcomesOnEdge(wf: Workflow, env: Env, st: State, s: seq<State>, n: nat, r: RunOutcome, behind: bool, h: State,
                       x: string, limit: nat, key: string)
    requires Ends(wf, env, st, s, n, r, behind, h)
    ensures r == Abandoned(x, EdgeLimitReached(limit, key)) <==>
      LastIs(s, x) && MeetsLimit(wf, env, n + |s| - 1, Last(s), limit, key)
    ensures r == Failed(x, OwnershipLost) <==> LastIs(s, x) && LosesOwnership(wf, env, n + |s| - 1, Last(s))
  {
    if !behind && s != [] { LedOn(wf, env, Last(s), n + |s| - 1, h); }
  }

  /** Step `j` leads to the head of step `at`; `provenance`: with failed work recorded. */
  predicate Arrives(wf: Workflow, env: Env, j: nat, a: State, at: string, provenance: bool)
  {
    var o := Answer(env, j, a);
    o.Some? &&
    var t := FirstMatch(wf.transitions, a.step, o.value);
    t.Some? && Takes(wf, env, j, a, o.value, t.value) && at == t.value.to
    && (provenance <==> a.failure.Some? || (o.value != Success && IsCleanup(wf, at)))
  }

  /** All steps of the run are dispatched, and it stands at the head of step `at`. */
  predicate StandsAt(wf: Workflow, env: Env, st: State, s: seq<State>, n: nat, at: string, provenance: bool)
  {
    if s == [] then at == st.step && (provenance <==> st.failure.Some?)
    else Arrives(wf, env, n + |s| - 1, Last(s), at, provenance)
  }

  predicate LastIsInterrupted(env: Env, s: seq<State>, n: nat)
  {
    s != [] && Answer(env, n + |s| - 1, Last(s)).Some? && env.interruptAfter(n + |s| - 1)
  }

  predicate LastBreaks(env: Env, s: seq<State>, n: nat)
  {
    s != [] && Answer(env, n + |s| - 1, Last(s)).None?
  }

  lemma HeadStands(wf: Workflow, env: Env, st: State, s: seq<State>, n: nat, r: RunOutcome, behind: bool, h: State,
                   at: string, p: bool)
    requires Ends(wf, env, st, s, n, r, behind, h)
    ensures StandsAt(wf, env, st, s, n, at, p) <==> !behind && at == h.step && (p <==> h.failure.Some?)
  {
    if !behind && s != [] { LedOn(wf, env, Last(s), n + |s| - 1, h); }
  }

  /** The run stands at the head of some such step and is not interrupted there. */
  ghost predicate StopsAtHead(wf: Workflow, env: Env, st: State, s: seq<State>, n: nat, at: string, provenance: bool)
  {
    !env.interruptBefore(n + |s|) && StandsAt(wf, env, st, s, n, at, provenance)
  }

  lemma OutcomesAtHead(wf: Workflow, env: Env, st: State, s: seq<State>, n: nat, r: RunOutcome, behind: bool, h: State,
                       x: string)
    requires Ends(wf, env, st, s, n, r, behind, h)
    ensures r == Interrupted(x) <==>
      || (exists p :: env.interruptBefore(n + |s|) && StandsAt(wf, env, st, s, n, x, p))
      || (LastIsInterrupted(env, s, n) && LastIs(s, x))
    ensures r == Error(NoProvenance) <==> exists at :: IsCleanup(wf, at) && StopsAtHead(wf, env, st, s, n, at, false)
    ensures r == Error(StepNotFound) <==> exists at, p :: !Listed(wf, at) && StopsAtHead(wf, env, st, s, n, at, p)
    ensures r == Error(StepFailed) <==>
      || LastBreaks(env, s, n)
      || exists at, p :: StopsAtHead(wf, env, st, s, n, at, p) && Listed(wf, at) && !HasExecutor(wf, at)
                         && (IsCleanup(wf, at) ==> p)
  {
    var p := h.failure.Some?;
    assert IsCleanup(wf, h.step) ==> Listed(wf, h.step);
    if !behind { assert StopsAtHead(wf, env, st, s, n, h.step, p) <==> !env.interruptBefore(n + |s|); }
    forall at, q { HeadStands(wf, env, st, s, n, r, behind, h, at, q); }
    assert StandsAt(wf, env, st, s, n, h.step, p) <==> !behind;
  }

  /** The result of the last step, or the completion of the run, could not be stored. */
  predicate StorageFails(wf: Workflow, env: Env, s: seq<State>, n: nat)
  {
    s != [] && Answer(env, n + |s| - 1, Last(s)).Some? && !env.interruptAfter(n + |s| - 1)
    && (env.persistFails(n + |s| - 1)
        || (var o := Answer(env, n + |s| - 1, Last(s)).value;
            NowhereToGo(wf, env, s, n, o) && o != Abandon && !IsCleanup(wf, Last(s).step)
            && env.completionFails(n + |s| - 1)))
  }

  lemma OutcomesOfStorage(wf: Workflow, env: Env, st: State, s: seq<State>, n: nat, r: RunOutcome, behind: bool,
                          h: State)
    requires Ends(wf, env, st, s, n, r, behind, h)
    ensures r == Error(PersistenceError) <==> StorageFails(wf, env, s, n)
    ensures r.Failed? ==> r.reason.OwnershipLost? || r.reason.NoTransition? || r.reason.CleanupEnded?
    ensures r.Abandoned? ==> r.reason.StepAbandoned? || r.reason.EdgeLimitReached? || r.reason.CleanedUp?
  {
    if !behind && s != [] { LedOn(wf, env, Last(s), n + |s| - 1, h); }
  }

  // ----- the same of runs

  /** Outside cleanup, an answer that no transition applies to concludes the run:
      success makes it succeed, waiting makes it pause, anything else makes it
      fail; and a step that abandons it does so wherever transitions lead. */
  lemma RunConcludes(wf: Workflow, env: Env, st: State, n: nat, s: seq<State>, r: RunResult,
                     x: string, o: StepOutcome)
    requires WithinLimits(wf, st.counts) && s == Seen(wf, env, st, n) && r == Run(wf, env, st, n)
    ensures r.outcome == Succeeded <==> Concludes(wf, env, s, n, Success)
    ensures r.outcome == WaitingExternal(x) <==> Concludes(wf, env, s, n, Wait) && LastIs(s, x)
    ensures r.outcome == Failed(x, NoTransition(o)) <==>
      Concludes(wf, env, s, n, o) && o != Success && o != Wait && o != Abandon && LastIs(s, x)
    ensures r.outcome == Abandoned(x, StepAbandoned) <==>
      LastAnswered(env, s, n, Abandon) && !IsCleanup(wf, Last(s).step) && LastIs(s, x)
  {
    var behind, h := RunEnds(wf, env, st, n);
    OutcomesOutside(wf, env, st, s, n, r.outcome, behind, h, x, o);
  }

  /** A cleanup step that leads nowhere ends the run of the work that failed:
      abandoned if the cleanup succeeds, failed if it does not. */
  lemma RunCleansUp(wf: Workflow, env: Env, st: State, n: nat, s: seq<State>, r: RunResult,
                     x: string, o: StepOutcome)
    requires WithinLimits(wf, st.counts) && s == Seen(wf, env, st, n) && r == Run(wf, env, st, n)
    ensures r.outcome == Abandoned(x, CleanedUp) <==>
      NowhereToGo(wf, env, s, n, Success) && IsCleanup(wf, Last(s).step) && FailedWork(s, x)
    ensures r.outcome == Failed(x, CleanupEnded(o)) <==>
      (NowhereToGo(wf, env, s, n, o) || (o == Abandon && LastAnswered(env, s, n, o)))
      && o != Success && IsCleanup(wf, Last(s).step) && FailedWork(s, x)
  {
    var behind, h := RunEnds(wf, env, st, n);
    OutcomesInside(wf, env, st, s, n, r.outcome, behind, h, x, o);
  }

  /** The run ends on an edge exactly when that is limited and its counter has
      reached its limit, or when it leads failed work into a cleanup step of a
      workspace that is not the run's own. */
  lemma RunStopsOnEdge(wf: Workflow, env: Env, st: State, n: nat, s: seq<State>, r: RunResult,
                       x: string, limit: nat, key: string)
    requires WithinLimits(wf, st.counts) && s == Seen(wf, env, st, n) && r == Run(wf, env, st, n)
    ensures r.outcome == Abandoned(x, EdgeLimitReached(limit, key)) <==>
      LastIs(s, x) && MeetsLimit(wf, env, n + |s| - 1, Last(s), limit, key)
    ensures r.outcome == Failed(x, OwnershipLost) <==> LastIs(s, x) && LosesOwnership(wf, env, n + |s| - 1, Last(s))
  {
    var behind, h := RunEnds(wf, env, st, n);
    OutcomesOnEdge(wf, env, st, s, n, r.outcome, behind, h, x, limit, key);
  }

  /** The run is interrupted, or ends in an error at a head, exactly where the flag
      is up, failed work is missing, or there is no step or executor of that name. */
  lemma RunStopsAtHead(wf: Workflow, env: Env, st: State, n: nat, s: seq<State>, r: RunResult, x: string)
    requires WithinLimits(wf, st.counts) && s == Seen(wf, env, st, n) && r == Run(wf, env, st, n)
    ensures r.outcome == Interrupted(x) <==>
      || (exists p :: env.interruptBefore(n + |s|) && StandsAt(wf, env, st, s, n, x, p))
      || (LastIsInterrupted(env, s, n) && LastIs(s, x))
    ensures r.outcome == Error(NoProvenance) <==>
      exists at :: IsCleanup(wf, at) && StopsAtHead(wf, env, st, s, n, at, false)
    ensures r.outcome == Error(StepNotFound) <==>
      exists at, p :: !Listed(wf, at) && StopsAtHead(wf, env, st, s, n, at, p)
    ensures r.outcome == Error(StepFailed) <==>
      || LastBreaks(env, s, n)
      || exists at, p :: StopsAtHead(wf, env, st, s, n, at, p) && Listed(wf, at) && !HasExecutor(wf, at)
                         && (IsCleanup(wf, at) ==> p)
  {
    var behind, h := RunEnds(wf, env, st, n);
    OutcomesAtHead(wf, env, st, s, n, r.outcome, behind, h, x);
  }

  /** The run ends in a storage error exactly when the last step's result or the
      run's completion could not be stored; and there are no other endings. */
  lemma RunCannotStore(wf: Workflow, env: Env, st: State, n: nat, s: seq<State>, r: RunResult)
    requires WithinLimits(wf, st.counts) && s == Seen(wf, env, st, n) && r == Run(wf, env, st, n)
    ensures r.outcome == Error(PersistenceError) <==> StorageFails(wf, env, s, n)
    ensures r.outcome.Failed? ==>
      r.outcome.reason.OwnershipLost? || r.outcome.reason.NoTransition? || r.outcome.reason.CleanupEnded?
    ensures r.outcome.Abandoned? ==>
      r.outcome.reason.StepAbandoned? || r.outcome.reason.EdgeLimitReached? || r.outcome.reason.CleanedUp?
  {
    var behind, h := RunEnds(wf, env, st, n);
    OutcomesOfStorage(wf, env, st, s, n, r.outcome, behind, h);
  }
}
