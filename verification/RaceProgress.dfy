/** The race of a launcher with reconcilers gets somewhere: when the launcher wins,
    when it gives up, and that everyone finishes. */
module RaceProgress {
  import opened Text
  import opened ClaimModel
  import opened ClaimRace

  /** How far the launcher is on the way to the launch; from 7 on it is giving up. */
  function Stage(l: Launcher): nat
  {
    match l
    case ToInspect => 0
    case ToMark(_) => 1
    case ToAddAssignee(_) => 2
    case ToAddLabel(_) => 3
    case ToVerify(_) => 4
    case ToRun(_) => 5
    case ToUnmark(_) => 6
    case Launched => 7
    case ToRead(_) => 8
    case ToDropLabel(_, _) => 9
    case ToDropAssignee(_, _) => 10
    case ToRecord(_) => 11
    case ToAbandon => 12
    case GaveUp => 13
  }

  predicate GivesUp(l: Launcher) { Stage(l) > 7 }

  /** Some call of the launcher did not work. */
  predicate SomeFails(actions: seq<Action>) { exists a :: a in actions && a.Launch? && a.answer != Works }

  function Launches(actions: seq<Action>): nat
  {
    if actions == [] then 0 else (if actions[0].Launch? then 1 else 0) + Launches(actions[1..])
  }

  function Least(a: nat, b: nat): nat { if a < b then a else b }

  /** On the way to the launch the issue has what was added so far, and nothing else happened. */
  ghost predicate OnTheWay(c: Config, pre: Issue, s: System, n: nat)
  {
    var o, d := Inspect(c, pre), s.d;
    && Stage(s.launcher) == Least(n, 7)
    && (s.launcher.ToMark? ==> s.launcher.owned == o) && (s.launcher.ToAddAssignee? ==> s.launcher.owned == o)
    && (s.launcher.ToAddLabel? ==> s.launcher.owned == o) && (s.launcher.ToVerify? ==> s.launcher.owned == o)
    && (s.launcher.ToRun? ==> s.launcher.owned == o) && (s.launcher.ToUnmark? ==> s.launcher.owned == o)
    && d.lease == (if n < 6 then Claimed else Running)
    && (n >= 7 ==> d.receipt == c.ReceiptFor(o, false))
    && d.issue.assignees ==
       (if n >= 3 && o.assignmentAdded then pre.assignees + [c.Assignee()] else pre.assignees)
    && d.issue.labels == (if n >= 4 && o.labelAdded then pre.labels + [c.Label()] else pre.labels)
  }

  lemma LaunchOn(c: Config, pre: Issue, s: System, n: nat)
    requires OnTheWay(c, pre, s, n)
    ensures OnTheWay(c, pre, LaunchStep(c, s, Works), n + 1)
  {
    InspectSuffices(c, pre);
    if n == 4 { assert c.Complete() ==> ClaimShown(c, s.d.issue); }
  }

  /** A reconciler that takes the lease has won it for good; before that it changes nothing. */
  lemma ReconcileWaits(c: Config, pre: Issue, s: System, who: nat, n: nat)
    requires Inv(c, pre, s) && OnTheWay(c, pre, s, n) && !Step(c, s, Reconcile(who)).reconcileWon
    ensures OnTheWay(c, pre, Step(c, s, Reconcile(who)), n)
  {
    if who < |s.reconcilers| { assert s.reconcilers[who] in s.reconcilers; }
  }

  lemma {:induction false} WonForGood(c: Config, s: System, actions: seq<Action>)
    ensures s.reconcileWon ==> Play(c, s, actions).reconcileWon
    decreases |actions|
  {
    if actions != [] { WonForGood(c, Step(c, s, actions[0]), actions[1..]); }
  }

  lemma {:induction false} PlayOn(c: Config, pre: Issue, s: System, actions: seq<Action>, n: nat)
    requires Inv(c, pre, s) && OnTheWay(c, pre, s, n) && !SomeFails(actions) && !Play(c, s, actions).reconcileWon
    ensures OnTheWay(c, pre, Play(c, s, actions), n + Launches(actions))
    decreases |actions|
  {
    if actions != [] {
      var a, rest := actions[0], actions[1..];
      var next := Step(c, s, a);
      assert a in actions && forall x :: x in rest ==> x in actions;
      WonForGood(c, next, rest);
      InvPlay(c, pre, s, [a]);
      PlayOne(c, s, a);
      match a {
        case Launch(answer) =>
          LaunchOn(c, pre, s, n);
          PlayOn(c, pre, next, rest, n + 1);
        case Reconcile(who) =>
          ReconcileWaits(c, pre, s, who, n);
          PlayOn(c, pre, next, rest, n);
      }
    }
  }

  lemma PlayOne(c: Config, s: System, a: Action)
    ensures Play(c, s, [a]) == Step(c, s, a)
  {
    assert [a][1..] == [];
    assert Play(c, Step(c, s, a), []) == Step(c, s, a);
  }

  lemma StartsOut(c: Config, pre: Issue, k: nat)
    ensures OnTheWay(c, pre, Start(c, pre, k), 0)
  {}

  /** If every call works and no reconciler takes the lease, seven steps of the
      launcher get to the launch, however the others are interleaved: the lease
      runs, and the issue has just what was missing. */
  lemma LaunchesUnlessBeaten(c: Config, pre: Issue, k: nat, actions: seq<Action>)
    requires !SomeFails(actions) && !Play(c, Start(c, pre, k), actions).reconcileWon && Launches(actions) >= 7
    ensures var s := Play(c, Start(c, pre, k), actions);
      s.launcher == Launched && s.d.lease == Running && s.d.receipt == c.ReceiptFor(Inspect(c, pre), false)
      && s.d.issue == Added(s.d.receipt, pre)
  {
    InvStart(c, pre, k);
    StartsOut(c, pre, k);
    PlayOn(c, pre, Start(c, pre, k), actions, 0);
  }

  /** The launcher gives up only if one of its calls did not work or a reconciler took the lease. */
  lemma GivesUpOnlyIf(c: Config, pre: Issue, k: nat, actions: seq<Action>)
    requires GivesUp(Play(c, Start(c, pre, k), actions).launcher)
    ensures SomeFails(actions) || Play(c, Start(c, pre, k), actions).reconcileWon
  {
    if !SomeFails(actions) && !Play(c, Start(c, pre, k), actions).reconcileWon {
      InvStart(c, pre, k);
      StartsOut(c, pre, k);
      PlayOn(c, pre, Start(c, pre, k), actions, 0);
    }
  }

  // ----- everyone finishes

  predicate Finished(l: Launcher) { l.Launched? || l.GaveUp? }

  function StepsBack(r: Reconciler): nat
  {
    match r
    case Idle => 0
    case Listed(_, _) => 6
    case ReadIssue(_, _) => 5
    case DropLabel(_, _, _) => 4
    case DropAssignee(_, _, _) => 3
    case Clear(_, _) => 2
    case Abandon(_) => 1
  }

  /** Each step of the launcher brings it nearer to one of its two ends. */
  lemma LauncherAdvances(c: Config, s: System, answer: Answer)
    ensures var t := LaunchStep(c, s, answer);
      if Finished(s.launcher) then t == s else Stage(t.launcher) > Stage(s.launcher) && t.reconcilers == s.reconcilers
  {}

  /** Each step of a reconciler at work brings it nearer to being idle. */
  lemma ReconcilerAdvances(s: System, r: Reconciler)
    ensures !r.Idle? ==> StepsBack(ReconcileStep(s, r).1) < StepsBack(r)
    ensures ReconcileStep(s, r).0.launcher == s.launcher
  {}

  /** Twelve steps and one finish the launcher, whatever happens in between. */
  lemma {:induction false} LauncherFinishes(c: Config, s: System, actions: seq<Action>)
    ensures var end := Play(c, s, actions).launcher;
      Finished(end) || Stage(end) >= Stage(s.launcher) + Launches(actions)
    decreases |actions|
  {
    if actions != [] {
      match actions[0] {
        case Launch(answer) => LauncherAdvances(c, s, answer);
        case Reconcile(who) => if who < |s.reconcilers| { ReconcilerAdvances(s, s.reconcilers[who]); }
      }
      LauncherFinishes(c, Step(c, s, actions[0]), actions[1..]);
      if Finished(s.launcher) { StaysFinished(c, s, actions); }
    }
  }

  lemma {:induction false} StaysFinished(c: Config, s: System, actions: seq<Action>)
    requires Finished(s.launcher)
    ensures Play(c, s, actions).launcher == s.launcher
    decreases |actions|
  {
    if actions != [] {
      match actions[0] {
        case Launch(answer) => LauncherAdvances(c, s, answer);
        case Reconcile(who) => if who < |s.reconcilers| { ReconcilerAdvances(s, s.reconcilers[who]); }
      }
      StaysFinished(c, Step(c, s, actions[0]), actions[1..]);
    }
  }

  lemma LauncherEnds(c: Config, pre: Issue, k: nat, actions: seq<Action>)
    requires Launches(actions) >= 13
    ensures Finished(Play(c, Start(c, pre, k), actions).launcher)
  {
    LauncherFinishes(c, Start(c, pre, k), actions);
  }

  function Work(rs: seq<Reconciler>): nat { if rs == [] then 0 else StepsBack(rs[0]) + Work(rs[1..]) }

  lemma {:induction false} LessWork(rs: seq<Reconciler>, who: nat, r: Reconciler)
    requires who < |rs| && StepsBack(r) < StepsBack(rs[who])
    ensures Work(rs[who := r]) < Work(rs)
  {
    if who == 0 {
      assert rs[0 := r][1..] == rs[1..];
    } else {
      assert rs[who := r][1..] == rs[1..][who - 1 := r];
      LessWork(rs[1..], who - 1, r);
    }
  }

  lemma {:induction false} PlayConcat(c: Config, s: System, a: Action, more: seq<Action>)
    ensures Play(c, s, [a] + more) == Play(c, Step(c, s, a), more)
  {
    assert ([a] + more)[1..] == more;
  }

  /** From wherever an interleaving has got to, it can go on until all have finished. */
  lemma {:induction false} CanFinish(c: Config, s: System) returns (more: seq<Action>)
    ensures Done(Play(c, s, more))
    decreases 13 - Stage(s.launcher), Work(s.reconcilers)
  {
    if !Finished(s.launcher) {
      LauncherAdvances(c, s, Works);
      var rest := CanFinish(c, Step(c, s, Launch(Works)));
      more := [Launch(Works)] + rest;
      PlayConcat(c, s, Launch(Works), rest);
    } else if exists i :: 0 <= i < |s.reconcilers| && !s.reconcilers[i].Idle? {
      var who :| 0 <= who < |s.reconcilers| && !s.reconcilers[who].Idle?;
      ReconcilerAdvances(s, s.reconcilers[who]);
      LessWork(s.reconcilers, who, ReconcileStep(s, s.reconcilers[who]).1);
      var rest := CanFinish(c, Step(c, s, Reconcile(who)));
      more := [Reconcile(who)] + rest;
      PlayConcat(c, s, Reconcile(who), rest);
    } else {
      more := [];
    }
  }

  // ----- a reconciler by itself

  /** A marked claim whose launcher is gone is cleaned up by seven steps of any
      idle reconciler: the issue is as before, and the lease free. */
  lemma ReconcilerAlone(c: Config, pre: Issue, s: System, who: nat)
    requires Inv(c, pre, s) && who < |s.reconcilers| && s.reconcilers[who].Idle?
    requires s.d.receipt.cleanupPending && (s.d.lease == Claimed || s.d.lease == Pending)
    ensures var r := Reconcile(who);
      var end := Play(c, s, [r, r, r, r, r, r, r]);
      && end.d.issue == pre && end.d.lease == Abandoned && !end.d.receipt.cleanupPending
      && |end.reconcilers| == |s.reconcilers| && end.reconcilers[who].Idle?
  {
    var r := Reconcile(who);
    var row, listed := s.d.receipt, s.d.lease;
    DropsRestore(c, pre, s.d.issue);
    var s1 := Step(c, s, r);
    assert s1.reconcilers[who] == Listed(listed, row) && s1.d == s.d;
    var s2 := Step(c, s1, r);
    assert s2.reconcilers[who] == ReadIssue(listed, row) && s2.d == s.d.(lease := Pending);
    var s3 := Step(c, s2, r);
    assert s3.reconcilers[who] == DropLabel(listed, row, s.d.issue) && s3.d == s2.d;
    var s4 := Step(c, s3, r);
    assert s4.d.issue.labels == pre.labels && s4.d.issue.assignees == s.d.issue.assignees && s4.d.lease == Pending;
    var s5 := Step(c, s4, r);
    assert s5.d.issue == pre && s5.d.lease == Pending && s5.reconcilers[who] == Clear(listed, row);
    var s6 := Step(c, s5, r);
    assert s6.d.issue == pre && s6.d.lease == Pending && !s6.d.receipt.cleanupPending;
    var s7 := Step(c, s6, r);
    SevenSteps(c, s, r);
  }

  lemma SevenSteps(c: Config, s: System, r: Action)
    ensures Play(c, s, [r, r, r, r, r, r, r]) ==
            Step(c, Step(c, Step(c, Step(c, Step(c, Step(c, Step(c, s, r), r), r), r), r), r), r)
  {
    var t := Step(c, Step(c, Step(c, Step(c, s, r), r), r), r);
    assert Play(c, t, [r, r, r]) == Step(c, Step(c, Step(c, t, r), r), r) by {
      assert [r, r, r][1..] == [r, r] && [r, r][1..] == [r];
      PlayOne(c, Step(c, Step(c, t, r), r), r);
    }
    assert [r, r, r, r, r, r, r][1..] == [r, r, r, r, r, r] && [r, r, r, r, r, r][1..] == [r, r, r, r, r];
    assert [r, r, r, r, r][1..] == [r, r, r, r] && [r, r, r, r][1..] == [r, r, r];
    assert Play(c, Step(c, Step(c, Step(c, s, r), r), r), [r, r, r, r]) == Play(c, t, [r, r, r]);
    assert Play(c, Step(c, Step(c, s, r), r), [r, r, r, r, r]) == Play(c, t, [r, r, r]);
    assert Play(c, Step(c, s, r), [r, r, r, r, r, r]) == Play(c, t, [r, r, r]);
  }

  // ----- marked before it edits

  /** The launcher may have added to the issue, or is about to take off what it added. */
  predicate Editing(c: Config, pre: Issue, l: Launcher)
  {
    2 <= Stage(l) <= 6
    || (l.ToRead? && l.owned == Inspect(c, pre)) || (l.ToDropLabel? && l.owned == Inspect(c, pre))
    || (l.ToDropAssignee? && l.owned == Inspect(c, pre)) || (l.ToRecord? && l.owned == Inspect(c, pre))
  }

  /** Until a reconciler takes the lease, the receipt is marked while the launcher edits. */
  ghost predicate MarkedThen(c: Config, pre: Issue, s: System)
  {
    !s.reconcileWon ==>
      && (s.d.lease == Claimed || s.d.lease == Running || s.launcher.GaveUp?)
      && (Editing(c, pre, s.launcher) ==>
            s.d.receipt == c.ReceiptFor(Inspect(c, pre), true) || Inspect(c, pre) == NOTHING_OWNED)
  }

  lemma LaunchMarks(c: Config, pre: Issue, s: System, answer: Answer)
    requires Inv(c, pre, s) && MarkedThen(c, pre, s)
    ensures MarkedThen(c, pre, LaunchStep(c, s, answer))
  {}

  lemma ReconcileMarks(c: Config, pre: Issue, s: System, who: nat)
    requires Inv(c, pre, s) && MarkedThen(c, pre, s)
    ensures MarkedThen(c, pre, Step(c, s, Reconcile(who)))
  {
    if who < |s.reconcilers| { assert s.reconcilers[who] in s.reconcilers; }
  }

  lemma {:induction false} PlayMarks(c: Config, pre: Issue, s: System, actions: seq<Action>)
    requires Inv(c, pre, s) && MarkedThen(c, pre, s)
    ensures Inv(c, pre, Play(c, s, actions)) && MarkedThen(c, pre, Play(c, s, actions))
    decreases |actions|
  {
    if actions != [] {
      var a := actions[0];
      InvPlay(c, pre, s, [a]);
      PlayOne(c, s, a);
      match a {
        case Launch(answer) => LaunchMarks(c, pre, s, answer);
        case Reconcile(who) => ReconcileMarks(c, pre, s, who);
      }
      PlayMarks(c, pre, Step(c, s, a), actions[1..]);
    }
  }

  /** In every state of every interleaving, an issue that is not as before the claim
      has a running lease or a marked receipt, or a reconciler has taken the lease. */
  lemma MarkedBeforeEdited(c: Config, pre: Issue, k: nat, actions: seq<Action>)
    ensures var s := Play(c, Start(c, pre, k), actions);
      s.d.issue != pre ==>
        || s.d.lease == Running || s.reconcileWon
        || s.d.receipt == c.ReceiptFor(Inspect(c, pre), true)
  {
    InvStart(c, pre, k);
    PlayMarks(c, pre, Start(c, pre, k), actions);
  }
}
