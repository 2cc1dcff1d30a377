/** A launcher and any number of reconcilers working on the same claim, in
    every interleaving of their single reads and writes, without crashes. */
module ClaimRace {
  import opened ClaimModel

  /** How a remote call of the launcher ends: it works, it fails without
      effect, or it fails although it had its effect. */
  datatype Answer = Works | Fails | FailsApplied

  /** What the launcher does next. */
  datatype Launcher =
    | ToInspect
    | ToMark(owned: Ownership)
    | ToAddAssignee(owned: Ownership)
    | ToAddLabel(owned: Ownership)
    | ToVerify(owned: Ownership)
    | ToRun(owned: Ownership)
    | ToUnmark(owned: Ownership)
    | Launched
    | ToRead(owned: Ownership)
    | ToDropLabel(owned: Ownership, seen: Issue)
    | ToDropAssignee(owned: Ownership, seen: Issue)
    | ToRecord(owned: Ownership)
    | ToAbandon
    | GaveUp

  /** What a reconciler does next; it works from the row it listed. */
  datatype Reconciler =
    | Idle
    | Listed(status: LeaseStatus, row: Receipt)
    | ReadIssue(status: LeaseStatus, row: Receipt)
    | DropLabel(status: LeaseStatus, row: Receipt, seen: Issue)
    | DropAssignee(status: LeaseStatus, row: Receipt, seen: Issue)
    | Clear(status: LeaseStatus, row: Receipt)
    | Abandon(status: LeaseStatus)

  /** `launchWon` and `reconcileWon` remember which of the two compare-and-sets
      out of Claimed succeeded. */
  datatype System = System(d: Durable, launcher: Launcher, reconcilers: seq<Reconciler>, launchWon: bool,
                           reconcileWon: bool)

  function Start(c: Config, pre: Issue, n: nat): System
  {
    System(Durable(pre, Claimed, c.ReceiptFor(NOTHING_OWNED, false)), ToInspect, seq(n, i => Idle), false, false)
  }

  // ----- one step of the launcher

  function LaunchStep(c: Config, s: System, answer: Answer): System
  {
    var d := s.d;
    match s.launcher
    case ToInspect =>
      s.(launcher := if c.Complete() && answer != Works then ToRead(NOTHING_OWNED) else ToMark(Inspect(c, d.issue)))
    case ToMark(o) => s.(d := d.(receipt := c.ReceiptFor(o, true)), launcher := ToAddAssignee(o))
    case ToAddAssignee(o) =>
      if !o.assignmentAdded then s.(launcher := ToAddLabel(o))
      else s.(d := d.(issue := if answer == Fails then d.issue else WithAssignee(d.issue, c.Assignee())),
              launcher := if answer == Works then ToAddLabel(o) else ToRead(o))
    case ToAddLabel(o) =>
      if !o.labelAdded then s.(launcher := ToVerify(o))
      else s.(d := d.(issue := if answer == Fails then d.issue else WithLabel(d.issue, c.Label())),
              launcher := if answer == Works then ToVerify(o) else ToRead(o))
    case ToVerify(o) =>
      s.(launcher := if !c.Complete() || (answer == Works && ClaimShown(c, d.issue)) then ToRun(o) else ToRead(o))
    case ToRun(o) =>
      if d.lease == Claimed then s.(d := d.(lease := Running), launcher := ToUnmark(o), launchWon := true)
      else s.(launcher := ToRead(o))
    case ToUnmark(o) => s.(d := d.(receipt := c.ReceiptFor(o, false)), launcher := Launched)
    case ToRead(o) => s.(launcher := ToDropLabel(o, d.issue))
    case ToDropLabel(o, seen) =>
      s.(d := if o.labelAdded && Has(seen.labels, c.Label()) then d.(issue := LessLabel(d.issue, c.Label())) else d,
         launcher := ToDropAssignee(o, seen))
    case ToDropAssignee(o, seen) =>
      s.(d := if o.assignmentAdded && Has(seen.assignees, c.Assignee())
              then d.(issue := LessAssignee(d.issue, c.Assignee())) else d,
         launcher := ToRecord(o))
    case ToRecord(o) => s.(d := d.(receipt := c.ReceiptFor(o, false)), launcher := ToAbandon)
    case ToAbandon =>
      s.(d := if d.lease == Claimed || d.lease == Pending then d.(lease := Abandoned) else d, launcher := GaveUp)
    case Launched => s
    case GaveUp => s
  }

  // ----- one step of a reconciler

  function ReconcileStep(s: System, r: Reconciler): (System, Reconciler)
  {
    var d := s.d;
    match r
    case Idle =>
      if d.receipt.cleanupPending && d.lease in RECONCILED then (s, Listed(d.lease, d.receipt)) else (s, Idle)
    case Listed(status, row) =>
      if status != Claimed then (s, ReadIssue(status, row))
      else if d.lease == Claimed then (s.(d := d.(lease := Pending), reconcileWon := true), ReadIssue(status, row))
      else (s, Idle)
    case ReadIssue(status, row) => (s, DropLabel(status, row, d.issue))
    case DropLabel(status, row, seen) =>
      (s.(d := if row.owned.labelAdded && Has(seen.labels, row.labelName)
               then d.(issue := LessLabel(d.issue, row.labelName)) else d),
       DropAssignee(status, row, seen))
    case DropAssignee(status, row, seen) =>
      (s.(d := if row.owned.assignmentAdded && Has(seen.assignees, row.assigneeName)
               then d.(issue := LessAssignee(d.issue, row.assigneeName)) else d),
       Clear(status, row))
    case Clear(status, row) => (s.(d := d.(receipt := row.(cleanupPending := false))), Abandon(status))
    case Abandon(status) =>
      (if (status == Claimed || status == Pending) && d.lease == Pending then s.(d := d.(lease := Abandoned)) else s,
       Idle)
  }

  datatype Action = Launch(answer: Answer) | Reconcile(who: nat)

  function Step(c: Config, s: System, a: Action): System
  {
    match a
    case Launch(answer) => LaunchStep(c, s, answer)
    case Reconcile(who) =>
      if who >= |s.reconcilers| then s
      else
        var (t, r) := ReconcileStep(s, s.reconcilers[who]);
        t.(reconcilers := s.reconcilers[who := r])
  }

  function Play(c: Config, s: System, actions: seq<Action>): System
    decreases |actions|
  {
    if actions == [] then s else Play(c, Step(c, s, actions[0]), actions[1..])
  }

  // ----- what every interleaving keeps

  /** The launcher has marked the receipt and not yet finished with it. */
  predicate Marked(l: Launcher) { !l.ToInspect? && !l.ToMark? }

  ghost predicate LauncherInv(c: Config, pre: Issue, s: System)
  {
    var d := s.d;
    match s.launcher
    case ToInspect => d.lease == Claimed && d.issue == pre && !d.receipt.cleanupPending
    case ToMark(o) => d.lease == Claimed && d.issue == pre && !d.receipt.cleanupPending && o == Inspect(c, pre)
    case ToAddAssignee(o) => o == Inspect(c, pre) && d.issue == pre
    case ToAddLabel(o) => o == Inspect(c, pre) && d.issue.labels == pre.labels
        && (d.lease == Claimed ==> c.Complete() ==> Has(d.issue.assignees, c.Assignee()))
    case ToVerify(o) => o == Inspect(c, pre)
    case ToRun(o) => o == Inspect(c, pre) && (d.lease == Claimed ==> ClaimShown(c, d.issue))
    case ToUnmark(o) => o == Inspect(c, pre) && d.lease == Running && ClaimShown(c, d.issue)
    case Launched => d.lease == Running && ClaimShown(c, d.issue) && !d.receipt.cleanupPending
    case ToRead(o) => o == Inspect(c, pre) || (o == NOTHING_OWNED && d.issue == pre && !d.receipt.cleanupPending)
    case ToDropLabel(o, seen) =>
      (o == Inspect(c, pre) && (d.issue.labels == seen.labels || d.issue.labels == pre.labels)
        && (d.issue.assignees == seen.assignees || d.issue.assignees == pre.assignees))
      || (o == NOTHING_OWNED && d.issue == pre && !d.receipt.cleanupPending)
    case ToDropAssignee(o, seen) =>
      (o == Inspect(c, pre) && d.issue.labels == pre.labels
        && (d.issue.assignees == seen.assignees || d.issue.assignees == pre.assignees))
      || (o == NOTHING_OWNED && d.issue == pre && !d.receipt.cleanupPending)
    case ToRecord(o) =>
      d.issue == pre && (o == Inspect(c, pre) || (o == NOTHING_OWNED && !d.receipt.cleanupPending))
    case ToAbandon => d.issue == pre && !d.receipt.cleanupPending
    case GaveUp => d.issue == pre && !d.receipt.cleanupPending && d.lease == Abandoned
  }

  /** A reconciler that has listed the claim holds its marked receipt; once it
      goes on to clean, the launcher can no longer win. */
  ghost predicate ReconcilerInv(c: Config, pre: Issue, s: System, r: Reconciler)
  {
    (!r.Idle? ==> Marked(s.launcher)) &&
    match r
    case Idle => true
    case Listed(status, row) =>
      row == c.ReceiptFor(Inspect(c, pre), true)
        && (status == Claimed || (status == Pending && s.d.lease in {Pending, Abandoned}))
    case ReadIssue(status, row) => Cleaning(c, pre, s, status, row)
    case DropLabel(status, row, seen) => Cleaning(c, pre, s, status, row)
    case DropAssignee(status, row, seen) => Cleaning(c, pre, s, status, row)
    case Clear(status, row) => Cleaning(c, pre, s, status, row)
    case Abandon(status) =>
      (status == Claimed || status == Pending) && s.d.lease in {Pending, Abandoned} && !s.d.receipt.cleanupPending
  }

  ghost predicate Cleaning(c: Config, pre: Issue, s: System, status: LeaseStatus, row: Receipt)
  {
    row == c.ReceiptFor(Inspect(c, pre), true) && (status == Claimed || status == Pending)
    && s.d.lease in {Pending, Abandoned}
  }

  ghost predicate Core(c: Config, pre: Issue, s: System)
  {
    && s.d.lease in {Claimed, Pending, Running, Abandoned}
    && AtMostAdded(pre, c.ReceiptFor(Inspect(c, pre), true), s.d.issue)
    && (s.d.receipt.cleanupPending ==> s.d.receipt == c.ReceiptFor(Inspect(c, pre), true) && Marked(s.launcher))
    && (s.d.lease == Abandoned ==> !s.d.receipt.cleanupPending)
    && (s.launchWon <==> s.d.lease == Running) && (s.reconcileWon ==> s.d.lease in {Pending, Abandoned})
    && (s.d.lease == Running ==> s.launcher.ToUnmark? || s.launcher.Launched?)
    && LauncherInv(c, pre, s)
  }

  ghost predicate Inv(c: Config, pre: Issue, s: System)
  {
    Core(c, pre, s) && forall r :: r in s.reconcilers ==> ReconcilerInv(c, pre, s, r)
  }

  lemma InvStart(c: Config, pre: Issue, n: nat)
    ensures Inv(c, pre, Start(c, pre, n))
  {}

  /** Removing an owned name takes it off or leaves the list as it was before the claim. */
  lemma DropRestores(pre: seq<string>, name: string, now: seq<string>)
    requires !Has(pre, name) && (now == pre || now == pre + [name])
    ensures Without(now, name) == pre && (Has(now, name) <==> now == pre + [name])
  {
    WithoutAdded(pre, name);
    WithoutAbsent(pre, name);
  }

  /** What dropping the owned names from the issue does to it. */
  lemma DropsRestore(c: Config, pre: Issue, issue: Issue)
    requires AtMostAdded(pre, c.ReceiptFor(Inspect(c, pre), true), issue)
    ensures var o := Inspect(c, pre);
      && (if o.labelAdded then LessLabel(issue, c.Label()).labels == pre.labels
            && (Has(issue.labels, c.Label()) <==> issue.labels == pre.labels + [c.Label()])
          else issue.labels == pre.labels)
      && (if o.assignmentAdded then LessAssignee(issue, c.Assignee()).assignees == pre.assignees
            && (Has(issue.assignees, c.Assignee()) <==> issue.assignees == pre.assignees + [c.Assignee()])
          else issue.assignees == pre.assignees)
  {
    var o := Inspect(c, pre);
    if o.labelAdded { DropRestores(pre.labels, c.Label(), issue.labels); }
    if o.assignmentAdded { DropRestores(pre.assignees, c.Assignee(), issue.assignees); }
  }

  lemma AddAssigneeKeepsCore(c: Config, pre: Issue, s: System, answer: Answer)
    requires Core(c, pre, s) && s.launcher.ToAddAssignee?
    ensures Core(c, pre, LaunchStep(c, s, answer))
  {
    if s.launcher.owned.assignmentAdded { WithoutAdded(pre.assignees, c.Assignee()); }
  }

  lemma AddLabelKeepsCore(c: Config, pre: Issue, s: System, answer: Answer)
    requires Core(c, pre, s) && s.launcher.ToAddLabel?
    ensures Core(c, pre, LaunchStep(c, s, answer))
  {
    if s.launcher.owned.labelAdded { WithoutAdded(pre.labels, c.Label()); }
  }

  lemma DropLabelKeepsCore(c: Config, pre: Issue, s: System, answer: Answer)
    requires Core(c, pre, s) && s.launcher.ToDropLabel?
    ensures Core(c, pre, LaunchStep(c, s, answer))
  {
    DropsRestore(c, pre, s.d.issue);
    DropsRestore(c, pre, pre);
  }

  lemma DropAssigneeKeepsCore(c: Config, pre: Issue, s: System, answer: Answer)
    requires Core(c, pre, s) && s.launcher.ToDropAssignee?
    ensures Core(c, pre, LaunchStep(c, s, answer))
  {
    DropsRestore(c, pre, s.d.issue);
    DropsRestore(c, pre, pre);
  }

  lemma BeginKeepsCore(c: Config, pre: Issue, s: System, answer: Answer)
    requires Core(c, pre, s) && (s.launcher.ToInspect? || s.launcher.ToMark?)
    ensures Core(c, pre, LaunchStep(c, s, answer))
  {}

  lemma VerifyKeepsCore(c: Config, pre: Issue, s: System, answer: Answer)
    requires Core(c, pre, s) && (s.launcher.ToVerify? || s.launcher.ToRun? || s.launcher.ToUnmark?)
    ensures Core(c, pre, LaunchStep(c, s, answer))
  {}

  lemma EndKeepsCore(c: Config, pre: Issue, s: System, answer: Answer)
    requires Core(c, pre, s)
    requires s.launcher.ToRead? || s.launcher.ToRecord? || s.launcher.ToAbandon? || s.launcher.Launched?
             || s.launcher.GaveUp?
    ensures Core(c, pre, LaunchStep(c, s, answer))
  {}

  lemma LaunchKeepsCore(c: Config, pre: Issue, s: System, answer: Answer)
    requires Core(c, pre, s)
    ensures Core(c, pre, LaunchStep(c, s, answer))
  {
    match s.launcher {
      case ToInspect => BeginKeepsCore(c, pre, s, answer);
      case ToMark(_) => BeginKeepsCore(c, pre, s, answer);
      case ToAddAssignee(_) => AddAssigneeKeepsCore(c, pre, s, answer);
      case ToAddLabel(_) => AddLabelKeepsCore(c, pre, s, answer);
      case ToVerify(_) => VerifyKeepsCore(c, pre, s, answer);
      case ToRun(_) => VerifyKeepsCore(c, pre, s, answer);
      case ToUnmark(_) => VerifyKeepsCore(c, pre, s, answer);
      case ToDropLabel(_, _) => DropLabelKeepsCore(c, pre, s, answer);
      case ToDropAssignee(_, _) => DropAssigneeKeepsCore(c, pre, s, answer);
      case _ => EndKeepsCore(c, pre, s, answer);
    }
  }

  lemma LaunchKeepsReconcilers(c: Config, pre: Issue, s: System, answer: Answer, r: Reconciler)
    requires Core(c, pre, s) && ReconcilerInv(c, pre, s, r)
    ensures ReconcilerInv(c, pre, LaunchStep(c, s, answer), r)
  {}

  lemma InvLaunch(c: Config, pre: Issue, s: System, answer: Answer)
    requires Inv(c, pre, s)
    ensures Inv(c, pre, LaunchStep(c, s, answer))
  {
    LaunchKeepsCore(c, pre, s, answer);
    var t := LaunchStep(c, s, answer);
    assert t.reconcilers == s.reconcilers;
    forall r | r in t.reconcilers ensures ReconcilerInv(c, pre, t, r) {
      LaunchKeepsReconcilers(c, pre, s, answer, r);
    }
  }

  lemma CleanKeepsCore(c: Config, pre: Issue, s: System, r: Reconciler)
    requires Core(c, pre, s) && ReconcilerInv(c, pre, s, r) && (r.DropLabel? || r.DropAssignee?)
    ensures var (t, q) := ReconcileStep(s, r);
      Core(c, pre, t) && ReconcilerInv(c, pre, t, q) && t.launcher == s.launcher
  {
    DropsRestore(c, pre, s.d.issue);
    DropsRestore(c, pre, pre);
  }

  lemma ReconcileKeepsCore(c: Config, pre: Issue, s: System, r: Reconciler)
    requires Core(c, pre, s) && ReconcilerInv(c, pre, s, r)
    ensures var (t, q) := ReconcileStep(s, r);
      Core(c, pre, t) && ReconcilerInv(c, pre, t, q) && t.launcher == s.launcher
  {
    if r.DropLabel? || r.DropAssignee? { CleanKeepsCore(c, pre, s, r); }
  }

  lemma ReconcileKeepsOthers(c: Config, pre: Issue, s: System, r: Reconciler, other: Reconciler)
    requires Core(c, pre, s) && ReconcilerInv(c, pre, s, r) && ReconcilerInv(c, pre, s, other)
    ensures ReconcilerInv(c, pre, ReconcileStep(s, r).0, other)
  {}

  lemma InvReconcile(c: Config, pre: Issue, s: System, who: nat)
    requires Inv(c, pre, s) && who < |s.reconcilers|
    ensures Inv(c, pre, Step(c, s, Reconcile(who)))
  {
    var r := s.reconcilers[who];
    var (t, q) := ReconcileStep(s, r);
    var u := Step(c, s, Reconcile(who));
    assert r in s.reconcilers;
    ReconcileKeepsCore(c, pre, s, r);
    assert Core(c, pre, u);
    forall x | x in u.reconcilers ensures ReconcilerInv(c, pre, u, x) {
      var i :| 0 <= i < |u.reconcilers| && u.reconcilers[i] == x;
      if i != who {
        assert s.reconcilers[i] == x && x in s.reconcilers;
        ReconcileKeepsOthers(c, pre, s, r, x);
      }
    }
  }

  /** Every interleaving keeps the invariant. */
  lemma {:induction false} InvPlay(c: Config, pre: Issue, s: System, actions: seq<Action>)
    requires Inv(c, pre, s)
    ensures Inv(c, pre, Play(c, s, actions))
    decreases |actions|
  {
    if actions != [] {
      var a := actions[0];
      match a {
        case Launch(answer) => InvLaunch(c, pre, s, answer);
        case Reconcile(who) => if who < |s.reconcilers| { InvReconcile(c, pre, s, who); }
      }
      InvPlay(c, pre, Step(c, s, a), actions[1..]);
    }
  }

  predicate Done(s: System)
  {
    (s.launcher.Launched? || s.launcher.GaveUp?) && forall r :: r in s.reconcilers ==> r.Idle?
  }

  /** When all have finished, either the lease runs and the claim shows, or the
      lease is abandoned and the issue is exactly as before. */
  lemma RaceSettles(c: Config, pre: Issue, n: nat, actions: seq<Action>)
    requires Done(Play(c, Start(c, pre, n), actions))
    ensures !Play(c, Start(c, pre, n), actions).d.receipt.cleanupPending
    ensures var d := Play(c, Start(c, pre, n), actions).d;
      (d.lease == Running && ClaimShown(c, d.issue)) || (d.lease == Abandoned && d.issue == pre)
  {
    InvStart(c, pre, n);
    InvPlay(c, pre, Start(c, pre, n), actions);
  }

  /** The two ways out of Claimed never both succeed, at any point. */
  lemma OneWinner(c: Config, pre: Issue, n: nat, actions: seq<Action>)
    ensures var s := Play(c, Start(c, pre, n), actions); !(s.launchWon && s.reconcileWon)
  {
    InvStart(c, pre, n);
    InvPlay(c, pre, Start(c, pre, n), actions);
  }
}
