/** Claiming an issue for a launch, one write at a time: a crash between any
    two writes loses nothing the next reconciliation cannot undo. */
module ClaimCrash {
  import opened Text
  import opened ClaimModel
  import opened Leases

  /** Anything the claim put on the issue is covered by a running lease or by a
      receipt that marks it for cleanup; nothing else about the issue changed. */
  ghost predicate Covered(pre: Issue, d: Durable)
  {
    && OwnedIsNew(pre, d.receipt) && AtMostAdded(pre, d.receipt, d.issue)
    && (d.issue != pre ==> d.lease == Running || d.receipt.cleanupPending)
    && d.lease in {Claimed, Pending, Running, Abandoned, Stale}
  }

  /** One completed reconciliation of this claim whose remote calls succeed. */
  function Reconciled(d: Durable): Durable
  {
    if !d.receipt.cleanupPending || d.lease !in RECONCILED then d
    else Durable(Cleaned(d.receipt, d.issue),
                 if d.lease == Claimed || d.lease == Pending then Abandoned else d.lease,
                 d.receipt.(cleanupPending := false))
  }

  /** After a crash before Running, reconciliation restores the issue exactly.
      It frees the issue for another claim exactly when the cleanup flag was
      set: a crash before the flag is written, or between clearing it and giving
      the lease up, leaves the lease where it stood. */
  lemma CrashRestores(pre: Issue, d: Durable)
    requires Covered(pre, d) && d.lease != Running
    ensures Reconciled(d).issue == pre
    ensures Reconciled(d).lease in RECLAIMABLE <==> d.lease in RECLAIMABLE || d.receipt.cleanupPending
    ensures Reconciled(d).lease == d.lease || Reconciled(d).lease == Abandoned
    ensures !Reconciled(d).receipt.cleanupPending
    ensures Covered(pre, Reconciled(d)) && Reconciled(Reconciled(d)) == Reconciled(d)
  {
    CleanedRestores(pre, d.receipt, d.issue);
  }

  // ----- what else moves a lease whose scheduler is gone

  datatype Pass = Reconciliation | Retake(config: Config) | Poll(over: bool) | Resume | MarkStale
                | Continue(rewind: bool)

  /** Statuses from which a run can be continued. */
  const CONTINUED: set<LeaseStatus> :=
    {Claimed, Running, WaitingExternal, ReadyToResume, Failed, Abandoned, CleanupAbandoned, Stale}

  /** What one pass makes of the claim: cleaning it up, taking the issue again
      with a receipt of its own, a wait that is over or has failed, resuming,
      giving up on a heartbeat that is too old, or an operator's continuation of
      the run. */
  function After(p: Pass, d: Durable): Durable
  {
    match p
    case Reconciliation => Reconciled(d)
    case Retake(c) =>
      if d.lease in RECLAIMABLE then Durable(d.issue, Claimed, c.ReceiptFor(NOTHING_OWNED, false)) else d
    case Poll(over) =>
      if over then if d.lease == WaitingExternal then d.(lease := ReadyToResume) else d
      else if d.lease in {WaitingExternal, ReadyToResume, Running, Claimed} then d.(lease := Failed) else d
    case Resume => if d.lease == ReadyToResume then d.(lease := Running) else d
    case MarkStale => if d.lease in {Claimed, Running, ReadyToResume} then d.(lease := Stale) else d
    case Continue(rewind) =>
      if d.lease in CONTINUED then d.(lease := if rewind then ReadyToResume else Running) else d
  }

  /** The moves of the other passes, from one status to another. */
  const MOVES: set<(Pass, LeaseStatus, LeaseStatus)> :=
    {(Poll(true), WaitingExternal, ReadyToResume),
     (Poll(false), WaitingExternal, Failed), (Poll(false), ReadyToResume, Failed),
     (Poll(false), Running, Failed), (Poll(false), Claimed, Failed),
     (Resume, ReadyToResume, Running),
     (MarkStale, Claimed, Stale), (MarkStale, Running, Stale), (MarkStale, ReadyToResume, Stale)}

  /** Polling, resuming and stale marking move a lease just so and touch neither the
      receipt nor the issue; a continuation takes it to Running, or rewound to
      ReadyToResume, from anywhere but Pending and Completed. */
  lemma PassMoves(p: Pass, d: Durable)
    requires !p.Reconciliation? && !p.Retake?
    ensures After(p, d) == d.(lease := After(p, d).lease)
    ensures !p.Continue? && After(p, d).lease != d.lease ==> (p, d.lease, After(p, d).lease) in MOVES
    ensures forall to :: (p, d.lease, to) in MOVES ==> After(p, d).lease == to
    ensures p.Continue? ==>
      After(p, d).lease == if d.lease == Pending || d.lease == Completed then d.lease
                           else if p.rewind then ReadyToResume else Running
  {}

  /** None of these ever moves a lease exactly when it stands Pending without the flag. */
  lemma StuckExactly(d: Durable)
    ensures (forall p: Pass :: After(p, d) == d) <==> d.lease == Pending && !d.receipt.cleanupPending
  {
    var c := Config(None, None, None);
    if forall p: Pass :: After(p, d) == d {
      assert After(Reconciliation, d) == d && After(Retake(c), d) == d && After(Poll(true), d) == d;
      assert After(Resume, d) == d && After(MarkStale, d) == d;
      assert After(Continue(true), d) == d && After(Continue(false), d) == d;
    }
  }

  /** Marking the lease stale keeps the claim restorable exactly when it does not
      take a running claim that still shows on the issue unmarked. */
  lemma StaleRestores(pre: Issue, d: Durable)
    requires Covered(pre, d)
    ensures Reconciled(After(MarkStale, d)).issue == pre
        <==> !(d.lease == Running && d.issue != pre && !d.receipt.cleanupPending)
  {
    CleanedRestores(pre, d.receipt, d.issue);
  }

  /** A claim by `c` ended in `d` and the issue may be claimed again. */
  ghost predicate LeftBy(c: Config, pre: Issue, d: Durable)
  {
    && Covered(pre, d) && d.lease in RECLAIMABLE
    && d.receipt.owned in {NOTHING_OWNED, Inspect(c, pre)}
    && d.receipt == c.ReceiptFor(d.receipt.owned, d.receipt.cleanupPending)
  }

  /** Whoever owns just what is missing owns what was found on inspection. */
  lemma OwnedIsInspected(c: Config, issue: Issue, owned: Ownership)
    requires OwnedIsNew(issue, c.ReceiptFor(owned, true)) && ClaimShown(c, Added(c.ReceiptFor(owned, true), issue))
    requires !c.Complete() ==> owned == NOTHING_OWNED
    ensures owned == Inspect(c, issue)
  {}

  datatype Outcome = Ready | NotStarted

  /** How a remote write ends: it works, it fails without effect, or it fails
      although it had its effect. */
  datatype Answer = Works | Fails | FailsApplied

  /** How each remote call ends, if it is made. */
  datatype Remote = Remote(inspect: bool, addAssignee: Answer, addLabel: Answer, verify: bool,
                           read: bool, dropLabel: Answer, dropAssignee: Answer)

  /** The calls that add what is owned work, where there is something to add. */
  predicate AddingWorks(c: Config, owned: Ownership, remote: Remote)
  {
    c.Complete() ==> (owned.assignmentAdded ==> remote.addAssignee == Works)
                     && (owned.labelAdded ==> remote.addLabel == Works)
  }

  /** The calls that a cleanup needs work: the reading, and the removals of what is there. */
  predicate CleaningWorks(r: Receipt, issue: Issue, remote: Remote)
  {
    && remote.read
    && (r.owned.labelAdded && Has(issue.labels, r.labelName) ==> remote.dropLabel == Works)
    && (r.owned.assignmentAdded && Has(issue.assignees, r.assigneeName) ==> remote.dropAssignee == Works)
  }

  /** All calls that a claim of this issue needs work. */
  predicate LaunchWorks(c: Config, issue: Issue, remote: Remote)
  {
    c.Complete() ==> remote.inspect && AddingWorks(c, Inspect(c, issue), remote) && remote.verify
  }

  /** One claim and the issue it is about. */
  class Claim {
    const config: Config
    ghost const pre: Issue
    var issue: Issue
    var lease: LeaseStatus
    var receipt: Receipt
    /** Every durable state since the claim was taken. */
    ghost var history: seq<Durable>

    ghost function View(): Durable
      reads this
    {
      Durable(issue, lease, receipt)
    }

    ghost predicate Safe()
      reads this
    {
      && |history| > 0 && history[|history| - 1] == View() && Covered(pre, View())
      && forall d :: d in history ==> Covered(pre, d)
    }

    /** The lease and its receipt are inserted together; nothing is marked yet. */
    constructor (config: Config, issue: Issue)
      ensures Safe() && View() == Durable(issue, Claimed, config.ReceiptFor(NOTHING_OWNED, false))
      ensures this.config == config && pre == issue
    {
      this.config, this.pre, this.issue, this.lease := config, issue, issue, Claimed;
      this.receipt := config.ReceiptFor(NOTHING_OWNED, false);
      this.history := [Durable(issue, Claimed, config.ReceiptFor(NOTHING_OWNED, false))];
    }

    /** A new process that finds the state a crash left behind. */
    constructor AfterCrash(config: Config, ghost pre: Issue, d: Durable)
      requires Covered(pre, d)
      ensures Safe() && View() == d && this.pre == pre && this.config == config
    {
      this.config, this.pre, this.issue, this.lease, this.receipt := config, pre, d.issue, d.lease, d.receipt;
      this.history := [d];
    }

    // ----- single writes

    method PersistOwnership(owned: Ownership, pending: bool)
      requires Safe() && Covered(pre, View().(receipt := config.ReceiptFor(owned, pending)))
      modifies `receipt, `history
      ensures Safe() && old(history) <= history
      ensures View() == old(View()).(receipt := config.ReceiptFor(owned, pending))
    {
      receipt := config.ReceiptFor(owned, pending);
      history := history + [View()];
    }

    /** Compare-and-set of the lease status. */
    method Transition(to: LeaseStatus, expected: set<LeaseStatus>) returns (applied: bool)
      requires Safe() && (lease in expected ==> Covered(pre, View().(lease := to)))
      modifies `lease, `history
      ensures Safe() && old(history) <= history
      ensures applied <==> old(lease) in expected
      ensures View() == if applied then old(View()).(lease := to) else old(View())
    {
      applied := lease in expected;
      if applied {
        lease := to;
        history := history + [View()];
      }
    }

    method WriteIssue(wanted: Issue, answer: Answer) returns (ok: bool)
      requires Safe() && Covered(pre, View().(issue := wanted))
      modifies `issue, `history
      ensures Safe() && old(history) <= history && (ok <==> answer == Works)
      ensures View() == old(View()).(issue := if answer == Fails then old(issue) else wanted)
    {
      if answer != Fails {
        issue := wanted;
        history := history + [View()];
      }
      ok := answer == Works;
    }

    // ----- the claim

    /** What the claim still has to add: nothing that is there already, and with
        it the claim shows. */
    method InspectRemoteClaim(remote: Remote) returns (owned: Option<Ownership>)
      ensures owned.Some? <==> !config.Complete() || remote.inspect
      ensures owned.Some? ==> OwnedIsNew(issue, config.ReceiptFor(owned.value, true))
      ensures owned.Some? ==> ClaimShown(config, Added(config.ReceiptFor(owned.value, true), issue))
      ensures !config.Complete() ==> owned == Some(NOTHING_OWNED)
    {
      InspectSuffices(config, issue);
      owned := if config.Complete() && !remote.inspect then None else Some(Inspect(config, issue));
    }

    /** Adds what is owned, and all of it if the calls work. */
    method ApplyRemoteClaim(owned: Ownership, remote: Remote) returns (ok: bool)
      requires Safe() && issue == pre && receipt == config.ReceiptFor(owned, true) && lease == Claimed
      modifies `issue, `history
      ensures Safe() && old(history) <= history && View() == old(View()).(issue := issue)
      ensures ok <==> AddingWorks(config, owned, remote)
      ensures ok ==> issue == if config.Complete() then Added(receipt, old(issue)) else old(issue)
    {
      if !config.Complete() {
        return true;
      }
      ok := true;
      if owned.assignmentAdded {
        ok := WriteIssue(WithAssignee(issue, config.Assignee()), remote.addAssignee);
      }
      if ok && owned.labelAdded {
        ok := WriteIssue(WithLabel(issue, config.Label()), remote.addLabel);
      }
    }

    method VerifyRemoteClaim(remote: Remote) returns (ok: bool)
      ensures ok <==> !config.Complete() || (remote.verify && ClaimShown(config, issue))
    {
      ok := !config.Complete() ||
            (remote.verify && Has(issue.labels, config.Label()) && Has(issue.assignees, config.Assignee()));
    }

    /** Takes off what the receipt says was added, and all of it if the calls work. */
    method CleanupRemoteClaim(remote: Remote) returns (ok: bool)
      requires Safe() && lease != Running && (issue != pre ==> receipt.cleanupPending)
      modifies `issue, `history
      ensures Safe() && old(history) <= history && View() == old(View()).(issue := issue)
      ensures ok <==> CleaningWorks(receipt, old(issue), remote)
      ensures ok ==> issue == Cleaned(receipt, old(issue)) == pre
    {
      CleanedRestores(pre, receipt, issue);
      if !remote.read {
        return false;
      }
      ok := true;
      var seen := issue;
      ghost var goal := Cleaned(receipt, issue);
      if receipt.owned.labelAdded && Has(seen.labels, receipt.labelName) {
        WithoutAdded(pre.labels, receipt.labelName);
        ok := WriteIssue(LessLabel(issue, receipt.labelName), remote.dropLabel);
      }
      if receipt.owned.assignmentAdded && Has(seen.assignees, receipt.assigneeName) {
        WithoutAdded(pre.assignees, receipt.assigneeName);
        var removed := WriteIssue(LessAssignee(issue, receipt.assigneeName), remote.dropAssignee);
        ok := ok && removed;
      }
      assert ok ==> issue == goal;
    }

    /** Undo, record whether that worked, give the lease up. */
    method AbandonFailedClaim(remote: Remote)
      requires Safe() && lease in {Claimed, Pending, Abandoned} && (issue != pre ==> receipt.cleanupPending)
      requires receipt == config.ReceiptFor(receipt.owned, receipt.cleanupPending)
      modifies `issue, `receipt, `lease, `history
      ensures Safe() && old(history) <= history && lease == Abandoned
      ensures receipt == config.ReceiptFor(old(receipt).owned, !CleaningWorks(old(receipt), old(issue), remote))
      ensures receipt.cleanupPending || issue == pre
    {
      var cleaned := CleanupRemoteClaim(remote);
      PersistOwnership(receipt.owned, !cleaned);
      var _ := Transition(Abandoned, {Claimed, Pending});
    }

    /** The launch: mark, edit, verify, run, unmark. It gets there exactly when all
        the calls it needs work, and has then added just what was missing. */
    method PrepareLaunchUnit(remote: Remote) returns (r: Outcome)
      requires Safe() && View() == Durable(pre, Claimed, config.ReceiptFor(NOTHING_OWNED, false))
      modifies `issue, `receipt, `lease, `history
      ensures Safe() && old(history) <= history
      ensures r == Ready <==> LaunchWorks(config, pre, remote)
      ensures r == Ready ==>
        View() == Durable(Added(receipt, pre), Running, config.ReceiptFor(Inspect(config, pre), false))
        && ClaimShown(config, issue)
      ensures r == NotStarted ==> lease == Abandoned && LeftBy(config, pre, View())
      ensures r == NotStarted && remote.read && remote.dropLabel == Works && remote.dropAssignee == Works ==>
        issue == pre && !receipt.cleanupPending
    {
      InspectSuffices(config, pre);
      var owned := InspectRemoteClaim(remote);
      if owned.None? {
        AbandonFailedClaim(remote);
        return NotStarted;
      }
      OwnedIsInspected(config, pre, owned.value);
      PersistOwnership(owned.value, true);
      var ok := ApplyRemoteClaim(owned.value, remote);
      if ok {
        ok := VerifyRemoteClaim(remote);
      }
      if !ok {
        AbandonFailedClaim(remote);
        return NotStarted;
      }
      var applied := Transition(Running, {Claimed});
      if !applied {
        assert false;  // only a second scheduler can have taken the lease
      }
      PersistOwnership(owned.value, false);
      return Ready;
    }

    /** The reconciliation of this claim by a restarted scheduler, from any state a
        crash can leave. It completes exactly when there is nothing to do or all
        the calls it needs work; else the claim stays marked for the next time. */
    method Reconcile(remote: Remote) returns (ok: bool)
      requires Safe()
      modifies `issue, `receipt, `lease, `history
      ensures Safe() && old(history) <= history
      ensures ok <==> !old(receipt).cleanupPending || old(lease) !in RECONCILED
                      || CleaningWorks(old(receipt), old(issue), remote)
      ensures ok ==> View() == Reconciled(old(View()))
      ensures !ok ==> receipt == old(receipt) && lease == if old(lease) == Claimed then Pending else old(lease)
    {
      if !receipt.cleanupPending || lease !in RECONCILED {
        return true;
      }
      var listed := lease;
      if listed == Claimed {
        var applied := Transition(Pending, {Claimed});
        if !applied {
          return true;
        }
      }
      ok := CleanupRemoteClaim(remote);
      if !ok {
        return false;
      }
      receipt := receipt.(cleanupPending := false);
      history := history + [View()];
      if listed == Claimed || listed == Pending {
        var _ := Transition(Abandoned, {Pending});
      }
    }
  }
}
