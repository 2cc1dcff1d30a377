/** What the result of a discovery pass says about each issue: where it is routed,
    why it was skipped, and when the pass fails. */
module DiscoveryLaws {
  import opened Text
  import opened Sequences
  import opened Leases
  import opened Milestones
  import opened Discovery

  /** `r` is the result of a pass over the listed issues. */
  ghost predicate Results(cfg: Config, q: Tracker, db: Database, listed: seq<Issue>, active: nat, r: Result)
  {
    Progress(RulesOf(cfg, q, db), OrderIssues(BySemver(cfg), listed), active, r)
  }

  // ----- where eligible issues go

  /** The target routes, and the tracker knows children of the issue. */
  predicate IsParent(cfg: Config, q: Tracker, x: Issue)
  {
    cfg.routeParents && q.children(x.number).Got? && q.children(x.number).value > 0
  }

  /** An eligible issue carries the parent workflow and config exactly if the target
      routes and the issue has children; any other carries neither. */
  lemma RoutedExactly(cfg: Config, q: Tracker, db: Database, listed: seq<Issue>, active: nat, r: Result, i: nat)
    requires Results(cfg, q, db, listed, active, r) && i < |r.eligible|
    ensures var x := r.eligible[i];
      && x.workflowType == (if IsParent(cfg, q, x.issue) then cfg.parentWorkflowType else None)
      && x.config == (if IsParent(cfg, q, x.issue) then cfg.parentConfig else None)
      && (cfg.routeParents ==> q.children(x.issue.number).Got?)
  {
    assert Got(r.eligible[i]) == RulesOf(cfg, q, db).route(r.eligible[i].issue);
  }

  // ----- why issues are skipped

  /** The parent carries the active label, or its own lease is taken. */
  predicate ParentBusy(cfg: Config, db: Database, parent: Issue)
  {
    || (cfg.activeParentLabel.Some? && cfg.activeParentLabel.value != ""
        && exists l :: l in parent.labels && EqIgnoreCase(l, cfg.activeParentLabel.value))
    || (parent.number !in db.unreadable && !Claimable(db.leases, IssueKey(cfg.repo, parent.number)))
  }

  predicate Carries(x: Issue, name: string) { exists l :: l in x.labels && EqIgnoreCase(l, name) }

  /** What a skip reason says about the issue, in a pass that took `taken` issues. */
  predicate Says(cfg: Config, q: Tracker, db: Database, active: nat, taken: nat, x: Issue, reason: Reason)
  {
    match reason
    case MissingRequiredLabel(name) => name in cfg.includeLabels && !Carries(x, name)
    case HasExcludedLabel(name) => name in cfg.excludeLabels && Carries(x, name)
    case WrongState(state) =>
      state == x.state && cfg.issueStates != [] && forall s :: s in cfg.issueStates ==> !EqIgnoreCase(s, x.state)
    case MissingApprovalProvenance =>
      (cfg.approvalLabel.Some? != cfg.approvalActor.Some?)
      || (cfg.approvalLabel.Some? && q.actor(x.number, cfg.approvalLabel.value) == Got(None))
    case UnauthorizedApprovalActor(actor) =>
      && cfg.approvalLabel.Some? && cfg.approvalActor.Some?
      && q.actor(x.number, cfg.approvalLabel.value) == Got(Some(actor)) && !EqIgnoreCase(actor, cfg.approvalActor.value)
    case InvalidLeaseState => x.number in db.unreadable
    case HasActiveLease => !Claimable(db.leases, IssueKey(cfg.repo, x.number))
    case ChildOfActiveParent =>
      && cfg.skipChildren && q.parent(x.number).Got? && q.parent(x.number).value.Some?
      && ParentBusy(cfg, db, q.parent(x.number).value.value)
    case HasOpenPr => q.openPr(x.number) == Got(true)
    case ConcurrencyLimitReached =>
      taken + active >= (if cfg.maxPerConfig.Some? then cfg.maxPerConfig.value
                         else if cfg.maxRuns.Some? then cfg.maxRuns.value else 1)
    case RoutingFailed => cfg.routeParents && q.children(x.number).Fault?
  }

  lemma {:induction false} MissingIsMissing(x: Issue, names: seq<string>)
    ensures FirstMissing(x, names).Some? ==>
      FirstMissing(x, names).value in names && !Carries(x, FirstMissing(x, names).value)
  {
    if names != [] { MissingIsMissing(x, names[1..]); }
  }

  lemma {:induction false} PresentIsPresent(x: Issue, names: seq<string>)
    ensures FirstPresent(x, names).Some? ==>
      FirstPresent(x, names).value in names && Carries(x, FirstPresent(x, names).value)
  {
    if names != [] { PresentIsPresent(x, names[1..]); }
  }

  lemma StaticSays(cfg: Config, q: Tracker, db: Database, active: nat, taken: nat, x: Issue)
    ensures StaticFilter(cfg, x).Some? ==> Says(cfg, q, db, active, taken, x, StaticFilter(cfg, x).value)
  {
    MissingIsMissing(x, cfg.includeLabels);
    PresentIsPresent(x, cfg.excludeLabels);
  }

  lemma ApprovalSays(cfg: Config, q: Tracker, db: Database, active: nat, taken: nat, x: Issue)
    requires ApprovalSkip(cfg, q, x).Got? && ApprovalSkip(cfg, q, x).value.Some?
    ensures Says(cfg, q, db, active, taken, x, ApprovalSkip(cfg, q, x).value.value)
  {}

  lemma RemoteSays(cfg: Config, q: Tracker, db: Database, active: nat, taken: nat, x: Issue)
    requires RemoteSkip(cfg, q, db, x).Got? && RemoteSkip(cfg, q, db, x).value.Some?
    ensures Says(cfg, q, db, active, taken, x, RemoteSkip(cfg, q, db, x).value.value)
  {}

  lemma JudgeSays(cfg: Config, q: Tracker, db: Database, active: nat, taken: nat, x: Issue)
    requires Judge(cfg, q, db, x).Got? && Judge(cfg, q, db, x).value.Some?
    ensures Says(cfg, q, db, active, taken, x, Judge(cfg, q, db, x).value.value)
  {
    if StaticFilter(cfg, x).Some? {
      StaticSays(cfg, q, db, active, taken, x);
    } else if ApprovalSkip(cfg, q, x).Fault? || ApprovalSkip(cfg, q, x).value.Some? {
      ApprovalSays(cfg, q, db, active, taken, x);
    } else if LocalSkip(cfg, db, x).None? {
      RemoteSays(cfg, q, db, active, taken, x);
    }
  }

  /** Every skipped issue has a reason that is true of it. */
  lemma ReasonsApply(cfg: Config, q: Tracker, db: Database, listed: seq<Issue>, active: nat, r: Result, i: nat)
    requires Results(cfg, q, db, listed, active, r) && i < |r.skipped|
    ensures Says(cfg, q, db, active, |r.eligible|, r.skipped[i].0, r.skipped[i].1)
  {
    var rules := RulesOf(cfg, q, db);
    var (x, reason) := r.skipped[i];
    assert Justified(rules, x, reason) && LimitIsReason(rules, active, |r.eligible|, r.skipped[i]);
    assert rules.judge(x) == Judge(cfg, q, db, x) && rules.route(x) == RouteIssue(cfg, q, x);
    if Judge(cfg, q, db, x).Got? && Judge(cfg, q, db, x).value.Some? {
      JudgeSays(cfg, q, db, active, |r.eligible|, x);
    }
  }

  // ----- when the pass fails

  /** The tracker fails on a question that discovery has to ask about the issue. */
  predicate TrackerFails(cfg: Config, q: Tracker, db: Database, x: Issue)
  {
    && StaticFilter(cfg, x).None?
    && (|| (cfg.approvalLabel.Some? && cfg.approvalActor.Some? && q.actor(x.number, cfg.approvalLabel.value).Fault?)
        || (&& ApprovalSkip(cfg, q, x) == Got(None) && x.number !in db.unreadable
            && Claimable(db.leases, IssueKey(cfg.repo, x.number))
            && (|| (cfg.skipChildren && q.parent(x.number).Fault?)
                || ((cfg.skipChildren ==> q.parent(x.number).Got?
                                          && (q.parent(x.number).value.None?
                                              || !ParentBusy(cfg, db, q.parent(x.number).value.value)))
                    && q.openPr(x.number).Fault?))))
  }

  /** The pass fails exactly on an issue about which a question fails that no
      cheaper filter makes needless. */
  lemma FailsExactly(cfg: Config, q: Tracker, db: Database, x: Issue)
    ensures RulesOf(cfg, q, db).judge(x).Fault? <==> TrackerFails(cfg, q, db, x)
  {
    assert RulesOf(cfg, q, db).judge(x) == Judge(cfg, q, db, x);
  }

  // ----- the order

  /** Eligible issues come by number if the order of milestones is set to none, and
      by version otherwise. */
  lemma EligibleOrder(cfg: Config, q: Tracker, db: Database, listed: seq<Issue>, active: nat, r: Result)
    requires Results(cfg, q, db, listed, active, r)
    ensures cfg.milestoneOrder != Some("none") ==> Sorted(true, IssuesOf(r.eligible))
    ensures cfg.milestoneOrder == Some("none") ==>
      forall i, j :: 0 <= i < j < |r.eligible| ==> r.eligible[i].issue.number <= r.eligible[j].issue.number
  {
    EligibleWithinLimitInOrder(RulesOf(cfg, q, db), BySemver(cfg), listed, active, r);
    var issues := IssuesOf(r.eligible);
    forall i, j | 0 <= i < j < |r.eligible| && cfg.milestoneOrder == Some("none")
      ensures r.eligible[i].issue.number <= r.eligible[j].issue.number
    {
      assert Before(false, issues[i], issues[j]);
    }
  }
}
