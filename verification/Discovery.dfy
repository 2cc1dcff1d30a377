/** One discovery pass: which of the listed issues may be launched, and why the others may not. */
module Discovery {
  import opened Text
  import opened Sequences
  import opened Leases
  import opened Milestones

  datatype Config = Config(
    repo: string,
    includeLabels: seq<string>,
    excludeLabels: seq<string>,
    issueStates: seq<string>,
    approvalLabel: Option<string>,
    approvalActor: Option<string>,
    activeParentLabel: Option<string>,
    milestoneOrder: Option<string>,
    maxPerConfig: Option<nat>,
    maxRuns: Option<nat>,
    routeParents: bool,
    parentWorkflowType: Option<string>,
    parentConfig: Option<string>,
    skipChildren: bool)

  datatype Reason =
    | MissingRequiredLabel(name: string) | HasExcludedLabel(name: string) | WrongState(state: string)
    | MissingApprovalProvenance | UnauthorizedApprovalActor(actor: string)
    | InvalidLeaseState | HasActiveLease | ChildOfActiveParent | HasOpenPr
    | ConcurrencyLimitReached | RoutingFailed

  datatype Routed = Routed(issue: Issue, workflowType: Option<string>, config: Option<string>)

  datatype Answer<+T> = Got(value: T) | Fault

  /** What the issue tracker answers during the pass. */
  datatype Tracker = Tracker(actor: (nat, string) -> Answer<Option<string>>, parent: nat -> Answer<Option<Issue>>,
                             openPr: nat -> Answer<bool>, children: nat -> Answer<nat>)

  /** The lease table, and for which issues reading it fails. */
  datatype Database = Database(leases: Table, unreadable: set<nat>)

  // ----- the filters

  predicate HasLabel(issue: Issue, name: string) { exists l :: l in issue.labels && EqIgnoreCase(l, name) }

  function FirstMissing(issue: Issue, names: seq<string>): Option<string>
  {
    if names == [] then None else if !HasLabel(issue, names[0]) then Some(names[0]) else FirstMissing(issue, names[1..])
  }

  function FirstPresent(issue: Issue, names: seq<string>): Option<string>
  {
    if names == [] then None else if HasLabel(issue, names[0]) then Some(names[0]) else FirstPresent(issue, names[1..])
  }

  function StaticFilter(cfg: Config, issue: Issue): Option<Reason>
  {
    var missing := FirstMissing(issue, cfg.includeLabels);
    var excluded := FirstPresent(issue, cfg.excludeLabels);
    if missing.Some? then Some(MissingRequiredLabel(missing.value))
    else if excluded.Some? then Some(HasExcludedLabel(excluded.value))
    else if cfg.issueStates != [] && !exists s :: s in cfg.issueStates && EqIgnoreCase(s, issue.state)
    then Some(WrongState(issue.state)) else None
  }

  function ApprovalSkip(cfg: Config, q: Tracker, issue: Issue): Answer<Option<Reason>>
  {
    match (cfg.approvalLabel, cfg.approvalActor)
    case (None, None) => Got(None)
    case (Some(name), Some(expected)) =>
      (match q.actor(issue.number, name)
       case Fault => Fault
       case Got(None) => Got(Some(MissingApprovalProvenance))
       case Got(Some(actual)) => Got(if EqIgnoreCase(actual, expected) then None
                                     else Some(UnauthorizedApprovalActor(actual))))
    case _ => Got(Some(MissingApprovalProvenance))
  }

  predicate Blocked(db: Database, repo: string, number: nat) { !Claimable(db.leases, IssueKey(repo, number)) }

  function LocalSkip(cfg: Config, db: Database, issue: Issue): Option<Reason>
  {
    if issue.number in db.unreadable then Some(InvalidLeaseState)
    else if Blocked(db, cfg.repo, issue.number) then Some(HasActiveLease) else None
  }

  predicate ActiveParent(cfg: Config, db: Database, parent: Issue)
  {
    || (cfg.activeParentLabel.Some? && cfg.activeParentLabel.value != ""
        && HasLabel(parent, cfg.activeParentLabel.value))
    || (parent.number !in db.unreadable && Blocked(db, cfg.repo, parent.number))
  }

  function RemoteSkip(cfg: Config, q: Tracker, db: Database, issue: Issue): Answer<Option<Reason>>
  {
    var parent := if cfg.skipChildren then q.parent(issue.number) else Got(None);
    if parent.Fault? then Fault
    else if parent.value.Some? && ActiveParent(cfg, db, parent.value.value) then Got(Some(ChildOfActiveParent))
    else match q.openPr(issue.number)
         case Fault => Fault
         case Got(open) => Got(if open then Some(HasOpenPr) else None)
  }

  /** All filters that do not depend on how many issues were taken before; `Fault` ends the pass. */
  function Judge(cfg: Config, q: Tracker, db: Database, issue: Issue): Answer<Option<Reason>>
  {
    if StaticFilter(cfg, issue).Some? then Got(StaticFilter(cfg, issue))
    else
      var approval := ApprovalSkip(cfg, q, issue);
      if approval.Fault? || approval.value.Some? then approval
      else if LocalSkip(cfg, db, issue).Some? then Got(LocalSkip(cfg, db, issue))
      else RemoteSkip(cfg, q, db, issue)
  }

  function RouteIssue(cfg: Config, q: Tracker, issue: Issue): Answer<Routed>
  {
    if !cfg.routeParents then Got(Routed(issue, None, None))
    else match q.children(issue.number)
         case Fault => Fault
         case Got(n) => Got(if n > 0 then Routed(issue, cfg.parentWorkflowType, cfg.parentConfig)
                            else Routed(issue, None, None))
  }

  // ----- answers are asked for once

  /** Remembers the tracker's parent and children answers; failures are asked again. */
  class LookupCache {
    const tracker: Tracker
    var parents: map<nat, Option<Issue>>
    var children: map<nat, nat>

    ghost predicate Valid()
      reads this
    {
      && (forall n :: n in parents ==> tracker.parent(n) == Got(parents[n]))
      && (forall n :: n in children ==> tracker.children(n) == Got(children[n]))
    }

    constructor (q: Tracker)
      ensures Valid() && tracker == q
    {
      tracker := q;
      parents, children := map[], map[];
    }

    /** The answer is the tracker's own, and a number that was answered before is not asked for. */
    method ParentIssue(n: nat) returns (r: Answer<Option<Issue>>, asked: bool)
      requires Valid()
      modifies `parents
      ensures Valid() && r == tracker.parent(n)
      ensures asked <==> n !in old(parents)
      ensures r.Got? ==> n in parents
    {
      asked := n !in parents;
      if asked {
        r := tracker.parent(n);
        if r.Got? { parents := parents[n := r.value]; }
      } else {
        r := Got(parents[n]);
      }
    }

    method SubIssues(n: nat) returns (r: Answer<nat>, asked: bool)
      requires Valid()
      modifies `children
      ensures Valid() && r == tracker.children(n)
      ensures asked <==> n !in old(children)
      ensures r.Got? ==> n in children
    {
      asked := n !in children;
      if asked {
        r := tracker.children(n);
        if r.Got? { children := children[n := r.value]; }
      } else {
        r := Got(children[n]);
      }
    }

    method RemoteDynamicSkip(cfg: Config, db: Database, issue: Issue) returns (r: Answer<Option<Reason>>)
      requires Valid()
      modifies `parents
      ensures Valid() && r == RemoteSkip(cfg, tracker, db, issue)
    {
      if cfg.skipChildren {
        var parent, _ := ParentIssue(issue.number);
        if parent.Fault? {
          return Fault;
        }
        if parent.value.Some? && ActiveParent(cfg, db, parent.value.value) {
          return Got(Some(ChildOfActiveParent));
        }
      }
      var open := tracker.openPr(issue.number);
      if open.Fault? {
        return Fault;
      }
      return Got(if open.value then Some(HasOpenPr) else None);
    }

    method Route(cfg: Config, issue: Issue) returns (r: Answer<Routed>)
      requires Valid()
      modifies `children
      ensures Valid() && r == RouteIssue(cfg, tracker, issue)
    {
      if !cfg.routeParents {
        return Got(Routed(issue, None, None));
      }
      var n, _ := SubIssues(issue.number);
      if n.Fault? {
        return Fault;
      }
      return Got(if n.value > 0 then Routed(issue, cfg.parentWorkflowType, cfg.parentConfig)
                 else Routed(issue, None, None));
    }
  }

  // ----- the pass

  function Limit(cfg: Config): nat
  {
    if cfg.maxPerConfig.Some? then cfg.maxPerConfig.value else if cfg.maxRuns.Some? then cfg.maxRuns.value else 1
  }

  predicate BySemver(cfg: Config) { cfg.milestoneOrder != Some("none") }

  /** What a pass decides by: the filters, the routing, and the limit. */
  datatype Rules = Rules(judge: Issue -> Answer<Option<Reason>>, route: Issue -> Answer<Routed>, limit: nat)

  function RulesOf(cfg: Config, q: Tracker, db: Database): Rules
  {
    Rules(x => Judge(cfg, q, db, x), x => RouteIssue(cfg, q, x), Limit(cfg))
  }

  /** Nothing but the limit keeps the issue from being taken. */
  predicate Fit(rules: Rules, issue: Issue) { rules.judge(issue) == Got(None) && rules.route(issue).Got? }

  function FitOnes(rules: Rules, issues: seq<Issue>): (r: seq<Issue>)
    ensures forall x :: x in r <==> x in issues && Fit(rules, x)
    decreases |issues|
  {
    if issues == [] then []
    else
      var last := issues[|issues| - 1];
      assert issues == issues[..|issues| - 1] + [last];
      FitOnes(rules, issues[..|issues| - 1]) + (if Fit(rules, last) then [last] else [])
  }

  /** How many may still be taken. */
  function Room(rules: Rules, active: nat): nat { if active >= rules.limit then 0 else rules.limit - active }

  /** The first fit issues, in order, as many as there is room for. */
  function Taken(rules: Rules, ordered: seq<Issue>, active: nat): seq<Issue>
  {
    var fit := FitOnes(rules, ordered);
    if |fit| <= Room(rules, active) then fit else fit[..Room(rules, active)]
  }

  lemma TakenNext(rules: Rules, seen: seq<Issue>, x: Issue, active: nat)
    ensures Taken(rules, seen + [x], active) ==
      Taken(rules, seen, active)
      + (if Fit(rules, x) && |Taken(rules, seen, active)| < Room(rules, active) then [x] else [])
  {
    var all := seen + [x];
    assert all[..|all| - 1] == seen;
  }

  function IssuesOf(rs: seq<Routed>): (s: seq<Issue>)
    ensures |s| == |rs| && forall i :: 0 <= i < |rs| ==> s[i] == rs[i].issue
  {
    if rs == [] then [] else IssuesOf(rs[..|rs| - 1]) + [rs[|rs| - 1].issue]
  }

  function SkippedIssues(ss: seq<(Issue, Reason)>): (s: seq<Issue>)
    ensures |s| == |ss| && forall i :: 0 <= i < |ss| ==> s[i] == ss[i].0
  {
    if ss == [] then [] else SkippedIssues(ss[..|ss| - 1]) + [ss[|ss| - 1].0]
  }

  datatype Result = Result(eligible: seq<Routed>, skipped: seq<(Issue, Reason)>)

  /** A skip reason is the filters' own, or the limit, or a failed routing while there was room. */
  predicate Justified(rules: Rules, issue: Issue, reason: Reason)
  {
    match rules.judge(issue)
    case Fault => false
    case Got(Some(r)) => reason == r
    case Got(None) => reason == ConcurrencyLimitReached || (reason == RoutingFailed && rules.route(issue).Fault?)
  }

  ghost predicate AllRouted(rules: Rules, rs: seq<Routed>)
  {
    forall i :: 0 <= i < |rs| ==> Got(rs[i]) == rules.route(rs[i].issue)
  }

  ghost predicate AllJustified(rules: Rules, ss: seq<(Issue, Reason)>)
  {
    forall i :: 0 <= i < |ss| ==> Justified(rules, ss[i].0, ss[i].1)
  }

  predicate LimitIsReason(rules: Rules, active: nat, taken: nat, skipped: (Issue, Reason))
  {
    skipped.1 == ConcurrencyLimitReached && rules.judge(skipped.0) == Got(None) ==> taken >= Room(rules, active)
  }

  /** Issues are skipped for the limit only where it is reached. */
  ghost predicate LimitReached(rules: Rules, active: nat, r: Result)
  {
    forall i :: 0 <= i < |r.skipped| ==> LimitIsReason(rules, active, |r.eligible|, r.skipped[i])
  }

  /** What the loop has done after `seen`. */
  ghost predicate Progress(rules: Rules, seen: seq<Issue>, active: nat, r: Result)
  {
    && IssuesOf(r.eligible) == Taken(rules, seen, active)
    && AllRouted(rules, r.eligible)
    && multiset(seen) == multiset(IssuesOf(r.eligible)) + multiset(SkippedIssues(r.skipped))
    && AllJustified(rules, r.skipped) && LimitReached(rules, active, r)
    && (forall x :: x in seen ==> rules.judge(x).Got?)
  }

  lemma SkipKeeps(rules: Rules, seen: seq<Issue>, x: Issue, active: nat, r: Result, reason: Reason)
    requires Progress(rules, seen, active, r) && Justified(rules, x, reason)
    requires Fit(rules, x) ==> |r.eligible| >= Room(rules, active)
    requires LimitIsReason(rules, active, |r.eligible|, (x, reason))
    ensures Progress(rules, seen + [x], active, Result(r.eligible, r.skipped + [(x, reason)]))
  {
    TakenNext(rules, seen, x, active);
    SkippedNext(rules, r.skipped, x, reason);
    LimitNext(rules, active, r, x, reason);
  }

  lemma LimitNext(rules: Rules, active: nat, r: Result, x: Issue, reason: Reason)
    requires LimitReached(rules, active, r) && LimitIsReason(rules, active, |r.eligible|, (x, reason))
    ensures LimitReached(rules, active, Result(r.eligible, r.skipped + [(x, reason)]))
  {}

  lemma SkippedNext(rules: Rules, ss: seq<(Issue, Reason)>, x: Issue, reason: Reason)
    requires AllJustified(rules, ss) && Justified(rules, x, reason)
    ensures SkippedIssues(ss + [(x, reason)]) == SkippedIssues(ss) + [x] && AllJustified(rules, ss + [(x, reason)])
  {
    var all := ss + [(x, reason)];
    assert all[..|all| - 1] == ss;
  }

  lemma TakeKeeps(rules: Rules, seen: seq<Issue>, x: Issue, active: nat, r: Result, routed: Routed)
    requires Progress(rules, seen, active, r) && |r.eligible| < Room(rules, active)
    requires rules.judge(x) == Got(None) && rules.route(x) == Got(routed) && routed.issue == x
    ensures Progress(rules, seen + [x], active, Result(r.eligible + [routed], r.skipped))
  {
    TakenNext(rules, seen, x, active);
    var eligible := r.eligible + [routed];
    assert eligible[..|eligible| - 1] == r.eligible;
  }

  lemma SameMembers(a: seq<Issue>, b: seq<Issue>)
    requires multiset(a) == multiset(b)
    ensures forall x :: x in a <==> x in b
  {
    assert forall x :: x in a <==> x in multiset(a);
    assert forall x :: x in b <==> x in multiset(b);
  }

  /** The filters in their order, the cheap ones first. */
  method JudgeIssue(cfg: Config, db: Database, issue: Issue, cache: LookupCache) returns (r: Answer<Option<Reason>>)
    requires cache.Valid()
    modifies cache`parents
    ensures cache.Valid() && r == Judge(cfg, cache.tracker, db, issue)
  {
    var reason := StaticFilter(cfg, issue);
    if reason.Some? {
      return Got(reason);
    }
    var approval := ApprovalSkip(cfg, cache.tracker, issue);
    if approval.Fault? || approval.value.Some? {
      return approval;
    }
    reason := LocalSkip(cfg, db, issue);
    if reason.Some? {
      return Got(reason);
    }
    r := cache.RemoteDynamicSkip(cfg, db, issue);
  }

  lemma ProgressStart(rules: Rules, active: nat)
    ensures Progress(rules, [], active, Result([], []))
  {}

  /** A finished pass met no failure. */
  lemma ProgressEnd(rules: Rules, issues: seq<Issue>, listed: seq<Issue>, active: nat, r: Result)
    requires Progress(rules, issues, active, r) && multiset(issues) == multiset(listed)
    ensures !exists x :: x in listed && rules.judge(x).Fault?
  {
    SameMembers(issues, listed);
  }

  /** One round of the pass: filter, hold against the limit, route. */
  method Consider(cfg: Config, db: Database, issue: Issue, active: nat, before: Result, cache: LookupCache,
                  ghost rules: Rules, ghost seen: seq<Issue>)
    returns (ok: bool, r: Result)
    requires cache.Valid() && rules == RulesOf(cfg, cache.tracker, db) && Progress(rules, seen, active, before)
    modifies cache
    ensures cache.Valid()
    ensures ok ==> Progress(rules, seen + [issue], active, r)
    ensures !ok ==> rules.judge(issue).Fault?
  {
    var judged := JudgeIssue(cfg, db, issue, cache);
    assert judged == rules.judge(issue);
    if judged.Fault? {
      return false, before;
    }
    if judged.value.Some? {
      SkipKeeps(rules, seen, issue, active, before, judged.value.value);
      return true, Result(before.eligible, before.skipped + [(issue, judged.value.value)]);
    }
    if |before.eligible| + active >= Limit(cfg) {
      SkipKeeps(rules, seen, issue, active, before, ConcurrencyLimitReached);
      return true, Result(before.eligible, before.skipped + [(issue, ConcurrencyLimitReached)]);
    }
    var routed := cache.Route(cfg, issue);
    assert routed == rules.route(issue);
    if routed.Fault? {
      SkipKeeps(rules, seen, issue, active, before, RoutingFailed);
      return true, Result(before.eligible, before.skipped + [(issue, RoutingFailed)]);
    }
    TakeKeeps(rules, seen, issue, active, before, routed.value);
    return true, Result(before.eligible + [routed.value], before.skipped);
  }

  /** The pass fails exactly when the tracker fails on some issue that reaches it;
      otherwise it takes the first fit issues as far as the limit allows and
      accounts for every other issue with its reason. */
  method Discover(cfg: Config, q: Tracker, db: Database, listed: seq<Issue>, active: nat) returns (r: Answer<Result>)
    ensures r.Fault? <==> exists x :: x in listed && RulesOf(cfg, q, db).judge(x).Fault?
    ensures r.Got? ==> Progress(RulesOf(cfg, q, db), OrderIssues(BySemver(cfg), listed), active, r.value)
  {
    ghost var rules := RulesOf(cfg, q, db);
    var issues := OrderIssues(BySemver(cfg), listed);
    ProgressStart(rules, active);
    assert issues[..0] == [];
    var result := Result([], []);
    var cache := new LookupCache(q);
    for i := 0 to |issues|
      invariant cache.Valid() && cache.tracker == q && fresh(cache)
      invariant Progress(rules, issues[..i], active, result)
    {
      assert issues[..i + 1] == issues[..i] + [issues[i]];
      var ok, next := Consider(cfg, db, issues[i], active, result, cache, rules, issues[..i]);
      if !ok {
        SameMembers(issues, listed);
        assert issues[i] in listed;
        return Fault;
      }
      result := next;
    }
    assert issues[..|issues|] == issues;
    ProgressEnd(rules, issues, listed, active, result);
    return Got(result);
  }

  // ----- what that comes to

  lemma {:induction false} FitOnesSorted(rules: Rules, bySemver: bool, s: seq<Issue>)
    requires Sorted(bySemver, s)
    ensures Sorted(bySemver, FitOnes(rules, s))
    decreases |s|
  {
    if s != [] {
      var front := s[..|s| - 1];
      FitOnesSorted(rules, bySemver, front);
      var fit := FitOnes(rules, front);
      forall i | 0 <= i < |fit| ensures Before(bySemver, fit[i], s[|s| - 1]) {
        assert fit[i] in front;
        var j :| 0 <= j < |front| && front[j] == fit[i];
        assert s[j] == fit[i];
      }
    }
  }

  lemma FitInOrder(rules: Rules, bySemver: bool, listed: seq<Issue>)
    ensures Sorted(bySemver, FitOnes(rules, OrderIssues(bySemver, listed)))
  {
    OrderedIsSorted(bySemver, listed);
    FitOnesSorted(rules, bySemver, OrderIssues(bySemver, listed));
  }

  /** Of distinct listed issues each ends up eligible or skipped, never both and
      never twice, and nothing else ends up anywhere. */
  lemma EveryIssueOnce(rules: Rules, bySemver: bool, listed: seq<Issue>, active: nat, r: Result)
    requires Progress(rules, OrderIssues(bySemver, listed), active, r) && NoDuplicates(listed)
    ensures NoDuplicates(IssuesOf(r.eligible)) && NoDuplicates(SkippedIssues(r.skipped))
    ensures forall x :: x in listed <==> x in IssuesOf(r.eligible) || x in SkippedIssues(r.skipped)
    ensures forall x :: !(x in IssuesOf(r.eligible) && x in SkippedIssues(r.skipped))
  {
    var taken, left := IssuesOf(r.eligible), SkippedIssues(r.skipped);
    CountedOnce(listed);
    assert multiset(taken) + multiset(left) == multiset(listed);
    forall x ensures x in listed <==> x in taken || x in left {
      assert x in listed <==> multiset(listed)[x] > 0;
      assert x in taken <==> multiset(taken)[x] > 0;
      assert x in left <==> multiset(left)[x] > 0;
    }
    forall x ensures multiset(taken)[x] + multiset(left)[x] <= 1 {
      assert multiset(listed)[x] == multiset(taken)[x] + multiset(left)[x];
      assert x !in listed ==> multiset(listed)[x] == 0;
    }
    CountedOnce(taken);
    CountedOnce(left);
  }

  /** What is eligible and what is active together stay within the limit, unless
      the limit was passed before; and eligible issues come in order. */
  lemma EligibleWithinLimitInOrder(rules: Rules, bySemver: bool, listed: seq<Issue>, active: nat, r: Result)
    requires Progress(rules, OrderIssues(bySemver, listed), active, r)
    ensures |r.eligible| + active <= rules.limit || (r.eligible == [] && active > rules.limit)
    ensures Sorted(bySemver, IssuesOf(r.eligible))
  {
    FitInOrder(rules, bySemver, listed);
  }

  /** An issue passed over for the limit alone does not belong before an eligible one. */
  lemma NoneJumpsTheQueue(rules: Rules, bySemver: bool, listed: seq<Issue>, active: nat, r: Result)
    requires Progress(rules, OrderIssues(bySemver, listed), active, r)
    ensures forall x, y :: x in listed && Fit(rules, x) && x !in IssuesOf(r.eligible) && y in IssuesOf(r.eligible) ==>
      Before(bySemver, y, x)
  {
    var ordered := OrderIssues(bySemver, listed);
    FitInOrder(rules, bySemver, listed);
    SameMembers(ordered, listed);
    forall x, y | x in listed && Fit(rules, x) && x !in IssuesOf(r.eligible) && y in IssuesOf(r.eligible)
      ensures Before(bySemver, y, x)
    {
      LaterThanTaken(rules, bySemver, FitOnes(rules, ordered), Room(rules, active), x, y);
    }
  }

  lemma LaterThanTaken(rules: Rules, bySemver: bool, fit: seq<Issue>, room: nat, x: Issue, y: Issue)
    requires Sorted(bySemver, fit) && x in fit
    requires var taken := if |fit| <= room then fit else fit[..room];
      x !in taken && y in taken
    ensures Before(bySemver, y, x)
  {
    var taken := if |fit| <= room then fit else fit[..room];
    assert forall k :: 0 <= k < |taken| ==> fit[k] == taken[k] && fit[k] in taken;
    var i :| 0 <= i < |fit| && fit[i] == x;
    var j :| 0 <= j < |taken| && taken[j] == y;
  }

  lemma {:induction false} MissingNone(issue: Issue, names: seq<string>)
    ensures FirstMissing(issue, names).None? <==> forall n :: n in names ==> HasLabel(issue, n)
  {
    if names != [] { MissingNone(issue, names[1..]); }
  }

  lemma {:induction false} PresentNone(issue: Issue, names: seq<string>)
    ensures FirstPresent(issue, names).None? <==> forall n :: n in names ==> !HasLabel(issue, n)
  {
    if names != [] { PresentNone(issue, names[1..]); }
  }

  /** An eligible issue has every required label and no excluded one, was approved
      where approval is asked for, has no open pull request, and its lease is free
      for the taking: the claim guard would let it through. */
  lemma EligibleIsClaimable(cfg: Config, q: Tracker, db: Database, listed: seq<Issue>, active: nat, r: Result)
    requires Progress(RulesOf(cfg, q, db), OrderIssues(BySemver(cfg), listed), active, r)
    ensures forall x :: x in IssuesOf(r.eligible) ==> Launchable(cfg, q, db, x)
  {
    var rules := RulesOf(cfg, q, db);
    forall x | x in IssuesOf(r.eligible) ensures Launchable(cfg, q, db, x) {
      assert x in FitOnes(rules, OrderIssues(BySemver(cfg), listed));
      assert rules.judge(x) == Judge(cfg, q, db, x);
      PassedFilters(cfg, q, db, x);
    }
  }

  ghost predicate Launchable(cfg: Config, q: Tracker, db: Database, x: Issue)
  {
    && Claimable(db.leases, IssueKey(cfg.repo, x.number)) && q.openPr(x.number) == Got(false)
    && (forall n :: n in cfg.includeLabels ==> HasLabel(x, n))
    && (forall n :: n in cfg.excludeLabels ==> !HasLabel(x, n))
    && Approved(cfg, q, x)
  }

  ghost predicate Approved(cfg: Config, q: Tracker, x: Issue)
  {
    && (cfg.approvalLabel.Some? <==> cfg.approvalActor.Some?)
    && (cfg.approvalLabel.Some? ==>
          exists a :: q.actor(x.number, cfg.approvalLabel.value) == Got(Some(a))
            && EqIgnoreCase(a, cfg.approvalActor.value))
  }

  /** Exactly which issues the filters let through. */
  lemma PassedFilters(cfg: Config, q: Tracker, db: Database, x: Issue)
    ensures Judge(cfg, q, db, x) == Got(None) <==>
      && (forall n :: n in cfg.includeLabels ==> HasLabel(x, n))
      && (forall n :: n in cfg.excludeLabels ==> !HasLabel(x, n))
      && (cfg.issueStates == [] || exists s :: s in cfg.issueStates && EqIgnoreCase(s, x.state))
      && Approved(cfg, q, x)
      && x.number !in db.unreadable && Claimable(db.leases, IssueKey(cfg.repo, x.number))
      && (cfg.skipChildren ==> q.parent(x.number).Got?
                               && (q.parent(x.number).value.Some? ==>
                                   !ActiveParent(cfg, db, q.parent(x.number).value.value)))
      && q.openPr(x.number) == Got(false)
  {
    MissingNone(x, cfg.includeLabels);
    PresentNone(x, cfg.excludeLabels);
    assert ApprovalSkip(cfg, q, x) == Got(None) <==> Approved(cfg, q, x);
  }
}
