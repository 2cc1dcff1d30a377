/** The repository limit over passes whose finds are discovery's own. */
module DiscoveredLimit {
  import opened Text
  import opened Leases
  import opened Routing
  import opened Capacity
  import opened RepositoryLimit
  import opened Milestones
  import Discovery

  /** Some issue can pass the filters: no label is both required and excluded, and
      approval asks for a label and an actor or for neither. */
  ghost predicate Open(cfg: Discovery.Config)
  {
    && (forall a, b :: a in cfg.includeLabels && b in cfg.excludeLabels ==> !EqIgnoreCase(a, b))
    && (cfg.approvalLabel.Some? <==> cfg.approvalActor.Some?)
  }

  /** The scheduler's and discovery's view of one target's settings. */
  ghost predicate SameSettings(cfg: Discovery.Config, t: Target)
  {
    && cfg.repo == Repo(t.cfg) && cfg.maxPerConfig == t.cfg.maxPerConfig && cfg.maxRuns == t.cfg.maxRuns
    && cfg.routeParents == t.cfg.routeParents && cfg.parentConfig == t.cfg.parentConfig
    && t.cfg.open == Open(cfg)
  }

  ghost predicate AllSettings(cfgs: seq<Discovery.Config>, ts: seq<Target>)
  {
    |cfgs| == |ts| && forall i :: 0 <= i < |ts| ==> SameSettings(cfgs[i], ts[i])
  }

  /** The eligible issues as the launch loop sees them. */
  function Found(rs: seq<Discovery.Routed>): (s: seq<Routed>)
    ensures |s| == |rs|
    ensures forall i :: 0 <= i < |rs| ==> s[i] == Routed(rs[i].issue.number, rs[i].config.Some?)
  {
    if rs == [] then [] else [Routed(rs[0].issue.number, rs[0].config.Some?)] + Found(rs[1..])
  }

  /** What a discovery pass over `leases` leaves for the launch loop, whatever the
      tracker answers and lists; nothing when it fails. */
  ghost predicate CanReturn(cfg: Discovery.Config, t: Target, leases: Table, rs: seq<Routed>)
  {
    rs == [] || exists q, unreadable, listed, result ::
      Passed(cfg, q, Discovery.Database(leases, unreadable), listed, Count(leases, OfConfig(t.id)), result)
      && rs == Found(result.eligible)
  }

  ghost predicate Passed(cfg: Discovery.Config, q: Discovery.Tracker, db: Discovery.Database, listed: seq<Issue>,
                         active: nat, result: Discovery.Result)
  {
    Discovery.Progress(Discovery.RulesOf(cfg, q, db), OrderIssues(Discovery.BySemver(cfg), listed), active, result)
  }

  ghost predicate Discovers(cfgs: seq<Discovery.Config>, ts: seq<Target>, env: Env)
    requires |cfgs| == |ts|
  {
    forall i: nat, leases :: i < |ts| ==> CanReturn(cfgs[i], ts[i], leases, env.found(i, leases))
  }

  // ----- discovery returns nothing else

  lemma FitIsOpen(cfg: Discovery.Config, q: Discovery.Tracker, db: Discovery.Database, x: Issue)
    requires Discovery.Judge(cfg, q, db, x) == Discovery.Got(None)
    ensures Open(cfg)
  {
    Discovery.PassedFilters(cfg, q, db, x);
    forall a, b | a in cfg.includeLabels && b in cfg.excludeLabels ensures !EqIgnoreCase(a, b) {
      assert Discovery.HasLabel(x, a) && !Discovery.HasLabel(x, b);
    }
  }

  lemma EligibleFits(cfg: Discovery.Config, q: Discovery.Tracker, db: Discovery.Database, listed: seq<Issue>,
                     active: nat, result: Discovery.Result, i: nat)
    requires Passed(cfg, q, db, listed, active, result) && i < |result.eligible|
    ensures var x := result.eligible[i];
      && Discovery.Judge(cfg, q, db, x.issue) == Discovery.Got(None)
      && Discovery.RouteIssue(cfg, q, x.issue) == Discovery.Got(x)
  {
    var rules := Discovery.RulesOf(cfg, q, db);
    var x := Discovery.IssuesOf(result.eligible)[i];
    assert x in Discovery.FitOnes(rules, OrderIssues(Discovery.BySemver(cfg), listed));
    assert Discovery.Got(result.eligible[i]) == rules.route(x);
  }

  lemma EligibleFindable(cfg: Discovery.Config, q: Discovery.Tracker, db: Discovery.Database, x: Discovery.Routed)
    requires Discovery.Judge(cfg, q, db, x.issue) == Discovery.Got(None)
    requires Discovery.RouteIssue(cfg, q, x.issue) == Discovery.Got(x)
    ensures (x.config.Some? ==> cfg.routeParents) && Open(cfg)
    ensures Claimable(db.leases, IssueKey(cfg.repo, x.issue.number))
  {
    Discovery.PassedFilters(cfg, q, db, x.issue);
    FitIsOpen(cfg, q, db, x.issue);
  }

  lemma RoomKept(cfg: Discovery.Config, q: Discovery.Tracker, db: Discovery.Database, listed: seq<Issue>,
                 active: nat, result: Discovery.Result)
    requires Passed(cfg, q, db, listed, active, result) && result.eligible != []
    ensures |result.eligible| + active <= Discovery.Limit(cfg)
  {
    var rules := Discovery.RulesOf(cfg, q, db);
    Discovery.EligibleWithinLimitInOrder(rules, Discovery.BySemver(cfg), listed, active, result);
  }

  lemma PassCanBeFound(cfg: Discovery.Config, t: Target, leases: Table, q: Discovery.Tracker, unreadable: set<nat>,
                       listed: seq<Issue>, result: Discovery.Result)
    requires SameSettings(cfg, t) && result.eligible != []
    requires Passed(cfg, q, Discovery.Database(leases, unreadable), listed, Count(leases, OfConfig(t.id)), result)
    ensures CanFind(t, leases, Found(result.eligible))
  {
    var db, active := Discovery.Database(leases, unreadable), Count(leases, OfConfig(t.id));
    var rs := Found(result.eligible);
    RoomKept(cfg, q, db, listed, active, result);
    SameLimit(cfg, t);
    forall r | r in rs
      ensures t.cfg.open && (r.parent ==> t.cfg.routeParents) && Claimable(leases, IssueKey(Repo(t.cfg), r.number))
    {
      var i :| 0 <= i < |rs| && rs[i] == r;
      EligibleFits(cfg, q, db, listed, active, result, i);
      EligibleFindable(cfg, q, db, result.eligible[i]);
    }
    assert rs[0] in rs;
  }

  lemma ReturnsCanBeFound(cfg: Discovery.Config, t: Target, leases: Table, rs: seq<Routed>)
    requires SameSettings(cfg, t) && CanReturn(cfg, t, leases, rs)
    ensures CanFind(t, leases, rs)
  {
    if rs != [] {
      var q, unreadable, listed, result :|
        Passed(cfg, q, Discovery.Database(leases, unreadable), listed, Count(leases, OfConfig(t.id)), result)
        && rs == Found(result.eligible);
      PassCanBeFound(cfg, t, leases, q, unreadable, listed, result);
    }
  }

  lemma SameLimit(cfg: Discovery.Config, t: Target)
    requires SameSettings(cfg, t)
    ensures Discovery.Limit(cfg) == ClaimMax(t.cfg)
  {}

  // ----- and it can return a parent issue

  /** An issue that passes the filters of an open target. */
  function Fitting(cfg: Discovery.Config, n: nat): Issue
  {
    Issue(n, if cfg.issueStates == [] then "" else cfg.issueStates[0], cfg.includeLabels, None)
  }

  function Willing(cfg: Discovery.Config): Discovery.Tracker
  {
    Discovery.Tracker((n, name) => Discovery.Got(cfg.approvalActor), n => Discovery.Got(None),
                      n => Discovery.Got(false), n => Discovery.Got(1))
  }

  lemma FittingPasses(cfg: Discovery.Config, leases: Table, n: nat)
    requires Open(cfg) && Claimable(leases, IssueKey(cfg.repo, n))
    ensures Discovery.Judge(cfg, Willing(cfg), Discovery.Database(leases, {}), Fitting(cfg, n)) == Discovery.Got(None)
  {
    var x := Fitting(cfg, n);
    Discovery.PassedFilters(cfg, Willing(cfg), Discovery.Database(leases, {}), x);
    forall a | a in cfg.includeLabels ensures Discovery.HasLabel(x, a) {
      assert a in x.labels && EqIgnoreCase(a, a);
    }
    if cfg.issueStates != [] {
      assert cfg.issueStates[0] in cfg.issueStates && EqIgnoreCase(cfg.issueStates[0], x.state);
    }
    if cfg.approvalActor.Some? {
      assert EqIgnoreCase(cfg.approvalActor.value, cfg.approvalActor.value);
    }
  }

  /** Discovery of one open target to which the tracker lists one parent issue. */
  lemma OneParentPasses(cfg: Discovery.Config, leases: Table, active: nat, n: nat)
    requires Open(cfg) && cfg.routeParents && active < Discovery.Limit(cfg)
    requires Claimable(leases, IssueKey(cfg.repo, n))
    ensures var x := Fitting(cfg, n);
      var routed := Discovery.Routed(x, cfg.parentWorkflowType, cfg.parentConfig);
      Passed(cfg, Willing(cfg), Discovery.Database(leases, {}), [x], active, Discovery.Result([routed], []))
  {
    var x, q, db := Fitting(cfg, n), Willing(cfg), Discovery.Database(leases, {});
    FittingPasses(cfg, leases, n);
    var routed := Discovery.Routed(x, cfg.parentWorkflowType, cfg.parentConfig);
    assert Discovery.RouteIssue(cfg, q, x) == Discovery.Got(routed);
    var none := Discovery.Result([], []);
    Discovery.TakeKeeps(Discovery.RulesOf(cfg, q, db), [], x, active, none, routed);
    assert OrderIssues(Discovery.BySemver(cfg), [x]) == [x];
    assert [] + [x] == [x] && none.eligible + [routed] == [routed];
  }

  lemma ParentCanBeReturned(cfg: Discovery.Config, t: Target, leases: Table, n: nat)
    requires SameSettings(cfg, t) && t.cfg.routeParents && t.cfg.parentConfig.Some?
    requires CanFind(t, leases, [Routed(n, true)])
    ensures CanReturn(cfg, t, leases, [Routed(n, true)])
  {
    assert Routed(n, true) in [Routed(n, true)];
    SameLimit(cfg, t);
    OneParentPasses(cfg, leases, Count(leases, OfConfig(t.id)), n);
    var routed := Discovery.Routed(Fitting(cfg, n), cfg.parentWorkflowType, cfg.parentConfig);
    assert Found([routed]) == [Routed(n, true)];
    assert Discovery.Result([routed], []).eligible == [routed];
  }

  lemma OneFindDiscovered(cfgs: seq<Discovery.Config>, ts: seq<Target>, x: nat, n: nat)
    requires AllSettings(cfgs, ts) && x < |ts| && ts[x].cfg.routeParents && ts[x].cfg.parentConfig.Some?
    ensures Discovers(cfgs, ts, FoundBy(ts, x, Routed(n, true)))
  {
    var r := Routed(n, true);
    var env := FoundBy(ts, x, r);
    forall i: nat, leases | i < |ts| ensures CanReturn(cfgs[i], ts[i], leases, env.found(i, leases)) {
      if i == x && CanFind(ts[x], leases, [r]) {
        ParentCanBeReturned(cfgs[x], ts[x], leases, n);
      }
    }
  }

  /** A pass keeps the limit of a repository, whatever it starts from with leases
      at home, whatever the tracker answers discovery, and however claims go,
      exactly when no target launches away into it. */
  lemma DiscoveredLimitExact(cfgs: seq<Discovery.Config>, ts: seq<Target>, repo: string, ids: seq<string>)
    requires AllSettings(cfgs, ts) && DistinctIds(ts)
    requires forall id :: id in ids <==> ResumeConfig(ts, CapacityLimits(ts), id).Some?
    ensures (forall leases, rows, env :: LeasesAtHome(leases, ts) && Discovers(cfgs, ts, env) ==>
              StaysWithin(leases, ts, OfRepository(repo), ids, rows, env))
       <==> !SomeLaunchesAway(ts, repo)
  {
    if SomeLaunchesAway(ts, repo) {
      var leases, x, r := AwayPassesLimit(ts, repo, ids, []);
      OneFindDiscovered(cfgs, ts, x, r.number);
    } else {
      forall leases, rows, env | LeasesAtHome(leases, ts) && Discovers(cfgs, ts, env)
        ensures StaysWithin(leases, ts, OfRepository(repo), ids, rows, env)
      {
        forall i: nat, t | i < |ts| ensures CanFind(ts[i], t, env.found(i, t)) {
          ReturnsCanBeFound(cfgs[i], ts[i], t, env.found(i, t));
        }
        PassStaysWithinCapacity(leases, ts, OfRepository(repo), ids, rows, env);
      }
    }
  }
}
