/** Exactly when a pass keeps the limit of a repository. */
module RepositoryLimit {
  import opened Text
  import opened ClaimModel
  import opened Leases
  import opened Routing
  import opened Capacity

  // ----- a full repository

  /** A config id no target knows. */
  function StrangerId(ts: seq<Target>): string
  {
    if ts == [] then "x"
    else
      var parent := if ts[0].cfg.parentConfig.Some? then ts[0].cfg.parentConfig.value else "";
      ts[0].id + parent + StrangerId(ts[1..]) + "x"
  }

  lemma {:induction false} StrangerLonger(ts: seq<Target>, t: Target)
    requires t in ts
    ensures |t.id| < |StrangerId(ts)|
    ensures t.cfg.parentConfig.Some? ==> |t.cfg.parentConfig.value| < |StrangerId(ts)|
  {
    if t != ts[0] { StrangerLonger(ts[1..], t); }
  }

  lemma StrangerUnknown(ts: seq<Target>)
    requires DistinctIds(ts)
    ensures LaunchConfig(ts, CapacityLimits(ts), StrangerId(ts)).None?
    ensures forall t :: t in ts ==> !Tied(t, StrangerId(ts))
  {
    var id := StrangerId(ts);
    forall t | t in ts ensures !Tied(t, id) { StrangerLonger(ts, t); }
    if LaunchConfig(ts, CapacityLimits(ts), id).Some? {
      var t := LaunchConfigTied(ts, CapacityLimits(ts), id);
      assert false;
    }
  }

  /** `n` running leases in one repository, under a config id of their own. */
  function Filled(repo: string, n: nat, id: string): Table
  {
    if n == 0 then map[] else Filled(repo, n - 1, id)[IssueKey(repo, n - 1) := Lease(id, Running)]
  }

  lemma {:induction false} FilledLeases(repo: string, n: nat, id: string)
    ensures forall k :: k in Filled(repo, n, id) <==> k.repo == repo && k.number < n
    ensures forall k :: k in Filled(repo, n, id) ==> Filled(repo, n, id)[k] == Lease(id, Running)
  {
    if n > 0 { FilledLeases(repo, n - 1, id); }
  }

  lemma {:induction false} FilledCount(repo: string, n: nat, id: string, sc: Scope)
    ensures Count(Filled(repo, n, id), sc) == if InScope(sc, IssueKey(repo, 0), Lease(id, Running)) then n else 0
  {
    if n > 0 {
      FilledCount(repo, n - 1, id, sc);
      FilledLeases(repo, n - 1, id);
      WriteCount(Filled(repo, n - 1, id), IssueKey(repo, n - 1), Lease(id, Running), sc);
    } else {
      assert Occupied(map[], sc) == {};
    }
  }

  // ----- a pass in which nothing is resumed and one target finds one issue

  lemma {:induction false} ResumesNothing(w: World, ts: seq<Target>, ids: seq<string>, rows: seq<IssueKey>, env: Env)
    requires forall id :: id in ids ==> ResumeConfig(ts, CapacityLimits(ts), id).Some?
    requires forall k :: !env.validates(k)
    ensures ResumeAll(w, ts, ids, rows, env) == w
    decreases |ids|
  {
    if ids != [] {
      ResumesNothing(w, ts, ids[..|ids| - 1], rows, env);
      var id := ids[|ids| - 1];
      NoneOf(w, CapacityLimits(ts), id, ResumeConfig(ts, CapacityLimits(ts), id).value, ReadyKeys(w.leases, rows, id),
             env);
    }
  }

  lemma {:induction false} NoneOf(w: World, limits: Limits, id: string, cfg: DiscoveryConfig, ks: seq<IssueKey>,
                                  env: Env)
    requires forall k :: !env.validates(k)
    ensures ResumeMany(w, limits, id, cfg, ks, env) == w
    decreases |ks|
  {
    if ks != [] { NoneOf(w, limits, id, cfg, ks[..|ks| - 1], env); }
  }

  function FoundBy(ts: seq<Target>, x: nat, r: Routed): Env
    requires x < |ts|
  {
    Env(k => false, (i: nat, t: Table) => if i == x && CanFind(ts[x], t, [r]) then [r] else [], k => Wins)
  }

  lemma {:induction false} LaunchesOne(w: World, ts: seq<Target>, n: nat, x: nat, r: Routed, goal: World)
    requires n <= |ts| && x < |ts| && CanFind(ts[x], w.leases, [r])
    requires goal == LaunchOne(w, ts, ts[x], r, FoundBy(ts, x, r))
    ensures LaunchAll(w, ts, n, FoundBy(ts, x, r)) == if x < n then goal else w
  {
    if n > 0 {
      LaunchesOne(w, ts, n - 1, x, r, goal);
      var env := FoundBy(ts, x, r);
      var before := LaunchAll(w, ts, n - 1, env);
      var next := LaunchMany(before, ts, ts[n - 1], if n - 1 == x then [r] else [], env);
      LaunchesFound(before, ts, ts[n - 1], r, env);
      assert next == if n - 1 == x then goal else before;
      assert LaunchAll(w, ts, n, env) == next;
    }
  }

  lemma LaunchesFound(w: World, ts: seq<Target>, t: Target, r: Routed, env: Env)
    ensures LaunchMany(w, ts, t, [], env) == w
    ensures LaunchMany(w, ts, t, [r], env) == LaunchOne(w, ts, t, r, env)
  {
    assert [r][..0] == [] && [r][..1] == [r];
    LaunchManyNext(w, ts, t, [r], 0, env);
  }

  /** A target that launches away takes a repository past its limit, from a table
      in which every lease is at home, with one find. */
  lemma AwayPassesLimit(ts: seq<Target>, repo: string, ids: seq<string>, rows: seq<IssueKey>)
    returns (leases: Table, x: nat, r: Routed)
    requires DistinctIds(ts) && SomeLaunchesAway(ts, repo)
    requires forall id :: id in ids ==> ResumeConfig(ts, CapacityLimits(ts), id).Some?
    ensures LeasesAtHome(leases, ts) && x < |ts| && r.parent && ts[x].cfg.routeParents && ts[x].cfg.parentConfig.Some?
    ensures !StaysWithin(leases, ts, OfRepository(repo), ids, rows, FoundBy(ts, x, r))
  {
    var t, id :| LaunchesAway(t, id, ts, repo);
    var limits := CapacityLimits(ts);
    var n := RepositoryBound(ts, limits, repo);
    var stranger := StrangerId(ts);
    StrangerUnknown(ts);
    FilledLeases(repo, n, stranger);
    leases := Filled(repo, n, stranger);
    x :| 0 <= x < |ts| && ts[x] == t;
    DirectWins(ts, limits, x);
    r := Routed(n, true);
    FilledFinds(ts, repo, x, n);
    var env := FoundBy(ts, x, r);
    assert LaunchId(t, r) == id;
    var w := StartOf(leases);
    ResumesNothing(w, ts, ids, rows, env);
    LaunchesOne(w, ts, |ts|, x, r, LaunchOne(w, ts, t, r, env));
    var over := ClaimedAway(leases, ts, repo, t, id, n, env);
    assert over in Pass(w, ts, ids, rows, env).past;
  }

  lemma FilledFinds(ts: seq<Target>, repo: string, x: nat, n: nat)
    requires DistinctIds(ts) && x < |ts| && Repo(ts[x].cfg) != repo
    requires ts[x].cfg.open && ts[x].cfg.routeParents && ClaimMax(ts[x].cfg) > 0
    ensures CanFind(ts[x], Filled(repo, n, StrangerId(ts)), [Routed(n, true)])
  {
    StrangerUnknown(ts);
    FilledLeases(repo, n, StrangerId(ts));
    FilledCount(repo, n, StrangerId(ts), OfConfig(ts[x].id));
    assert ts[x] in ts;
  }

  lemma FoundByFinds(ts: seq<Target>, x: nat, r: Routed)
    requires x < |ts|
    ensures Finds(ts, FoundBy(ts, x, r))
  {}

  /** The claim itself. */
  lemma ClaimedAway(leases: Table, ts: seq<Target>, repo: string, t: Target, id: string, n: nat, env: Env)
      returns (over: Table)
    requires DistinctIds(ts) && LaunchesAway(t, id, ts, repo) && LaunchId(t, Routed(n, true)) == id
    requires n == RepositoryBound(ts, CapacityLimits(ts), repo) && leases == Filled(repo, n, StrangerId(ts))
    ensures over in LaunchOne(StartOf(leases), ts, t, Routed(n, true), env).past
    ensures Count(over, OfRepository(repo)) == n + 1 && Count(leases, OfRepository(repo)) == n
  {
    var stranger := StrangerId(ts);
    StrangerUnknown(ts);
    FilledLeases(repo, n, stranger);
    FilledCount(repo, n, stranger, Everything);
    FilledCount(repo, n, stranger, OfConfig(id));
    FilledCount(repo, n, stranger, OfRepository(repo));
    FilledCount(repo, n, stranger, OfRepository(Repo(t.cfg)));
    TiedSettings(t, ts, id);
    var k := IssueKey(repo, n);
    over := leases[k := Lease(id, Claimed)];
    WriteCount(leases, k, Lease(id, Claimed), OfRepository(repo));
    assert Write(StartOf(leases), k, id, Claimed).past == [leases, over];
  }

  /** A pass keeps the limit of a repository, whatever it starts from and whatever
      discovery can find, exactly when no target launches away into it. */
  lemma RepositoryLimitExact(ts: seq<Target>, repo: string, ids: seq<string>)
    requires DistinctIds(ts)
    requires forall id :: id in ids <==> ResumeConfig(ts, CapacityLimits(ts), id).Some?
    ensures (forall leases, rows, env :: LeasesAtHome(leases, ts) && Finds(ts, env) ==>
              StaysWithin(leases, ts, OfRepository(repo), ids, rows, env))
       <==> !SomeLaunchesAway(ts, repo)
  {
    if SomeLaunchesAway(ts, repo) {
      var leases, x, r := AwayPassesLimit(ts, repo, ids, []);
      FoundByFinds(ts, x, r);
    } else {
      forall leases, rows, env | LeasesAtHome(leases, ts) && Finds(ts, env)
        ensures StaysWithin(leases, ts, OfRepository(repo), ids, rows, env)
      {
        PassStaysWithinCapacity(leases, ts, OfRepository(repo), ids, rows, env);
      }
    }
  }
}
