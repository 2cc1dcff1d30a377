/** What a scheduler pass makes of every lease, and which issues it hands on. */
module PassLaws {
  import opened Text
  import opened ClaimModel
  import opened Leases
  import opened Routing
  import opened Capacity

  // ----- one launch

  /** The settings a launch works with, and the issue it claims. */
  function SettingsOf(ts: seq<Target>, t: Target, r: Routed): DiscoveryConfig
  {
    LaunchDiscoveryFor(t, ts, CapacityLimits(ts), LaunchId(t, r)).value
  }

  /** There is room, and the issue is free: the claim is made. */
  predicate Claims(w: World, ts: seq<Target>, t: Target, r: Routed)
  {
    !Full(w.leases, SettingsOf(ts, t, r), LaunchId(t, r), Repo(t.cfg), CapacityLimits(ts))
    && Claimable(w.leases, LaunchKey(ts, t, r))
  }

  /** One more lease of the config is more than its own limit, which is 1 if unset. */
  predicate OverOwnLimit(w: World, ts: seq<Target>, t: Target, r: Routed)
  {
    var cfg := SettingsOf(ts, t, r);
    Count(w.leases, OfConfig(LaunchId(t, r))) >= if OwnLimit(cfg).Some? then OwnLimit(cfg).value else 1
  }

  lemma WrittenTwice(t: Table, k: IssueKey, a: Lease, b: Lease)
    ensures t[k := a][k := b] == t[k := b]
  {}

  /** What a launch comes to, and which lease it leaves: none but its own, which is
      Running if it succeeds, Abandoned if it was made and then given up, and stays
      Claimed exactly when the active leases could not be counted. */
  lemma LaunchOutcomes(w: World, ts: seq<Target>, t: Target, r: Routed, env: Env)
    ensures var k, id := LaunchKey(ts, t, r), LaunchId(t, r);
      var (after, outcome) := PrepareLaunch(w, ts, t, r, env);
      var fate, over := env.fate(k), OverOwnLimit(w, ts, t, r);
      && (outcome == Ready <==> Claims(w, ts, t, r) && !over && fate == Wins)
      && (outcome == NotLaunched <==> Claims(w, ts, t, r) && (fate == CountErrs || (!over && fate == RemoteFails)))
      && after.leases == (if !Claims(w, ts, t, r) then w.leases
                          else w.leases[k := Lease(id, if fate == CountErrs then Claimed
                                                       else if over || fate != Wins then Abandoned else Running)])
  {
    var k, id := LaunchKey(ts, t, r), LaunchId(t, r);
    WriteCount(w.leases, k, Lease(id, Claimed), OfConfig(id));
    WrittenTwice(w.leases, k, Lease(id, Claimed), Lease(id, Abandoned));
    WrittenTwice(w.leases, k, Lease(id, Claimed), Lease(id, Running));
  }

  /** A launch that does not succeed leaves every count as it was and the issue as
      free as it was, exactly unless the active leases could not be counted. */
  lemma NotLaunchedRestores(w: World, ts: seq<Target>, t: Target, r: Routed, env: Env)
    requires PrepareLaunch(w, ts, t, r, env).1 != Ready
    ensures var k, after := LaunchKey(ts, t, r), PrepareLaunch(w, ts, t, r, env).0.leases;
      var uncounted := Claims(w, ts, t, r) && env.fate(k) == CountErrs;
      && ((forall sc :: Count(after, sc) == Count(w.leases, sc)) <==> !uncounted)
      && ((Claimable(after, k) <==> Claimable(w.leases, k)) <==> !uncounted)
  {
    var k, id := LaunchKey(ts, t, r), LaunchId(t, r);
    LaunchOutcomes(w, ts, t, r, env);
    if Claims(w, ts, t, r) {
      GivenUpCounts(w.leases, k, id);
      ClaimedCounts(w.leases, k, id);
    }
  }

  lemma GivenUpCounts(t: Table, k: IssueKey, id: string)
    requires Claimable(t, k)
    ensures forall sc :: Count(t[k := Lease(id, Abandoned)], sc) == Count(t, sc)
  {
    forall sc ensures Count(t[k := Lease(id, Abandoned)], sc) == Count(t, sc) {
      WriteCount(t, k, Lease(id, Abandoned), sc);
    }
  }

  lemma ClaimedCounts(t: Table, k: IssueKey, id: string)
    requires Claimable(t, k)
    ensures Count(t[k := Lease(id, Claimed)], Everything) == Count(t, Everything) + 1
  {
    WriteCount(t, k, Lease(id, Claimed), Everything);
  }

  /** Each launch is counted once: as a unit handed on, as skipped, or as failed. */
  lemma LaunchTallies(w: World, ts: seq<Target>, t: Target, r: Routed, env: Env)
    ensures var end, outcome := LaunchOne(w, ts, t, r, env), PrepareLaunch(w, ts, t, r, env).1;
      && end.units == (if outcome == Ready then w.units + [DispatchUnit(LaunchKey(ts, t, r), false)] else w.units)
      && end.skipped == w.skipped + (if outcome == Skipped then 1 else 0)
      && end.failed == w.failed + (if outcome == NotLaunched then 1 else 0)
  {}

  // ----- the whole pass

  predicate Holds(t: Table, k: IssueKey, config: string, status: LeaseStatus)
  {
    k in t && t[k] == Lease(config, status)
  }

  predicate SameAt(t: Table, u: Table, k: IssueKey)
  {
    (k in t <==> k in u) && (k in t ==> t[k] == u[k])
  }

  predicate HandedOn(w: World, k: IssueKey, resume: bool) { DispatchUnit(k, resume) in w.units }

  /** What can have become of the lease of `k` since table `t`. */
  ghost predicate Change(t: Table, w: World, k: IssueKey, env: Env)
  {
    if HandedOn(w, k, true) then
      !HandedOn(w, k, false) && k in t && t[k].status == ReadyToResume && env.validates(k)
      && Holds(w.leases, k, t[k].config, Running)
    else if HandedOn(w, k, false) then
      Claimable(t, k) && env.fate(k) == Wins && k in w.leases && w.leases[k].status == Running
    else
      || SameAt(t, w.leases, k)
      || (Claimable(t, k) && k in w.leases && w.leases[k].status == Abandoned)
      || (Claimable(t, k) && k in w.leases && w.leases[k].status == Claimed && env.fate(k) == CountErrs)
  }

  ghost predicate Changes(t: Table, w: World, env: Env) { forall k :: Change(t, w, k, env) }

  lemma ResumeOneChanges(t: Table, w: World, limits: Limits, id: string, cfg: DiscoveryConfig, k: IssueKey, env: Env)
    requires Changes(t, w, env)
    ensures Changes(t, ResumeOne(w, limits, id, cfg, k, env), env)
  {
    var w' := ResumeOne(w, limits, id, cfg, k, env);
    assert Change(t, w, k, env);
    if w' != w {
      forall x ensures Change(t, w', x, env) {
        assert Change(t, w, x, env);
        assert forall b :: HandedOn(w', x, b) <==> HandedOn(w, x, b) || (x == k && b);
      }
    }
  }

  lemma {:induction false} ResumeManyChanges(t: Table, w: World, limits: Limits, id: string, cfg: DiscoveryConfig,
                                             ks: seq<IssueKey>, env: Env)
    requires Changes(t, w, env)
    ensures Changes(t, ResumeMany(w, limits, id, cfg, ks, env), env)
    decreases |ks|
  {
    if ks != [] {
      ResumeManyChanges(t, w, limits, id, cfg, ks[..|ks| - 1], env);
      ResumeOneChanges(t, ResumeMany(w, limits, id, cfg, ks[..|ks| - 1], env), limits, id, cfg, ks[|ks| - 1], env);
    }
  }

  lemma {:induction false} ResumeAllChanges(t: Table, w: World, ts: seq<Target>, ids: seq<string>, rows: seq<IssueKey>,
                                            env: Env)
    requires forall id :: id in ids ==> ResumeConfig(ts, CapacityLimits(ts), id).Some?
    requires Changes(t, w, env)
    ensures Changes(t, ResumeAll(w, ts, ids, rows, env), env)
    decreases |ids|
  {
    if ids != [] {
      ResumeAllChanges(t, w, ts, ids[..|ids| - 1], rows, env);
      var before, id := ResumeAll(w, ts, ids[..|ids| - 1], rows, env), ids[|ids| - 1];
      ResumeManyChanges(t, before, CapacityLimits(ts), id, ResumeConfig(ts, CapacityLimits(ts), id).value,
                        ReadyKeys(before.leases, rows, id), env);
    }
  }

  /** What one launch adds to the world before it. */
  lemma LaunchAdds(w: World, ts: seq<Target>, t: Target, r: Routed, env: Env)
    ensures var k, id, end := LaunchKey(ts, t, r), LaunchId(t, r), LaunchOne(w, ts, t, r, env);
      var fate, won := env.fate(k), PrepareLaunch(w, ts, t, r, env).1 == Ready;
      && end.units == (if won then w.units + [DispatchUnit(k, false)] else w.units)
      && (won ==> fate == Wins && Claimable(w.leases, k) && end.leases == w.leases[k := Lease(id, Running)])
      && (!won ==>
            || end.leases == w.leases
            || (Claimable(w.leases, k) && end.leases == w.leases[k := Lease(id, Abandoned)])
            || (Claimable(w.leases, k) && fate == CountErrs && end.leases == w.leases[k := Lease(id, Claimed)]))
  {
    LaunchOutcomes(w, ts, t, r, env);
    LaunchSparesRunning(w, ts, t, r, env);
  }

  lemma LaunchOneChanges(before: Table, w: World, ts: seq<Target>, t: Target, r: Routed, env: Env)
    requires Changes(before, w, env)
    ensures Changes(before, LaunchOne(w, ts, t, r, env), env)
  {
    var k, end := LaunchKey(ts, t, r), LaunchOne(w, ts, t, r, env);
    var won := PrepareLaunch(w, ts, t, r, env).1 == Ready;
    LaunchAdds(w, ts, t, r, env);
    assert Change(before, w, k, env);
    forall x ensures Change(before, end, x, env) {
      assert Change(before, w, x, env);
      assert forall b :: HandedOn(end, x, b) <==> HandedOn(w, x, b) || (won && x == k && !b);
    }
  }

  lemma LaunchManyChanges(before: Table, w: World, ts: seq<Target>, t: Target, rs: seq<Routed>, env: Env)
    requires Changes(before, w, env)
    ensures Changes(before, LaunchMany(w, ts, t, rs, env), env)
  {
    var step := (x: World, r: Routed) => LaunchOne(x, ts, t, r, env);
    var keeps: World -> bool := x => Changes(before, x, env);
    forall x, r | r in rs && keeps(x) ensures keeps(step(x, r)) {
      LaunchOneChanges(before, x, ts, t, r, env);
    }
    LaunchManyIs(w, ts, t, rs, env);
    FoldKeeps(w, rs, step, keeps);
  }

  lemma {:induction false} LaunchAllChanges(before: Table, w: World, ts: seq<Target>, n: nat, env: Env)
    requires Changes(before, w, env) && n <= |ts|
    ensures Changes(before, LaunchAll(w, ts, n, env), env)
  {
    if n > 0 {
      LaunchAllChanges(before, w, ts, n - 1, env);
      var so := LaunchAll(w, ts, n - 1, env);
      LaunchManyChanges(before, so, ts, ts[n - 1], env.found(n - 1, so.leases), env);
    }
  }

  /** A pass leaves every lease alone, resumes it, launches it, or gives it up again:
      resumed leases were ready and valid, launched and given-up ones free; a lease
      stays Claimed only if the active leases could not be counted. */
  lemma PassChanges(leases: Table, ts: seq<Target>, ids: seq<string>, rows: seq<IssueKey>, env: Env)
    requires forall id :: id in ids ==> ResumeConfig(ts, CapacityLimits(ts), id).Some?
    ensures Changes(leases, Pass(StartOf(leases), ts, ids, rows, env), env)
  {
    ResumeAllChanges(leases, StartOf(leases), ts, ids, rows, env);
    LaunchAllChanges(leases, ResumeAll(StartOf(leases), ts, ids, rows, env), ts, |ts|, env);
  }

  predicate RunsAt(t: Table, k: IssueKey) { k in t && t[k].status == Running }

  /** A pass hands on exactly the issues it moves to Running, and knows which of
      them it resumes. */
  lemma HandsOnExactly(leases: Table, ts: seq<Target>, ids: seq<string>, rows: seq<IssueKey>, env: Env, k: IssueKey)
    requires forall id :: id in ids ==> ResumeConfig(ts, CapacityLimits(ts), id).Some?
    ensures var end := Pass(StartOf(leases), ts, ids, rows, env);
      && (HandedOn(end, k, true) || HandedOn(end, k, false) <==> RunsAt(end.leases, k) && !RunsAt(leases, k))
      && (RunsAt(end.leases, k) && !RunsAt(leases, k) ==>
            (HandedOn(end, k, true) <==> k in leases && leases[k].status == ReadyToResume))
  {
    PassChanges(leases, ts, ids, rows, env);
    assert Change(leases, Pass(StartOf(leases), ts, ids, rows, env), k, env);
  }
}
