/** One scheduler pass: ready leases are resumed, then found issues are claimed,
    each only while the three active counts leave room. */
module Capacity {
  import opened Text
  import opened Numbers
  import opened ClaimModel
  import opened Leases
  import opened Routing

  // ----- the limits of a pass

  function Larger(a: Option<u32>, b: Option<u32>): Option<u32>
  {
    if a.None? then b else if b.None? then a else if a.value < b.value then b else a
  }

  function LargestSet(values: seq<Option<u32>>): (r: Option<u32>)
    ensures forall v :: v in values && v.Some? ==> r.Some? && v.value <= r.value
    ensures r.Some? ==> r in values
  {
    if values == [] then None else Larger(values[0], LargestSet(values[1..]))
  }

  function CapacityLimits(ts: seq<Target>): (l: Limits)
    ensures l.perConfig <= U32_MAX
  {
    Limits(ValueOr(LargestSet(seq(|ts|, i requires 0 <= i < |ts| => ts[i].cfg.maxActive)), U32_MAX),
           ValueOr(LargestSet(seq(|ts|, i requires 0 <= i < |ts| => OwnLimit(ts[i].cfg))), 1),
           ValueOr(LargestSet(seq(|ts|, i requires 0 <= i < |ts| => ts[i].cfg.maxPerRepository)), U32_MAX))
  }

  /** The limits of a pass are no smaller than any target's own, and each is some target's own or the default. */
  lemma LimitsCoverTargets(ts: seq<Target>, t: Target)
    requires t in ts
    ensures var l := CapacityLimits(ts);
      && ValueOr(t.cfg.maxActive, 0) <= l.global && ConfigLimit(t.cfg, l) <= l.perConfig
      && RepoLimit(t.cfg, l) <= l.perRepository
      && (l.global == U32_MAX || exists s :: s in ts && s.cfg.maxActive == Some(l.global))
      && (l.perConfig == 1 || exists s :: s in ts && OwnLimit(s.cfg) == Some(l.perConfig))
      && (l.perRepository == U32_MAX || exists s :: s in ts && s.cfg.maxPerRepository == Some(l.perRepository))
  {
    var i :| 0 <= i < |ts| && ts[i] == t;
    var active := seq(|ts|, i requires 0 <= i < |ts| => ts[i].cfg.maxActive);
    var own := seq(|ts|, i requires 0 <= i < |ts| => OwnLimit(ts[i].cfg));
    var per := seq(|ts|, i requires 0 <= i < |ts| => ts[i].cfg.maxPerRepository);
    assert active[i] in active && own[i] in own && per[i] in per;
    assert forall v :: v in active ==> exists s :: s in ts && s.cfg.maxActive == v;
    assert forall v :: v in own ==> exists s :: s in ts && OwnLimit(s.cfg) == v;
    assert forall v :: v in per ==> exists s :: s in ts && s.cfg.maxPerRepository == v;
  }

  predicate HasCapacity(t: Table, cfg: DiscoveryConfig, id: string, repo: string, limits: Limits)
  {
    && Count(t, Everything) < limits.global
    && Count(t, OfConfig(id)) < ConfigLimit(cfg, limits)
    && Count(t, OfRepository(repo)) < RepoLimit(cfg, limits)
  }

  // ----- the steps of a pass

  /** An issue handed on for dispatch. */
  datatype DispatchUnit = DispatchUnit(key: IssueKey, resume: bool)

  /** The lease table and, newest last, every table there has been; the units
      collected and the counters of the summary. */
  datatype World = World(leases: Table, past: seq<Table>, units: seq<DispatchUnit>, skipped: nat, failed: nat)

  function StartOf(leases: Table): World { World(leases, [leases], [], 0, 0) }

  function Write(w: World, k: IssueKey, config: string, status: LeaseStatus): World
  {
    var t := w.leases[k := Lease(config, status)];
    w.(leases := t, past := w.past + [t])
  }

  function Collect(w: World, k: IssueKey, resume: bool): World { w.(units := w.units + [DispatchUnit(k, resume)]) }

  /** What the world outside answers: whether a resume validates, what discovery
      finds for a target, and how the claim of an issue goes. */
  datatype Env = Env(validates: IssueKey -> bool, found: (nat, Table) -> seq<Routed>, fate: IssueKey -> ClaimFate)

  datatype Routed = Routed(number: nat, parent: bool)

  datatype ClaimFate = CountErrs | PathInvalid | RemoteFails | Wins

  datatype Outcome = Ready | Skipped | NotLaunched

  function ResumeOne(w: World, limits: Limits, id: string, cfg: DiscoveryConfig, k: IssueKey, env: Env): World
  {
    if k in w.leases && HasCapacity(w.leases, cfg, id, k.repo, limits)
       && env.validates(k) && w.leases[k].status == ReadyToResume
    then Collect(Write(w, k, w.leases[k].config, Running), k, true) else w
  }

  function ResumeMany(w: World, limits: Limits, id: string, cfg: DiscoveryConfig, ks: seq<IssueKey>, env: Env): World
  {
    if ks == [] then w
    else ResumeOne(ResumeMany(w, limits, id, cfg, ks[..|ks| - 1], env), limits, id, cfg, ks[|ks| - 1], env)
  }

  predicate IsReady(t: Table, id: string, k: IssueKey) { k in t && t[k] == Lease(id, ReadyToResume) }

  /** The ready leases of a config, in the order the table lists its rows. */
  function ReadyKeys(t: Table, rows: seq<IssueKey>, id: string): (ks: seq<IssueKey>)
    ensures forall k :: k in ks <==> k in rows && IsReady(t, id, k)
  {
    if rows == [] then [] else (if IsReady(t, id, rows[0]) then [rows[0]] else []) + ReadyKeys(t, rows[1..], id)
  }

  function ResumeAll(w: World, ts: seq<Target>, ids: seq<string>, rows: seq<IssueKey>, env: Env): World
    requires forall id :: id in ids ==> ResumeConfig(ts, CapacityLimits(ts), id).Some?
  {
    if ids == [] then w
    else
      var limits := CapacityLimits(ts);
      var before := ResumeAll(w, ts, ids[..|ids| - 1], rows, env);
      var id := ids[|ids| - 1];
      ResumeMany(before, limits, id, ResumeConfig(ts, limits, id).value, ReadyKeys(before.leases, rows, id), env)
  }

  /** The config an issue is launched under: the parent's when it has children and a parent config is set. */
  function LaunchId(t: Target, r: Routed): (id: string)
    ensures Tied(t, id)
  {
    if r.parent && t.cfg.parentConfig.Some? then t.cfg.parentConfig.value else t.id
  }

  /** The limit the count is held against once more after claiming. */
  function ClaimMax(cfg: DiscoveryConfig): nat { ValueOr(OwnLimit(cfg), 1) }

  function PrepareLaunch(w: World, ts: seq<Target>, t: Target, r: Routed, env: Env): (World, Outcome)
  {
    var limits := CapacityLimits(ts);
    var id := LaunchId(t, r);
    var cfg := LaunchDiscoveryFor(t, ts, limits, id).value;
    var k := IssueKey(Repo(cfg), r.number);
    if !HasCapacity(w.leases, cfg, id, Repo(t.cfg), limits) then (w, Skipped)
    else if !Claimable(w.leases, k) then (w, Skipped)
    else
      var claimed := Write(w, k, id, Claimed);
      if env.fate(k) == CountErrs then (claimed, NotLaunched)
      else if Count(claimed.leases, OfConfig(id)) > ClaimMax(cfg) then (Write(claimed, k, id, Abandoned), Skipped)
      else match env.fate(k)
           case PathInvalid => (Write(claimed, k, id, Abandoned), Skipped)
           case RemoteFails => (Write(claimed, k, id, Abandoned), NotLaunched)
           case _ => (Write(claimed, k, id, Running), Ready)
  }

  /** The issue a launch is claimed under. */
  function LaunchKey(ts: seq<Target>, t: Target, r: Routed): IssueKey
  {
    IssueKey(Repo(LaunchDiscoveryFor(t, ts, CapacityLimits(ts), LaunchId(t, r)).value), r.number)
  }

  /** What the outcome of a launch adds to units and counters. */
  function Tally(w: World, k: IssueKey, outcome: Outcome): World
  {
    match outcome
    case Ready => Collect(w, k, false)
    case Skipped => w.(skipped := w.skipped + 1)
    case NotLaunched => w.(failed := w.failed + 1)
  }

  function LaunchOne(w: World, ts: seq<Target>, t: Target, r: Routed, env: Env): World
  {
    var (after, outcome) := PrepareLaunch(w, ts, t, r, env);
    Tally(after, LaunchKey(ts, t, r), outcome)
  }

  /** One step after another. */
  function Fold<W, R>(w: W, rs: seq<R>, step: (W, R) -> W): W
  {
    if rs == [] then w else step(Fold(w, rs[..|rs| - 1], step), rs[|rs| - 1])
  }

  lemma FoldNext<W, R>(w: W, rs: seq<R>, step: (W, R) -> W, j: nat)
    requires j < |rs|
    ensures Fold(w, rs[..j + 1], step) == step(Fold(w, rs[..j], step), rs[j])
  {
    assert rs[..j + 1][..j] == rs[..j];
  }

  /** What every step keeps, all of them keep. */
  lemma {:induction false} FoldKeeps<W(!new), R(!new)>(w: W, rs: seq<R>, step: (W, R) -> W, keeps: W -> bool)
    requires keeps(w) && forall x, r :: r in rs && keeps(x) ==> keeps(step(x, r))
    ensures keeps(Fold(w, rs, step))
    decreases |rs|
  {
    if rs != [] { FoldKeeps(w, rs[..|rs| - 1], step, keeps); }
  }

  function LaunchMany(w: World, ts: seq<Target>, t: Target, rs: seq<Routed>, env: Env): World
  {
    Fold(w, rs, (x: World, r: Routed) => LaunchOne(x, ts, t, r, env))
  }

  lemma LaunchManyNext(w: World, ts: seq<Target>, t: Target, rs: seq<Routed>, j: nat, env: Env)
    requires j < |rs|
    ensures LaunchMany(w, ts, t, rs[..j + 1], env) == LaunchOne(LaunchMany(w, ts, t, rs[..j], env), ts, t, rs[j], env)
  {
    FoldNext(w, rs, (x: World, r: Routed) => LaunchOne(x, ts, t, r, env), j);
    LaunchManyIs(w, ts, t, rs[..j + 1], env);
    LaunchManyIs(w, ts, t, rs[..j], env);
  }

  lemma LaunchManyIs(w: World, ts: seq<Target>, t: Target, rs: seq<Routed>, env: Env)
    ensures LaunchMany(w, ts, t, rs, env) == Fold(w, rs, (x: World, r: Routed) => LaunchOne(x, ts, t, r, env))
  {}

  /** The launch loop over the first `n` targets. */
  function LaunchAll(w: World, ts: seq<Target>, n: nat, env: Env): World
    requires n <= |ts|
  {
    if n == 0 then w
    else var before := LaunchAll(w, ts, n - 1, env);
         LaunchMany(before, ts, ts[n - 1], env.found(n - 1, before.leases), env)
  }

  // ----- the scheduler

  class Scheduler {
    var leases: Table
    ghost var past: seq<Table>
    var units: seq<DispatchUnit>
    var skipped: nat
    var failed: nat
    var eligible: nat

    ghost function Now(): World reads this { World(leases, past, units, skipped, failed) }

    constructor (leases: Table)
      ensures Now() == StartOf(leases) && eligible == 0
    {
      this.leases := leases;
      past, units := [leases], [];
      skipped, failed, eligible := 0, 0, 0;
    }

    /** The issues launched or resumed, skipped and failed so far. */
    function Handled(): nat reads this { |units| + skipped + failed }

    method SetLease(k: IssueKey, config: string, status: LeaseStatus)
      modifies `leases, `past
      ensures Now() == Write(old(Now()), k, config, status)
    {
      leases := leases[k := Lease(config, status)];
      past := past + [leases];
    }

    /** Resume what is ready, config by config. */
    method CollectResumeUnits(ts: seq<Target>, ids: seq<string>, rows: seq<IssueKey>, env: Env)
      requires forall id :: id in ids <==> ResumeConfig(ts, CapacityLimits(ts), id).Some?
      modifies `leases, `past, `units
      ensures Now() == ResumeAll(old(Now()), ts, ids, rows, env)
    {
      var limits := CapacityLimits(ts);
      var configs := ResumeConfigTargets(ts, limits);
      for i := 0 to |ids|
        invariant Now() == ResumeAll(old(Now()), ts, ids[..i], rows, env)
      {
        assert ids[i] in ids && ids[..i + 1][..i] == ids[..i];
        ResumeLeases(limits, ids[i], configs[ids[i]], ReadyKeys(leases, rows, ids[i]), env);
      }
      assert ids[..|ids|] == ids;
    }

    method ResumeLeases(limits: Limits, id: string, cfg: DiscoveryConfig, ready: seq<IssueKey>, env: Env)
      modifies `leases, `past, `units
      ensures Now() == ResumeMany(old(Now()), limits, id, cfg, ready, env)
    {
      for j := 0 to |ready|
        invariant Now() == ResumeMany(old(Now()), limits, id, cfg, ready[..j], env)
      {
        assert ready[..j + 1][..j] == ready[..j];
        var k := ready[j];
        if k in leases && HasCapacity(leases, cfg, id, k.repo, limits) {
          if env.validates(k) && leases[k].status == ReadyToResume {
            SetLease(k, leases[k].config, Running);
            units := units + [DispatchUnit(k, true)];
          }
        }
      }
      assert ready[..|ready|] == ready;
    }

    /** Claim one found issue and take it to Running, or give it up again. */
    method PrepareLaunchUnit(ts: seq<Target>, t: Target, r: Routed, env: Env,
                             discoveries: map<string, DiscoveryConfig>) returns (outcome: Outcome)
      requires forall id :: id in discoveries <==> LaunchConfig(ts, CapacityLimits(ts), id).Some?
      requires forall id :: id in discoveries ==> discoveries[id] == LaunchConfig(ts, CapacityLimits(ts), id).value
      modifies `leases, `past
      ensures (Now(), outcome) == PrepareLaunch(old(Now()), ts, t, r, env)
    {
      var limits := CapacityLimits(ts);
      var id := LaunchId(t, r);
      var cfg := if id == t.id then t.cfg
                 else if id in discoveries then discoveries[id]
                 else ParentCapacity(t.cfg, limits).value;
      if !HasCapacity(leases, cfg, id, Repo(t.cfg), limits) {
        return Skipped;
      }
      var k := IssueKey(Repo(cfg), r.number);
      if !Claimable(leases, k) {
        return Skipped;
      }
      SetLease(k, id, Claimed);
      if env.fate(k) == CountErrs {
        return NotLaunched;
      }
      if Count(leases, OfConfig(id)) > ClaimMax(cfg) {
        SetLease(k, id, Abandoned);
        return Skipped;
      }
      if env.fate(k) == PathInvalid {
        SetLease(k, id, Abandoned);
        return Skipped;
      }
      if env.fate(k) == RemoteFails {
        SetLease(k, id, Abandoned);
        return NotLaunched;
      }
      SetLease(k, id, Running);
      return Ready;
    }

    /** Discover and launch, target by target; every issue found eligible is
        launched, skipped or failed. */
    method CollectLaunchUnits(ts: seq<Target>, env: Env)
      modifies this
      ensures Now() == LaunchAll(old(Now()), ts, |ts|, env)
      ensures eligible - old(eligible) == Handled() - old(Handled())
    {
      var discoveries := ParentLaunchDiscoveries(ts, CapacityLimits(ts));
      for i := 0 to |ts|
        invariant Now() == LaunchAll(old(Now()), ts, i, env)
        invariant eligible - old(eligible) == Handled() - old(Handled())
      {
        var found := env.found(i, leases);
        eligible := eligible + |found|;
        LaunchEligible(ts, ts[i], found, env, discoveries);
      }
    }

    method LaunchEligible(ts: seq<Target>, t: Target, found: seq<Routed>, env: Env,
                          discoveries: map<string, DiscoveryConfig>)
      requires forall id :: id in discoveries <==> LaunchConfig(ts, CapacityLimits(ts), id).Some?
      requires forall id :: id in discoveries ==> discoveries[id] == LaunchConfig(ts, CapacityLimits(ts), id).value
      modifies `leases, `past, `units, `skipped, `failed
      ensures Now() == LaunchMany(old(Now()), ts, t, found, env)
      ensures Handled() == old(Handled()) + |found|
    {
      ghost var before := Now();
      for j := 0 to |found|
        invariant Now() == LaunchMany(before, ts, t, found[..j], env)
        invariant Handled() == old(Handled()) + j
      {
        LaunchManyNext(before, ts, t, found, j, env);
        LaunchIssue(ts, t, found[j], env, discoveries);
      }
      assert found[..|found|] == found;
    }

    method LaunchIssue(ts: seq<Target>, t: Target, r: Routed, env: Env, discoveries: map<string, DiscoveryConfig>)
      requires forall id :: id in discoveries <==> LaunchConfig(ts, CapacityLimits(ts), id).Some?
      requires forall id :: id in discoveries ==> discoveries[id] == LaunchConfig(ts, CapacityLimits(ts), id).value
      modifies `leases, `past, `units, `skipped, `failed
      ensures Now() == LaunchOne(old(Now()), ts, t, r, env)
      ensures Handled() == old(Handled()) + 1
    {
      var outcome := PrepareLaunchUnit(ts, t, r, env, discoveries);
      match outcome {
        case Ready => units := units + [DispatchUnit(LaunchKey(ts, t, r), false)];
        case Skipped => skipped := skipped + 1;
        case NotLaunched => failed := failed + 1;
      }
    }

    method RunPass(ts: seq<Target>, ids: seq<string>, rows: seq<IssueKey>, env: Env)
      requires forall id :: id in ids <==> ResumeConfig(ts, CapacityLimits(ts), id).Some?
      modifies this
      ensures Now() == Pass(old(Now()), ts, ids, rows, env)
    {
      CollectResumeUnits(ts, ids, rows, env);
      CollectLaunchUnits(ts, env);
    }
  }

  function Pass(w: World, ts: seq<Target>, ids: seq<string>, rows: seq<IssueKey>, env: Env): World
    requires forall id :: id in ids ==> ResumeConfig(ts, CapacityLimits(ts), id).Some?
  {
    LaunchAll(ResumeAll(w, ts, ids, rows, env), ts, |ts|, env)
  }

  // ----- the bound

  /** The largest limit any target of the repository works with; 0 without one. */
  function RepositoryBound(ts: seq<Target>, limits: Limits, repo: string): (b: nat)
    ensures forall t :: t in ts && Repo(t.cfg) == repo ==> RepoLimit(t.cfg, limits) <= b
  {
    if ts == [] then 0
    else
      var rest := RepositoryBound(ts[1..], limits, repo);
      if Repo(ts[0].cfg) == repo && RepoLimit(ts[0].cfg, limits) > rest then RepoLimit(ts[0].cfg, limits) else rest
  }

  function Bound(ts: seq<Target>, sc: Scope): nat
  {
    var limits := CapacityLimits(ts);
    match sc
    case Everything => limits.global
    case OfConfig(id) =>
      var cfg := LaunchConfig(ts, limits, id);
      if cfg.Some? then ConfigLimit(cfg.value, limits) else 0
    case OfRepository(repo) => RepositoryBound(ts, limits, repo)
  }

  /** Every lease stands under the repository its config works on. */
  ghost predicate LeasesAtHome(t: Table, ts: seq<Target>)
  {
    forall k :: k in t ==>
      var cfg := LaunchConfig(ts, CapacityLimits(ts), t[k].config);
      cfg.Some? ==> Repo(cfg.value) == k.repo
  }

  /** What discovery can return for a target: issues free in the target's own
      repository, routed to a parent only if the target routes, no more than there
      is room for, and none that the filters let none through. */
  predicate CanFind(t: Target, leases: Table, rs: seq<Routed>)
  {
    rs == [] ||
    (&& t.cfg.open && |rs| + Count(leases, OfConfig(t.id)) <= ClaimMax(t.cfg)
     && forall r :: r in rs ==>
          (r.parent ==> t.cfg.routeParents) && Claimable(leases, IssueKey(Repo(t.cfg), r.number)))
  }

  ghost predicate Finds(ts: seq<Target>, env: Env)
  {
    forall i: nat, leases :: i < |ts| ==> CanFind(ts[i], leases, env.found(i, leases))
  }

  /** Target `t` finds issues and launches them under `id` with settings that put
      the lease into another repository than the one it counts in, where that can
      pass the bound: the limits let something through, and the global one does
      not stop it first. */
  ghost predicate LaunchesAway(t: Target, id: string, ts: seq<Target>, repo: string)
  {
    var limits := CapacityLimits(ts);
    var cfg := LaunchConfig(ts, limits, id);
    && t in ts && Routes(t, id) && t.cfg.open && ClaimMax(t.cfg) > 0
    && cfg.Some? && Repo(cfg.value) == repo && Repo(t.cfg) != repo
    && ConfigLimit(cfg.value, limits) > 0 && RepoLimit(cfg.value, limits) > 0
    && RepositoryBound(ts, limits, repo) < limits.global
  }

  ghost predicate SomeLaunchesAway(ts: seq<Target>, repo: string)
  {
    exists t, id :: LaunchesAway(t, id, ts, repo)
  }

  /** What a repository's bound rests on. */
  ghost predicate Sound(t: Table, ts: seq<Target>, sc: Scope)
  {
    sc.OfRepository? ==> LeasesAtHome(t, ts) && !SomeLaunchesAway(ts, sc.repo)
  }

  ghost predicate Kept(w: World, ts: seq<Target>, sc: Scope, top: nat)
  {
    && Sound(w.leases, ts, sc)
    && Count(w.leases, sc) <= top
    && forall t :: t in w.past ==> Count(t, sc) <= top
  }

  /** A lease that becomes active where there is room keeps the bound. */
  lemma AdmitKeeps(w: World, ts: seq<Target>, sc: Scope, top: nat, k: IssueKey, id: string, status: LeaseStatus)
    requires Kept(w, ts, sc, top) && Bound(ts, sc) <= top
    requires InScope(sc, k, Lease(id, status)) ==> Count(w.leases, sc) < Bound(ts, sc)
    requires LaunchConfig(ts, CapacityLimits(ts), id).Some?
    requires sc.OfRepository? ==> Repo(LaunchConfig(ts, CapacityLimits(ts), id).value) == k.repo
    ensures Kept(Write(w, k, id, status), ts, sc, top)
  {
    WriteCount(w.leases, k, Lease(id, status), sc);
  }

  /** A later write to a lease already counted keeps it too. */
  lemma MoveKeeps(w: World, ts: seq<Target>, sc: Scope, top: nat, k: IssueKey, status: LeaseStatus)
    requires Kept(w, ts, sc, top) && k in w.leases && Active(w.leases[k].status)
    ensures Kept(Write(w, k, w.leases[k].config, status), ts, sc, top)
  {
    WriteCount(w.leases, k, Lease(w.leases[k].config, status), sc);
  }

  /** The settings used for a known config obey its bounds. */
  lemma ConfigBounds(ts: seq<Target>, id: string)
    requires DistinctIds(ts) && LaunchConfig(ts, CapacityLimits(ts), id).Some?
    ensures var limits := CapacityLimits(ts);
      var cfg := LaunchConfig(ts, limits, id).value;
      ConfigLimit(cfg, limits) == Bound(ts, OfConfig(id))
        && RepoLimit(cfg, limits) <= Bound(ts, OfRepository(Repo(cfg)))
  {
    var t := LaunchConfigTied(ts, CapacityLimits(ts), id);
  }

  lemma ResumeOneKeeps(w: World, ts: seq<Target>, sc: Scope, top: nat, id: string, k: IssueKey, env: Env)
    requires Kept(w, ts, sc, top) && Bound(ts, sc) <= top && DistinctIds(ts)
    requires k in w.leases && w.leases[k].config == id && ResumeConfig(ts, CapacityLimits(ts), id).Some?
    ensures Kept(ResumeOne(w, CapacityLimits(ts), id, ResumeConfig(ts, CapacityLimits(ts), id).value, k, env),
                 ts, sc, top)
  {
    DistinctIdsAgree(ts, CapacityLimits(ts), id);
    ConfigBounds(ts, id);
    var w' := ResumeOne(w, CapacityLimits(ts), id, ResumeConfig(ts, CapacityLimits(ts), id).value, k, env);
    if w' != w {
      AdmitKeeps(w, ts, sc, top, k, id, Running);
    }
  }

  lemma {:induction false} ResumeManyKeeps(w: World, ts: seq<Target>, sc: Scope, top: nat, id: string,
                                           ks: seq<IssueKey>, env: Env)
    requires Kept(w, ts, sc, top) && Bound(ts, sc) <= top && DistinctIds(ts)
    requires ResumeConfig(ts, CapacityLimits(ts), id).Some?
    requires forall k :: k in ks ==> k in w.leases && w.leases[k].config == id
    ensures var w' := ResumeMany(w, CapacityLimits(ts), id, ResumeConfig(ts, CapacityLimits(ts), id).value, ks, env);
      Kept(w', ts, sc, top) && forall k :: k in w.leases ==> k in w'.leases && w'.leases[k].config == w.leases[k].config
    decreases |ks|
  {
    if ks != [] {
      var cfg := ResumeConfig(ts, CapacityLimits(ts), id).value;
      ResumeManyKeeps(w, ts, sc, top, id, ks[..|ks| - 1], env);
      var before := ResumeMany(w, CapacityLimits(ts), id, cfg, ks[..|ks| - 1], env);
      assert ks[|ks| - 1] in ks;
      ResumeOneKeeps(before, ts, sc, top, id, ks[|ks| - 1], env);
    }
  }

  lemma {:induction false} ResumeAllKeeps(w: World, ts: seq<Target>, sc: Scope, top: nat, ids: seq<string>,
                                          rows: seq<IssueKey>, env: Env)
    requires Kept(w, ts, sc, top) && Bound(ts, sc) <= top && DistinctIds(ts)
    requires forall id :: id in ids ==> ResumeConfig(ts, CapacityLimits(ts), id).Some?
    ensures Kept(ResumeAll(w, ts, ids, rows, env), ts, sc, top)
    decreases |ids|
  {
    if ids != [] {
      ResumeAllKeeps(w, ts, sc, top, ids[..|ids| - 1], rows, env);
      var before := ResumeAll(w, ts, ids[..|ids| - 1], rows, env);
      var id := ids[|ids| - 1];
      ResumeManyKeeps(before, ts, sc, top, id, ReadyKeys(before.leases, rows, id), env);
    }
  }

  /** A tied target launches with the settings recorded for the launch config. */
  lemma TiedSettings(t: Target, ts: seq<Target>, id: string)
    requires DistinctIds(ts) && t in ts && Tied(t, id)
    ensures LaunchConfig(ts, CapacityLimits(ts), id).Some?
    ensures LaunchDiscoveryFor(t, ts, CapacityLimits(ts), id) == LaunchConfig(ts, CapacityLimits(ts), id)
  {
    if t.id == id {
      var i :| 0 <= i < |ts| && ts[i] == t;
      DirectWins(ts, CapacityLimits(ts), i);
    } else {
      DerivedFrom(ts, CapacityLimits(ts), id);
    }
  }

  /** A repository's bound also rests on what discovery returns. */
  predicate Findable(sc: Scope, t: Target, r: Routed)
  {
    sc.OfRepository? ==> Routes(t, LaunchId(t, r)) && t.cfg.open && ClaimMax(t.cfg) > 0
  }

  lemma PrepareLaunchKeeps(w: World, ts: seq<Target>, sc: Scope, top: nat, t: Target, r: Routed, env: Env)
    requires Kept(w, ts, sc, top) && Bound(ts, sc) <= top && DistinctIds(ts) && t in ts && Findable(sc, t, r)
    ensures Kept(PrepareLaunch(w, ts, t, r, env).0, ts, sc, top)
  {
    var limits := CapacityLimits(ts);
    var id := LaunchId(t, r);
    TiedSettings(t, ts, id);
    var cfg := LaunchConfig(ts, limits, id).value;
    var k := IssueKey(Repo(cfg), r.number);
    if HasCapacity(w.leases, cfg, id, Repo(t.cfg), limits) && Claimable(w.leases, k) {
      ConfigBounds(ts, id);
      if sc.OfRepository? && sc.repo == Repo(cfg) && Repo(t.cfg) != sc.repo {
        assert !LaunchesAway(t, id, ts, sc.repo);
        PartOfAll(w.leases, sc);
      }
      AdmitKeeps(w, ts, sc, top, k, id, Claimed);
      var claimed := Write(w, k, id, Claimed);
      MoveKeeps(claimed, ts, sc, top, k, Abandoned);
      MoveKeeps(claimed, ts, sc, top, k, Running);
    }
  }

  lemma PartOfAll(t: Table, sc: Scope)
    ensures Count(t, sc) <= Count(t, Everything)
  {
    var some, all := Occupied(t, sc), Occupied(t, Everything);
    assert all == some + (all - some);
  }

  lemma LaunchOneKeeps(w: World, ts: seq<Target>, sc: Scope, top: nat, t: Target, r: Routed, env: Env)
    requires Kept(w, ts, sc, top) && Bound(ts, sc) <= top && DistinctIds(ts) && t in ts && Findable(sc, t, r)
    ensures Kept(LaunchOne(w, ts, t, r, env), ts, sc, top)
  {
    PrepareLaunchKeeps(w, ts, sc, top, t, r, env);
    var tried := PrepareLaunch(w, ts, t, r, env).0;
    var end := LaunchOne(w, ts, t, r, env);
    assert end.leases == tried.leases && end.past == tried.past;
  }

  lemma LaunchManyKeeps(w: World, ts: seq<Target>, sc: Scope, top: nat, t: Target, rs: seq<Routed>, env: Env)
    requires Kept(w, ts, sc, top) && Bound(ts, sc) <= top && DistinctIds(ts) && t in ts
    requires forall r :: r in rs ==> Findable(sc, t, r)
    ensures Kept(LaunchMany(w, ts, t, rs, env), ts, sc, top)
  {
    var step := (x: World, r: Routed) => LaunchOne(x, ts, t, r, env);
    var keeps: World -> bool := x => Kept(x, ts, sc, top);
    forall x, r | r in rs && keeps(x) ensures keeps(step(x, r)) {
      LaunchOneKeeps(x, ts, sc, top, t, r, env);
    }
    LaunchManyIs(w, ts, t, rs, env);
    FoldKeeps(w, rs, step, keeps);
  }

  lemma {:induction false} LaunchAllKeeps(w: World, ts: seq<Target>, sc: Scope, top: nat, n: nat, env: Env)
    requires Kept(w, ts, sc, top) && Bound(ts, sc) <= top && DistinctIds(ts) && n <= |ts|
    requires sc.OfRepository? ==> Finds(ts, env)
    ensures Kept(LaunchAll(w, ts, n, env), ts, sc, top)
  {
    if n > 0 {
      LaunchAllKeeps(w, ts, sc, top, n - 1, env);
      var before := LaunchAll(w, ts, n - 1, env);
      var found := env.found(n - 1, before.leases);
      assert sc.OfRepository? ==> CanFind(ts[n - 1], before.leases, found);
      LaunchManyKeeps(before, ts, sc, top, ts[n - 1], found, env);
    }
  }

  /** At no point of a pass is more active than the limit, or than was active at
      the start. */
  ghost predicate StaysWithin(leases: Table, ts: seq<Target>, sc: Scope, ids: seq<string>, rows: seq<IssueKey>,
                              env: Env)
    requires forall id :: id in ids ==> ResumeConfig(ts, CapacityLimits(ts), id).Some?
  {
    forall t :: t in Pass(StartOf(leases), ts, ids, rows, env).past ==>
      Count(t, sc) <= Max(Count(leases, sc), Bound(ts, sc))
  }

  /** That holds in all, under each config, and, for what discovery can find, in
      each repository no target launches away into. */
  lemma PassStaysWithinCapacity(leases: Table, ts: seq<Target>, sc: Scope, ids: seq<string>, rows: seq<IssueKey>,
                                env: Env)
    requires DistinctIds(ts)
    requires forall id :: id in ids ==> ResumeConfig(ts, CapacityLimits(ts), id).Some?
    requires Sound(leases, ts, sc) && (sc.OfRepository? ==> Finds(ts, env))
    ensures StaysWithin(leases, ts, sc, ids, rows, env)
  {
    var top := Max(Count(leases, sc), Bound(ts, sc));
    var start := StartOf(leases);
    ResumeAllKeeps(start, ts, sc, top, ids, rows, env);
    LaunchAllKeeps(ResumeAll(start, ts, ids, rows, env), ts, sc, top, |ts|, env);
  }

  // ----- what is dispatched

  /** The collected units are distinct issues whose leases run. */
  ghost predicate UnitsRun(w: World) { AllRunning(w.units, w.leases) }

  ghost predicate AllRunning(units: seq<DispatchUnit>, t: Table)
  {
    && (forall i, j :: 0 <= i < j < |units| ==> units[i].key != units[j].key)
    && (forall u :: u in units ==> u.key in t && t[u.key].status == Running)
  }

  lemma OneMore(units: seq<DispatchUnit>, t: Table, u: Table, k: IssueKey, resume: bool)
    requires AllRunning(units, t) && (k in t ==> t[k].status != Running) && k in u && u[k].status == Running
    requires forall x :: x in t && t[x].status == Running ==> x in u && u[x] == t[x]
    ensures AllRunning(units + [DispatchUnit(k, resume)], u)
  {}

  lemma CollectRuns(w: World, k: IssueKey, config: string, resume: bool)
    requires UnitsRun(w) && (k in w.leases ==> w.leases[k].status != Running)
    ensures UnitsRun(Collect(Write(w, k, config, Running), k, resume))
  {}

  lemma {:induction false} ResumeManyRuns(w: World, limits: Limits, id: string, cfg: DiscoveryConfig,
                                          ks: seq<IssueKey>, env: Env)
    requires UnitsRun(w)
    ensures UnitsRun(ResumeMany(w, limits, id, cfg, ks, env))
    decreases |ks|
  {
    if ks != [] {
      ResumeManyRuns(w, limits, id, cfg, ks[..|ks| - 1], env);
      var before, k := ResumeMany(w, limits, id, cfg, ks[..|ks| - 1], env), ks[|ks| - 1];
      if ResumeOne(before, limits, id, cfg, k, env) != before {
        CollectRuns(before, k, before.leases[k].config, true);
      }
    }
  }

  lemma {:induction false} ResumeAllRuns(w: World, ts: seq<Target>, ids: seq<string>, rows: seq<IssueKey>, env: Env)
    requires UnitsRun(w) && forall id :: id in ids ==> ResumeConfig(ts, CapacityLimits(ts), id).Some?
    ensures UnitsRun(ResumeAll(w, ts, ids, rows, env))
    decreases |ids|
  {
    if ids != [] {
      ResumeAllRuns(w, ts, ids[..|ids| - 1], rows, env);
      var before, id := ResumeAll(w, ts, ids[..|ids| - 1], rows, env), ids[|ids| - 1];
      ResumeManyRuns(before, CapacityLimits(ts), id, ResumeConfig(ts, CapacityLimits(ts), id).value,
                     ReadyKeys(before.leases, rows, id), env);
    }
  }

  /** A launch touches no running lease, and leaves its own running only when it is collected. */
  lemma LaunchOneRuns(w: World, ts: seq<Target>, t: Target, r: Routed, env: Env)
    requires UnitsRun(w)
    ensures UnitsRun(LaunchOne(w, ts, t, r, env))
  {
    var k := LaunchKey(ts, t, r);
    var (after, outcome) := PrepareLaunch(w, ts, t, r, env);
    LaunchSparesRunning(w, ts, t, r, env);
    if outcome == Ready { OneMore(w.units, w.leases, after.leases, k, false); }
  }

  lemma LaunchSparesRunning(w: World, ts: seq<Target>, t: Target, r: Routed, env: Env)
    ensures var k := LaunchKey(ts, t, r);
      var (after, outcome) := PrepareLaunch(w, ts, t, r, env);
      && after.units == w.units
      && (forall x :: x in w.leases && w.leases[x].status == Running ==>
            x in after.leases && after.leases[x] == w.leases[x])
      && (outcome == Ready ==> Claimable(w.leases, k) && k in after.leases && after.leases[k].status == Running)
  {}

  lemma LaunchManyRuns(w: World, ts: seq<Target>, t: Target, rs: seq<Routed>, env: Env)
    requires UnitsRun(w)
    ensures UnitsRun(LaunchMany(w, ts, t, rs, env))
  {
    var step := (x: World, r: Routed) => LaunchOne(x, ts, t, r, env);
    var keeps: World -> bool := x => UnitsRun(x);
    forall x, r | keeps(x) ensures keeps(step(x, r)) {
      LaunchOneRuns(x, ts, t, r, env);
    }
    LaunchManyIs(w, ts, t, rs, env);
    FoldKeeps(w, rs, step, keeps);
  }

  lemma {:induction false} LaunchAllRuns(w: World, ts: seq<Target>, n: nat, env: Env)
    requires UnitsRun(w) && n <= |ts|
    ensures UnitsRun(LaunchAll(w, ts, n, env))
  {
    if n > 0 {
      LaunchAllRuns(w, ts, n - 1, env);
      var before := LaunchAll(w, ts, n - 1, env);
      LaunchManyRuns(before, ts, ts[n - 1], env.found(n - 1, before.leases), env);
    }
  }

  /** A pass hands no issue on twice, and every issue it hands on holds a running lease. */
  lemma DispatchedOnce(leases: Table, ts: seq<Target>, ids: seq<string>, rows: seq<IssueKey>, env: Env)
    requires forall id :: id in ids ==> ResumeConfig(ts, CapacityLimits(ts), id).Some?
    ensures UnitsRun(Pass(StartOf(leases), ts, ids, rows, env))
  {
    ResumeAllRuns(StartOf(leases), ts, ids, rows, env);
    LaunchAllRuns(ResumeAll(StartOf(leases), ts, ids, rows, env), ts, |ts|, env);
  }

  // ----- resuming is greedy

  /** Counts only grow, and a lease ready afterwards was ready before. */
  ghost predicate Grown(t: Table, u: Table)
  {
    && (forall sc :: Count(t, sc) <= Count(u, sc))
    && (forall id, k :: IsReady(u, id, k) ==> IsReady(t, id, k))
  }

  /** One of the three counts has reached its limit. */
  predicate Full(t: Table, cfg: DiscoveryConfig, id: string, repo: string, limits: Limits)
  {
    || Count(t, Everything) >= limits.global
    || Count(t, OfConfig(id)) >= ConfigLimit(cfg, limits)
    || Count(t, OfRepository(repo)) >= RepoLimit(cfg, limits)
  }

  /** No valid ready lease of the config is left where there is room. */
  ghost predicate NoneLeft(t: Table, limits: Limits, id: string, cfg: DiscoveryConfig, ks: seq<IssueKey>, env: Env)
  {
    forall k :: k in ks && IsReady(t, id, k) && env.validates(k) ==> Full(t, cfg, id, k.repo, limits)
  }

  lemma ResumeOneGrows(w: World, limits: Limits, id: string, cfg: DiscoveryConfig, k: IssueKey, env: Env)
    ensures Grown(w.leases, ResumeOne(w, limits, id, cfg, k, env).leases)
  {
    var w' := ResumeOne(w, limits, id, cfg, k, env);
    if w' != w {
      forall sc ensures Count(w.leases, sc) <= Count(w'.leases, sc) {
        WriteCount(w.leases, k, Lease(w.leases[k].config, Running), sc);
      }
    }
  }

  lemma {:induction false} ResumeManyGreedy(w: World, limits: Limits, id: string, cfg: DiscoveryConfig,
                                            ks: seq<IssueKey>, env: Env)
    ensures Grown(w.leases, ResumeMany(w, limits, id, cfg, ks, env).leases)
    ensures NoneLeft(ResumeMany(w, limits, id, cfg, ks, env).leases, limits, id, cfg, ks, env)
    decreases |ks|
  {
    if ks != [] {
      var last := ks[|ks| - 1];
      ResumeManyGreedy(w, limits, id, cfg, ks[..|ks| - 1], env);
      var before := ResumeMany(w, limits, id, cfg, ks[..|ks| - 1], env);
      ResumeOneGrows(before, limits, id, cfg, last, env);
      assert forall k :: k in ks <==> k in ks[..|ks| - 1] || k == last;
    }
  }

  /** After the resume loop no valid ready lease of any config is left where
      there is still room for it. */
  lemma {:induction false} ResumeIsGreedy(w: World, ts: seq<Target>, ids: seq<string>, rows: seq<IssueKey>, env: Env)
    requires forall id :: id in ids ==> ResumeConfig(ts, CapacityLimits(ts), id).Some?
    ensures Grown(w.leases, ResumeAll(w, ts, ids, rows, env).leases)
    ensures forall id :: id in ids ==>
      NoneLeft(ResumeAll(w, ts, ids, rows, env).leases, CapacityLimits(ts), id,
               ResumeConfig(ts, CapacityLimits(ts), id).value, rows, env)
    decreases |ids|
  {
    if ids != [] {
      var id := ids[|ids| - 1];
      ResumeIsGreedy(w, ts, ids[..|ids| - 1], rows, env);
      var before := ResumeAll(w, ts, ids[..|ids| - 1], rows, env);
      ResumeManyGreedy(before, CapacityLimits(ts), id, ResumeConfig(ts, CapacityLimits(ts), id).value,
                       ReadyKeys(before.leases, rows, id), env);
      assert forall i :: i in ids <==> i in ids[..|ids| - 1] || i == id;
    }
  }

  // ----- launching

  /** An issue is launched exactly when all three counts leave room, its lease is
      free, its claim goes through, and one more stays within the config's own
      limit; that last limit is 1 for a config that sets none, whatever the others set. */
  lemma LaunchedExactly(w: World, ts: seq<Target>, t: Target, r: Routed, env: Env)
    requires DistinctIds(ts) && t in ts
    ensures var limits := CapacityLimits(ts);
      var id := LaunchId(t, r);
      var cfg := LaunchDiscoveryFor(t, ts, limits, id).value;
      var k := IssueKey(Repo(cfg), r.number);
      var (after, outcome) := PrepareLaunch(w, ts, t, r, env);
      (outcome == Ready <==>
        && !Full(w.leases, cfg, id, Repo(t.cfg), limits) && Claimable(w.leases, k) && env.fate(k) == Wins
        && Count(w.leases, OfConfig(id)) < (if OwnLimit(cfg).Some? then OwnLimit(cfg).value else 1))
      && (outcome == Ready ==> after.leases == w.leases[k := Lease(id, Running)]
                               && Count(after.leases, OfConfig(id)) == Count(w.leases, OfConfig(id)) + 1)
  {
    var limits := CapacityLimits(ts);
    var id := LaunchId(t, r);
    var cfg := LaunchDiscoveryFor(t, ts, limits, id).value;
    var k := IssueKey(Repo(cfg), r.number);
    WriteCount(w.leases, k, Lease(id, Claimed), OfConfig(id));
    WriteCount(w.leases, k, Lease(id, Running), OfConfig(id));
    assert w.leases[k := Lease(id, Claimed)][k := Lease(id, Running)] == w.leases[k := Lease(id, Running)];
  }
}
