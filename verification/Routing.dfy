/** Which discovery settings a launch or a resume under a config id works with. */
module Routing {
  import opened Text
  import opened Numbers

  /** `open`: the filters let some issue through, which their labels and approval
      settings decide. */
  datatype DiscoveryConfig = DiscoveryConfig(
    repo: Option<string>,
    maxActive: Option<u32>,
    maxPerRepository: Option<u32>,
    maxPerConfig: Option<u32>,
    maxRuns: Option<u32>,
    parentConfig: Option<string>,
    routeParents: bool,
    open: bool)

  datatype Target = Target(id: string, cfg: DiscoveryConfig)

  datatype Limits = Limits(global: nat, perConfig: nat, perRepository: nat)

  function OrElse<T>(a: Option<T>, b: Option<T>): Option<T> { if a.Some? then a else b }

  function ValueOr(a: Option<u32>, default: nat): nat { if a.Some? then a.value else default }

  function Repo(cfg: DiscoveryConfig): string { if cfg.repo.Some? then cfg.repo.value else "" }

  /** The per-config limit of a discovery setting, if it sets one. */
  function OwnLimit(cfg: DiscoveryConfig): Option<u32> { OrElse(cfg.maxPerConfig, cfg.maxRuns) }

  function ConfigLimit(cfg: DiscoveryConfig, limits: Limits): nat { ValueOr(OwnLimit(cfg), limits.perConfig) }

  function RepoLimit(cfg: DiscoveryConfig, limits: Limits): nat { ValueOr(cfg.maxPerRepository, limits.perRepository) }

  /** The settings a parent config derives from a child target; refused when the limit does not fit 32 bits. */
  function ParentCapacity(cfg: DiscoveryConfig, limits: Limits): Option<DiscoveryConfig>
  {
    var limit := ConfigLimit(cfg, limits);
    if limit > U32_MAX then None else Some(cfg.(maxRuns := Some(limit), maxPerConfig := Some(limit)))
  }

  /** Derived settings are the child's, but for a limit of their own: the one the
      child works with. There are none exactly when that does not fit 32 bits. */
  lemma DerivedSettings(cfg: DiscoveryConfig, limits: Limits, others: Limits)
    ensures ParentCapacity(cfg, limits).None? <==> ConfigLimit(cfg, limits) > U32_MAX
    ensures ParentCapacity(cfg, limits).Some? ==>
      var p := ParentCapacity(cfg, limits).value;
      && ConfigLimit(p, others) == ConfigLimit(cfg, limits) && p.maxRuns == p.maxPerConfig == OwnLimit(p)
      && p == cfg.(maxRuns := p.maxRuns, maxPerConfig := p.maxPerConfig)
  {}

  // ----- what the two maps hold

  function FirstDirect(ts: seq<Target>, id: string): Option<DiscoveryConfig>
  {
    if ts == [] then None else if ts[0].id == id then Some(ts[0].cfg) else FirstDirect(ts[1..], id)
  }

  function LastDirect(ts: seq<Target>, id: string): Option<DiscoveryConfig>
  {
    if ts == [] then None
    else if ts[|ts| - 1].id == id then Some(ts[|ts| - 1].cfg)
    else LastDirect(ts[..|ts| - 1], id)
  }

  function Derived(t: Target, limits: Limits, id: string): Option<DiscoveryConfig>
  {
    if t.cfg.parentConfig == Some(id) then ParentCapacity(t.cfg, limits) else None
  }

  function FirstDerived(ts: seq<Target>, limits: Limits, id: string): Option<DiscoveryConfig>
  {
    if ts == [] then None else OrElse(Derived(ts[0], limits, id), FirstDerived(ts[1..], limits, id))
  }

  function ResumeConfig(ts: seq<Target>, limits: Limits, id: string): Option<DiscoveryConfig>
  {
    OrElse(FirstDirect(ts, id), FirstDerived(ts, limits, id))
  }

  function LaunchConfig(ts: seq<Target>, limits: Limits, id: string): Option<DiscoveryConfig>
  {
    OrElse(LastDirect(ts, id), FirstDerived(ts, limits, id))
  }

  lemma {:induction false} FirstAppend(ts: seq<Target>, t: Target, limits: Limits, id: string)
    ensures FirstDirect(ts + [t], id) == OrElse(FirstDirect(ts, id), if t.id == id then Some(t.cfg) else None)
    ensures FirstDerived(ts + [t], limits, id) == OrElse(FirstDerived(ts, limits, id), Derived(t, limits, id))
  {
    if ts == [] {
      assert ([] + [t])[1..] == [];
    } else {
      assert (ts + [t])[1..] == ts[1..] + [t];
      FirstAppend(ts[1..], t, limits, id);
    }
  }

  lemma LastAppend(ts: seq<Target>, t: Target, id: string)
    ensures LastDirect(ts + [t], id) == if t.id == id then Some(t.cfg) else LastDirect(ts, id)
  {
    assert (ts + [t])[..|ts|] == ts;
  }

  // ----- the two builders

  type Entries = map<string, (DiscoveryConfig, bool)>

  /** A direct setting replaces a derived one; otherwise the first one stays. */
  function Upsert(m: Entries, id: string, cfg: DiscoveryConfig, direct: bool): Entries
  {
    if id !in m then m[id := (cfg, direct)]
    else if direct && !m[id].1 then m[id := (cfg, true)]
    else m
  }

  ghost predicate Holds(m: Entries, ts: seq<Target>, limits: Limits)
  {
    forall id ::
      (id in m <==> ResumeConfig(ts, limits, id).Some?)
      && (id in m ==> m[id].0 == ResumeConfig(ts, limits, id).value && (m[id].1 <==> FirstDirect(ts, id).Some?))
  }

  lemma UpsertHolds(m: Entries, ts: seq<Target>, t: Target, limits: Limits)
    requires Holds(m, ts, limits)
    ensures var direct := Upsert(m, t.id, t.cfg, true);
      var parent := ParentCapacity(t.cfg, limits);
      Holds(if t.cfg.parentConfig.Some? && parent.Some?
            then Upsert(direct, t.cfg.parentConfig.value, parent.value, false) else direct, ts + [t], limits)
  {
    forall id {
      FirstAppend(ts, t, limits, id);
    }
  }

  method ResumeConfigTargets(ts: seq<Target>, limits: Limits) returns (m: map<string, DiscoveryConfig>)
    ensures forall id :: id in m <==> ResumeConfig(ts, limits, id).Some?
    ensures forall id :: id in m ==> m[id] == ResumeConfig(ts, limits, id).value
  {
    var entries: Entries := map[];
    for i := 0 to |ts|
      invariant Holds(entries, ts[..i], limits)
    {
      UpsertHolds(entries, ts[..i], ts[i], limits);
      assert ts[..i + 1] == ts[..i] + [ts[i]];
      entries := Upsert(entries, ts[i].id, ts[i].cfg, true);
      if ts[i].cfg.parentConfig.Some? {
        var parent := ParentCapacity(ts[i].cfg, limits);
        if parent.Some? {
          entries := Upsert(entries, ts[i].cfg.parentConfig.value, parent.value, false);
        }
      }
    }
    assert ts[..|ts|] == ts;
    return map id | id in entries :: entries[id].0;
  }

  method ParentLaunchDiscoveries(ts: seq<Target>, limits: Limits) returns (m: map<string, DiscoveryConfig>)
    ensures forall id :: id in m <==> LaunchConfig(ts, limits, id).Some?
    ensures forall id :: id in m ==> m[id] == LaunchConfig(ts, limits, id).value
  {
    var discoveries, derived: map<string, DiscoveryConfig> := map[], map[];
    for i := 0 to |ts|
      invariant forall id :: (id in discoveries <==> LastDirect(ts[..i], id).Some?)
                          && (id in discoveries ==> discoveries[id] == LastDirect(ts[..i], id).value)
      invariant forall id :: (id in derived <==> FirstDerived(ts[..i], limits, id).Some?)
                          && (id in derived ==> derived[id] == FirstDerived(ts[..i], limits, id).value)
    {
      assert ts[..i + 1] == ts[..i] + [ts[i]];
      forall id
        ensures FirstDerived(ts[..i + 1], limits, id)
             == OrElse(FirstDerived(ts[..i], limits, id), Derived(ts[i], limits, id))
        ensures LastDirect(ts[..i + 1], id) == if ts[i].id == id then Some(ts[i].cfg) else LastDirect(ts[..i], id)
      {
        FirstAppend(ts[..i], ts[i], limits, id);
        LastAppend(ts[..i], ts[i], id);
      }
      discoveries := discoveries[ts[i].id := ts[i].cfg];
      if ts[i].cfg.parentConfig.Some? {
        var parent := ParentCapacity(ts[i].cfg, limits);
        if parent.Some? && ts[i].cfg.parentConfig.value !in derived {
          derived := derived[ts[i].cfg.parentConfig.value := parent.value];
        }
      }
    }
    assert ts[..|ts|] == ts;
    return derived + discoveries;
  }

  // ----- agreement

  ghost predicate DistinctIds(ts: seq<Target>) { forall i, j :: 0 <= i < j < |ts| ==> ts[i].id != ts[j].id }

  lemma {:induction false} FirstDirectAt(ts: seq<Target>, i: nat)
    requires i < |ts| && DistinctIds(ts)
    ensures FirstDirect(ts, ts[i].id) == Some(ts[i].cfg)
  {
    if i > 0 {
      assert ts[0].id != ts[i].id;
      FirstDirectAt(ts[1..], i - 1);
    }
  }

  lemma {:induction false} LastDirectAt(ts: seq<Target>, i: nat)
    requires i < |ts| && DistinctIds(ts)
    ensures LastDirect(ts, ts[i].id) == Some(ts[i].cfg)
  {
    if i < |ts| - 1 {
      assert ts[|ts| - 1].id != ts[i].id;
      LastDirectAt(ts[..|ts| - 1], i);
    }
  }

  lemma {:induction false} NoDirect(ts: seq<Target>, id: string)
    requires forall t :: t in ts ==> t.id != id
    ensures FirstDirect(ts, id).None? && LastDirect(ts, id).None?
  {
    if ts != [] {
      NoDirect(ts[1..], id);
      NoDirect(ts[..|ts| - 1], id);
    }
  }

  lemma {:induction false} DirectBoth(ts: seq<Target>, id: string)
    ensures FirstDirect(ts, id).Some? <==> exists t :: t in ts && t.id == id
    ensures LastDirect(ts, id).Some? <==> exists t :: t in ts && t.id == id
    decreases |ts|
  {
    if ts != [] {
      DirectBoth(ts[1..], id);
      DirectBoth(ts[..|ts| - 1], id);
      assert forall t :: t in ts <==> t == ts[0] || t in ts[1..];
      assert forall t :: t in ts <==> t == ts[|ts| - 1] || t in ts[..|ts| - 1];
    }
  }

  predicate SameSettings(ts: seq<Target>, limits: Limits, id: string)
  {
    ResumeConfig(ts, limits, id) == LaunchConfig(ts, limits, id)
  }

  predicate FirstIsLast(ts: seq<Target>, id: string) { FirstDirect(ts, id) == LastDirect(ts, id) }

  lemma AgreeOn(ts: seq<Target>, limits: Limits, id: string)
    ensures SameSettings(ts, limits, id) <==> FirstIsLast(ts, id)
  {
    DirectBoth(ts, id);
  }

  /** Resumes and launches use the same settings for every config id exactly
      when the first and the last target of each id carry the same settings. */
  lemma MapsAgree(ts: seq<Target>, limits: Limits)
    ensures (forall id :: SameSettings(ts, limits, id)) <==> (forall id :: FirstIsLast(ts, id))
  {
    forall id ensures SameSettings(ts, limits, id) <==> FirstIsLast(ts, id) {
      AgreeOn(ts, limits, id);
    }
  }

  /** With distinct ids the maps agree, and a target's own settings win over
      derived ones wherever the target stands in the list. */
  lemma DirectWins(ts: seq<Target>, limits: Limits, i: nat)
    requires DistinctIds(ts) && i < |ts|
    ensures ResumeConfig(ts, limits, ts[i].id) == LaunchConfig(ts, limits, ts[i].id) == Some(ts[i].cfg)
  {
    FirstDirectAt(ts, i);
    LastDirectAt(ts, i);
  }

  lemma DistinctIdsAgree(ts: seq<Target>, limits: Limits, id: string)
    requires DistinctIds(ts)
    ensures ResumeConfig(ts, limits, id) == LaunchConfig(ts, limits, id)
  {
    if exists i :: 0 <= i < |ts| && ts[i].id == id {
      var i :| 0 <= i < |ts| && ts[i].id == id;
      DirectWins(ts, limits, i);
    } else {
      NoDirect(ts, id);
    }
  }

  // ----- which repository a claim is recorded against

  /** The settings a launch found by target `t` under config id `id` works with. */
  function LaunchDiscoveryFor(t: Target, ts: seq<Target>, limits: Limits, id: string): Option<DiscoveryConfig>
  {
    if id == t.id then Some(t.cfg)
    else OrElse(LaunchConfig(ts, limits, id), ParentCapacity(t.cfg, limits))
  }

  /** The target is the config itself or names it as its parent. */
  predicate Tied(t: Target, id: string) { t.id == id || t.cfg.parentConfig == Some(id) }

  /** Issues the target finds can be launched under `id`: its own, or its parent's
      if it routes parent issues at all. */
  predicate Routes(t: Target, id: string) { t.id == id || (t.cfg.routeParents && t.cfg.parentConfig == Some(id)) }

  ghost predicate ShareRepo(ts: seq<Target>, id: string)
  {
    forall s, t :: s in ts && t in ts && Tied(s, id) && Tied(t, id) ==> Repo(s.cfg) == Repo(t.cfg)
  }

  /** A claim by `t` for `id` is recorded against the repository `t` found the issue in. */
  ghost predicate ClaimsAtHome(t: Target, ts: seq<Target>, limits: Limits, id: string)
  {
    var d := LaunchDiscoveryFor(t, ts, limits, id);
    d.Some? && Repo(d.value) == Repo(t.cfg)
  }

  /** A derived setting comes from a tied target and keeps its repository. */
  lemma {:induction false} DerivedFrom(ts: seq<Target>, limits: Limits, id: string)
    requires limits.perConfig <= U32_MAX
    ensures match FirstDerived(ts, limits, id)
            case None => forall t :: t in ts ==> t.cfg.parentConfig != Some(id)
            case Some(d) => exists t ::
              t in ts && t.cfg.parentConfig == Some(id) && d == ParentCapacity(t.cfg, limits).value
                                        && Repo(d) == Repo(t.cfg) && d.maxPerRepository == t.cfg.maxPerRepository
  {
    if ts != [] {
      DerivedFrom(ts[1..], limits, id);
    }
  }

  /** The settings used for `id` belong to a tied target, its own one if it is in the list. */
  lemma LaunchConfigTied(ts: seq<Target>, limits: Limits, id: string) returns (t: Target)
    requires DistinctIds(ts) && limits.perConfig <= U32_MAX && LaunchConfig(ts, limits, id).Some?
    ensures t in ts && Tied(t, id) && Repo(LaunchConfig(ts, limits, id).value) == Repo(t.cfg)
    ensures LaunchConfig(ts, limits, id).value.maxPerRepository == t.cfg.maxPerRepository
  {
    if exists i :: 0 <= i < |ts| && ts[i].id == id {
      var i :| 0 <= i < |ts| && ts[i].id == id;
      DirectWins(ts, limits, i);
      t := ts[i];
    } else {
      NoDirect(ts, id);
      DerivedFrom(ts, limits, id);
      t :| t in ts && t.cfg.parentConfig == Some(id) && Repo(FirstDerived(ts, limits, id).value) == Repo(t.cfg)
                && FirstDerived(ts, limits, id).value.maxPerRepository == t.cfg.maxPerRepository;
    }
  }

  /** Every claim under a config id is recorded against the repository the issue
      was found in exactly when all targets tied to that id share one repository. */
  lemma ClaimRepositoryExact(ts: seq<Target>, limits: Limits, id: string)
    requires DistinctIds(ts) && limits.perConfig <= U32_MAX
    ensures (forall t :: t in ts && Tied(t, id) ==> ClaimsAtHome(t, ts, limits, id)) <==> ShareRepo(ts, id)
  {
    forall t | t in ts && Tied(t, id) ensures LaunchConfig(ts, limits, id).Some? {
      if t.id == id {
        var i :| 0 <= i < |ts| && ts[i] == t;
        DirectWins(ts, limits, i);
      } else {
        DerivedFrom(ts, limits, id);
      }
    }
    if LaunchConfig(ts, limits, id).Some? {
      var origin := LaunchConfigTied(ts, limits, id);
      var home := Repo(origin.cfg);
      forall t | t in ts && Tied(t, id) ensures ClaimsAtHome(t, ts, limits, id) <==> Repo(t.cfg) == home {
        if t.id == id {
          var i :| 0 <= i < |ts| && ts[i] == t;
          DirectWins(ts, limits, i);
        }
      }
      assert ClaimsAtHome(origin, ts, limits, id);
    }
  }

  // ----- the claims that are made

  function FirstWith(ts: seq<Target>, id: string): Option<Target>
  {
    if ts == [] then None else if ts[0].id == id then Some(ts[0]) else FirstWith(ts[1..], id)
  }

  function FirstNaming(ts: seq<Target>, id: string): Option<Target>
  {
    if ts == [] then None else if ts[0].cfg.parentConfig == Some(id) then Some(ts[0]) else FirstNaming(ts[1..], id)
  }

  /** The target of that id, or else the first that names it as its parent,
      whether or not it routes to it. */
  function Origin(ts: seq<Target>, id: string): Option<Target> { OrElse(FirstWith(ts, id), FirstNaming(ts, id)) }

  lemma {:induction false} OriginSettings(ts: seq<Target>, limits: Limits, id: string)
    requires limits.perConfig <= U32_MAX
    ensures FirstDirect(ts, id) == match FirstWith(ts, id) case None => None case Some(t) => Some(t.cfg)
    ensures FirstDerived(ts, limits, id)
         == match FirstNaming(ts, id) case None => None case Some(t) => ParentCapacity(t.cfg, limits)
  {
    if ts != [] { OriginSettings(ts[1..], limits, id); }
  }

  /** The settings of a config stand in the repository of its origin. */
  lemma OriginRepo(ts: seq<Target>, limits: Limits, id: string)
    requires DistinctIds(ts) && limits.perConfig <= U32_MAX
    ensures LaunchConfig(ts, limits, id).Some? <==> Origin(ts, id).Some?
    ensures Origin(ts, id).Some? ==> Repo(LaunchConfig(ts, limits, id).value) == Repo(Origin(ts, id).value.cfg)
  {
    OriginSettings(ts, limits, id);
    DistinctIdsAgree(ts, limits, id);
  }

  lemma {:induction false} RoutesHaveOrigin(ts: seq<Target>, t: Target, id: string)
    requires t in ts && Tied(t, id)
    ensures Origin(ts, id).Some?
  {
    if t != ts[0] { RoutesHaveOrigin(ts[1..], t, id); }
  }

  predicate InOriginRepo(ts: seq<Target>, t: Target, id: string)
  {
    Origin(ts, id).Some? && Repo(t.cfg) == Repo(Origin(ts, id).value.cfg)
  }

  /** Every issue launched under a config id is claimed in the repository it was
      found in exactly when all targets that launch under the id stand in the
      repository of the one target its settings come from. */
  lemma ClaimsMadeAtHome(ts: seq<Target>, limits: Limits, id: string)
    requires DistinctIds(ts) && limits.perConfig <= U32_MAX
    ensures (forall t :: t in ts && Routes(t, id) ==> ClaimsAtHome(t, ts, limits, id))
       <==> (forall t :: t in ts && Routes(t, id) ==> InOriginRepo(ts, t, id))
  {
    OriginRepo(ts, limits, id);
    forall t | t in ts && Routes(t, id)
      ensures ClaimsAtHome(t, ts, limits, id) <==> InOriginRepo(ts, t, id)
    {
      RoutesHaveOrigin(ts, t, id);
      if t.id == id {
        var i :| 0 <= i < |ts| && ts[i] == t;
        DirectWins(ts, limits, i);
      }
    }
  }
}
