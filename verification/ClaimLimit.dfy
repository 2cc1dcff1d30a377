/** Claiming first and counting afterwards: any number of claimers of one
    config, interleaved write by write, among whatever else moves leases. */
module ClaimLimit {
  import opened Text
  import opened ClaimModel
  import opened Leases

  datatype Phase = Idle | Counting | GivingUp | Passed | Over

  /** A lease with the claimer it was issued to; a lease taken up again by a
      resume is no longer the claimer's. */
  datatype Row = Row(lease: Lease, holder: Option<nat>)

  /** `keys[i]` is the issue claimer `i` goes for; `max` the config's limit. */
  datatype Game = Game(config: string, max: nat, keys: seq<IssueKey>)

  datatype State = State(rows: map<IssueKey, Row>, phases: seq<Phase>)

  datatype Event =
    | TryClaim(i: nat)
    | CountActive(i: nat)
    | GiveUp(i: nat)
    | Start(k: IssueKey)
    | Retire(k: IssueKey, status: LeaseStatus)
    | Resume(k: IssueKey)
    | ClaimElsewhere(k: IssueKey, config: string)

  function Held(g: Game, s: State): set<IssueKey>
  {
    set k | k in s.rows && Occupies(OfConfig(g.config), k, s.rows[k].lease)
  }

  predicate Free(s: State, k: IssueKey) { k in s.rows ==> s.rows[k].lease.status in RECLAIMABLE }

  function SetStatus(s: State, k: IssueKey, status: LeaseStatus): State
    requires k in s.rows
  {
    s.(rows := s.rows[k := s.rows[k].(lease := s.rows[k].lease.(status := status))])
  }

  /** One atomic step; an event that is not enabled changes nothing. */
  function Step(g: Game, s: State, e: Event): State
    requires |s.phases| == |g.keys|
  {
    match e
    case TryClaim(i) =>
      if i >= |g.keys| || s.phases[i] != Idle then s
      else if !Free(s, g.keys[i]) then s.(phases := s.phases[i := Over])
      else State(s.rows[g.keys[i] := Row(Lease(g.config, Claimed), Some(i))], s.phases[i := Counting])
    case CountActive(i) =>
      if i >= |g.keys| || s.phases[i] != Counting then s
      else s.(phases := s.phases[i := if |Held(g, s)| > g.max then GivingUp else Passed])
    case GiveUp(i) =>
      if i >= |g.keys| || s.phases[i] != GivingUp then s
      else
        var over := s.(phases := s.phases[i := Over]);
        if g.keys[i] in s.rows && s.rows[g.keys[i]].holder == Some(i) then SetStatus(over, g.keys[i], Abandoned)
        else over
    case Start(k) =>
      if k in s.rows && s.rows[k].lease.status == Claimed then SetStatus(s, k, Running) else s
    case Retire(k, status) =>
      if k in s.rows && !Active(status) then SetStatus(s, k, status) else s
    case Resume(k) =>
      if k in s.rows && s.rows[k].lease.status == ReadyToResume
      then s.(rows := s.rows[k := Row(s.rows[k].lease.(status := Running), None)]) else s
    case ClaimElsewhere(k, config) =>
      if config != g.config && Free(s, k) then s.(rows := s.rows[k := Row(Lease(config, Claimed), None)]) else s
  }

  function Play(g: Game, s: State, es: seq<Event>): State
    requires |s.phases| == |g.keys|
    decreases |es|
  {
    if es == [] then s else Play(g, Step(g, s, es[0]), es[1..])
  }

  /** Nobody has claimed yet, so no lease is one of theirs. */
  ghost predicate Starting(g: Game, s: State)
  {
    && |s.phases| == |g.keys|
    && (forall i :: 0 <= i < |s.phases| ==> s.phases[i] == Idle)
    && (forall k :: k in s.rows ==> s.rows[k].holder.None?)
  }

  /** Every lease of a claimer belongs to one that has claimed. */
  ghost predicate Consistent(g: Game, s: State)
  {
    && |s.phases| == |g.keys|
    && (forall k :: k in s.rows && s.rows[k].holder.Some? ==>
          s.rows[k].holder.value < |s.phases| && k == g.keys[s.rows[k].holder.value]
            && s.phases[s.rows[k].holder.value] != Idle)
  }

  /** The active leases of the config whose claim passed the count; with
      `others`, also those that are active for another reason. */
  ghost function Counted(g: Game, s: State, others: bool): set<IssueKey>
    requires Consistent(g, s)
  {
    set k | k in Held(g, s) && match s.rows[k].holder
                               case None => others
                               case Some(i) => s.phases[i] == Passed || (others && s.phases[i] == Over)
  }

  /** A subset has no more elements. */
  lemma Fewer(a: set<IssueKey>, b: set<IssueKey>)
    requires a <= b
    ensures |a| <= |b|
  {
    assert b == a + (b - a);
  }

  predicate Passes(g: Game, s: State, e: Event)
    requires |s.phases| == |g.keys|
  {
    e.CountActive? && e.i < |g.keys| && s.phases[e.i] == Counting && |Held(g, s)| <= g.max
  }

  lemma WorldShrinks(g: Game, s: State, e: Event, others: bool)
    requires Consistent(g, s) && (e.Start? || e.Retire? || e.ClaimElsewhere? || (e.Resume? && !others))
    ensures Consistent(g, Step(g, s, e)) && Counted(g, Step(g, s, e), others) <= Counted(g, s, others)
  {}

  lemma ClaimShrinks(g: Game, s: State, i: nat, others: bool)
    requires Consistent(g, s)
    ensures var s' := Step(g, s, TryClaim(i));
      Consistent(g, s') && Counted(g, s', others) <= Counted(g, s, others)
  {}

  lemma VerdictShrinks(g: Game, s: State, e: Event, others: bool)
    requires Consistent(g, s) && (e.GiveUp? || (e.CountActive? && !Passes(g, s, e)))
    ensures Consistent(g, Step(g, s, e)) && Counted(g, Step(g, s, e), others) <= Counted(g, s, others)
  {}

  /** Only a claim that finds room adds to what is counted. */
  lemma StepKeeps(g: Game, s: State, e: Event, others: bool, top: nat)
    requires Consistent(g, s) && |Counted(g, s, others)| <= top && g.max <= top
    requires others ==> !e.Resume?
    ensures Consistent(g, Step(g, s, e)) && |Counted(g, Step(g, s, e), others)| <= top
  {
    var s' := Step(g, s, e);
    if Passes(g, s, e) {
      assert Consistent(g, s') && s'.rows == s.rows;
      Fewer(Counted(g, s', others), Held(g, s));
    } else {
      match e {
        case TryClaim(i) => ClaimShrinks(g, s, i, others);
        case CountActive(_) => VerdictShrinks(g, s, e, others);
        case GiveUp(_) => VerdictShrinks(g, s, e, others);
        case _ => WorldShrinks(g, s, e, others);
      }
      Fewer(Counted(g, s', others), Counted(g, s, others));
    }
  }

  lemma {:induction false} PlayKeeps(g: Game, s: State, es: seq<Event>, others: bool, top: nat)
    requires Consistent(g, s) && |Counted(g, s, others)| <= top && g.max <= top
    requires others ==> forall e :: e in es ==> !e.Resume?
    ensures Consistent(g, Play(g, s, es)) && |Counted(g, Play(g, s, es), others)| <= top
    decreases |es|
  {
    if es != [] {
      StepKeeps(g, s, es[0], others, top);
      PlayKeeps(g, Step(g, s, es[0]), es[1..], others, top);
    }
  }

  /** In every state of every interleaving, the active leases whose claim passed
      the count are no more than the limit. */
  lemma AdmittedWithinLimit(g: Game, s: State, es: seq<Event>)
    requires Starting(g, s)
    ensures Consistent(g, Play(g, s, es)) && |Counted(g, Play(g, s, es), false)| <= g.max
  {
    assert Counted(g, s, false) == {};
    PlayKeeps(g, s, es, false, g.max);
  }

  /** Once no claimer is between its claim and its verdict, all active leases of
      the config together are within the limit, or no more than at the start. */
  lemma SettledWithinLimit(g: Game, s: State, es: seq<Event>)
    requires Starting(g, s) && forall e :: e in es ==> !e.Resume?
    ensures var end := Play(g, s, es);
      Counting !in end.phases && GivingUp !in end.phases ==>
        |Held(g, end)| <= g.max || |Held(g, end)| <= |Held(g, s)|
  {
    assert Counted(g, s, true) == Held(g, s);
    PlayKeeps(g, s, es, true, if g.max < |Held(g, s)| then |Held(g, s)| else g.max);
    var end := Play(g, s, es);
    if Counting !in end.phases && GivingUp !in end.phases {
      assert Counted(g, end, true) == Held(g, end);
    }
  }

  /** A claimer that does not get its issue is out of the game and changes nothing
      else; one that gives up frees only the lease it was issued. */
  lemma LosersSpare(g: Game, s: State, i: nat)
    requires i < |g.keys| == |s.phases|
    ensures s.phases[i] == Idle && !Free(s, g.keys[i]) ==>
      Step(g, s, TryClaim(i)) == State(s.rows, s.phases[i := Over])
    ensures s.phases[i] == GivingUp ==>
      var t := Step(g, s, GiveUp(i));
      && t.phases == s.phases[i := Over] && t.rows.Keys == s.rows.Keys
      && forall k :: k in s.rows ==>
           t.rows[k].holder == s.rows[k].holder && t.rows[k].lease.config == s.rows[k].lease.config
           && t.rows[k].lease.status ==
              (if k == g.keys[i] && s.rows[k].holder == Some(i) then Abandoned else s.rows[k].lease.status)
  {}
}
