/** The lease table, at most one lease an issue, and its three active counts. */
module Leases {
  import opened ClaimModel

  datatype IssueKey = IssueKey(repo: string, number: nat)

  datatype Lease = Lease(config: string, status: LeaseStatus)

  type Table = map<IssueKey, Lease>

  /** What a count ranges over. */
  datatype Scope = Everything | OfConfig(id: string) | OfRepository(repo: string)

  const RECLAIMABLE: set<LeaseStatus> := {Completed, Failed, Abandoned, Stale}

  predicate Active(s: LeaseStatus) { s == Claimed || s == Running }

  predicate InScope(sc: Scope, k: IssueKey, l: Lease)
  {
    match sc
    case Everything => true
    case OfConfig(id) => l.config == id
    case OfRepository(repo) => k.repo == repo
  }

  predicate Occupies(sc: Scope, k: IssueKey, l: Lease) { Active(l.status) && InScope(sc, k, l) }

  function Occupied(t: Table, sc: Scope): set<IssueKey> { set k | k in t && Occupies(sc, k, t[k]) }

  function Count(t: Table, sc: Scope): nat { |Occupied(t, sc)| }

  /** Whether `try_claim` wins the issue. */
  predicate Claimable(t: Table, k: IssueKey) { k in t ==> t[k].status in RECLAIMABLE }

  function One(b: bool): nat { if b then 1 else 0 }

  /** Writing one lease moves each count by what that lease gave and now gives. */
  lemma WriteCount(t: Table, k: IssueKey, l: Lease, sc: Scope)
    ensures Count(t[k := l], sc) == Count(t, sc) - One(k in t && Occupies(sc, k, t[k])) + One(Occupies(sc, k, l))
  {
    var rest := Occupied(t, sc) - {k};
    assert Occupied(t, sc) == if k in t && Occupies(sc, k, t[k]) then rest + {k} else rest;
    assert Occupied(t[k := l], sc) == if Occupies(sc, k, l) then rest + {k} else rest;
  }
}
