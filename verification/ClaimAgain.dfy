/** Many claims of one issue after each other: a claim that finds the issue free
    takes over the lease, and the receipt of the claim before is gone. */
module ClaimAgain {
  import opened Text
  import opened ClaimModel
  import opened Leases
  import opened ClaimCrash

  /** A claim with the settings it ran under and the state it left behind, after
      any number of reconciliations. */
  datatype Attempt = Attempt(config: Config, left: Durable)

  /** Each claim finds the issue as the one before left it. */
  ghost predicate Follows(pre: Issue, attempts: seq<Attempt>)
    decreases |attempts|
  {
    attempts == [] ||
    (LeftBy(attempts[0].config, pre, attempts[0].left) && Follows(attempts[0].left.issue, attempts[1..]))
  }

  /** The issue once the last claim has been reconciled. */
  function Restored(pre: Issue, attempts: seq<Attempt>): Issue
    decreases |attempts|
  {
    if attempts == [] then pre
    else if |attempts| == 1 then Reconciled(attempts[0].left).issue
    else Restored(attempts[0].left.issue, attempts[1..])
  }

  /** Every claim but the last was over when `may` let the next one have its issue. */
  predicate Retaken(attempts: seq<Attempt>, may: Receipt -> bool)
  {
    forall i :: 0 <= i < |attempts| - 1 ==> may(attempts[i].left.receipt)
  }

  /** Nothing the receipt covers can still be on the issue. */
  predicate Spent(r: Receipt) { !r.cleanupPending || r.owned == NOTHING_OWNED }

  lemma SpentIsClean(c: Config, pre: Issue, d: Durable)
    requires LeftBy(c, pre, d) && Spent(d.receipt)
    ensures d.issue == pre
  {}

  lemma {:induction false} CleanRetakesRestore(pre: Issue, attempts: seq<Attempt>, may: Receipt -> bool)
    requires Follows(pre, attempts) && Retaken(attempts, may) && forall r :: may(r) ==> Spent(r)
    ensures Restored(pre, attempts) == pre
    decreases |attempts|
  {
    if |attempts| == 1 {
      CrashRestores(pre, attempts[0].left);
    } else if |attempts| > 1 {
      SpentIsClean(attempts[0].config, pre, attempts[0].left);
      CleanRetakesRestore(pre, attempts[1..], may);
    }
  }

  /** Settings, an issue and two claims of it that end with the claim metadata
      of the first still there. */
  function LeakyIssue(r: Receipt): Issue
  {
    Issue(if r.owned.labelAdded then [] else [r.labelName], if r.owned.assignmentAdded then [] else [r.assigneeName])
  }

  function LeakyConfig(r: Receipt): Config { Config(Some(""), Some(r.assigneeName), Some(r.labelName)) }

  function Leaky(r: Receipt): seq<Attempt>
  {
    var kept := Added(r, LeakyIssue(r));
    [Attempt(LeakyConfig(r), Durable(kept, Abandoned, r)),
     Attempt(LeakyConfig(r), Durable(kept, Abandoned, LeakyConfig(r).ReceiptFor(NOTHING_OWNED, false)))]
  }

  lemma UnspentLeaks(r: Receipt)
    requires !Spent(r)
    ensures Follows(LeakyIssue(r), Leaky(r)) && Restored(LeakyIssue(r), Leaky(r)) != LeakyIssue(r)
  {
    var pre := LeakyIssue(r);
    var c := LeakyConfig(r);
    WithoutAdded([], r.labelName);
    WithoutAdded([], r.assigneeName);
    assert [] + [r.labelName] == [r.labelName] && [] + [r.assigneeName] == [r.assigneeName];
    assert Inspect(c, pre) == r.owned;
    var two := Leaky(r);
    assert LeftBy(c, pre, two[0].left) && LeftBy(c, two[0].left.issue, two[1].left);
    assert two[1..] == [two[1]] && two[1..][1..] == [];
    assert Follows(two[0].left.issue, two[1..]);
  }

  /** Claims may be followed by others exactly when each lets the next one in only
      with its own receipt unmarked or covering nothing: then, and for no laxer
      rule, every run of claims leaves the issue as it was before the first. */
  lemma RetakeRuleExact(may: Receipt -> bool)
    ensures (forall pre, attempts :: Follows(pre, attempts) && Retaken(attempts, may) ==>
             Restored(pre, attempts) == pre)
        <==> (forall r :: may(r) ==> Spent(r))
  {
    if forall r :: may(r) ==> Spent(r) {
      forall pre, attempts | Follows(pre, attempts) && Retaken(attempts, may)
        ensures Restored(pre, attempts) == pre
      {
        CleanRetakesRestore(pre, attempts, may);
      }
    } else {
      var r :| may(r) && !Spent(r);
      UnspentLeaks(r);
      assert Retaken(Leaky(r), may);
    }
  }

  /** The claim guard looks at the status alone, so it is not such a rule: the
      issue of any abandoned claim whose cleanup failed can be taken again. */
  lemma GuardTooLax(c: Config, pre: Issue, d: Durable, next: Config)
    requires LeftBy(c, pre, d) && d.issue != pre
    ensures var taken := After(Retake(next), d);
      && taken.lease == Claimed && taken.issue != pre
      && Reconciled(taken) == taken
      && (d.receipt.cleanupPending && Reconciled(d).issue == pre)
  {
    CleanedRestores(pre, d.receipt, d.issue);
  }
}
