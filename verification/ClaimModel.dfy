/** The three places a claim lives in, the lease, the receipt and the remote
    issue, and the single writes made to them. */
module ClaimModel {
  import opened Text

  datatype LeaseStatus =
    | Pending | Claimed | Running | WaitingExternal | ReadyToResume
    | Completed | Failed | Abandoned | CleanupAbandoned | Stale

  /** Statuses in which a pending cleanup is picked up. */
  const RECONCILED: set<LeaseStatus> := {Pending, Claimed, Completed, Failed, Abandoned, Stale}

  datatype Issue = Issue(labels: seq<string>, assignees: seq<string>)

  /** Which of the two pieces of claim metadata the claim itself puts on the issue. */
  datatype Ownership = Ownership(assignmentAdded: bool, labelAdded: bool)

  const NOTHING_OWNED := Ownership(false, false)

  datatype Receipt = Receipt(assigneeName: string, labelName: string, owned: Ownership, cleanupPending: bool)

  datatype Config = Config(repo: Option<string>, claimAssignee: Option<string>, claimLabel: Option<string>)
  {
    /** Remote claiming needs all three settings. */
    predicate Complete() { repo.Some? && claimAssignee.Some? && claimLabel.Some? }

    function Assignee(): string { if claimAssignee.Some? then claimAssignee.value else "" }

    function Label(): string { if claimLabel.Some? then claimLabel.value else "" }

    function ReceiptFor(owned: Ownership, pending: bool): Receipt { Receipt(Assignee(), Label(), owned, pending) }
  }

  /** Everything that survives a crash. */
  datatype Durable = Durable(issue: Issue, lease: LeaseStatus, receipt: Receipt)

  // ----- names on the issue, compared without case

  predicate Has(names: seq<string>, name: string) { exists n :: n in names && EqIgnoreCase(n, name) }

  function Without(names: seq<string>, name: string): (r: seq<string>)
    ensures !Has(r, name)
  {
    if names == [] then []
    else (if EqIgnoreCase(names[0], name) then [] else [names[0]]) + Without(names[1..], name)
  }

  /** Taking away an absent name changes nothing. */
  lemma {:induction false} WithoutAbsent(names: seq<string>, name: string)
    requires !Has(names, name)
    ensures Without(names, name) == names
  {
    if names != [] {
      assert names[0] in names && forall n :: n in names[1..] ==> n in names;
      WithoutAbsent(names[1..], name);
    }
  }

  /** Taking away a name that was just added restores the list exactly. */
  lemma {:induction false} WithoutAdded(names: seq<string>, name: string)
    requires !Has(names, name)
    ensures Without(names + [name], name) == names && Has(names + [name], name)
  {
    assert (names + [name])[|names|] == name;
    if names == [] {
      assert [name][1..] == [];
    } else {
      assert names[0] in names && forall n :: n in names[1..] ==> n in names;
      assert (names + [name])[1..] == names[1..] + [name];
      WithoutAdded(names[1..], name);
    }
  }

  predicate ClaimShown(c: Config, issue: Issue)
  {
    c.Complete() ==> Has(issue.labels, c.Label()) && Has(issue.assignees, c.Assignee())
  }

  function Inspect(c: Config, issue: Issue): Ownership
  {
    if c.Complete() then Ownership(!Has(issue.assignees, c.Assignee()), !Has(issue.labels, c.Label()))
    else NOTHING_OWNED
  }

  function WithAssignee(issue: Issue, name: string): Issue { issue.(assignees := issue.assignees + [name]) }

  function WithLabel(issue: Issue, name: string): Issue { issue.(labels := issue.labels + [name]) }

  function LessAssignee(issue: Issue, name: string): Issue { issue.(assignees := Without(issue.assignees, name)) }

  function LessLabel(issue: Issue, name: string): Issue { issue.(labels := Without(issue.labels, name)) }

  /** What the claim puts on the issue is nothing the issue had before. */
  ghost predicate OwnedIsNew(pre: Issue, r: Receipt)
  {
    && (r.owned.labelAdded ==> !Has(pre.labels, r.labelName))
    && (r.owned.assignmentAdded ==> !Has(pre.assignees, r.assigneeName))
  }

  /** The issue as before the claim, perhaps with what the receipt says was added. */
  ghost predicate AtMostAdded(pre: Issue, r: Receipt, issue: Issue)
  {
    && (issue.labels == pre.labels || (r.owned.labelAdded && issue.labels == pre.labels + [r.labelName]))
    && (issue.assignees == pre.assignees
        || (r.owned.assignmentAdded && issue.assignees == pre.assignees + [r.assigneeName]))
  }

  /** The issue with everything the receipt says was added. */
  function Added(r: Receipt, issue: Issue): Issue
  {
    Issue(if r.owned.labelAdded then issue.labels + [r.labelName] else issue.labels,
          if r.owned.assignmentAdded then issue.assignees + [r.assigneeName] else issue.assignees)
  }

  /** What the claim adds is just what is missing for it to show. */
  lemma InspectSuffices(c: Config, issue: Issue)
    ensures OwnedIsNew(issue, c.ReceiptFor(Inspect(c, issue), true))
    ensures ClaimShown(c, Added(c.ReceiptFor(Inspect(c, issue), true), issue))
  {
    if !Has(issue.labels, c.Label()) { WithoutAdded(issue.labels, c.Label()); }
    if !Has(issue.assignees, c.Assignee()) { WithoutAdded(issue.assignees, c.Assignee()); }
  }

  /** Removing what the receipt says was added, where it is there. */
  function Cleaned(r: Receipt, issue: Issue): Issue
  {
    Issue(if r.owned.labelAdded && Has(issue.labels, r.labelName)
          then Without(issue.labels, r.labelName) else issue.labels,
          if r.owned.assignmentAdded && Has(issue.assignees, r.assigneeName)
          then Without(issue.assignees, r.assigneeName) else issue.assignees)
  }

  /** Cleaning restores the issue exactly. */
  lemma CleanedRestores(pre: Issue, r: Receipt, issue: Issue)
    requires OwnedIsNew(pre, r) && AtMostAdded(pre, r, issue)
    ensures Cleaned(r, issue) == pre
  {
    if r.owned.labelAdded { WithoutAdded(pre.labels, r.labelName); }
    if r.owned.assignmentAdded { WithoutAdded(pre.assignees, r.assigneeName); }
  }
}
