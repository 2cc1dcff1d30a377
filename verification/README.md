# Verified model of the workflow daemon

A Dafny 4.11 model of the parts of this repository whose correctness is not
plain from reading one function: the durable workflow engine loop and its step
context, the daemon's claim protocol and scheduler pass, discovery, the text
algorithms behind interpolation and preflight checks, the recovery tables, and
the worker supervisor. Code that changes state in place is modelled by classes
and loops proved against specification functions; the theorems are about those
functions and hold for all inputs, all runs and all interleavings.

`dafny verify dfyconfig.toml` checks the whole project.

## What is modelled

- **Engine** (`Workflow.dfy`, `Engine.dfy`, `RunLaws.dfy`, `RunRecords.dfy`,
  `Resumption.dfy`, `Context.dfy`).
  A workflow is a list of steps and outcome-routed transitions. Executors,
  interrupts and failing writes are an arbitrary environment that is asked with
  the number of steps dispatched so far. `EngineRunner` computes the function
  `Run` in place. Every run ends after at most N * (1 + C) dispatched steps,
  where N is the number of steps and C sums, over the distinct `"from:to"` keys,
  the largest limit of any limited transition with that key. `RunLaws` and
  `RunRecords` tell a run from its dispatched steps alone: which step follows
  which, what each executor is shown, exactly when the run succeeds, fails,
  pauses, is abandoned or interrupted, what it leaves stored, and which step the
  next process begins with. Interrupting at
  any set of loop heads and resuming in a new process changes neither the steps
  nor the outcome, for executors that look only at what a checkpoint carries.
  Over K processes at most 2 * K steps are added to the bound.
- **Claiming** (`ClaimModel.dfy`, `ClaimCrash.dfy`, `ClaimRace.dfy`,
  `RaceProgress.dfy`, `ClaimAgain.dfy`, `ClaimLimit.dfy`, `ClaimRetreat.dfy`). Lease, receipt and
  remote issue are separate stores and every write is one step. `ClaimCrash` is
  for one scheduler that may crash between any two writes, and says how it ends for
  every way its remote calls can end; `ClaimRace` and `RaceProgress` are for one
  launcher and any number of reconcilers without crashes; `ClaimAgain` is for any
  number of claims of one issue after each other; `ClaimLimit` and `ClaimRetreat`
  are for any number of claimers that claim first and count afterwards.
- **Scheduler pass and discovery** (`Leases.dfy`, `Routing.dfy`,
  `Capacity.dfy`, `PassLaws.dfy`, `RepositoryLimit.dfy`, `DiscoveredLimit.dfy`,
  `Milestones.dfy`, `Discovery.dfy`, `DiscoveryLaws.dfy`). Which settings a config
  id works with, the three capacity counts over a whole resume-then-launch pass,
  what a pass makes of every lease, and the discovery loop with its filters, limit, order and lookup cache.
- **Text** (`Text.dfy`, `Glob.dfy`, `Porcelain.dfy`, `Templates.dfy`,
  `Rescan.dfy`, `KeyOrders.dfy`, `Interpolation.dfy`, `ConfigTokens.dfy`,
  `ConfigVerdicts.dfy`).
  Each algorithm is proved equal to a simple reference meaning.
- **Recovery tables and launches** (`Attempts.dfy`, `Envelope.dfy`,
  `Launches.dfy`). Codecs and digests are parameters with a round trip assumed.
- **Supervision** (`Supervision.dfy`, `SupervisionLaws.dfy`).

`Numbers.dfy` and `Sequences.dfy` hold the integer bounds, decimal text and
duplicate-free sequences the others share.

## Where the code gives less than its comments say

Each of these is a lemma that says exactly when the code does what is promised.

- `interpolate_string` replaces the keys one after the other: longest first, keys
  of one length in the order of their sources (dotted, inside a namespace, flat,
  built in), and within a source in the order of a hash map. For keys without
  braces, and whatever the values hold, every replacement acts as in a single
  left-to-right pass, on every template and in every order the keys can come in,
  exactly when no value touches the token of a key visited later: the token does
  not start in it, end in it, or have it inside its name
  (`Interpolation.AllStagesInEveryOrder`, `Rescan.ApartExact`). On templates
  without nested groups only a token that starts in a value matters
  (`Interpolation.StagesInEveryOrder`, `Rescan.RescanExact`). That is about each
  replacement: a later one can undo what an earlier one did, so looking at final
  texts alone no condition on pairs of keys is exact (`Rescan.FinalTextHides`).
  For values without braces it is: then over all templates every order makes a
  single pass exactly when no value is part of a key that may be visited later
  (`Interpolation.SinglePassInEveryOrder`).
- `interpolate_config_variables` may return Ok with a token left in. For text and
  values without nested groups, the result is Ok and free of tokens in every map
  order exactly when no chain of references that starts in the text and ends in a
  token repeats a name or ends undefined (`ConfigVerdicts.ResolvedExactly`). If all
  variables are named like tokens, a loop or an undefined token leaves one in
  whatever the order (`ConfigVerdicts.ResolvedInEachOrder`). Where
  references do not loop, a text with an undefined token is accepted in every
  order exactly unless a chain runs through all variables
  (`ConfigVerdicts.AcceptedInEveryOrder`), and the verdict is the same in all
  orders exactly when no undefined token is referred to, no chain runs through
  all variables, or there is just one variable
  (`ConfigVerdicts.VerdictSameInAllOrders`).
- A `/**` pattern takes its directory part literally: it means "everything
  below" exactly when that part holds no `*` (`Glob.DirectoryShortcutExact`).
- `parse_porcelain_paths` reads the old path of a rename or copy only when the
  index column reports it (`Porcelain.PrintParseRoundTrip`).
- A checkpoint taken of a resumed context equals the one it was resumed from
  exactly when the fresh context seeds no allowlisted variable the saved one
  lacked (`Context.CheckpointRoundTrip`).
- After a crash before Running, reconciliation always restores the issue. It
  leaves the issue free for another claim exactly when it was free before or the
  cleanup flag was set. A crash before the flag is written
  leaves the lease Claimed; one between clearing the flag and giving the lease up
  leaves it Pending without the flag, where nothing ever moves it again: not the reconciler, the claim guard, a resume, a wait,
  stale marking or an operator's continuation (`ClaimCrash.CrashRestores`, `ClaimCrash.StuckExactly`).
- Marking a lease stale keeps the claim restorable exactly unless it takes a
  Running lease whose claim still shows on the issue (`ClaimCrash.StaleRestores`).
- A new claim of an issue replaces the lease id, and with it the receipt of the
  claim before. Claims may follow each other, and every run of them leaves the
  issue as it was before the first, exactly under rules that let a claim in only
  when the old receipt is unmarked or covers nothing
  (`ClaimAgain.RetakeRuleExact`). The claim guard looks at the status alone, so a
  claim whose cleanup failed can be followed too early, and its label and assignee
  then stay for good (`ClaimAgain.GuardTooLax`).
- Claiming first and counting afterwards never admits too many, but claimers of
  distinct, free issues can all be turned away exactly when the active leases and
  the wanted issues together are more than the limit, however much room there was
  (`ClaimRetreat.NobodyInExactly`).
- A claim routed to a parent config is recorded, and counted, against the
  repository of that config's settings. It is the repository the issue was found
  in exactly when all targets that launch under the config stand in the repository
  of the one target its settings come from (`Routing.ClaimsMadeAtHome`). A pass
  keeps the limit of a repository, whatever it starts from with leases at home,
  whatever the tracker answers discovery and however claims go, exactly when no
  target launches away into it: a target whose filters let an issue through, whose
  own limit is not 0 and which routes parent issues to a config whose settings
  name that repository while its own do not, with limits that let a launch through
  and a global limit above the repository's
  (`DiscoveredLimit.DiscoveredLimitExact`, `RepositoryLimit.RepositoryLimitExact`).
- A config that sets no limit of its own is launched at most once at a time,
  whatever `capacity_limits` computes from the others (`Capacity.LaunchedExactly`).
- A launch keeps run rows and capsules in step exactly when it fails or is given
  a capsule of the same run id; nothing in `persist_launch_atomically` compares
  the two ids (`Launches.LaunchPairs`).
- Capsule frames over fields of up to a given length are unambiguous exactly when
  that length fits 32 bits (`Envelope.InjectiveExactly`).
- Exponential backoff is the capped doubling exactly when the doubling fits 64
  bits or what wraps around still reaches the cap; restart 65 of a one-second
  backoff does not wait (`Supervision.BackoffExact`,
  `Supervision.BackoffCollapses`). With overflow checks on, as in a debug build,
  an attempt whose doubling overflows panics instead.
- A supervision pass that completes degrades the monitor exactly when one of the
  exited workers was at its restart limit, whatever the policy, even for a clean
  exit that would not be restarted (`Supervision.TickDegradesExactly`).

## Model

| member | source | states |
|---|---|---|
| `Workflows.ResolveTransition` | workflow/src/engine/transition.rs:163-188 | the routing scan returns the target of the first transition, in declaration order, that applies to the step and outcome |
| `Workflows.FindTransition` | workflow/src/engine/runner.rs:525-543 | the budget scan, written separately, finds the same transition as the routing scan |
| `Workflows.AppliesExactly` | workflow/src/engine/transition.rs:163-188 | which condition a transition may carry for each outcome, and that one without applies to success only |
| `Workflows.CleanupSteps` | workflow/src/engine/runner/failure_cleanup.rs:611-617 | an id names a cleanup step exactly if some step of that id is one |
| `Workflows.Index` | workflow/src/engine/runner.rs:744-755 | step positions are those of the first step with the id, no step before it having it; none exactly when no step has it |
| `Workflows.LimitedExactly` | workflow/src/engine/runner.rs:744-755 | an edge is limited exactly when it sets a limit or leads to its own step or one listed before it |
| `Workflows.SpendOne` | workflow/src/engine/runner.rs:489-519 | taking a limited edge below its limit spends exactly one unit of the summed budget, even when edges share a key and carry different limits |
| `Workflows.SpentAndLeft` | workflow/src/engine/runner.rs:489-519 | what the counters have spent and what they have left always make up the whole budget |
| `Workflows.CountersFit` | workflow/src/engine/runner.rs:489-519 | no counter passes the largest limit of its key, so the 32-bit increment cannot overflow, and the total stays inside the budget |
| `Workflows.LargestLimitAttained` | workflow/src/engine/runner.rs:489-519 | the share of a key in the budget is the limit of one of its transitions |
| `Engine.RoundProgress` | workflow/src/engine/runner.rs:248-317 | every round that goes on has dispatched a step and strictly lowered the potential; counters stay within limits |
| `Engine.AdvanceProgress` | workflow/src/engine/runner.rs:474-519 | both kinds of edge use up potential: limited ones a unit of budget, the others lead forward or out of the graph |
| `Engine.RunBounded` | workflow/src/engine/runner.rs:248-317 | from any state within its limits a run dispatches at most its potential |
| `Engine.RunTerminates` | workflow/src/engine/runner.rs:248-317 | whatever executors return, a fresh run dispatches at most N * (1 + C) steps |
| `Engine.EngineRunner.constructor` | workflow/src/engine/runner/construction.rs:77-119 | a new runner stands at the first step with no counters, failure or checkpoint |
| `Engine.EngineRunner.PrepareStepStart` | workflow/src/engine/runner.rs:394-420 | entering a step updates the context; a cleanup step without recorded failure is refused |
| `Engine.EngineRunner.ExecuteCurrentStep` | workflow/src/engine/runner.rs:549-569 | the executor's answer, with step errors and missing tools of registered steps turned into fatal outcomes |
| `Engine.EngineRunner.PersistStepResult` | workflow/src/engine/runner/failure_cleanup.rs:280-376 | checkpoint and failure record are written together or not at all; denied ownership is recorded as such |
| `Engine.EngineRunner.EnforceEdgeLimit` | workflow/src/engine/runner.rs:489-519 | a limited edge is counted, or refused at its limit with an abandoned outcome; other edges leave the counters alone |
| `Engine.EngineRunner.FinishWithoutTransition` | workflow/src/engine/runner/failure_cleanup.rs:619-685 | how a run ends when no transition applies, in and outside cleanup steps |
| `Engine.EngineRunner.SettleOutcome` | workflow/src/engine/runner.rs:248-317 | what follows a step that ran: persist, then stop or take an edge |
| `Engine.EngineRunner.InterruptAtStep` | workflow/src/engine/runner.rs:374-392 | the interrupt stores step, counters and checkpointable context and changes nothing else |
| `Engine.EngineRunner.ResumeFromCheckpoint` | workflow/src/engine/runner.rs:319-363 | a pending cleanup is taken up first, then the newest checkpoint; denied ownership and undecodable values are refused |
| `Engine.EngineRunner.RunTransitionLoop` | workflow/src/engine/runner.rs:248-317 | the loop computes exactly the run: its dispatched steps, its outcome and its final state |
| `RunLaws.RunFollowsEdges` | workflow/src/engine/runner.rs:248-317 | from each dispatched step the run goes to the target of the first transition that applies to its answer, counting limited edges below their limit, recording failed work on the way into cleanup |
| `RunLaws.RunConcludes` | workflow/src/engine/runner/failure_cleanup.rs:655-668 | a run succeeds exactly when its last step, outside cleanup, answers success, everything could be stored and no transition applies; pausing, failing and step abandonment likewise |
| `RunLaws.RunCleansUp` | workflow/src/engine/runner/failure_cleanup.rs:619-654 | a cleanup step that leads nowhere ends the run of the failed step: abandoned exactly if it succeeds, failed otherwise |
| `RunLaws.RunStopsOnEdge` | workflow/src/engine/runner.rs:489-519 | an edge is refused exactly when it is limited and its counter has reached the limit; ownership is lost exactly when failed work leads into cleanup of a workspace not owned |
| `RunLaws.RunStopsAtHead` | workflow/src/engine/runner.rs:258-282 | a run is interrupted, or ends for want of provenance, step or executor, exactly where it stands at such a head or its last step broke or was interrupted |
| `RunLaws.RunCannotStore` | workflow/src/engine/runner.rs:283-293 | a storage error ends the run exactly when the last result or the completion could not be stored; no other endings exist |
| `RunRecords.RunReplaysLog` | workflow/src/engine/runner.rs:394-420 | what each executor is shown is the replay of all steps entered and values written before; cleanup steps are told which step failed and how |
| `RunRecords.RunStores` | workflow/src/engine/runner.rs:374-392 | a run without error leaves the checkpoint of its last state, marked interrupted, waiting or completed |
| `RunRecords.RunLeaves` | workflow/src/engine/runner/failure_cleanup.rs:280-376 | lost ownership is left on record as not to be cleaned up; a cleanup is on record as done exactly if the run was abandoned for it |
| `RunRecords.ResumeCleansUpFirst` | workflow/src/engine/runner.rs:319-350 | a process that finds failed work not cleaned up dispatches the recorded cleanup step first, with the failed step's counters; it is refused exactly when ownership was denied or the record does not decode |
| `RunRecords.ResumeGoesOn` | workflow/src/engine/runner.rs:351-363 | any other process begins with the step of the newest checkpoint, or at its own first step |
| `Resumption.SimilarRound` | workflow/src/engine/runner.rs:248-317 | states that agree on what a checkpoint carries take the same step, end the same way and stay similar |
| `Resumption.RebornSimilar` | workflow/src/engine/runner.rs:319-392 | interrupting at the loop head and resuming in a new process gives a similar state, with no failed cleanup pending |
| `Resumption.InterruptsInvisible` | workflow/src/engine/runner.rs:248-392 | process replacement at any set of loop heads leaves the dispatched steps, the outcome and the final counters as in the uninterrupted run |
| `Resumption.InterruptedRunIsStored` | workflow/src/engine/runner.rs:248-392 | a run passes no loop head with the interrupt flag up; a run that ends interrupted does so where the flag is seen and leaves the checkpoint of its own last state |
| `Resumption.ResumeKeepsLimits` | workflow/src/engine/runner.rs:319-363 | the counters a new process starts from are within their limits, whatever it takes up |
| `Resumption.RunKeepsDurable` | workflow/src/engine/runner.rs:248-317 | a run's checkpoint leaves no more to do than its potential less what it dispatched, plus the two steps a resume may repeat |
| `Resumption.SegmentsBounded` | workflow/src/engine/runner.rs:319-392 | over any number of processes the loop budget is spent only once |
| `Resumption.ProcessesBounded` | workflow/src/engine/runner.rs:178-392 | a whole run in K processes dispatches at most N * (1 + C) + 2 * K steps |
| `Context.StepContext.Get` | workflow/src/engine/executor.rs:256-289 | lookup as the value-level context defines it |
| `Context.StepContext.Set` | workflow/src/engine/executor.rs:295-305 | a write goes to the flat variables and to the current step's namespace and nowhere else |
| `Context.StepContext.SetCurrentStepId` | workflow/src/engine/executor.rs:355-363 | entering a step appends it to the order unless it is already last and sets the current step |
| `Context.StepContext.RestoreCheckpointValues` | workflow/src/engine/executor.rs:216-247 | which stored values decode, and the context they give |
| `Context.GetIsDecidingWrite` | workflow/src/engine/executor.rs:256-305 | a bare key reads the last value written by the most recently entered of all steps that ever wrote it |
| `Context.SomeWriteDecides` | workflow/src/engine/executor.rs:256-305 | such a deciding write exists as soon as any step wrote the key |
| `Context.GetWithoutWriters` | workflow/src/engine/executor.rs:256-289 | with no write inside a step the flat variables answer |
| `Context.LookupOrder` | workflow/src/engine/executor.rs:256-289 | a bare key is answered by the last entered step that holds it, then the config namespace, then the flat variables, then the fallback of `issue_number` |
| `Context.NamespaceHolds` | workflow/src/engine/executor.rs:295-305 | a namespace holds the last write its step made, and nothing for keys the step never wrote |
| `Context.FlatHolds` | workflow/src/engine/executor.rs:295-305 | a flat variable holds the last value written under its key by any step |
| `Context.CheckpointDecodes` | workflow/src/engine/executor.rs:172-247 | what was checkpointed always decodes, into the allowlisted part of the context |
| `Context.CheckpointRoundTrip` | workflow/src/engine/executor.rs:172-247 | checkpointing the restored context gives the same values exactly when the fresh one seeds no allowlisted variable of its own |
| `Context.CarriedLookups` | workflow/src/engine/executor.rs:172-289 | restored lookups of allowlisted bare keys agree with the original exactly unless one needs the fallback of `issue_number`, which is neither allowlisted nor seeded alike |
| `Context.CarriedNamespaces` | workflow/src/engine/executor.rs:172-289 | restored lookups of namespaced keys agree when the variable is allowlisted and find nothing otherwise |
| `Context.NothingElseCarried` | workflow/src/engine/executor.rs:216-289 | a bare key outside the allowlist comes only from the fresh context |
| `Context.FallbackNotCarried` | workflow/src/engine/executor.rs:256-289 | `issue_number` allowlisted without the key it falls back to loses that fallback on resume |
| `ClaimModel.CleanedRestores` | workflow/src/daemon/claim.rs:227-258 | removing what the receipt says was added restores labels and assignees exactly |
| `ClaimCrash.Claim.constructor` | workflow/src/daemon/claim.rs:97-136 | lease and receipt appear together, nothing marked for cleanup |
| `ClaimCrash.Claim.InspectRemoteClaim` | workflow/src/daemon/claim.rs:144-169 | what the claim will own is on the issue nowhere yet, and adding it makes the claim show; without all three settings it owns nothing |
| `ClaimCrash.Claim.ApplyRemoteClaim` | workflow/src/daemon/claim.rs:171-191 | the remote edits only add, under a receipt marked for cleanup; they succeed exactly if the calls work, and have then added just what is owned |
| `ClaimCrash.Claim.VerifyRemoteClaim` | workflow/src/daemon/claim.rs:193-225 | a claim is verified exactly when the reading works and shows label and assignee, or nothing is to be claimed |
| `ClaimCrash.Claim.CleanupRemoteClaim` | workflow/src/daemon/claim.rs:227-258 | a cleanup succeeds exactly when the reading and the removals it needs work, and leaves the issue as before the claim |
| `ClaimCrash.Claim.AbandonFailedClaim` | workflow/src/daemon/scheduler.rs:520-557 | after a failed claim the lease is Abandoned and the receipt stays marked exactly if the cleanup did not work |
| `ClaimCrash.Claim.PrepareLaunchUnit` | workflow/src/daemon/scheduler.rs:601-669 | the launch is ready exactly when every call it needs works: then the lease runs and the issue has just what was missing; otherwise it is Abandoned and restored or marked; every write on the way is covered |
| `ClaimCrash.Claim.Reconcile` | workflow/src/daemon/scheduler.rs:335-383 | a pass over a state a crash left completes exactly when the calls it needs work and gives the reconciled state; otherwise the claim stays marked |
| `ClaimCrash.CrashRestores` | workflow/src/daemon/scheduler.rs:335-383 | after any crash before Running a completed pass restores the issue; the issue is free for another claim exactly when it was before, or the flag was set |
| `ClaimCrash.PassMoves` | workflow/src/persistence/leases.rs:735-760 | which statuses polling, resuming, stale marking and an operator's continuation move a lease between, and that they touch nothing else |
| `ClaimCrash.StuckExactly` | workflow/src/daemon/scheduler.rs:335-383 | reconciling, claiming again, polling, resuming, stale marking and an operator's continuation all leave a lease alone exactly when it is Pending without the flag |
| `ClaimCrash.StaleRestores` | workflow/src/persistence/leases.rs:735-745 | marking a lease stale loses the claim's metadata exactly when it takes a Running claim that shows on the issue unmarked |
| `ClaimModel.InspectSuffices` | workflow/src/daemon/claim.rs:144-191 | what is found to be missing is new to the issue and enough for the claim to show |
| `ClaimAgain.RetakeRuleExact` | workflow/src/persistence/leases.rs:242-321 | over every sequence of claims of one issue the issue ends as before the first, exactly for rules that admit a claim only when the old receipt is unmarked or covers nothing |
| `ClaimAgain.GuardTooLax` | workflow/src/persistence/leases.rs:242-321 | taking over a claim that still shows loses its marked receipt, and no reconciliation restores what one would have restored before |
| `ClaimRace.InvPlay` | workflow/src/daemon/scheduler.rs:344-379 | the invariant of launcher and reconcilers over every interleaving of their single reads and writes |
| `ClaimRace.RaceSettles` | workflow/src/daemon/scheduler.rs:335-383 | when all have finished, the lease is Running and the claim shows, or the lease is Abandoned and the issue is as before |
| `ClaimRace.OneWinner` | workflow/src/daemon/scheduler.rs:641-658 | the two compare-and-sets out of Claimed never both succeed |
| `RaceProgress.LaunchesUnlessBeaten` | workflow/src/daemon/scheduler.rs:601-669 | if every call works and no reconciler takes the lease, seven steps of the launcher reach Running with just what was missing on the issue, however interleaved |
| `RaceProgress.GivesUpOnlyIf` | workflow/src/daemon/scheduler.rs:617-658 | the launcher gives up only if a call did not work or a reconciler took the lease |
| `RaceProgress.MarkedBeforeEdited` | workflow/src/daemon/scheduler.rs:601-669 | in every state of every interleaving an issue that is not as before the claim has a running lease or a marked receipt, or a reconciler has taken the lease |
| `RaceProgress.LauncherEnds` | workflow/src/daemon/scheduler.rs:601-669 | thirteen steps finish the launcher in every interleaving |
| `RaceProgress.CanFinish` | workflow/src/daemon/scheduler.rs:335-383 | from every state an interleaving reaches, all can still finish |
| `RaceProgress.ReconcilerAlone` | workflow/src/daemon/scheduler.rs:335-383 | a marked claim whose launcher is gone is cleaned up and freed by one reconciler's seven steps |
| `ClaimLimit.AdmittedWithinLimit` | workflow/src/daemon/claim.rs:43-64 | in every interleaving of any number of claimers, active leases whose claim passed the count never exceed the config's limit |
| `ClaimLimit.SettledWithinLimit` | workflow/src/daemon/claim.rs:43-64 | when no claimer is between claim and verdict and nothing was resumed, all active leases of the config are within the limit or no more than at the start |
| `ClaimLimit.LosersSpare` | workflow/src/daemon/claim.rs:50-64 | a claimer that does not get its issue changes nothing; one that gives up frees only the lease it was issued |
| `ClaimRetreat.PeakExact` | workflow/src/daemon/claim.rs:53-64 | in between, the active leases stay within a bound in every interleaving exactly when it covers those at the start and the wanted issues together |
| `ClaimRetreat.NobodyInExactly` | workflow/src/daemon/claim.rs:57-64 | some interleaving, even of the claimers alone, turns every claimer of distinct free issues away exactly when active and wanted together exceed the limit |
| `Leases.WriteCount` | workflow/src/persistence/leases.rs:697-728 | writing one lease moves each of the three active counts by exactly what it gave and now gives |
| `Routing.ResumeConfigTargets` | workflow/src/daemon/scheduler.rs:425-475 | the resume map holds, for each id, the first target of that id, or else the first that derives it |
| `Routing.ParentLaunchDiscoveries` | workflow/src/daemon/scheduler.rs:749-773 | the launch map holds, for each id, the last target of that id, or else the first that derives it |
| `Routing.DerivedSettings` | workflow/src/daemon/scheduler.rs:775-792 | settings derived for a parent are the child's with the child's limit as their own, refused exactly when that does not fit 32 bits |
| `Routing.MapsAgree` | workflow/src/daemon/scheduler.rs:425-475 | both maps agree exactly when first and last target of every id carry the same settings |
| `Routing.DistinctIdsAgree` | workflow/src/daemon/scheduler.rs:749-773 | for distinct target ids both maps agree on every config id |
| `Routing.DirectWins` | workflow/src/daemon/scheduler.rs:457-475 | a target's own settings override derived ones wherever it stands in the list |
| `Routing.ClaimRepositoryExact` | workflow/src/daemon/scheduler.rs:709-722 | the settings looked up for an id keep every tied target in its own repository, whether or not it routes, exactly when all of them share one |
| `Routing.ClaimsMadeAtHome` | workflow/src/daemon/scheduler.rs:709-722 | every issue launched under an id is claimed in the repository it was found in exactly when all targets that launch under it stand in the repository of the target its settings come from |
| `Capacity.LimitsCoverTargets` | workflow/src/daemon/scheduler.rs:796-819 | each of the three limits is no smaller than any target's own, and is some target's own or the default |
| `Capacity.LargestSet` | workflow/src/daemon/scheduler.rs:796-819 | the largest set value: an upper bound that is one of the values |
| `Capacity.Scheduler.CollectResumeUnits` | workflow/src/daemon/scheduler.rs:385-423 | the resume loop computes the specified sequence of lease tables and the units handed on |
| `Capacity.Scheduler.PrepareLaunchUnit` | workflow/src/daemon/scheduler.rs:601-669 | the launch of one issue takes its lease through the specified tables, on every failure path |
| `Capacity.Scheduler.CollectLaunchUnits` | workflow/src/daemon/scheduler.rs:671-707 | the launch loop computes the specified sequence of lease tables, and every issue counted as eligible is launched, skipped or failed |
| `Capacity.Scheduler.RunPass` | workflow/src/daemon/scheduler.rs:312-333 | resume first, then launch |
| `Capacity.PassStaysWithinCapacity` | workflow/src/daemon/scheduler.rs:385-423 | at no write of a pass is more active than the limit or than at the start: in all, per config, and, for what discovery can find, per repository no target launches away into |
| `Capacity.DispatchedOnce` | workflow/src/daemon/scheduler.rs:312-333 | a pass hands no issue on for dispatch twice, and every issue it hands on holds a Running lease |
| `Capacity.ResumeIsGreedy` | workflow/src/daemon/scheduler.rs:397-420 | after the resume loop no valid ready lease of any config is left where there is still room |
| `Capacity.LaunchedExactly` | workflow/src/daemon/claim.rs:53-64 | an issue is launched exactly when all counts leave room, its lease is free, its claim goes through and the config's own limit (1 if unset) is not reached |
| `PassLaws.LaunchOutcomes` | workflow/src/daemon/scheduler.rs:601-669 | which of the three outcomes a launch has, and the lease it leaves: Running, Abandoned, or Claimed exactly when the active leases could not be counted |
| `PassLaws.NotLaunchedRestores` | workflow/src/daemon/scheduler.rs:544-551 | a launch that does not succeed leaves every count as it was and the issue as free as it was, exactly unless the count failed |
| `PassLaws.LaunchTallies` | workflow/src/daemon/scheduler.rs:690-703 | each launch is counted once, as handed on, skipped or failed |
| `PassLaws.PassChanges` | workflow/src/daemon/scheduler.rs:312-333 | over a whole pass every lease is left alone, resumed if ready and valid, launched if free, or given up again |
| `PassLaws.HandsOnExactly` | workflow/src/daemon/scheduler.rs:385-423 | a pass hands on exactly the issues it moves to Running, as resumed exactly if they were ready to resume |
| `RepositoryLimit.RepositoryLimitExact` | workflow/src/daemon/scheduler.rs:601-669 | every pass from every table with leases at home, on finds within the room, the filters and the routing of each target, keeps a repository's limit exactly when no target launches away into it |
| `DiscoveredLimit.DiscoveredLimitExact` | workflow/src/daemon/scheduler.rs:671-707 | the same for the finds of the discovery pass itself, over everything the tracker can answer and list |
| `DiscoveredLimit.ReturnsCanBeFound` | workflow/src/daemon/discovery.rs:241-307 | whatever the tracker answers, discovery returns issues free in the target's repository, routed only by a routing target, within the room, and none that the filters rule out |
| `DiscoveredLimit.ParentCanBeReturned` | workflow/src/daemon/discovery.rs:241-307 | a parent issue that this allows is returned for some answers of the tracker |
| `RepositoryLimit.AwayPassesLimit` | workflow/src/daemon/scheduler.rs:610-616 | for any targets of which one launches away, a table at home and one parent issue found within the room take the repository past its limit |
| `Milestones.VersionReadBack` | workflow/src/daemon/discovery.rs:204-215 | a title spelling a version of any number of parts, after any run of the leading letters, is read as that version; missing parts count as 0 and those past the third are ignored |
| `Milestones.OrderedIsSorted` | workflow/src/daemon/discovery.rs:219-230 | issues are ordered by version, then number, or by number alone |
| `Milestones.BeforeIsOrder` | workflow/src/daemon/discovery.rs:219-230 | that order is total and transitive |
| `Milestones.VersionsInOrder` | workflow/src/daemon/discovery.rs:219-230 | of two issues with versions the one with the smaller first differing part stands first; equal versions go by number |
| `Milestones.VersionsFirst` | workflow/src/daemon/discovery.rs:204-230 | an issue with a version stands before one without; issues without, and all issues when not ordered by version, go by number |
| `Discovery.LookupCache.ParentIssue` | workflow/src/daemon/discovery.rs:380-392 | the cached answer is the tracker's; an answered number is not asked for again, a failed one is |
| `Discovery.LookupCache.SubIssues` | workflow/src/daemon/discovery.rs:394-406 | the same for sub-issues |
| `Discovery.JudgeIssue` | workflow/src/daemon/discovery.rs:259-286 | the filters in their order, through the cache, give the judgement defined without it |
| `Discovery.Discover` | workflow/src/daemon/discovery.rs:241-307 | the pass fails exactly when the tracker fails on an issue that reaches it; otherwise the eligible issues are the first fit ones up to the limit and every other issue is skipped with a reason that applies |
| `Discovery.EveryIssueOnce` | workflow/src/daemon/discovery.rs:241-307 | of distinct listed issues each ends up eligible or skipped, never both or twice, and nothing else does |
| `Discovery.EligibleWithinLimitInOrder` | workflow/src/daemon/discovery.rs:241-307 | eligible plus active stays within the limit unless the limit was passed before; eligible issues are in order |
| `Discovery.NoneJumpsTheQueue` | workflow/src/daemon/discovery.rs:286-291 | no issue passed over for the limit belongs before an eligible one |
| `Discovery.PassedFilters` | workflow/src/daemon/discovery.rs:150-202 | exactly which issues the filters let through |
| `Discovery.EligibleIsClaimable` | workflow/src/persistence/leases.rs:95-125 | an eligible issue's lease is one the claim guard lets through |
| `DiscoveryLaws.RoutedExactly` | workflow/src/daemon/discovery.rs:416-432 | an eligible issue carries the parent workflow and config exactly if the target routes and the tracker knows a child of it, and otherwise neither |
| `DiscoveryLaws.ReasonsApply` | workflow/src/daemon/discovery.rs:150-202 | every skipped issue has a reason that is true of it, reason by reason |
| `DiscoveryLaws.FailsExactly` | workflow/src/daemon/discovery.rs:241-307 | the pass fails on an issue exactly when a question fails that no cheaper filter makes needless |
| `DiscoveryLaws.EligibleOrder` | workflow/src/daemon/discovery.rs:219-230 | eligible issues come by number if the milestone order is none, and by version otherwise |
| `Glob.MatchesSegment` | workflow/src/adapters/workflow_auth_preflight.rs:116-153 | the greedy matcher is true exactly when the text splits into the pattern's pieces with any text at each star |
| `Glob.MatchMiddle` | workflow/src/adapters/workflow_auth_preflight.rs:138-147 | leftmost matching of the middle pieces loses no match and stays in range |
| `Glob.LeftmostSuffices` | workflow/src/adapters/workflow_auth_preflight.rs:138-147 | taking the leftmost occurrence of a piece keeps whether the rest can match |
| `Glob.FinalSuffix` | workflow/src/adapters/workflow_auth_preflight.rs:148-153 | the last piece is a suffix test |
| `Glob.SegmentsMatchWhole` | workflow/src/adapters/workflow_auth_preflight.rs:104-114 | comparing segment by segment is matching the whole path with stars that never cross a slash |
| `Glob.MatchesPathSegments` | workflow/src/adapters/workflow_auth_preflight.rs:104-114 | the segment-wise matcher decides exactly that |
| `Glob.MatchesWorkflowPattern` | workflow/src/adapters/workflow_auth_preflight.rs:89-102 | what a configured pattern accepts, after quotes are trimmed |
| `Glob.QuotesTrimmed` | workflow/src/adapters/workflow_auth_preflight.rs:89-92 | all quotes around a path are taken off, and nothing else |
| `Glob.DirectoryShortcutExact` | workflow/src/adapters/workflow_auth_preflight.rs:89-102 | the trailing double star means everything below exactly when the directory holds no star |
| `Porcelain.ParsePorcelainPaths` | workflow/src/adapters/workflow_auth_preflight.rs:228-244 | the loop yields the paths named by the NUL-terminated pieces |
| `Porcelain.PrintParseRoundTrip` | workflow/src/adapters/workflow_auth_preflight.rs:228-275 | parsing a printed report gives every path in order exactly when each rename or copy is in the index column |
| `Porcelain.EntryReadBack` | workflow/src/adapters/workflow_auth_preflight.rs:246-275 | such an entry is read back as new path then old path |
| `Porcelain.EntryMisread` | workflow/src/adapters/workflow_auth_preflight.rs:246-275 | any other rename or copy is never read back |
| `Templates.SequentialIsFill` | workflow/src/engine/executor.rs:417-432 | for names and values without braces, replacing one name after the other fills all groups at once, for templates without nested groups or in an order that is safe |
| `Templates.SinglePassExact` | workflow/src/engine/executor.rs:417-432 | for names and values without braces, over all templates an order is a single pass exactly when no value is part of a name replaced later |
| `Templates.ValueReplacedAgain` | workflow/src/engine/executor.rs:417-432 | a value with braces can be taken for a token and replaced again |
| `Rescan.RescanExact` | workflow/src/engine/executor.rs:417-432 | for names without braces and any values, every replacement acts as in a single pass on every template without nested groups exactly when no later token can start in an earlier value |
| `Rescan.ApartExact` | workflow/src/engine/executor.rs:417-432 | for names without braces and any values, every replacement acts as in a single pass on every template, nested ones too, exactly when no earlier value touches a later token |
| `Rescan.FinalTextHides` | workflow/src/engine/executor.rs:417-432 | the final text alone tells less: a value in which a token starts can come out right, on every template, when a later replacement undoes it |
| `KeyOrders.CollectKeys` | workflow/src/engine/executor.rs:375-421 | the keys come source by source as the hash maps give them, the same map in the same order each time, each name once after the dotted ones, then stably longest first |
| `KeyOrders.KeyOrderKeys` | workflow/src/engine/executor.rs:375-417 | every such order visits exactly the dotted, bare, flat and built-in keys |
| `KeyOrders.SortPrecedes` | workflow/src/engine/executor.rs:419-421 | the sort puts one key before another exactly when it is longer, or as long and came before |
| `KeyOrders.PrecedesExactly` | workflow/src/engine/executor.rs:375-421 | some order visits one key before another exactly when it is longer, or as long and from no later source; before itself only when several steps spell it |
| `Interpolation.InterpolateString` | workflow/src/engine/executor.rs:375-432 | the result is the replacement of all keys in an order the collection can give; with brace-free keys it is the simultaneous substitution by lookup if no value touches a token, or without nested groups if no token can start in a value |
| `Interpolation.ResolvedIsCollected` | workflow/src/engine/executor.rs:256-289 | every key the lookup can resolve is among the collected ones |
| `Interpolation.InterpolationSubstitutes` | workflow/src/engine/executor.rs:375-432 | for brace-free keys and values and templates without nested groups, the result is the simultaneous substitution by lookup, whatever the map order |
| `Interpolation.InterpolationSinglePass` | workflow/src/engine/executor.rs:375-432 | for brace-free keys and values, over all templates a given collected order makes a single pass exactly when no value is part of a resolvable key visited later |
| `Interpolation.SinglePassInEveryOrder` | workflow/src/engine/executor.rs:375-432 | for brace-free keys and values, over all templates every order the collection can give makes a single pass exactly when no value in the context is part of a key that some order visits later |
| `Interpolation.StagesInEveryOrder` | workflow/src/engine/executor.rs:375-432 | for brace-free keys and any values, every replacement of every order acts as in a single pass on templates without nested groups exactly when no token of a key that some order visits later can start in a value |
| `Interpolation.AllStagesInEveryOrder` | workflow/src/engine/executor.rs:375-432 | the same on all templates, nested ones too, exactly when no value touches such a token at all |
| `Interpolation.ApartSubstitutes` | workflow/src/engine/executor.rs:375-432 | then every template comes out as its simultaneous substitution by lookup |
| `Interpolation.SafeSubstitutes` | workflow/src/engine/executor.rs:375-432 | if no token can start in a value, templates without nested groups come out as their simultaneous substitution by lookup |
| `Interpolation.BraceFreeIsSafe` | workflow/src/engine/executor.rs:417-432 | in contexts without braces in keys and values no token can start in a value |
| `ConfigTokens.HasUnresolvedConfigToken` | workflow/src/app/config_tokens.rs:23-48 | the scanner decides whether some brace pair, read left to right, encloses a token name |
| `ConfigTokens.ScannerOnNeat` | workflow/src/app/config_tokens.rs:23-48 | on text with braces only around names it reports exactly the groups that look like tokens |
| `ConfigTokens.InterpolateConfigVariables` | workflow/src/app/config_tokens.rs:3-21 | the loop computes the rounds over the variables, stopping early when one changes nothing |
| `ConfigTokens.SpliceKeepsExpansion` | workflow/src/app/config_tokens.rs:3-21 | every replacement keeps the recursive expansion of the text |
| `ConfigTokens.RoundDrops` | workflow/src/app/config_tokens.rs:3-21 | every round keeps the expansion and loses the highest rank |
| `ConfigTokens.ExpansionComplete` | workflow/src/app/config_tokens.rs:3-21 | with acyclic variables and no nested braces the value is the full expansion in every map order, refused only when a token is left in it |
| `ConfigTokens.DefinedTokensExpand` | workflow/src/app/config_tokens.rs:3-21 | with every token defined the result is Ok with the full expansion in every map order |
| `ConfigVerdicts.RoundsVerdict` | workflow/src/app/config_tokens.rs:3-21 | the value is that of all rounds, and it is refused exactly when every round changes the text and a token is left |
| `ConfigVerdicts.ResolvedExactly` | workflow/src/app/config_tokens.rs:3-21 | every map order gives Ok without a token exactly when no chain of references from the text to a token repeats a name or ends undefined |
| `ConfigVerdicts.SettledTokenNames` | workflow/src/app/config_tokens.rs:3-48 | when all variables are named like tokens, that is: references do not loop and none is undefined |
| `ConfigVerdicts.ResolvedInEachOrder` | workflow/src/app/config_tokens.rs:3-48 | for such variables every single order gives Ok without a token exactly then |
| `ConfigVerdicts.AcceptedInEveryOrder` | workflow/src/app/config_tokens.rs:3-21 | without loops, every order is accepted exactly when no undefined token is referred to or no chain runs through all variables |
| `ConfigVerdicts.VerdictSameInAllOrders` | workflow/src/app/config_tokens.rs:3-21 | without loops, all orders give the same verdict exactly when no undefined token is referred to, no chain runs through all variables, or there is one variable |
| `ConfigVerdicts.OrdersDiffer` | workflow/src/app/config_tokens.rs:3-21 | otherwise the order of that chain is accepted and its reverse is refused |
| `Attempts.AttemptStore.RecordAttemptStart` | workflow/src/persistence/attempts.rs:186-225 | a start appends one row under an id larger than all before and leaves the other rows alone |
| `Attempts.AttemptStore.AppendAttemptOutcome` | workflow/src/persistence/attempts.rs:234-282 | an outcome is taken exactly once for a recorded attempt; anything else is refused and changes nothing |
| `Attempts.AttemptStore.LatestForStep` | workflow/src/persistence/attempts.rs:290-313 | the newest finished attempt of a step with the snapshot its outcome recorded; none exactly when there is none |
| `Attempts.AttemptStore.LoadUnfinalizedForOperation` | workflow/src/persistence/attempts.rs:342-363 | found exactly when some start of the operation lacks an outcome, and then the newest such |
| `Attempts.RowsVerify` | workflow/src/persistence/attempts.rs:374-386 | every stored row's digest matches its bytes and reads back as last recorded |
| `Attempts.RowsTell` | workflow/src/persistence/attempts.rs:186-282 | each row has the identity of its start, status started until its outcome, then that outcome's columns; the epoch is clamped to a signed 64-bit column |
| `Attempts.HistoryPreserved` | workflow/src/persistence/attempts.rs:186-282 | over every sequence of calls nothing recorded is lost or changed and new ids are larger |
| `Attempts.RowsFrozen` | workflow/src/persistence/attempts.rs:234-282 | identity and capsule columns never change; a finished row is frozen |
| `Envelope.BuildEnvelopeFrame` | workflow/src/engine/recovery/capsule.rs:221-241 | the buffer is the four versions followed by the six length-prefixed fields |
| `Envelope.FrameInjective` | workflow/src/engine/recovery/capsule.rs:221-241 | equal frames come from equal fields when lengths fit 32 bits |
| `Envelope.InjectiveExactly` | workflow/src/engine/recovery/capsule.rs:221-241 | frames over fields of up to a given length are unambiguous exactly when that length fits 32 bits |
| `Launches.SealBinds` | workflow/src/engine/recovery/capsule.rs:331-345 | two sealed capsules with one digest have equal authority fields, or their frames collide under the digest |
| `Launches.SealedExactly` | workflow/src/engine/recovery/capsule.rs:331-345 | the accepted capsules are just those sealed under the supported versions |
| `Launches.LaunchStore.PersistCapsule` | workflow/src/persistence/capsule_store.rs:81-121 | a capsule is inserted only when sealed and new; nothing stored is overwritten |
| `Launches.LaunchStore.PersistLaunchAtomically` | workflow/src/persistence/capsule_store.rs:284-346 | run row and capsule are both added or neither is, with a fault possible at each step |
| `Launches.LaunchStore.LoadCapsule` | workflow/src/persistence/capsule_store.rs:131-171 | what was persisted is what is loaded, for every run id |
| `Launches.CheckRow` | workflow/src/persistence/capsule_store.rs:187-211 | a row is accepted exactly when its JSON decodes, agrees with every checked column and is sealed |
| `Launches.ColumnsExactly` | workflow/src/persistence/capsule_store.rs:187-211 | a row fits a capsule exactly when it is the one written for it, up to the creation time and multiples of 2^32 in the versions |
| `Launches.LaunchAddsBoth` | workflow/src/persistence/capsule_store.rs:284-346 | a launch adds both rows exactly for a sealed, encodable capsule with no fault and two new ids, and otherwise nothing |
| `Launches.LaunchPairs` | workflow/src/persistence/capsule_store.rs:284-346 | a launch keeps runs and capsules paired exactly when it fails or both carry one run id |
| `Launches.LaunchesPairedAndFrozen` | workflow/src/persistence/capsule_store.rs:284-346 | over every sequence of such launches a run row exists exactly when its capsule does, and neither changes |
| `Supervision.BackoffExact` | workflow/src/monitor/process.rs:234-250 | when the 64-bit delay is the capped doubling |
| `Supervision.BackoffGrows` | workflow/src/monitor/process.rs:234-250 | while the doubling fits, delays never shrink and never pass the cap |
| `Supervision.BackoffCollapses` | workflow/src/monitor/process.rs:234-250 | restart 65 of a one-second backoff waits not at all |
| `SupervisionLaws.BackoffFixed` | workflow/src/monitor/process.rs:234-250 | any other strategy waits the initial delay each time |
| `Supervision.Monitor.SpawnWorkerCommand` | workflow/src/monitor/mod.rs:196-218 | a started worker is tracked from zero restarts and listed; a failed start records nothing |
| `Supervision.Monitor.SpawnWorker` | workflow/src/monitor/mod.rs:163-188 | the worker id is the next in sequence and is listed even when the start failed |
| `Supervision.Monitor.TryRespawnWorker` | workflow/src/monitor/mod.rs:327-355 | a restart is counted before it is tried and refused at the limit |
| `Supervision.Monitor.Retire` | workflow/src/monitor/mod.rs:359-370 | a retired worker is untracked and unlisted, and degrades the monitor at its limit |
| `Supervision.Monitor.SuperviseTick` | workflow/src/monitor/mod.rs:259-299 | the pass over exited workers, ended early by a restart that cannot be started |
| `Supervision.Monitor.Shutdown` | workflow/src/monitor/mod.rs:373-389 | shutdown clears everything |
| `Supervision.RunKeeps` | workflow/src/monitor/mod.rs:235-389 | every command keeps: tracked workers listed once, restarts within the limit and after the delay their number asks for, lifecycle as the log says |
| `Supervision.SupervisionBounded` | workflow/src/monitor/mod.rs:290-355 | over every run no tracked worker is started more than max_restarts + 1 times, and its delays never shrink or pass the cap while the largest doubling fits |
| `Supervision.DegradedExactly` | workflow/src/monitor/mod.rs:359-389 | Degraded exactly when not shut down and some worker was retired at its limit, however long ago |
| `Supervision.TrackedAreListed` | workflow/src/monitor/mod.rs:235-246 | tracked workers are in the active list, which has no duplicates |
| `Supervision.TickDegradesExactly` | workflow/src/monitor/mod.rs:259-370 | a completed pass over exited workers degrades the monitor exactly when one of them was at its restart limit, whatever the policy and exit |
| `SupervisionLaws.TickRestartsExactly` | workflow/src/monitor/mod.rs:259-355 | a pass restarts exactly the exited workers that are tracked, below their limit and to be restarted by the policy, and retires all others; it ends early exactly at the first restart that cannot be started |
| `SupervisionLaws.SpawnTracks` | workflow/src/monitor/mod.rs:163-188 | a spawned worker that starts is tracked from zero under the next number; one that does not is only listed |
| `SupervisionLaws.SpawnCommandTracks` | workflow/src/monitor/mod.rs:196-218 | a command that starts is tracked and listed; one that does not changes nothing |
| `SupervisionLaws.NumbersInOrder` | workflow/src/monitor/mod.rs:163-188 | over every run the spawned workers are numbered in order |
| `SupervisionLaws.ShutdownIsFinal` | workflow/src/monitor/mod.rs:373-389 | a shutdown leaves nothing tracked or listed, stays, and supervises nothing any more |

## Left out

- The network, SQLite, serde and SHA-256: remote calls answer at will, tables are maps or lists with transactions as atomic steps, codecs round-trip by assumption, digests are uninterpreted.
- Clocks, UUIDs and heartbeats: times are numbers passed in, ids are fresh numbers; the newest checkpoint is the one saved last, so equal timestamps do not arise.
- Unicode: strings are characters with ASCII case folding and ASCII white space.
- Hash-map order is a parameter of the models that depend on it; where the theorem is for all orders it says so.
- Engine: retry counters, wait records, the merge-required completion check, registry metadata, traces and the text of failure reasons are not modelled. That text reads a context key a checkpoint does not carry.
- Engine: executors reach the context through `set` only, not by writing its maps.
- Resumption.InterruptsInvisible: interrupts while a failed cleanup is pending are left alone, because a resume then goes to the cleanup step by design.
- Resumption.SegmentsBounded: stops counting once a failed cleanup is pending, because the counters are then set back to those of the failed step and the cleanup may run again in every process.
- ClaimCrash.CrashRestores: for one scheduler. With a second one a reconciler may clear the flag while the launcher is still adding, so the statement would be false.
- ClaimCrash: a remote issue that vanishes while it is claimed is not modelled, nor is the metadata of a claim once its lease runs; that of a failed run is cleaned up by the dispatch.
- ClaimAgain.RetakeRuleExact: for claims that ended before Running, whose issue nobody else changes.
- ClaimRace.RaceSettles: remote removals succeed and no process crashes.
- ClaimLimit.SettledWithinLimit: resumes are excluded, because they are admitted by the scheduler's capacity check and not by the count after claiming; Capacity.PassStaysWithinCapacity is about those.
- Capacity.PassStaysWithinCapacity: for one scheduler and distinct target ids; marking leases stale, waits that become ready and dispatching the collected units happen outside the pass modelled.
- Capacity.Scheduler.CollectLaunchUnits: the paths and query of a dispatch unit are not kept.
- ConfigVerdicts.VerdictSameInAllOrders: for references that do not loop. Round a loop the rounds can go on changing the text in one order and stand still in another; what is stated there, by ConfigVerdicts.ResolvedInEachOrder, is that a token is left whichever way it goes.
- Interpolation.AllStagesInEveryOrder: about every replacement. When values hold braces and a later replacement undoes an earlier one, the final text alone can still be a single pass; those cases are shown by Rescan.FinalTextHides and not characterised. Keys that hold braces themselves are excluded.
- ConfigVerdicts.ResolvedExactly: for values and text without nested groups.
- ClaimRetreat.NobodyInExactly: resumes are excluded here too.
- Capacity.Scheduler.PrepareLaunchUnit: the remote part of a claim is one outcome here; its single writes are in ClaimCrash and ClaimRace.
- Discovery: errors of the tracker carry no text, and routing failures carry no message.
- Milestones.OrderedIsSorted: the library sort is a function; that equal issues keep their places is not stated, since issue numbers are distinct.
- Attempts: a failed start may leave gaps in the ids, which the caller chooses; the largest 64-bit id is not reached.
- Launches.CheckRow: versions are 32-bit columns read back by truncation; the creation time is stored but, as in the source, not checked.
- Supervision: memory limits only signal the child, which then counts as exited; the last exit code is not kept because nothing reads it. Order of the exited workers is arbitrary.
- Loop bodies written as methods of their own (`OneRound`, `LoopBody`, `MatchMiddle`, `ScanOne`, `ReplaceEach`, `ResumeLeases`, `LaunchEligible`, `LaunchIssue`, `Consider`, `SettleOutcome`) are part of one function in the source; they are split to keep proofs small.
- `daemon/poller.rs`, `daemon/launcher.rs`, dispatch and finalization, `engine/workspace_ownership.rs`, `app/wait_state.rs`, `engine/continuation.rs`: calls out to code modelled by its answers only.
- The PID lock file: its removal and re-creation keep no exclusion that could be stated.
- Command line, status rendering, service install, sockets, tool contracts, runtime paths, executor bundles: input, output and easy case analysis.
