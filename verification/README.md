# A verified model of the factory's protocols

This project models the staged and transactional protocols of Dark Factory in Dafny and proves what
each of them keeps: the project adoption transaction, the gate, rebase, review and delivery pipeline, the
plan slices, the resumable bootstrap, the redeploy run, the ledger snapshot, the telemetry tracker and the
complexity ratchet. `dafny verify dfyconfig.toml` checks everything.

Everything outside the code that is modelled (agents, git, the gate's processes, clocks, the owner's
cancellation, the network) is a `World` of answers that may be anything at every moment. Where the source
loops over such an environment, the model is a method over a world that also returns a trace of events;
the properties are proved of every trace that the rules of `Follows` allow, and the methods are proved to
produce only such traces. Where the source changes files or fields, the model is a class whose methods
state the whole new state; where it computes, the model is a function.

| module | what it models |
|---|---|
| `AgentsBlock`, `AgentsText` | the bounded block inside `AGENTS.md`, for any pair of markers and for the source's own |
| `Adoption`, `AdoptionApply`, `AdoptionLaws`, `AdoptionHistory`, `AdoptionVerify`, `AdoptionExamples` | plan, apply with an undo log, atomicity, what an adoption leaves behind, verification, histories, and calls that lose something |
| `GateTrace`, `Gate` | the gate loop and its attempts log |
| `Rebase` | settling a rebase that stopped on conflicts |
| `DeliveryTrace`, `Delivery` | the delivery pipeline, with the gate loop and the rebase inside |
| `BuildSlices` | the slices of a plan, each on a freshly chosen harness |
| `Bootstrap`, `BootstrapRun` | the five-step bootstrap, and runs of it that may end anywhere |
| `EnvText`, `Waiting`, `Redeploy` | the environment rewriter, the wait loops, and the redeploy run with its four flags |
| `Snapshot`, `SnapshotRaces` | one snapshot run, and any interleaving of runs and other writers |
| `Observability` | cached metrics beside an append-only ledger |
| `Ratchet` | the complexity baseline and any history of its runs |

Automatic induction is switched off on every lemma: where a proof is by induction, its body says so.

A content hash is ideal: `Sha256` is a constructor, so equal digests mean equal contents. A lock's digest
may also be an arbitrary text. A lock's key is a `Name`: the path it denotes once joined to the target, and
the spelling that joining drops (`./`, a doubled `/`), so two keys may name one file.

## Where the code does not do what it promises

Each of these is proved with the exact condition under which the promise does hold.

- An adoption rolls back completely if and only if the old lock gives no file two owners: no existing file is
  listed under two names that the bundle does not have, and none under one such name that the bundle, or the
  block, is to replace as well (`AdoptionLaws.AdoptionIsAtomic`). Otherwise the file is written twice, its
  second entry in the undo log overwrites the first, and some failure loses it
  (`AdoptionLaws.TwiceOwnedIsLost`; `AdoptionExamples.OutdatedAgentsExample`, `AdoptionExamples.AliasExample`).
  This is about failures, that is exceptions: an interrupt that is none (KeyboardInterrupt, SystemExit) ends the
  loop without the rollback and leaves exactly the files whose turn had come changed
  (`AdoptionHistory.InterruptedTreeIs`).
- A successful adoption keeps what the project owns if and only if the old lock does not claim it: a listed
  `MISSION.md`, `FACTORY_RULES.md` or `harness.config.json` is removed, a listed up-to-date `AGENTS.md` is
  removed, and a listed outdated one loses the text around its block (`AdoptionHistory.NoProjectByteIsLost`,
  `AdoptionHistory.GovernanceStaysExactly`; `AdoptionExamples.ListedMissionExample`).
- A project that was just adopted verifies if and only if the old lock did not list a file of the bundle under
  another name, the harness, or an up-to-date `AGENTS.md` (`AdoptionVerify.AdoptedVerifiesExactly`;
  `AdoptionExamples.ListedAgentsExample`). A bundle adopted after the service's own lock always verifies
  (`AdoptionVerify.LastBundleWins`).
- One end marker before one start marker makes the merge and the verification raise instead of reporting a
  blocker, and no other text makes them raise (`AgentsBlock.MergeCrashesExactly`,
  `AgentsBlock.ExtractCrashesExactly`; `AgentsBlock.SwappedMarkersCrash`). Planning raises exactly on such a file
  and on a harness whose steps are a number or `true` (`Adoption.PlanAdoption`).
- A rebase that git never started, or that the agent gave up, is reported as rebased
  (`Rebase.SettlementIsExact`), and a replay that ends in the last allowed iteration is not noticed, so the
  agent is called for nothing (`Rebase.LastIterationGoesUnnoticed`).
- The cost of a build compares readings of two harnesses when the last agent worked on another harness than
  it started on (`BuildSlices.CostComparesOneHarness`).
- An interrupted bootstrap converges if and only if the address the provider reports for an existing
  repository is the one it gave at creation, or neither suits the origin there is
  (`Bootstrap.CreationKeepsGoalExactly`). A local repository whose creation was cut off fails every later push
  (`Bootstrap.HalfMadeRepositoryIsStuck`).
- The bootstrap overwrites a local branch if and only if it comes as far as the branch with a commit on another
  branch than the default one, which exists already with another commit
  (`Bootstrap.LocalBranchIsLostExactly`; `Bootstrap.LostBranchExample`).
- The bootstrap does overwrite what the project's own registry entry says: its setup, build and smoke commands
  are lost if and only if the run comes to write the entry, the entry has no validate list, and they are not the
  commands of the run (`Bootstrap.EntryListIsLostExactly`; `Bootstrap.LostListExample`). Cut-off runs lose no other
  list (`BootstrapRun.CutOffLosesListExactly`).
- Setting an environment variable is idempotent, and leaves one line for it, if and only if the name has no
  `=` and no outer blanks (`EnvText.IdempotentExactly`, `EnvText.SetsExactlyOnce`).
- An event that could not be appended to the telemetry ledger is counted anyway, unless it leaves no mark: an
  uncounted kind, an absent number, no new maximum, no cost, or a status already recorded
  (`Observability.FailedWriteAgreesExactly`; `Observability.FailedWriteExample`). A limit of zero or less still
  returns the newest event, if it matches.
- A ratchet entry below the limit, which only an edit by hand can make, is dropped by the next update and
  its function may grow again (`Ratchet.UpdateTightensExactly`).
- A gate has seen what is published, with no agent's fix since, if and only if: after a fix that the review asked
  for, the gate is not skipped; otherwise, the gate step rested on a gate (a validation on file that a gate wrote
  for this candidate, or, without any on file, a gate that is not skipped) and the documentation check found no
  violation (`Delivery.PublishedSeenExactly`). So a documentation fix, `--skip-validation`, and the validation that
  an earlier run with that option left on file each publish a tree that no gate has seen
  (`Delivery.DocsFixExample`, `Delivery.SkipExample`, `Delivery.SkipOnFileExample`).
- A service is selected as code-bearing without regard to case, but its title is compared by the name as it is
  written: the check covers every code-bearing deployment if and only if each is written in lower case, or the
  candidate has no subject (`Redeploy.TitlesAreCheckedExactly`; `Redeploy.CapitalsExample`).
- The exit for dirty checkouts also covers a VPS that is missing or excluded: the VPS is then unconverged and
  there is no backup (`Redeploy.DirtyExitMeans`; `Redeploy.DirtyWithoutVpsExample`).
- A redeploy says that all is well without deploying anything, also of the other services selected, if and only if
  the Hub is among them, is waited for and not forced, and the candidate leaves its image untouched
  (`Redeploy.NothingIsDeployedExactly`; `Redeploy.UntouchedImageExample`).

## Model

| member | source | states |
|---|---|---|
| AgentsBlock.FindIsFirst | core/adoption/service.py:349-355 | the model's text search returns the leftmost occurrence, and none only when there is none |
| AgentsBlock.MergeIsDefined | core/adoption/service.py:347-358 | a merge succeeds exactly on files with no marker or one ordered pair of markers |
| AgentsBlock.MergeCrashesExactly | core/adoption/service.py:347-354 | it raises exactly on one marker of each kind in the wrong order; what is left is refused as malformed |
| AgentsBlock.ExtractCrashesExactly | core/adoption/service.py:748-757 | the extraction raises on exactly the same files and finds a block exactly between ordered markers |
| AgentsBlock.SwappedMarkersCrash | core/adoption/service.py:349-353 | a file of the two markers alone, the end first, is such a file |
| AgentsBlock.SurroundingsOf | core/adoption/service.py:347-358 | two merges of one file with different blocks differ in the block only |
| AgentsBlock.MergeReplacesOnlyTheBlock | core/adoption/service.py:340-358 | merging keeps all text around the block up to the blanks before it, reads back as the block, and merging again replaces only the block |
| AgentsBlock.FreshFileSettlesAfterOneMerge | core/adoption/service.py:342-355 | a file created from nothing reads back its block and reaches its fixed point one merge later |
| AgentsBlock.MergeOfMarked | core/adoption/service.py:351-354 | on a file with ordered markers the merge replaces what lies between them |
| AgentsBlock.MergeOfUnmarked | core/adoption/service.py:355-357 | on a file without markers the merge appends the block |
| AgentsBlock.ExtractOfMarked | core/adoption/service.py:748-757 | extraction returns exactly the marked block |
| AgentsBlock.FrameReadsBack | core/adoption/service.py:340-358 | what a merge wrote is found again by the next merge and by the extraction |
| AgentsText.SourceBlockIsGood | core/adoption/service.py:39-40 | the source's markers cannot overlap and its generated block contains neither, at every autonomy level |
| Adoption.PlanManaged | core/adoption/service.py:437-460 | one item per payload path with the action its hashes call for, and one blocker for each conflicting path |
| Adoption.PlanRetired | core/adoption/service.py:462-481 | one item per name that the old lock lists and the bundle does not, and one blocker for each conflicting name |
| Adoption.Preconditions | core/adoption/service.py:409-434 | which of the blockers that do not depend on single files are reported |
| Adoption.PlanGovernance | core/adoption/service.py:483-566 | which of the blockers of AGENTS.md and the harness are reported, and that it raises exactly on a harness whose steps cannot be searched |
| Adoption.PlanAdoption | core/adoption/service.py:399-576 | the plan lists every path of the bundle, every retired name and the governance files; each blocker is reported exactly when its reason holds; it is ready exactly when the path-by-path condition says so; on file contents it raises exactly on markers in the wrong order and on a harness whose steps cannot be searched |
| Adoption.ReadyPlan | core/adoption/models.py:99-100 | no blocker is the same as no conflicting item and all preconditions |
| AdoptionApply.Project.Touch | core/adoption/service.py:579-590 | one remove or atomic write: the file changes completely or not at all |
| AdoptionApply.Project.Rollback | core/adoption/service.py:702-708 | every logged path gets its logged content back, and no other path changes |
| AdoptionApply.Project.ApplyOne | core/adoption/service.py:653-685 | one planned item, with its undo-log entry, its hash and its line in the report |
| AdoptionApply.Project.Apply | core/adoption/service.py:618-719 | the transaction ends blocked and untouched, rolled back, or applied, exactly as the pure transaction says for that schedule of failures |
| AdoptionLaws.WritingOnceIsAtomic | core/adoption/service.py:644-708 | if no path is written twice, a failure at any write restores every file, lock included |
| AdoptionLaws.ReadyPlanWritesOnce | core/adoption/service.py:437-566 | a ready plan writes each file once, and never the lock, if and only if the old lock gives no file two owners |
| AdoptionLaws.TwiceOwnedIsLost | core/adoption/service.py:653-708 | if it gives one two owners, some failure leaves a file changed that the call was to restore |
| AdoptionLaws.AdoptionIsAtomic | core/adoption/service.py:618-719 | every schedule of failures rolls back to the tree before the call if and only if the old lock gives no file two owners |
| AdoptionHistory.SuccessIsExactlyExpected | core/adoption/service.py:652-701 | a successful adoption leaves at every path exactly the content said by a definition without plan and loop, whatever the old lock lists |
| AdoptionHistory.ApplyIsAllOrNothing | core/adoption/service.py:618-719 | for its caller a success leaves exactly the expected tree, and a failure the old one if no file has two owners |
| AdoptionHistory.TwiceOwnedCallIsLost | core/adoption/service.py:618-719 | with a file of two owners some failing call leaves another tree |
| AdoptionHistory.ReadyAdoptionSucceeds | core/adoption/service.py:618-719 | every ready call can succeed |
| AdoptionHistory.InterruptedTreeIs | core/adoption/service.py:652-702 | an interrupt that is no exception leaves exactly the files whose turn had come as a success would, and the others and the lock as they were, if no file has two owners |
| AdoptionHistory.ReportIsThePlan | core/adoption/service.py:647-719 | the lists of the result are the plan's paths by action, in the plan's order |
| AdoptionHistory.NoProjectByteIsLost | core/adoption/service.py:437-566 | after a success what the project owns at a path is still there (other files change only from their locked version, governance files and the text around the block stay) if and only if the old lock does not claim it |
| AdoptionHistory.GovernanceStaysExactly | core/adoption/service.py:462-566 | an existing governance file stays as it is, or is removed exactly when the old lock lists it |
| AdoptionHistory.UnplannedPathsStay | core/adoption/service.py:437-481 | a file that neither the bundle nor the old lock names is not touched |
| AdoptionVerify.CheckManaged | core/adoption/service.py:769-780 | exactly the missing and the drifted managed files are reported |
| AdoptionVerify.VerifyAdoption | core/adoption/service.py:760-798 | the report is ready exactly when lock, managed files, block, harness and git are in order; it raises exactly on markers in the wrong order |
| AdoptionVerify.AdoptedVerifiesExactly | core/adoption/service.py:760-798 | what a successful call left verifies if and only if the old lock claimed nothing that verification needs |
| AdoptionVerify.ReplanIsQuietExactly | core/adoption/service.py:437-566 | planning the same bundle again after a success finds nothing to do, but for the block of a fresh AGENTS.md, if and only if the old lock claimed nothing needed |
| AdoptionVerify.SecondAdoptionSettles | core/adoption/service.py:483-500 | the second adoption of one bundle changes nothing if and only if AGENTS.md existed unlisted and the old lock claimed nothing needed; a third changes nothing if and only if the first left an AGENTS.md |
| AdoptionVerify.RetiredStayGone | core/adoption/service.py:462-481 | over any history a path that was ever managed and is not in the last bundle is gone, exactly but for files the service creates anew |
| AdoptionVerify.LastBundleWins | core/adoption/service.py:652-701 | after any sequence of successful adoptions the lock is exactly the last bundle's; the managed files are, and verification is ready, always after the second and after the first exactly when the old lock claimed none of them |
| AdoptionExamples.ListedMissionExample | core/adoption/service.py:462-481 | a successful call that removes a listed MISSION.md |
| AdoptionExamples.ListedAgentsExample | core/adoption/service.py:462-500 | a successful call that removes a listed AGENTS.md and leaves a project that does not verify |
| AdoptionExamples.OutdatedAgentsExample | core/adoption/service.py:653-708 | a failing call that does not restore a listed AGENTS.md |
| AdoptionExamples.AliasExample | core/adoption/service.py:462-481 | a bundle file listed under a second spelling: missing after a success, not restored after a failure |
| GateTrace.TerminalEntryIsLast | run_ticket.py:1298-1316 | a timeout or infrastructure entry is unique, the last of the log, and no fix agent runs after it |
| GateTrace.ReinvocationsAreNumbered | run_ticket.py:1335-1359 | reinvocation entries carry strictly increasing attempt numbers |
| GateTrace.FixesAreAccounted | run_ticket.py:1335-1359 | fix-agent calls equal reinvocation entries plus failed-commit entries, but for one still waiting for its commit |
| GateTrace.FixesCountsCalls | run_ticket.py:1335-1359 | the counter of fixes is the number of fix-agent calls in the trace |
| Gate.GateLoop.Fix | run_ticket.py:1335-1359 | one fix and its commit: goes on, gives up with its cause, or sees the cancellation |
| Gate.GateLoop.FocalStep | run_ticket.py:1273-1332 | the focal pre-check proceeds only on a pass, never retries a timeout, and fixes at most as often as allowed |
| Gate.GateLoop.RetryRemoteUnavailable | run_ticket.py:1241-1270 | at most two re-runs on other workers, and the last result is returned |
| Gate.GateLoop.RunOfficial | run_ticket.py:1374-1419 | memory, the gate, its retries and two looks at the cancellation |
| Gate.GateLoop.ClassifyFailure | run_ticket.py:1422-1497 | an infrastructure failure ends the loop with its cause and exit code |
| Gate.GateLoop.OfficialStep | run_ticket.py:1528-1558 | passes only after a skip or a gate that returned 0 with no fix after the focal pass |
| Gate.GateLoop.Attempt | run_ticket.py:1638-1668 | one attempt of the loop keeps the trace well formed and counts its fixes |
| Gate.RunGate | run_ticket.py:1602-1668 | the loop ends with an earned success, a cancellation, or a cause that its trace explains; at most two fixes and six remote retries |
| Gate.SuccessIsEarned | run_ticket.py:1500-1558 | a success rests on a focal pass and, after it and without a fix between, an official gate that returned 0 |
| Gate.CauseIsLogged | run_ticket.py:1422-1497 | every cause but three is the cause of the last log entry, which is terminal |
| Gate.AttemptsLogShape | run_ticket.py:1298-1316 | the three laws of the attempts log together, for every trace of the loop |
| Gate.NothingRunsAfterCancel | run_ticket.py:1638-1668 | once a lasting cancellation was seen, nothing but looks at it follows |
| Rebase.Worktree.ContinueTakingLedgers | run_ticket.py:614-639 | the ledger loop, with the skip that ends it early, computes the pure replay |
| Rebase.Worktree.Resolve | run_ticket.py:642-665 | no rebase is left in progress, and the agent is called once exactly when the ledger loop does not settle it alone |
| Rebase.LedgersSettleAlone | run_ticket.py:614-639 | the ledger loop concludes by itself if and only if only ledgers conflict, the stops are fewer than the iterations, and no skipped commit precedes a conflict |
| Rebase.SettlementIsExact | run_ticket.py:642-665 | a failure is an abort; success means finished exactly when neither git, nor the agent where the loop does not settle alone, left the replay unfinished |
| Rebase.RefusedRebaseIsReportedDone | run_ticket.py:593-665 | a rebase that never started is reported as done |
| Rebase.LastIterationGoesUnnoticed | run_ticket.py:614-639 | a replay that finishes in the last iteration is not noticed |
| DeliveryTrace.StepsComeInOrder | run_ticket.py:2184-2284 | at every moment the steps completed are the first ones of the line, in order, each once |
| DeliveryTrace.PublicationIsEarned | run_ticket.py:2184-2300 | a publication follows all nine steps, no checkpoint that saw a cancellation, and an approval with no fix since |
| DeliveryTrace.PublishedOnce | run_ticket.py:2285-2313 | no delivery publishes twice |
| DeliveryTrace.NothingRunsAfterCancel | run_ticket.py:2217-2300 | once a checkpoint saw the cancellation no agent, gate, review or publication follows |
| DeliveryTrace.AfterPublicationOnlyCiRepair | run_ticket.py:2400-2420 | after a publication the fix agent runs at most once, and only for a red CI |
| DeliveryTrace.FixesAreGatedBeforeNextRound | run_ticket.py:2588-2602 | every fix a review asked for passed the gate step, perhaps by a skip, before the next round |
| DeliveryTrace.SummaryMeaning | run_ticket.py:2184-2342 | what the running state of a delivery says is true of its trace |
| Delivery.Pipeline.Sync | run_ticket.py:2079-2138 | the delivery goes on exactly when the rebase was settled |
| Delivery.Pipeline.StageGate | run_ticket.py:2234-2262 | the gate step holds only by a validation on file or a gate step that passes, and whether a gate stands behind that |
| Delivery.Pipeline.StageDocs | run_ticket.py:2345-2383 | the step is one check, or a check, one fix and one more check; it passes exactly when the last of them finds no violation |
| Delivery.Pipeline.StageReview | run_ticket.py:2538-2605 | the review approves within four rounds, each fix committed and gated before the next round, or stops with one of its four outcomes |
| Delivery.Pipeline.PublishCandidate | run_ticket.py:2285-2301 | whether anything is published, and when the run counts as cancelled |
| Delivery.Pipeline.RetryRedCi | run_ticket.py:2400-2420 | the repair of a red CI never publishes and never delivers; a spent budget does nothing |
| Delivery.Pipeline.Receipts | run_ticket.py:2324-2342 | no receipt is looked at without a pushed report; with one, a delivery had both, and a refusal names the first missing one |
| Delivery.Pipeline.Deliver | run_ticket.py:2184-2342 | the whole delivery keeps the line and ends as its publication allows; with nothing else in its way it delivers when the documentation step passes |
| Delivery.RunDelivery | run_ticket.py:2184-2342 | every run's trace keeps the order of the line and is what the world answered, the sync included; a delivered run did all nine steps and published; a red CI never ends in a delivery; a faultless run delivers, seen by a gate exactly when one wrote the validation on file and the first documentation check found no violation |
| Delivery.DocsFixExample | run_ticket.py:2364-2379 | a run that publishes a documentation fix which no gate has seen |
| Delivery.SkipExample | run_ticket.py:1539-1541 | a run with --skip-validation and no fix that publishes what no gate has seen |
| Delivery.SkipOnFileExample | run_ticket.py:2239-2262 | a run without the option that rests on the validation of such a run |
| Delivery.PublishedSeenExactly | run_ticket.py:2234-2284 | a gate has seen what is published, with no fix since, if and only if: after a review's fix, gates are not skipped; else the gate step rested on a gate and the documentation check found no violation |
| Delivery.FixesAreSeenBeforeNextRoundExactly | run_ticket.py:2588-2602 | a gate sees a review's fix before the next round if and only if gates are not skipped |
| Delivery.PublicationRestsOnAGate | run_ticket.py:2239-2262 | whatever the world answers, before a publication the gate step passed, perhaps by a skip |
| Delivery.PublicationRestsOnALookExactly | run_ticket.py:2239-2262 | before a publication a gate saw some state of the tree if and only if the gate step rested on a gate, or a review's fix went through a gate that is not skipped |
| Delivery.PublicationRestsOnASync | run_ticket.py:2079-2138 | before a publication the branch had no conflict with its base, or the rebase was settled and none was in progress |
| Delivery.PublicationRestsOnAReview | run_ticket.py:1952-1960 | and an approval was given, bound to the candidate or by a round that succeeded, with no fix after it |
| BuildSlices.StageBuild | run_ticket.py:3745-3861 | an artifact is written only when every slice ran, with the plan's ids in order; every slice's harness, reading and report are its own; the cost starts at the last unbroken streak |
| BuildSlices.StartIsFresh | run_ticket.py:3617-3641 | a slice starts on the pin exactly when that slice's reading of it is a number strictly above the floor, else on that slice's own pick |
| BuildSlices.StreakStartIsUnique | run_ticket.py:3788-3791 | there is one start of the last unbroken streak |
| BuildSlices.StreakGoesOn | run_ticket.py:3788-3791 | a new streak starts exactly when the harness changes |
| BuildSlices.CostComparesOneHarness | run_ticket.py:3815-3830 | the two readings of the cost are of one harness exactly when the last agent worked where it started |
| Bootstrap.CreationKeepsGoalExactly | core/adoption/bootstrap.py:95-122 | a run cut off right after creating the repository leads to the same end if and only if the addresses agree |
| Bootstrap.UsualAddressAgrees | core/adoption/bootstrap.py:107-122 | GitHub's usual address agrees with the one given at creation |
| Bootstrap.HalfMadeRepositoryIsStuck | core/adoption/bootstrap.py:134-143 | a local repository whose creation was cut off fails every later push |
| Bootstrap.GoalIsStableExactly | core/adoption/bootstrap.py:252-326 | running a successful bootstrap again changes nothing if and only if the addresses agree, the first run included |
| Bootstrap.OthersAreNeverChanged | core/adoption/bootstrap.py:264-326 | an origin, other branches of the remote and other projects are never changed |
| Bootstrap.LocalBranchIsLostExactly | core/adoption/bootstrap.py:286-287 | a local branch that is not checked out loses its commit if and only if it has the default name and is overwritten with another commit |
| Bootstrap.LostBranchExample | core/adoption/bootstrap.py:286-287 | a project whose existing default branch is lost |
| Bootstrap.OwnEntryExactly | core/adoption/bootstrap.py:307-326 | what an existing entry is afterwards: one with another path or address blocks unchanged; an absent environment is filled; without a validate list all four lists are replaced |
| Bootstrap.EntryListIsLostExactly | core/adoption/bootstrap.py:316-320 | a non-empty list of the entry is lost if and only if the run writes the entry, its validate list is empty, and its other lists are not the run's |
| Bootstrap.LostListExample | core/adoption/bootstrap.py:316-320 | an entry whose setup, build and smoke commands are lost |
| BootstrapRun.PrefixIsKeptExactly | core/adoption/bootstrap.py:246-250 | the recorded steps are a prefix of the five if and only if the loaded ones were |
| BootstrapRun.Machine.Mark | core/adoption/bootstrap.py:246-250 | a step is recorded once, whatever was recorded before, and truly if what was loaded was true |
| BootstrapRun.Machine.RemoteStep | core/adoption/bootstrap.py:264-271 | the repository is reused or created, with every point where the run may end |
| BootstrapRun.Machine.RenameStep | core/adoption/bootstrap.py:286-288 | the branch gets the default name, or git refuses because none is checked out |
| BootstrapRun.Machine.GitRemoteStep | core/adoption/bootstrap.py:273-288 | a different origin blocks and is not touched; otherwise the origin and the branch lead to the same end |
| BootstrapRun.Machine.PushStep | core/adoption/bootstrap.py:290-292 | the push lands or is refused, and leads to the same end |
| BootstrapRun.Machine.RegistryStep | core/adoption/bootstrap.py:294-326 | the registry entry is created or completed in up to two writes, each leading to the same end |
| BootstrapRun.CutOffLosesListExactly | core/adoption/bootstrap.py:316-326 | however runs are cut off, a list is lost if and only if the entry was rewritten, had no validate list, and its other lists are not the run's |
| BootstrapRun.Machine.Run | core/adoption/bootstrap.py:218-340 | whatever the state file says, a run to its end is the uninterrupted goal and a run cut off leads where it led before; the recorded list stays a prefix if and only if it was one, and stays true if it was |
| BootstrapRun.Machine.Resume | core/adoption/bootstrap.py:180-340 | from any state file, any number of cut-off runs and then a complete one end like one uninterrupted run of the beginning |
| BootstrapRun.ReportsWhatItRegistersExactly | core/adoption/bootstrap.py:256-340 | the first run reports the commands it registered unless it was given two different lists |
| EnvText.SplitOfJoin | scripts/dokploy_redeploy.py:747-749 | splitting gives back the lines that were joined |
| EnvText.MergedLines | scripts/dokploy_redeploy.py:745-749 | the result's lines are those that set other names, in order, and the new one |
| EnvText.NewLineReadsBack | scripts/dokploy_redeploy.py:747-748 | the new line sets the given name to the given value exactly when the name is plain |
| EnvText.SetsExactlyOnce | scripts/dokploy_redeploy.py:745-749 | exactly one line sets a plain name, none sets another kind of name |
| EnvText.OtherNamesReadTheSame | scripts/dokploy_redeploy.py:745-749 | every other name is set by the same lines in the same order |
| EnvText.LastValueWins | scripts/dokploy_redeploy.py:745-749 | a later value replaces an earlier one without a trace |
| EnvText.IdempotentExactly | scripts/dokploy_redeploy.py:745-749 | rewriting twice is rewriting once if and only if the name is plain |
| Waiting.LatestDeployment | scripts/dokploy_redeploy.py:356-380 | the newest deployment with a timestamp, else the last of the list |
| Waiting.WaitForService | scripts/dokploy_redeploy.py:566-590 | the wait ends at the first conclusive poll |
| Waiting.DoneMeansAnotherDeployment | scripts/dokploy_redeploy.py:440-470 | a wait is done exactly when another deployment than the baseline, or a later one under its id, was seen done before any other end; without a baseline, any deployment |
| Waiting.WaitForSha | scripts/dokploy_redeploy.py:780-795 | true exactly when a probe made in time saw the candidate commit |
| Redeploy.TriggerAll | scripts/dokploy_redeploy.py:1345-1393 | which services are waited for, with which baseline, and whether one was refused or joined |
| Redeploy.WaitAll | scripts/dokploy_redeploy.py:1399-1439 | every triggered service is waited for, and the failure bit is exact |
| Redeploy.ProveHub | scripts/dokploy_redeploy.py:1441-1474 | the Hub is proved exactly when the candidate was served in time, or after the one retrigger of a joined deployment |
| Redeploy.SyncNodes | scripts/dokploy_redeploy.py:1529-1574 | the four flags after the node loop, in closed form |
| Redeploy.CheckTitles | scripts/dokploy_redeploy.py:1575-1592 | a code-bearing title other than the candidate's subject drops both flags |
| Redeploy.Run | scripts/dokploy_redeploy.py:1183-1663 | exit code and backup as exact conditions of what happened, early exits included |
| Redeploy.SuccessAllowsBackup | scripts/dokploy_redeploy.py:1496-1592 | a successful run may back up unless it had no candidate commit |
| Redeploy.BackupWithoutSuccess | scripts/dokploy_redeploy.py:1532-1569 | a backup without success is owed only to the Desktop or to a Notebook that blocks nothing |
| Redeploy.BackupRestsOnEvidence | scripts/dokploy_redeploy.py:1399-1612 | before a backup every deployment waited for was done and another than its baseline or later (any for a joined Hub), the Hub was proved, titles match and the VPS converged |
| Redeploy.DirtyExitMeans | scripts/dokploy_redeploy.py:1570-1663 | the dirty exit means a dirty node and only dirty nodes diverged; the VPS may be unconverged, exactly when it is missing, excluded or dirty, and blocks the backup |
| Redeploy.DirtyWithoutVpsExample | scripts/dokploy_redeploy.py:1570-1663 | two runs that end dirty, without a VPS and with an excluded one |
| Redeploy.NothingIsDeployedExactly | scripts/dokploy_redeploy.py:1245-1267 | nothing is deployed and the exit is a success if and only if the Hub is selected, waited for and not forced, and its image is untouched |
| Redeploy.UntouchedImageExample | scripts/dokploy_redeploy.py:1263-1267 | a run that leaves another selected service undeployed and succeeds |
| Redeploy.TitlesAreCheckedExactly | scripts/dokploy_redeploy.py:1230-1592 | the title check covers every service selected as code-bearing if and only if each is written in lower case, or there is no subject |
| Redeploy.CapitalsExample | scripts/dokploy_redeploy.py:1230-1592 | a run that succeeds and backs up with the code-bearing deployment of another commit |
| Snapshot.ShrunkLedgers | scripts/snapshot_queue.py:80-93 | the violations are exactly the losses, in order; none exactly when nothing is lost |
| Snapshot.GuardIsExact | scripts/snapshot_queue.py:80-93 | the guard passes if and only if every id stays and no ledger has fewer rows |
| Snapshot.GuardedOverlayKeeps | scripts/snapshot_queue.py:180-187 | a guarded snapshot loses nothing in any file and removes none |
| Snapshot.Repository.RunSnapshot | scripts/snapshot_queue.py:151-209 | the history after one run, the marker, and when it skips, refuses, finds no change or lands |
| SnapshotRaces.StepKeepsInv | scripts/snapshot_queue.py:168-203 | every step of every run or writer keeps the invariant and only extends the history |
| SnapshotRaces.SnapshotsLoseNothing | scripts/snapshot_queue.py:168-203 | over every interleaving each snapshot that landed keeps every id and row count of its parent |
| SnapshotRaces.NoCommitIsDiscarded | scripts/snapshot_queue.py:199-201 | no commit that was on main is ever discarded |
| SnapshotRaces.IdsSurvive | scripts/snapshot_queue.py:168-203 | if the other writers lose nothing between two moments, nothing is lost between them |
| SnapshotRaces.RunIsASchedule | scripts/snapshot_queue.py:151-209 | one run with everything working is one schedule of the system |
| Observability.Round2 | core/acceptance/observability.py:91-91 | rounding to two places moves a value by at most half a hundredth |
| Observability.Tracker.RecordEvent | core/acceptance/observability.py:78-121 | the new cache and ledger for every event, invalid ones and failed appends included, and whether they still agree |
| Observability.RunAgreesWithLedger | core/acceptance/observability.py:78-121 | for every run the cache equals a replay of the appended ledger but for the rounding of the latencies |
| Observability.SummaryAgreesWithLedger | core/acceptance/observability.py:173-217 | counts, recovery times, slots and budget equal the replay's, rounded averages differ by at most 0.01, and so does no verdict that is clear |
| Observability.FailedWriteAgreesExactly | core/acceptance/observability.py:96-121 | after a failed append cache and ledger agree if and only if the event's kind, number and status leave no mark in the cache |
| Observability.FailedWriteExample | core/acceptance/observability.py:96-121 | one event that cannot be appended and is counted |
| Observability.Tracker.GetMetricsSummary | core/acceptance/observability.py:173-217 | the summary is the rounded averages and the counts of the cache |
| Observability.Tracker.GetRecentEvents | core/acceptance/observability.py:219-245 | the newest matching events up to the limit; without a limit the newest event if it matches |
| Observability.RecentMatchesFilters | core/acceptance/observability.py:219-245 | they are the filtered ledger, newest first |
| Ratchet.Compare | scripts/complexity_ratchet.py:64-74 | exactly the problems there are; none exactly when every function is within its allowance |
| Ratchet.BuildBaseline | scripts/complexity_ratchet.py:77-83 | the functions above the limit, none larger than recorded |
| Ratchet.BaselineFile.Check | scripts/complexity_ratchet.py:93-114 | the verdict and the baseline file after a run, the first run included |
| Ratchet.UpdateTightensExactly | scripts/complexity_ratchet.py:77-83 | an accepted update tightens the baseline if and only if no entry is below the limit |
| Ratchet.AcceptedTreePassesItsBaseline | scripts/complexity_ratchet.py:93-114 | an accepted tree passes against the baseline its run leaves |
| Ratchet.RunsOnlyTighten | scripts/complexity_ratchet.py:93-114 | over any runs the recorded functions only get fewer and no allowance grows |
| Ratchet.HistoryOnlyTightens | scripts/complexity_ratchet.py:93-114 | the same between any two moments of a history that began without a baseline |
| Ratchet.AcceptedNeverExceedsTheStart | scripts/complexity_ratchet.py:64-83 | a tree accepted later has above the limit only functions that were there at the start, and no larger |

## Left out

- The order in which the source walks dictionaries and sorted lists: plans, problems and violations are proved as contents, or for any order.
- Texts of messages, warnings, notes, progress phases, prompts and command-line parsing.
- The JSON text of the lock: it is a document of its fields in one fixed layout; an `AGENTS.md` that is itself a lock document is not considered.
- How a bundle is built from a checkout, stack detection, and empty directories left after a rollback.
- Failures inside the rollback itself.
- AdoptionApply.Project.Apply: a failure is an exception; an interrupt that is none is not one of its ends, and is stated apart (`AdoptionHistory.InterruptedTreeIs`).
- Adoption.PlanAdoption: a directory at a planned path, or a file where one needs a directory, makes reading it raise; the tree of the model has files only.
- Lock keys that climb with `..`, absolute ones, symbolic links, and file systems without regard to case.
- The environment variable that rotates gate workers between remote retries, and the fields of the gate state that only feed the report.
- The classifiers of gate output, of disk-full errors and of route waits: each is an arbitrary answer.
- Exceptions that end a delivery from inside the fix agent or the commit (a run cancelled there counts as cancelled at once).
- How an external project's publication releases and smoke-tests: it is part of the publication's answer.
- The standalone resume that writes minimal artifacts for an old worktree before the first requirement.
- What an agent does to the files of a build slice; the decision to stop after it (cancellation, protected path, failure) is one answer per slice.
- The check that the bootstrap's root is a git work tree, made before the state file is read, and a default branch that is checked out in another work tree.
- An unreadable project registry, which the next registration overwrites.
- A request that raises while a deployment is waited for, the wait for an image to appear, disk hygiene, blue-green switching, publishing the convergence snapshot and check-main.
- The retriggered deployment of a joined Hub: only the served commit afterwards counts, as in the source.
- Waiting.WaitForService: assumes that the clock reaches the timeout at some poll, which is what makes the wait end.
- Waiting.WaitForSha: makes the same assumption.
- Redeploy.Run: makes the same assumption for every wait of the run.
- How the ledgers are rendered from the control store; any content may be offered to the guard.
- Snapshot.Repository.RunSnapshot: compares ledger files as parsed JSON, so a change of layout only is no change.
- Observability.Tracker.GetMetricsSummary: exact arithmetic instead of floating point.
- The setters of the tracker that bypass the ledger, the measuring context manager, redaction, and the lock around the cache.
- How function sizes are measured for the ratchet; its configuration file is its map of sizes.
- Scenario checks, the continuous observer, templates, learning packs, benchmarks and launchers: no invariant across operations.
