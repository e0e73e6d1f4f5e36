# Verification of the scraper's self-healing loop

A Dafny model of the parts of this repository in which order, state and partial failure
matter, with proofs of what they guarantee.

- **The approval protocol.** Clicks go into an append-only queue with a separate ack log; a
  poller dispatches them to approve, reject or regenerate; an approval rewrites a site's YAML
  file, reruns the collector and rolls back on failure; failed runs create approvals behind
  guards; expiry sweeps them.
  - `Workflow` has each procedure as a function on the whole state (table, audit log, files,
    backups, runs). `Approvals`, `SitePatching`, `RunLog` and `Runner` have the same
    procedures as methods on mutable tables and files, proved to refine those functions.
  - `Soundness`, `Lifecycle`, `Ledger`, `Predictions`, `Endings` and `NestedHealing` prove what every
    serial run keeps, what ends up in the files, and what a dry run predicts.
  - `Poller`, `PollProofs` and `PollCounts` do the same for one poll over an arbitrary batch. `Witnesses` has
    the inputs, all after two runs from an empty table, at which something promised fails.
  - `Interleaving`, `InterleavingFacts` and `Races` drop the serial assumption: any number of
    processes, one statement at a time, with crashes and lost acks between any two.
- **The decision queue** (`DecisionQueue`): listing against concurrent appends.
- **The patch engine and the dry run** (`Trees`, `Patch`, `PatchAlgebra`, `PatchInPlace`,
  `Collector`, `RecordFields`, `DryRun`).
- **Incremental storage and reporting** (`Timestamps`, `KstDays`, `RunLog`, `Postings`,
  `ChangeDetection`).
- **Two self-contained procedures**: snapshot retention (`Retention`) and the strict form of a
  JSON schema (`StrictSchema`, `StrictSchemaInPlace`).

`dafny verify dfyconfig.toml` checks everything.

What comes from outside (HTTP responses, the LLM's reply, Slack's answer, the outcome of each
collector, lost acks, crashes, the clock) is a parameter, so the theorems hold for every value
of it. The YAML loader and dumper and the schema validation are unknown functions; a theorem
that needs loading after dumping to give the document back says so (`RoundTrips`).

## Where the code does something its documentation does not say

- A patch whose rerun *raises* stays in the file: `load_all_sites` is called outside the
  callback's try (`app/runner/cli.py:426`), so nothing rolls it back. It happens exactly when
  the patch can be written and another site's file does not load or validate
  (`Ledger.StrandedExactlyWhen`, and `Witnesses.BrokenNeighbourStrands` for an input).
- A healing nested in a rerun makes a row from the patched file; if the rerun then fails, the
  file is rolled back under that row (`NestedHealing`). It is the only way a system-made row
  can fail to apply without a later write (`Predictions.FailureNeedsAChange`).
- The expiry sweep does not look at the status again in its UPDATE, so between processes it can
  overwrite a decision (`InterleavingFacts.SweepOverwritesApproval`). Decisions stand exactly
  when no sweep names a row that has been won (`InterleavingFacts.DecisionsStandExactlyWhen`).
- A regenerate can be acked while its row stays pending: exactly when its run is at the limit,
  its sample is missing, the LLM client raises a LookupError (a response without choices is an
  IndexError, `app/llm/client.py:169`), or the dry run misses a `jobs` collector, which is a
  KeyError (`PollProofs.AckedThoughPendingExactlyWhen`, `Witnesses.IndexErrorIsAcked`,
  `Witnesses.KeyErrorIsAcked`).
- A decision that loses the race inside `_decide` is not acked, although its row is decided; it
  is fetched again (`Races.LoserIsFetchedAgain`, and `Races.ClicksAreKept` for every click).
- A regenerate inserts the successor before it supersedes the row, and reads its limit before
  that. One that loses leaves its successor pending, beside others and beyond the limit
  (`Races.LosersLeaveTheirRows`). The limit holds exactly when every insertion found room
  (`Races.WithinLimitExactlyWhen`). One pending row per site, those about to be superseded
  aside, holds exactly when every insertion found none beside the row it replaces and no crash
  released one beside another (`Races.OneStaysExactlyWhen`).
- The poll's counters add up to the total exactly when no ack raises an error `_ack` does not
  catch after the decision succeeded (`PollProofs.CountersAreTotalExactlyWhen`,
  `Witnesses.OneDecisionCountsTwice`).
- The unit separator does not make the joined hash safe: a title or company that contains it can
  hide a change (`ChangeDetection.SeparatorHidesChange`). Without it every change of title,
  company or deadline is seen (`ChangeDetection.ChangeIsSeen`).
- Replaying a batch reports all unchanged exactly when postings with one id have one content hash
  (`Postings.ReplayUnchangedWhen`, `Postings.ReplayOfTwoPostingsUpdates`). A change of link or
  raw data alone is not a change and is not stored (`Postings.LinkChangeIsNotStored`).
- `_make_strict_schema` keeps a stale `required` list of an object without properties
  (`StrictSchema.StrictObjects`, `StrictSchema.StaleRequiredStays`).

## Model

| member | source | states |
|---|---|---|
| Interleaving.AtMostOnce | app/storage/approval.py:69-77 | Over every interleaving of pollers, deciders, sweeps, duplicate clicks, stale fetches, lost acks and crashes, update_status succeeds at most once per approval; a patch is written at most once, and only after its approval was won |
| Interleaving.AckedMeansDecided | app/runner/decision_poller.py:103-113 | In every interleaving each line of the ack log is justified: its approval is decided, or was made only after the decision had been looked up, or the decision was a regenerate that was refused; a row that was won is never pending again |
| Interleaving.ExecutedKeeps | app/patching/decision.py:51-119 | Every single statement of a decider, poller or sweep keeps the invariant: wins are once and final against pending, the right to write a patch has one holder, who has won and not yet written |
| Interleaving.OneHolder | app/approval/state_machine.py:145-157 | Two processes never both stand between a successful UPDATE and the write of the same patch |
| InterleavingFacts.OneDecisionLine | app/approval/state_machine.py:159-165 | In every interleaving the audit log has at most one decision line per approval, each for an UPDATE that succeeded |
| InterleavingFacts.OnlyApprovedInFiles | app/patching/apply.py:80-87 | In every interleaving, lost updates and rollbacks to overwritten backups included, every patch in a file, in a backup or about to be written was approved |
| InterleavingFacts.FilesHoldOnce | app/patching/apply.py:74-87 | In every interleaving no file, no backup and no content about to be written holds a patch twice, or one that was never written |
| InterleavingFacts.SweepSparesExactlyWhen | app/storage/approval.py:81-96 | The UPDATE of the expiry sweep leaves the status of every decided row alone if and only if each selected row is still pending, or expired |
| InterleavingFacts.DecisionsStandExactlyWhen | app/storage/approval.py:79-97 | In every interleaving, every decision made still stands at the end if and only if no sweep ever named a row in its UPDATE that had been won |
| InterleavingFacts.DecisionsAreFinal | app/storage/approval.py:79-97 | So when every sweep finds its rows still pending, each won row has the status it was won with for ever |
| InterleavingFacts.AtomicSweepIsClean | app/storage/approval.py:81-97 | A sweep with nothing between its SELECT and its UPDATE finds its rows still pending |
| InterleavingFacts.SweepOverwritesApproval | app/storage/approval.py:88-96 | A reachable state in which an approval is expired although it was approved and its patch is in the file: the split sweep overwrote the decision |
| Races.ClicksAreKept | app/approval_server/queue.py:78-108 | In every interleaving a click with a queue id is listed if and only if no ack with its id is recorded, and every such ack is justified |
| Races.LoserIsFetchedAgain | app/approval/state_machine.py:145-157 | A reachable state in which two pollers fetched one click and both got to the UPDATE of _decide: one decided the row, the other went on without an ack, and the click is still listed |
| Races.WithinLimitExactlyWhen | app/runner/healing_flow.py:320-324 | In every interleaving no run has more than three rows if and only if every insertion found fewer than three rows of its run at the moment it was made |
| Races.AtomicRegenerateFindsRoom | app/runner/healing_flow.py:312-324 | A regenerate with nothing between its guards and its insertion finds fewer than three rows of its run, and its row pending |
| Races.OneStaysExactlyWhen | app/runner/healing_flow.py:86-91 | In every interleaving, at every moment no site has two pending rows that nobody is about to supersede, if and only if every insertion found none of its site beside the one it replaces, and no crash released one beside another |
| Races.OnePendingWhenTidy | app/runner/healing_flow.py:393-403 | So when that holds and no process is about to supersede a row, no site has two pending rows |
| Races.LosersLeaveTheirRows | app/runner/healing_flow.py:393-403 | A reachable state in which three regenerates of one row each passed the limit and inserted a successor, and one superseded the row: three pending rows of one site, four rows of the run |
| Poller.DecisionPoller.PollAndDispatch | app/runner/decision_poller.py:59-125 | The loop over a batch leaves table, audit log, files, ack log and counters as the turn-by-turn specification says, and stops at an uncaught error |
| Poller.DecisionPoller.HandleTurn | app/runner/decision_poller.py:62-121 | One turn with its two handlers: what is acked, what is counted, and when an exception leaves the loop |
| Poller.DecisionPoller.DispatchTurn | app/runner/decision_poller.py:63-101 | A missing key is a LookupError, a bad id is not, an unknown kind does nothing; otherwise the decision is carried out and its exception sorted |
| Poller.DecisionPoller.Ack | app/runner/decision_poller.py:147-160 | Caught network errors are swallowed and others come out; either can come before or after the server has recorded the ack |
| PollProofs.StaleDecisionsAreAcked | app/runner/decision_poller.py:104-113 | A decision whose approval is missing or no longer pending at its turn changes neither table nor files, is acked, and counts as failed |
| PollProofs.PollIsSerialRun | app/runner/decision_poller.py:62-101 | The state after any poll is the state after the serial run of its operations, so every theorem about serial runs holds of polls |
| PollProofs.AtMostOneMoves | app/runner/decision_poller.py:62-113 | Among all decisions of a batch for one approval at most one takes its row out of pending; every later one leaves the whole state as it finds it |
| PollProofs.CountersSum | app/runner/decision_poller.py:60-121 | The four counters sum to the decisions handled plus those that succeeded and whose ack then raised: these are counted twice |
| PollProofs.CountersAreTotalExactlyWhen | app/runner/decision_poller.py:60-125 | The counters sum to total if and only if no ack of a successful decision raises |
| Witnesses.OneDecisionCountsTwice | app/runner/decision_poller.py:82-121 | After a good run and a healed one, a poll of one reject that is carried out and whose ack raises counts one rejected and one failed: two for a total of one |
| PollCounts.CountersMean | app/runner/decision_poller.py:60-121 | Over any batch each counter grows by the turns that are reached and add to it: approved, rejected and regenerated by those of their kind whose call returned; failed by unknown kinds, broken decisions, skipped and acked ones, and successes whose ack raises; the poll is aborted exactly when a turn aborts it |
| PollCounts.TurnAdds | app/runner/decision_poller.py:63-121 | One turn adds one to the counter its kind and the result of its call say, and aborts the poll exactly when the first handler has no queue id or its ack raises |
| PollProofs.AckedThoughPendingExactlyWhen | app/runner/decision_poller.py:83-113 | A decision for a pending row is acked and leaves it pending if and only if it is a regenerate whose run is at the limit, whose sample is missing, or for which the LLM client raises a LookupError or the dry run misses a jobs collector, as stated on the documents |
| PollProofs.LookupFailsExactlyWhen | app/healing/dry_run.py:165-195 | Making a proposal ends in a LookupError if and only if the LLM client raised one, or the base validates without a jobs collector, or with one that can run while the patched document validates without |
| Witnesses.KeyErrorIsAcked | app/healing/dry_run.py:244-246 | After a good run and a healed one, a regenerate whose proposal removes the jobs collector: the KeyError is acked, and table, files and the pending row are as before |
| Witnesses.IndexErrorIsAcked | app/llm/client.py:169 | After the same runs, a regenerate for which the response of the LLM has no choices: the IndexError is acked, and the row stays pending |
| PollProofs.PollDrains | app/runner/decision_poller.py:103-121 | A pending decision leaves the queue exactly when a turn with its queue id neither crashed nor was of unknown kind and its ack was recorded; every other one is fetched again |
| PollProofs.PollEmptiesQueue | app/runner/decision_poller.py:59-125 | A poll of the whole listing in which nothing crashes and every ack is recorded leaves the queue empty |
| DecisionQueue.Queue.Enqueue | app/approval_server/queue.py:51-76 | One line is appended to the queue log and nothing else changes |
| DecisionQueue.Queue.Ack | app/approval_server/queue.py:98-108 | One id is appended to the ack log and nothing else changes |
| DecisionQueue.Queue.ListPending | app/approval_server/queue.py:78-96 | With other threads appending between the two reads, and perhaps half a line during the second, the result is the pending part of the queue log as read, by the ack log as read before it |
| DecisionQueue.TornLineIsSkipped | app/approval_server/queue.py:84-92 | A half-written last line, which is not JSON, adds nothing to a listing |
| DecisionQueue.ListingIsComplete | app/approval_server/queue.py:78-96 | A listing returns every decision enqueued before it and unacked at its end, and none acked before it |
| DecisionQueue.ListingKeepsOrder | app/approval_server/queue.py:84-96 | The decisions of a listing stand at ascending positions of the queue log |
| DecisionQueue.PendingHolds | app/approval_server/queue.py:93-95 | A decision is pending if and only if the log has a line for it whose id is not empty and not acked |
| DecisionQueue.AckRemoves | app/approval_server/queue.py:98-116 | Acking an id takes exactly the decisions with that id out of a listing |
| Soundness.RunsAreSound | app/runner/healing_flow.py:86-91 | From an empty table, after any serial run of collect, approve with nested healing, reject, regenerate and expire: at most one pending row per site, at most three rows per run id, each status is what the audit log replays to, each patch fits the document it was tried on |
| Soundness.StepKeeps | app/runner/healing_flow.py:366-403 | Each operation, including regenerate's supersede-only paths and the healing nested in a rerun, keeps those invariants |
| Soundness.DecidedForever | app/storage/approval.py:69-77 | Over any further serial run a decided row never changes, and every row keeps its run, site, patch and times |
| Soundness.UsableFits | app/runner/healing_flow.py:198-225 | A patch that gets a row applied to the document in the file, and the result passed the schema |
| Soundness.ExpireKeeps | app/approval/state_machine.py:108-123 | The expiry sweep with its audit lines keeps the invariants and never touches a decided row |
| Lifecycle.StageCounts | app/approval/state_machine.py:58-65 | A log in the allowed order has, per id, one creation, at most one decision or expiry, at most one patch_applied and only with an approval, at most one rollback and only with a patch_applied; the counts fix the stage |
| Lifecycle.LinesComeInOrder | app/approval/state_machine.py:159-165 | In such a log every line found the stage it needs: creation first, decision while open, patch_applied after approval, rollback after patch_applied |
| Ledger.StepTexts | app/patching/decision.py:58-122 | One operation changes at most one file, and only to its text with the approved patch; every rolled back, refused or other operation leaves all files byte-identical |
| Ledger.FilesAreReplays | app/patching/decision.py:58-122 | After any serial run each site's text is the initial one with exactly the patches of the kept approvals written to it in decision order, each of which fitted |
| Ledger.DocumentsAreOnePatch | app/patching/apply.py:64-87 | As parsed documents: the initial one with the concatenation of the kept patches applied |
| Ledger.StepStaysValid | app/patching/apply.py:70-87 | When all configs load and validate, no rerun can raise, and afterwards all configs still load and validate |
| Ledger.StrandedExactlyWhen | app/runner/cli.py:421-426 | The rerun of a pending row raises, so that its patch stays without having succeeded, if and only if the patch can be written and the file of some other site does not load or validate |
| Ledger.StrandedPatchStays | app/patching/decision.py:58-91 | What that leaves behind: the row approved, the patch in its file, every other file as it was, a decision and a patch_applied line and no rollback |
| Witnesses.BrokenNeighbourStrands | app/patching/decision.py:58-91 | Two valid files, a good run and a healed one; then the second file is broken: approving the row strands its patch in the first file |
| Ledger.ValidRunsKeepSuccesses | app/patching/decision.py:90-113 | From valid configs the configs stay valid over any serial run, and the patches kept are exactly those whose rerun succeeded |
| Ledger.KeptAreLive | app/patching/decision.py:84-113 | The audit log names the patches in the files: an approval is kept exactly when it has a patch_applied line and no rollback; none is kept twice |
| Ledger.StepLive | app/patching/decision.py:72-113 | One operation makes a patch live in the audit log exactly when it leaves that patch in the file |
| SitePatching.ConfigStore.ApplyPatchToFile | app/patching/apply.py:42-102 | Nothing is written unless the patch applies and the result validates; then the old text is backed up and the new one written |
| SitePatching.ConfigStore.RollbackFromBackup | app/patching/apply.py:105-115 | The backup's text comes back if the backup exists; otherwise nothing changes |
| SitePatching.ConfigStore.LoadAllSites | app/config/loader.py:12-26 | It returns exactly when every file loads and validates, and then names exactly the configured sites |
| SitePatching.WritingKeepsAllLoad | app/patching/apply.py:70-87 | Writing a validated document keeps every file loadable and valid |
| SitePatching.ReplayIsOnePatch | app/patching/apply.py:64-87 | Dumping and loading between patches does not matter: written one after another they are one concatenated patch on the first document |
| Predictions.NotAppliedExactlyWhen | app/patching/decision.py:65-82 | Approving a pending row returns applied=False if and only if its file loads and the patch does not fit the document that is there now |
| Predictions.DryRunPredictsApply | app/healing/dry_run.py:165-193 | Approving a row on the document its dry run used never returns applied=False; with valid configs it always gets to apply and rerun |
| Predictions.NewRowsOnBase | app/runner/healing_flow.py:198-225 | Every new row was tried on the document that is in the file when its operation ends, unless that operation rolled the document back |
| Predictions.FailureNeedsAChange | app/runner/healing_flow.py:198-225 | Over any run, a system-made row can fail to apply only after its site's text has changed |
| NestedHealing.RolledBackBase | app/patching/decision.py:91-113 | An approval whose rerun fails and is healed is rolled back and leaves a pending row whose patch was tried on the patched document, not on the one that is back |
| NestedHealing.NestedHealingMisfires | app/runner/cli.py:318-336 | From an empty table: a good run, a healed failure and a rolled-back approval leave a system-made row that returns applied=False although the text is the initial one |
| Predictions.ApproveDecides | app/patching/decision.py:51-59 | Approving a pending row approves it whatever becomes of its patch and leaves every other row alone; approving anything else raises and changes nothing |
| Predictions.RejectDecides | app/patching/decision.py:133-140 | Rejecting a pending row records who, when and why and touches nothing else; rejecting anything else raises and changes nothing |
| Predictions.RerunSucceedsExactlyWhen | app/runner/cli.py:421-451 | The rerun succeeds if and only if all configs load, the site has one, the run id is new, no collector raises, and some collector stored a record |
| Predictions.CollectHealsExactlyWhen | app/runner/healing_flow.py:70-137 | A collect run makes a row if and only if its run id is new, it failed on a healable issue without an exception, the site has succeeded before, has nothing pending (no site has, if its name is empty) and no rejection in 24 hours, and the dry run compares; the row is pending for 24 hours |
| Endings.CollectHealsWhen | app/runner/healing_flow.py:70-216 | The same from rows, runs, readings, texts and documents alone: the run fails on a changed response, the site is quiet, and what the LLM proposes for the sample can be tried out |
| Predictions.RejectionQuietsHealing | app/runner/healing_flow.py:93-102 | After a rejection, whatever operations follow, no collect run of that site makes a row for 24 hours |
| Predictions.RejectionQuietsSite | app/runner/healing_flow.py:93-102 | Over any run whose collects and reruns are within 24 hours of a rejection, healing nested in reruns included, the site has no pending row |
| Endings.ApproveEnds | app/patching/decision.py:58-122 | The end of the approval of a pending row from file texts, patch and collector readings: raises for a missing or unreadable file; not applied if the patch does not fit; raises with the patch left in if some config does not load; stays if the rerun works; is rolled back otherwise; with the audit lines of each |
| Endings.RegenerateEndsWhen | app/runner/healing_flow.py:312-403 | A regenerate of a pending row makes a successor if and only if the proposal can be tried out, supersedes the row alone if and only if nothing usable is proposed, and otherwise raises and changes nothing; said on the documents |
| Predictions.RegenerateEnds | app/runner/healing_flow.py:312-403 | Regenerating changes nothing, or supersedes the row alone and raises, or supersedes it in favour of one new row of the same run and site; it changes something only for a run with fewer than three rows |
| Predictions.HealableWhen | app/diagnosis/classifier.py:38-56 | Which issue codes make a failed run healable: no fetch failure, and a changed shape, or emptiness without missing fields or a volume drop |
| Predictions.DiagnosisMeans | app/diagnosis/classifier.py:28-56 | The diagnosis of any list of issue codes, by priority |
| Predictions.TallyMeans | app/runner/cli.py:222-263 | The collector loop fails exactly on a collector with issues and no record, collects exactly the issue codes, and breaks exactly on an exception |
| Runner.SiteRunner.CreateApproval | app/approval/state_machine.py:35-70 | Inserts one pending row with the next id, logs it, and changes nothing else |
| Runner.SiteRunner.DecideRow | app/approval/state_machine.py:128-169 | Read, conditional update, audit line: refines the decision specification with its two errors |
| Runner.SiteRunner.ExpireDueRows | app/approval/state_machine.py:108-123 | Refines the sweep: all due rows expired, one audit line each |
| Runner.SiteRunner.ProposePatch | app/runner/healing_flow.py:153-216 | From file, samples and LLM reply to a usable patch or the reason there is none, in the code's order of checks |
| Runner.SiteRunner.MaybeTriggerHealing | app/runner/healing_flow.py:70-251 | The guard sequence and pipeline, effect by effect, refine the healing specification |
| Runner.SiteRunner.RegenerateApproval | app/runner/healing_flow.py:312-431 | Guards, limit, create-then-supersede and the failure paths refine the regenerate specification |
| Runner.SiteRunner.RunCollectors | app/runner/cli.py:222-266 | The loop over the collectors computes the tally of all readings up to the first exception |
| Runner.SiteRunner.RunSite | app/runner/cli.py:202-338 | Start, loop, finish, healing: refines the collect run; a used run id raises before anything changes |
| Runner.SiteRunner.RerunSite | app/runner/cli.py:421-451 | Loading all configs outside the try, then the run inside it: refines the rerun specification |
| Runner.SiteRunner.ApproveAndApply | app/patching/decision.py:51-122 | Refines the approve specification on table, audit log and files |
| Runner.SiteRunner.ApplyRow | app/patching/decision.py:61-122 | Apply, rerun and roll back, step by step, refine their specification |
| Runner.SiteRunner.RejectDecision | app/patching/decision.py:125-147 | Refines the reject specification |
| Approvals.ApprovalRepository.Insert | app/storage/approval.py:18-37 | A pending row under a fresh id; ids only grow |
| Approvals.ApprovalRepository.UpdateStatus | app/storage/approval.py:59-77 | The row changes and 1 is returned if it is pending; otherwise nothing changes and 0 is returned |
| Approvals.ApprovalRepository.ExpirePendingUntil | app/storage/approval.py:79-97 | The ids returned are those of the due pending rows, and exactly these rows lapse |
| Approvals.SweepIsExact | app/storage/approval.py:79-97 | With nothing in between, the sweep expires exactly the pending rows that are due |
| Trees.PartsOfJoined | app/healing/dry_run.py:61 | A path joined by dots from pieces that are not empty and have no dot has exactly those pieces, in order |
| Trees.PartsConcat | app/healing/dry_run.py:61 | At any dot a path falls into the pieces before it and those behind it, so empty pieces do not count |
| Trees.PartsOfPiece | app/healing/dry_run.py:61 | A path without a dot is one piece, or none if it is empty |
| Trees.FalsyValues | app/healing/dry_run.py:165 | Exactly null, false, zero and the empty text, list and dict are replaced by `or {}` |
| Patch.ChangeMeans | app/healing/dry_run.py:60-90 | In terms of the pieces of its path: a change succeeds if and only if all but the last lead to a dict, which has the last as a key unless it is added; then the path holds the new text, null or nothing, and every unrelated path holds what it did |
| Patch.ApplyOneSucceeds | app/healing/dry_run.py:60-90 | One operation succeeds if and only if its parent is a dict and, except for add, its target exists |
| Patch.ApplyOneLookup | app/healing/dry_run.py:60-90 | What every path of the document holds after one operation |
| Patch.ApplyPatchSucceeds | app/healing/dry_run.py:54-57 | A patch succeeds with a result if and only if there is a trace of documents in which each operation is applicable in what its predecessors left |
| Patch.ApplyPatchLookup | app/healing/dry_run.py:44-90 | After a patch every operated path holds its last written value or nothing, every path neither above nor below one is unchanged, every path only above them is still a dict |
| Patch.ApplyPatchConcat | app/healing/dry_run.py:54-57 | Applying p + q is applying p and then q, failures included |
| PatchAlgebra.Commute | app/healing/dry_run.py:60-90 | Operations on paths of which neither leads to the other can be swapped, failures included |
| PatchAlgebra.ReorderPatch | app/healing/dry_run.py:54-90 | Any two orders of pairwise unrelated operations have the same result |
| PatchAlgebra.UndoRestores | app/healing/dry_run.py:60-90 | A successful patch that overwrites and removes only text and nulls is undone by its inverse operations in reverse |
| PatchAlgebra.UndoableExactlyWhenSparing | app/healing/dry_run.py:60-90 | Some patch undoes a successful patch if and only if no operation overwrites or removes a dict, list, number or flag |
| PatchInPlace.DeepCopy | app/healing/dry_run.py:54 | A copy with the same document, sharing no dict object |
| PatchInPlace.NavigateParent | app/healing/dry_run.py:82-90 | The dict object the path leads to, or the error the specification has |
| PatchInPlace.ApplyOneInPlace | app/healing/dry_run.py:60-79 | The assignment in one nested dict object changes the whole document as the specification says |
| PatchInPlace.ApplyPatchToCopy | app/healing/dry_run.py:44-57 | The result is the specification's, and the caller's dict objects are untouched |
| DryRun.RunDryRun | app/healing/dry_run.py:143-239 | The procedure returns or raises what its specification says, in the code's order of checks |
| DryRun.ComparesWhen | app/healing/dry_run.py:165-211 | A verdict is reached if and only if both documents validate, the patch applies, and both have a collector that can run |
| DryRun.CountMissingRequired | app/healing/dry_run.py:260-269 | The loop counts the records that lack a required field |
| DryRun.MissingRequiredCounts | app/healing/dry_run.py:260-273 | That count is the size of the set of records with some empty required field |
| DryRun.JudgeIsStrictOrder | app/healing/dry_run.py:276-288 | Improved is the strict lexicographic order on more records, fewer missing: transitive, and reversed by swapping before and after |
| DryRun.ReportMeans | app/healing/dry_run.py:195-239 | The reported counts, incomplete records by each config's own required fields, and issues are those of the runs on the samples before and after the patch; the sample is the first five records after it |
| DryRun.SameConfigUnchanged | app/healing/dry_run.py:195-211 | A patch that leaves the collector config equal is judged unchanged, with equal counts and issues |
| DryRun.ImprovementsCompose | app/healing/dry_run.py:169-211 | Two improving patches in sequence are together an improving patch |
| DryRun.UndoingAnImprovementRegresses | app/healing/dry_run.py:169-211 | A patch that takes an improvement back is judged a regression |
| Collector.Run | app/collectors/api_jobs.py:23-108 | The pagination loop returns what the recursive specification says and sends one numbered request per fetch |
| Collector.ReadPage | app/collectors/api_jobs.py:60-87 | A page is completed, or ends the run with its issue |
| Collector.Sort | app/collectors/api_jobs.py:89-100 | Postings with an id become records and the others issues, in order |
| RecordFields.RunMeans | app/collectors/api_jobs.py:38-108 | From the fetched documents alone: the completed pages are the good ones up to the limit or the first that is not; the records are those of their items with an id, in order and field by field; each other item has an issue with its page number, and the page that ended the run its own |
| RecordFields.ExtractIsRecord | app/collectors/api_jobs.py:110-137 | Each field of a record is the shown value its own mapped path leads to, none for null or missing; the link is the filled template exactly when it is false and there is a template; raw is the item if it is a dict |
| RecordFields.FormatFills | app/collectors/api_jobs.py:121-125 | A filled template is the text of each segment in order; there is none if and only if the item is no dict or lacks a named field |
| RecordFields.CompletedPagesExist | app/collectors/api_jobs.py:44-103 | Every run has such completed pages |
| Collector.GoodRunIsLongest | app/collectors/api_jobs.py:44-103 | The completed pages are the longest run of good pages from the first |
| Collector.CollectAddsUp | app/collectors/api_jobs.py:44-108 | Records are the id-bearing items of the completed pages in order; records plus missing_external_id issues are all their items; fetches are the pages or one more, within max_pages |
| Collector.FakeFetchesBounded | app/healing/dry_run.py:95-122 | With stored samples and empty_items a run makes at most min(max_pages, samples + 1) fetches |
| Postings.PostingTable.UpsertPostings | app/storage/repository.py:47-120 | Table and counts are the specification's; an exception anywhere restores the table |
| Postings.PostingTable.Upsert | app/storage/repository.py:58-115 | The three branches for one posting: insert, update, or touch its row |
| Postings.PostingTable.PreviousCount | app/storage/repository.py:122-127 | The number of rows of the site |
| Postings.UpsertCounts | app/storage/repository.py:53-120 | inserted + updated + unchanged is the batch length, and previous_count grows by exactly inserted |
| Postings.UpsertHolds | app/storage/repository.py:57-115 | Each id of the batch holds the hash of its last posting and this run; its columns and update time are those of the last posting that changed the hash, its first run and creation time those of the stored row or else of its first posting; every other row is as before |
| ChangeDetection.ChangeIsSeen | app/storage/repository.py:94-115 | For a digest without collisions, a posting of a stored row counts as updated if and only if its title, company or deadline differs from the stored one, nothing and the empty text being equal; then the row holds its fields, and otherwise only the last run changes |
| ChangeDetection.BatchHoldsLatest | app/storage/repository.py:57-115 | After any batch each id holds the title, company and deadline of its last posting, or what was stored |
| ChangeDetection.BatchCounts | app/storage/repository.py:57-120 | inserted, updated and unchanged count the postings whose id was not known, those that differ from what was known last under their id, and the others |
| ChangeDetection.SeparatorHidesChange | app/models.py:29-32 | Title "a<sep>b" with company "c" has the hash of title "a" with company "b<sep>c": such a change counts as unchanged and is not stored |
| Postings.UpsertKeepsHashesFit | app/storage/repository.py:62-115 | The stored hash stays the hash of the stored fields |
| Postings.StoredStays | app/storage/repository.py:110-115 | Upserting what is stored changes nothing but last_seen_run |
| Postings.ReplayUnchangedWhen | app/storage/repository.py:57-115 | Replaying a batch reports all unchanged if and only if postings with the same id have the same content hash |
| Postings.ReplayOfTwoPostingsUpdates | app/storage/repository.py:57-109 | A batch of two postings with one id and different titles: its replay reports two updates |
| Postings.LinkChangeIsNotStored | app/storage/repository.py:110-115 | A posting whose link and raw data alone have changed counts as unchanged, and the old link and raw data stay |
| RunLog.RunTable.StartRun | app/storage/repository.py:27-31 | A run id can be used only once |
| RunLog.RunTable.SummarizeWindow | app/storage/repository.py:141-200 | One entry for each site with a run in the window, with its sums and its latest run |
| RunLog.CountsMean | app/storage/repository.py:162-176 | Each column of a summary is the sum over the runs of the site that started in the window: their number, the succeeded and the failed ones, and what they inserted, updated and left unchanged |
| RunLog.WindowsAdd | app/storage/repository.py:162-176 | The counts of two adjoining windows add up to those of their union |
| RunLog.DaysAddUp | app/clock.py:35-39 | A site's daily counts over any span of KST days add up to one aggregate over the span |
| RunLog.SitesHaveLatest | app/storage/repository.py:178-198 | A site is listed exactly when it has a run in the window, hence a latest one |
| RunLog.SummarizedWhenCounted | app/storage/repository.py:178-198 | A site is listed exactly when the window counts a run of it |
| Collector.SentPagesNumbered | app/collectors/api_jobs.py:41-54 | A run sends one request per fetch, numbered from the start page if the pages are numbered |
| RunLog.UnlistedCountsNothing | app/storage/repository.py:162-176 | A site that is not listed would have counted nothing |
| KstDays.WindowIsTheDayBefore | app/clock.py:35-39 | The window computed at any instant is that of the KST day before the instant's own |
| KstDays.DaysStartAtThreeUtc | app/clock.py:12-38 | A KST day starts at 15:00:00 UTC and at no other time |
| KstDays.WindowsTile | app/clock.py:35-39 | Consecutive windows meet, and each instant is in exactly one |
| KstDays.MidnightIsStartOfDay | app/clock.py:36 | Setting hour, minute and second to zero is going back to the start of the day |
| Timestamps.TextOrderIsTimeOrder | app/approval/state_machine.py:46-48 | Text order of the stored fixed-width timestamps is time order (section 5.1 of RFC 3339) |
| Timestamps.SecondsTick | app/approval/state_machine.py:46-48 | A tick of the clock, over minutes, hours, days, months and leap or other years, is one second |
| Timestamps.FiltersAreArithmetic | app/storage/approval.py:81-84 | The window, expiry and reject filters select exactly the rows an arithmetic comparison would |
| Retention.Snapshots.Cleanup | app/evidence.py:98-118 | By age first, then by size among what is left; all in all every removed directory was older than every readable one that is left |
| Retention.Snapshots.CleanupAge | app/evidence.py:121-136 | Exactly the directories with a readable time older than the limit go |
| Retention.Snapshots.CleanupSize | app/evidence.py:139-165 | A prefix of the directories sorted by (mtime, path, size) goes, and it is the right one: what is left fits, keeping any removed one would not; every removed directory was older than every readable one left, or as old and first by site and run |
| Retention.Snapshots.ListEntries | app/evidence.py:140-154 | Every readable directory is listed once, and the total is the sum of the sizes |
| Retention.Sort | app/evidence.py:157 | Sorted, and a permutation |
| Retention.BeforeIsOrder | app/evidence.py:157 | (mtime, path, size) is a total order |
| Retention.FirstPathsAreOldest | app/evidence.py:157-164 | Whatever number of sorted entries goes, each is older than every readable directory left, ties going by the first differing character of site and then run |
| Retention.RightCutUnique | app/evidence.py:158-164 | There is only one right prefix |
| Retention.RestFits | app/evidence.py:155-165 | What is left is within the bound, and nothing is removed exactly when everything was |
| Retention.RestIsListed | app/evidence.py:157-165 | After the cut the readable directories left are the rest of the sorted list |
| StrictSchema.DescendStrict | app/llm/client.py:181-208 | The subschemas of the strict form, along any path, are the strict forms of the subschemas |
| StrictSchema.StrictObjects | app/llm/client.py:191-197 | Every reachable object schema forbids other properties, and requires exactly its property keys if and only if it has some or had no stale required list |
| StrictSchema.StaleRequiredStays | app/llm/client.py:191-197 | An object schema without properties and with a stale required list comes out requiring a property it forbids |
| StrictSchema.StrictFrame | app/llm/client.py:191-208 | Nothing else changes: other values, a falsy properties value, the order of keys in the schema, its properties and its definitions, the number of alternatives, and schemas that are no objects |
| StrictSchema.StrictIdempotent | app/llm/client.py:181-208 | Making a strict schema strict changes nothing |
| StrictSchemaInPlace.MakeStrict | app/llm/client.py:181-208 | The in-place walk over nested dict objects terminates and turns the document into its strict form |
| StrictSchemaInPlace.Mark | app/llm/client.py:191-195 | The two assignments to one dict object change the document as specified and nothing below it |
| StrictSchemaInPlace.MakeStrictUnder | app/llm/client.py:196-206 | The recursion under one key changes the value under that key alone |

## Left out

- HTTP server and clients, Slack messages, the LLM client with its retries, prompts and path rules: their results are parameters; posting to Slack and writing reports are taken to return.
- Signature and token checks, the run lock, environment, logging, argument parsing, runtime policy, schema migration: short, or no state of the protocol.
- YAML: documents are trees without key order, anchors or shared nodes; a dict object shared by two keys of a loaded file is not modelled.
- Schema validation: an unknown function from documents to configs; in `Collector` a config has only the fields the run reads.
- JMESPath beyond dotted field names, and the text rendering of numbers and nested values by `str` and `format`.
- SHA-256: an unknown function; only `ChangeDetection` assumes that it has no collisions.
- Volume and required-field validation of collected records (app/validators): its issue codes are a parameter of a run.
- The clock is read once per operation of a serial run, and separately for its rerun; backup names have the resolution of seconds.
- Which collectors a run has: the readings of a run are a parameter; two files that configure the same site are one site.
- Interleaving: a healing inside a rerun may insert a row at any time and its guards are not looked at; files and backups are named by the approvals whose patches they contain; the reason of a decision is not kept. The `pending` guard of a healing and its insertion are separate there: a healing inserts a row whatever is pending.
- Approvals.ApprovalRepository.ListPending: the order of the rows is not modelled, because callers only ask whether there are any.
- Queue lines that are JSON but not a decision, a half-written line that ends inside a character (reading it raises), and blanks around ids in the ack log.
- Retention.Sort: an insertion sort stands for the built-in sort; times are integers; a removed directory is taken to be gone; directories of reports are cleaned by age only and are the same procedure.
- An ack request that raises a LookupError: the poller would send it a second time from its first handler.
- Interrupting a serial operation half-way is covered in Interleaving only.
