# Verified model of the assistant's patch tool, client runtime, budgets and file tools

This project models, in Dafny, the parts of the assistant whose correctness is hardest to see by
reading: the patch applier, the client's resume-ticket machine, the invocation dispatcher over its
durable ledger, the renewable user budget, the file tool and tool discovery. Code that changes state
step by step is a class or a method with loops, proved equal to a specification function; the
promises are then proved about that specification, over every input or every run.

`dafny verify dfyconfig.toml` checks the whole project.

## Modules

| part | modules |
|---|---|
| patch applier | `PatchHunks`, `PatchParse`, `PatchPrint` (written patches read back), `PatchApply`, `PatchPlan`, `PatchReverse`, `PatchReject`, `PatchCommit`, `PatchRun` |
| resume tickets | `ResumeTickets` (steps), `ResumeProtocol` (safety), `ResumeAuthority` (who may resume, what each event leaves), `ResumeFairness`, `ResumeRuntime` (the class) |
| dispatcher and ledger | `InvocationLedger`, `DispatchProtocol` (steps), `DispatchSafety`, `DispatchAnswers` (what is started and answered), `CapabilityDispatcher` (the class) |
| user budget | `BudgetStore`, `BudgetQuota`, `BudgetShadow`, `BudgetMirror`, `BudgetRuns`, `BudgetOnce`, `BudgetLimits`, `BudgetEffects` (in tokens), `BudgetMixing`, `BudgetService` (the class) |
| file tool | `FileRead`, `FileReplace` |
| tool discovery | `ToolDiscovery` |
| shared | `Common`, `Text`, `Sums` |

## What the proofs show about the code

- Reversing a clean update restores the text exactly unless the update emptied the list of lines; then
  a newline is gained (`PatchReverse.ReverseActionExact`; a one-line text at `EmptyingUpdateExample`).
- A commit goes through if and only if the changed paths still hold what was planned from and no file
  operation up to the last deletion of a backup fails. Otherwise a complete undo restores everything
  but the paths whose backups were deleted before one that could not be
  (`PatchCommit.FileSystem.Commit`). `PatchCommit.LossExample` is such a run: the undo reports no error
  and one of two files is gone.
- A reject file reads back to the same hunks if and only if no hunk carries a no-newline marker
  (`PatchReject.RejectRoundTripExact`, `MarkerRejectExample`).
- A patch of custom and unified actions that is written out and read gives the same actions, no-newline
  markers included, as long as no two neighbouring unified actions have one path (`PatchPrint.PrintParse`);
  a repeated header continues the action (`PatchReject.RejectRoundTrip`).
- A hunk with a no-newline marker that ends the file closes the text exactly if its new side is unmarked;
  on a text without a final newline it first takes an empty last line for that newline
  (`PatchApply.MarkedEnd`).
- A ticket that sets the watermark without raising it leaves older live tickets as they are; only a raise
  supersedes them (`ResumeAuthority.IngestSupersedes`).
- A committed outcome is the answer to every later reconcile under its identity, unless the invocation is in
  progress again or the memory holds another answer, such as a refused frame under its id
  (`DispatchAnswers.CommittedIsAnswered`).
- A terminal resume ticket can become live again: exactly a late, retryable rejection of its own request
  does it, and a ticket in conflict can then be claimed again (`ResumeProtocol.TerminalLeftExactly`,
  `ResumeFairness.ConflictClaimedAgain`).
- Token limits survive a settlement exactly when what is reported beyond the reservation still fits; the
  call limit always survives (`BudgetLimits.SettleLimitExact`). `OverrunExample` is a run that leaves a
  window at twice its limit.
- A mirrored charge keeps the books if and only if no resource kind is repeated in the call
  (`BudgetMirror.ChargedKeepsInvExactly`, `RepeatedKindExample`). The dimension builders of the code
  never repeat one (`BudgetRuns.DimensionsDistinct`).
- The configured shadow policy version is not validated. A window can come to hold both mirrored charges
  and admitted requests if and only if that version lacks the shadow prefix
  (`BudgetMixing.MixingExact`, with the run at `MixingExample`); the books balance all the same
  (`BudgetRuns.BooksBalance`).
- Each ledger failure other than a conflict while a row is prepared costs the dispatcher one slot for
  the life of the process (`DispatchSafety.CapacityConserved`).
- Paged reading succeeds if and only if every line fits the limit (`FileRead.PagedReadingComplete`).
- The order of entry points decides what is loaded under a name exactly when two admitted legacy tools
  have the name and no package selects it (`ToolDiscovery.OrderMattersExact`; both orders at
  `OrderExample`, and a name that a package selects as well at `SelectedExample`).

## Model

| member | source | states |
|---|---|---|
| PatchHunks.HunkSeenCounts | tools/patch_applier.py:193-210 | the loop counts exactly the old-side and the new-side lines of the hunk body |
| PatchHunks.ValidateHunkCounts | tools/patch_applier.py:163-190 | accepts exactly the hunks whose counted sides agree with their header |
| PatchHunks.LineMeaning | tools/patch_applier.py:467-484 | what a removed, an added, a context and a blank line put on the two sides |
| PatchHunks.ReverseSwapsSides | tools/patch_applier.py:467-484 | reversing a hunk swaps its old and new side |
| PatchHunks.ReverseHunkKeepsCounts | tools/patch_applier.py:539-557 | a reversed hunk agrees with its header if and only if the hunk does, and reversing twice gives the hunk back |
| PatchParse.ParsePatch | tools/patch_applier.py:220-464 | the line loop computes the parse of the normalised text, every error case included |
| PatchParse.HeaderRead | tools/patch_applier.py:144-160 | every printed hunk header, with any suffix, reads back to the same coordinates |
| PatchPrint.PrintParse | tools/patch_applier.py:220-464 | any list of writable custom and unified actions, printed and parsed, is the same list: kinds, paths, hunks with numbers and markers, added lines and final newlines |
| PatchPrint.OneHunk | tools/patch_applier.py:404-447 | a printed hunk reads back with its numbers, lines and markers, in either format |
| PatchPrint.CustomRead | tools/patch_applier.py:279-309 | a printed custom ADD, UPDATE or DELETE reads back as that action |
| PatchPrint.UnifiedRead | tools/patch_applier.py:350-387 | a printed unified UPDATE, or ADD or DELETE through /dev/null, reads back as that action |
| PatchPrint.GitModeRead | tools/patch_applier.py:311-348 | a new or deleted file mode line adds the new or deletes the old path of its git header |
| PatchPrint.RefusedLines | tools/patch_applier.py:389-402 | mode changes, renames, copies and binary patches are refused in every state of the parser |
| PatchPrint.ParsedIsSound | tools/patch_applier.py:231-272 | whatever the text, a parsed patch is not empty and has no empty update, no empty path and no miscounted hunk |
| PatchApply.CandidatesSpec | tools/patch_applier.py:599-614 | the candidates are exactly the positions where the needle stands |
| PatchApply.SelectMatchSpec | tools/patch_applier.py:617-710 | a position is chosen if and only if it is the uniquely nearest exact match allowed, or, with no exact match, the uniquely nearest fuzzy one |
| PatchApply.SelectByHeader | tools/patch_applier.py:630-694 | with coordinates, the choice is the nearest match to the expected line, within the offset limit, and never an ambiguous one |
| PatchApply.SelectByCursor | tools/patch_applier.py:636-710 | without coordinates, the choice is the only match at or after the cursor, or else the only match |
| PatchApply.ApplyHunksToText | tools/patch_applier.py:713-773 | the loop over hunks computes the resulting text and the rejected hunks |
| PatchApply.LenientIsStrictOnAccepted | tools/patch_applier.py:713-773 | applying with rejects equals strictly applying the accepted hunks alone, which succeeds |
| PatchApply.LenientSnoc | tools/patch_applier.py:727-771 | with rejects allowed each hunk goes into what the earlier ones left, and is set aside if and only if it cannot |
| PatchApply.ExactSplice | tools/patch_applier.py:617-710 | without fuzz and markers, an accepted hunk is an exact splice of its old side |
| PatchApply.HeaderPlaces | tools/patch_applier.py:630-660 | a hunk found at the lines its header numbers, moved by the running delta, goes there |
| PatchApply.InsertionPlaces | tools/patch_applier.py:630-648 | a hunk that only adds goes behind the line its header numbers |
| PatchApply.FuzzyMeans | tools/patch_applier.py:607-613 | fuzzy matching forgives spaces and tabs at line ends and nothing else |
| PatchApply.PlainSplice | tools/patch_applier.py:750-767 | every accepted hunk moves cursor and delta by its sides, and without a marker at the end of the file it is a plain splice |
| PatchApply.MarkedEnd | tools/patch_applier.py:750-764 | the exact text after a marked hunk that ends the file |
| PatchApply.MarkedEndNewline | tools/patch_applier.py:757-764 | it ends with a newline if and only if the new side is unmarked, when the last line left is not empty |
| PatchApply.EarlierHunkKeepsEnd | tools/patch_applier.py:750-757 | a hunk that stops short of the end, marked or not, keeps the end of the text as it was |
| PatchApply.MarkerExample | tools/patch_applier.py:757-764 | a marked hunk takes the final newline of a one-line text away |
| PatchApply.DeltaIsLineChange | tools/patch_applier.py:713-773 | the running delta equals the change in the number of lines |
| PatchPlan.BuildPlan | tools/patch_applier.py:826-983 | the planning loop over virtual files computes the plan |
| PatchPlan.AddLeaves | tools/patch_applier.py:840-882 | what an ADD leaves and reports: the added text for a new file or with force, the old text and an error otherwise |
| PatchPlan.UpdateLeaves | tools/patch_applier.py:884-918 | what an UPDATE leaves and reports: all hunks or, with force, exactly the accepted ones, the others reported |
| PatchPlan.DeleteLeaves | tools/patch_applier.py:920-970 | a file is deleted if and only if its content is verified, or forced without anything to verify, and stays as it is otherwise |
| PatchPlan.ErrorLeaves | tools/patch_applier.py:974-983 | an error leaves the content as it was |
| PatchPlan.PlanIsSequential | tools/patch_applier.py:826-983 | planning over virtual files has the outcomes and contents of carrying out the actions one after the other |
| PatchPlan.PlanCommits | tools/patch_applier.py:826-983 | the committed plan is the disk that sequential execution leaves |
| PatchReverse.FittingHunksApply | tools/patch_applier.py:713-773 | ordered, disjoint, well placed hunks apply cleanly at their places |
| PatchReverse.ReversedHunksFit | tools/patch_applier.py:539-557 | the reversed hunks of such a list are again well placed in the result |
| PatchReverse.UpdateRoundTrip | tools/patch_applier.py:713-773 | reversing an update gives the text back, or the text and a newline when the update emptied the lines |
| PatchReverse.ReverseActionExact | tools/patch_applier.py:487-562 | an action is undone by its reverse if and only if it is invertible |
| PatchReverse.EmptyingUpdateExample | tools/patch_applier.py:487-562 | deleting the only line of a text without a final newline and reversing that leaves the line with a newline |
| PatchReverse.ReversedRunRestores | tools/patch_applier.py:487-562 | executing the reversed actions after a clean run restores every file |
| PatchReverse.PlanReverseRestores | tools/patch_applier.py:487-562 | planning and committing the reverse of a clean multi-file plan restores the whole disk |
| PatchCommit.FileSystem.VerifySnapshot | tools/patch_applier.py:993-1016 | passes only if the path still holds what the plan was made from |
| PatchCommit.FileSystem.WriteTemp | tools/patch_applier.py:1019-1033 | writes a fresh temporary file or leaves nothing behind |
| PatchCommit.FileSystem.Stage | tools/patch_applier.py:1053-1068 | every new content is staged under fresh names in a known number of operations, and no planned path moves either way; it stops only for a stale snapshot or a failed operation |
| PatchCommit.FileSystem.SwapOne | tools/patch_applier.py:1070-1084 | one path is moved in with its original recoverable at every point |
| PatchCommit.FileSystem.Swap | tools/patch_applier.py:1070-1084 | either every path is in place and exactly the existing originals have backups, or everything moved so far is recoverable |
| PatchCommit.FileSystem.UndoCommitted | tools/patch_applier.py:1093-1101 | with no error every committed path holds what its backup held; with errors its original is still at the path or in the backup |
| PatchCommit.FileSystem.RestoreStraggler | tools/patch_applier.py:1103-1109 | touches one path and its backup only, never loses the original and never spoils a path already undone |
| PatchCommit.FileSystem.Rollback | tools/patch_applier.py:1090-1114 | with no undo error every path is back to what it was |
| PatchCommit.FileSystem.DeleteBackups | tools/patch_applier.py:1087-1088 | deletes exactly the backups before the first deletion that fails, in the order they were made, and moves no path |
| PatchCommit.FileSystem.Commit | tools/patch_applier.py:1036-1125 | goes through if and only if snapshots hold and no operation up to the last deletion fails; otherwise a complete undo restores all but the paths lost to the deletion, an undo error needs a second failing operation, and whatever is not lost is still at its path or in a backup |
| PatchCommit.LossExample | tools/patch_applier.py:1086-1114 | two updates whose second backup cannot be deleted: no undo error is reported and the first file is gone |
| PatchReject.ParsedHunksAreUnified | tools/patch_applier.py:350-447 | every hunk parsed from a unified diff is a well-formed unified hunk |
| PatchReject.WriteRejects | tools/patch_applier.py:1137-1141 | the loop prints the reject text of one path |
| PatchReject.BodyAbsorbed | tools/patch_applier.py:408-447 | an open hunk takes all its lines as body, also those that look like file headers |
| PatchReject.RejectRoundTrip | tools/patch_applier.py:1128-1141 | reject text of markerless hunks of an ordinary path parses to one update of that path with the same hunks |
| PatchReject.RejectRoundTripExact | tools/patch_applier.py:1128-1141 | the round trip holds if and only if no hunk carries a marker |
| PatchReject.MarkerRejectExample | tools/patch_applier.py:1128-1141 | a hunk that ends a file without a newline comes back without its marker |
| PatchRun.CommitPlan | tools/patch_applier.py:1036-1125 | a plan made from this disk is committed exactly when no operation up to the last deletion fails, and leaves the disk of sequential execution; a failed commit leaves the disk it found less the lost files |
| PatchRun.RejectPathsMean | tools/patch_applier.py:1129-1132 | exactly the paths with a rejected hunk are grouped, each once |
| PatchRun.RejectFilesMean | tools/patch_applier.py:1134-1141 | each of them has a file with its reject text, and no other file changes |
| PatchRun.WriteRejectFiles | tools/patch_applier.py:1128-1141 | writes the reject files of all results in order, up to the first that cannot be written |
| PatchRun.ApplyCustomPatch | tools/patch_applier.py:1154-1209 | from patch text to disk, with the report that belongs to each case: refused and checked patches change nothing, applied ones leave the sequentially executed disk and the reject files of a forced run, and a failed commit is undone as CommitPlan says |
| PatchRun.RequestedReverse | tools/patch_applier.py:1171-1183 | executing what a patch asks for and then what its reverse asks for restores the disk, cleanly, when the actions are invertible |
| PatchRun.ApplyAndReverse | tools/patch_applier.py:1154-1209 | applying a patch and then its reverse, both written, leaves every file as it was when the actions are invertible; the reverse run can only be kept from it by a failing file operation |
| ResumeProtocol.StepKeeps | cl/src/core/client_runtime.py:341-697 | every step keeps the ticket-table invariant |
| ResumeProtocol.RunKeeps | cl/src/core/client_runtime.py:341-697 | every run keeps it |
| ResumeProtocol.WatermarkGrowsInRun | cl/src/core/client_runtime.py:410-428 | within an epoch an execution's watermark never falls |
| ResumeProtocol.AnyClaimAtWatermark | cl/src/core/client_runtime.py:514-534 | only a ticket at the watermark is ever claimed, by worker or by hand |
| ResumeProtocol.AuthorityFencesRevision | cl/src/core/client_runtime.py:615-669 | after an accepted or failed reply at revision N no later step of the epoch claims at N or below |
| ResumeProtocol.RequestIdStable | cl/src/core/client_runtime.py:551-613 | two claims of a ticket differ in request id only if a non-settlement rejection of the first id was applied in between, to an attempt waiting for it, or at a higher revision |
| ResumeProtocol.FreshIdsAreFresh | cl/src/core/resume_ticket.py:132-144 | a fresh id is newer than all ids in use and never goes to an expired ticket |
| ResumeProtocol.TerminalLeftExactly | cl/src/core/client_runtime.py:671-697 | a terminal entry becomes live again if and only if a reviving late rejection of its request arrives |
| ResumeAuthority.RunClaimsAuthorised | cl/src/core/client_runtime.py:451-472 | in every run an attempt is only started for this client's and owner's connection ticket, allowed to resume, with capabilities all confirmed, unexpired if it is the first, while the runtime is ready |
| ResumeAuthority.ClassifyExactly | cl/src/core/client_runtime.py:437-480 | the state every entry is put in, in terms of ticket, clock and runtime |
| ResumeAuthority.ManualClaimsExactly | cl/src/core/client_runtime.py:771-787 | a manual trigger starts an attempt if and only if the ticket is live, not in flight, permitted and unexpired or already carrying an id |
| ResumeAuthority.WorkerClaimsExactly | cl/src/core/client_runtime.py:493-549 | the worker starts an attempt if and only if there is such a ticket that does not wait for a refresh |
| ResumeAuthority.StaleChangesNothing | cl/src/core/client_runtime.py:349-360 | a ticket below the watermark or not above a revision in conflict changes nothing |
| ResumeAuthority.ClashConflicts | cl/src/core/client_runtime.py:362-379 | two checkpoints of one revision: all its live tickets are in conflict and nothing else moves |
| ResumeAuthority.IngestSupersedes | cl/src/core/client_runtime.py:381-428 | a raised watermark supersedes the live tickets of its execution and no others |
| ResumeAuthority.IngestAdmits | cl/src/core/client_runtime.py:400-408 | a new ticket is stored for the present owner, without an id, in the state it belongs in |
| ResumeAuthority.IngestRefreshes | cl/src/core/client_runtime.py:387-398 | a ticket seen again is refreshed and classified, a different one under its key is a conflict |
| ResumeAuthority.RejectionLeaves | cl/src/core/client_runtime.py:671-697 | what each rejection leaves: a settling claim keeps its id, every other one gives it up |
| ResumeAuthority.AuthorityLeaves | cl/src/core/client_runtime.py:641-669 | acceptance and failure forget the ticket and raise the watermark past it; an acceptance without a revision is a conflict |
| ResumeAuthority.DisconnectKeeps | cl/src/core/client_runtime.py:301-316 | a lost connection keeps all tickets and ids and turns attempts in flight into retries |
| ResumeAuthority.ConnectRefreshes | cl/src/core/client_runtime.py:197-212 | a new connection confirms its capabilities and ends the wait for a refresh |
| ResumeFairness.WorkerFairness | cl/src/core/client_runtime.py:493-549 | while a ticket stays eligible the worker claims every other ticket at most once before it |
| ResumeFairness.WorkerMakesProgress | cl/src/core/client_runtime.py:493-534 | while a ticket is eligible a round picks one, and claims it if and only if it did not expire between the two clock readings or already has a request id |
| ResumeFairness.ClaimedWithin | cl/src/core/client_runtime.py:493-549 | if only n other tickets are claimed in a run, a ticket that is eligible until it is claimed is claimed within n + 1 effective rounds |
| ResumeFairness.ConflictClaimedAgain | cl/src/core/client_runtime.py:671-697 | a concrete run in which a ticket in conflict is claimed again |
| ResumeRuntime.ClientRuntime.AdvanceResumeWatermark | cl/src/core/client_runtime.py:410-428 | the in-place update is the specified watermark step |
| ResumeRuntime.ClientRuntime.ClassifyResumeEntry | cl/src/core/client_runtime.py:437-480 | the entry moves to its specified class and nothing else moves |
| ResumeRuntime.ClientRuntime.IngestWaiting | cl/src/core/client_runtime.py:341-408 | the whole table after a payload is the specified one |
| ResumeRuntime.ClientRuntime.NextResumeKey | cl/src/core/client_runtime.py:493-512 | the next eligible key in cyclic order after the last one |
| ResumeRuntime.ClientRuntime.ClaimResumeAttempt | cl/src/core/client_runtime.py:514-534 | the claim and the new table are the specified ones |
| ResumeRuntime.ClientRuntime.WorkerRound | cl/src/core/client_runtime.py:536-549 | a worker round is the specified worker step |
| ResumeRuntime.ClientRuntime.ResumeExecution | cl/src/core/client_runtime.py:771-787 | a manual trigger is the specified manual step |
| ResumeRuntime.ClientRuntime.ApplyResumeOutcome | cl/src/core/client_runtime.py:615-697 | every outcome branch leaves the specified table |
| ResumeRuntime.ClientRuntime.ReceiveReply | cl/src/core/client_runtime.py:551-613 | a correlated reply is applied and an uncorrelated one changes nothing |
| ResumeRuntime.ClientRuntime.AttemptFailed | cl/src/core/client_runtime.py:551-613 | a failed send is the specified step |
| ResumeRuntime.ClientRuntime.ReplyMalformed | cl/src/core/client_runtime.py:551-613 | a malformed reply is the specified step |
| ResumeRuntime.ClientRuntime.HandleDisconnect | cl/src/core/client_runtime.py:301-316 | the in-place loop is the specified disconnect step |
| ResumeRuntime.ClientRuntime.Start | cl/src/core/client_runtime.py:168-212 | reconnection is the specified step |
| ResumeRuntime.ClientRuntime.DrainGeneration | cl/src/core/client_runtime.py:270-281 | emptying the tables is the specified drain step |
| InvocationLedger.ClientInvocationLedger.PrepareRow | cl/src/core/client_invocation_ledger.py:138-207 | inserts or returns the row for equal semantics, refuses others, and moves no row backwards |
| InvocationLedger.ClientInvocationLedger.MarkRowRunning | cl/src/core/client_invocation_ledger.py:209-252 | only a prepared row becomes running |
| InvocationLedger.ClientInvocationLedger.CommitRow | cl/src/core/client_invocation_ledger.py:254-316 | a terminal row is written once |
| InvocationLedger.ClientInvocationLedger.Purge | cl/src/core/client_invocation_ledger.py:335-350 | removes expired terminal rows only and counts them |
| DispatchProtocol.StepAdvances | cl/src/core/client_invocation_ledger.py:209-316 | no step but a purge moves a row back or changes its semantics or outcome |
| DispatchProtocol.RunAdvances | cl/src/core/client_invocation_ledger.py:209-316 | no run without a purge does, crashes included |
| DispatchSafety.StepAgrees | cl/src/core/capability_dispatcher.py:103-391 | every step keeps invocation and worker tables in agreement |
| DispatchSafety.RunKeyInv | cl/src/core/capability_dispatcher.py:103-391 | the per-invocation invariant holds along every run in which the row is not purged |
| DispatchSafety.CalledAtMostOnce | cl/src/core/capability_dispatcher.py:179-311 | over redeliveries, cancellations, resets and crashes a capability that is not replay safe is called at most once |
| DispatchSafety.EnteredIsRemembered | cl/src/core/capability_dispatcher.py:376-522 | once entered, the row is never prepared again, keeps semantics and outcome, and reconcile never answers NOT_FOUND |
| DispatchSafety.CallIsWrittenAhead | cl/src/core/local_capability_executor.py:29-71 | a worker about to call its target stands over a row past PREPARED |
| DispatchSafety.RedeliveryOfTerminal | cl/src/core/capability_dispatcher.py:179-311 | redelivering a committed invocation starts nothing and answers from the ledger |
| DispatchSafety.CapacityConserved | cl/src/core/capability_dispatcher.py:236-352 | free slots, invocations in progress and slots leaked by a raising prepare add up to the same number along every run of a process |
| DispatchProtocol.ReachesPrepareExactly | cl/src/core/capability_dispatcher.py:179-256 | exactly when a dispatch takes a slot and reaches the ledger, which is where a raising prepare costs the slot |
| DispatchAnswers.StartsExactly | cl/src/core/capability_dispatcher.py:179-311 | a request starts a worker if and only if it is idle, unanswered, its row allows it and a slot is free; the worker carries its semantics, key and epoch |
| DispatchAnswers.SilentExactly | cl/src/core/capability_dispatcher.py:179-234 | exactly when a request is met with silence |
| DispatchAnswers.EmitExactly | cl/src/core/capability_dispatcher.py:179-256 | exactly when an outcome is emitted at once, and which |
| DispatchAnswers.EmittedIsRemembered | cl/src/core/capability_dispatcher.py:203-256 | what is emitted is cached for the semantics asked with, and nothing else is |
| DispatchAnswers.RunningExactly | cl/src/core/capability_dispatcher.py:416-434 | RUNNING if and only if a worker of that invocation with those semantics is in progress |
| DispatchAnswers.ConflictExactly | cl/src/core/capability_dispatcher.py:428-522 | CONFLICT if and only if what is held has other semantics |
| DispatchAnswers.TerminalExactly | cl/src/core/capability_dispatcher.py:439-522 | TERMINAL if and only if nothing is in progress and the outcome is cached or committed for those semantics |
| DispatchAnswers.NotFoundExactly | cl/src/core/capability_dispatcher.py:466-522 | NOT_FOUND if and only if nothing is held under the bound identity |
| DispatchAnswers.RecordWrites | cl/src/core/capability_dispatcher.py:553-614 | a recorded outcome is the worker's own, written once, and never for a former principal |
| DispatchAnswers.CommittedIsAnswered | cl/src/core/capability_dispatcher.py:393-522 | once committed an outcome is the answer, at once and through every further run with crashes, and a conflict for other semantics |
| CapabilityDispatcher.Dispatcher.DispatchInvocation | cl/src/core/capability_dispatcher.py:103-311 | response and new state are the specified ones in every branch, a raising ledger included |
| CapabilityDispatcher.Dispatcher.PrepareAndSubmit | cl/src/core/capability_dispatcher.py:236-311 | response and state are the specified ones; the conflict, terminal and running exits give the slot back and a raising prepare keeps it |
| CapabilityDispatcher.Dispatcher.BeforeTargetCall | cl/src/core/capability_dispatcher.py:358-391 | marking the ledger before the call is the specified step |
| CapabilityDispatcher.Dispatcher.Complete | cl/src/core/capability_dispatcher.py:313-352 | taking the finished worker out and giving back its slot is the specified step |
| CapabilityDispatcher.Dispatcher.RecordAndEmit | cl/src/core/capability_dispatcher.py:553-614 | commit and cache are the specified ones, and nothing moves for an older epoch or a refused commit |
| CapabilityDispatcher.Dispatcher.ResetPrincipal | cl/src/core/capability_dispatcher.py:542-551 | a new epoch, an empty cache and cancelled workers over an untouched ledger, as specified |
| CapabilityDispatcher.Dispatcher.ReconcileInvocation | cl/src/core/capability_dispatcher.py:393-522 | the answer is the specified status |
| BudgetQuota.ReserveKeepsInv | se/src/application/user_inference_quota.py:755-1051 | reserving keeps every counter equal to the sum of its rows, an error changes nothing, and a partial reservation set is never met |
| BudgetQuota.ReplayComplete | se/src/application/user_inference_quota.py:792-858 | a repeated request finds all four rows, its window and its policy |
| BudgetQuota.NoUnderflow | se/src/application/user_inference_quota.py:1274-1281 | a reserved row is always covered by the reserved sum |
| BudgetQuota.SettleKeepsInv | se/src/application/user_inference_quota.py:1144-1305 | settling an issued admission keeps the books and fails only for a different report or an overflow, never for an underflow |
| BudgetQuota.RolloverInv | se/src/infrastructure/storage/repositories/user_budget.py:588-692 | a new window starts empty, old windows stay, and the books stay balanced |
| BudgetShadow.ChargeInv | se/src/application/user_budget.py:710-822 | one mirrored dimension keeps rows, counters, receipts and tool usage in balance |
| BudgetShadow.EnsureShadowAccountInv | se/src/application/user_budget.py:421-461 | preparing the account adds policies and a selection and touches nothing else |
| BudgetShadow.ShadowWindowInv | se/src/application/user_budget.py:551-567 | the charged window is a recognised shadow window if and only if the version has the prefix or a policy had been selected; otherwise it is governed by the configured policy |
| BudgetShadow.RepeatedKindDrifts | se/src/application/user_budget.py:710-822 | a repeated kind makes the used counter run ahead of the settled rows |
| BudgetMirror.ChargedKeepsInvExactly | se/src/application/user_budget.py:625-824 | a charging mirror call keeps the books if and only if no kind is repeated |
| BudgetMirror.UnchargedKeepsInv | se/src/application/user_budget.py:666-700 | a repeated call and a zero charge keep the books |
| BudgetMirror.RepeatedKindExample | se/src/application/user_budget.py:710-822 | a call whose window is charged ten and whose receipt says five |
| BudgetMirror.UnprefixedVersionExample | se/src/application/user_budget.py:372-461 | an unprefixed version charges once and is then refused further charges |
| BudgetRuns.DimensionsDistinct | se/src/application/user_budget.py:605-850 | the dimension builders never repeat a kind |
| BudgetRuns.RunKeepsInv | se/src/application/user_inference_quota.py:755-1305 | every run of reservations, settlements, mirrored charges and policy changes keeps the books, under every configuration |
| BudgetRuns.BooksBalance | se/src/application/user_budget.py:625-824 | in every reachable store counters are sums of rows, and sums of settled admissions and receipts; tool calls add up per capability; a recognised shadow window holds receipts only |
| BudgetRuns.RunGrows | se/src/infrastructure/storage/repositories/user_budget.py:920-1034 | along every run rows only settle, once, and receipts, policies and a window's policy are never rewritten |
| BudgetMixing.MirroredHomes | se/src/application/user_budget.py:421-461 | in every reachable store mirrored charges stand in recognised shadow windows or windows of an unprefixed configured policy, and only the latter can hold admitted requests too |
| BudgetMixing.MixingExample | se/src/application/user_inference_quota.py:885-908 | with an unprefixed version the window of a first mirrored charge admits every valid request |
| BudgetMixing.MixingExact | se/src/application/user_inference_quota.py:896-908 | some run mixes the two kinds of charge in a window if and only if the version lacks the prefix |
| BudgetOnce.RepeatIsNotCharged | se/src/application/user_inference_quota.py:784-858 | after any run, a repeat gets the original window back and changes nothing, and a different request under the id is refused and changes nothing |
| BudgetOnce.SettleOnce | se/src/application/user_inference_quota.py:1204-1299 | settling again with the same report, after any run, changes nothing |
| BudgetOnce.MirrorOnce | se/src/application/user_budget.py:641-667 | mirroring a task charge again, after any run, changes nothing |
| BudgetOnce.ReconciliationExact | se/src/application/user_budget.py:184-233 | in every reachable store a receipt reconciles if and only if its source is present and unchanged |
| BudgetLimits.SettleLimitExact | se/src/application/user_inference_quota.py:1244-1298 | exactly how a settlement moves what is used or promised, and when the limit survives it |
| BudgetLimits.OverrunExample | se/src/application/user_inference_quota.py:1224-1298 | a run whose settlement reports twenty input tokens of ten leaves the window over its limit |
| BudgetLimits.CallLimitHolds | se/src/application/user_inference_quota.py:929-938 | used plus reserved calls never exceed the limit in any run |
| BudgetLimits.TokenLimitHolds | se/src/application/user_inference_quota.py:939-968 | the token limits hold in any run whose settlements stay within their reservations |
| BudgetEffects.InputLimitHolds | se/src/application/user_inference_quota.py:939-948 | input tokens used and of pending requests stay within the input limit in any run whose reports stay within the estimates |
| BudgetEffects.OutputLimitHolds | se/src/application/user_inference_quota.py:949-958 | the same for output tokens |
| BudgetEffects.TotalLimitHolds | se/src/application/user_inference_quota.py:959-968 | the same for total tokens |
| BudgetEffects.AdmittedExactly | se/src/application/user_inference_quota.py:892-1035 | a request enters a window if and only if policy, estimate and 64-bit bounds allow it and calls, input, output and total fit beside what is used and pending |
| BudgetEffects.NewRequestAdmitted | se/src/application/user_inference_quota.py:858-1035 | a new id is refused only for its task's history, for want of a window, or by the window |
| BudgetEffects.WindowIsCurrent | se/src/infrastructure/storage/repositories/user_budget.py:588-692 | the window is the active one until it expires, then a new, empty one of the next policy |
| BudgetEffects.AdmissionReserves | se/src/application/user_inference_quota.py:454-466 | an admission makes one call and its input, output and total tokens pending, in its window only |
| BudgetEffects.SettlementCounts | se/src/application/user_inference_quota.py:1204-1299 | a settlement counts one call and the reported input, output and total tokens, each once and in the admission's window only |
| BudgetEffects.ChargeSpends | se/src/application/user_budget.py:605-850 | a task charge spends its price per kind in the account's window and nowhere else |
| BudgetEffects.ToolCallCounts | se/src/application/user_budget.py:611-623 | a tool call counts once for its capability |
| BudgetEffects.ShadowWindowExactly | se/src/application/user_budget.py:421-461 | there is a window to charge if and only if the configured policy can be recorded and no other authority holds the account |
| BudgetEffects.ChargeTakenExactly | se/src/application/user_budget.py:625-824 | a charge not mirrored before is taken if and only if it is free, or has a window, matches its operation and fits the counters |
| BudgetService.UserBudget.RolloverWindow | se/src/infrastructure/storage/repositories/user_budget.py:588-692 | the active window, or a new one with the next epoch |
| BudgetService.UserBudget.SumPending | se/src/infrastructure/storage/repositories/user_budget.py:876-903 | the loop computes the sum of the reserved rows of a kind in a window, and refuses one beyond 64 bits |
| BudgetService.UserBudget.ReplayReservation | se/src/application/user_inference_quota.py:792-858 | the loop answers as the first faulty row says |
| BudgetService.UserBudget.CheckAdmission | se/src/application/user_inference_quota.py:892-968 | the first failing check in the order of the source |
| BudgetService.UserBudget.ReserveQuota | se/src/application/user_inference_quota.py:755-1051 | result and store are those of the specified reservation; errors roll back |
| BudgetService.UserBudget.WriteReservation | se/src/application/user_inference_quota.py:999-1035 | four rows and two counters move together |
| BudgetService.UserBudget.SettleSuccess | se/src/application/user_inference_quota.py:1144-1305 | the loop that collects targets and transitions writes the specified store, or nothing |
| BudgetService.UserBudget.CreateOrGetPolicy | se/src/infrastructure/storage/repositories/user_budget.py:414-459 | policies are immutable and a version names one policy |
| BudgetService.UserBudget.EnsureAccount | se/src/application/user_budget.py:421-461 | the account is ready for shadow accounting, or nothing changed |
| BudgetService.UserBudget.CheckReceipts | se/src/application/user_budget.py:641-671 | the scan finds a conflicting, a present and a missing receipt exactly when there is one |
| BudgetService.UserBudget.ChargeDimension | se/src/application/user_budget.py:710-822 | one dimension is charged field by field as specified |
| BudgetService.UserBudget.MirrorResource | se/src/application/user_budget.py:625-824 | the loop over dimensions leaves the specified store, or nothing |
| FileRead.Read | tools/v1/file_tool.py:1155-1243 | the accumulating loop computes the specified page or error |
| FileRead.PageMeaning | tools/v1/file_tool.py:1176-1243 | a page is a longest run of whole lines that fits, it fails if and only if its first line does not fit, which it names; it continues at the next line and is marked as cut short exactly when lines asked for are missing |
| FileRead.PastTheEnd | tools/v1/file_tool.py:1176-1190 | behind the last line there is an empty page at end of file |
| FileRead.WalkExact | tools/v1/file_tool.py:1176-1243 | following the continuations from any line succeeds if and only if every line from there fits |
| FileRead.PagedReadingComplete | tools/v1/file_tool.py:1176-1243 | from line 1 the pages end at end of file, fit, and concatenate to the text, whatever counts are asked for |
| FileReplace.BoundedSubstitute | tools/v1/file_tool.py:1045-1153 | succeeds if and only if matches fit the budget and the result fits the line limit, and then is the replaced line |
| FileReplace.ReplacedLength | tools/v1/file_tool.py:1064-1153 | the length of the result accounts for every character kept, matched and written |
| FileReplace.ReplaceBySame | tools/v1/file_tool.py:1064-1153 | replacing matches by themselves changes nothing |
| FileReplace.Disk.ReplaceBytes | tools/v1/file_tool.py:776-859 | the file is replaced if and only if no operation fails and it is found with the expected bytes; otherwise only others have written anything |
| FileReplace.Disk.RollBack | tools/v1/file_tool.py:861-908 | the original is back only if the committed bytes were found; a conflict is exactly a file that is gone or read with other bytes, and it is left as found |
| FileReplace.Disk.RollBackAll | tools/v1/file_tool.py:1638-1648 | every committed file gets exactly one rollback verdict |
| FileReplace.Disk.CommitPlans | tools/v1/file_tool.py:1627-1663 | each file has the fate the report gives it; undisturbed it always commits, and it fails only for a failed operation or a file found without its original; the failing, later, unchanged and unplanned files are touched by others only |
| FileReplace.QuietNotDifferent | tools/v1/file_tool.py:776-808 | a file nobody else writes that holds its planned original is never found different |
| FileReplace.ListsPartition | tools/v1/file_tool.py:1635-1663 | rolled back, conflict and failure lists partition the committed paths |
| FileReplace.QuietFates | tools/v1/file_tool.py:861-908 | for a file nobody else writes, each fate fixes its bytes, and there is no conflict |
| ToolDiscovery.LoadTools | cl/src/loader/local_tools.py:337-543 | the loop over entry points leaves tables that hold exactly what an order-free definition of survival says, and a loaded legacy tool is the last admitted one of its name |
| ToolDiscovery.MeetAgrees | cl/src/loader/local_tools.py:390-536 | one more entry point, in any branch, keeps the tables in agreement with that definition |
| ToolDiscovery.MeetLegacy | cl/src/loader/local_tools.py:486-536 | a legacy tool replaces an earlier one of its name, and nothing else changes the file of a loaded legacy tool |
| ToolDiscovery.CollisionExact | cl/src/loader/local_tools.py:416-421 | a package collides with the tables if and only if it shares an id with an earlier entry point |
| ToolDiscovery.GoneExact | cl/src/loader/local_tools.py:422-449 | the disabled group is the claimed ids and every id of the packages hit |
| ToolDiscovery.SurvivalExact | cl/src/loader/local_tools.py:341-536 | a package survives whole if and only if it is disjoint from all others and all admitted legacy names; an admitted legacy name survives if and only if no package selects it |
| ToolDiscovery.LegacyLoadedExactly | cl/src/loader/local_tools.py:472-536 | a legacy tool is loaded under a name if and only if one has it, no package selects it, and the name is internal or else unblocked and allowed |
| ToolDiscovery.OrderIndependent | cl/src/loader/local_tools.py:341-536 | any two orders of the same entry points leave the same ids, packages and tombstones |
| ToolDiscovery.OrderMattersExact | cl/src/loader/local_tools.py:341-536 | some other order of the same entry points leaves something else under a name if and only if two admitted legacy tools have the name and no package selects it |
| ToolDiscovery.OrderExample | cl/src/loader/local_tools.py:504-536 | two admitted legacy tools of one name: the one met last is loaded, in either order |
| ToolDiscovery.SelectedExample | cl/src/loader/local_tools.py:416-461 | with a package that selects the name as well, nothing is loaded under it in any order |

## Left out

- SQL, sessions, compare-and-swap revisions and retry loops: a unit of work is one atomic function of the store, and an error leaves the store as it was.
- Digests and canonical JSON: taken as injective, so a fingerprint stands for the payload and its token estimate.
- Owner resolution, task bindings and task-level statuses of reconciliation (missing binding, task or budget): the model has one owner and reconciles receipt by receipt.
- The source-reservation trigger on receipt insertion (migration 26a): the rows of TaskBudget are not part of the store; only the shape constraints of a receipt are modelled.
- Negative usage reports and the 64-bit guard on window epochs: the source refuses both; reports are natural numbers here and epochs are unbounded, while every counter and amount has its 64-bit bound.
- Compute and cost estimates: the source refuses policies with such limits before it reserves, and so does the model.
- Threads, asyncio, websockets and HTTP: each lock-held section is one step, and network results are inputs.
- Parsing of ticket payloads and outcome envelopes: a malformed reply is a step of its own; the diagnostic fields of an entry are not kept.
- Eviction order of the dispatcher's in-memory terminal cache: eviction is a step that may drop any entries.
- Regular expressions: matches are an ordered list of disjoint spans and the replacement is literal; the expansion guard for back-references is not modelled.
- The planning loop and the reporting of `replace` (tools/v1/file_tool.py:1514-1610), `write` and `search`: they would only add easy members around the substitution and the commit.
- PatchPrint.PrintParse: writes hunk lines with their prefix and a header without numbers as the two signs alone; lines without a prefix, which custom patches may have, are read by the model but not written.
- Quoted paths and the two names of a `diff --git` line: parameters of the parser model.
- Digits other than ASCII in hunk headers.
- File modes, encodings, path safety, symbolic links and directory creation: paths are distinct, temporary names fresh, replacement atomic.
- A reject file that is cut short by a failing write: a failed write leaves no reject file in the model.
- Failures while the staged files are cleaned up at the end of a commit: the model goes on past them, the source raises.
- Loading, manifest validation and handler binding of entry points: discovery is modelled over the valid ones.
- Desktop, window, terminal and glob tools, the UI bridge, gateway, authentication, memory, workflows and the circuit breaker.
