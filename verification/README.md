# A verified model of lecode's state machines

lecode is a terminal agent. Most of what can go wrong in it goes wrong across several calls: an undo after a
summary, a forget marker after a crash, two worker operations that interleave at an `await`. This project models
those state machines in Dafny and proves what they keep. Run `dafny verify dfyconfig.toml` in this directory.

| module | what it models |
|---|---|
| `Records`, `Replay`, `ReplayLaws`, `Visibility` | the session file's records; tombstones, `clear`, exclusions and summaries as replay applies them; what replay means for every file |
| `SessionLog`, `Transcript`, `Restore`, `FailedAppends` | the append-only log as it is written, the plain transcript it refines, undo followed by redo, appends that fail |
| `Extension`, `Growth`, `Sessions` | what appending bookkeeping, or one message, does to a replay; whole sessions, compactions included |
| `Pairing`, `Coverage`, `Sources`, `Compaction`, `KeptTail`, `Coverable` | tool-call pairing, the covered prefix, source lineage, chained compaction, the tail a compaction keeps, when there is something to cover |
| `TornTail`, `Outbox` | torn writes at the byte level; crash-safe delivery of forget markers |
| `Facts`, `FactBook`, `Forgetting` | the fact store's transactions, exclusions and forget epoch; what its tables mean; a forget from the database to the session's file and the model |
| `Slots`, `Reservations`, `WorkerInbox` | the worker scheduler: slot leases, workspace reservations, durable inboxes |
| `Worktree`, `ManagedWorktrees` | worker branches under destination locks, on an abstract commit graph; the same under the manager's reservations |
| `Repair`, `Dialogue`, `Refresh`, `LiveHistory`, `AnswerText`, `Runner` | interrupted tool calls, the live conversation beside the saved one, the final text, the agent loop |
| `Straddling`, `Interrupted`, `Echo` | concrete sessions in which the code falls short |
| `Permission` | layered permission policies and doom-loop detection |
| `Budget`, `JsonRpc`, `Recall`, `ByteStrings` | the cost ledger, message framing, bounded paging, bytes |

A digest or a commit hash is modelled by the very value it identifies, so it is injective and nothing else.
Concurrency is modelled as atomic steps between `await`s, with cancellation, failed syncs and crashes as further
steps. Where the source updates an object in place, a class with the same fields has methods that are proved
against the functions the lemmas are about.

Six findings follow the code where it falls short of what one would expect of it. Each has its exact condition and a
run in which it happens.

* A compaction whose covered range straddles an undone stretch is recorded but never takes effect: the model pays
  for the summary and every visible message is still replayed (`Compaction.CompactionTakesHold`,
  `Compaction.InertExactlyWhenStraddling`). If an earlier summary stood, it is lost as well, and the loop then takes
  the difference in length of the two replays for the length of the covered part. With an earlier summary of two
  messages or more this bound is zero or negative, so the loop takes out nothing, or nearly everything, and puts the
  first message where a summary belongs. The live conversation mirrors the replay again exactly under
  `LiveHistory.StaysInStep` (`LiveHistory.CompactionStaysInStep`). In the session of
  `Straddling.InertCompactionLosesStep` it does not, and a tool result is left without its call. While no interrupted
  answer is visible, the refresh before the next turn puts it right exactly where the loop took out nothing, so that
  the old summary was left behind for the refresh to notice; what was dropped with the summary stays lost
  (`LiveHistory.NextRefreshRepairs`).
* `repair_interrupted_tools` writes results without a memory generation. They close the open calls exactly while the
  session has forgotten nothing; afterwards the results are invisible to replay and a later repair writes them all
  again (`Repair.RepairClosesExactlyAtGenerationZero`, `Repair.RepairIsIdempotent`; a session in
  `Interrupted.RepairIsNeverSeen`).
* `integrate` rechecks the destination after every validation command, but not in the same instant as it merges. It
  moves the destination from exactly the reviewed parent to exactly the reviewed head if and only if nothing moves the
  destination between the last check and the merge (`Worktree.IntegrationIsExact`; a run in
  `Worktree.UnreviewedParentIsPossible`). No operation of the worker manager can do that, as its reservations exclude
  each other: it takes somebody outside, the user or the destination's own execution
  (`ManagedWorktrees.ManagedIntegrationIsExact`).
* Text given before queued input arrives stays in `final_text` once some response since the last tool batch was
  truncated: the reported answer then repeats earlier answers (`AnswerText.FinalTextIsLastAnswer` says exactly when;
  `AnswerText.AnswersAreRepeated`).
* An append that fails after its line has reached the file leaves the handle's number behind. Numbers stay strictly
  increasing if and only if the number is read back between every such failure and the next line written
  (`FailedAppends.NumbersRiseExactlyWhenCareful`, `FailedAppends.NumberIsReused`). Besides opening the file, a flush
  that has forget markers to deliver reads it back, and so does a compaction. Forget markers and worker inputs are
  delivered exactly once all the same (`Outbox.MarkersAreSafe`, `WorkerInbox.InboxIsExactlyOnce`).
  `Transcript.LogRefinesTranscript` is about runs in which an append either succeeds or leaves a torn line.
* Before each turn the live conversation is compared with what the file hides, by text. An interrupted answer that is
  visible, and repeats word for word one that is not, is dropped from the live conversation
  (`Refresh.RefreshKeepsMirror` says exactly when; `Echo.EchoIsDropped`).

## Model

| member | source | states |
|---|---|---|
| `Records.NextNoIsFresh` | src/lecode/session/storage.py:157-161 | the number given to the next record is above every number in the file, whatever order the records are in |
| `SessionLog.LastUser` | src/lecode/session/storage.py:813-819 | the undo target is the last user message: nothing after it is one, and there is none exactly when no message is |
| `SessionLog.SessionFile.constructor` | src/lecode/session/storage.py:249-268 | a new file holds its meta record and numbers from 1 |
| `SessionLog.SessionFile.AppendMessage` | src/lecode/session/storage.py:411-428 | appends the message under the next number and changes nothing else |
| `SessionLog.SessionFile.AppendEvent` | src/lecode/session/storage.py:430-440 | appends the event under the next number and changes nothing else |
| `SessionLog.SessionFile.UndoLastTurn` | src/lecode/session/storage.py:813-819 | hides the last visible user turn, or reports that there is none exactly when no visible message is a user's |
| `SessionLog.SessionFile.RedoLast` | src/lecode/session/storage.py:821-841 | cancels the latest tombstone if and only if it is uncancelled and only usage and forget records followed it |
| `SessionLog.SessionFile.RewindTo` | src/lecode/session/storage.py:843-848 | leaves a restore point, then hides everything after the given number |
| `Transcript.LogRefinesTranscript` | src/lecode/session/storage.py:679-841 | over any run of appends, undo, redo, rewind, events and crashes in mid-write (appends that fail are in `FailedAppends`), the messages loaded from the log are those of a plain list with push, drop-last-turn, truncate and a one-step restore slot; numbers rise strictly; redo is possible exactly when the slot is full |
| `Transcript.StepRefines` | src/lecode/session/storage.py:787-848 | each single operation keeps log and plain transcript in step, from any state in which they agree |
| `Transcript.SaidAfterUndoIsVisible` | src/lecode/session/storage.py:679-689 | a message appended after an undo or rewind is never hidden by it |
| `Transcript.RedoRestoresWindows` | src/lecode/session/storage.py:679-689 | cancelling the last tombstone leaves exactly the hidden stretches there were before it |
| `ReplayLaws.ReplayPartitionsVisible` | src/lecode/session/storage.py:1030-1058 | in every file, replay is either exactly the visible messages or one summary whose source numbers followed by the raw tail's are exactly the visible numbers: no gap, no overlap, also across a `clear` |
| `Visibility.VisibleExactly` | src/lecode/session/storage.py:679-725 | a message is visible exactly if it is in the file, under no tombstone that no redo has cancelled, not cleared away since (which does not count for durable sources), not excluded, and a user's own words or generated under the present forget state |
| `Visibility.WellFormedExactly` | src/lecode/session/storage.py:478-524 | a source is taken only from a file in which every line parses, the first names this session and no other does, and each record has a number above the one before |
| `Visibility.RefValidExactly` | src/lecode/session/storage.py:533-575 | a source reference is valid exactly if it is this session's, the file is well formed, and the messages in its range, at most 200 positions, are the very ones it was taken of, all of them visible |
| `Visibility.ChainExactly` | src/lecode/session/storage.py:927-974 | a chain of summaries holds exactly if every summary on it is undisturbed by tombstones and still in the file, under its number, as its successor recorded it |
| `Visibility.SummaryExactly` | src/lecode/session/storage.py:927-974 | a summary is replayed exactly if no later one was recorded, nothing was cleared since, its chain holds, and its references are valid and exactly the visible messages below the tail it keeps |
| `Extension.SummaryContinues` | src/lecode/session/storage.py:927-974 | bookkeeping records that leave the tombstones alone and add no summary neither create nor destroy the working summary |
| `Extension.ReplayContinues` | src/lecode/session/storage.py:1030-1058 | such records do not change what the model is handed |
| `Restore.RedoRestoresReplay` | src/lecode/session/storage.py:813-848 | undo or rewind, any usage and forget records, then redo: the redo succeeds and the replay, working summary included, is identical |
| `Restore.ReachableRedoRestoresReplay` | src/lecode/session/storage.py:813-848 | the same in every state the store's own operations reach |
| `Growth.FreshIsSeen` | src/lecode/session/storage.py:691-725 | a new message is hidden by no tombstone and no clear; only exclusions and its generation decide |
| `Growth.ReplayGrows` | src/lecode/session/storage.py:1030-1058 | appending a message appends it to the replay, or changes nothing if the forget state hides it; a working summary stays either way |
| `Sessions.EverySessionIsWellKept` | src/lecode/session/storage.py:787-848 | whatever is said, undone, redone, rewound, noted, torn by a crash or compacted, in any order: numbers stay sound, the meta record is there, and the latest summary names only numbers that exist, which is what growth, repair and further compactions ask of a file |
| `Sessions.CompactingAgain` | src/lecode/session/compaction.py:213-310 | in every state such a session reaches, one more compaction replays as its summary and the kept tail, or, if its range meets an active tombstone, as everything visible |
| `Sessions.RepairingAnySession` | src/lecode/extras/workers.py:602-617 | in every state such a session reaches, the repair closes every open call exactly when there is none or nothing has been forgotten |
| `Pairing.OutstandingAppend` | src/lecode/extras/workers.py:592-600 | what is outstanding after a history depends on an earlier part only through what that part left open |
| `Pairing.TailOfClosedPrefix` | src/lecode/session/compaction.py:142-186 | cutting a history where nothing is open leaves a tail with the same open calls and no orphaned result |
| `Coverage.CoveredIsLargestCut` | src/lecode/session/compaction.py:142-186 | the covered prefix is what the largest permitted cut covers, and empty exactly when there is none: complete exchange, every call paired, enough messages left raw, encoded lines within budget |
| `Coverage.Cover` | src/lecode/session/compaction.py:142-186 | the loop returns exactly that prefix and its length |
| `Coverage.CutIsClosed` | src/lecode/session/compaction.py:159-185 | in the covered structure nothing is incomplete, every call has a later result and every result answers a call still open |
| `Coverable.ScanIsOrderly` | src/lecode/session/compaction.py:142-186 | the scan gets past a sequence of messages exactly if all are complete, users speak only between exchanges, every result answers a call still open, and the assistant goes on only when no call is open |
| `Coverable.CoversExactly` | src/lecode/session/compaction.py:142-186 | something is covered exactly if some orderly prefix ends with an answer, leaves enough messages raw and fits joined into the budget; and then it is the longest such prefix |
| `Coverable.PreparesExactly` | src/lecode/session/compaction.py:213-245 | a compaction has something to do if and only if the file is well formed and some prefix of what has not been summarized yet can be summarized in that sense |
| `Coverable.PreparesLongest` | src/lecode/session/compaction.py:213-245 | what it then covers is the longest such prefix |
| `Pairing.OpenBefore` | src/lecode/extras/workers.py:592-600 | calls open before a history stay open until it answers them, and change nothing else |
| `Pairing.TailIsPaired` | src/lecode/session/compaction.py:142-186 | taking the front off a well-paired history leaves nothing new open, and no orphaned result exactly when the rest repeats the calls the front left open before it answers them |
| `KeptTail.CoveredIsPrefix` | src/lecode/session/compaction.py:142-186 | the lines the summarizer reads, picked out of the structure by their numbers, are exactly the front of the visible messages |
| `KeptTail.PlanCoversWhatWasRead` | src/lecode/session/compaction.py:213-262 | the prefix a compaction records is the sequence the summarizer read |
| `KeptTail.KeptTailIsPaired` | src/lecode/session/compaction.py:213-262 | summary and kept tail leave no call open if the replay did not, and have no orphaned result exactly when the tail makes again the calls whose results were hidden from the covered part |
| `KeptTail.UnforgottenStaysPaired` | src/lecode/session/compaction.py:142-186 | while nothing since the last summary has been forgotten, a well-paired replay stays well paired through every compaction |
| `KeptTail.CompactionKeepsPairing` | src/lecode/session/storage.py:1030-1058 | the same of what the model is actually handed after a compaction that takes hold |
| `Sources.FindRunEnd` | src/lecode/session/storage.py:896-919 | finds the end of the run of consecutive numbers, at most 200 positions long |
| `Sources.CaptureSources` | src/lecode/session/storage.py:896-919 | returns the snapshots of the consecutive runs in order, or nothing if one of them is not valid |
| `Sources.RunSnapshot` | src/lecode/session/storage.py:453-531 | the snapshot of a run of visible messages is valid and selects exactly that run |
| `Sources.CaptureCovers` | src/lecode/session/storage.py:896-919 | in a well-formed file, capturing visible messages succeeds, every snapshot validates, and their numbers are exactly the messages' numbers |
| `Sources.CaptureIsTight` | src/lecode/session/storage.py:896-919 | snapshots are split only where the numbers are, or after 200 positions |
| `Compaction.PlanIsFaithful` | src/lecode/session/compaction.py:213-262 | whatever is prepared partitions the visible history: all earlier references plus the new ones are exactly what lies below the kept tail, and they validate |
| `Compaction.CompactionTakesHold` | src/lecode/session/compaction.py:213-310 | at any chain depth, a recorded compaction becomes the working summary if and only if its range meets no active tombstone; its sources are exactly the visible messages below `keep_from_seq`, and replay is that summary followed by the unchanged tail, otherwise still every visible message |
| `Compaction.ReachableCompactionTakesHold` | src/lecode/session/storage.py:976-1010 | the same in every state the store's operations reach, earlier compactions included |
| `Compaction.InertExactlyWhenStraddling` | src/lecode/session/storage.py:1012-1028 | the range meets an active tombstone exactly when an undone stretch lies between the first and the last covered message |
| `Compaction.Commit` | src/lecode/session/compaction.py:264-310 | the event is recorded exactly when neither the file nor the forget state moved since the plan was read; otherwise only the call's usage is |
| `TornTail.AppendAddsOneLine` | src/lecode/session/storage.py:397-405 | an append adds exactly its own line for a line-by-line reader, whatever the file ended with |
| `TornTail.CutAppendTearsOneLine` | src/lecode/session/storage.py:397-405 | an append cut at any byte leaves every earlier line and at most a beginning of its own |
| `TornTail.NextAppendSurvives` | src/lecode/session/storage.py:397-405 | the next append after such a cut is not swallowed by the torn line |
| `Outbox.MarkersAreSafe` | src/lecode/session/storage.py:345-409 | with crashes, torn writes, failed syncs and failed appends of other records at any point: at most one parseable marker per fact, and an acknowledged one is on disk; no number appears twice as long as nothing is written under a number that a failed append may have taken |
| `Outbox.QueuedUntilAcknowledged` | src/lecode/memory/facts.py:237-266 | a queued fact leaves the queue only by its acknowledgement, and until then can always be delivered or synced again |
| `FailedAppends.NumbersRiseExactlyWhenCareful` | src/lecode/session/storage.py:397-409 | over any run of appends that succeed or fail, leaving nothing, a torn line or the whole line, numbers rise strictly if and only if the number is read back between every landed failure and the next line written |
| `FailedAppends.NumberIsReused` | src/lecode/session/storage.py:397-409 | a landed failure and the next append share a number, unless the number is read back in between |
| `Outbox.AttachedSession.FlushForgets` | src/lecode/session/storage.py:345-370 | whatever number the handle had and whatever fails, the flush keeps at most one marker per fact and loses nothing that was queued; it acknowledges everything exactly if no fault strikes; the handle has the next free number afterwards if anything was queued and the file can be read, and a flush with nothing queued changes nothing |
| `Outbox.AttachedSession.Deliver` | src/lecode/session/storage.py:358-370 | appends and syncs a marker, or syncs the one already there; after a fault that leaves nothing, a torn line or the whole marker, the number is read back if the file can be read |
| `Outbox.AttachedSession.AcknowledgeForget` | src/lecode/memory/facts.py:260-266 | takes the synced marker off the queue, or leaves the queue alone if the database fails |
| `Facts.FreshRunKeepsInvariant` | src/lecode/memory/facts.py:126-138 | over any run on a fresh database: revisions are exactly 1..n with one provenance each, the current text is revision n, and the epoch is the number of exclusions plus forgotten facts |
| `Facts.ForgetIsPermanent` | src/lecode/memory/facts.py:206-235 | a forget strictly raises the epoch, excludes every source that ever contributed, queues one marker per contributing session, and the fact id never comes back whatever runs later |
| `Facts.RunIsLater` | src/lecode/memory/facts.py:166-204 | no transaction takes back an exclusion, a forgotten id or an epoch |
| `Facts.ExcludedFactIsFrozen` | src/lecode/memory/facts.py:362-415 | a fact that shares a source with a forgotten one can never change again |
| `Facts.HistoryIsImmutable` | src/lecode/memory/facts.py:385-415 | over any run a recorded revision keeps its text, its provenance and its attached source, until the whole fact is forgotten; then it is gone for good |
| `Facts.StepKeepsInvariant` | src/lecode/memory/facts.py:268-415 | each transaction (add, revise, remember, correct, attach, forget, acknowledge) keeps the tables consistent or changes nothing |
| `Facts.FactStore.ForgetFact` | src/lecode/memory/facts.py:206-235 | the in-place transaction is exactly the modelled one, error cases included |
| `Facts.FactStore.AddFact` | src/lecode/memory/facts.py:362-383 | likewise for adding |
| `Facts.FactStore.ReviseFact` | src/lecode/memory/facts.py:385-415 | likewise for revising; what both mean is said in `FactBook` |
| `Facts.FactStore.SourcesFor` | src/lecode/memory/facts.py:206-235 | the loop collects exactly the sources of every revision's provenance and attached reference |
| `Facts.FactStore.Purge` | src/lecode/memory/facts.py:206-235 | excluding the sources, queueing the markers and deleting the rows is one modelled forget |
| `Facts.FactStore.Exclude` | src/lecode/memory/facts.py:126-138 | the epoch rises by the number of exclusions that are new |
| `FactBook.StepHolds` | src/lecode/memory/facts.py:206-415 | every transaction does to the tables what the plain operation does to a list of entries per fact: add the first, append one, attach evidence to one, or drop the fact and exclude every message its entries rest on |
| `FactBook.ReviseAgrees` | src/lecode/memory/facts.py:385-415 | a revision fails alike in both and with the same error, or answers the same fact and appends exactly one entry with the stripped text and the message it names |
| `FactBook.AddAgrees` | src/lecode/memory/facts.py:362-383 | likewise for adding: the first entry of a new fact, or the fact as it stands |
| `FactBook.AttachAgrees` | src/lecode/memory/facts.py:495-527 | likewise for attaching a snapshot: to the revision it is for, once, and only if it contains that revision's message |
| `FactBook.ForgetAgrees` | src/lecode/memory/facts.py:206-235 | likewise for forgetting: the excluded messages are exactly those some entry rests on |
| `FactBook.TablesHoldBook` | src/lecode/memory/facts.py:206-415 | over any run the tables hold exactly the book the same operations write |
| `FactBook.FreshTablesHoldBook` | src/lecode/memory/facts.py:206-415 | so do the tables of every run that starts from an empty database |
| `FactBook.RewriteAddsOne` | src/lecode/memory/facts.py:320-415 | a successful revision or correction adds exactly one revision, with that text and that message; nothing else changes what a live fact says |
| `FactBook.SaysWhatWasWritten` | src/lecode/memory/facts.py:320-415 | over any run a live fact says what the last successful revision or correction of it wrote, stripped, or what it was first named after; its revision counts them |
| `FactBook.FreshFactsSayWhatWasWritten` | src/lecode/memory/facts.py:320-415 | from an empty database, a live fact says the text last written, or the one it was named after, at a revision one above the number of rewritings |
| `Facts.StripTrims` | src/lecode/memory/facts.py:36-43 | stripping removes only blanks, and all of them at both ends |
| `Forgetting.ForgottenIsGone` | src/lecode/session/storage.py:691-725 | after a forget, whatever is done to the database later, no message the fact was learned from is visible in its session, and no working summary covers one |
| `Forgetting.ExcludedIsGone` | src/lecode/session/storage.py:1030-1058 | an excluded number is neither among the messages handed to the model nor among the sources of the summary |
| `Forgetting.EpochTells` | src/lecode/session/storage.py:238-239 | the epoch alone tells whether anything was forgotten: while it stands, so do all exclusions |
| `Forgetting.AlwaysTracks` | src/lecode/memory/facts.py:206-266 | in any run of the database beside a session's file, failed appends included, the queue in the database is the one the file is flushed from, and both keep their invariants |
| `Forgetting.ForgottenReachesFile` | src/lecode/session/storage.py:345-370 | once a fact is forgotten, its marker for a contributing session is queued until it is durably in that session's file, exactly once, with crashes and failed writes and appends at any point |
| `Slots.SlotsAreConserved` | src/lecode/extras/workers.py:777-843 | with suspension, stop and cancellation at any await: free slots plus leases are MAX_EXECUTING, a running worker holds a lease, a waiting one holds none, and slots taken minus slots given back is the lease held now |
| `Slots.NoSlotIsHeldWhileWaiting` | src/lecode/extras/workers.py:940-965 | a worker queues for a slot only while every slot is held by a worker that executes, so waiting supervisors cannot starve their children; a worker whose task has ended has returned every slot |
| `Slots.DispatchCompletes` | src/lecode/extras/workers.py:777-843 | with a slot free, an idle worker can be launched and run to its end; it takes one slot and gives it back |
| `Slots.StoppedBeforeItStarts` | src/lecode/extras/workers.py:790-800 | a worker stopped before its start hook is over ends without having taken a slot |
| `Slots.WaitingFreesSlot` | src/lecode/extras/workers.py:940-965 | a supervisor gives its slot up for exactly as long as it waits |
| `Slots.RaisingReturnsSlot` | src/lecode/extras/workers.py:826-843 | a failure or cancellation at any await ends the dispatch and returns exactly the slot that is held |
| `Slots.Scheduler.AcquireSlot` | src/lecode/extras/workers.py:777-843 | taking a slot is the modelled step and keeps the invariant |
| `Slots.Scheduler.EnterSuspend` | src/lecode/extras/workers.py:940-965 | a lease is given up exactly by the task that is its holder's own supervisor, while it executes; otherwise nothing changes |
| `Slots.Scheduler.LeaveLifecycle` | src/lecode/extras/workers.py:777-843 | leaving releases a lease that is still held, and only then |
| `Reservations.ReservationsExcludeExecution` | src/lecode/extras/workers.py:173-219 | under any interleaving of start, dispatch, end and maintenance, reserved roots are never one above the other, and no worker under one is active or being given a child except the execution that reserved it, also across the await inside `start` |
| `Reservations.AncestorsAreOrdered` | src/lecode/extras/workers.py:173-178 | two ancestors of one worker lie on one path, which is why a walk up the parents suffices |
| `Reservations.ParentsToolIsAdmitted` | src/lecode/extras/workers.py:180-219 | a tool of the parent may maintain the parent's child exactly when it is alone, nothing is reserved at or above the child or below the parent, no child is being started there and nobody but the parent is active there |
| `Reservations.OwnSupervisorIsAdmitted` | src/lecode/extras/workers.py:180-219 | a supervisor may reconcile its own workspace exactly when nobody but itself is active in it, and nothing is reserved or being started there |
| `Reservations.OthersAreAdmitted` | src/lecode/extras/workers.py:180-219 | anyone else needs everybody in the workspace to be idle |
| `Reservations.StartBlocksMaintenance` | src/lecode/extras/workers.py:443-475 | while a child is being started, nobody can reserve a workspace that holds its parent |
| `Reservations.StartGoesThrough` | src/lecode/extras/workers.py:443-475 | a start under an unreserved parent can always end, with or without the child; then the count of starts is what it was and only the child is new |
| `Reservations.WorkerManager.WorkspaceAvailable` | src/lecode/extras/workers.py:173-178 | the walk up the parents succeeds exactly when no reservation covers the worker |
| `Reservations.WorkerManager.SubtreeIdle` | src/lecode/extras/workers.py:180-219 | the traversal answers exactly whether every worker of the subtree is idle |
| `Reservations.WorkerManager.MaintainWorkspace` | src/lecode/extras/workers.py:180-219 | a reservation is made exactly when it is grantable, and then only that one; a tool, of a worker or of the root agent, is refused while its sibling tools are unfinished; the task that holds a workspace enters it again and changes nothing |
| `WorkerInbox.InboxIsExactlyOnce` | src/lecode/extras/workers.py:567-651 | for any interleaving of enqueue and consume, with a crash after any record and any append failing with nothing, a torn line or its whole line left behind, the delivered ids are a duplicate-free prefix of the queued ids, in order, each with its own text |
| `WorkerInbox.PendingIsRest` | src/lecode/extras/workers.py:579-590 | what is pending is exactly the undelivered rest of the queue |
| `WorkerInbox.ConsumeDrains` | src/lecode/extras/workers.py:627-651 | a consumer that does not crash leaves nothing pending |
| `WorkerInbox.NewSessionHasEmptyInbox` | src/lecode/session/storage.py:249-268 | a new worker session starts in the state those runs start from |
| `WorkerInbox.ConsumePending` | src/lecode/extras/workers.py:627-651 | refuses exactly while a call is open in memory or in the file, and then changes nothing; otherwise every pending item and every notification is saved and shown, in order, and nothing is left open |
| `WorkerInbox.InboxIsSaved` | src/lecode/extras/workers.py:636-639 | what the file gains by a delivery is what the live history gains, in order, each message marked with the id of its input |
| `WorkerInbox.NoticesAreSaved` | src/lecode/extras/workers.py:640-650 | likewise for notifications |
| `WorkerInbox.NoticesAreAcknowledged` | src/lecode/extras/workers.py:640-650 | the manager's own session acknowledges each notice once, another's never |
| `WorkerInbox.NoticesKeepPrefix` | src/lecode/extras/workers.py:640-650 | notifications never disturb the inbox |
| `Worktree.AncestorTransitive` | src/lecode/extras/worktree.py:499-507 | containment of commits is transitive |
| `Worktree.AncestorAntisymmetric` | src/lecode/extras/worktree.py:499-507 | two commits that contain each other are the same, so "contains" is an order |
| `Worktree.HeadsOnlyAdvance` | src/lecode/extras/worktree.py:509-683 | under any interleaving of worker operations and commits, a branch that is not deleted only moves to descendants |
| `Worktree.NoCommitIsLost` | src/lecode/extras/worktree.py:657-683 | every commit some branch contains stays contained in a branch, deleted workers included |
| `Worktree.StepAdvances` | src/lecode/extras/worktree.py:657-683 | a branch disappears only by cleanup, and only once its pinned destination contains its head |
| `Worktree.IntegrationIsExact` | src/lecode/extras/worktree.py:561-655 | in any run, the merge moves the destination from exactly the reviewed parent to exactly the reviewed head if and only if no step strictly between the last check and the merge moves or deletes it |
| `Worktree.UnreviewedParentIsPossible` | src/lecode/extras/worktree.py:561-655 | a run from a fresh repository in which somebody fast-forwards the destination to the worker's first commit after the last check, and the merge succeeds from there |
| `Worktree.FinishContains` | src/lecode/extras/worktree.py:645-655 | whenever git accepts the merge the destination contains the reviewed head, and it has not moved otherwise |
| `Worktree.ReviewGoesThrough` | src/lecode/extras/worktree.py:561-655 | left alone, an integration goes through exactly if the worker is at the reviewed head, the destination at the reviewed parent and the parent contained in the head; then only the destination has moved, to the reviewed head |
| `Worktree.CleanupGoesThrough` | src/lecode/extras/worktree.py:657-683 | left alone, a worker is cleaned up exactly if its destination contains it, and only its branch goes |
| `Worktree.ReconcileGoesThrough` | src/lecode/extras/worktree.py:514-560 | left alone, reconciling brings exactly the destination's progress into the worker, and on a conflict leaves it where it was |
| `Worktree.RecreateGoesThrough` | src/lecode/extras/worktree.py:514-560 | a worker whose branch is gone gets it back at its recorded base before it is reconciled; no other branch moves |
| `ManagedWorktrees.AlwaysManaged` | src/lecode/extras/workers.py:173-219 | in any run under the manager, every operation on a branch runs inside a reservation of its worker or of its worker's parent, one at a time |
| `ManagedWorktrees.GrantedMayBegin` | src/lecode/extras/workers.py:180-215 | whoever is granted a reservation may begin in it: any operation under one that includes the parent, a reconciliation under the worker's own |
| `ManagedWorktrees.OnlyOutsidersMove` | src/lecode/agent/tools/workers.py:194-237 | while an integration has been checked, no step of the manager and no other worktree operation moves or deletes its destination |
| `ManagedWorktrees.ManagedIntegrationIsExact` | src/lecode/extras/workers.py:180-219 | under the manager the merge is exactly the reviewed one if and only if nobody outside the manager moves the destination between the last check and the merge |
| `Worktree.Repository.Integrate` | src/lecode/extras/worktree.py:561-655 | with others pushing at every await: success needs every validation to pass, leaves the reviewed head contained, and merges onto a descendant of the reviewed parent; onto the parent itself, the new head is the reviewed one. If nobody touches the two branches it succeeds exactly if both are where the review saw them, the parent is contained in the head, every command passes and there is one or somebody approved doing without; otherwise the destination stays, and what it gained since the review is brought into the worker |
| `Worktree.Repository.MergeDestination` | src/lecode/extras/worktree.py:509-512 | moves only the worker's branch, only forward, and not at all if it already contains the target |
| `Permission.EveryLayerDecides` | src/lecode/permission/checker.py:270-280 | a call is denied exactly when some layer of some ancestor denies it, and allowed exactly when no layer denies or asks |
| `Permission.DescendantsAreStricter` | src/lecode/permission/checker.py:224-246 | along any derivation chain a policy is at least as strict as every ancestor, whatever its overlay, grants and mode |
| `Permission.DenyIsUnbypassable` | src/lecode/permission/checker.py:282-299 | a deny rule or denied tool of any ancestor, its overlay included, decides for every descendant |
| `Permission.GrantOnlyLiftsFallback` | src/lecode/permission/checker.py:282-324 | an "allow always" grant only ever lifts the mode fallback's denial for its own tool; no deny rule, ask rule, overlay or read-only flag yields to it |
| `Permission.ReadOnlyModeTightens` | src/lecode/permission/checker.py:205-207 | switching the fallback to readonly never makes a decision laxer |
| `Permission.ReadOnlyDeniesWrites` | src/lecode/permission/checker.py:180-203 | whenever a policy reports itself read-only, every call that is not read-class is denied, for all rules, grants, overlays and arguments |
| `Permission.ReadOnlyExactly` | src/lecode/permission/checker.py:180-203 | a policy without overlay, ancestors and deny rules reports itself read-only exactly if it denies every call that is not read-class, whatever its patterns match |
| `Permission.ReadOnlyIsInherited` | src/lecode/permission/checker.py:180-203 | read-only survives every derivation |
| `Permission.DerivationNarrows` | src/lecode/permission/checker.py:218-246 | a derived checker is capped by its parent, and read-only when either asks for it |
| `Permission.LastMatchAllowAsk` | src/lecode/permission/checker.py:335-345 | with the allow rules and then the ask rules as one list, walking both tables gives what the last matching rule says, and nothing exactly if none matches |
| `Permission.AllowAskIsLast` | src/lecode/permission/checker.py:335-345 | so does the rule that an ask rule wins over an allow rule |
| `Permission.AloneDecides` | src/lecode/permission/checker.py:282-324 | what a policy without overlay and ancestors decides, said of the rules: deny on a matching deny rule, else deny if it is read-only and the call is not read-class, else ask on a matching ask rule, else allow on a matching allow rule or grant, else as the mode says |
| `Permission.OverlayDecides` | src/lecode/permission/checker.py:282-324 | what an overlay adds to its layer: its deny rules and denied tools first, its ask and allow rules before the policy's, its mode in place of the policy's |
| `Permission.ReadClassExactly` | src/lecode/permission/checker.py:365-377 | which calls count as read-class; a `workers` call does by its action only |
| `Permission.RepeatsIsLongestRun` | src/lecode/permission/checker.py:132-144 | the tracker's count is the length of the longest run of identical calls at the end of the history |
| `Permission.DoomTracker.Record` | src/lecode/permission/checker.py:132-144 | counting one call at a time gives exactly that length |
| `Permission.DoomTracker.Check` | src/lecode/permission/checker.py:347-363 | one verdict is the policy's, tightened by the length of the current run of identical calls |
| `Permission.CheckAll` | src/lecode/permission/checker.py:248-268 | the verdicts on a series of calls, each with the policy then in force |
| `Permission.DoomOnlyTightens` | src/lecode/permission/checker.py:347-363 | doom tracking only tightens: it touches nothing before the third identical call in a row, never lets that one through unasked, and always denies the fourth |
| `Repair.RepairClosesExactlyAtGenerationZero` | src/lecode/extras/workers.py:602-617 | the repair answers every open call, leaving none, exactly when there was none or nothing has been forgotten; at a later generation the replay does not change at all |
| `Repair.RepairIsIdempotent` | src/lecode/extras/workers.py:602-617 | repairing again writes nothing, exactly when there was nothing to repair or nothing has been forgotten |
| `Repair.RepairLeavesNoOrphans` | src/lecode/extras/workers.py:592-617 | every result the repair adds answers a call still open at that point |
| `Repair.LiveHistoryCloses` | src/lecode/extras/workers.py:602-617 | the live history is closed too, exactly when the file knows every call it left open |
| `Repair.RepairInterruptedTools` | src/lecode/extras/workers.py:602-617 | the loop writes one result per open call to the file and mirrors those the live history is waiting for |
| `Interrupted.RepairIsNeverSeen` | src/lecode/extras/workers.py:602-617 | a session interrupted at a later generation: the call stays open after the repair, and the next repair writes its answer again |
| `Dialogue.OnlyLastingMatters` | src/lecode/extras/workers.py:592-600 | prompts that are never saved do not affect what is outstanding |
| `Dialogue.RemovePrefix` | src/lecode/agent/runner.py:1037-1048 | removing the covered messages from the live history by first match leaves what mirrors the saved tail |
| `Dialogue.RebuiltWhenHeld` | src/lecode/agent/runner.py:1034-1049 | after a compaction that takes hold, the rebuilt live history mirrors the new replay |
| `Dialogue.RebuiltWhenUnsummarized` | src/lecode/agent/runner.py:1034-1049 | after an inert one with no earlier summary, the first message is taken out and put back |
| `Dialogue.RebuiltWhenInert` | src/lecode/agent/runner.py:1034-1049 | after an inert one on top of a summary of s messages, with the negative slice bound as Python takes it, the live history mirrors the replay exactly if the summary was taken out and nothing worth keeping was dropped with it |
| `LiveHistory.CompactionStaysInStep` | src/lecode/agent/runner.py:996-1050 | a compaction during a run leaves live and saved history in step if and only if no undone stretch lies between the covered messages, or there was no earlier summary, or that one case of the slice |
| `LiveHistory.RealignedOnlyForOne` | src/lecode/agent/runner.py:1034-1049 | when every visible message matters, that one case is an earlier summary of a single message |
| `LiveHistory.NextRefreshRepairs` | src/lecode/session/storage.py:769-785 | after an inert compaction on top of a summary, while no interrupted answer is visible: the refresh before the next turn makes live and saved history agree if and only if the slice took out nothing, or they agreed already |
| `Straddling.InertCompactionLosesStep` | src/lecode/agent/runner.py:1034-1049 | a session with two exchanges summarized, a turn taken back and a second compaction across the gap: it is inert, the live history does not mirror the replay, and it holds a tool result without its call |
| `LiveHistory.ClosedReplay` | src/lecode/session/storage.py:1030-1058 | when no visible message leaves a call open, neither does the replay, whatever a summary stands for |
| `LiveHistory.SaveGrows` | src/lecode/agent/runner.py:1115-1137 | a message saved with the generation the agent gives it is shown and replayed, after everything else |
| `LiveHistory.ForgettingCloses` | src/lecode/session/storage.py:691-725 | once something is forgotten, everything generated before is hidden, so the replay has no open call |
| `LiveHistory.SettledReset` | src/lecode/session/storage.py:745-768 | after a forget the live history is rebuilt: the prompt stays in front, and if prompts are refreshed it is in step with the replay whatever it was before |
| `Refresh.RefreshKeepsMirror` | src/lecode/session/storage.py:745-785 | refreshing without a reset keeps a mirrored live history in step if and only if no visible message looks like a hidden one |
| `Refresh.RefreshRepairs` | src/lecode/session/storage.py:769-776 | with a stale summary in it, a live history is put right if and only if nothing visible is echoed by something hidden and whatever else it holds beside prompts is saved |
| `Refresh.AfterInert` | src/lecode/session/storage.py:769-785 | what the refresh makes of the rebuilt live history after an inert compaction: where the old summary was left behind, as above; where it was taken out, right only if it already was |
| `Echo.EchoIsDropped` | src/lecode/session/storage.py:777-785 | a session in which refreshing a live history that is exactly the replay loses a visible interrupted answer |
| `LiveHistory.SettledBatch` | src/lecode/agent/runner.py:477-486 | an assistant message followed by one result per call leaves both histories closed and in step |
| `Runner.AgentRun.StreamTurn` | src/lecode/agent/runner.py:717-762 | at most five requests, each from a history with nothing outstanding; a failure worth retrying is retried until they are used up and nothing else is; tokens of partial attempts are counted |
| `Runner.AgentRun.MaybeCompact` | src/lecode/agent/runner.py:996-1050 | does nothing below the threshold; otherwise prepares a plan from the file, pays for its model call, and records the plan and rebuilds the live history, or leaves both alone |
| `Runner.AgentRun.Replace` | src/lecode/agent/runner.py:1034-1050 | records the planned event and rebuilds the live history; it counts a slip exactly when the two fall out of step |
| `Runner.AgentRun.SyncMemory` | src/lecode/agent/runner.py:679-700 | before a turn the live history is rebuilt after a forget, and then mirrors the replay if prompts are refreshed, and otherwise refreshed; a slip is counted only in a refresh, and only when a visible message is echoed by a hidden one |
| `Runner.AgentRun.ResetHistory` | src/lecode/agent/runner.py:679-700 | rebuilds the live history from the replay under the new forget state; with refreshed prompts it mirrors the replay afterwards, and no slip is counted |
| `Runner.AgentRun.RefreshHistory` | src/lecode/agent/runner.py:679-700 | otherwise drops what the file hides; it counts a slip exactly when a visible message goes with it |
| `Runner.AgentRun.RunTools` | src/lecode/agent/runner.py:858-910 | one saved result per call, in call order |
| `Runner.AgentRun.RunBatch` | src/lecode/agent/runner.py:477-486 | the assistant's message and one result per call reach both histories before anything else does |
| `Runner.AgentRun.DrainQueues` | src/lecode/agent/runner.py:914-956 | queued, background and worker messages reach both histories and open nothing |
| `Runner.AgentRun.Request` | src/lecode/agent/runner.py:430-476 | one request counts as at most one completed response, whether it is answered, fails, or is discarded as stale; without a usable one, the last attempt says why the run ends |
| `Runner.AgentRun.FitContext` | src/lecode/agent/runner.py:402-428 | the compaction loop ends because the estimate must fall, and the request is made only if the last estimate fits |
| `Runner.AgentRun.Digest` | src/lecode/agent/runner.py:477-527 | what each response leads to: a tool batch is saved and shown with its results and gives another turn; an empty response is asked about until the fourth since the last text ends the run; a truncated one never ends it and leaves the request to continue last; a complete one adds no prompt and gives another turn only if something queued was delivered |
| `Runner.AgentRun.AddText` | src/lecode/agent/runner.py:497-503 | `final_text` and `continuing` are what `AnswerText.FinalText` and `AnswerText.AnyCut` say of the text responses since the last tool batch; a text starts the count of empty responses over |
| `Runner.AgentRun.Finish` | src/lecode/agent/runner.py:540-563 | the end of a run is reported last, and any end but an answer is noted in the file |
| `AnswerText.AnswersAreRepeated` | src/lecode/agent/runner.py:477-503 | a truncated answer, its completion and the answer to queued input are reported as one text |
| `AnswerText.FinalTextIsLastAnswer` | src/lecode/agent/runner.py:477-503 | the reported text ends with the last answer; it is exactly that if and only if nothing was truncated since the last tool batch or there was only this one answer, and otherwise there is earlier text in front |
| `Runner.ReportedTextIsLastAnswer` | src/lecode/agent/runner.py:477-503 | `AnswerText.FinalTextIsLastAnswer` for the responses of a run |
| `Runner.AgentRun.Run` | src/lecode/agent/runner.py:387-528 | the run ends for a reason its responses bear out: `done` only on a complete text, `empty` on the fourth empty response since the last text, `max_turns` at the limit, `cost_limit` on a call the budget refused or, under a budget, when it is crossed, an error after a failure not worth retrying or five that were; with at most `max_turns` completed responses; every request whose conversation mirrored the file came from a closed history, and that is every request unless a compaction fell under the first finding's condition or a refresh under the last one's; reported tokens are the sum over all emitted responses, partial ones included, plus compaction's own calls; tool results are counted one by one |
| `Budget.AlwaysBalanced` | src/lecode/providers/budget.py:85-97 | under any interleaving the ledger is the exact sum of the validly settled calls, and below its threshold unless it refuses further calls |
| `Budget.CostExactly` | src/lecode/providers/budget.py:56-83 | exactly which usage records are accepted, what they cost (a reported cost as it is, else prompt price for input plus completion price for output, per million), and that the tokens are those the record names |
| `Budget.OwedIsConserved` | src/lecode/providers/budget.py:37-54 | once a call is refused, what is spent and what is in flight add up to the same amount for ever |
| `Budget.OvershootIsInFlight` | src/lecode/providers/budget.py:37-122 | nothing is admitted after the first error; spending stays below the threshold plus the cost of the calls in flight when it was crossed, and is exactly that total once they are settled |
| `Budget.RefusesExactly` | src/lecode/providers/budget.py:37-97 | over any run calls are refused exactly once the money is spent, some spend is unknown, or a call at no known price was asked for |
| `Budget.BudgetedProvider.Check` | src/lecode/providers/budget.py:37-54 | admits exactly when nothing has been refused yet and both prices are known and not negative |
| `Budget.BudgetedProvider.Book` | src/lecode/providers/budget.py:85-97 | in-place booking is the modelled settlement and keeps the ledger balanced |
| `Budget.BudgetedProvider.Settle` | src/lecode/providers/budget.py:85-97 | books a valid usage record and refuses further calls after an invalid one |
| `JsonRpc.DecimalOfDigits` | src/lecode/lsp/jsonrpc.py:75-82 | a written length reads back as itself |
| `JsonRpc.DecimalExactly` | src/lecode/lsp/jsonrpc.py:108-110 | a length is read as a number exactly if it is all digits |
| `JsonRpc.FrameInBytes` | src/lecode/lsp/jsonrpc.py:75-82 | what a frame is, byte by byte |
| `JsonRpc.FrameRoundTrip` | src/lecode/lsp/jsonrpc.py:75-115 | reading one frame gives its body and leaves exactly what followed |
| `JsonRpc.AnyHeaderReads` | src/lecode/lsp/jsonrpc.py:95-115 | a message is read whatever other header fields come before or after its length, and in whatever case the field is spelled |
| `JsonRpc.LengthFieldExactly` | src/lecode/lsp/jsonrpc.py:108-110 | the length field is told by its name, in any case, and the colon, and by nothing else |
| `JsonRpc.NoLengthIsBroken` | src/lecode/lsp/jsonrpc.py:95-115 | a header without a length field is an error |
| `JsonRpc.Connection.Send` | src/lecode/lsp/jsonrpc.py:75-82 | after every send, a peer that reads all that was written so far gets exactly the bodies sent, in order, and a clean end |
| `JsonRpc.StreamRoundTrip` | src/lecode/lsp/jsonrpc.py:84-115 | whatever was sent is received, the same bodies in the same order, then a clean end |
| `JsonRpc.CutFrameIsBroken` | src/lecode/lsp/jsonrpc.py:95-115 | a stream cut anywhere inside a frame is an error, never a wrong message |
| `JsonRpc.CutStream` | src/lecode/lsp/jsonrpc.py:84-115 | a stream cut anywhere yields exactly the whole leading messages, and ends cleanly exactly between two frames |
| `JsonRpc.Connection.ReadLine` | src/lecode/lsp/jsonrpc.py:95-110 | takes everything up to and including the first newline, or the rest of the stream |
| `JsonRpc.Connection.ReadFramed` | src/lecode/lsp/jsonrpc.py:95-115 | the header loop computes the modelled outcome and consumes exactly one message |
| `Recall.ResponseSizeIsLength` | src/lecode/memory/recall.py:182-255 | the size the loop works with is the length of the response as JSON text in ASCII, key by key and escape by escape |
| `Recall.SmallPageFits` | src/lecode/memory/recall.py:182-255 | a response with a page of at most one character always fits the limit |
| `Recall.RecallPage` | src/lecode/memory/recall.py:238-254 | the halving loop ends with a page that fits, and the next offset is further on but no more than the limit further; the page has all the characters asked for, or half as many as would have been too large |
| `Recall.PagesAreTheRest` | src/lecode/memory/recall.py:182-255 | from any offset, the pages are exactly the rest of the source |
| `Recall.PagesAreTheSource` | src/lecode/memory/recall.py:182-255 | following `next_offset` from 0 with any positive limits ends and concatenates to exactly the source text |

## Left out

- Runner.AgentRun.constructor: a run that refreshes its prompt is started with a system prompt, or with a summary, in front, as every caller does; from an empty conversation, the first reset could put the prompt in the place of the summary.
- Outbox.MarkersAreSafe: that no number appears twice is stated one way, as a crash may take the second use of a number away again; over runs without crashes `FailedAppends.NumbersRiseExactlyWhenCareful` is exact.
- Worktree checks of paths, inodes, sidecar contents, registrations and dirty checkouts: they only make an operation stop earlier, so the modelled steps allow more runs than the code does.
- `merge_back`, `attach`, `status` and discarding cleanups of worktrees: not part of the non-discard worker operations.
- The agent loop's cancellation in the middle of a tool batch and the partial message kept after a provider error leave calls open; that is what `Repair` is about, and the run ends there.
- A forget during a request ends the run, one nondeterministic stop; between turns it rebuilds the history, which is modelled. A request the caller has not saved before the run (`fresh_request`) is not.
- In the agent loop, another writer during a compaction or a request is one nondeterministic stop; what `Commit` then records is in `Compaction`. Usage events of learning after a compaction are left out.
- Session files with saved system messages, or with tool calls made by users: `LiveHistory` and `Runner` are about sessions as the agent writes them.
- A system prompt with the very text of a summary: the two are the same dictionary to the loop and different values here.
- Assembling a response from stream chunks (`_collect`, `_assemble`), prices and costs in the loop, hooks, events that carry no tokens, review by a second model: the model's answer is nondeterministic input.
- Hand-edited session files whose latest compact event names numbers that do not exist yet: `Growth` and `Repair` ask for sessions as the store writes them (`Sessions.EverySessionIsWellKept`).
- Session names, listing, import, path resolution, locks and permissions of files, and two handles on one file, are not modelled.
- Timestamps and the JSON text of a record are not modelled; an encoded line is its size.
- The early rejection of an oversized line while it is being encoded is the same rejection by size.
- `source_version`, agent-run activity records and permission grants kept in the session.
- Fact searching and listing, the `deduplicate` branch of `remember` (it returns an existing fact and writes nothing), schema migration; a validated snapshot is a verdict passed in.
- SQLite is a set of tables with atomic transactions; the insert triggers are part of the transaction.
- The semaphore itself is a counter that never hands out more than it holds; its fairness and cancellation inside the event loop are trusted.
- A task that reserves a workspace is taken to leave its reservations before it ends, as the context managers make it.
- Sessions and records of workers on disk, loading and attaching after a restart, blocking and questions, submitting results.
- Worker sessions carry no tombstones, as nothing in the worker manager writes one; which notifications are pending is a parameter.
- Glob and regular-expression matching and the names of read-equivalent servers are parameters; grants are a snapshot per call rather than a store shared between agent views.
- Amounts of money are exact reals, not floating point; infinities and NaN are values that are rejected.
- JSON parsing of a message body; and `int` is taken to accept digits only, which is all the writer produces.
- JSON-RPC request ids, pending futures, notification handlers and process handling.
- Recall pages are those of one fixed valid source and generation; the generation check after encoding only replaces a response by a short one.
- Listing facts, injection into prompts, redaction of binary payloads.
- The terminal interface, slash commands, configuration, providers' transport, MCP, LSP processes, learning from transcripts, telemetry: wiring, network and prompts.
