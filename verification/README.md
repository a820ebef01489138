# Seelex: delivery and storage protocols in Dafny

Seelex is a desktop agent host. Two of its parts carry guarantees that no single function
shows: the bridge that relays a numbered event stream to a renderer over a link that
reports nothing back, and the session store, whose append-only shard files become visible
only when a head file is atomically replaced. This project models both, together with the
close protocol of the window, the assembly's cleanup stack and the decoder for pasted
images, and proves their guarantees for every run, every crash point and every input.

| modules | what they model |
|---|---|
| `EventHub` | one subscription of the event hub: numbering, bounded channel, bounded replay window |
| `BridgeModel`, `BridgeWakeup`, `BridgeRelay`, `BridgeResend`, `BridgeScope`, `BridgeAlignment` | the GUI bridge as a transition system: relay goroutines, timers, resends, resubscription; then what it wakes up for, what its relays and resends emit, whose events it lets through, and how it follows the view |
| `Renderer` | the renderer's deduplication, gap replay and snapshots |
| `ShardStore`, `StoreDisk` | shard files under a published head, as values and as a disk that records each primitive operation |
| `MessageLog`, `MessageChannel` | the message channel: its commit as a sequence of disk operations, and the methods that perform exactly that sequence |
| `EventLog` | the EVENT channel, both levels |
| `DraftTail`, `DraftWrite`, `DraftRewrite` | rows behind the head: finding, recovering and discarding a draft; a draft write cut anywhere; the writer's loop on any directory, and a draft written over another |
| `DraftRun` | runs that mix draft writes, crashes, recoveries, discards and commits |
| `Retention` | evicting the oldest rows by rewriting the others |
| `LifecycleQueue` | draft, input queue and consumption records |
| `StackChannel`, `StackFork` | plan, task and goal stacks, their commit, and the snapshot a fork takes |
| `ProjectBoard` | the project board log, its fold and its compaction |
| `CloseCoordinator`, `AppCleanup`, `ComposerImage` | window close, assembly and release, image text |

Concurrency is modelled by interleaving: one step per critical section and one per action
outside a lock (an emission, a read of the application's view, a timer that fires), in any
order. A crash is a cut before any of a sequence of disk operations, and inside an append
after any number of whole lines and torn bytes, none included. Objects that the source updates in
place are classes whose methods are proved equal to a function on values; the theorems
are about that function and about runs of it.

Assumptions about the surroundings: acknowledgements refer to the current subscription
(they carry no generation); a bridge is started once and with an emitter; a stopped timer
may still fire; a snapshot the renderer loads shows every numbered event up to its
revision, delivered already or not, and of the others those delivered by then; a turn or
request is confirmed only if its rows are published, a turn failed only if they are not, and
a direct send failed only while it is under way; an assembly
step that returns an error has released what it opened itself; a session that is at work
when closing begins may end at any time, and no other starts once input is refused.

Fields described in the code as history (`sent`, `late`, `signalLost`, `bursts`,
`base.upTo`, `applied`, `floor`, `carries`, `inputs`, `settled`, `flight`, `popped`, `trace`, `between`, `trail`,
`acquired`, `released`) record what happened so that it can be talked about; the program does
not have them.

## Where the code and its promises part

Each of these is a theorem: a concrete run where the promise fails and the exact condition
under which it holds.

- A retry budget of three resends is not renewed by new events, although the comment at
  `gui/bridge.go:110-112` says so (`GivingUpIsFinal`).
- At most one resend timer is said to be pending (`gui/bridge.go:370-371`): the callback of a
  timer that was stopped too late unregisters the one armed since, and the next event arms a
  second (`OneTimerExactly`, `RunKeepsOneTimer`).
- A view-change notice ends the relay even when the subscription is already aligned, and two
  concurrent resubscriptions can start their relays in the other order; either way nobody
  serves the current subscription (`StrandedExactly`, `AlignedNoticeStrands`,
  `OvertakenResubscriptionStrands`).
- The notice that a view was rolled back is filtered out of every subscription that carries
  a session key, the very case it was made for (`ReachableNoticeIsLostExactly`,
  `RollbackUnnoticed`).
- A renderer that has applied nothing accepts any delivery number as its first, and an event
  of revision 0 is applied again over a snapshot that shows it already, which can bring an
  older chat state back (`FirstDeliveryLost`, `OlderStateReturns`, `HandledExactly`). The
  numbered events stay exactly once, and the newest state is back as soon as everything the
  snapshot shows has come in (`NewestStateIsShown`).
- A recovered draft records sizes that count torn bytes: its rows are published, but unless
  every file with rows is untorn the store is no longer one that commits can start from, and
  the next draft is hidden or corrupts the log (`PublishIsCleanExactly`, `TornBytesHideDraft`,
  `TornPublishCorrupts`).
- After a restart a draft is numbered over if it lies wholly in unlisted shards behind a
  trusted one, or if the newest file holds no row yet because a crash came just as the writer
  went over to it (`DraftBaseExactly`, `RestartNumbersOver`, `CrashNumbersOver`). The log is
  safe, but neither draft can be recovered, and a writer that comes to open a file that is
  there already, and full, never ends (`WriterIsInvisible`, `StartingOverLosesBoth`,
  `WriterEndsExactly`, `StartingOverNeverEnds`).
- Rewriting the surviving rows can delete a listed shard before the new head is in place
  (`EvictionIsAtomicExactly`, `KeepingTheLastShardCollides`).
- Taking or failing a turn or the front item, a failed direct send, and saving, submitting or
  sending another text overwrite a draft that still holds a returned input; the draft file is
  written before the queue file, and a text sent directly is in no file at all
  (`CompleteConservesExactly`, `CrashConservesExactly`, `OverwrittenIsNowhere`).
- Recovering twice is not recovering once: an item taken by a turn that is not shown, while its
  own request is, comes back at first and is dropped as shown the second time
  (`RecoveringAgainExactly`).
- A stack commit that crashes between its last two writes loses the rows that left the stack
  for good, because the next commit cuts them off the history
  (`CommitCrashExactly`, `LeavingRowsAreLost`); a fork reads the coordinate at which a batch
  entered as the one at which it left (`SnapshotIsExactly`, `ForkSeesTheFuture`).
- Compacting the board forgets removals: the file's watermark can fall and an older row can
  come back (`CompactionLowersWatermarkExactly`, `CompactionIsTransparentExactly`). A batch cut
  between its first line and its last counts as written when it is sent again
  (`RetryIsWholeExactly`).
- The image decoder is called strict but ignores the spare bits before the padding: a text it
  accepts is the encoding of its bytes exactly when they are zero (`CanonicalExactly`,
  `SpareBitsAreIgnored`).

## Model

| member | source | states |
|---|---|---|
| EventHub.OpenIsValid | kernel/event/hub.go:302-338 | a new subscription is valid and empty, with a channel of the asked size but of one at least, and a replay window exactly if one was asked for, never smaller than the channel |
| EventHub.DeliverKeepsValid | kernel/event/hub.go:391-438 | after any delivery the window holds consecutive numbers ending at the watermark, the channel is bounded and increasing, and an open channel is never left empty |
| EventHub.TakeKeepsValid | kernel/event/hub.go:391-438 | what is still queued after a take was delivered after what was taken |
| EventHub.FirstAfter | kernel/event/hub.go:442-460 | the first number above the mark, and none before it |
| EventHub.ReplayIsExact | kernel/event/hub.go:442-460 | a replay is offered exactly while something has been delivered and nothing after the mark has left the window, and then it is the run from the mark's successor to the watermark |
| EventHub.WindowIsNewestLog | kernel/event/hub.go:391-438 | over every history of deliveries the window is the newest part of the unbounded log, contents included |
| EventHub.ReplayReturnsLog | kernel/event/hub.go:442-460 | a covered replay hands back the unbounded log from the mark on |
| EventHub.ChannelExactly | kernel/event/hub.go:391-438 | a delivered event waits in the channel if there is room; if not, with a window what waits stays, and without one it gives way to a single reload request of that number |
| EventHub.NothingIsLostSilently | kernel/event/hub.go:391-438 | over any run of deliveries and takes the consumer hears nothing but what was delivered, and without a window every event it does not hear is made up for by a reload request of that number or a later one |
| EventHub.EventSubscriber.constructor | kernel/event/hub.go:302-338 | the object starts as the specified empty subscription |
| EventHub.EventSubscriber.Deliver | kernel/event/hub.go:391-438 | the in-place delivery, overflow loop included, is the specified one |
| EventHub.EventSubscriber.ReplaySince | kernel/event/hub.go:442-460 | the search loop finds the specified replay |
| BridgeModel.Bridge.Start | gui/bridge.go:159-173 | starts only a bridge that is not running, and leaves acknowledgement and retry state as they were |
| BridgeModel.Bridge.NextRelayGeneration | gui/bridge.go:176-181 | each generation is newer than all before it |
| BridgeModel.Bridge.Resubscribe | gui/bridge.go:271-291 | the critical section of a resubscription: new subscription and key, acknowledgement, retries and timer reset together |
| BridgeModel.Bridge.StopResend | gui/bridge.go:430-436 | no timer stays registered and the retries start over |
| BridgeModel.Bridge.Stop | gui/bridge.go:315-338 | a stopped bridge keeps no registered timer; a second stop does nothing |
| BridgeModel.Bridge.AckEvents | gui/bridge.go:345-355 | the acknowledged number only grows, and only its growth renews the retries |
| BridgeModel.Bridge.ArmResend | gui/bridge.go:372-384 | at most one timer is registered at a time |
| BridgeModel.Bridge.CatchUp | gui/bridge.go:390-428 | decides to resend exactly when running, behind the watermark, and with retries left; spends one then |
| BridgeModel.StartIsSound | gui/bridge.go:159-173 | the state after starting satisfies the system invariant, whichever kind of subscription was granted |
| BridgeModel.StepKeepsSound | gui/bridge.go:159-436 | every step of every thread keeps it: subscriptions valid, the current one open, at most three retries, the registered timer live, no relay newer than the generation |
| BridgeWakeup.StepKeepsWakeup | gui/bridge.go:345-428 | no step, late callbacks of stopped timers included, loses the wake-up of a lagging renderer |
| BridgeWakeup.WakeupNeverLost | gui/bridge.go:345-428 | in every reachable state a lagging renderer with retries left has a timer, a catch-up or an armed relay ahead of it while its subscription is served; at rest it is caught up or three resends were spent |
| BridgeWakeup.ResendCarriesTheGap | gui/bridge.go:396-427 | with deliveries coming between the two reads, what a resend sets out to emit is exactly the unacknowledged run up to the newest delivery while the window covers it, and otherwise one resync at the watermark it was decided on; a covered but empty replay cannot occur |
| BridgeResend.ResendIsEmitted | gui/bridge.go:414-427 | in every run, whatever comes between and however many other resends, a resend has emitted a beginning of that run of numbers, or of its one resync, and all of it, each once and in order, by the time it arms the timer again |
| BridgeWakeup.ResendsAreBounded | gui/bridge.go:390-428 | without new events and on one subscription there are at most three resends per unacknowledged delivery |
| BridgeWakeup.GivesUpAfterThree | gui/bridge.go:404-409 | each unanswered resend spends one try: from a renewed count the bridge has given up after exactly three, not sooner |
| BridgeWakeup.DecisionExactly | gui/bridge.go:390-409 | a catch-up resends exactly for a lagging renderer with tries left, renews the tries of one that has caught up, and touches nothing else |
| BridgeWakeup.AdvanceIsAnswered | gui/bridge.go:345-355 | an acknowledgement that moves forward is answered at once, however many tries were spent, by a resend from it on, unless nothing lies beyond it; an older one changes nothing |
| BridgeWakeup.ResubscriptionStartsOver | gui/bridge.go:271-291 | whichever step changes the subscription, the new one is pinned to the view with nothing delivered, and acknowledgement, tries and timer start over |
| BridgeWakeup.SynchronisesExactly | gui/bridge.go:300-311 | a synchronisation resubscribes a running bridge that is behind the view, and does nothing otherwise |
| BridgeWakeup.OneTimerExactly | gui/bridge.go:370-384 | while one timer is pending at most, a step keeps it so if and only if it is not the callback of a stopped timer that fires after another has been armed |
| BridgeWakeup.RunKeepsOneTimer | gui/bridge.go:370-384 | over every run without such a callback at most one timer is pending |
| BridgeWakeup.GivingUpIsFinal | gui/bridge.go:404-408 | after three unanswered resends none follows, new events or not, until an acknowledgement advances, the bridge stops or the view is resubscribed |
| BridgeRelay.SupersededRelaysAreBounded | gui/bridge.go:176-238 | over every run a relay emits in strictly increasing delivery order and at most once after a newer generation exists |
| BridgeRelay.SupersededStaysSuperseded | gui/bridge.go:176-189 | a generation once superseded is never current again, whatever happens, so a relay's check fails for good |
| BridgeResend.RelayStepPassesOn | gui/bridge.go:204-238 | a relay step keeps the line of what is emitted, in hand and waiting as it is, unless it lets go of an event because it is superseded or that is a notice for the bridge |
| BridgeResend.EverythingQueuedIsEmitted | gui/bridge.go:204-238 | over any run on which it lets go of none, everything that once waited in the channel of a subscription with a window has been emitted, in that order, when its relay comes to an empty channel |
| BridgeResend.RelayHandlesExactly | gui/bridge.go:204-238 | a current relay passes on every event but the notice, even the one that ends its subscription; it resubscribes to the view exactly when the event shows that it is behind, and otherwise arms the timer and waits |
| BridgeScope.SessionsAreIsolated | application/session/viewstate/coordinator.go:210-229 | over every run nothing in the channel, the window or the relay's hands of a subscription pinned to a session is of another session |
| BridgeScope.HeardExactly | application/session/viewstate/coordinator.go:210-229 | an event is delivered to exactly the open subscriptions to everything, to its session, and, for a draft without one, to the session on view |
| BridgeRelay.StrandedExactly | gui/bridge.go:204-291 | the current subscription loses its relay in exactly two ways, and only a resubscription gives it one again |
| BridgeRelay.UnstrandedRunServes | gui/bridge.go:204-291 | a run without those two kinds of step always has the running bridge served |
| BridgeRelay.UnstrandedRunNeverLosesAWakeup | gui/bridge.go:345-428 | on such a run the wake-up guarantee holds without condition |
| BridgeAlignment.StepFollows | gui/bridge.go:213-311 | no step breaks the rule that the subscribed session is the view, or a realignment is on its way, or its signal was lost or its relay gone |
| BridgeAlignment.ViewIsFollowed | gui/bridge.go:213-311 | the rule holds in every reachable state, and once everything has settled the key is the view unless the signal was lost or the view stranded |
| BridgeAlignment.NoticeReachesExactly | application/session/viewstate/coordinator.go:210-229 | of the subscriptions that do not match the view, exactly the unfiltered and the draft ones with room hear that it changed |
| BridgeAlignment.ReachableNoticeIsLostExactly | application/session/viewstate/coordinator.go:210-229 | in every reachable state that needs the notice it is lost exactly when the subscription carries a session key or the channel is full |
| BridgeAlignment.RollbackUnnoticed | gui/bridge.go:213-222 | a run that settles, served, on a session that is not the view |
| BridgeAlignment.AlignedNoticeStrands | gui/bridge.go:219-222 | a run on which an aligned subscription loses its relay and the next event lags with nothing on its way |
| BridgeAlignment.OvertakenResubscriptionStrands | gui/bridge.go:271-291 | a run on which two resubscriptions leave the newer subscription with the older generation, and the next event lags for good |
| Renderer.ClientState.constructor | gui/frontend/dist/client-state.js:81-119 | the state after the first snapshot |
| Renderer.ClientState.AcceptSnapshot | gui/frontend/dist/client-state.js:81-113 | a snapshot is taken exactly when it is not older than what is shown, and then stands for everything on view |
| Renderer.ClientState.AcceptBaseline | gui/frontend/dist/client-state.js:115-119 | an accepted baseline starts the numbering of a new subscription |
| Renderer.ClientState.Apply | gui/frontend/dist/protocol.js:38-82 | the reducer: a gap, a repetition, a reload, an event the snapshot swallows, or one applied |
| Renderer.ClientState.ReplayGap | gui/frontend/dist/client-state.js:187-202 | the replay loop applies the covered run in order and reports whether it got to its end |
| Renderer.ClientState.HandleEvent | gui/frontend/dist/client-state.js:129-170 | one event: ignored, applied, gap-filled or followed by a reload, as specified, for numbered events and those of revision 0 alike |
| Renderer.ReplayIsFaithful | gui/frontend/dist/client-state.js:187-202 | a replay from an exact view leaves an exact view if and only if it meets no event of revision 0 that the snapshot shows already |
| Renderer.InLineIsApplied | gui/frontend/dist/protocol.js:64-82 | an increment in line is applied at once, whether the host answers and a snapshot can be loaded or not, or, if the snapshot shows it by its revision, moves the mark |
| Renderer.OthersExactly | gui/frontend/dist/client-state.js:129-170 | an event in line that is no increment moves the mark and takes a loaded snapshot that is not older; one seen before changes nothing |
| Renderer.JumpIsFilled | gui/frontend/dist/client-state.js:129-202 | an event after a hole brings everything delivered if the replay is answered, covered and meets only increments, and otherwise what it could apply and a reload at its number |
| Renderer.ReplayedExactly | gui/frontend/dist/client-state.js:187-202 | a replay applies everything up to the first event that needs a snapshot, and is complete if and only if there is none |
| Renderer.ReloadsExactly | gui/frontend/dist/protocol.js:38-82 | a snapshot is asked for if and only if the event in line needs one, or one jumps and the replay is unanswered, uncovered or interrupted |
| Renderer.RevisionNeverFalls | gui/frontend/dist/client-state.js:81-119 | whatever arrives in whatever order, the view never goes back to an older revision; a greeting with an older snapshot is ignored |
| Renderer.HandledExactly | gui/frontend/dist/protocol.js:38-82 | handling an event keeps the view exact if and only if it is not a first event with others missing before it, no reload fails after the mark moved over one, and no event of revision 0 comes in again over a snapshot that shows it: three conditions on log, client and answers alone |
| Renderer.StepIsFaithful | gui/frontend/dist/client-state.js:81-202 | the same if and only if for every step the link can make, resyncs, baselines and events published after a snapshot that shows them included |
| Renderer.ExactlyOnce | gui/README.md:244-253 | over a link that loses, repeats and reorders, and as long as none of the three happens, every delivery up to the mark is on view exactly once: in the snapshot, or applied on top of it in order |
| Renderer.NewestStateIsShown | application/assembly/session_scope.go:319-334 | even with events of revision 0 coming in again at will, numbered events are shown once and in order, and for every topic the newest state is on view once everything the snapshot shows has come in |
| Renderer.BurstCatchesUp | gui/README.md:247-251 | one delivered burst brings view and acknowledgement up to the watermark it was cut at, whatever was lost before; the view stays exact unless an event of revision 0 was among it |
| Renderer.ResyncCatchesUp | gui/README.md:251-252 | one resync with its reload shows the whole log exactly and puts the mark at the watermark, whatever was on view before |
| Renderer.FirstDeliveryLost | gui/frontend/dist/protocol.js:64-69 | a renderer that accepts delivery 2 first never shows delivery 1, even when it is resent |
| Renderer.OlderStateReturns | gui/frontend/dist/protocol.js:71-74 | an event of revision 0 that arrives after a snapshot which shows it and a later one puts the older state back on view |
| ShardStore.ReaderSeesOneLog | store/message_rows.go:826-856 | every range read over the shards is that range of one log with strictly increasing ids, the head's last id and the head's total |
| ShardStore.CrashIsAtomic | store/message_rows.go:340-394 | cut anywhere, operations that cannot touch published rows followed by a head replacement leave the old log or have run to the end |
| ShardStore.ReapingCleans | store/message_rows.go:442-529 | reaping removes every trace of unpublished work, published rows and head untouched |
| ShardStore.ExtendIsExact | store/structural_events.go:321-363 | one batch, into the last shard or a new one, turns a clean store into a clean one with exactly those rows added |
| ShardStore.WritingIsExact | store/message_rows.go:561-670 | the whole write adds exactly the rows, through any number of rollovers, without an operation that could disturb what is published |
| ShardStore.WritingFillsShards | store/message_rows.go:604-670 | a shard is filled before the next is opened, each one opened is named by the rows it holds, and those before are not touched |
| ShardStore.CommitIsExact | store/message_rows.go:340-394 | reap, write and publish leave a clean store with exactly the new rows, their last id and the commit's name |
| ShardStore.CommitCrashIsAtomic | store/README-message.md:71 | a commit cut anywhere leaves the old log or the new one, and a store every later commit can start from |
| StoreDisk.Disk.constructor | store/message_rows.go:130-139 | the disk as it is found |
| StoreDisk.Disk.DropTorn | store/root/jsonl_io.go:10-43 | cuts the unfinished last line and nothing else |
| StoreDisk.Disk.Append | store/session/storage.go:100-141 | whole lines behind the last whole line, and the size on disk afterwards |
| StoreDisk.Disk.Publish | store/message_rows.go:41-43 | replaces the head in one operation |
| StoreDisk.Disk.KeepRows | store/message_rows.go:490-529 | cuts a file back to its first rows |
| StoreDisk.Disk.RemoveUnlisted | store/message_rows.go:442-476 | deletes exactly the files the head does not list, in whatever order they come |
| StoreDisk.Disk.RepairTail | store/message_rows.go:490-529 | cuts the last listed file back to its published rows |
| StoreDisk.Disk.Reap | store/message_rows.go:442-476 | performs the specified reaping operation by operation and leaves a clean store with the same log |
| MessageLog.AssignedExactly | store/session/session.go:83-105 | a commit is accepted if and only if every row is numbered and the new ones continue the head without a gap, and then adds just those |
| MessageLog.NewRowsExactly | store/session/session.go:83-105 | the new ones are the rows above the head, one by one and in order, each with its number and text and under the name of the commit |
| MessageLog.RetryAddsNothing | store/session/session.go:83-105 | once published, the same commit has nothing left to add |
| MessageLog.TrustedIsExact | store/message_rows.go:71-112 | a tail trusted by size and last byte alone really ends with the last published row |
| MessageLog.CommitIsAtomic | store/message_rows.go:340-394 | whatever the rows, the residue and the crash point, a reader sees the old log and head or the old log, every new row and the commit's name; a commit that ends, refused and empty ones included, leaves no residue |
| MessageLog.ResidueIsIrrelevant | store/README-message.md:71 | the same commit from a clean store and from any crash residue with the same log ends in the same log |
| MessageLog.CrashAndRetryIsExactlyOnce | store/message_rows.go:340-394 | a commit that crashed anywhere and is retried adds its rows once |
| MessageLog.RunRefinesFlatLog | store/message_rows.go:340-394 | over any run of commits, crashes and rollovers the log grows by whole commits, in order, ids strictly increasing |
| MessageChannel.Channel.AssignRows | store/session/session.go:83-105 | the loop accepts, refuses and stamps as specified |
| MessageChannel.Channel.PhysicalLast | store/message_rows.go:675-684 | finds the shard whose name starts latest, in whatever order the directory yields them |
| MessageChannel.Channel.WriteBatch | store/message_rows.go:604-670 | as many rows as fit go behind those in the file, and the entry describes the file afterwards |
| MessageChannel.Channel.WriteShardRows | store/message_rows.go:604-670 | on any directory with one newest file on which the loop ends, it performs the turns of the specified loop and reports its entries |
| MessageChannel.WriterWrites | store/message_rows.go:604-670 | from a disk the index describes the loop ends, and its operations and entries are those of the specified write, rollovers included |
| MessageChannel.Channel.TailTrust | store/message_rows.go:71-112 | whether the last listed shard is taken unread |
| MessageChannel.Channel.Commit | store/message_rows.go:340-394 | performs exactly the operations of the specified commit, so that its crash theorems cover every state the disk passes through |
| MessageChannel.Channel.Discard | store/pending_tail.go:296-316 | leaves a clean store, head and log as published |
| MessageChannel.Channel.DraftStart | store/pending_tail.go:143-152 | the number a draft goes on from, in any directory: the last row of the newest file or, where that has none, the head |
| MessageChannel.Channel.AppendDraft | store/pending_tail.go:164-207 | wherever the writer's loop ends at all: numbers the rows from the start number, refuses a gap without touching the disk, performs the loop, and remembers the new end |
| MessageChannel.DraftWriteEnds | store/pending_tail.go:164-207 | where the start number is the end of the disk the loop ends, with the write that makes the draft longer by exactly the new rows |
| MessageChannel.Channel.ProbeTail | store/pending_tail.go:50-96 | the probe reads the specified rows from the index alone |
| MessageChannel.Channel.RecoverTail | store/pending_tail.go:231-292 | publishes the draft when it is recoverable, skipping a file without a row, and otherwise leaves the disk alone, and says which |
| DraftTail.ProbeFindsDraft | store/pending_tail.go:50-96 | behind the recorded sizes and in unlisted shards, torn or without a row as a crash may have left them, the probe finds exactly the draft |
| DraftTail.ClassifiedExactly | store/session/session.go:516-533 | a tail is recoverable if and only if it is there, unique and continues the head |
| DraftTail.PublishAddsDraft | store/pending_tail.go:257-292 | publishing a draft adds exactly its rows to the log, whatever torn bytes or rowless file lie behind it, and the head ends with the number and commit of the last |
| DraftTail.OnlyDraftsArePublished | store/pending_tail.go:231-256 | rows behind the head that do not continue it are left as they are, and so is a store without any |
| DraftTail.PublishIsCleanExactly | store/pending_tail.go:257-292 | what it leaves is a store that commits can start from if and only if no file with rows has torn bytes, and a clean one if and only if besides there is no file without |
| DraftTail.DiscardRestores | store/pending_tail.go:296-316 | discarding, like any commit's reap, restores the published state with no draft left, whatever was on disk |
| DraftWrite.DraftGrowsInvisibly | store/pending_tail.go:164-207 | appending to a draft leaves the readable log alone and makes the draft longer by exactly the new rows |
| DraftWrite.DraftCrash | store/pending_tail.go:12-24 | cut anywhere, it leaves log and head alone and the draft longer by a prefix of the new rows, in a directory the next append, recovery or commit can start from |
| DraftWrite.CutCommitIsDraft | store/pending_tail.go:12-24 | a commit cut behind its reap leaves a draft of the rows it had written by then, of all of them when only the head was to be replaced |
| DraftWrite.PublishedIsDrafting | store/pending_tail.go:257-292 | an untorn draft, once published, is an empty draft behind the new head |
| DraftTail.DraftBaseExactly | store/session/storage.go:272-289 | without the cache a draft continues where the disk ends if and only if, when the newest file has rows, the draft does not lie wholly in unlisted shards behind a trusted one, and when it has none, there is no draft row; a cached end that is not behind the head is taken as it is |
| DraftTail.TornBytesHideDraft | store/pending_tail.go:257-292 | rows appended behind a size that counts torn bytes are found again if and only if there were none |
| DraftTail.TornRecovery | store/pending_tail.go:257-292 | recovering a draft with a torn line publishes a size beyond its last row |
| DraftTail.TornPublishCorrupts | store/message_rows.go:71-112 | after such a recovery a draft row of that length passes for published and stays in the log beside a committed row of the same number |
| DraftRewrite.WriterEndsExactly | store/message_rows.go:604-670 | on any directory the writer's loop ends if and only if, going through the rows once, it never comes to open a file that is there already, and full |
| DraftRewrite.WriterIsInvisible | store/pending_tail.go:154-207 | on any directory behind any published log, however many turns the loop makes and wherever it is cut, writing rows above the head leaves the readable log alone |
| DraftRewrite.StartingOverLosesBoth | store/pending_tail.go:50-96 | written into a newest file with room, it makes the probe find old rows and new, and neither is recoverable |
| DraftRewrite.StartingOverNeverEnds | store/message_rows.go:604-670 | with the last file full, a draft that repeats the first full one goes round for ever |
| DraftRewrite.RestartNumbersOver | store/pending_tail.go:143-152 | a store with one draft row in a file of its own: the base is one too low, the row starts over, and the writer never ends |
| DraftRewrite.CrashNumbersOver | store/session/storage.go:272-289 | a draft write of two rows that crashes as it opens its second file: the base is one too low as well |
| DraftRun.OneDraft | store/pending_tail.go:50-96 | a directory can be read as a published log and a draft in one way only |
| DraftRun.CutTurnIsCrash | store/message_rows.go:604-670 | a loop cut in any turn leaves what a crash leaves of the specified write |
| DraftRun.MoveGrows | store/pending_tail.go:154-316 | a draft write, discard or commit cut anywhere, from any residue, and every untorn recovery leave a store the others can start from, the log grown by whole commits and recovered drafts only |
| DraftRun.MoveLeaves | store/pending_tail.go:154-316 | what becomes of the draft: longer by a prefix of the rows, empty once published, discarded or committed over, or the rows a crashed commit had written |
| DraftRun.RunKeepsOneLog | store/pending_tail.go:12-24 | over any run of them, crashes included, readers see one log in increasing order, grown by exactly the completed commits and the recovered drafts |
| DraftRun.SteadyRunKeepsDraft | store/pending_tail.go:12-24 | while writes go on at the end of the disk and reaps are whole, a draft can be read at every point of the run |
| EventLog.DeltaExactly | store/structural_events.go:292-317 | a commit is refused if and only if the numbers its unpublished rows ask for, their own or one above the row before, do not rise above the head and each other; otherwise it adds those rows in order under those numbers |
| EventLog.FreshExactly | store/structural_events.go:292-317 | unpublished are the rows without a number and those above the head, one by one and in order |
| EventLog.RepeatAddsNothingExactly | store/README-message.md:138-141 | repeating a commit adds nothing if and only if it was the last one or every row carries an already published number |
| EventLog.IntactIsExact | store/structural_events.go:151-207 | a size equal to the recorded one means there is nothing to repair |
| EventLog.EventCommitIsAtomic | store/README-message.md:142-145 | cut anywhere, a commit of the EVENT channel leaves the old log and head or the new ones, under the commit's name if it adds a row; one that ends leaves no residue |
| EventLog.EventRetryIsExactlyOnce | store/structural_events.go:82-124 | a commit that crashed anywhere and is retried at once adds its rows once, unnumbered rows included |
| EventLog.RepairedEntry | store/structural_events.go:151-207 | the index entry rebuilt after a repair is the one the head already has |
| EventLog.EventCommitAdds | store/structural_events.go:82-124 | a completed commit adds its rows and leaves a store the next one can start from |
| EventLog.EventChannel.NextRows | store/structural_events.go:292-317 | one pass over the rows, the head alone consulted, applies the three watermark rules |
| EventLog.EventChannel.AppendBatch | store/structural_events.go:321-363 | one batch is the specified append, and the head in memory follows it |
| EventLog.EventChannel.AppendEvents | store/structural_events.go:321-363 | the batches together are the specified write, rollovers included |
| EventLog.EventChannel.Commit | store/structural_events.go:82-124 | performs exactly the operations of the specified commit |
| Retention.EvictionKeepsTheRest | store/retention.go:65-176 | a completed eviction keeps exactly the rows above the mark, in order and under the same last id, and later commits can go on from it even when no row is left |
| Retention.EvictionLeavesNothingBehind | store/retention.go:65-176 | its new shards are full but for the last and named by their rows, and of the old listed files only those remain that a new one has replaced |
| Retention.EvictionIsAtomicWithoutCollision | docs/2026-09-08-session-storage-architecture/my_design.md:1329 | when no new shard takes an old name, a crash before the new head leaves the old log |
| Retention.EvictionIsAtomicExactly | docs/2026-09-08-session-storage-architecture/my_design.md:1329 | every crash point, the removals after the new head included, leaves the old log under the old head or the new one under the new, and a usable store, if and only if no new shard takes the name of an old one |
| Retention.KeepingTheLastShardCollides | store/retention.go:65-176 | keeping just the last shard, while it fits one file named after its rows, always rewrites that file in place |
| Retention.WriteFile | store/retention.go:179-204 | a batch in a file made anew, and its index entry |
| Retention.RewriteRows | store/retention.go:65-176 | the loop performs the specified rewrite |
| Retention.RemoveOld | store/retention.go:65-176 | deletes the old shards except those whose names were taken over |
| Retention.RefusedExactly | store/session/session.go:386-391 | the range is refused if and only if the row after the mark is missing from the log and a later one is there |
| Retention.Evict | store/retention.go:65-176 | refuses without confirmation, or for a range that is no prefix, before anything is touched; does nothing at or below the mark already reached; otherwise moves the mark to the asked number or the last one, counts the difference as deleted, performs exactly the specified operations, and leaves just the rows above the mark |
| LifecycleQueue.InputIsInOnePlace | store/README-retention.md:112-117 | in a conserved state every accepted input is in exactly one of queue, draft, settled and under way |
| LifecycleQueue.ChangeBalances | store/queue_consume.go:69-161 | input by input, a completed change adds the one it accepts and takes away those whose draft it overwrites |
| LifecycleQueue.CompleteConservesExactly | store/session/session.go:429-503 | a completed change conserves every input if and only if it overwrites no draft that holds one: by saving, submitting or sending another text, by taking or failing a turn, or by failing the front item or a direct send |
| LifecycleQueue.OverwrittenIsNowhere | store/session/session.go:429-439 | an input so overwritten is in no place any more |
| LifecycleQueue.JoinOfJoins | store/queue_consume.go:190-202 | the joined contents of a failed batch are, to the letter, the join of all the inputs its items stand for |
| LifecycleQueue.StepKeepsTexts | store/queue_consume.go:128-202 | every step, crashes included, keeps each stored content equal to the join of the inputs it stands for |
| LifecycleQueue.InputIsStored | store/README-retention.md:112-117 | an accepted input that is neither settled nor under way is on disk word for word |
| LifecycleQueue.CrashConservesExactly | store/lifecycle.go:148-228 | a crash between the two files conserves every input if and only if nothing sent directly was under way, the replaced draft held none, or was saved with the same text, and no turn or front item was failing; a failing direct send is safe alone |
| LifecycleQueue.StepConservesExactly | store/lifecycle.go:148-228 | both, for every step there is |
| LifecycleQueue.RunConserves | store/README-retention.md:112-117 | over any interleaving of drafts, turns, front items, direct sends, crashes and recoveries without such a step every accepted input stays in exactly one place, and there with its text |
| LifecycleQueue.RecoveryExactly | store/lifecycle.go:470-529 | recovery drops exactly the items whose turn or request is published, resends exactly the others that were consumed or sent, and leaves nothing half sent |
| LifecycleQueue.RecoveredInOrder | store/lifecycle.go:470-529 | the items the log does not show stay, in their order, each with its number, request, content, count and inputs, its state reset only if it was taken or on its way |
| LifecycleQueue.ResentIsStored | store/lifecycle.go:470-529 | what is handed back for resending is what is stored |
| LifecycleQueue.ResentInOrder | store/lifecycle.go:470-529 | what is handed back and what is settled come in the order of the queue |
| LifecycleQueue.KnownAfterRecovery | store/lifecycle.go:470-529 | a request is known after recovery if and only if an item of it is not shown |
| LifecycleQueue.RecoveringAgainExactly | store/lifecycle.go:470-529 | a second recovery changes nothing if and only if no item was taken by a turn that is not shown while its request is; it drops those |
| LifecycleQueue.MarkedExactly | store/queue_consume.go:69-97 | a turn takes every item that is queued and not taken, counts a sending for each, and changes nothing else |
| LifecycleQueue.TurnSplitsExactly | store/queue_consume.go:100-161 | the items of a turn and the others, each set whole and in the order of the queue |
| LifecycleQueue.SmallChangeExactly | store/session/session.go:418-504 | both files after each change to the draft, the end or the front of the queue, field by field |
| LifecycleQueue.TurnChangeExactly | store/queue_consume.go:69-161 | both files after each change that takes, confirms or fails a turn, and when nothing is written |
| LifecycleQueue.ChangeKeepsOrder | store/session/session.go:394-504 | whatever change is made, older items stay before newer ones |
| LifecycleQueue.RequestIsAcceptedOnce | store/lifecycle.go:373-386 | a request that is queued is not accepted a second time |
| LifecycleQueue.JoinedExactly | store/queue_consume.go:190-202 | joined contents are the contents in order with one rule between two neighbours |
| LifecycleQueue.ReturnedInputLost | store/queue_consume.go:69-97 | a returned input disappears when the next turn is taken |
| LifecycleQueue.EditedInputLost | store/session/session.go:429-439 | a returned input that is edited before it is saved or submitted is in no place any more |
| LifecycleQueue.FailedInputRepeated | store/queue_consume.go:128-161 | a crash while a turn fails leaves its input in both files, and recovery resends it |
| LifecycleQueue.SubmittedDraftLost | docs/2026-09-08-session-storage-architecture/my_design.md:1298 | a crash while any draft is queued leaves it in neither file, and an input it held in no place |
| LifecycleQueue.NextSeq | store/session/session.go:394-402 | a new item is numbered one above the greatest queued number, and from 1 |
| LifecycleQueue.LifecycleStore.Publish | store/lifecycle.go:148-228 | the draft file is written first, the queue file second |
| LifecycleQueue.LifecycleStore.Enqueue | store/lifecycle.go:373-386 | a request already queued changes nothing; any other goes to the end |
| LifecycleQueue.LifecycleStore.SaveDraft | store/lifecycle.go:347-356 | the text becomes the draft, and stands for the inputs of the old one only if it is the same |
| LifecycleQueue.LifecycleStore.SubmitDraft | store/lifecycle.go:335-344 | the text goes to the end of the queue, as the inputs of the draft if it is the same and as a new input otherwise, and what a crash between the files leaves |
| LifecycleQueue.LifecycleStore.MarkConsumed | store/queue_consume.go:69-97 | the turn takes every waiting item and clears the draft; with none waiting nothing is written |
| LifecycleQueue.LifecycleStore.ConfirmConsumed | store/queue_consume.go:100-124 | exactly the turn's items leave the queue |
| LifecycleQueue.LifecycleStore.FailConsumed | store/queue_consume.go:128-161 | the turn's contents, joined in order, become the draft and its items leave |
| LifecycleQueue.LifecycleStore.SendFront | store/session/session.go:452-465 | the front item goes out once, and not again while it is under way |
| LifecycleQueue.LifecycleStore.ConfirmFront | store/session/session.go:468-481 | the front item leaves if and only if it was sent, and under this request if both have a name |
| LifecycleQueue.LifecycleStore.FailFront | store/session/session.go:484-495 | the front item's content becomes the draft, and what a crash between the files leaves |
| LifecycleQueue.LifecycleStore.DirectSend | store/session/session.go:441-449 | the draft is cleared; the text goes to the end of a queue that has items and into no file otherwise |
| LifecycleQueue.LifecycleStore.FailDirect | store/session/session.go:498-504 | the text comes back as the draft, in one write |
| LifecycleQueue.LifecycleStore.Join | store/queue_consume.go:190-202 | contents in order with one separator between two |
| LifecycleQueue.LifecycleStore.RecoverItems | store/lifecycle.go:470-529 | the filter keeps, resends and drops as specified |
| LifecycleQueue.LifecycleStore.NextNumber | store/session/session.go:394-402 | the loop finds the next number |
| StackChannel.StepKeepsSound | store/stack_channel.go:121-350 | every change keeps items distinct, rows stacked by age, archive coordinates ordered, and an item's archive rows in the order it came and went |
| StackChannel.ClosingTakesTheWholeBatch | store/stack_channel.go:121-166 | a batch leaves whole: each of its rows is archived once under one coordinate and revision, no other row moves |
| StackChannel.BatchLeavesWhenDone | store/stack_channel.go:298-318 | a status change archives if and only if it completes the last open item of its batch, and then the whole batch |
| StackChannel.PopIsLastInFirstOut | store/stack_channel.go:321-340 | a pop by name succeeds if and only if it names the newest row, and leaves the rest in place |
| StackChannel.PoppedExactly | store/stack_channel.go:321-340 | a pop succeeds if and only if there is a row and it is on top or no name is given; that row is archived, closed where it entered, and nothing else changes |
| StackChannel.PushedExactly | store/stack_channel.go:265-295 | a push succeeds if and only if every name is given, new to the stack and new within the push; its rows then lie on top in order, with their batch, status, number, coordinate and revision, over what was there |
| StackChannel.ClosedExactly | store/stack_channel.go:121-166 | closing is refused if and only if the batch has no row; otherwise its rows are archived in order, each as it was but for the status given, at the latest coordinate at which one entered, and the others stay in theirs |
| StackChannel.UpdatedExactly | store/stack_channel.go:298-318 | a status change is refused if and only if the item is not on the stack; otherwise its row alone gets the status, and its batch is closed with it if that completes the last open row |
| StackChannel.PublishedExactly | store/stack_journal.go:93-135 | an accepted change is published under the next revision, nothing of a refused or empty one |
| StackChannel.PopsUndoPushes | store/stack_channel.go:265-340 | as many pops as a push added items give the stack back, and the archive gains the items in reverse order |
| StackChannel.ArchiveOnlyGrows | store/stack_journal.go:93-135 | an effective commit only adds to the archive, under its own revision, and takes from the stack what it adds |
| StackChannel.CommitCrashExactly | store/stack_journal_json.go:141-233 | from any residue, a commit cut before or inside any of its writes leaves what readers and the next commit find as the old stack before the active file is replaced, as the new one once the head is published, and in between as the old one if and only if the change only pushed |
| StackChannel.LeavingRowsAreLost | store/stack_journal_json.go:217-233 | in between, an item that left the stack is on it no more, and the history the next commit goes on from does not have it |
| StackChannel.RunHoldsOneStack | store/README.md:463-467 | over any run of changes and crashes the two files hold one sound stack, each commit going on from what the one before left |
| StackChannel.StackState.Archive | store/stack_channel.go:139-166 | one closing coordinate for the batch, the latest at which one of its items entered |
| StackChannel.StackState.CloseBatch | store/stack_channel.go:121-136 | the loop splits the stack into the batch and the rest, in order |
| StackChannel.StackState.PushItems | store/stack_channel.go:265-295 | all items or none: an empty or repeated name refuses the whole push |
| StackChannel.StackState.SetStatus | store/stack_channel.go:298-318 | the status change with its closing, or a refusal that changes nothing |
| StackChannel.StackState.PopTop | store/stack_channel.go:321-340 | the pop, or a refusal that changes nothing |
| StackFork.PresentIsPast | store/stack_journal.go:193-216 | what the rows on record say about the present is the stack itself |
| StackFork.StepKeepsPast | store/stack_journal.go:193-216 | no later change alters what the rows say about an earlier coordinate |
| StackFork.PastIsOnRecord | store/README.md:459-462 | the membership at a coordinate can be read off the rows after any later run |
| StackFork.SnapshotIsExactly | store/stack_journal.go:190-216 | the fork snapshot is that membership if and only if nothing on the stack then has left since and nothing gone by then has left again |
| StackFork.ForkSeesTheFuture | store/stack_journal.go:190-216 | a run whose fork finds a goal finished that the stack then still held |
| StackFork.Dedupe | store/stack_channel.go:244-260 | one row for each item, the first of its highest revision, in order of first appearance |
| StackFork.SnapshotAt | store/stack_journal.go:193-216 | the loops return exactly the rows and items the snapshot is said to show, by age and in order of first appearance |
| ProjectBoard.RowLessIsOrder | store/board/board.go:146-154 | the output order is a strict order, total up to equal kind, key and session |
| ProjectBoard.RowLessExactly | store/board/board.go:146-154 | it goes by kind, then key, then session, each byte by byte |
| ProjectBoard.TrimExactly | store/board/board.go:108-144 | trimming takes the blanks at both ends off, all of them and nothing else |
| ProjectBoard.FoldShowsExactly | store/board/board.go:108-144 | a fold shows exactly the rows of this schema, a known kind and a key that are the newest of their trimmed session and key, the later of equal ones, and no removal |
| ProjectBoard.FoldIsDeterministic | store/README.md:281-283 | the fold depends on the rows alone, not on the order in which keys are visited |
| ProjectBoard.CompactionPreservesFold | store/board/board.go:299-309 | folding a compacted file gives it back: compaction loses nothing a reader sees |
| ProjectBoard.CompactionIsTransparentExactly | store/README.md:281-291 | after any further appends the reading is the same with and without the compaction if and only if no removed key comes back under a smaller number |
| ProjectBoard.NewerRowsAreSafe | store/README.md:278-280 | batches stamped at or above the file's watermark never bring a removed key back |
| ProjectBoard.WatermarkIsMax | store/board/board.go:260-268 | the watermark bounds every number in the file and is one of them |
| ProjectBoard.CompactionLowersWatermarkExactly | store/README.md:287-291 | a compaction lowers the file's watermark if and only if no row with the greatest number is shown |
| ProjectBoard.RetryIsRecognisedExactly | store/board/board.go:232-243 | after a compaction a repeated batch is recognised if and only if a row of its number is still shown |
| ProjectBoard.CompactionForgetsRemoval | store/README.md:287-291 | a file whose watermark falls and whose newest batch is not recognised again |
| ProjectBoard.Fold | store/board/board.go:108-144 | sorted, and holding exactly the newest rows of their keys that are not removals |
| ProjectBoard.Insert | store/board/board.go:146-154 | the row enters its place in the order |
| ProjectBoard.BoardFile.Append | store/board/board.go:312-388 | for every file and batch: recognised exactly if empty or legal and already there; refused whole exactly if too long, of another session, or new and too long even after a compaction; otherwise added at the end of the file, or of its compaction where it would grow too long, and the answer is the greater of the two watermarks; a torn line is cut off first |
| ProjectBoard.StampedExactly | store/board/board.go:245-258 | stamping names the session where a row names none, and changes nothing else |
| ProjectBoard.RetryIsWholeExactly | store/board/board.go:232-243 | a batch that crashed after some of its lines and is sent again is there whole if and only if none or all of them had been written; otherwise the rest is lost |
| ProjectBoard.CompactionBringsNothingIn | store/board/board.go:299-309 | a compaction before the append does not make a new batch look written |
| ComposerImage.DecodeInvertsEncode | gui/composer_media.go:88-126 | decoding inverts section 4 of RFC 4648 for every byte string |
| ComposerImage.AlphabetExactly | gui/composer_media.go:115-118 | the alphabet of section 4 of RFC 4648, in both directions |
| ComposerImage.GroupExactly | gui/composer_media.go:115-118 | three bytes make four letters, six bits each from the highest on |
| ComposerImage.LastGroupExactly | gui/composer_media.go:115-118 | one or two bytes at the end make two letters or three, spare bits zero, and padding |
| ComposerImage.DecodesExactly | gui/composer_media.go:115-118 | a text decodes if and only if it is whole groups of letters, the last padded by at most two signs |
| ComposerImage.DecodedLength | gui/composer_media.go:88-126 | the length of a text is determined by the number of bytes it decodes to |
| ComposerImage.EarlyBoundIsSafe | gui/composer_media.go:88-126 | the bound checked before decoding rejects no text of a legal size |
| ComposerImage.AcceptedExactly | gui/composer_media.go:88-126 | accepted are exactly the texts whose payload decodes to between 1 and the limit bytes, and the result is those bytes |
| ComposerImage.PayloadExactly | gui/composer_media.go:88-102 | the payload is the text, or what follows the first comma of a data URL that names base64 before it; without the comma or the name the header is refused as such |
| ComposerImage.TrimExactly | gui/composer_media.go:89 | all white space at both ends is taken off and nothing else |
| ComposerImage.SqueezedExactly | gui/composer_media.go:103-109 | spaces, tabs and line breaks are dropped from the payload and nothing else is |
| ComposerImage.RefusedExactly | gui/composer_media.go:88-126 | why a text is refused: empty, too large before or after decoding, or no base64 |
| ComposerImage.ImageRoundTrip | gui/composer_media.go:88-126 | the encoding of any legal image, with any whitespace in and around it and behind any base64 data URL header, gives the bytes back |
| ComposerImage.CanonicalExactly | gui/composer_media.go:82-126 | a decoded text is the encoding of its bytes if and only if the spare bits before its padding are zero |
| ComposerImage.SpareBitsAreIgnored | gui/composer_media.go:82-126 | one text that decodes although no encoder produces it |
| CloseCoordinator.StepKeepsSound | gui/shutdown.go:43-108 | every step keeps at most one waiter, at the point its history says, within its deadline, and refusal of new input once it exists |
| CloseCoordinator.OneWaiterOneQuit | gui/shutdown.go:43-108 | however requests interleave there is never a second waiter nor a second quit |
| CloseCoordinator.ReleasedOnlyWhenSafe | gui/shutdown.go:43-89 | the window is released, and the program quits, only when no session runs, or after the full wait, the cancellation at its end, and the full two seconds of the drain |
| CloseCoordinator.QuitComesInTime | gui/shutdown.go:9-15 | until the quit, time stays within the timeout and two more seconds of the deferred request, and at that point the waiter can move and time cannot |
| CloseCoordinator.WaiterProgresses | gui/shutdown.go:72-108 | each step of the waiter brings the quit nearer and no other step takes it back |
| CloseCoordinator.Coordinator.constructor | gui/shutdown.go:31-40 | a timeout that is not positive becomes the default of five seconds |
| CloseCoordinator.Coordinator.BeforeClose | gui/shutdown.go:43-64 | defers exactly when a close is under way or sessions run, refuses new input before it asks, and starts a waiter only the first time |
| CloseCoordinator.Coordinator.CompleteClose | gui/shutdown.go:96-108 | quits the first time and never again |
| AppCleanup.App.constructor | boot/app.go:93-100 | nothing acquired, nothing registered |
| AppCleanup.App.AddCleanup | boot/app.go:63-64 | what has just been opened is registered last |
| AppCleanup.App.Close | boot/app.go:70-79 | everything registered is released in reverse, the output last; an empty stack releases nothing |
| AppCleanup.App.Shutdown | boot/app.go:66-67 | the first call releases everything, a later one nothing |
| AppCleanup.App.InitRuntime | boot/runtime.go:35-93 | a runtime that fails its check is acquired and released before the error returns; a usable one is handed over unregistered |
| AppCleanup.App.Run | boot/app.go:93-468 | succeeds if and only if no stage fails, holding what the stages opened; otherwise everything opened before the first failing stage has been released |
| AppCleanup.App.RunRuntime | boot/app.go:123-138 | the same from the runtime, registered as soon as it is usable |
| AppCleanup.App.RunStores | boot/app.go:139-160 | the same from the single-process gate to the store |
| AppCleanup.App.RunServices | boot/app.go:162-253 | the same from the permission gate to the teamwork store, which open nothing to be released |
| AppCleanup.App.RunApplication | boot/app.go:254-468 | the same from the application to the bound project |
| AppCleanup.App.Fail | boot/app.go:82-85 | the error is returned only after everything acquired was released |
| AppCleanup.RunAndShutdown | boot/app.go:63-85 | whichever stage fails first and however often shutdown is called, each opened resource is released once, in reverse, the output last; without a failure the runtime, the store, the lifecycle and the board are held besides |
| AppCleanup.ReversedIsPermutation | boot/app.go:70-79 | reverse order releases each resource as often as it was acquired |

## Left out

- MessageChannel.Channel.AppendDraft: demands that the writer's loop ends, because otherwise there is no result to state (`WriterEndsExactly` says when), and that no other file starts where the newest does, because the listing then does not say which is last.
- DraftRun.RunKeepsOneLog: a recovery is a step of the run only where the directory can be read in order and no file with rows is torn; what a torn one leaves is in `PublishIsCleanExactly`. A reap cut short may leave gaps between files, after which the run says nothing of the draft until the next whole one.
- CloseCoordinator.Coordinator.BeforeClose: the answer of the turn control is a parameter, and the waiter goroutine is counted, not run; the interleavings are in the transition system beside it.
- Retention.Evict: errors of the file system on the way, the lists of message ids, and the watermark fields of the message head, which no other protocol here reads.
- LifecycleQueue.RunConserves: an edited text counts as another text, however much of the old one it repeats.
- ProjectBoard.BoardFile.Append: the directory and lock handling, the Markdown copy and the read options are not modelled; trimming knows the ASCII blanks only.
- Message commits: the first commit of a session that does not exist yet, digests, token counts and the other fields of a head that the protocols do not read.
- Shard names are pairs of numbers; their text form and its parsing are not modelled.
- Stacks: replacing a whole stack, restoring a snapshot into the child session and the EVENT rows of a transition.
- Renderer: routing by session and by protocol version, and what an applied payload does to the screen beyond replacing the state it is about; a state that a snapshot shows before its event of revision 0 is delivered counts as that event's from its delivery on.
- Bridge: the ready snapshot's contents, logging, and the forwarding methods for accounts, policy, workspaces and schedules, about which there is nothing to prove.
- Assembly: what the stages do besides opening and failing; the tool registry, plugins and configuration.
- Files, clocks, locks and goroutine scheduling appear only as operations, numbers and interleaved steps.
