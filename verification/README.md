# hocuspocus-rs: a verified model

hocuspocus-rs is a Yjs collaboration server: clients edit shared documents over WebSockets, each
resident document is owned by one actor, storage and Redis replication hang off it as extensions.
This project models the parts in which an update could get lost, be delivered twice, reach the
wrong client or be written by the wrong one, and proves that it does not happen, or states exactly
when it does. `dafny verify dfyconfig.toml` checks everything.

## How the model is built

- `Crdt`: documents as sets of operations and deletions that only grow. Operations of one client
  integrate in clock order; an operation that arrives before its predecessors is held back until the
  gap closes, so `Visible` (what a reader sees) can be less than what a replica holds. State vector,
  diff, full state and transaction delta are defined on that, and applying an update is merging.
- `ActorSpec`: what the document actor does, as functions on its state. Hooks, storage, clock,
  foreign encoders and every single `try_send` on a client's queue are arguments, so a statement
  for all arguments covers every environment. `DocumentActor` is the actor as the source has it: a
  class with fields updated in place, the fan-out, eviction, awareness, hook and batch loops, each
  method proved to compute the corresponding function.
- `Commands`: what each command leaves in queues, awareness, publications and bookkeeping, said about
  the command itself and not about the functions it is made of.
- `Fanout`, `Authority`, `Durability`, `Losses`, `Ownership`, `Departures`, `Replies`, `Generations`:
  the theorems about every run of the actor, and about successive actors of one document.
- `SessionSpec`, `SessionProofs`, `ClientConnection`: one socket, from pre-authentication queueing to
  live routing, in the same two-layer form.
- `Registry`: concurrent `document(name)` calls as interleaved atomic steps.
- `Cluster`, `ClusterBoundary`, `RedisRouting`, `StoreLock`: replication over an unordered, lossless
  channel, the subscriber loop on raw bytes, and the expiring store lock.
- `Throttle`: the pruned sliding window against a specification that forgets nothing.
- `Wire`: the envelope, routing keys and the Redis identifier prefix, on bytes. lib0's varUint has
  the byte form of unsigned LEB128 (section 7.6 of DWARF version 4).

Where code and comments disagree the model follows the code:

- document.rs:803-804 promises that a failed store is retried. With `unload_immediately` (the
  default) `maybe_unload` does not look at `dirty` again after `run_store`, so the actor exits with
  the edit nowhere (`Durability.FailedStoreStillUnloads`); `Durability.UnloadBoundary` and
  `Durability.EveryExitIsAccountedFor` say exactly when.
- document.rs:440-441 says a rejecting hook closes the connection. Only a Close is queued; the
  connection stays in the map (`Replies.RejectionOnlyQueuesAClose`).
- document.rs:424-425 acknowledges an update as saved even if it failed to decode or to apply
  (`Replies.SavedMeansAccepted`, `Replies.LostUpdateIsAcknowledged`).
- Commands behind an exiting RemoveConnection are dropped, in the same batch or still in the
  mailbox, server-side edits included, although `direct_apply` then still reports success
  (server.rs:89-98; `Durability.EditBehindTheExitIsLost`).
  `Durability.ExitDropsTheRestOfTheBatch` and `Durability.ExitDropsTheMailbox` say exactly when.
- document.rs:611-613 says that the socket of an evicted client times out, so that it resyncs. The
  Close goes into the queue that was just full and may not get in, and the idle deadline of an
  authenticated socket moves with every message (server.rs:404-413): a client that keeps typing
  stays connected, and all it types is dropped without an answer
  (`Departures.EvictedWriterIsNotHeard`, `Departures.DepartedClientsAreNotHeard`,
  `SessionProofs.TypingKeepsTheSocketOpen`).
- A failed load is only logged; the next store overwrites what was stored before with what clients
  sent since (`Losses.FailedLoadStoresOnlyWhatWasResent`).
- document.rs:223 breaks out of the loop when every sender is gone, without a store. A registry
  removal by name can drop the last sender of a dirty actor, and its edits with it, with
  `unload_immediately` on or off (`Losses.ClosedMailboxBoundary`).
- redis.rs:107-111 calls out-of-order replication safe. It is for edits that hold nothing
  back that the cluster lacks; an edit that waits at its node for a predecessor arriving over Redis
  is never published (`ClusterBoundary.GappedEditIsNotReplicated`, `Cluster.ContentIsConserved`).

## Model

| member | source | states |
|---|---|---|
| Crdt.VectorIsExact | crates/hocuspocus/src/document.rs:466-472 | the state vector used as merge base names exactly the integrated operations, both directions |
| Crdt.DiffCompletesAnyReplica | crates/hocuspocus/src/document.rs:393-405 | whoever holds what lies below a vector and receives the diff for it shows at least what the server shows |
| Crdt.DiffIsMinimal | crates/hocuspocus/src/document.rs:395-399 | an answer carries exactly the visible operations that the asker has not integrated, and all deletions |
| Crdt.DeltaIsTheDifference | crates/hocuspocus/src/document.rs:488-491 | what a transaction publishes is disjoint from what was visible before and completes it to what is visible now |
| Crdt.CoalescingPreservesMeaning | crates/hocuspocus/src/document.rs:461-539 | for every batch with failed, repeated, gapped and deletion-only updates, the one diff from the base does to any replica holding the base exactly what the separate deltas do |
| Crdt.CoalescedReplicaShowsTheSame | crates/hocuspocus/src/document.rs:514-539 | a replica equal to the base shows what the server shows after the one merged frame |
| DocumentActor.Document.constructor | crates/hocuspocus/src/document.rs:147-192 | a new actor holds what the shared store has under its name, or nothing when the load failed, and is clean and idle |
| DocumentActor.MemoryStorage.Store | crates/hocuspocus/src/extensions/database.rs:63-92 | the next load of that document finds exactly this state, and what every other document would find is unchanged |
| DocumentActor.Document.TrySendTo | crates/hocuspocus/src/document.rs:63-73 | a send is queued, refused for want of room, or lost on a gone receiver; only the full queue is reported |
| DocumentActor.Document.BroadcastWith | crates/hocuspocus/src/document.rs:589-609 | the loop over connections with the shared default frame equals offering everyone the frame at their own address and evicting exactly those without room |
| DocumentActor.Document.EvictLagging | crates/hocuspocus/src/document.rs:611-624 | the listed connections and all their awareness states are gone, each has been sent one Close into its queue if that had room, and nothing else changed |
| DocumentActor.Document.AddConn | crates/hocuspocus/src/document.rs:289-300 | the new connection is in the map after being greeted with the live awareness states |
| DocumentActor.Document.RemoveConn | crates/hocuspocus/src/document.rs:302-332 | the connection and its awareness states are removed and the removal is broadcast |
| DocumentActor.Document.CloseConn | crates/hocuspocus/src/document.rs:663-668 | a Close is queued and the connection removed |
| DocumentActor.Document.ApplyUpdate | crates/hocuspocus/src/document.rs:465-512 | document, merge base, pending flag, store bookkeeping and publication after an update, with the three early returns |
| DocumentActor.Document.Flush | crates/hocuspocus/src/document.rs:514-539 | one merged frame is broadcast and neither base nor pending flag survives |
| DocumentActor.Document.BeforeHandleMessage | crates/hocuspocus/src/document.rs:440-459 | passes exactly if no hook rejects; otherwise a Close with the first rejection's code is queued |
| DocumentActor.Document.Sync | crates/hocuspocus/src/document.rs:377-428 | the answer to SyncStep1, and the read-only, rejected and applied outcomes of an update |
| DocumentActor.Document.AwarenessUpdate | crates/hocuspocus/src/document.rs:541-583 | newer entries win, the writer becomes responsible for all mentioned ids, and the change is broadcast |
| DocumentActor.Document.ClientFrame | crates/hocuspocus/src/document.rs:334-375 | the effect of a frame of every type from a known or unknown connection; `Commands` says for each type what that is |
| DocumentActor.Document.ExternalFrame | crates/hocuspocus/src/document.rs:676-744 | the effect of a peer's frame of every type, and what is published in answer |
| DocumentActor.Document.StoreDeadline | crates/hocuspocus/src/document.rs:251-260 | the earlier of the soft and the hard deadline, none when clean or storing |
| DocumentActor.Document.SpawnStoreTask | crates/hocuspocus/src/document.rs:758-801 | a snapshot goes in flight and the bookkeeping is cleared, unless clean or already storing; `Durability.DueTimerStartsTheStore` says that it happens |
| DocumentActor.Document.RunStoreInline | crates/hocuspocus/src/document.rs:803-839 | store and bookkeeping after an inline store that succeeds, or fails before or after writing; entries of other documents are untouched |
| DocumentActor.Document.MaybeUnloadNow | crates/hocuspocus/src/document.rs:841-878 | the idle check with its inline store and its abortable hooks |
| DocumentActor.Document.Drain | crates/hocuspocus/src/document.rs:201-212 | a batch is a prefix of the mailbox, of 512 commands or of all if there are fewer |
| DocumentActor.Document.Receive | crates/hocuspocus/src/document.rs:213-222 | a batch is handled in order up to an exit and then flushed once |
| DocumentActor.Document.Run | crates/hocuspocus/src/document.rs:194-249 | the event loop computes the run that the theorems below speak about, and never touches the stored state of another document |
| Fanout.NoClientLeftBehind | crates/hocuspocus/src/document.rs:194-247 | at the top of every iteration of every run, a client whose SyncStep2 was really queued and whose queue works shows the whole document once its frames are applied |
| Fanout.FlushSettles | crates/hocuspocus/src/document.rs:516-539 | after a flush nothing is pending, no base is held, and every remaining synced client is owed nothing |
| Fanout.ApplyKeeps | crates/hocuspocus/src/document.rs:465-497 | an update only moves content into what the pending broadcast owes, against a base that is in the document's past |
| Fanout.BroadcastReachesOrEvicts | crates/hocuspocus/src/document.rs:594-624 | a connection leaves the map exactly if its queue was full; every other working queue got the frame |
| Authority.DocumentIsItsAuthorizedWrites | crates/hocuspocus/src/document.rs:262-287 | over every run the document is the start plus exactly the updates of DirectApply, peers, and live writing connections that passed all hooks |
| Authority.ReadersCannotWrite | crates/hocuspocus/src/document.rs:415-420 | no sequence of frames of any type from read-only connections changes the document |
| Authority.OneFrameStandsForTheBatch | crates/hocuspocus/src/document.rs:206-221 | the frame a batch broadcasts equals one frame per applied update for any up-to-date replica; a batch that broadcasts nothing changed nothing |
| Commands.Step1FrameIsAnswered | crates/hocuspocus/src/document.rs:345-414 | a SyncStep1 frame of a connection is offered SyncStep2 with the content above its vector and then SyncStep1 with the server's vector, for every outcome of the two sends; nobody else is touched |
| Commands.AskingClientIsSynced | crates/hocuspocus/src/document.rs:393-414 | a client that connects and asks with room in its queue is a synced client, so the fan-out theorem is about somebody |
| Commands.ReaderUpdateIsRefused | crates/hocuspocus/src/document.rs:415-419 | an update of a read-only connection is answered by status false and changes nothing |
| Commands.FirstRejection | crates/hocuspocus/src/document.rs:449-457 | the first hook to reject decides, with its own close code or 4205 |
| Commands.RejectedUpdateCloses | crates/hocuspocus/src/document.rs:420-457 | a rejected update of a writer is offered exactly a Close with that code and changes nothing |
| Commands.WriterUpdateIsLetIn | crates/hocuspocus/src/document.rs:415-426 | an accepted update is merged, marks the actor dirty at this moment, awaits the broadcast, is published, and is answered by status true |
| Commands.DirectEditIsLetIn | crates/hocuspocus/src/document.rs:280-285 | so is a server-side edit, with nobody to answer |
| Commands.PeerUpdateIsLetIn | crates/hocuspocus/src/document.rs:739-742 | so is a peer's update, and it is not published again |
| Commands.AwarenessFrameIsSpread | crates/hocuspocus/src/document.rs:541-583 | a client's awareness frame decides who is live and who wrote it, makes the sender answer for the ids, is offered to everyone and published |
| Commands.PeerAwarenessIsSpread | crates/hocuspocus/src/document.rs:695-697 | a peer's awareness reaches the clients in the same way and is not published again |
| Commands.QueryIsAnswered | crates/hocuspocus/src/document.rs:626-636 | whoever asks is offered all live awareness states, and nothing else moves |
| Commands.NewConnectionIsGreeted | crates/hocuspocus/src/document.rs:289-300 | a new connection is in the map with its address and rights, greeted exactly if there are live states |
| Commands.DisconnectIsTold | crates/hocuspocus/src/document.rs:302-332 | a disconnect removes the connection and its states only, the others are offered the removal, and the actor goes if and only if it is idle and no unload hook objects |
| Commands.ClosingFrameCloses | crates/hocuspocus/src/document.rs:360-372 | a provider's close (1000) or a client's broadcast (4205) is offered a Close and takes the connection out as a disconnect does |
| Commands.PeerTextIsHeard | crates/hocuspocus/src/document.rs:708-714 | a peer's stateless text is offered to every client |
| Commands.PeerQuestionIsAnswered | crates/hocuspocus/src/document.rs:698-738 | a peer's SyncStep1 or awareness query is answered by exactly one publication, if replies are wanted |
| Commands.OtherFramesDoNothing | crates/hocuspocus/src/document.rs:334-375 | frames of unknown connections and frames without meaning change nothing |
| Commands.BatchIsHeard | crates/hocuspocus/src/document.rs:516-539 | at the end of a batch everyone is offered the one diff, exactly those without room leave, and nothing is pending |
| Durability.NothingFallsOut | crates/hocuspocus/src/document.rs:226-246 | in every reachable state clean and idle means storage covers the document, clean and storing means the snapshot is the document |
| Durability.StoresNeverOverlap | crates/hocuspocus/src/document.rs:843-851 | while a store is in flight nothing else writes storage, no second store starts and the actor does not unload |
| Durability.DueTimerStartsTheStore | crates/hocuspocus/src/document.rs:761-773 | with clients connected a due timer puts exactly the document in flight, clears the bookkeeping and leaves no deadline |
| Durability.DueTimerStoresInline | crates/hocuspocus/src/document.rs:234-239 | with nobody connected it stores inline: what is in storage, whether the actor is dirty and whether it exits, for every outcome, kept warm or not |
| Durability.BackgroundWriteIsTheSnapshot | crates/hocuspocus/src/document.rs:785-791 | the background store writes its snapshot and changes nothing else |
| Durability.StoreResultEndsTheStore | crates/hocuspocus/src/document.rs:226-232 | a store result ends the store; the actor is then dirty if and only if it was meanwhile or the store failed, and has a deadline exactly then |
| Durability.StoreResultLetsGo | crates/hocuspocus/src/document.rs:226-232 | with nobody connected it also decides the exit, as an iff, and what is stored |
| Durability.StoreCycleCompletes | crates/hocuspocus/src/document.rs:226-245 | a successful background store has everything of its moment in storage, whatever run of events came between its start and its result |
| Durability.UnloadBoundary | crates/hocuspocus/src/document.rs:852-878 | an exit loses the document if and only if it was dirty, this call's inline store did not write, and storage lacked it |
| Durability.EveryExitIsAccountedFor | crates/hocuspocus/src/document.rs:213-240 | every exit but a closed mailbox goes through one such check on a consistent state with no store in flight |
| Durability.WarmActorsLoseNothing | crates/hocuspocus/src/document.rs:852-856 | with unload_immediately off no exit of any run through the idle check loses anything; the closed mailbox is the one exit that can |
| Durability.LastDisconnectPersistsAndUnloads | crates/hocuspocus/src/document.rs:273-276 | when the last client leaves and the store succeeds, the actor exits with the document in storage |
| Durability.FailedStoreStillUnloads | crates/hocuspocus/src/document.rs:857-873 | the concrete loss: a client connects, edits and is the last to disconnect, its store fails, the actor exits with the edit nowhere |
| Durability.VisitEnds | crates/hocuspocus/src/document.rs:857-873 | for every store outcome, where the only client's edit is once that client has left and the actor has exited |
| Durability.ExitDropsTheRestOfTheBatch | crates/hocuspocus/src/document.rs:213-219 | the first k commands of a batch make the actor exit if and only if one of them is a disconnect that, in the state before it, leaves nobody connected, no store in flight, nothing kept warm and no objecting hook; the commands behind have no effect |
| Durability.ExitDropsTheMailbox | crates/hocuspocus/src/document.rs:201-223 | when the actor exits while working off its mailbox, everything behind that disconnect is without effect: drained already, beyond the 512 drained, or sent later |
| Durability.EditBehindTheExitIsLost | crates/hocuspocus/src/server.rs:89-98 | the concrete loss, for every edit: behind the last disconnect a server-side edit is in neither document nor storage when the actor exits, although the call reports success |
| Durability.RunGrowsStorage | crates/hocuspocus/src/document.rs:761-839 | after a successful load every stored version covers the one before |
| Durability.DeadlineExistsWhenDirty | crates/hocuspocus/src/document.rs:251-260 | in every reachable state: dirty exactly when both timestamps are set, a deadline exactly when dirty and not storing, within max_debounce of the first change |
| Durability.EditsCannotPostponeTheStore | crates/hocuspocus/src/document.rs:750-756 | over every run a store is due at most max_debounce after the actor became dirty, as seen from its state after each command |
| Durability.DeadlinesNeverMoveEarlier | crates/hocuspocus/src/document.rs:750-756 | over every run a later deadline is never earlier than one seen before |
| Ownership.AwarenessIsOwned | crates/hocuspocus/src/document.rs:541-583 | in every reachable state a live awareness state written by a connection is tracked by that connection, which is in the map |
| Ownership.EmptyRoomHasNoCursors | crates/hocuspocus/src/document.rs:302-317 | once the last connection has gone no state written by a client is left |
| Departures.RunMoves | crates/hocuspocus/src/document.rs:302-305 | over every continuation an id once added is in the map or among the departed, never both, and a departed connection never changes again |
| Departures.EveryDepartureIsExplained | crates/hocuspocus/src/document.rs:611-624 | over every run each departed connection was removed by a disconnect, a provider's close or a forbidden broadcast of its own, or was evicted on a full queue, and then told to close if and only if the one extra send was accepted |
| Departures.DepartedClientsAreNotHeard | crates/hocuspocus/src/document.rs:334-337 | over every continuation the actor ends in the very state it would have reached had all frames of a departed connection been empty, and nothing more is sent to it |
| Departures.EvictedWriterIsNotHeard | crates/hocuspocus/src/document.rs:611-624 | the concrete loss: a writer whose queue was full at one broadcast sends an update that reaches no document and gets no answer, and it was told to close exactly if its queue had room again |
| Replies.Step1IsAnswered | crates/hocuspocus/src/document.rs:393-414 | with room in the queue a SyncStep1 gets the missing content and then the server's vector |
| Replies.HandshakeCompletes | crates/hocuspocus/src/document.rs:392-427 | after both directions of the handshake each side shows what the other showed, and without held-back operations both hold exactly the union |
| Replies.SavedMeansAccepted | crates/hocuspocus/src/document.rs:415-426 | saved is reported exactly to writers whose update passed all hooks; a decoded update is then merged into the document, any other leaves document, bookkeeping and publication alone |
| Replies.LostUpdateIsAcknowledged | crates/hocuspocus/src/document.rs:477-486 | every update that fails to decode or to apply is reported as saved although nothing changed |
| Replies.RejectionOnlyQueuesAClose | crates/hocuspocus/src/document.rs:449-457 | a rejection changes neither document nor bookkeeping and leaves the connection in the map |
| Replies.ClientsAreInformed | crates/hocuspocus/src/document.rs:289-300 | over every run each queued frame carries its connection's address, and greeted clients have been told of every live awareness state |
| Replies.AwarenessIsLastWriterWins | crates/hocuspocus/src/document.rs:551-563 | a state is live after an update exactly if its newest entry is and no connection that mentioned it was evicted by the broadcast of the update; who counts as its writer; who is evicted |
| Generations.StorageOnlyGrows | crates/hocuspocus/src/extensions/database.rs:48-68 | across any number of load, edit, store, unload, reload cycles with successful loads each stored version covers the earlier ones |
| Generations.ReloadCoversEarlierWork | crates/hocuspocus/src/document.rs:151-171 | a reloaded document covers every update an earlier actor applied, if that actor left clean |
| Losses.StorageIsAVersion | crates/hocuspocus/src/document.rs:758-839 | over every run storage is what the actor found or the document after a prefix of the authorized writes, whichever stores ran, failed or overlapped with edits |
| Losses.LossIsWhatCameLater | crates/hocuspocus/src/document.rs:758-839 | storage lacks part of the document if and only if a write after the stored version is not in that version |
| Losses.ClosedMailboxBoundary | crates/hocuspocus/src/document.rs:223-248 | what a closed-mailbox exit of any run leaves: safe if and only if no write after the stored version is missing from it, in the orphaned store if and only if that holds the whole document unwritten, lost only if dirty |
| Losses.ClosedMailboxLosesEdits | crates/hocuspocus/src/document.rs:223 | the concrete loss, for every configuration: a server-side edit, then the last handle is dropped |
| Losses.FailedLoadStoresOnlyWhatWasResent | crates/hocuspocus/src/document.rs:160-164 | over every run after a failed load storage is untouched or holds a prefix of the writes; the old content survives if and only if nothing was stored or each of its operations and deletions was sent again in that prefix |
| Losses.FailedLoadLosesData | crates/hocuspocus/src/document.rs:160-164 | the concrete loss after a failed load: one client connects, edits and leaves, and a successful store replaces the old content |
| ClientConnection.ClientConnection.Handle | crates/hocuspocus/src/server.rs:420-446 | pings and garbage are ignored, established keys are forwarded, the rest authenticates or queues |
| ClientConnection.ClientConnection.EnqueueFrame | crates/hocuspocus/src/server.rs:448-465 | a frame is queued and counted within all three limits, or the socket is told to close |
| ClientConnection.ClientConnection.AuthenticateKey | crates/hocuspocus/src/server.rs:467-540 | only a token frame that passes every on_connect and on_authenticate hook is admitted |
| ClientConnection.ClientConnection.RegisterConnection | crates/hocuspocus/src/server.rs:576-622 | at most two rounds, a failed lookup ends it, only an acknowledged add counts |
| ClientConnection.ClientConnection.DrainQueue | crates/hocuspocus/src/server.rs:565-572 | the key's frames are sent in order and taken off both counters |
| ClientConnection.ClientConnection.Cleanup | crates/hocuspocus/src/server.rs:634-640 | the log grows by exactly one RemoveConnection per established key, for that key's connection, none twice, nothing else |
| SessionProofs.RoutingIsExactlyOnce | crates/hocuspocus/src/server.rs:420-573 | for every frame sequence and key the actor gets exactly the accepted frames in arrival order, after the acknowledged add; queued and established keys are disjoint |
| SessionProofs.CountersAreExact | crates/hocuspocus/src/server.rs:448-465 | for every frame sequence the counters equal the real totals over all queues and all three limits hold |
| SessionProofs.DrainNeverSaturates | crates/hocuspocus/src/server.rs:567-570 | the saturating subtractions of the drain loop are exact whenever the frames are accounted for |
| SessionProofs.OnlyAuthenticatedKeysAreRouted | crates/hocuspocus/src/server.rs:492-563 | for every frame sequence a key is established if and only if the sequence holds a token frame for it with all hooks passed and a registration acknowledged in the first or second round; its frames go to the actor that acknowledged |
| SessionProofs.TokenLetsTheClientIn | crates/hocuspocus/src/server.rs:475-563 | from the bytes of a token frame: with all hooks passed and an acknowledgement the key is established at that actor |
| SessionProofs.TokenFramesAreRecognised | crates/hocuspocus/src/server.rs:479-485 | an auth message is a token frame if and only if its tag is 0 |
| SessionProofs.OneDenialIsEnough | crates/hocuspocus/src/server.rs:502-535 | one denying hook leaves the session as it was, but for a Close with 4403 |
| SessionProofs.AuthenticatedFromTheFirstPass | crates/hocuspocus/src/server.rs:537-539 | over every sequence the socket is authenticated if and only if some token frame passed all hooks |
| SessionProofs.FramesWaitWhileTheyFit | crates/hocuspocus/src/server.rs:448-465 | over every sequence a frame is put at the end of its key's queue if and only if the real totals leave room under all three limits |
| SessionProofs.ClosingReasons | crates/hocuspocus/src/server.rs:448-561 | for every frame sequence each frame is ignored, taken, admitted, or answered by exactly one Close: 4205 for a queue limit or an unacknowledged registration, 4403 for a denying hook |
| SessionProofs.TypingKeepsTheSocketOpen | crates/hocuspocus/src/server.rs:404-413 | an authenticated socket stays open if and only if each message arrives within the timeout of the one before, whether or not its connections still exist |
| Registry.CreationIsUnique | crates/hocuspocus/src/server.rs:59-76 | over every interleaving at most one actor per name is spawned and every returning caller gets that one |
| Registry.CreationSucceeds | crates/hocuspocus/src/server.rs:59-76 | if spawning works every returning caller has a handle, and exactly one actor was spawned for its name, that one |
| Registry.CallsAreShort | crates/hocuspocus/src/server.rs:59-76 | no call takes more than eight steps of its own, so with the absence of deadlock every call returns |
| Registry.RegisteredNameIsAnsweredAtOnce | crates/hocuspocus/src/server.rs:60-62 | a registered name is answered in one step with the registered handle |
| Registry.CreatorClearsItsLock | crates/hocuspocus/src/server.rs:74 | the creator takes its lock entry out of the table |
| Registry.CreationNeverDeadlocks | crates/hocuspocus/src/server.rs:63-68 | while a call has not returned some step is possible |
| Registry.SpawningFindsNoActor | crates/hocuspocus/src/server.rs:68-73 | a caller that missed twice under the lock has no rival actor for its name |
| Cluster.ContentIsConserved | crates/hocuspocus/src/extensions/redis.rs:112-123 | over every run each node's document plus what is in flight to it is exactly the start and all edits so far, at every point, if and only if every edit replicates |
| Cluster.ClusterConverges | crates/hocuspocus/src/extensions/redis.rs:257-267 | each edit is in every node's document or in flight to it, and with nothing in flight all documents are equal, for all runs whose edits replicate |
| Cluster.AskedPeerAnswers | crates/hocuspocus/src/extensions/redis.rs:240-255 | a node that asks has its question on the way to every peer; the peer's answer goes to the asker, which then shows at least what the peer showed |
| Cluster.NoticesGoOut | crates/hocuspocus/src/extensions/redis.rs:247-294 | awareness changes, awareness queries and stateless texts go out to every node |
| Cluster.EditConservesExactly | crates/hocuspocus/src/extensions/redis.rs:257-267 | an edit reaches the peers if and only if what it does not make visible at once is already known to the cluster |
| Cluster.GapFreeRunsReplicate | crates/hocuspocus/src/extensions/redis.rs:107-123 | every run of gap-free edits replicates, so the conservation and convergence results hold for it |
| Cluster.DeliveryShrinksTheLoad | crates/hocuspocus/src/document.rs:693-744 | every delivery lowers the load, questions weighing one reply fan-out more |
| Cluster.ReplicationQuiesces | crates/hocuspocus/src/extensions/redis.rs:257-272 | without new input every delivery order ends within the load |
| Cluster.QuiescenceIsAgreement | crates/hocuspocus/src/extensions/redis.rs:182-205 | a complete delivery order exists and ends with all documents equal |
| ClusterBoundary.ActorReceivesAsNode | crates/hocuspocus/src/document.rs:676-744 | a peer's message, with any awareness entries or text, does to the actor's document what it does to the cluster node's, and exactly what the actor publishes goes into the flight |
| ClusterBoundary.ActorReceivesQuietly | crates/hocuspocus/src/document.rs:698-738 | without a reply channel or without encodable awareness only the answers are missing |
| ClusterBoundary.ActorEditsAsNode | crates/hocuspocus/src/document.rs:493-511 | every local edit the actor lets in changes the cluster node's document and flight as the actor's document and publications |
| ClusterBoundary.GappedEditIsNotReplicated | crates/hocuspocus/src/extensions/redis.rs:257-260 | the concrete loss of an edit whose gap is filled over Redis |
| RedisRouting.Subscribe | crates/hocuspocus/src/extensions/redis.rs:181-205 | the subscriber loop on raw bytes computes the routing of each payload in turn |
| RedisRouting.RoutingKeepsOrder | crates/hocuspocus/src/extensions/redis.rs:181-205 | every payload is routed on its own, in order of arrival, none lost or repeated |
| RedisRouting.RoutedMeansPublished | crates/hocuspocus/src/extensions/redis.rs:187-204 | any payload is routed if and only if it is a parsable frame for a resident document wrapped by another node's identifier |
| RedisRouting.PublishedFramesAreRouted | crates/hocuspocus/src/extensions/redis.rs:187-204 | a published frame arrives unchanged at its document exactly if it is a peer's and the document is resident |
| StoreLock.BuildIsAStableSort | crates/hocuspocus/src/server.rs:148-151 | extensions run in descending priority, in registration order within a priority |
| StoreLock.StableSortIsUnique | crates/hocuspocus/src/server.rs:148-151 | any stable descending sort gives that order |
| StoreLock.RunStoreHooks | crates/hocuspocus/src/document.rs:818-828 | the store hooks run up to and including the first failure, or all |
| StoreLock.DatabaseRunsUnderTheLock | crates/hocuspocus/src/extensions/redis.rs:225-229 | whenever the database hook runs, the lock hook of the same attempt ran before it and succeeded |
| StoreLock.MutualExclusionUnlessExpired | crates/hocuspocus/src/extensions/redis.rs:296-318 | over every interleaving of the nodes' hook chains two nodes are past the lock only if the earlier lock expired |
| StoreLock.StorageIsWrittenUnderTheLock | crates/hocuspocus/src/document.rs:785-798 | however the extensions were registered, over every interleaving each database write is made under a token granted to that node's attempt, and follows a write under a newer token only if its own lock expired |
| StoreLock.ReleaseFreesOnlyOwnLock | crates/hocuspocus/src/extensions/redis.rs:320-330 | no release frees another node's lock |
| StoreLock.ReleaseFreesTheLock | crates/hocuspocus/src/extensions/redis.rs:320-330 | over every run a release that reaches Redis frees the key if and only if it held the node's own token, so a holder of an unexpired lock leaves it free |
| StoreLock.UndisturbedAttemptCompletes | crates/hocuspocus/src/document.rs:785-798 | an attempt that finds the key free and whose hooks work is granted the lock, writes once per database hook, and leaves the key free for the next |
| StoreLock.TakenKeyEndsTheAttempt | crates/hocuspocus/src/extensions/redis.rs:313-318 | while the key is taken an attempt ends at its lock hook and writes nothing |
| StoreLock.FailedStoreBlocksUntilExpiry | crates/hocuspocus/src/document.rs:819-829 | after a hook fails behind the lock, until expiry the key stays and no node is granted the lock, whatever the nodes do |
| Throttle.Throttle.Block | crates/hocuspocus/src/extensions/throttle.rs:48-69 | the verdict and the pruned state after one call; `Throttle.WindowSlides` says which verdict that is |
| Throttle.PrunedWindowIsExact | crates/hocuspocus/src/extensions/throttle.rs:48-69 | after any call history in time order the pruned state blocks exactly when the full history of attempts and bans does |
| Throttle.WindowSlides | crates/hocuspocus/src/extensions/throttle.rs:48-69 | after any calls in time order the next is turned away exactly while a ban of its address runs, starts a ban exactly if more than throttle recorded attempts lie less than considered back, and is let in otherwise; counted on the history, not by the code's pruning |
| Throttle.AtMostThrottlePerWindow | crates/hocuspocus/src/extensions/throttle.rs:1-4 | any window of length considered holds at most throttle calls of one address that should_block on the pruned state let in |
| Wire.EveryMessageRoundTrips | crates/hocuspocus/src/protocol.rs:129-220 | every builder is undone by parsing the envelope and reading the payload, and no built frame is one byte long |
| Wire.EnvelopeRoundTrip | crates/hocuspocus/src/protocol.rs:86-100 | parsing a built frame returns its address, opcode and exactly its payload |
| Wire.OpcodesAreTheProtocols | crates/hocuspocus/src/protocol.rs:25-58 | the eleven message types have their protocol numbers and no other number is a type |
| Wire.VarUintExamples | crates/hocuspocus/src/protocol.rs:126-135 | the byte form of varUint on the examples of section 7.6 of DWARF version 4 |
| Wire.PayloadExamples | crates/hocuspocus/src/protocol.rs:129-220 | the tags and words of authentication and status messages, byte by byte |
| Wire.EncodedIsValid | crates/hocuspocus/src/protocol.rs:89-94 | the encoding of any sequence of Unicode scalar values is accepted as a string |
| Wire.ValidIsEncoded | crates/hocuspocus/src/protocol.rs:89-94 | whatever is accepted as a string is such an encoding |
| Wire.Parse | crates/hocuspocus/src/protocol.rs:89-100 | the cursor walk over the bytes computes the envelope or the failure |
| Wire.Build | crates/hocuspocus/src/protocol.rs:126-221 | whichever builder appends to the buffer, the bytes are the envelope of that message |
| Wire.RebuildingRestoresTheKey | crates/hocuspocus/src/protocol.rs:103-118 | rebuilding a split routing key restores it, for every key |
| Wire.SplittingRestoresTheParts | crates/hocuspocus/src/protocol.rs:103-118 | splitting a built key restores the parts exactly when the name has no NUL |
| Wire.SplitPartsAreStrings | crates/hocuspocus/src/protocol.rs:105-110 | both halves of a split key are valid UTF-8 |
| Wire.EnvelopeUnwraps | crates/hocuspocus/src/extensions/redis.rs:62-67 | the identifier envelope unwraps exactly for identifiers of at most 255 bytes, and for no others |
| Wire.OwnMessagesAreRecognised | crates/hocuspocus/src/extensions/redis.rs:187-193 | a node recognises its own messages exactly if its identifier fits the length byte |
| Wire.PeersAreToldApart | crates/hocuspocus/src/extensions/redis.rs:191-193 | a peer's message is taken for one's own exactly if the identifiers are equal |

## Left out

- The inside of yrs: block integration beyond per-client order (dependencies between clients, content, garbage collection), update encoding, awareness clocks. A failed apply changes nothing; an update that is reported as empty changed nothing; whether an empty update encodes to zero bytes is a parameter.
- Wire.Parse: reads varUint as an unbounded natural, so the 64-bit limit of lib0 integers and its rejection of overlong encodings are not modelled; the reader is part of yrs.
- Axum, Tokio, WebSocket sinks, real Redis and SQLite: I/O. An outbound queue is the sequence of accepted sends plus an arbitrary outcome for each attempt, so its capacity and the writer task do not appear.
- ClientConnection.ClientConnection.AuthenticateKey: the Authenticated and PermissionDenied frames sent to the client are not in the session's state; their bytes are in `Wire`.
- A Database extension is taken to be configured: a store whose hooks all succeed has written storage.
- Replies.ClientsAreInformed: speaks of which awareness states were announced, not of their values, and not of removals by eviction, which the source does not announce.
- Registry.CreationIsUnique: runs without registry removals only; removal is by name, so a stale removal can unregister a newer actor.
- Cluster.ClusterConverges: nodes resident throughout the run only; a node that loads mid-run asks for state before it is registered and can miss the answer.
- Generations.ReloadCoversEarlierWork: one node and one actor at a time for the document.
- Wire.EveryMessageRoundTrips: the body of a sync message is opaque bytes, as it is for the builder.
- The `max_connections` cap, close-code constants, `Origin` encoding, query-string decoding, logger, webhook, SQLite and context extensions: plumbing that would only add easy members.
