# comlink in Dafny

comlink is a replicated messaging substrate: replicas multicast envelopes stamped with
vector clocks (psync), order them (partial, total, semantic), keep them in a durable log,
and feed them to a state machine such as the key-value store. This project models that
core and proves what it promises, over every run of the system and every input.

`dafny verify dfyconfig.toml` checks everything.

## How the model is laid out

| files | part of the system |
|---|---|
| Basics, Vectors, Causality | identifiers, vector clocks, the context graph as a value |
| Graph, Deferral, Conversation, Restart, Stability | the psync objects: insertion, deferral and wake-up, send, receive, replay, restart, stability |
| Protocol, World, Preservation | all replicas and the network as a step machine, and the invariant of every step |
| Fixpoint, Guarantees | "retry until nothing changes" as a reference, and what psync guarantees in every run |
| Delivery, Stranding | the order in which envelopes are delivered, and what can go wrong between a restart and the replay of the log |
| Total, Agreement | the total order object, and agreement between replicas |
| Eager, WaveBuckets, SemTrace, SemOrder | the semantic order object: eager commutative operations, wave-wise strict ones, and the history kept beside it |
| SemAgreement | agreement on the strict operations between replicas |
| Script, Reply, SemSkip | runs of two members built step by step: one that emits a reply first, one that skips a wave |
| Lww, Tombstones, Store | the last-writer-wins store: convergence, tombstone collection |
| Codec, Log, FileLog | the byte format, the memory log, and the file log that refines it |
| Waiters | read-your-writes bookkeeping of the substrate |
| Ballots, Votes | membership votes: sessions and answers as values, and the object that holds them |

Two levels meet throughout. Objects with loops and updated fields (the psync conversation,
the orders, the store, the logs, the waiters, the vote manager) are classes whose methods
are proved against functions and relations on values. The step machine of `World` uses
those same relations: `Conversation.Receive` does a `Protocol.ReceiveStep`, which is what
`World.ReceiveAt` allows a replica to do; `Conversation.Send` appends `Protocol.Outgoing`;
`Conversation.HandleReplay` computes `Causality.Replay`; `Total.DrainCompleteWaves` emits
sorts of `Causality.WaveList` behind the gates of `World.DrainAt`.

In `World` the network keeps every envelope ever sent, so an envelope may arrive late, out
of order, many times or never. A crash loses everything but the log. After a restart a
replica receives at once, as the source starts its input pump before the log is replayed;
the replay comes at any later time, and what it inserts is delivered one by one from a
goroutine of its own, while new envelopes are delivered beside it. The one thing assumed of
the surrounding program is that a replica does not send before its log is replayed:
otherwise it would use a number again exactly when its log holds an own message that its
graph does not (`Stranding.SendRepeatsExactly`). Members are fixed and distinct, no slot is
frozen, and appends succeed.

Where the code and its documentation differ, the model follows the code:

- A sender's wave never decreases but may repeat (`Vectors.WaveGrowsExactly`); the comment
  at examples/kvstore/kvstore.go:930 says it increases. The strict comparison at line 975
  is what makes collection right (`Tombstones.SafeWaveItselfIsKept`).
- The total order does not keep causal order inside one wave: of two messages by different
  senders the causally earlier one is emitted first exactly when its wave is lower or its
  sender's bytes are smaller (`Agreement.CausalOrderInOutput`). `Reply.ReplyEmittedFirst` is
  a run in which a reply is emitted before the message it answers.
- The library sort is not stable, so agreement of the total order is on (wave, sender); it
  is on the messages themselves when the sort is stable (`Agreement.StableTotalAgreement`).
- Sending and replaying insert without waking waiting envelopes. The deferral index stays
  as exact as it was exactly when nothing waits for an inserted key
  (`Deferral.InsertWithoutWaking`). For a send that is so in every run
  (`Stranding.SendIsNotAwaited`). For a replay it is not: an envelope that arrives before the
  replay and waits for a logged message is never woken. `Stranding.ReplayCanStrand` is such a
  run. Right after a replay the graph is the retry fixpoint of what was received exactly
  when, before it, no deferred envelope outside the log had all its predecessors in the log
  (`Guarantees.ReplayIsRetry`); nothing is left stuck exactly when none lacked a logged one
  (`Guarantees.ReplayStrands`).
- New envelopes can overtake replayed ones on their way to the application
  (`Stranding.ReplayCanBeOvertaken`). Deliveries are free of repeats always. They are a linear
  extension of the causal order exactly when no new envelope was delivered while one of its
  predecessors was still queued or withheld (`Delivery.DeliveredCausally`), a sender's
  deliveries are its messages in order exactly when no new one of it was delivered while an
  older one was (`Delivery.SenderInOrder`), and read-your-writes holds for a sender in exactly
  that case (`Waiters.ReadYourWrites`, with a failing run in `Waiters.OvertakenRead`). The
  field `jumped` of a replica records those pairs; each layer above asks only for the part
  it needs: the store that no sender was overtaken, the semantic order that no predecessor
  was.
- The semantic order moves on to the next wave in which it has seen a strict operation and
  never goes back. A strict operation of a wave passed over is filed and never applied
  (`SemSkip.SkippedWave` is a run), nor are the commutative ones that follow it directly or
  through other commutative ones (`SemAgreement.LateBlocks`); one that follows it through a
  strict operation can be. An observed strict operation of a wave already
  passed is executed exactly when that wave had not been passed when it was observed
  (`SemTrace.ExecutedUnlessLate`), and for the waves a replica does process nothing comes
  late and all replicas agree (`SemAgreement.BucketIsWhole`, `SemAgreement.StrictAgreement`).
- A vote can be carried, then get a Nack, and the target still be removed, when the receive
  pump runs between a caller's count and its removal (`Votes.NackAfterTally`): the removal
  happens with no Nack on record exactly when none was recorded since that count
  (`Votes.Manager.Remove`). In every interleaving each removal goes back to a count without a
  Nack (`Votes.Manager.RemovedOnlyCarried`); run without interruption, removal and count
  agree exactly (`Votes.Manager.CheckVoteOutDecision`). A second vote opened in the gap loses
  its session, and its caller is never told, exactly when it was undecided
  (`Ballots.DropTracked`).
- Only application frames advance the read-your-writes marks; the comment at
  substrate.go:851-853 says frames of any kind do.

## Model

| member | source | states |
|---|---|---|
| `Basics.LessByFirstDifference` | order/total.go:124-129 | one id sorts before another exactly when, at the first place where they differ, it has the smaller byte or ends |
| `Vectors.Equal` | psync/vector.go:67-80 | true exactly when the clocks agree at every index, missing entries read as 0 |
| `Vectors.CheckDominates` | psync/vector.go:84-98 | true exactly when a is at least b everywhere and greater somewhere |
| `Vectors.CheckConcurrent` | psync/vector.go:107-111 | true exactly when neither clock is at most the other |
| `Vectors.Max` | psync/vector.go:114-124 | the result is the least upper bound of both clocks |
| `Vectors.Increment` | psync/vector.go:126-135 | the clock grows by one at the slot and nowhere else, and dominates the old one |
| `Vectors.HappensBeforeIsStrictOrder` | psync/vector.go:101-104 | happens-before is irreflexive, asymmetric and transitive |
| `Vectors.ClockTetrachotomy` | psync/vector.go:67-111 | of any two clocks exactly one of equal, before, after, concurrent holds |
| `Vectors.WaveOf` | psync/graph.go:307-315 | the loop computes the largest entry of the clock |
| `Vectors.WaveMonotone` | psync/graph.go:307-315 | a larger clock never has a lower wave |
| `Vectors.WaveGrowsExactly` | examples/kvstore/kvstore.go:924-935 | a send raises the wave of its view exactly when the sender's own entry was the highest, and by at most one |
| `Causality.SlotOf` | psync/membership.go:76-86 | the slot is the replica's place in the member list, or -1 when it is not a member |
| `Causality.ParentsWithin` | order/semorder.go:394-425 | the direct predecessors of a numbered envelope are all in a set exactly when the sender's previous message and the message named by every other clock entry are |
| `Causality.AdmissibleExactly` | psync/graph.go:151-232 | in terms of clock entries: an envelope can be inserted exactly when its sender is a member with a positive own entry, the clock is no longer than the member list, the number is new, and the sender's previous message and the message named by every other entry are present |
| `Causality.CausalOrder` | psync/graph.go:151-254 | in a history built by insertion every predecessor of an envelope stands strictly earlier |
| `Causality.CausalNoDuplicates` | psync/graph.go:163-180 | no (sender, number) occurs twice in a history |
| `Causality.HistoryFifo` | psync/graph.go:182-232 | a history lists each sender's messages in increasing number |
| `Causality.ReplayRebuilds` | psync/conversation.go:952-993 | replaying a log without repeats into an empty graph rebuilds exactly the graph that wrote it and inserts every entry |
| `Causality.ReplayReaches` | psync/conversation.go:952-993 | replaying a log in which every entry follows its predecessors, repeats allowed, over any graph adds exactly the keys of the log |
| `Causality.Contiguous` | psync/graph.go:182-232 | in a closed graph a sender's numbers have no gap |
| `Causality.CoveredIsPresent` | psync/graph.go:182-232 | whatever a node's clock covers is in the graph |
| `Causality.ViewCovers` | psync/conversation.go:998-1010 | no node of a closed graph is ahead of the replica's view |
| `Graph.Graph.constructor` | psync/graph.go:95-103 | a new graph is empty and valid |
| `Graph.Graph.FindParents` | psync/graph.go:182-222 | the required predecessors that are present and those that are missing, each listed in slot order, whether or not any is missing |
| `Graph.Graph.Link` | psync/graph.go:224-254 | a node with all its predecessors present is filed by key and by wave and entered as child of each of them, and the history grows by it |
| `Graph.Graph.Insert` | psync/graph.go:151-254 | exactly one of unknown sender, duplicate, malformed, missing parents (listed), inserted, each with its condition; only an insertion changes the graph, and it appends to the history |
| `Graph.LacksExactly` | psync/graph.go:182-222 | an envelope waits exactly when it is new and well numbered and either not insertable or longer than the member list with a number above 1; then it waits for the sender's previous message alone |
| `Graph.AwaitedExactly` | psync/graph.go:182-222 | a fitting envelope waits for exactly the absent messages its clock entries name, the own entry naming the one before |
| `Graph.Graph.LatestSeq` | psync/graph.go:291-303 | the highest number present of a sender, 0 for none |
| `Graph.Graph.MessagesInWave` | psync/graph.go:258-260 | the wave index lists the wave's messages in insertion order |
| `Graph.Graph.Leaves` | psync/graph.go:277-287 | exactly the nodes no other node has as predecessor, each once |
| `Graph.Graph.CurrentView` | psync/conversation.go:998-1010 | the maximum over the clocks of each member's latest message equals the vector of latest numbers, for whatever clocks were inserted |
| `Graph.LeafByChildren` | psync/graph.go:242-253 | a node without children entries is a leaf of the causal order, and the converse |
| `Deferral.AcceptedExactly` | psync/conversation.go:802-842 | an envelope new to the graph is kept exactly when the graph inserts it or reports what it lacks, and dropped exactly when its sender is no member, has no positive entry, or has entry 1 in a clock longer than the member list |
| `Deferral.AfterInsert` | psync/conversation.go:904-928 | inserting a key makes stale exactly the index pairs that waited for it |
| `Deferral.AfterStrike` | psync/conversation.go:904-928 | striking a key from a waiting set repairs one stale pair |
| `Deferral.AfterWake` | psync/conversation.go:904-928 | taking out an envelope whose last need is met repairs its stale pair |
| `Deferral.AfterDefer` | psync/conversation.go:861-891 | filing an envelope under each missing key keeps the index exact |
| `Deferral.IndexedIsSettled` | psync/conversation.go:861-928 | an exact index leaves no fitting deferred envelope whose predecessors are all present |
| `Deferral.HandledIsReceive` | psync/conversation.go:802-842 | what the handlers do to graph, deferred set and log is one step of the receive relation |
| `Deferral.InsertWithoutWaking` | psync/conversation.go:704-755 | inserting nodes without wake-up keeps the index as exact as it was if and only if no fitting deferred envelope waits for an inserted key |
| `Deferral.InsertStrands` | psync/conversation.go:952-993 | the pairs of a deferred envelope and an inserted key it still waits for are exactly what becomes inexact |
| `Conversation.Conversation.constructor` | psync/conversation.go:299-307 | a new conversation has an empty graph and an exact, empty deferral index |
| `Conversation.Conversation.RecordNeeds` | psync/conversation.go:861-891 | each missing key gains the envelope as dependent and is asked for once |
| `Conversation.Conversation.DeferEnvelope` | psync/conversation.go:861-891 | the waiting set is exactly the missing predecessors, a deferred envelope is not filed twice, and the index stays exact |
| `Conversation.Conversation.HandleEnvelope` | psync/conversation.go:802-842 | drops, inserts with everything it sets free, or defers; log, deliveries and graph grow by the same causal sequence; the mutual recursion terminates by the fitting deferred envelopes |
| `Conversation.Conversation.ProcessNewlyAvailable` | psync/conversation.go:904-928 | wakes every dependent in any order and leaves the index exact |
| `Conversation.Conversation.WakeAll` | psync/conversation.go:913-928 | after waking all dependents of a key none of its pairs is stale |
| `Conversation.Conversation.WakeOne` | psync/conversation.go:917-926 | strikes the key and handles the envelope once nothing is left to wait for |
| `Conversation.Conversation.Receive` | psync/conversation.go:777-842 | every incoming envelope is a step of the receive relation and leaves the index exact; foreign or masked ones change nothing |
| `Conversation.Conversation.Stamp` | psync/conversation.go:704-726 | the own envelope carries the view with its slot raised by one and is always admissible |
| `Conversation.Conversation.Send` | psync/conversation.go:704-755 | one envelope is logged, inserted, delivered and broadcast; the index stays as exact as it was if and only if nothing waits for it |
| `Conversation.Conversation.HandleReplay` | psync/conversation.go:952-993 | the graph becomes the replay of the log over it, the inserted entries are returned in log order, and the deferral index stays as exact as it was if and only if no fitting deferred envelope waits for a key the replay inserts |
| `Protocol.OutgoingKey` | psync/conversation.go:704-726 | an own message takes the next consecutive number and requires exactly the latest of every member |
| `Protocol.OutgoingAdmissible` | psync/conversation.go:704-726 | an own message is never rejected by the graph |
| `Protocol.OutgoingCovers` | psync/conversation.go:709-726 | an own message's clock includes every node its sender has |
| `World.ClockBound` | psync/conversation.go:704-726 | no clock entry runs ahead of what its owner has sent |
| `World.SameNode` | psync/graph.go:151-254 | two replicas' graphs agree wherever both have a key |
| `World.SortedByBytes` | order/total.go:124-129 | the sorted order of a wave is the byte order of the senders by first difference |
| `Preservation.SendNet` | psync/conversation.go:704-755 | a send keeps clocks full, keys unique and clocks transitive |
| `Preservation.SendBeyondSealed` | order/total.go:103-117 | once every member has sent beyond a wave, any new message has a higher wave |
| `Preservation.NextNotAwaited` | psync/conversation.go:704-755 | in a reachable state no sent envelope names the number a ready replica sends next |
| `Preservation.ReceiveInv` | psync/conversation.go:777-928 | a receive step keeps the invariant of the whole system |
| `Preservation.NothingMissing` | order/total.go:103-117 | when a sender is known to be beyond a wave, all its messages up to that wave are present |
| `Preservation.DrainBatch` | order/total.go:121-139 | a drained wave holds every message of that wave ever sent, once, ordered by sender |
| `Preservation.CrashInv` | psync/conversation.go:447-460 | losing all memory but the log keeps the invariant of the whole system |
| `Preservation.ReplayInv` | psync/conversation.go:952-993 | replaying the log over whatever was received since the restart keeps the invariant |
| `Preservation.RedeliverInv` | psync/conversation.go:569-587 | delivering a replayed envelope from the queue keeps the invariant |
| `Preservation.NextInv` | psync/conversation.go:447-993 | every step (send, receive, observe, drain, crash, replay, redelivery) keeps the invariant |
| `Preservation.RunInv` | psync/conversation.go:447-993 | every state of every run satisfies the invariant |
| `Fixpoint.RetryIsLeast` | psync/conversation.go:904-928 | retrying ends in the least set closed under readiness, whatever was tried first |
| `Fixpoint.DerivationIsRetry` | psync/conversation.go:904-928 | any order of insertion that ends with nothing ready ends in the same set |
| `Guarantees.RunGrows` | psync/conversation.go:952-993 | no log and no network state ever loses a message, crashes included |
| `Guarantees.GraphGrows` | psync/conversation.go:952-993 | what a graph held stays in the log, and is back in the graph once the log has been replayed |
| `Guarantees.IdentityIsUnique` | psync/conversation.go:719-725 | across any number of crashes, with any receives before the replay, no replica sends two different envelopes under one number |
| `Guarantees.VectorClockTheorem` | psync/vector.go:101-104 | m1 was known to m2's sender when m2 was sent, iff m1's clock happens before m2's, iff m2's entry at m1's slot reaches m1's number |
| `Guarantees.ConcurrencyTheorem` | psync/vector.go:107-111 | two messages are concurrent iff neither was known to the other's sender |
| `Guarantees.StableMeansKnown` | psync/stability.go:49-71 | if any replica finds a message stable, every member has it in its log, and in its graph unless it has yet to replay |
| `Guarantees.StableExactly` | psync/stability.go:49-71 | in every run a message is stable at a replica exactly when the graph has a message of every other member after it in the causal order |
| `Guarantees.CompleteExactly` | psync/stability.go:101-111 | in every run a wave is complete at a replica exactly when some message of it has, of every other member, a message after it in the causal order |
| `Guarantees.StableForever` | psync/stability.go:113-124 | once stable at a replica, stable there at every later time at which its log has been replayed |
| `Guarantees.WavesHaveNoGaps` | order/total.go:121-139 | a message of wave W has a message of every lower wave in its causal past, so no wave below a present one is empty |
| `Guarantees.DeliveredIsRetry` | psync/conversation.go:802-993 | whatever the arrival order and repetition, a replica's graph is contained in the retry fixpoint of what it received, sent or replayed, and equals it if and only if no deferred envelope was stranded |
| `Guarantees.ReplayIsRetry` | psync/conversation.go:952-993 | right after a replay the graph is that fixpoint if and only if, before it, no deferred envelope outside the log had all its predecessors in the log |
| `Guarantees.ReplayStrands` | psync/conversation.go:952-993 | a replay leaves an envelope stuck if and only if a deferred envelope lacks a predecessor that is in the log |
| `Guarantees.NothingStuck` | psync/conversation.go:861-928 | no envelope is stranded as long as no replay left one stuck |
| `Guarantees.SameReceivedSameGraph` | psync/conversation.go:802-928 | replicas that received the same envelopes, with none stranded, hold the same graph |
| `Delivery.DeliveredInOrder` | psync/conversation.go:569-587 | deliveries with what is still queued are the graph's insertion order if and only if, since the restart, no new envelope was delivered before an older one and none is withheld |
| `Delivery.JumpedExactly` | psync/conversation.go:569-587 | the recorded pairs are exactly those of a delivered envelope and one the graph has before it that was not delivered before it |
| `Delivery.DeliveredCausally` | psync/conversation.go:569-587 | deliveries have no repeats, and are a linear extension of the causal order if and only if no new envelope was delivered while one of its predecessors was queued or withheld |
| `Delivery.SenderInOrder` | psync/conversation.go:569-587 | a sender's deliveries are its numbers 1, 2, 3 and so on if and only if no new envelope of it was delivered while an older one of it was queued or withheld |
| `Delivery.DeliveredPrefix` | psync/conversation.go:569-587 | when no new envelope was delivered before a predecessor, any first n deliveries are a causal history |
| `Stranding.SendIsNotAwaited` | psync/conversation.go:704-755 | in every run the number a ready replica sends next is awaited by no deferred envelope, so a send strands nothing |
| `Stranding.SendRepeatsExactly` | psync/conversation.go:704-726 | a send would reuse a number already sent if and only if the log holds an own message that the graph does not, as between a restart and the replay |
| `Stranding.ReplayCanStrand` | substrate.go:498-512 | a run in which an envelope deferred before the replay has all its predecessors present and stays out of the graph |
| `Stranding.ReplayCanBeOvertaken` | psync/conversation.go:569-587 | a run in which a sender's second message, which follows its first, is delivered while the first is still queued |
| `Stability.LatestVectorAtSlot` | psync/stability.go:113-124 | the clock of the member's highest-numbered message, none if it has sent nothing |
| `Stability.IsStable` | psync/stability.go:49-71 | true exactly when every other member's latest message acknowledges the node; no answer exactly when a clock on the way is too short to index |
| `Stability.WaveComplete` | psync/stability.go:101-111 | true exactly when some message of the wave is stable; no answer exactly when a message before the first stable one has none |
| `Restart.HandleRestartMessage` | psync/restart.go:165-186 | the answer lists exactly the envelopes of the graph's leaves |
| `Restart.RequestLeaves` | psync/restart.go:126-154 | the requests are, in the order of the leaves, one for each leaf whose number can be read off its clock |
| `Restart.LeafKeysExactly` | psync/restart.go:126-154 | a key is requested exactly when it is that of a leaf with a readable number |
| `Restart.LeavesReach` | psync/graph.go:242-253 | walking from any message to children ends in a leaf |
| `Restart.LeavesSuffice` | psync/restart.go:126-154 | the leaves closed under predecessors are the whole graph |
| `Restart.RestartCatchesUp` | psync/restart.go:126-186 | with every leaf received, nothing stranded and no open request for a message the responder has, the restarter's graph contains the responder's |
| `Total.SortBySender` | order/total.go:124-129 | a rearrangement of the input in which of any two messages the earlier has the same sender or one that is smaller at the first differing byte |
| `Total.Total.NoteObservedWave` | order/total.go:91-97 | each sender's mark is the highest wave among the envelopes observed of it, and a sender without one has no mark |
| `Total.Total.ContinuationProperty` | order/total.go:103-117 | true exactly when every member has a mark strictly above the wave |
| `Total.Total.TryEmit` | order/total.go:122-138 | a wave goes out exactly when it is complete and every member is beyond it, as a sort of all its messages |
| `Total.Total.DrainCompleteWaves` | order/total.go:121-139 | every consecutively open wave goes out and the loop stops at the first that is not open; it terminates |
| `Agreement.SealedForever` | order/total.go:99-102 | after every member has sent beyond a wave, nothing is ever sent into it or below |
| `Agreement.NoStranding` | order/total.go:99-102 | a replica past a wave has emitted every message of that wave sent at any time, once, in sender order |
| `Agreement.SameWaveContents` | order/total.go:121-139 | two replicas that drained a wave, at any times and with crashes between, emitted the same messages |
| `Agreement.SameSenders` | order/total.go:124-129 | two sender-sorted arrangements of the same messages list the same senders |
| `Agreement.TotalAgreement` | order/total.go:121-139 | of the (wave, sender) sequences emitted by any two replicas at any two times, one is a prefix of the other |
| `Agreement.StableTotalAgreement` | order/total.go:124-129 | with a stable sort the emitted message sequences themselves are prefixes of one another |
| `Agreement.UnstableSortIsOpen` | order/total.go:124-129 | without stability two messages of one sender in a wave have two valid outcomes |
| `Agreement.PredecessorEmitted` | order/total.go:121-139 | an emitted message's causal predecessors are emitted in the same wave or an earlier one |
| `Agreement.CausalOrderInOutput` | order/total.go:121-139 | in every run, of two emitted messages of different senders the causally earlier is emitted first if and only if its wave is lower or its sender smaller |
| `Reply.ReplyEmittedFirst` | order/total.go:124-129 | a run in which a reply, which happens after the message it answers, is emitted before it |
| `Eager.AppliedOnce` | order/semorder.go:445-457 | no operation is applied twice |
| `Eager.ExecutedIsRetry` | order/semorder.go:186-229 | whatever the order of application, the executed set is the least fixpoint of the commutative operations over the strict ones executed |
| `Eager.EagerConfluence` | order/semorder.go:186-229 | replicas with the same commutative operations and the same strict ones executed have executed the same operations |
| `SemOrder.SemOrder.constructor` | order/semorder.go:104-124 | a new order has observed and applied nothing and starts at wave 1 |
| `SemOrder.SemOrder.NoteVector` | order/semorder.go:178-181 | a clock replaces the kept one exactly when it is of the same length and at least as large, or the first |
| `SemOrder.SemOrder.Observe` | order/semorder.go:155-182 | an envelope is filed under its wave once per key; one without a number is ignored; a strict one of a wave already passed is late |
| `SemOrder.SemOrder.PredecessorsExecuted` | order/semorder.go:394-425 | true exactly when the sender has a number and every direct predecessor has been executed |
| `SemOrder.SemOrder.ApplyEnv` | order/semorder.go:445-457 | the operation is executed and emitted; with the invariant, never twice and never a commutative one before its predecessors |
| `SemOrder.SemOrder.TryEagerExecutions` | order/semorder.go:186-229 | terminates with nothing ready, having executed exactly the retry fixpoint, for every iteration order of the buckets |
| `SemOrder.SemOrder.IsMessageStableLocal` | order/semorder.go:327-359 | true exactly when the kept clock of every other member has at the sender's slot an entry of at least the message's number, and false for a sender without a number; `SemAgreement.StableInRun` says what that means |
| `SemOrder.SemOrder.WaveCompleteLocal` | order/semorder.go:313-325 | true exactly when some observed message of the wave is stable by that test; `SemAgreement.CompleteInRun` says what that means |
| `SemOrder.SemOrder.ContinuationProperty` | order/semorder.go:375-387 | true exactly when the kept clock of every member has a wave strictly above the current one |
| `SemOrder.SemOrder.FindNextStrictWave` | order/semorder.go:276-297 | the first wave from the start that holds a strict operation, none if there is none |
| `SemOrder.SemOrder.SortBucket` | order/semorder.go:246-251 | the bucket keeps its contents, and of any two messages the earlier has the same sender or one that is smaller at the first differing byte |
| `SemOrder.SemOrder.ApplyStrict` | order/semorder.go:252-260 | exactly the unexecuted strict operations of the bucket are applied, in bucket order |
| `SemOrder.SemOrder.ProcessWave` | order/semorder.go:243-262 | the strict operations go out in sender order before anything they set free, and all of the wave are executed |
| `SemOrder.SemOrder.TryAdvance` | order/semorder.go:236-270 | operations go out only behind both gates; the wave moves only forward and only to one that holds a strict operation, and what it passes over is recorded |
| `SemOrder.SemOrder.AdvanceWave` | order/semorder.go:234-271 | terminates with nothing ready, the buckets unchanged up to order, and stuck: a gate is closed, or the wave is done and no strict operation lies beyond |
| `SemOrder.SemOrder.Pump` | order/semorder.go:135-151 | after each delivery the executed set is the retry fixpoint of all observed commutative operations over the strict ones executed; the late operations are exactly the strict ones observed below the current wave |
| `SemTrace.ExecutedUnlessLate` | order/semorder.go:234-271 | an observed strict operation of a wave already passed is executed if and only if it was not observed late |
| `SemTrace.FirstSendsAll` | order/semorder.go:246-260 | the first processing of a wave sends out exactly the strict operations of its bucket |
| `SemSkip.HearLate` | order/semorder.go:262-270 | a strict operation that arrives below the current wave is filed and not executed |
| `SemSkip.SkippedWave` | order/semorder.go:262-270 | a run of two members whose deliveries leave the order of one at wave 3 with a strict operation of wave 2 observed, late and not executed |
| `WaveBuckets.StrictOfSorted` | order/semorder.go:246-260 | the strict operations of a sorted bucket go out sorted |
| `SemAgreement.BucketIsWhole` | order/semorder.go:361-387 | when a replica processes a wave, its bucket holds exactly the messages of that wave sent at any time of the run |
| `SemAgreement.KeptIsLatest` | order/semorder.go:178-181 | over causal deliveries of a run the clock kept for a sender is that of its latest message handed over |
| `SemAgreement.StableInRun` | order/semorder.go:327-359 | over causal deliveries of a run the local test is psync stability in the graph of the envelopes handed over, and holds exactly when every other member's latest message happens after the tested one |
| `SemAgreement.CompleteInRun` | order/semorder.go:313-325 | over causal deliveries of a run the local gate of a wave is open exactly when the wave is complete in that graph |
| `SemAgreement.StrictAgreement` | order/semorder.go:46-66 | two replicas that both processed a wave, at any times, sent out the same strict operations for it with the same sequence of senders, and the same sequence when no sender has two |
| `SemAgreement.FirstRoundIsWave` | order/semorder.go:246-260 | the first processing of a wave sends out exactly the strict operations of that wave ever sent, once each, by sender |
| `SemAgreement.LateMeansSkipped` | order/semorder.go:262-270 | in every run a strict operation of a wave passed is executed if and only if it was not late, and a late one belongs to a wave the replica never processed |
| `SemAgreement.LateBlocks` | order/semorder.go:394-425 | a commutative operation that follows a late one, directly or through commutative ones, is never executed |
| `Lww.BeatsIsStrictOrder` | examples/kvstore/kvstore.go:211-216 | (wave, sender, number, place) is a strict order |
| `Lww.BeatsExactly` | examples/kvstore/kvstore.go:211-216 | a write beats another by the higher wave, in one wave by the larger 16 id bytes at their first difference, then by number, then by place in the batch |
| `Lww.HoldsWinner` | examples/kvstore/kvstore.go:1206-1263 | over any per-sender ordered sequence of writes a key holds its maximal write, and only written keys are held |
| `Lww.KeyHoldsMaximum` | examples/kvstore/kvstore.go:1206-1263 | after any messages each key holds the maximum by (wave, sender, number, batch place) |
| `Lww.ReadIsMaximalWrite` | examples/kvstore/kvstore.go:1206-1330 | a key reads as v exactly when its maximal write is a Set of v, and is missing exactly when it was never written or its maximal write is a Delete; the store is not mentioned on the other side |
| `Lww.Convergence` | examples/kvstore/kvstore.go:1132-1263 | stores that applied the same messages, each sender's in order, hold identical entries, tombstones included |
| `Lww.LongIdsDiverge` | examples/kvstore/kvstore.go:1182-1183 | for any two ids that agree on their first 16 bytes, any key and any two values, the first writes end differently in the two orders of arrival |
| `Lww.ConvergenceExactly` | examples/kvstore/kvstore.go:1132-1263 | stores fed by a set of senders, each in its own order, always converge if and only if no two ids agree on their first 16 bytes |
| `Lww.SenderOrderMatters` | examples/kvstore/kvstore.go:1206-1263 | two writes of one sender in one wave, applied in the wrong order, leave the older one |
| `Tombstones.SafeWaveIsMinimum` | examples/kvstore/kvstore.go:955-974 | the safe wave is the minimum of the members' marks; none if there is no member or one is silent |
| `Tombstones.SeenIsHighest` | examples/kvstore/kvstore.go:919-935 | a sender's mark is the highest wave among its messages that hold a command, whatever was collected |
| `Tombstones.SimRun` | examples/kvstore/kvstore.go:942-986 | a swept store lacks only tombstones older than anything still to come |
| `Tombstones.CollectionIsInvisible` | examples/kvstore/kvstore.go:942-986 | collecting at any points of a delivery sequence leaves every read unchanged |
| `Tombstones.UnconsultedWriterRevives` | examples/kvstore/kvstore.go:942-950 | a late write of a replica that was not consulted revives a deleted key |
| `Tombstones.SafeWaveItselfIsKept` | examples/kvstore/kvstore.go:975 | at the safe wave itself collection would be visible, and it is not done |
| `Store.Store.constructor` | examples/kvstore/kvstore.go:715-740 | a new store is empty |
| `Store.Store.Write` | examples/kvstore/kvstore.go:1213-1255 | an entry is replaced exactly when absent, of a lower wave, or of the same wave with the same origin or one that is smaller at the first differing byte |
| `Store.Store.Apply` | examples/kvstore/kvstore.go:1132-1293 | the batch is applied in order, so that reads are those of `Lww.ReadIsMaximalWrite`; malformed and empty payloads change nothing; a batch of acks moves only the sender's mark; the offset mark only rises |
| `Store.Store.FindSafeWave` | examples/kvstore/kvstore.go:955-974 | computes the safe wave of the consulted members |
| `Store.Store.GcTombstones` | examples/kvstore/kvstore.go:942-986 | exactly the tombstones of a wave strictly below the safe wave go, and nothing else changes; none go when there is no safe wave |
| `Store.Store.Get` | examples/kvstore/kvstore.go:1320-1330 | the live value of a key, none for absent or deleted ones |
| `Store.GraphDeterminesData` | examples/kvstore/kvstore.go:1132-1263 | replicas with equal graphs have equal stores though their logs may differ in order |
| `Store.SameDeliveriesSameData` | examples/kvstore/kvstore.go:1132-1263 | stores handed the same envelopes, each sender's in order, hold the same entries, tombstones included |
| `Store.WavesNeverFall` | examples/kvstore/kvstore.go:919-935 | among the envelopes ever sent in a run, a sender's later one never has a lower wave |
| `Store.ReadsAgree` | examples/kvstore/kvstore.go:942-986 | in every run, replicas at which no sender was overtaken and which have applied the same envelopes answer every Get alike, whenever each collected tombstones |
| `Store.SameReceivedSameReads` | examples/kvstore/kvstore.go:942-986 | the same for replicas that received the same envelopes, with none stranded, and have applied all of their graphs |
| `Store.CollectionInRun` | examples/kvstore/kvstore.go:942-986 | in every run, at a replica at which no sender was overtaken, collecting at any points leaves every read as it would be without collection |
| `Store.ReadInRun` | examples/kvstore/kvstore.go:1206-1330 | in every run, at a replica at which no sender was overtaken and whatever it collected, a Get answers v exactly when the maximal write to the key among the envelopes applied is a Set of v |
| `Codec.LERoundTrip` | log/file.go:273-276 | a little-endian number reads back if it fits its width |
| `Codec.LowBytesFirst` | log/file.go:273-276 | a byte string read as a number has its low bytes first |
| `Codec.FrameRoundTrip` | log/file.go:273-285 | a frame reads back as written if and only if its payload is below 2^32 bytes |
| `Codec.FrameFields` | log/file.go:273-285 | the fixed fields of a written frame are the payload length modulo 2^32, the number and the checksum |
| `Codec.ReadRaw` | log/file.go:211-240 | a frame with any stored number, checksum and payload reads as whole if and only if the stored checksum is that of the payload, else as a bad checksum |
| `Codec.WholeIsChecked` | log/file.go:211-240 | whatever the bytes, a frame taken as whole has a matching checksum and the length and number its fields say |
| `Codec.ScanRefuses` | log/file.go:201-256 | behind any intact frames, one with a wrong checksum spoils the scan, skipped or not, and so does one not skipped that does not unmarshal |
| `Codec.TearIsIncomplete` | log/file.go:211-240 | any strict prefix of a frame reads as the end or as torn |
| `Codec.ScanRecovers` | log/file.go:201-256 | scanning written frames with a torn one behind them yields exactly the frames from the first offset on and the place of the tear |
| `Codec.HeaderRoundTrip` | log/file.go:148-190 | a header is accepted for its own conversation and refused for any other |
| `Codec.TornHeaderRefused` | log/file.go:163-190 | a header cut short is corrupt |
| `Log.LastMatch` | log/memory.go:69-88 | the last entry indexed under a key, or -1 |
| `Log.RangeIsExact` | log/memory.go:91-125 | a range yields each readable offset of the interval once, consecutively |
| `Log.TruncateKeepsOffsets` | log/memory.go:142-168 | truncation changes no offset and hides exactly what lies below |
| `Log.TruncateLookup` | log/memory.go:142-168 | a lookup still answers after truncation iff its entry was not below |
| `Log.Memory.constructor` | log/memory.go:43-48 | a new log is empty and open |
| `Log.Memory.Append` | log/memory.go:56-70 | assigns the next offset and indexes the entry; a missing envelope is corrupt, a closed log refuses |
| `Log.Memory.LookupBySender` | log/memory.go:73-88 | the last entry of (sender, number), not found, or closed |
| `Log.Memory.ReadRange` | log/memory.go:91-125 | the entries with offsets in the interval, clipped to what is readable |
| `Log.Memory.FirstOffset` | log/memory.go:128-132 | the lowest readable offset |
| `Log.Memory.NextOffset` | log/memory.go:135-139 | the offset the next append gets; after Close the first offset |
| `Log.Memory.Truncate` | log/memory.go:142-168 | drops exactly the entries and index entries below the offset, clipped to the end |
| `Log.Memory.Close` | log/memory.go:171-178 | the log refuses everything afterwards |
| `FileLog.RecoveryIsExact` | log/file.go:107-146 | reopening after a crash that left any part of one more frame brings back the contents and repairs the file |
| `FileLog.OpenRefuses` | log/file.go:163-190 | another conversation and a torn header are refused |
| `FileLog.DamageIsRefused` | log/file.go:201-256 | a log in which the payload of any one frame was replaced does not open when the stored checksum is not that of the payload, nor, for a readable frame, when the payload does not unmarshal |
| `FileLog.HeaderDamageIsRefused` | log/file.go:107-190 | a sidecar of the wrong size, a wrong magic and an unreadable conversation id are refused |
| `FileLog.FileRefinesMemory` | log/file.go:30-57 | over every sequence of appends, truncations and crashes the file log reopens, reads like the memory log, and holds every frame ever appended: first offset plus readable ones |
| `FileLog.AppendSurvives` | log/file.go:264-304 | an appended entry is read at its offset after any further operations unless truncated |
| `FileLog.File.ScanIntoCache` | log/file.go:201-256 | the loop fills the cache with exactly what the scan yields, cuts a torn tail, and fails on a bad checksum or envelope, as `Codec.ScanRecovers` and `Codec.ScanRefuses` state for intact, torn and damaged files |
| `FileLog.File.ScanFrame` | log/file.go:211-250 | one frame read and cached turns what remained to be scanned into what remains behind it, or settles it; a bad checksum is settled as corrupt |
| `FileLog.File.OpenFile` | log/file.go:87-146 | opening yields the disk and contents of the opening function or its error, as `FileLog.RecoveryIsExact`, `FileLog.DamageIsRefused` and `FileLog.HeaderDamageIsRefused` state |
| `FileLog.File.Append` | log/file.go:264-304 | header and payload are written behind the file and the entry is cached at the next offset; nothing is written on an error |
| `FileLog.File.Truncate` | log/file.go:373-398 | the sidecar records the clipped offset, the cache drops what is below, the data file stays |
| `Waiters.HighestIs` | substrate.go:854-868 | the mark of a sender is the highest number applied of it |
| `Waiters.Waiters.constructor` | substrate.go:368-376 | nothing is applied, registered or marked |
| `Waiters.Waiters.NoteApplied` | substrate.go:854-868 | the sender's mark rises to the position and exactly the waiters it reaches are woken |
| `Waiters.Waiters.Signal` | substrate.go:1092-1107 | the registered call of the position is woken, or a marker is left for an own position |
| `Waiters.Waiters.RegisterSubmit` | substrate.go:656-673 | returns at once exactly when the position was signalled already, else registers |
| `Waiters.Waiters.CancelSubmit` | substrate.go:679-683 | the call leaves the register |
| `Waiters.Waiters.HasApplied` | substrate.go:871-875 | true exactly when a position at or above was noted |
| `Waiters.Waiters.RegisterWaiter` | substrate.go:926-938 | returns at once exactly when the position was reached meanwhile, else registers |
| `Waiters.Waiters.TimeoutWaiter` | substrate.go:945-950 | the waiter leaves the register |
| `Waiters.Waiters.WokenExactly` | substrate.go:854-956 | in every interleaving a waiter that did not give up is woken iff its position has been reached |
| `Waiters.Waiters.SubmitExactly` | substrate.go:656-685 | in every interleaving a Submit that did not give up succeeds exactly when its local apply has been signalled |
| `Waiters.ReadYourWrites` | substrate.go:877-902 | in every run, whichever commands count and however many deliveries were handled, every command of a sender up to the position reached has been handled if and only if no new envelope of that sender was delivered while an older one of it was queued or withheld |
| `Waiters.WokenMeansApplied` | substrate.go:854-956 | when that sender was not overtaken, a woken waiter of the bookkeeping object finds every application command of it up to its position applied |
| `Waiters.OvertakenRead` | substrate.go:877-902 | a run in which a position is reached while an earlier command of that sender is still queued |
| `Ballots.Needed` | membership/voteout.go:223-227 | the least strict majority, at least one |
| `Ballots.WithoutConcat` | membership/voteout.go:280-288 | removing a target keeps the order and every other entry |
| `Ballots.AnswerCounted` | membership/votein.go:324-356 | an answer enters the Acks or the Nacks by its kind, and MemberAdd goes out on the count after it exactly when none went out before, no Nack is recorded and the Acks are a majority |
| `Votes.Manager.constructor` | membership/membership.go:211-229 | no session is open and the list is the configured one |
| `Votes.Manager.StartVoteOut` | membership/voteout.go:98-119 | each refusal with its condition in order, or a session with the initiator's Ack |
| `Votes.Manager.JoinVoteOut` | membership/voteout.go:319-336 | joins or opens the session of a member, with the current list as voters, and records the sender's Ack |
| `Votes.Manager.RecordOut` | membership/voteout.go:338-346 | an Ack enters the Acks of one session, a Nack its Nacks, and nothing else changes |
| `Votes.Manager.TallyOut` | membership/voteout.go:216-233 | refused exactly by a recorded Nack, carried exactly by no Nack and Acks for a majority of the voters without the target, otherwise open |
| `Votes.Manager.CompleteOut` | membership/voteout.go:257-260 | the first outcome stands, and success is told only after a removal |
| `Votes.Manager.CancelOut` | membership/voteout.go:198-212 | the open session of the target closes with the error; without one nothing changes |
| `Votes.Manager.Remove` | membership/voteout.go:235-239 | the target leaves the list and its open session the map, this replica stays; no Nack is on record if and only if none was recorded since the count that carried the vote |
| `Votes.Manager.RemoveFromList` | membership/voteout.go:280-288 | the list without the target, in order |
| `Votes.Manager.CheckVoteOutDecision` | membership/voteout.go:216-261 | without interruption the target is removed iff no Nack is recorded and the Acks suffice; the sessions and the map afterwards are exact |
| `Votes.Manager.HandleVoteOut` | membership/voteout.go:301-353 | a vote on this replica is answered Nack and opens nothing; the own broadcast is ignored; otherwise the answer is the suspicion, and list, sessions and map are those after recording both answers and counting |
| `Votes.Manager.HandleVoteOutAnswer` | membership/voteout.go:356-389 | answers without a session are dropped; otherwise list, sessions and map are those after recording the answer and counting, so a Nack closes the session and removes nobody |
| `Votes.Manager.StartVoteIn` | membership/votein.go:76-99 | each refusal with its condition in order, or a session with the initiator's Ack |
| `Votes.Manager.RecordIn` | membership/votein.go:324-356 | an Ack enters the Acks of one session, a Nack its Nacks |
| `Votes.Manager.TallyIn` | membership/votein.go:170-208 | MemberAdd is sent on the first count with a quorum and no Nack and never again |
| `Votes.Manager.CloseIn` | membership/votein.go:150-164 | the open vote about the target closes and its caller is told |
| `Votes.Manager.HandleVoteInAnswer` | membership/votein.go:324-356 | an answer without a session changes nothing; an Ack enters the Acks, a Nack the Nacks; MemberAdd goes out exactly when none went out, no Nack is recorded and the Acks are a majority; the sessions and the map afterwards are exact |
| `Votes.Manager.HandleMemberAdd` | membership/votein.go:213-322 | a new member is appended once and the vote about it closes; a known member or this replica changes nothing |
| `Votes.Manager.RemovedOnlyCarried` | membership/voteout.go:216-239 | in every interleaving each removal goes back to a count at which, of the answers received for the session, none was a Nack and Acks had come from a strict majority of the voters, and is never of this replica |
| `Votes.Manager.AnnouncedOnce` | membership/votein.go:170-208 | in every interleaving MemberAdd goes out at most once per session |
| `Votes.Manager.AnnouncedWithQuorum` | membership/votein.go:170-208 | in every interleaving each MemberAdd goes back to a count at which, of the answers received for the session, none was a Nack and Acks had come from a strict majority of the voters |
| `Votes.OneAnswer` | membership/votein.go:324-356 | in a vote of three members the second answer announces the new member if it is an Ack, and ends the vote with nothing announced if it is a Nack |
| `Ballots.DropTracked` | membership/voteout.go:235-239 | dropping a target's open session leaves its caller waiting iff the session was undecided |
| `Votes.NackAfterTally` | membership/voteout.go:216-239 | an interleaving of two callers and the pump in which a target is removed after this replica's Nack was recorded and told, and a second session is dropped unanswered |

## Left out

- Membership change inside psync (Freeze, AddMember) and the mask in runs: the system proofs fix the members; the conversation object has the mask, and then promises only that masked senders change nothing.
- Log trimming below the replay point and the recovery of what was trimmed.
- Sends before the log has been replayed: the source does not prevent them; the runs have none, and Stranding.SendRepeatsExactly says when one would do harm.
- Total.Total: over a graph whose clocks have full length, as all sent clocks do.
- Wrap-around of 64-bit sequence numbers, waves and offsets.
- Failing appends, failing broadcasts and other I/O errors; protobuf encoding and CRC-32 are an unspecified round-trip pair and an unspecified checksum.
- Liveness: no bound is given on when an envelope arrives or a wave completes.
- Agreement.TotalAgreement: on (wave, sender) only, because the library sort is not stable; StableTotalAgreement has the messages.
- Restart.RestartCatchesUp: the restarter asks for a missing message again only when a new envelope needs it; that requests are answered is a hypothesis.
- SemOrder.SemOrder.Observe: takes commutative operations whose clocks name no slot beyond the member list, where the source would panic; the graph delivers no others. The list of deferred eager operations is never filled in the source and is not modelled.
- SemAgreement.StrictAgreement: for waves that both replicas process, over causal deliveries; strict operations of one sender in one wave may differ in order between replicas, as the sort is not stable.
- Lww.Convergence: per-sender order is a hypothesis (Delivery.SenderInOrder says when it holds); ids are 16 bytes long in the substrate.
- FileLog.FileRefinesMemory: payloads of 2^32 bytes or more are written with a wrapped length and do not read back (Codec.FrameRoundTrip), and fewer than 2^64 operations are considered.
- FileLog.File: keeps its cache as a Memory object; the source repeats the same fields and read methods.
- Waiters.ReadYourWrites: for the partial order; a Submit call and its wake-up channel are named by the position of the message sent.
- Votes: the failure detector's verdict is a parameter, answers are counted by sender, whether or not the sender is a member (as in the source), and freezing, trimming and callbacks after a decision are not modelled.
- MetadataRegistry, suspicion lists, heartbeats, snapshots, batching, watches, transports, HTTP and generated code.
