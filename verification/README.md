# Nexus gateway: verified models

Dafny models of the parts of the edge gateway that have to be right whatever fails around
them, with proofs of what they promise. `dafny verify dfyconfig.toml` checks everything.

| files | what they model |
|---|---|
| `RingTable`, `Ack`, `Delivery`, `Forwarder`, `Pump` | store-and-forward delivery: the bounded frame buffer with its persisted cursor, acknowledgement and drift accounting, the forwarder's sessions, and the pump's duplicate window |
| `ClockStage`, `ClockBundle`, `ClockController`, `Gateway`, `Gate`, `Progress`, `ClockPoll` | managed clock provisioning: staging a snapshot, loading it in the connector, the apply/rollback transaction, the admission gate under concurrency, and clock fencing of a poll |
| `Ledger`, `Sessions`, `RunFrames` | the durable run-lease ledger, archived sessions, and the labelling and buffering of clock events |
| `Topics`, `Subscriptions`, `MqttSync` | MQTT topic matching, subscription planning and live convergence, and the Point List derived set |
| `PointList`, `PointSync` | Point List entries and their incremental synchronisation |
| `Dedup` | command idempotency in the connector SDK |

Code that changes state step by step is modelled by classes and loops; what the code
promises over whole runs is proved either as class invariants that every operation keeps or
on a state machine (`Delivery`, `Gateway`) whose runs are all finite interleavings. The
forwarder and buffer classes are proved to take only steps of the `Delivery` machine
(`Forwarding.Reach`), so its theorems hold of them. Outcomes of SQLite, NATS, gRPC, the MQTT
broker, files and the connector process are nondeterministic (`*`).

## What the proofs found

Where a property that one would expect does not hold of the code, the model keeps the code,
a lemma gives a concrete input, and another states exactly when the property does hold.

- A failed read of the persisted cursor is logged and returned as 0
  (internal/storeforward/buffer.go:339-346). The session then replays every stored row, and
  its first checkpoint moves the cursor back if an already delivered row below the cursor is
  still stored. `Delivery.CursorGoesBack` is such a run from a fresh buffer;
  `Delivery.CursorNeverGoesBack` and `Delivery.HarmfulReadRegresses` are the two halves of the
  exact condition. Accounting survives either way.
- A stream sequence that is already a whole window behind when it is written is not
  remembered, so every further redelivery is written again
  (internal/storeforward/pump.go:85-94): `Pumping.StragglerWrittenTwice` gives a stream for the
  pump's own window, `Pumping.StragglerIsNeverSkipped` the whole family, and `Pumping.Pump` the
  exact rule.
- A static filter such as `a/+` matches the text of the wildcard point `a/#`, which is then
  taken as covered although it is not (connector/mqtt/connector.go:121-144):
  `Subscriptions.PlusOverHashLosesATopic`. `Topics.CoversIff` says exactly when a textual
  match is coverage (a plus over a hash never is, except `+/#` over `#`), and
  `Subscriptions.ReachedUnlessLost` says exactly which configured topics are lost.
- The handler of a new MQTT connection loads the committed index and re-subscribes it without
  taking the apply lock. If that happens around an apply, topics whose options changed get the
  old ones back, topics added are missing if the session was lost after the apply's Subscribe,
  and retired topics come back if the handler lands after its Unsubscribe. No call needs to
  fail, and the session may even be kept. `Subscriptions.EchoAfterReconnect` is a point that
  becomes writable over its own topic and is then echoed, `Subscriptions.RetiredComesBack` a
  removed one that is subscribed again, and `Subscriptions.Connector.ApplyAcrossReconnect` gives
  the exact condition for every position of the loss and of the handler.
- When two points swap native addresses in one delta, the merge deletes one of them
  (internal/pointsync/loop.go:161-163): `PointSync.SwapLosesAPoint`, with the exact condition
  in `PointSync.DeltaEqualsRefetch`.
- The SDK's comment promises that the command table stays O(cap). A reply that completes
  after its reservation was evicted re-enters the table and is never removed
  (connector/sdk/dedup.go:58-62). `CommandDedup.TwoHeldInRoomForOne` is the smallest overflow,
  `CommandDedup.NoBound` shows that no bound holds at all, and `CommandDedup.BoundedIff` that
  the bound is safe exactly as long as every reply came while its id was still held.

## Assumptions

- A failed SQLite transaction has no effect; a failed cursor write or file write leaves the
  old or the new content; sequence numbers are never reused (AUTOINCREMENT).
- SHA-256 and the canonical encodings in front of it are functions of what they encode; where
  a content revision names a set, the sorted sequence that is hashed stands for the hash.
- Times are integers. Session ids are fresh. Only Start, Stop and a hold that gives up on an
  unresponsive producer change which connector instance runs, as the interfaces at
  internal/clocksync/controller.go:23-31 promise.
- Control requests to the producer are handled in sending order, one at a time.
- Server deltas are true diffs of the list the gateway holds.

## Model

| member | source | states |
|---|---|---|
| RingTable.VictimCount | internal/storeforward/buffer.go:160-206 | the rows to drop leave exactly the capacity whenever any is dropped, and never more than the capacity |
| RingTable.CountIsCardinality | internal/storeforward/buffer.go:160-180 | COUNT(seq <= cursor) is the size of the set of stored sequences at or below the cursor, and the rest are above it |
| RingTable.CountOfPrefix | internal/storeforward/buffer.go:160-206 | delivered rows are a prefix of the table, so counting the oldest k is the smaller of k and the whole count |
| RingTable.EvictionSplitIsExact | internal/storeforward/buffer.go:160-206 | the formula min(total - capacity, acked) is the number of actually deleted rows at or below the cursor, and the remainder the number deleted above it |
| Ack.ApplyAck | internal/storeforward/ack.go:22-43 | the cursor is the last sequence of the batch, and the drift map has exactly the point multiplicities of the unaccepted tail, for any accepted count |
| Ack.AckBalances | internal/storeforward/ack.go:22-43 | sent = accepted + drift for a checkpoint if and only if the acknowledged count lies in 0..batch size |
| Ack.SumOfCounts | internal/storeforward/ack.go:22-43 | the drift total of a counting map is the number of frames counted |
| Ack.AddDrifts | internal/storeforward/buffer.go:363-368 | adding the deltas point by point, in any map order, gives the point-wise sums and the total |
| Ack.SumMerge | internal/storeforward/buffer.go:363-368 | the running total stays the sum of the per-point map |
| Delivery.WriteKeeps | internal/storeforward/buffer.go:131-214 | a write keeps every account and leaves at most capacity rows, whatever the table held before |
| Delivery.BatchIsSlice | internal/storeforward/buffer.go:292-329 | a read returns the contiguous slice of rows past the given sequence, cut only by the limit |
| Delivery.ReadKeeps | internal/uplink/forwarder.go:105-116 | reading a batch keeps every sequence up to the session's horizon settled, in flight or queued |
| Delivery.SendKeeps | internal/uplink/forwarder.go:116-128 | sending a frame keeps the same account |
| Delivery.CheckpointKeeps | internal/uplink/forwarder.go:72-102 | a successful acknowledgement, short or not, keeps every account whether the cursor write succeeds, fails, or fails after taking effect |
| Delivery.StepKeeps | internal/uplink/forwarder.go:65-186 | every step of writes, sessions, reads, sends, checkpoints and restarts keeps the invariant |
| Delivery.RunKeeps | internal/uplink/forwarder.go:65-186 | so does every finite run |
| Delivery.EverySequenceIsAccountedFor | internal/uplink/forwarder.go:65-186 | in every run each sequence at or below the cursor was in a batch that was acknowledged in that run or vanished from the table above the cursor of its time, each above it is stored or was acknowledged or lost so, rows balance with the counters, and the counters from the counting formula are the sizes of the real victim sets |
| Delivery.WriteKeepsNewest | internal/storeforward/buffer.go:131-216 | after a write the table holds its newest rows, the new one included, as many as fit |
| Delivery.WriteLoses | internal/storeforward/buffer.go:131-216 | what a write makes vanish from the table is lost if it is above the cursor and otherwise merely expired |
| Delivery.AckedTells | internal/uplink/forwarder.go:72-102 | over every run the acknowledged sequences are exactly those of the batches in flight at a successful checkpoint |
| Delivery.LostTells | internal/storeforward/buffer.go:131-216 | over every run the lost sequences are exactly those that vanished above the cursor |
| Delivery.CountersTell | internal/uplink/forwarder.go:83-95 | over every run since the last reopening the counters are the number of writes, the sizes of acknowledged batches, the sum of the acknowledged counts, and per point the number of unaccepted frames |
| Delivery.CursorNeverGoesBack | internal/storeforward/buffer.go:332-346 | along a run whose failed cursor reads find no delivered row below the cursor the cursor never decreases, and every sequence above it is stored or counted lost |
| Delivery.HarmfulReadRegresses | internal/storeforward/buffer.go:337-346 | from any other state a failed cursor read followed by one sent and acknowledged frame moves the cursor back |
| Delivery.CursorGoesBack | internal/storeforward/buffer.go:337-346 | a run from a fresh buffer of capacity 2: two frames delivered and retained, one failed cursor read, and the cursor is below 2 again |
| Delivery.SentBalances | internal/uplink/forwarder.go:72-102 | over every run with acks in 0..batch size, sent = accepted + drift total, and the total is the sum of the per-point map |
| Forwarding.ReachKeeps | internal/uplink/forwarder.go:55-186 | the protocol's invariant holds of every state the classes below reach |
| Forwarding.Buffer.Write | internal/storeforward/buffer.go:131-214 | a committed write is exactly the protocol's write step, counters included; a failed one changes nothing |
| Forwarding.Buffer.SplitVictims | internal/storeforward/buffer.go:160-206 | the two counts taken before the delete give the victim count and its split |
| Forwarding.Buffer.ReadBatch | internal/storeforward/buffer.go:292-329 | returns the stored rows past the given sequence, in order, up to the limit |
| Forwarding.Buffer.Advance | internal/storeforward/buffer.go:332-335 | on success the cursor is the given sequence, on error it is the old or the new one |
| Forwarding.Buffer.RecordAck | internal/uplink/forwarder.go:83-100 | counters, drifts and cursor after an acknowledgement are those of the protocol's checkpoint step, whose sums over a run are `Delivery.CountersTell` |
| Forwarding.Forwarder.constructor | internal/uplink/forwarder.go:45-53 | a non-positive checkpoint size becomes the default |
| Forwarding.Forwarder.NewSession | internal/uplink/forwarder.go:65-67 | a session starts at the persisted cursor, or at 0 when the read fails |
| Forwarding.Forwarder.Checkpoint | internal/uplink/forwarder.go:72-102 | an empty batch changes nothing; success empties the batch and persists the session's cursor; any failure ends the session; the counters grow by exactly what the server received on the stream and by the count it answered |
| Forwarding.Forwarder.Acknowledge | internal/uplink/forwarder.go:83-100 | an answered checkpoint is one enabled protocol step with the drifts ApplyAck computes |
| Forwarding.Forwarder.SendAll | internal/uplink/forwarder.go:116-128 | every row read is sent in order, the server has received exactly the frames of the un-acknowledged batch, and between sends that is fewer than checkpoint-size frames |
| Forwarding.Forwarder.Drain | internal/uplink/forwarder.go:105-130 | terminates under concurrent writes, takes only protocol steps, and if no read, send, acknowledgement or cursor write fails succeeds and leaves nothing past the session's cursor |
| Forwarding.Forwarder.Run | internal/uplink/forwarder.go:141-173 | a whole session, ended by a failure or cancelled, takes only protocol steps |
| Forwarding.Forwarder.Close | internal/uplink/forwarder.go:132-144 | ending a session without a checkpoint keeps every account |
| Forwarding.Forwarder.DrainOnce | internal/uplink/forwarder.go:180-186 | if no call fails the flush succeeds and every stored row is at or below the persisted cursor; after a successful flush that can only be missing because the last read failed |
| Forwarding.Forwarder.Ingress | internal/uplink/ingress.go:57-84 | any number of sessions and the final flush stay within the protocol, and if no call fails nothing is left undelivered; the counters are what the server acknowledged |
| Pumping.ResidueDecides | internal/storeforward/pump.go:61-94 | two sequences less than a window apart share a bit only if they are equal |
| Pumping.Span | internal/storeforward/pump.go:69-75 | the window is 64 doubled some number of times, at least the requested size and less than twice it |
| Pumping.PumpWindow | internal/storeforward/pump.go:40-51 | the pump's own window spans exactly 2^21 sequences |
| Pumping.SeqWindow.constructor | internal/storeforward/pump.go:69-75 | a fresh window is empty and spans at least the requested size |
| Pumping.SeqWindow.Contains | internal/storeforward/pump.go:77-83 | true if and only if the sequence was added and lies within n of the newest one added |
| Pumping.SeqWindow.Add | internal/storeforward/pump.go:85-94 | the set of added sequences grows by exactly this one |
| Pumping.SeqWindow.Slide | internal/storeforward/pump.go:97-107 | sliding by any distance clears exactly the bits of the sequences passed |
| Pumping.PumpOne | internal/storeforward/pump.go:119-157 | one message is skipped exactly if the window remembers it, and written, remembered and reported otherwise |
| Pumping.Pump | internal/storeforward/pump.go:119-157 | a message is skipped if and only if its nonzero sequence was written before and nothing 2^21 or more beyond it has been, and the buffer receives exactly the frames reported written; a message is left unacknowledged only for a write that failed |
| Pumping.AckedMeansWritten | internal/storeforward/pump.go:109-157 | every acknowledged message was durably written, now or earlier under the same sequence |
| Pumping.SecondWriteNeedsNewer | internal/storeforward/pump.go:40-67 | a sequence is written twice only if one n or more beyond it was written before the second time, and in between unless the first was itself a straggler |
| Pumping.StragglerIsNeverSkipped | internal/storeforward/pump.go:85-94 | once a sequence n or more beyond it is written, a sequence is never skipped again |
| Pumping.StragglerWrittenTwice | internal/storeforward/pump.go:85-94 | a stream on which the pump, with its own window and no failed write, can only write the straggler twice in a row |
| CommandDedup.Dedup.TryReserve | connector/sdk/dedup.go:33-54 | proceeds, reports in flight, or returns the stored reply according to the table, and evicts the oldest reservation at capacity |
| CommandDedup.Dedup.Complete | connector/sdk/dedup.go:58-62 | stores the reply under its id, reserved or not |
| CommandDedup.ReservationsAreSeparated | connector/sdk/dedup.go:33-62 | over every history two successful reservations of one id have at least cap successful reservations of other ids between them |
| CommandDedup.AnswerWithinWindow | connector/sdk/dedup.go:29-62 | within that window an id answers with its last completed reply, or in flight if there is none |
| CommandDedup.LeakedForever | connector/sdk/dedup.go:44-62 | an entry that is no longer queued for eviction is never removed |
| CommandDedup.TightIff | connector/sdk/dedup.go:9-62 | every held entry is queued for eviction if and only if every reply arrived while its id was still held |
| CommandDedup.PunctualIsBounded | connector/sdk/dedup.go:9-62 | then at most cap entries are held |
| CommandDedup.LateReplyOverflows | connector/sdk/dedup.go:9-62 | after any late reply, cap fresh reservations hold more than cap entries |
| CommandDedup.BoundedIff | connector/sdk/dedup.go:9-62 | every reply of a history came in time if and only if no continuation by reservations holds more than cap entries |
| CommandDedup.TwoHeldInRoomForOne | connector/sdk/dedup.go:9-62 | with cap 1, reserving a, reserving b and completing a holds two entries |
| CommandDedup.NoBound | connector/sdk/dedup.go:9-62 | for every n a history of ids each reserved successfully and answered once holds more than n entries |
| Topics.JoinSplit | connector/mqtt/topicmatch.go:16-30 | joining the levels of a string gives it back |
| Topics.SplitJoin | connector/mqtt/topicmatch.go:16-30 | splitting joined slash-free levels gives them back |
| Topics.FilterMatchesIsSection47 | connector/mqtt/topicmatch.go:16-41 | for every filter with '#' only last and every topic name the matching loop decides section 4.7 of MQTT 5.0, parent-level match and '$' rule included |
| Topics.ExactMatchesItself | connector/mqtt/topicmatch.go:16-51 | a filter without wildcards matches itself only |
| Topics.HasWildcardIff | connector/mqtt/topicmatch.go:43-51 | the test holds of exactly the filters that are no topic names |
| Topics.WildcardMatchesAnother | connector/mqtt/topicmatch.go:43-51 | a well-formed filter has a wildcard if and only if it matches some topic name other than itself |
| Topics.MisplacedHashMatchesItself | connector/mqtt/topicmatch.go:16-41 | a filter with a hash before its last level matches nothing but its own text |
| Topics.CoverIsTransitive | connector/mqtt/topicmatch.go:16-41 | a filter that matches another's text matches everything the other matches, unless a plus stands over its hash |
| Topics.UncoveredName | connector/mqtt/topicmatch.go:32-41 | where a plus does stand over a hash there is a topic name the second reaches and the first does not |
| Topics.CoversIff | connector/mqtt/connector.go:215-222 | a textual match is coverage of every topic name if and only if no plus stands over a hash, `+/#` over `#` excepted |
| Subscriptions.CoveredByPoint | connector/mqtt/connector.go:121-144 | decides whether one of the wildcard points reaches a topic |
| Subscriptions.CollectWildcards | connector/mqtt/connector.go:115-144 | collects exactly the wildcard topics of the configuration |
| Subscriptions.NewTopicIndex | connector/mqtt/connector.go:115-155 | a topic gets its own subscription if and only if no static filter and (for a topic name) no point that is no name matches it, at the QoS of the last point configured for it or 1, and without echo if and only if that point is commanded over the same topic |
| Subscriptions.LastOfTopic | connector/mqtt/connector.go:121-126 | of several points with one topic the last one counts |
| Subscriptions.LastOfFilter | connector/mqtt/connector.go:927-937 | a static filter is subscribed at its own QoS, the last one's if it is listed twice |
| Subscriptions.ValidatePoints | connector/mqtt/connector.go:265-285 | accepts exactly points with a topic, a command topic if writable, and no QoS beyond 1 |
| Subscriptions.ReachedUnlessLost | connector/mqtt/connector.go:121-144 | with the index subscribed, an exact configured topic is reached if and only if it is not relied on wildcard points that are all textually covered by static filters missing it |
| Subscriptions.LossNeedsPlusOverHash | connector/mqtt/connector.go:121-144 | a topic is lost only where a static filter puts a plus over the hash of a wildcard point |
| Subscriptions.OwnSubscriptionIsAlone | connector/mqtt/connector.go:121-144 | an exact topic with its own subscription is reached by no other filter of the index |
| Subscriptions.PlusOverHashLosesATopic | connector/mqtt/connector.go:121-144 | with the static filter a/+ and the points a/# and a/b/c nothing is subscribed and a/b/c is lost |
| Subscriptions.PlanSubscriptions | connector/mqtt/connector.go:164-183 | subscribes exactly what is newly explicit or explicit and changed, unsubscribes exactly what stops being explicit |
| Subscriptions.StaticsAreNeverExplicit | connector/mqtt/connector.go:121-144 | a static filter is never a point's own subscription, so it is never unsubscribed |
| Subscriptions.PlanIsExact | connector/mqtt/connector.go:164-183 | carrying out the plan turns the exact broker state of one index, options included, into that of the next, and touches no static filter |
| Subscriptions.PointConfigsOf | connector/mqtt/connector.go:238-244 | flattening a topic map in any order loses nothing |
| Subscriptions.Connector.constructor | connector/mqtt/connector.go:691-776 | a connector starts disconnected with the index of its configuration, over whatever a resumed session left at the broker |
| Subscriptions.Connector.Converge | connector/mqtt/connector.go:1029-1056 | whatever broker call fails, a connected broker holds the static filters and the committed index's explicit topics, at every step the exact topics served before and after are reached, and the index is committed exactly when Subscribe succeeded |
| Subscriptions.Connector.ApplySubscriptions | connector/mqtt/connector.go:992-1068 | rejects exactly the invalid sets, commits exactly the requested one, reports exactly the added, changed and removed topics, and retains everything when it does not apply |
| Subscriptions.Connector.Serve | connector/mqtt/connector.go:992-1068 | after any sequence of applies the broker holds the committed index; if no broker call failed the last valid request is the committed one, and a broker that was clean holds exactly it with its options |
| Subscriptions.Connector.Reconnect | connector/mqtt/connector.go:798-937 | a re-subscribe that succeeds holds the committed index with its options, exactly so when nothing else was at the broker or the session was lost; one that fails leaves the connector disconnected |
| Subscriptions.ReconnectServes | connector/mqtt/connector.go:798-1056 | a broker with the old index re-subscribed over an apply holds the next one iff no added topic was lost, holds it with its options iff moreover no common topic changed options, and equals it iff moreover nothing else is there |
| Subscriptions.ReconnectIsExact | connector/mqtt/connector.go:798-1056 | what else is there is retired topics, brought back exactly by a handler that lands after the Unsubscribe |
| Subscriptions.Connector.ApplyAcrossReconnect | connector/mqtt/connector.go:798-1056 | an apply with a reconnect around it, on a kept session or one lost before or within it, with the handler's Subscribe anywhere after the apply's own, even after the commit, ends in exactly those cases |
| Subscriptions.EchoAfterReconnect | connector/mqtt/connector.go:224-234 | a point that becomes writable over its own topic: wherever the handler lands, kept or lost session, and with no call failing, the broker lacks the No Local option the committed index has |
| Subscriptions.RetiredComesBack | connector/mqtt/connector.go:798-804 | a removed point: a handler that lands after the Unsubscribe brings its topic back with no call failing |
| PointList.LexTotal | internal/provisioning/clock.go:120-124 | the string order used for sorting is total and antisymmetric |
| PointList.LexTrans | internal/provisioning/clock.go:120-124 | and transitive |
| MqttSync.Derive | internal/mqttsync/derive.go:28-50 | the specs are exactly those of the connector's own MQTT entries that are no release points, in list order: the local id as topic, and as command topic if writable, with the entry's own device, unit and writability |
| MqttSync.DerivedIsUnique | internal/mqttsync/derive.go:28-50 | that determines them, order included |
| MqttSync.ReportFillsDefaults | connector/mqtt/connector.go:941-965 | applying and reporting a spec fills its defaults in and changes nothing else |
| MqttSync.ReportRoundTrip | connector/mqtt/connector.go:941-965 | a spec is reported back unchanged if and only if it spells its defaults out |
| MqttSync.SubscriptionStatus | connector/mqtt/connector.go:941-965 | the status lists every applied topic exactly once, with its effective settings |
| MqttSync.ComputeDiff | internal/mqttsync/diff.go:31-63 | added, changed and removed list exactly the topic-wise differences, each topic once and sorted, and the count is the size of the desired list |
| MqttSync.EmptyDiffIff | internal/mqttsync/diff.go:31-59 | all three lists are empty if and only if the two sides agree topic by topic |
| MqttSync.SortSpecs | internal/mqttsync/diff.go:61-63 | a permutation sorted by topic |
| MqttSync.RevisionNamesTheSet | internal/mqttsync/diff.go:61-78 | for distinct topics two lists have the same revision if and only if they hold the same specs, in any order and despite the unstable sort |
| MqttSync.DerivedSurvivesReport | internal/mqttsync/client.go:60-85 | derived specs always survive apply and report |
| MqttSync.StatusIsDesired | internal/mqttsync/client.go:106-116 | a status read from the applied set equals the desired set topic by topic |
| MqttSync.Apply | internal/mqttsync/client.go:122-160 | an invalid derived set is refused before anything is sent; a positive answer means the set is committed under its revision, and a lost request or answer leaves the old or the new set |
| MqttSync.Preview | internal/mqttsync/client.go:88-116 | nothing without a status; otherwise the diff of the reported state against the desired set, and the two revisions |
| MqttSync.ApplyThenPreview | internal/mqttsync/client.go:83-160 | derive, apply, derive again, read back and diff: once the set is committed nothing is added, changed or removed and the revisions agree, for every list and whether or not the answer arrived |
| PointSync.IndexCurrent | internal/pointsync/loop.go:140-150 | the two indexes hold the last entry per id and per ordinary native address |
| PointSync.ApplyDiff | internal/pointsync/loop.go:140-171 | the merge computes exactly the folded list, with distinct ids, in no particular order |
| PointSync.FoldMembers | internal/pointsync/loop.go:157-166 | a point survives the changed entries if and only if it was there or is listed and every eviction of it is followed by an entry that puts it back |
| PointSync.DeltaEqualsRefetch | internal/pointsync/loop.go:140-171 | merging a true delta gives the list of a full refetch if and only if no surviving point is displaced |
| PointSync.SwapLosesAPoint | internal/pointsync/loop.go:157-166 | any two points that swap native addresses: the first listed is lost |
| PointSync.FreeMeansNoneDisplaced | internal/pointsync/loop.go:157-166 | no displacement happens if no changed entry moves onto an address a different surviving point held |
| PointSync.ForwardIsDetermined | internal/pointlist/synced.go:56-76 | with distinct native addresses the forward lookup does not depend on the order of the list |
| PointSync.SyncedResolver.Update | internal/pointlist/synced.go:56-76 | both directions of the resolver are replaced by the indexes of the new list |
| PointSync.Loop.Sync | internal/pointsync/loop.go:107-137 | full, 304 and failed fetches always keep the resolver equal to the server's list for the applied ETag; a delta does so if and only if it displaces nobody |
| PointSync.Loop.Run | internal/pointsync/loop.go:70-137 | any mix of fetches leaves the resolver equal, by point id, to the last list the server stood for, the one of the applied ETag |
| RunLedger.ValidMeansLeaseCovers | internal/runcontext/context.go:224-261 | a verdict is valid exactly for an active, un-invalidated lease of the right revision whose applied lifetime contains the whole interval |
| RunLedger.VerdictTells | internal/runcontext/context.go:224-261 | an interval is unverified only for want of an activation, and every reason an invalid verdict gives is true |
| RunLedger.Verify | internal/runcontext/context.go:139-159 | yields exactly the decoded leases within the size limit that keep the contract |
| RunLedger.CommitRevokes | internal/runcontext/context.go:186-199 | committing a revocation puts its run on the invalid list or finds it there |
| RunLedger.OpenLedger | internal/runcontext/context.go:98-127 | opens exactly the files of this scope and version whose lease keeps the contract and whose receipts lie in its lifetime |
| RunLedger.File.constructor | internal/runcontext/context.go:71-96 | an initialised ledger opens |
| RunLedger.Ledger.constructor | internal/runcontext/context.go:98-127 | reopening an acceptable file succeeds with nothing lost |
| RunLedger.Ledger.Persist | internal/runcontext/context.go:286-322 | a failed write leaves the old or the new content and a ledger that refuses further use |
| RunLedger.Ledger.Commit | internal/runcontext/context.go:161-203 | refuses exactly malformed, out-of-lifetime, first-but-not-one, older and conflicting leases without effect; otherwise the file holds the committed state unless the write fails |
| RunLedger.Ledger.Apply | internal/runcontext/context.go:205-220 | records the first activation time inside the lease's lifetime and never changes it |
| RunLedger.Ledger.InvalidateRun | internal/runcontext/context.go:264-277 | adds exactly the current run to the invalid runs, and without a failed write refuses exactly another run or an empty ledger |
| RunLedger.Ledger.InvalidateContext | internal/runcontext/context.go:395-412 | adds exactly the evidence's run, also of an older but never of a future generation, and fails without a failed write only for other scopes or future generations |
| RunLedger.Ledger.Archive | internal/runcontext/context.go:334-362 | an archive is the current state with its own activation time and opens again |
| RunLedger.Ledger.Evaluate | internal/runcontext/context.go:224-261 | a failed ledger is unverified, an empty one absent, otherwise the lease decides; valid exactly when a healthy ledger's lease covers the interval |
| RunLedger.AnyHistory | internal/runcontext/context.go:98-412 | across commits, applies, invalidations, failed writes, crashes and reopenings the file stays acceptable, its generation never decreases and its invalid runs never shrink, and the run of a revoked lease it holds stays invalid |
| Decimal.ItoaRoundTrip | internal/provisioning/clock.go:179-182 | a printed number is a numeral that reads back as itself |
| ClockStage.StageClocks | internal/provisioning/clock.go:128-145 | accepts exactly well-formed clocks with distinct ids and native addresses |
| ClockStage.StageBindings | internal/provisioning/clock.go:146-155 | accepts exactly bindings of distinct nonempty equipment to known clocks, and returns their map |
| ClockStage.CheckPoints | internal/provisioning/clock.go:163-206 | accepts exactly well-formed points with distinct ids, distinct ordinary addresses and no clock object among them |
| ClockStage.BuildPoints | internal/provisioning/clock.go:163-206 | yields the native points, the mapping entries and, per clock, the addresses its equipment binds |
| ClockStage.CollectTargets | internal/provisioning/clock.go:189-198 | the writable ordinary points and the equipment seen |
| ClockStage.CheckReleases | internal/provisioning/clock.go:207-214 | accepts exactly releases of distinct writable ordinary points of the snapshot |
| ClockStage.BuildClocks | internal/provisioning/clock.go:199-224 | every clock with its bound addresses, refusing exactly when one governs nothing |
| ClockStage.StageClockSnapshot | internal/provisioning/clock.go:76-226 | accepts exactly the acceptable snapshots, and then the bundle and the mapping have the snapshot's own points, clocks and bindings in them and nothing else: each entry its point's id, unit, writability, release target and native address, the bundle the ordinary points in order, each clock its object and the addresses of the points its bindings put under it |
| ClockStage.StagedDenotes | internal/provisioning/http.go:260-282 | the same of what any acceptable snapshot stages to |
| ClockStage.CheckClockSource | internal/provisioning/clock.go:129-134 | accepts exactly read-only polled simulation clocks addressed on the device in scope |
| ClockStage.CheckPoint | internal/provisioning/clock.go:164-190 | accepts exactly the points that are well formed on their own |
| ClockStage.CheckHeader | internal/provisioning/clock.go:85-123 | accepts exactly the supported schema and scope, the content revision and ascending arrays |
| Decimal.IsInstanceIff | internal/provisioning/clock.go:180-183 | an instance number passes if and only if it is a printed number in range |
| PointList.LexLeqIff | internal/provisioning/clock.go:119-123 | the order is the byte order: a prefix first, otherwise the first difference decides |
| ClockBundle.CheckClock | connector/bacnet/bacnet_connector/config.py:202-214 | accepts exactly a natively addressed clock outside the points that governs distinct known points |
| ClockBundle.CheckClocks | connector/bacnet/bacnet_connector/config.py:201-218 | and exactly clocks with distinct ids, distinct objects and disjoint point sets |
| ClockBundle.ConnectorConfig.ApplyClockBundle | connector/bacnet/bacnet_connector/config.py:176-223 | loads exactly the bundles that pass every check, and replaces everything or nothing |
| ClockBundle.RevisionShapeIff | connector/bacnet/bacnet_connector/config.py:189-191 | a revision has the shape if and only if it quotes some lower-case SHA-256 digest |
| ClockBundle.ClockRefShapeIff | connector/bacnet/bacnet_connector/config.py:207-209 | a clock reference has the shape if and only if it is an analog value or input with a numeral in range |
| ClockBundle.NativeDistinct | internal/provisioning/clock.go:183-192 | the staged native addresses are distinct |
| ClockBundle.BoundApart | internal/provisioning/clock.go:194-202 | two clocks never govern the same address |
| ClockBundle.StagedBundleLoads | connector/bacnet/bacnet_connector/config.py:176-223 | every bundle staged from any acceptable snapshot passes every check of the loader for the same scope in poll-only mode |
| ClockPoll.DecreasesSnoc | connector/bacnet/bacnet_connector/connector.py:234-242 | comparing each reading with the previous one detects a decrease anywhere in the history |
| ClockPoll.Poller.Read | connector/bacnet/bacnet_connector/connector.py:234-242 | a clock is marked reset exactly when its whole sequence of present readings decreases somewhere |
| ClockPoll.Poller.LabelOf | connector/bacnet/bacnet_connector/connector.py:274-287 | reset, missing, changed or stable exactly as the history and the samples of the poll say |
| ClockPoll.Poller.Poll | connector/bacnet/bacnet_connector/connector.py:225-294 | after any history of polls each clock is labelled reset exactly when its readings ever decreased, and a time is attached exactly when all boundary readings are present and equal |
| ClockController.ResolverRuntime.Hold | internal/clocksync/runtime.go:55-61 | the gate is closed whether or not the hold succeeds |
| ClockController.ResolverRuntime.Stop | internal/clocksync/runtime.go:62-73 | success means no instance runs, and needs a held gate |
| ClockController.ResolverRuntime.Drain | internal/clocksync/runtime.go:74-83 | success means nothing published is outstanding, and needs a stopped producer |
| ClockController.ResolverRuntime.Configure | internal/clocksync/runtime.go:84-95 | the mapping is replaced only behind the hold, stop and drain barrier, together with the configured revision |
| ClockController.ResolverRuntime.Start | internal/clocksync/runtime.go:96-104 | even a failed start gives up the stopped and drained claims |
| ClockController.ResolverRuntime.Verify | internal/clocksync/runtime.go:105-119 | success means the running instance itself reported the configured revision |
| ClockController.ResolverRuntime.Resume | internal/clocksync/runtime.go:120-129 | admission opens only for a verified instance, and then instance, configuration and mapping are one snapshot |
| ClockController.Controller.Install | internal/clocksync/controller.go:165-173 | configure, start, verify and resume end coherent and open, or with the gate closed after an outside failure in them or a shutdown request |
| ClockController.Controller.ApplySnapshot | internal/clocksync/controller.go:158-176 | no applied revision is claimed during the transaction, and it fails only if something outside failed in it or a shutdown was requested |
| ClockController.Controller.Halt | internal/clocksync/controller.go:180-187 | an unverified recovery leaves the gate closed, claims nothing, and leaves an instance running only if holding or stopping failed again |
| ClockController.Controller.Rollback | internal/clocksync/controller.go:178-209 | ends coherent at the last good snapshot with the gate open, or closed claiming nothing; with a last good snapshot the latter needs an outside failure in the rollback itself or a shutdown request, and so does an instance left running |
| ClockController.Controller.RestoreLastGood | internal/clocksync/controller.go:223-239 | sets exactly the rollback candidate, only before the first Sync and only if it stages; otherwise nothing changes |
| ClockController.Controller.Initialize | internal/clocksync/controller.go:81-88 | the first Sync starts from a closed gate |
| ClockController.Controller.Converge | internal/clocksync/controller.go:118-142 | apply or roll back: the claim and the gate agree afterwards, the last good snapshot changes only on success, and without a shutdown it takes two outside failures to leave nothing applied |
| ClockController.Controller.Fetch | internal/clocksync/controller.go:89-117 | what becomes desired is exactly what the source sent, and only if it staged; otherwise the desired snapshot stays, and nothing else is touched |
| ClockController.Controller.Sync | internal/clocksync/controller.go:76-143 | between Syncs admission is open exactly when a revision is claimed applied and no shutdown was requested, and then instance, configuration and mapping belong to that snapshot; success means the desired revision is applied, and without a shutdown a failure with something desired means that something outside failed during this Sync; what a successful one applied is what the source sent in it, if it sent anything |
| ClockController.Controller.Run | internal/clocksync/controller.go:260-274 | the same over any sequence of Syncs with a shutdown request anywhere; what is desired and what is applied was sent by the source in one of them or was there before |
| Gateway.AnsweredIsLast | internal/clocksync/connector.go:39-66 | an answer to the latest control request leaves no other request queued or in hand |
| Gateway.ProducerKeeps | connector/bacnet/bacnet_connector/managed.py:27-71 | every interleaved step keeps requests in order and a quiesced producer at rest |
| Gateway.PhaseKeeps | internal/clocksync/gateway.go:79-191 | every step keeps the gate, the commands in flight and the controller's phase consistent |
| Gateway.EventsKeep | internal/clocksync/gateway.go:208-301 | every step keeps each published event pending, delivered or done, and done ones durable |
| Gateway.StepKeeps | internal/clocksync/gateway.go:79-301 | every step of commands, worker, controller and producer keeps the invariant |
| Gateway.HeldMeansQuiet | internal/clocksync/gateway.go:89-191 | in every interleaving, from Hold returning nil until a resume request no command is in flight or can enter, and the producer neither polls, writes nor publishes nor can begin to |
| Gateway.DrainIsComplete | internal/clocksync/gateway.go:122-147 | in every interleaving, when Drain returns nil the producer is stopped, nothing is being processed and every event ever published is buffered or quarantined |
| Gateway.ConfirmedMeansActive | internal/clocksync/gateway.go:161-191 | in every interleaving, when an answer confirms a resume the producer is active and no request is left that could stop it |
| GatewayProgress.NeverStuck | internal/clocksync/gateway.go:89-191 | from every state of every run without a shutdown request some continuation reopens admission with an active producer |
| GatewayProgress.NoEventIsStranded | internal/clocksync/gateway.go:259-301 | in every such state every event published so far is acknowledged and durable or some continuation makes it so |
| GatewayProgress.EitherOutcomeSettles | internal/clocksync/gateway.go:273-300 | an event in processing can be buffered or quarantined, and acknowledged after either |
| Gateway.NeverReopensAfterStop | internal/clocksync/gateway.go:370-376 | after a shutdown request admission never reopens, whatever was in progress |
| GatewayHonours.HoldHonoured | internal/clocksync/gateway.go:89-120 | in every interleaving the gateway's Hold keeps the contract the controller's model assumes of it |
| GatewayHonours.DrainHonoured | internal/clocksync/gateway.go:122-147 | so does its Drain |
| GatewayHonours.ResumeHonoured | internal/clocksync/gateway.go:161-191 | so does its Resume, a shutdown request at any moment included |
| Sessions.AddressIsUnique | internal/provisioning/clock.go:183-188 | in an accepted snapshot a native address belongs to one ordinary point |
| Sessions.BoundFrameCarriesItsPoint | internal/clocksync/gateway.go:303-354 | a bound frame carries the id of the one ordinary point its session's snapshot has at the event's native object type and instance, on the event's device |
| Sessions.BoundFrameIff | internal/clocksync/gateway.go:303-354 | an event binds if and only if it is a sample with a readable time and a value that claims no run, its session's snapshot has its point, and it names the clocks that govern that point, or nothing simulated if none does |
| Sessions.BoundFrameIsTheSample | internal/normalizer/normalizer.go:187-239 | a bound frame has the event's time, value and every attribute; only unit and quality are set, to the event's own when it has them |
| RunFrames.ValidLabel | internal/clocksync/run_context.go:178-194 | a label is valid if and only if the archived lease covers the interval and the live ledger neither reset nor replaced its run |
| RunFrames.RevocationIsFinal | internal/runcontext/context.go:194-197 | after a revocation is committed no event classified from then on is labelled valid for its run |
| RunFrames.SessionStore.Create | internal/clocksync/sessions.go:119-144 | a new session is unverified and holds the staged snapshot |
| RunFrames.SessionStore.Learn | internal/clocksync/sessions.go:155-163 | verification and activation set exactly the two facts and never change a session's snapshot or its run clock once set |
| RunFrames.SessionStore.Bind | internal/clocksync/gateway.go:264-268 | an event is bound by its own verified session of the same revision or not at all, to that session's point at its address and with its own sample |
| RunFrames.RunBinding.Enable | internal/clocksync/run_context.go:38-79 | run labelling is on exactly when the lease was committed, and the ledger's history only grows |
| RunFrames.RunBinding.Activate | internal/clocksync/run_context.go:101-124 | activation archives exactly the applied lease, with its own time, for the session and never replaces an existing archive |
| RunFrames.RunBinding.RecordReset | internal/clocksync/run_context.go:169-177 | reset evidence puts the archived run on the durable invalid list |
| RunFrames.RunBinding.Classify | internal/clocksync/run_context.go:161-225 | a first classification is the verdict of the session's archive and the ledger of that moment, is kept as a receipt before it is used, is never valid for an invalid run, and a reset the event reports is durable before it |
| RunFrames.RunBinding.BindRun | internal/clocksync/run_context.go:126-225 | frames outside the run clock pass unlabelled, bad poll evidence labels nothing, an existing receipt is returned unchanged, no receipt ever changes, and a reset that gets a receipt has its run on the invalid list |
| RunFrames.Worker.Process | internal/clocksync/gateway.go:259-301 | acknowledged or not, what is buffered is the event's receipt if the run lease speaks for it and else its own session's bound frame unlabelled; a new receipt is the first classification of this moment; after an event that reports a reset is classified no later event is valid for its run; every receipt and every buffered frame has its own session's point and its own event's sample; only unbound or badly evidenced events are quarantined |
| RunFrames.AnyLife | internal/clocksync/run_context.go:38-225 | over sessions, leases, restarts and deliveries in any order receipts never change, ledger history only grows, once an event that reports a reset of a run was classified, or the run is invalid, no event first classified later is labelled or buffered valid for it, and every further buffered copy of a classified event is the identical frame |

## Left out

- Pumping.SeqWindow.Contains: the bitmap is an array with one cell per residue; the packing of cells into 64-bit words and the mask in place of the remainder are not modelled, because they only add bit-vector arithmetic.
- ClockStage.StageClockSnapshot: works on the decoded snapshot; JSON decoding, the rejection of nulls and duplicate keys (clockJSONValue) and the canonical hash input are not modelled, and the digest is a parameter.
- RunFrames.SessionStore.Learn: a session's run clock, once set, stays set; the source sets it in memory before writing the session file, so a failed write followed by a restart unsets it. Activation then fails and the producer of that session is not resumed, which this part of the model does not connect.
- Subscriptions.PlanSubscriptions: the order of the topics inside one broker call is not modelled.
- RunFrames.RunBinding.Classify: the label is a value beside the frame, not the sim_* attribute strings written into it.
- RunFrames.Worker.Process: undecodable message bodies are not distinguished from events that bind to nothing; both are quarantined by the same branch.
- ClockController.Plant: states the contracts of the gate and the connector lifecycle as the source's interface comments give them; those of the gate are proved of the gateway's machine in `GatewayHonours`, container management behind the lifecycle is not modelled.
- Gateway: the state machine has the interleavings, not the timeouts; a deadline is a failure that may happen at any moment. That a way out always exists is proved (`GatewayProgress`), that it is taken is not claimed.
- Which point a published MQTT message is attributed to when several wildcard points match (resolve, literalLevels), rate limiting and republishing in the MQTT connector.
- Resolution of release points to their control targets in the Point List resolver, and its persistence to disk.
- Buffer depth, metrics, health endpoints, logging and the admin UI.
- Command dispatch, retry backoff, the OPC-UA and simulation connectors, CSV and environment parsing, TLS and tokens.
- Lifecycle management of connector containers beyond the contracts the clock controller relies on.
