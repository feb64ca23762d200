# PubSubGo verification

PubSubGo is a message broker written in Go. This project models its stateful cores in Dafny and
proves what they keep over every run. Where the code and its comments or documentation disagree,
the model does what the code does, and the difference is stated as a lemma.

Run `dafny verify dfyconfig.toml --resource-limit 2000000 --verification-time-limit 0` in this
directory to check everything.

## What is modelled

| files | part of the broker |
|---|---|
| `RingBufferSpec`, `RingBuffer` | the circular-buffer queue: a class over an array refining a FIFO sequence, and the runs of the abstract queue |
| `RangeAssignment`, `GroupProtocol`, `ConsumerGroups` | consumer groups: the range assignment, the join / leave / dead-consumer / rebalance protocol as an interleaved state machine, and the service whose methods are its steps |
| `RoundRobin`, `PartitionManager` | the partition manager's two-way index and its in-place rebalance |
| `Messages`, `AckPolicy`, `AckSystem`, `AckRuns` | the message lifecycle as a transition system and what holds over all its runs |
| `AckRacing`, `RetryRaces` | the same lifecycle when the reads and writes of concurrent operations interleave |
| `AckOutcomes` | what each operation of the acknowledgment service does to the stored messages, in terms of the configuration and the message fields, and laws over runs that follow |
| `AckRepository`, `AckSweep`, `AckService` | the acknowledgment service, each operation of which is a sequence of those transitions |
| `DlqRoundTrip` | dead-letter move and reprocessing, any number of times |
| `NestedSums`, `WebSocketIndex` | the WebSocket server's double index of subscriptions |
| `PartitionHash`, `Publisher` | key hashing and partition choice, publishing one message and a batch |
| `Backoff`, `Entropy` | the retry delays and the compression heuristic, in exact reals |
| `Options`, `Enumerations`, `PowersOfTwo` | shared definitions |

Conventions. An interface value is an `Option`, `None` being nil. Times are nanoseconds and are
inputs. The iteration order of a Go map is an arbitrary choice inside a loop or an arbitrary order
in a specification. A repository call may fail, unless the repository is declared `reliable`;
`steps` out-parameters record which transitions an operation made. Ids from `uuid.New` are any ids
not in use.

## Where the code departs from its documentation

- The queue documented as unbounded (`maxlen` 0) holds two elements: growth needs
  `count < maxlen`, so the third Push overwrites the first element
  (`RingBufferSpec.UnboundedModeHoldsTwo`, `RingBuffer.ThirdPushOverwrites`). In general a Push
  loses an element exactly at `Limit(maxlen)` elements, the least power of two that is at least
  max(2, maxlen).
- The rebalance worker clears the `rebalancing` flag even when the topic lookup fails, so
  partitions can stay without an owner until the next membership change
  (`GroupProtocol.FailedLookupStep` says exactly when they do not,
  `GroupProtocol.FailedLookupStrands` is a run in which they do).
- `JoinConsumerGroup` reports the partitions "after rebalancing", but a rebalance is only requested:
  an uninterrupted join always reports none (`ConsumerGroups.Service.JoinConsumerGroup`).
- The nack counter is never written (`AckRuns.NothingCountsNacks`), so the acknowledgment rate is 1
  as soon as anything is acknowledged (`AckRuns.RateIsOneOrZero`). A successful ack is counted before
  its store, so also when that store fails (`AckService.Service.ProcessAcknowledgment`).
- An administrator's requeue heeds no retry limit (`AckRuns.AdminRequeueIgnoresLimit`,
  `AckRuns.RequeuedBeyondLimit`), and an administrator's move can double the dead-letter prefix
  (`AckRuns.AdminMoveDoublesPrefix`, `AckRuns.DoublyPrefixed`).
- The acknowledgment service reads and writes messages without a lock. Two operations that have
  read the same message can both spend its last retry (`RetryRaces.OneRetrySpentTwice`), and any
  number of operations can (`RetryRaces.ManyRetries`): every interleaving keeps the bound on
  automatic requeues exactly if no version of the message has a retry left
  (`RetryRaces.BoundHoldsExactlyIfSpent`).
- A subscribe that completes after its WebSocket connection was unregistered leaves an entry in the
  server's index, and the reported total counts it (`WebSocketIndex.SubscribeAfterUnregister`,
  `WebSocketIndex.LeakedEntryIsCounted`). Only an unsubscribe of the same pair or unregistering the
  same connection again removes it (`WebSocketIndex.LeakEndsExactlyIfCleared`), and the server
  unregisters each connection once.
- A batch accepts inputs that Publish rejects as too large, and an empty topic
  (`Publisher.OversizedPayloadInBatch`, `Publisher.EmptyTopicInBatch`; `Publisher.BatchRefinesSingle`
  says exactly when the two agree).
- `log2` multiplies by ln 2 where it should divide, so the entropy estimate stays below 2.33 and the
  test `> 7.0` never fires (`Entropy.EntropyIsSmall`, `Entropy.IsLikelyCompressed`). A fair coin's is
  0.48 instead of 1 (`Entropy.FairCoin`).

## Model

| member | source | states |
|---|---|---|
| `PowersOfTwo.MaskIsModulus` | pkg/collections/ringbuffer.go:119-122 | masking with length - 1 is reduction modulo the length, for every power-of-two length |
| `RingBuffer.SlotIsModulus` | pkg/collections/ringbuffer.go:75-85 | the position `count` steps after `head` is (head + count) mod capacity, so the class invariant's `tail` is |
| `RingBuffer.WindowPush` | pkg/collections/ringbuffer.go:81-84 | writing one slot past the live window appends to the contents and keeps all other slots nil, through wraparound |
| `RingBuffer.WindowPop` | pkg/collections/ringbuffer.go:96-101 | clearing the head slot and stepping over it drops the first element and keeps all other slots nil, through wraparound |
| `RingBuffer.Queue.constructor` | pkg/collections/ringbuffer.go:24-32 | a new queue is the empty abstract queue with capacity 0 |
| `RingBuffer.Queue.Push` | pkg/collections/ringbuffer.go:75-85 | a Push keeps a valid queue valid exactly when the buffer is not full at or above maxlen, and then is the abstract Push; otherwise it overwrites the oldest slot |
| `RingBuffer.Queue.Pop` | pkg/collections/ringbuffer.go:87-105 | returns the front element, or nil when empty, and is the abstract Pop, shrinking included |
| `RingBuffer.Queue.Peek` | pkg/collections/ringbuffer.go:107-116 | returns the front element, or nil when empty, and changes nothing |
| `RingBuffer.Queue.Next` | pkg/collections/ringbuffer.go:119-122 | the masked successor is the circular successor of every valid position |
| `RingBuffer.Queue.GrowIfFull` | pkg/collections/ringbuffer.go:124-133 | allocates two slots, or doubles a full buffer below maxlen; afterwards a valid queue is still full exactly if it is at its limit |
| `RingBuffer.Queue.ShrinkIfExcess` | pkg/collections/ringbuffer.go:135-140 | halves the buffer exactly at one quarter and keeps the contents |
| `RingBuffer.Queue.Resize` | pkg/collections/ringbuffer.go:142-156 | the contents survive in order in a buffer of twice their number, all copied once, all other slots nil |
| `RingBufferSpec.PushKeepsTight` | pkg/collections/ringbuffer.go:124-133 | a Push keeps the capacity bounds and costs at most two amortised copies |
| `RingBufferSpec.PopKeepsTight` | pkg/collections/ringbuffer.go:135-140 | a Pop keeps the capacity bounds, so the equality test for shrinking never skips, and costs at most one amortised copy |
| `RingBufferSpec.LimitMeetsExactly` | pkg/collections/ringbuffer.go:129-131 | in every reachable state the losing case of Push is exactly Limit(maxlen) queued elements |
| `RingBufferSpec.DoubledIsLeast` | pkg/collections/ringbuffer.go:124-133 | the limit is the least power of two that is at least max(2, maxlen), and below 2 * maxlen when it exceeds 2 |
| `RingBufferSpec.EveryRunIsFifo` | pkg/collections/ringbuffer.go:75-156 | for every maxlen and run: contents survive iff no Push comes at the limit, and then results and contents are a plain FIFO's and resize has copied at most 2 per Push and 1 per Pop |
| `RingBufferSpec.EveryRunIsTight` | pkg/collections/ringbuffer.go:124-156 | for every surviving run: capacity zero or a power of two, below 4 * count above two, at most max(2, 2 * (maxlen - 1)) |
| `RingBufferSpec.RespectingMaxlenIsSafe` | pkg/collections/ringbuffer.go:11-13 | a caller that never pushes at maxlen elements, maxlen >= 1, loses nothing |
| `RingBufferSpec.UnboundedModeHoldsTwo` | pkg/collections/ringbuffer.go:11-13 | counterexample: the default queue, documented as unbounded, loses an element at the third Push |
| `RingBuffer.FullTailIsHead` | pkg/collections/ringbuffer.go:75-85 | for every queue at its limit the slot the next Push writes is the one the next Pop reads |
| `RingBuffer.ThirdPushOverwrites` | pkg/collections/ringbuffer.go:75-105 | counterexample to first in, first out: after three Pushes on a new default queue, Pop returns the third element |
| `RangeAssignment.StartAdvances` | internal/services/subscriber/workers.go:224-245 | the block of consumer i, starting at i * (P / n) + min(i, P mod n), ends where the next one starts and has P / n or P / n + 1 partitions |
| `RangeAssignment.BlockIs` | internal/services/subscriber/workers.go:223-245 | consumer i has P / n partitions, one more if i < P mod n, counted up from i * (P / n) + min(i, P mod n) |
| `RangeAssignment.BlocksPartition` | internal/services/subscriber/workers.go:223-245 | for every P and n >= 1 the blocks are disjoint, cover exactly 0..P-1 and differ in size by at most one |
| `ConsumerGroups.AssignBlocks` | internal/services/subscriber/workers.go:223-245 | the assignment loop gives the k-th consumer of the order exactly the k-th block, of P / n partitions or one more, and changes nothing else |
| `ConsumerGroups.TakePartitions` | internal/services/subscriber/workers.go:228-241 | the inner loop collects the next consecutive partitions |
| `ConsumerGroups.RebalanceConsumerGroup` | internal/services/subscriber/workers.go:204-252 | range assignment by some order of all members; a group without members, or whose topic lookup fails, is unchanged |
| `GroupProtocol.AssignmentIsDisjoint` | internal/services/subscriber/workers.go:223-245 | after an assignment no partition is listed twice, within one member or across two, and all are in range |
| `GroupProtocol.AssignmentCovers` | internal/services/subscriber/workers.go:223-245 | after an assignment to a non-empty group every partition has an owner |
| `GroupProtocol.StepKeepsDisjoint` | internal/services/subscriber/workers.go:155-252 | every critical section, with a failing topic lookup too, keeps the members' lists pairwise disjoint and in range |
| `GroupProtocol.StepKeepsInv` | internal/services/subscriber/workers.go:125-252 | every critical section whose lookup succeeds keeps: flag set, or request on its way, or group empty, or all partitions owned |
| `GroupProtocol.FailedLookupStep` | internal/services/subscriber/workers.go:195-221 | a visit whose topic lookup fails still clears the flag; it keeps the invariant iff another request is pending or nothing needed assigning |
| `GroupProtocol.FailedLookupStrands` | internal/services/subscriber/workers.go:195-221 | counterexample: a new group's only rebalance fails to find the topic, and its member stays without partitions, no request pending |
| `GroupProtocol.EveryRunIsDisjoint` | internal/services/subscriber/workers.go:125-252 | in every interleaving of join, trigger, leave, dead-removal, flag write, heartbeat and rebalance the lists are pairwise disjoint and in range |
| `GroupProtocol.EveryRunKeepsInv` | internal/services/subscriber/workers.go:125-252 | in every interleaving with succeeding lookups, whatever partition counts they return, the coverage invariant holds |
| `GroupProtocol.QuietGroupOwnsEverything` | internal/services/subscriber/workers.go:190-252 | with a fixed partition count P, a non-empty group with no flag and no request on its way owns exactly 0..P-1 |
| `GroupProtocol.MembersHaveJoined` | internal/services/subscriber/workers.go:125-175 | in every interleaving the members are exactly the consumers that have joined and neither left nor been removed since |
| `GroupProtocol.FlaggedUntilVisited` | internal/services/subscriber/workers.go:190-202 | only a rebalance visit, more than five seconds after the last one, clears the flag |
| `ConsumerGroups.Service.JoinInsert` | internal/services/subscriber/management.go:131-141 | the locked half of a join is the protocol's insert step on the group, creating it flagged if missing, and touches no other group |
| `ConsumerGroups.Service.TriggerRebalance` | internal/services/subscriber/management.go:242-249 | the second half of a join is the protocol's trigger step; an unknown group is ignored |
| `ConsumerGroups.Service.JoinConsumerGroup` | internal/services/subscriber/management.go:101-161 | an uninterrupted join inserts the member, sets the flag, and reports no partitions; empty topic or group names, and a group the repository neither finds nor creates, are refused |
| `ConsumerGroups.Service.LeaveConsumerGroup` | internal/services/subscriber/management.go:163-192 | a leave is the protocol's leave step: the consumer is gone, no other is, and the group is flagged even if the consumer was unknown |
| `ConsumerGroups.Service.UpdateConsumerHeartbeat` | internal/services/subscriber/subscriber.go:609-618 | a heartbeat changes only the member's last pull time |
| `ConsumerGroups.Service.RemoveDeadConsumer` | internal/services/subscriber/workers.go:155-175 | removes the consumer without setting the flag |
| `ConsumerGroups.Service.FlagDead` | internal/services/subscriber/workers.go:148-151 | the sweep's flag write ends its pending request |
| `ConsumerGroups.Service.ProcessConsumerHeartbeats` | internal/services/subscriber/workers.go:124-153 | after an uninterrupted sweep a member is left exactly if it pulled within the last 60 seconds, those left are unchanged, and the flag is set exactly if it was or the group lost one |
| `ConsumerGroups.PullingKeepsMember` | internal/services/subscriber/workers.go:134-147 | a consumer whose last pull is at most 60 seconds old at every sweep is never removed |
| `ConsumerGroups.SilentIsRemoved` | internal/services/subscriber/workers.go:134-151 | a consumer silent for longer is removed by the next sweep, which flags its group |
| `ConsumerGroups.Service.ProcessRebalancing` | internal/services/subscriber/workers.go:190-202 | one tick is the protocol's rebalance step on every group: a flagged group not visited for five seconds is unflagged and keeps its members, any other is unchanged |
| `RoundRobin.StridedSize` | internal/services/topic/partition.go:450-456 | every consumer's load is the floor or the ceiling of partitions / consumers |
| `RoundRobin.StridedIsOwned` | internal/services/topic/partition.go:450-456 | a partition is in a consumer's list exactly when that consumer owns it |
| `PartitionManager.RoundRobinIsTwoWay` | internal/services/topic/partition.go:196-245 | a round-robin assignment in any consumer order is a consistent two-way index |
| `PartitionManager.RoundRobinIsBalanced` | internal/services/topic/partition.go:437-459 | every partition has exactly one owner and the loads differ by at most one |
| `PartitionManager.RepeatMovesNothing` | internal/services/topic/partition.go:193-247 | repeating a rebalance with the same consumer order moves nothing |
| `PartitionManager.ReportsMore` | internal/services/topic/partition.go:197-233 | the reports of consumers visited in any order add up without repetition |
| `PartitionManager.OptimalAssignment` | internal/services/topic/partition.go:437-459 | deals partitions out so that consumer j of n gets exactly those congruent to j modulo n, in order |
| `PartitionManager.MovesFor` | internal/services/topic/partition.go:201-234 | reports each partition the consumer did not hold, once, with its message count |
| `PartitionManager.Assignment.constructor` | internal/services/topic/partition.go:61-84 | partition ids equal their indices, nothing is assigned, no rebalance is in progress |
| `PartitionManager.Assignment.Rebalance` | internal/services/topic/partition.go:149-258 | never finds a rebalance in progress; with consumers, gives a round-robin index and reports as moved exactly the partitions absent from their new owner's old list |
| `PartitionManager.Assignment.Apply` | internal/services/topic/partition.go:196-245 | the in-place update, in any order of the consumers, ends in the new map with every partition pointing at its owner, and reports the moves against the old map |
| `PartitionManager.Assignment.AddConsumer` | internal/services/topic/partition.go:270-276 | adds an empty entry, or nothing for a known consumer; the index stays consistent |
| `PartitionManager.Assignment.RemoveConsumer` | internal/services/topic/partition.go:303-315 | strikes the consumer from both directions; the index stays consistent |
| `PartitionManager.Assignment.UpdateStats` | internal/services/topic/partition.go:344-355 | counts on one partition only, ignores unknown ids, and leaves the index alone |
| `PartitionManager.Manager.InitializePartitions` | internal/services/topic/partition.go:56-92 | a topic starts, or starts over, with unassigned partitions; other topics are untouched |
| `PartitionManager.Manager.RebalancePartitions` | internal/services/topic/partition.go:149-258 | a known topic is rebalanced, an unknown one refused, 'already in progress' is never answered, other topics are untouched |
| `PartitionManager.Manager.AddConsumer` | internal/services/topic/partition.go:260-291 | adds the consumer to the topic's index or refuses an unknown topic; other topics are untouched |
| `PartitionManager.Manager.RemoveConsumer` | internal/services/topic/partition.go:293-332 | removes the consumer from both directions of the topic's index; other topics are untouched |
| `PartitionManager.Manager.UpdatePartitionStats` | internal/services/topic/partition.go:334-356 | counts messages and size on one partition of one topic, with the index unchanged |
| `PartitionManager.Manager.CleanupPartitions` | internal/services/topic/partition.go:358-368 | forgets the topic and no other |
| `PartitionHash.AssignmentInRange` | internal/services/topic/partition.go:94-113 | the partition manager's sign correction always lands in range, on the residue modulo the count |
| `AckRuns.StepKeepsFence` | internal/services/acknowledgment/ack_handler.go:211-319 | every step keeps: only messages out for delivery or acknowledged name a consumer |
| `AckRuns.EveryRunIsFenced` | internal/services/acknowledgment/ack_handler.go:211-474 | in every run, pending, failed and dead-lettered messages have no consumer |
| `AckRuns.FenceBlocksConsumers` | internal/services/acknowledgment/ack_handler.go:223-227 | no ack, nack or expiry can take effect on a pending, failed or dead-lettered message |
| `AckRacing.EveryInterleavingIsFenced` | internal/services/acknowledgment/ack_handler.go:217-252 | the fence survives every interleaving of reads and writes of concurrent operations, however stale the read |
| `AckRacing.EveryInterleavingHeedsLimit` | internal/services/acknowledgment/retry.go:193-242 | in every interleaving, whatever happens to other messages, only an administrator's requeue of the message itself stores a retry count above its limit |
| `RetryRaces.EveryRetryIsAccounted` | internal/services/acknowledgment/retry.go:193-242 | in every interleaving, initial count plus all requeues, automatic and administrator's, is the final count plus the sum of the differences between the stored count and the count written back |
| `RetryRaces.StepSpendsUnlessRegained` | internal/services/acknowledgment/retry.go:193-242 | an access pays for its requeue out of the remaining retries, and adds none, if and only if it does not write back an older version that has retries left |
| `RetryRaces.RacingRetriesAreBounded` | internal/services/acknowledgment/retry.go:193-242 | the atomic bound holds in every interleaving in which no access regains retries |
| `RetryRaces.SpentIsNeverRetried` | internal/services/acknowledgment/retry.go:34-37 | a message none of whose versions has a retry left is never requeued automatically, in any interleaving |
| `RetryRaces.ManyRetries` | internal/services/acknowledgment/ack_handler.go:278-319 | from any version with a retry left, and for every k, there is an interleaving with k automatic requeues |
| `RetryRaces.BoundHoldsExactlyIfSpent` | internal/services/acknowledgment/retry.go:193-242 | every interleaving keeps the bound if and only if no version has a retry left; with nothing read yet, if and only if the guard of the requeue refuses the stored message |
| `RetryRaces.OneRetrySpentTwice` | internal/services/acknowledgment/ack_handler.go:278-319 | counterexample to the atomic bound: two requeues from one read of a message with one retry left, after which the count says one |
| `AckRuns.EveryRunKeepsContent` | internal/services/acknowledgment/retry.go:145-291 | no run removes a message, changes its topic, key, payload, partition or limit, or lowers its retry count |
| `AckRuns.NothingCountsNacks` | internal/services/acknowledgment/ack_handler.go:450-465 | the nack counter never changes, although it is reported and enters the acknowledgment rate |
| `AckRuns.RateIsOneOrZero` | internal/services/acknowledgment/ack_handler.go:500-504 | over any run of a new service the reported acknowledgment rate is 1 if anything was acknowledged and 0 otherwise |
| `AckRuns.WindowIsLastThousand` | internal/services/acknowledgment/ack_handler.go:467-473 | after any run the window holds the last thousand positive processing times recorded before and during it, in order |
| `AckRuns.StepSpendsBudget` | internal/services/acknowledgment/retry.go:33-37 | every automatic requeue uses up one of the retries the limit allows, and no step gives one back |
| `AckRuns.RetriesAreBounded` | internal/services/acknowledgment/retry.go:193-242 | over any mix of steps a message is requeued automatically at most limit minus initial retry count times |
| `AckRuns.AdminRequeueIgnoresLimit` | internal/services/acknowledgment/retry.go:145-191 | an administrator's requeue keeps the retry count within the message's limit exactly if it was below it |
| `AckRuns.RequeuedBeyondLimit` | internal/services/acknowledgment/retry.go:145-191 | counterexample: a message with both retries spent is requeued a third time |
| `AckRuns.AttemptsAreBounded` | internal/services/acknowledgment/ack_handler.go:307-317 | for a message delivered only when pending and not requeued by worker or administrator, whatever happens to others, failed attempts that take effect number at most the remaining limit plus one |
| `AckRuns.LastAttemptEnds` | internal/services/acknowledgment/ack_handler.go:310-317 | for such a message the attempt beyond the limit leaves it failed or dead-lettered |
| `AckRuns.MoveLinks` | internal/services/acknowledgment/dlq.go:204-254 | a move leaves the original naming a stored copy with equal key, payload and partition that names the original |
| `AckRuns.MovedMessagesAreLinked` | internal/services/acknowledgment/dlq.go:151-254 | in every run, each message the service moved and that is still dead-lettered names such a copy |
| `AckRuns.CounterMatchesCopies` | internal/services/acknowledgment/dlq.go:212-236 | over any run the DLQ counter grows by exactly the number of copies automatic moves made, all of them new and still stored |
| `AckRuns.StoreGrowth` | internal/services/acknowledgment/dlq.go:212-236 | conservation: stored messages less the DLQ counter grow only by publishing, reprocessing, administrator moves and half-failed moves |
| `AckRuns.CopiesArePrefixedOnce` | internal/services/acknowledgment/dlq.go:34-52 | no automatic move ever makes a doubly prefixed topic |
| `AckRuns.AdminMoveDoublesPrefix` | internal/services/acknowledgment/dlq.go:159-190 | the copy stored by an administrator's default move stays, over any later run, on a topic prefixed once exactly if the message was not on a prefixed topic |
| `AckRuns.DoublyPrefixed` | internal/services/acknowledgment/dlq.go:159-190 | counterexample: a message on dlq.orders is copied to dlq.dlq.orders |
| `AckOutcomes.StepIsSettlement` | internal/services/acknowledgment/ack_handler.go:307-317 | the step chosen for a failed delivery leaves the message requeued, dead-lettered or failed as its own limit, the configuration, its topic and its retry count say, field by field, and changes nothing else but its copy and one counter |
| `AckOutcomes.SettledStatus` | internal/services/acknowledgment/dlq.go:34-47 | a settled message is dead-lettered if and only if it is not retried, the queue is enabled, its topic has no dead-letter prefix and its count has reached the configured limit; pending if and only if retried; otherwise failed |
| `AckOutcomes.OnlyDeliveryExpires` | internal/services/acknowledgment/ack_handler.go:336-344 | over any run a message that is not out for delivery is past no deadline, however late, until it is delivered |
| `AckOutcomes.AckedIsNeverExpired` | internal/services/acknowledgment/ack_handler.go:231-252 | an ack makes the message acknowledged, changes nothing else, and keeps it out of every later sweep until it is delivered again |
| `AckOutcomes.MovesHeedPolicy` | internal/services/acknowledgment/dlq.go:34-47 | over any run automatic moves happen only with the queue enabled, never from a dead-letter topic, and only to messages at or above the configured limit |
| `AckOutcomes.NoCopiesWhenDisabled` | internal/services/acknowledgment/dlq.go:34-38 | with the queue disabled no run makes an automatic copy |
| `AckOutcomes.CopyCanBeReprocessed` | internal/services/acknowledgment/dlq.go:263-281 | every copy a move has just stored can be reprocessed |
| `AckOutcomes.ResetIsPending` | internal/services/acknowledgment/ack_handler.go:586-608 | the worker's reset takes a failed message with spent retries and makes it pending and unassigned |
| `AckOutcomes.RetryCountIsAccounted` | internal/services/acknowledgment/retry.go:145-242 | over any run the retry count grows by exactly the number of requeues, automatic and administrator's |
| `AckService.EnrichDLQMessage` | internal/services/acknowledgment/dlq.go:54-104 | the header loop and metadata give exactly the specified dead-letter copy |
| `AckService.CarryHeaders` | internal/services/acknowledgment/dlq.go:298-303 | the loop keeps exactly the headers without a dlq_ or original_ prefix, with their values |
| `AckService.Service.ProcessAcknowledgment` | internal/services/acknowledgment/ack_handler.go:210-276 | refusals in the source's order with no effect; success makes the stored message acknowledged at this time, changes no other and counts once; failure settles the message, and the answer reports how; a message between deliveries is never affected |
| `AckService.Service.ProcessNegativeAcknowledgment` | internal/services/acknowledgment/ack_handler.go:278-319 | refusals with no effect; otherwise the message is requeued if asked for and within its limit, dead-lettered if the queue is enabled, the topic is no dead-letter topic and the configured limit is reached, and failed otherwise; a message between deliveries is never affected |
| `AckService.Service.Settle` | internal/services/acknowledgment/ack_handler.go:423-442 | the message is settled as for a nack, with its headers, its copy and one counter, nothing else changes, and the answer reports it; a failed store leaves at most an orphan copy |
| `AckService.Service.CheckExpiredAcknowledgments` | internal/services/acknowledgment/ack_handler.go:321-399 | every entry of the report is of a message delivered and past its deadline, settled as its own fields and the configuration say, and names how; counters grow by the entries; unreported messages are untouched; what remains past its deadline is exactly what the report misses; the only new messages are dead-letter copies of expired ones, at most one each; if no store fails all expired messages are reported, and nothing happens at all if there is none |
| `AckService.Service.RetryTick` | internal/services/acknowledgment/ack_handler.go:586-608 | makes pending and unassigned only failed messages with spent retries whose retry time has passed, all of them if no store fails, and changes nothing else |
| `AckService.Service.RequeueMessageForRetry` | internal/services/acknowledgment/retry.go:193-242 | the message is pending, unassigned, one retry further, and the counter grew; or nothing changed |
| `AckService.Service.MarkMessageFailed` | internal/services/acknowledgment/retry.go:244-291 | the message is failed and unassigned; or nothing changed |
| `AckService.Service.MoveMessageToDLQ` | internal/services/acknowledgment/dlq.go:204-254 | copy stored and original marked and the counter grew; a failure leaves at most an orphan copy and no count |
| `AckService.Service.StoreCopyAndMark` | internal/services/acknowledgment/dlq.go:169-190 | a copy is stored before the original is marked; failing in between leaves exactly the copy |
| `AckService.Service.RequeueMessage` | internal/services/acknowledgment/retry.go:145-191 | the administrator's requeue makes the message pending, unassigned and one retry further without a limit check, with the next retry time by the given delay or the backoff; unknown messages are refused |
| `AckService.Service.MoveToDLQ` | internal/services/acknowledgment/dlq.go:151-202 | the administrator's move stores one copy with the message's content on the given or the default topic and makes the original name it, uncounted; unknown messages are refused |
| `AckService.Service.ReprocessDLQMessage` | internal/services/acknowledgment/dlq.go:263-334 | refuses unknown, not dead-lettered and untraceable messages; otherwise stores one new pending message on the original topic with the copy's content, carried headers and a fresh set of retries, and marks the copy; that mark may fail without failing the call |
| `AckRepository.Repository.GetUnacknowledged` | internal/ports/repository/message_repository.go:31 | delivered messages of all topics, each once, among them all that are past their deadline |
| `AckSweep.ErrorFreeSweepIsIdempotent` | internal/services/acknowledgment/ack_handler.go:321-399 | after a sweep in which nothing failed no message is past its deadline, and a second sweep at the same time leaves store and counters as they are and reports nothing |
| `AckSweep.ErrorFreeSweepGrowth` | internal/services/acknowledgment/ack_handler.go:353-379 | a sweep in which nothing failed adds exactly as many messages as its report counts dead-letter moves |
| `AckSweep.SettleEffect` | internal/services/acknowledgment/ack_handler.go:353-379 | settling one message changes that message, adds its dead-letter copy if it is moved and no message otherwise, and counts what the report says |
| `AckSweep.OrphansOnlyAdd` | internal/services/acknowledgment/dlq.go:212-233 | a failed settlement changes no existing message and no counter, and adds at most the message's dead-letter copy |
| `DlqRoundTrip.RoundTrip` | internal/services/acknowledgment/dlq.go:54-104 | reprocessing the copy of a message gives a pending message with the original topic, key, payload and partition and every carried header but the two overwritten |
| `DlqRoundTrip.RoundTripKeepsCompression` | internal/services/acknowledgment/dlq.go:283-296 | a receiver reads the same payload from the reprocessed message exactly if the message was not compressed or unpacking leaves its bytes as they are; the flags survive exactly if they were not set |
| `DlqRoundTrip.CopyCarries` | internal/services/acknowledgment/dlq.go:78-101 | the dead-letter metadata is all dropped again by reprocessing |
| `DlqRoundTrip.ManyTrips` | internal/services/acknowledgment/dlq.go:263-334 | over any number of cycles the message is restored and its header names are fixed after the first |
| `DlqRoundTrip.LateReprocessing` | internal/services/acknowledgment/dlq.go:263-334 | reprocessing restores topic, key, payload and partition however much happened since the move |
| `WebSocketIndex.Server.RegisterConnection` | internal/adapters/api/websocket/server.go:273-282 | a new connection joins with both indexes in agreement, leaked entries apart |
| `WebSocketIndex.Server.UnregisterConnection` | internal/adapters/api/websocket/server.go:284-309 | the connection leaves both levels of the server's index, emptied topics go, entries it had leaked go, and the indexes agree |
| `WebSocketIndex.RemoveAllSubscriptions` | internal/adapters/api/websocket/server.go:299-309 | the deletion loop, in any order of the topics, strikes the connection from all topics and drops exactly the emptied ones |
| `WebSocketIndex.Server.HandleSubscribe` | internal/adapters/api/websocket/handlers.go:17-102 | errors change nothing; a subscribe adds one shared object to both indexes, which stay in agreement, and leaks its entry exactly if the connection is no longer registered |
| `WebSocketIndex.Server.HandleUnsubscribe` | internal/adapters/api/websocket/handlers.go:104-171 | errors change nothing; an unsubscribe removes the pair from both indexes and from the leaked entries, drops an emptied topic, and keeps agreement |
| `WebSocketIndex.Server.DeliverMessage` | internal/adapters/api/websocket/handlers.go:333-342 | a delivery counted through the connection is visible through the server's index |
| `WebSocketIndex.Server.GetConnectionStats` | internal/adapters/api/websocket/server.go:183-210 | total_subscriptions is the sum of the per-connection map sizes plus the number of leaked entries; connections, live ones and topics are counted exactly |
| `WebSocketIndex.SubscribeAgrees` | internal/adapters/api/websocket/handlers.go:68-79 | adding a subscription to both indexes keeps them in agreement; adding it for an unregistered connection makes exactly that entry a leaked one |
| `WebSocketIndex.UnsubscribeAgrees` | internal/adapters/api/websocket/handlers.go:137-150 | removing a pair from both indexes keeps agreement and leaves no empty topic |
| `WebSocketIndex.UnregisterAgrees` | internal/adapters/api/websocket/server.go:299-309 | removing a connection everywhere keeps agreement and leaves no empty topic |
| `WebSocketIndex.LeakEndsExactlyIfCleared` | internal/adapters/api/websocket/server.go:284-309 | an event removes a leaked entry if and only if it unsubscribes the same pair or unregisters the same connection |
| `WebSocketIndex.LeakOutlivesOtherEvents` | internal/adapters/api/websocket/server.go:284-309 | a leaked entry outlives every run of other events |
| `WebSocketIndex.SubscribeAfterUnregister` | internal/adapters/api/websocket/handlers.go:17-102 | counterexample to agreement: register, unregister, subscribe leaves one entry of a connection that is gone |
| `WebSocketIndex.LeakedEntryIsCounted` | internal/adapters/api/websocket/server.go:183-210 | counterexample to the counts: no connection and one subscription are reported |
| `NestedSums.TransposeKeepsSum` | internal/adapters/api/websocket/server.go:197-202 | counting a relation by topic gives the total by connection plus the entries no connection lists |
| `PartitionHash.Hash` | internal/services/publisher/publisher.go:516-526 | the wrapping loop is the absolute value of the polynomial sum of b[i] * 31^(n-1-i) reduced to signed 64 bits, except that -2^63 stays as it is |
| `PartitionHash.PartitionIsAbsoluteResidue` | internal/services/publisher/publisher.go:497-507 | the partition is the absolute residue modulo the partition count, and for -2^63 minus that remainder |
| `PartitionHash.WrapsAreCongruent` | internal/services/publisher/publisher.go:516-526 | the machine integers used are congruent to the exact ones modulo 2^64 and 2^32, and equal when these fit |
| `PartitionHash.GoModDivides` | internal/services/publisher/publisher.go:497-507 | Go's remainder differs from the dividend by a multiple of the divisor |
| `PartitionHash.PartitionInRange` | internal/services/publisher/publisher.go:497-507 | the hashed partition is in range for every key and count, except exactly residue -2^63 with a count that is not a power of two |
| `PartitionHash.WorstKey` | internal/services/publisher/publisher.go:516-526 | counterexample: the thirteen base-31 digits of 2^63 go to partition -2 of three |
| `PartitionHash.ChoosePartition` | internal/services/publisher/publisher.go:497-507 | the requested partition, else the absolute hash of the key, or of the id without one, modulo the count |
| `Publisher.MessageCarriesRequest` | internal/services/publisher/publisher.go:469-510 | a published message has the request's topic, key, headers and payload, readable with the inverse of the compressor, its id and time are the draw's, its time to live is exact, zero priority and delivery mode are replaced and others kept, and its partition is in range unless the caller named a wrong one or the hash misses |
| `Publisher.Service.Publish` | internal/services/publisher/publisher.go:143-199 | rejects exactly an empty topic and an empty or oversized payload, without effect; a failing topic lookup, creation or store leaves at most the topic created; otherwise stores one message that carries the request, answers with its fields, and the topic counts it and its original size |
| `Publisher.Service.PublishBatch` | internal/services/publisher/publisher.go:201-306 | published + failed is the batch size; with distinct ids the k-th id and response belong to a stored message carrying the k-th valid input; errors list the others in order; the topic counts messages and bytes; failing topic or message repositories leave at most the topic created |
| `Publisher.BatchIsPosted` | internal/services/publisher/publisher.go:226-306 | the state and answer of a batch, input by input: which inputs were taken, what is stored for each, what is reported, what is left alone |
| `Publisher.BatchRefinesSingle` | internal/services/publisher/publisher.go:201-306 | a batch equals publishing its inputs one by one if and only if Publish accepts every input that has a payload |
| `Publisher.OversizedPayloadInBatch` | internal/services/publisher/publisher.go:433-451 | counterexample: a payload one byte above the limit is published by a batch and refused by Publish |
| `Publisher.EmptyTopicInBatch` | internal/services/publisher/publisher.go:433-451 | counterexample: an input for the empty topic is published by a batch and refused by Publish |
| `Publisher.PublishedIsEnabled` | internal/services/publisher/publisher.go:469-481 | a published message enters the acknowledgment lifecycle pending and unassigned |
| `Publisher.UnitOf` | internal/services/publisher/publisher.go:528-540 | for every 64-bit size the divisor is the power of 1024 just below it and the unit index is at most 5 |
| `Backoff.DelayIsBounded` | internal/services/acknowledgment/retry.go:39-58 | the delay is positive before truncation, never above 60 times the base, and truncated down to whole nanoseconds |
| `Backoff.FirstDelay` | internal/services/acknowledgment/retry.go:39-58 | the first delay is the base times 0.9 to 1.0998 by the jitter draw, and the base itself without an attempt |
| `Backoff.DelayDoubles` | internal/services/acknowledgment/retry.go:39-58 | each further attempt doubles the delay of the same jitter, up to the cap |
| `Backoff.DelayIsMonotone` | internal/services/acknowledgment/retry.go:39-58 | later attempts never wait less, for every choice of jitter at each attempt |
| `Backoff.CapIsReached` | internal/services/acknowledgment/retry.go:39-58 | exactly the cap from attempt 8 on, below it up to attempt 6 |
| `Backoff.SeventhAttempt` | internal/services/acknowledgment/retry.go:45-55 | at attempt 7 the cap applies exactly from jitter draw 188 on |
| `Backoff.LinearIsMonotone` | internal/services/acknowledgment/retry.go:93-100 | linear delays are the attempt times the base up to the tenth, never decrease and stay at ten times the base from there |
| `Entropy.Log2Bounds` | internal/services/publisher/compression.go:250-265 | on probabilities the code's logarithm is above -2.329, at most 0, and 0 only at 1 |
| `Entropy.FrequenciesSumToLength` | internal/services/publisher/compression.go:230-234 | the frequencies of all byte values add up to the length |
| `Entropy.CalculateEntropy` | internal/services/publisher/compression.go:224-248 | the result is one fixed sum whatever order the frequency map is iterated in |
| `Entropy.EntropyIsSmall` | internal/services/publisher/compression.go:224-248 | the estimate is never negative and always below 2.33 |
| `Entropy.EntropyIsZero` | internal/services/publisher/compression.go:224-248 | the estimate is 0 exactly when at most one byte value occurs |
| `Entropy.Log2OfInverse` | internal/services/publisher/compression.go:250-265 | the code's logarithm of an inverse is the negated logarithm, for every positive number |
| `Entropy.UniformEntropy` | internal/services/publisher/compression.go:224-248 | when all occurring byte values are equally frequent the estimate is the negated logarithm of their probability |
| `Entropy.FairCoin` | internal/services/publisher/compression.go:224-265 | for two values with half of the bytes each it is 0.4804, where the entropy is 1 |
| `Entropy.IsLikelyCompressed` | internal/services/publisher/compression.go:191-222 | the heuristic is exactly its length and magic-number checks, since the entropy test never fires |

## Left out

- HTTP handlers, command line, configuration loading, tracing, metrics, logging, and the WebSocket read and write pumps: input and output.
- The Redis adapter: the repository is a map from ids to messages. The adapter's own effects, such as a failed `Acknowledge` raising the retry count, are not part of this model, and the acknowledgment records the service writes through it are dropped.
- Deletion of stored messages (expiry by time to live, retention): no modelled operation removes one.
- Machine-integer overflow of counters, buffer sizes and times; widths are explicit only in `PartitionHash` and in `Publisher.UnitOf`.
- Rounding of floating-point arithmetic in the delays and in the entropy.
- gzip, snappy, lz4, uuid and FNV: library code; compression is any partial function on bytes and the partition manager's hash is any 32-bit number.
- Delivery by the subscriber service: a step that marks any stored message delivered; which messages are pulled, offsets and the assignment of a message to a group member are not modelled.
- Interleaving inside one operation of the acknowledgment service, in `AckSystem`, `AckRuns` and `AckService`: there operations are atomic. `AckRacing` and `RetryRaces` let every write follow an arbitrarily stale read, and cover the fence, the retry limit and the number of retries, not the dead-letter links and the counters.
- Interleaving inside one WebSocket handler, and two connections with the same id.
- The unlocked reads and writes of the heartbeat sweep are taken as single steps; Go's data races have no meaning here.
- The previous owner in the partition manager's move report: it is looked up in the map being rewritten, so it depends on the iteration order.
- Failing updates of topic statistics in the publisher: the update always succeeds.
- The inactive-subscription clean-up, tickers and liveness, topic health scores, statistics caches, priority and mode names, topic-specific dead-letter strategies (which only delegate), and the pending-acknowledgment map, which nothing fills.
- Connection channels and their closing on leave.
