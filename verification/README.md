# Verification of the chat backend's stateful protocols

A Dafny 4.11 model of the parts of this Go backend whose correctness depends on interleavings, indices and counts, with
proofs of what they keep. `dafny verify dfyconfig.toml` checks all of it.

Postgres, MongoDB, Redis and Kafka are plain state: maps, sets, counters and logs. Code that changes state is a method or
a class with fields, proved equal to a function on values; what the code promises is proved about those functions, over
all inputs or all runs. Concurrent code is a transition system: an action that is not enabled changes nothing, so every
sequence of actions is a run, and every theorem about runs speaks of every interleaving.

| files | what they model |
|---|---|
| `InviteAcceptance`, `InviteProtocol`, `InviteRuns`, `InviteOverrun` | taking a use of an invite in Redis, inserting the member, rolling back; any number of acceptors, reloads and expiries; when a limit can be exceeded |
| `InvitedMembers` | folding member-row events into `used_count` |
| `BatchConsumer`, `ChannelMessageHandler`, `ChannelMessageStore`, `Redelivery`, `ChatPipeline` | Kafka batches into MongoDB: batch loop, parsing, bulk insert, the two index maps, dead letters, commits, redelivery, and all of it end to end |
| `HubProtocol`, `HubPlacement`, `HubServing`, `HubAdmission`, `HubDelivery`, `HubCounting`, `HubCode` | the WebSocket hub as a transition system, its invariants, and its methods as code |
| `HubRemoval`, `HubLocks`, `HubStatements` | `RemoveClients` statement by statement under its lock, and why it may be taken as one step |
| `RoomBroadcaster`, `RoomDelivery`, `TypingCoalescer` | the batching goroutine of a room; which requests its members get; the typing coalescer |
| `BloomCache`, `Paging` | the cache behind a Bloom filter; keyset paging of messages and members |
| `KafkaHeaders`, `Snowflake`, `Decimal`, `RedisKeys`, `Base64Url`, `Passport` | codecs: message metadata, ids, cache keys, signed tokens |
| `Common` | an option type and sequence helpers |

## Hypotheses

- Each Lua script, SQL statement, lock region and channel operation is one atomic step. That `RemoveClients`, a lock region
  that closes channels other locks can reach, may be one is proved in `HubStatements`.
- A seeding of the invite counter starts an epoch. Acceptors that hold a use at that moment are *stale*: their rollback
  lowers the new counter. The bounds name their number.
- Removing a member row is an environment step: no code of this backend does it (its only writes to `members` are the two
  inserts at base/store/server/mutation.go:151 and base/store/member/mutation.go:16). The invariants allow it; the
  continuations of `InviteOverrun` do not use it.
- The continuations of `InviteOverrun` follow a clock that does not run back; all other theorems allow any readings.
- A use that ends in a duplicate row is *burned*, one whose rollback does not reach Redis, or meets no counter, is *leaked*.
- The write errors of a bulk insert are modelled as MongoDB reports them: distinct and in range.
- Claims about commits speak of the messages passed to `CommitMessages`, not of cumulative offsets.
- JSON is an assumed round trip and HMAC (section 2 of RFC 2104) an uninterpreted function; base64url is concrete.

## Where the code does other than it says

- `base/cacheStore/server/mutation.go:131-145`: an invite missing from the cache is answered "Invalid code"; the database
  is asked only after a Redis *error*, contrary to the comment at line 145.
- `base/cacheStore/server/mutation.go:181`: the rollback's own failure is ignored, so its use is lost.
- `base/cacheStore/server/mutation.go:95-111`: the reload reads `used_count` first and seeds the counter later, from a
  count that lags behind the rows and knows nothing of uses in hand. `ReloadBeforeTheFoldExceedsTheLimit` and
  `ReloadWithAUseInHandAllowsAnOverrun` are the two consequences; `OverrunExactlyWhenCounterIsBehind` says from which states
  the limit can be exceeded.
- `base/cacheStore/server/mutation.go:78`: the condition dereferences a nil limit, so creating an unlimited invite panics
  (`CreationPanicsExactlyWhenUnlimited`) in a goroutine that nobody recovers, which ends the process. In
  the model the acceptors that ended with it are those that never move again, and the run goes on with the next process.
- `base/cacheStore/member/query.go:23-26`: a server missing from the cache counts as "not a member", without asking the
  database; the insert then finds the duplicate and burns the use.
- `base/infrastructure/kafka/consumer.go:276-306`: the handler's error is never looked at, so a failed batch is committed
  (`EveryMessageHasItsFate`); `CommittedIsSafeExactly` says when that is safe, and `ChatRunIsSafeExactly` what it means for
  this handler.
- `base/infrastructure/kafka/consumer.go:327-330`: a cancellation noticed by the fetch returns without processing the
  batch; one noticed by `select` does process it (`WhatATurnProcesses`).
- `base/infrastructure/kafka/consumer.go:201-234`: the automatic mode says its messages are committed already, but
  `FetchMessage` commits nothing (`EveryMessageHasItsFate`).
- `base/store/channelMessage/mutation.go:93-101`: a duplicate id is a write error like any other, so a redelivered message
  that is stored already is reported as failed and goes to the dead-letter queue as well (`SecondDeliveryIsDead`).
- `internal/modules/websocket/application/subscribe.go:70-73`: the room created for a missing one is discarded, and
  `addClient` on the nil room panics (`JoinPanicsOnNilRoom`). The request handler recovers that panic, so the room stays:
  live, without a broadcaster, and for ever, because `BuildRoomBroadcaster` leaves an existing room alone
  (`UnservedForEver`); `ServedExactlyWhenBuilt` says which live rooms are served.
- `internal/modules/websocket/application/broadcasting.go:88-98`: the idle check and the removal are two lock regions, so a
  client can join in between and stay in a room that is no longer live (`JoinBetweenIdleCheckAndRemoval`).
- `internal/modules/websocket/application/broadcasting.go:236-253`: switching rooms closes the client's connection and
  `done` channel, as an eviction does; the contract of `SubscribeRoom` says exactly when.
- `internal/modules/websocket/application/typing.go:57-59`: a shed flush leaves counted users with no timer armed, and a
  call of a tracked user arms none (lines 39-41), so nothing is flushed until somebody else types
  (`StuckUntilUntrackedCall`).
- `internal/modules/websocket/application/hub.go:138-168`: the two queues are served in no fixed order, so the connection
  count can fall below zero, down to minus the length of the register queue.
- `base/store/channelMessage/query.go:20-23`: a negative limit passes the cap and counts by its size in MongoDB, 0 means no
  limit; with more than 100 authors on a page no author is filled in.
- `base/store/server/query.go:223-230`: a cursor of 0 or less asks for the first page again, so a page that ends in such an
  id makes its client loop (`MemberPagingEndsExactly`).

## Model

| member | source | states |
|---|---|---|
| `InviteAcceptance.RollbackUndoesConsume` | base/lib/serverInvite/luaScripts.go:6-46 | The consume script grants a use exactly when the counter is present, not negative and below a positive limit; a refused consume leaves the counter alone, and the rollback script undoes a granted one exactly. |
| `InviteAcceptance.RollbackStopsAtZero` | base/lib/serverInvite/luaScripts.go:29-46 | A rollback lowers a positive counter by one, leaves one of 0 alone and makes none where there is none; its reply is the counter it leaves. |
| `InviteAcceptance.RefusedUseHasItsReason` | base/lib/serverInvite/consumer.go:14-58 | For every invite, clock, counter and state of Redis, one if-and-only-if per reason: expired, a limit below one, Redis unreachable, no usable counter (code not found), a counter at or above the limit (limit exceeded); a use is granted exactly when none applies. |
| `InviteAcceptance.Backend.ConsumeServerInviteCache` | base/lib/serverInvite/consumer.go:14-58 | Validation, limit -1 for unlimited invites, one script call, and the reply read as an error or a use; a granted use makes the invite's own count the fresh counter, and on any error counter and count are unchanged. |
| `InviteAcceptance.Backend.RollbackConsumeServerInviteCache` | base/lib/serverInvite/consumer.go:61-91 | One script call, no validation; the invite's own count becomes the script's reply. An unreachable Redis changes nothing and is an error. |
| `InviteAcceptance.Backend.CreateServerMember` | base/store/server/mutation.go:140-175 | A new row and its change event, or nothing; a second row for the same user changes nothing and is still success. |
| `InviteAcceptance.Backend.AcceptServerInviteAndCreateMember` | base/cacheStore/server/mutation.go:125-186 | One acceptance, branch by branch, from the cache reply to the ignored result of the rollback, does to the state what the composition of its atomic steps says; the caller gets an invite exactly on success, and it carries the counter as this acceptance left it. |
| `InviteAcceptance.AcceptanceIsAllOrNothing` | base/cacheStore/server/mutation.go:125-186 | Nobody else running, for all outcomes of its calls: success if and only if the invite is had, a use is granted and the insert goes through, with exactly one use taken, the user a member and one event unless it was a member already; a failure changes nothing beyond the reload's seeding if and only if no use was granted or the rollback reached Redis. |
| `InviteAcceptance.FailedAcceptanceHasItsReason` | base/cacheStore/server/mutation.go:125-186 | One if-and-only-if for each answer of an acceptance, in terms of the cached invite, the counter it meets and the outcomes of its calls: invalid code, expired (at the first or the second look), limit not positive, already a member, code not found, limit exceeded, internal, success. |
| `InviteAcceptance.AcceptanceAndTheCounter` | base/cacheStore/server/mutation.go:89-186 | A success leaves the counter one above the one it met, which its own reload has seeded from `used_count` where there was one; a failure leaves that counter, unless a use was lost with its rollback. |
| `InviteProtocol.RunKeepsInv` | base/cacheStore/server/mutation.go:89-186 | The inductive invariant of the protocol (epochs, stale holders, conservation of uses, limit, accounting of rows) holds after every run of any number of acceptors, reloads, expiries, other inserts, removals and folds. |
| `InviteProtocol.CounterIsExact` | base/cacheStore/server/mutation.go:125-186 | In every interleaving, in an epoch that nobody entered holding a use: Redis counter = seed + uses in hand + rows created + uses burned by duplicates + uses whose rollback was lost; and no rollback ever meets a counter of 0. |
| `InviteProtocol.MembersWithinLimit` | base/cacheStore/server/mutation.go:125-186 | In every interleaving, rows + burned uses + uses in hand of an epoch stay within `max_uses - seed`, plus one for each acceptor that held a use when the counter was seeded. |
| `InviteProtocol.RowsAreCounted` | internal/modules/core/services/kafka/serverMembers.go:22-60 | In every interleaving `used_count` + row events not folded yet + events of failed updates = first `used_count` + all rows ever created with the code. |
| `InviteProtocol.CounterCoversUsedCount` | base/cacheStore/server/mutation.go:89-122 | While an epoch is clean (seeded with no use in hand and no row uncounted) the counter is at least `used_count` plus the events not folded yet. |
| `InviteProtocol.AllRowsWithinLimit` | base/cacheStore/server/mutation.go:125-186 | While an epoch is clean and no update was lost, all rows ever created together stay within the limit, or within the seed where that was larger. |
| `InviteProtocol.WhatAFoldDoes` | internal/modules/core/services/kafka/serverMembers.go:22-60 | A fold takes the next events in order and adds those that carry the code to `used_count`, or counts them as lost where the update fails; without enough events it does nothing. |
| `InviteProtocol.WhatSeedingDoes` | base/cacheStore/server/mutation.go:89-122 | A reload's second step sets the counter to the count read before, and starts a clean epoch if and only if that count covers every row and nobody holds a use. |
| `InviteProtocol.WhatOthersDo` | base/store/server/mutation.go:140-175 | The environment: expiry takes the counter away; members come in with another code or none, and leave, one at a time and each with its event. |
| `InviteRuns.UndisturbedRun` | base/cacheStore/server/mutation.go:125-186 | An acceptor that runs alone through the protocol's steps ends with the state and reply of the sequential method, from any reachable point and for all outcomes of its calls. |
| `InviteRuns.CallsAreRuns` | base/cacheStore/server/mutation.go:125-186 | A call appended to any run is again a run of the protocol, with the sequential method's effect and reply. |
| `InviteRuns.ReloadBeforeTheFoldExceedsTheLimit` | base/cacheStore/server/mutation.go:89-122 | A concrete run in which two users join through an invite for one use, because a reload seeds the counter from the lagging `used_count`. |
| `InviteOverrun.FillUp` | base/cacheStore/server/mutation.go:125-186 | From any reachable state with a counter below the limit, at any moment before the invite expires, newcomers one after the other each add a row until the counter reaches the limit, and disturb nobody else. |
| `InviteOverrun.RunMayLowerPotential` | base/cacheStore/server/mutation.go:125-186 | No run without a removed row and without a new seed or loss of the counter raises the potential: rows plus the new users behind the uses about to be inserted or, where that is more and the invite may still be granted, the uses the counter can still grant once those in hand are given back. |
| `InviteOverrun.PotentialBecomesRows` | base/cacheStore/server/mutation.go:125-186 | From every reachable state some continuation by steps this backend takes, with no row removed and the clock not running back, turns the whole potential into rows. |
| `InviteOverrun.OverrunExactlyWhenCounterIsBehind` | base/cacheStore/server/mutation.go:125-186 | From every reachable state, uses in hand or not: some continuation with no row removed, no new seed or loss of the counter and no clock running back exceeds the limit if and only if rows + new users behind the uses about to be inserted exceed the limit, or the invite has not been seen expired, there is a counter and rows + uses about to be inserted exceed the counter less the uses being given back. |
| `InviteOverrun.ReloadWithAUseInHandAllowsAnOverrun` | base/cacheStore/server/mutation.go:89-122 | A concrete run: one acceptor holds the only use when another reloads. The counter says 0 and there is no row, rightly, and yet a continuation exceeds the limit. |
| `InvitedMembers.InviteUsage` | internal/modules/core/services/kafka/serverMembers.go:26-46 | The counting loop: a code is in the map exactly when some readable create event of the batch carries it, with the number of those events. |
| `InvitedMembers.CreatedWithCountsRows` | internal/modules/core/services/kafka/serverMembers.go:26-46 | Counted are exactly the positions of readable create events whose row carries the code, and never an empty code. |
| `InvitedMembers.InviteTable.UseServerInvite` | base/store/server/mutation.go:178-205 | Succeeds exactly for a positive increment, a reachable database and an existing code, and then adds the increment to that code's count alone. |
| `InvitedMembers.InviteTable.ApplyUsage` | internal/modules/core/services/kafka/serverMembers.go:48-58 | The update loop over the codes in arbitrary order: all counts folded, or a stop with every count either untouched or fully folded. |
| `InvitedMembers.InviteTable.HandleInvitedMembers` | internal/modules/core/services/kafka/serverMembers.go:22-60 | Succeeds if and only if every code counted in the batch exists and its update goes through; then every count grows by its create events and nothing is returned for retry, else the whole batch is. |
| `InvitedMembers.BatchSplittingIsIrrelevant` | internal/modules/core/services/kafka/serverMembers.go:22-60 | However the event stream is cut into batches, the counts end the same. |
| `InvitedMembers.CountsAreConserved` | internal/modules/core/services/kafka/serverMembers.go:22-60 | For every code: count + events still to come = first count + all create events, after any number of batches. |
| `ChannelMessageStore.StoredIsWhatIsGained` | base/store/channelMessage/mutation.go:90-91 | What one unordered bulk insert does: stored positions have ids that are new and pairwise different, each is in the collection with its own document, old documents stay, and nothing else appears. |
| `ChannelMessageStore.FailsExactlyWhenTaken` | base/store/channelMessage/mutation.go:90-101 | A position fails if and only if it holds no document, MongoDB objects to it, or its id is in the collection already or stands further up in the same insert. |
| `ChannelMessageStore.MessageCollection.InsertMany` | base/store/channelMessage/mutation.go:90-101 | The write errors are distinct, in range, and exactly the positions not stored. |
| `ChannelMessageStore.CheckMessages` | base/store/channelMessage/mutation.go:67-83 | Every message is marked not deleted; both index arrays are strictly increasing and in range and split the input: refused are exactly the messages without id, server, channel or user, or with neither text nor file; the kept messages are those the index array names. |
| `ChannelMessageStore.ComposedIsIndexArray` | base/store/channelMessage/mutation.go:68-101 | Two index arrays composed are an index array: increasing, injective, in range. |
| `ChannelMessageStore.PersistSelected` | base/store/channelMessage/mutation.go:81-91 | Inserting only the valid documents has the effect of inserting the whole input with the invalid positions empty, the refused positions mapped through the index array. |
| `ChannelMessageStore.StoredSelected` | base/store/channelMessage/mutation.go:96-101 | A position of the input is stored exactly when it is the image of a stored position of the insert, so write errors can be mapped back. |
| `ChannelMessageStore.MapBack` | base/store/channelMessage/mutation.go:93-101 | The write errors mapped through `validToOriginalIndex`, after the incomplete ones, name every position not stored exactly once; every index used is in range. |
| `ChannelMessageStore.CreateChannelMessagesBulk` | base/store/channelMessage/mutation.go:62-109 | Without a fatal error the returned indices are, without repetition, exactly the input positions not stored; with one they are the incomplete messages alone. The collection becomes what inserting the complete messages gives. |
| `ChannelMessageStore.FailuresWithoutObjections` | base/store/channelMessage/mutation.go:62-109 | Where MongoDB objects to duplicates alone: a message is named as failed if and only if a field is missing (id, server, channel, user, or text and file both), or its id is in the collection, or a message further up that lacks nothing has the same id. |
| `ChannelMessageStore.StoredAsSent` | base/store/channelMessage/mutation.go:67-91 | Any other message is in the collection afterwards, field by field as it was sent, marked not deleted. |
| `ChannelMessageHandler.ParseBatch` | internal/modules/chat/services/kafka/channelMessage.go:32-46 | Models, their messages and the dead letters follow the batch order, and each position is in exactly one of the two lists, by whether its body parses. |
| `ChannelMessageHandler.InsertParsed` | internal/modules/chat/services/kafka/channelMessage.go:52-64 | The handler's and the store's index arrays, composed, list exactly the positions that hold a record, in order and without repetition; the failed indices mapped through the handler's complete the split of the batch. |
| `ChannelMessageHandler.AppendFailed` | internal/modules/chat/services/kafka/channelMessage.go:56-59 | The dead-letter list holds the unparsed messages, then those at the failed indices; every index is in range. |
| `ChannelMessageHandler.HandleChannelMessages` | internal/modules/chat/services/kafka/channelMessage.go:30-66 | When no error is reported the batch's positions split exactly into stored ones and dead letters, none lost, repeated or in both; an error comes only from a broken connection, and then only messages that are no records are dead letters. |
| `ChannelMessageHandler.DeadExactlyWhenNoRecordOrDuplicate` | base/store/channelMessage/mutation.go:93-101 | Without other objections a position is dead-lettered if and only if it is no record, or its id is stored already or stands further up in the batch. |
| `ChannelMessageHandler.WhatBecomesOfAMessage` | internal/modules/chat/services/kafka/channelMessage.go:30-82 | In terms of headers and body alone: a message is dead-lettered if and only if it does not parse, or trace id, sender, server or channel is missing, or text and file both are, or its trace id is taken in the collection or by such a message further up; any other is stored under its trace id with exactly its own fields. |
| `ChannelMessageHandler.SecondDeliveryIsDead` | base/store/channelMessage/mutation.go:93-101 | A batch delivered a second time is dead-lettered as a whole, although its records are stored, and the collection stays as it is. |
| `ChatPipeline.Handle` | internal/modules/chat/services/kafka/channelMessage.go:30-66 | The handler as the consumer sees it: what it reports, returns as failed and stores is what the theorems about whole runs take of it. |
| `Redelivery.OnlyDeliveredIsStored` | internal/modules/chat/services/kafka/channelMessage.go:30-82 | After any delivery schedule every stored document is the record of a delivered message, under that message's trace id. |
| `Redelivery.RecordStoredExactlyWhenTaken` | internal/modules/chat/services/kafka/channelMessage.go:30-82 | Whatever MongoDB refuses: a delivered record is in the collection under its trace id if and only if at some delivery its id was offered and not refused. |
| `Redelivery.EveryDeliveredIsStored` | internal/modules/chat/services/kafka/channelMessage.go:30-82 | If MongoDB objects to nothing but duplicate ids, every delivered valid record is stored under its trace id. |
| `Redelivery.CollectionIsTheDeliveredRecords` | internal/modules/chat/services/kafka/channelMessage.go:30-82 | Both together: the collection is the map from trace id to record of the delivered valid messages, each once, for every redelivery and batch cutting. |
| `Redelivery.RedeliveryIsHarmless` | internal/modules/chat/services/kafka/channelMessage.go:30-82 | Two schedules that deliver the same set of messages end in the same collection. |
| `Redelivery.RedeliveredMessageIsStoredOnce` | internal/modules/chat/services/kafka/channelMessage.go:30-82 | A message delivered any number of times, in whatever batches, leaves exactly its one record. |
| `ChatPipeline.CommittedMessagesAreKept` | base/infrastructure/kafka/consumer.go:259-345 | End to end, for every run of the manual-commit loop with this handler and a dead-letter queue, whatever errors and refusals there are and however Kafka redelivers: a committed message that is no record is in the dead-letter queue; one that is a record is in the collection if and only if at some delivery MongoDB did not refuse its id. |
| `ChatPipeline.CommittedRecordsAreStored` | base/infrastructure/kafka/consumer.go:259-345 | Where MongoDB refuses nothing but duplicates, every committed record is in the collection. |
| `ChatPipeline.BatchIsTakenExactly` | internal/modules/chat/services/kafka/channelMessage.go:30-66 | With a dead-letter queue a batch of the handler is stored or returned as a whole if and only if it reports no error, or had stored every record all the same. |
| `ChatPipeline.ChatRunIsSafeExactly` | base/infrastructure/kafka/consumer.go:259-345 | In every run all committed messages are stored or dead-lettered if and only if every batch was left uncommitted, or reported no error, or had stored every record. |
| `BatchConsumer.Consumer.Process` | base/infrastructure/kafka/consumer.go:264-309 | The helper closure on the reused slice: handler call, the two metrics, dead-letter queue (an empty list that is not nil is passed on, too), commit, and an empty batch at every exit. |
| `BatchConsumer.Consumer.Run` | base/infrastructure/kafka/consumer.go:259-345 | The loop over a fixed-capacity slice never writes past its end and follows the state machine `After` turn by turn. |
| `BatchConsumer.BatchStaysShort` | base/infrastructure/kafka/consumer.go:311-344 | At every loop head the batch is shorter than `BatchSize` (empty for size 0). |
| `BatchConsumer.NothingIsLostOrReordered` | base/infrastructure/kafka/consumer.go:259-345 | Processed batches in order, then the current batch, are exactly the fetched messages. |
| `BatchConsumer.WhatATurnProcesses` | base/infrastructure/kafka/consumer.go:313-344 | In every run: a timer, the end of the context and a fetch that fills the batch, and no other turn, hand the whole batch, the message just fetched included, to the handler and empty it; the loop stops exactly on the end of the context or a cancelled fetch. |
| `BatchConsumer.NothingWaitsAfterATimer` | base/infrastructure/kafka/consumer.go:313-344 | After a timer, the end of the context or a full batch the processed batches are all that was fetched so far. |
| `BatchConsumer.FetchedBeforeATimerIsHandled` | base/infrastructure/kafka/consumer.go:313-344 | Whatever follows, what was fetched up to then stays handed over, in order. |
| `BatchConsumer.CountsAddUp` | base/infrastructure/kafka/consumer.go:279-282 | With a handler that returns no more failures than messages, success and failure counts add up to the messages processed. |
| `BatchConsumer.FailuresAreCounted` | base/infrastructure/kafka/consumer.go:279-282 | In every run the failure count is the number of failures the handler returned. |
| `BatchConsumer.EveryMessageHasItsFate` | base/infrastructure/kafka/consumer.go:271-306 | In every run, for every message of every batch: stored exactly if the handler stored it; dead-lettered exactly if the handler returned it and there is a dead-letter queue that accepts; committed exactly in manual mode, unless a list of failures met a dead-letter queue that refuses. |
| `BatchConsumer.CommittedIsSafe` | base/infrastructure/kafka/consumer.go:271-306 | With a dead-letter queue and a handler that reports no error and splits every batch, every committed message is stored or dead-lettered, in every run. |
| `BatchConsumer.CommittedIsSafeExactly` | base/infrastructure/kafka/consumer.go:271-306 | In every run, for every handler: every committed message is stored or dead-lettered if and only if every batch was left uncommitted, or each of its messages was stored or, with a dead-letter queue, returned as a failure. Nothing is committed, stored or dead-lettered before it is processed. |
| `BatchConsumer.FailedBatchIsCommitted` | base/infrastructure/kafka/consumer.go:276-306 | Without that: a handler that reports an error and returns nothing has its batch committed, neither stored nor dead-lettered. |
| `RoomBroadcaster.Broadcaster.Drain` | internal/modules/websocket/application/broadcasting.go:68-79 | The loop on the array: at most as many receives as were queued when it started, each of which finds a request waiting, and none once the batch is full, whatever is enqueued meanwhile. |
| `RoomBroadcaster.DrainConserves` | internal/modules/websocket/application/broadcasting.go:68-79 | The greedy drain neither loses nor reorders a request, never shrinks the batch or takes it past 50, and touches nothing flushed, whatever is enqueued while it runs. |
| `RoomBroadcaster.Broadcaster.Flush` | internal/modules/websocket/application/broadcasting.go:42-52 | The slice itself is handed over and read in full before it is truncated; what was read is a buffer of its own. |
| `RoomBroadcaster.Broadcaster.Take` | internal/modules/websocket/application/broadcasting.go:66-78 | Writing the next request into the reused backing array leaves every batch flushed before with its contents, because none of them is that array. |
| `RoomBroadcaster.Broadcaster.Run` | internal/modules/websocket/application/broadcasting.go:25-101 | The goroutine's loop on its reused array, whose flushed batches are read off the heap at the end, follows the state machine `After` turn by turn. |
| `RoomBroadcaster.BroadcasterKeepsOrder` | internal/modules/websocket/application/broadcasting.go:39-101 | Flushed batches, then the batch, then the queue, are the accepted requests in order; every flush has 1 to 50 requests and the batch has fewer than 50 between turns. |
| `RoomBroadcaster.WhatAReceiveMoves` | internal/modules/websocket/application/broadcasting.go:56-83 | In every run a receive moves the first requests of the queue, as many as were waiting and fit into a batch of 50, to the end of the batch, in order, and flushes it if and only if it then has 50. |
| `RoomBroadcaster.WhatOtherTurnsDo` | internal/modules/websocket/application/broadcasting.go:54-101 | A tick flushes what the batch holds; an idle tick ends the goroutine if and only if the room has no clients; an arrival enters the queue if and only if it holds fewer than 100; once ended, nothing is received or flushed. |
| `RoomBroadcaster.NothingWaitsAfterATick` | internal/modules/websocket/application/broadcasting.go:85-86 | After a tick everything received has been flushed, and only the queue still waits. |
| `RoomBroadcaster.FlushedByTickOrFull` | internal/modules/websocket/application/broadcasting.go:39-86 | In every run a batch is flushed by a tick or because it has 50 requests, and for no other reason. |
| `RoomBroadcaster.QueueWithinCapacity` | internal/modules/websocket/application/hub.go:71-76 | The queue never holds more than its 100 places. |
| `HubCode.Hub.BuildRoomBroadcaster` | internal/modules/websocket/application/broadcasting.go:12-22 | Under the hub lock: a missing room is created together with its broadcaster; an existing one is left alone, even one without a broadcaster. |
| `HubCode.Hub.RemoveClientsFrom` | internal/modules/websocket/application/broadcasting.go:236-253 | The loop removes exactly the listed clients from the room and closes each `done` channel at most once, however often a client is listed. |
| `HubCode.Hub.BroadcastBatch` | internal/modules/websocket/application/broadcasting.go:154-218 | A batch that cannot be serialised is dropped; else, undisturbed, the members whose channel holds fewer than 20 items, and they alone, have the batch as one more item, and the others, and they alone, are handed to one eviction. |
| `HubCode.Hub.SendToSnapshot` | internal/modules/websocket/application/broadcasting.go:191-201 | The send loop, in arbitrary order, one protocol step each: who is sent the item and who is marked depends only on the channel's own fill. |
| `HubCode.Hub.LookUpRooms` | internal/modules/websocket/application/subscribe.go:63-74 | Old and new room as found under the lock; a room created because of a missing one is not the one returned. |
| `HubCode.Hub.LeaveOldRoom` | internal/modules/websocket/application/subscribe.go:76-80 | The client leaves its old room, and its `done` channel is closed if it was closed before or there is an old room, although the client only switches. |
| `HubCode.Hub.Join` | internal/modules/websocket/application/subscribe.go:84-97 | Without permission, or with a nil room, no room changes and the client keeps its room and is sent nothing; with permission and a nil room the call panics; else the client is in that room and no other room changes, has its name, and is confirmed unless its own channel is full, where the call waits. |
| `HubCode.Hub.SubscribeRoom` | internal/modules/websocket/application/subscribe.go:34-99 | Undisturbed, the call is five steps of the protocol in a row. If the name is invalid or the client's own, or has no room, or joining is not allowed, no room gains a client and the client keeps its room and is sent nothing; else the client is in the room of that name, with that name, and confirmed. It panics if and only if the name is valid, new, allowed and has no room; the `done` channel is closed afterwards if and only if it was before, or the name is valid and new and the client's old room is live. |
| `HubCode.Hub.UnregisterNext` | internal/modules/websocket/application/hub.go:151-168 | The unregister branch is the lookup step followed by the removal step: the client leaves the room found for its name and is counted out. |
| `HubCode.Hub.ServeOnce` | internal/modules/websocket/application/hub.go:132-172 | One turn of the event loop: nothing exactly when both queues are empty, else one registration or one unregistration, whichever `select` picks. |
| `HubCode.Hub.HandleSlowClients` | internal/modules/websocket/application/broadcasting.go:203-208 | The eviction goroutine is the protocol's step: it removes exactly the clients it was handed, from the room it was started for, and runs once. |
| `HubCode.Hub.IdleTick` | internal/modules/websocket/application/broadcasting.go:88-98 | With nobody coming in between, the idle branch stops the broadcaster and forgets the room's name if and only if the room has no clients, else it changes nothing; it is the check step followed by the removal step. |
| `HubPlacement.RunKeepsInv` | internal/modules/websocket/application/hub.go:132-212 | The placement invariant holds after every run of joins, switches, flushes, evictions, idle removals and unregistrations. |
| `HubPlacement.ClientsAreWhereTheySay` | internal/modules/websocket/application/subscribe.go:58-96 | In every reachable state live rooms are stored under their own names, every client of a live room has that name as its room, and no client is in two live rooms. |
| `HubAdmission.MembersWerePermitted` | internal/modules/websocket/application/subscribe.go:84-113 | In every run a client that is in a room came in by one `addClient`, has been there since, and that very join was permitted: a decision to let it into this room came before, and the client did nothing else in between. |
| `HubAdmission.SlowOnesWereFull` | internal/modules/websocket/application/broadcasting.go:191-208 | In every run a client is marked or handed to an eviction as slow only if some flush of that room found its channel holding 20 items. |
| `HubPlacement.UnregisteredIsGone` | internal/modules/websocket/application/hub.go:151-168 | A client the hub has unregistered is in no live room, then and after any further run. |
| `HubPlacement.RemovalIsOfItsOwnRoom` | internal/modules/websocket/application/broadcasting.go:88-98 | A broadcaster that removes a room by name removes its own, although the check and the removal are two lock regions. |
| `HubPlacement.RemovalStrandsItsMembers` | internal/modules/websocket/application/broadcasting.go:221-229 | Removing a room cuts off exactly the clients that are in it at that moment: they keep its name, but it is no longer live. |
| `HubPlacement.JoinBetweenIdleCheckAndRemoval` | internal/modules/websocket/application/broadcasting.go:88-98 | A concrete run in which a client joins between the idle check and the removal and is stranded in a dead room. |
| `HubServing.ServedExactlyWhenBuilt` | internal/modules/websocket/application/subscribe.go:70-73 | In every run a live room has a broadcaster if and only if `BuildRoomBroadcaster` created it, and has none if and only if the failed lookup of a join did. |
| `HubServing.UnservedForEver` | internal/modules/websocket/application/broadcasting.go:12-22 | A live room without a broadcaster stays live and without one after every further run, and no client is ever sent a flush of it. |
| `HubServing.JoinPanicsOnNilRoom` | internal/modules/websocket/application/subscribe.go:70-96 | A concrete run: the broadcaster gives up its room between the two calls of a join, the join panics on the nil room, and the room it created is live without a broadcaster. |
| `HubDelivery.MembersGetEveryFlush` | internal/modules/websocket/application/broadcasting.go:154-218 | In every run, snapshot and sends being separate steps: a member of a room has been handed exactly the consecutive flushes of that room since it joined, in order, up to the next it is due, or it awaits removal. |
| `HubDelivery.AtMostOneFlushAfterLeaving` | internal/modules/websocket/application/broadcasting.go:173-201 | A client that is out of a room and stays out is sent at most one more flush of it, the one under way, if that has the client in its snapshot. |
| `RoomDelivery.MembersGetEveryRequest` | internal/modules/websocket/application/broadcasting.go:39-101 | In one transition system where handing over a batch is the snapshot of the hub: a member that does not await removal has been handed, in order, exactly the requests of the flushes from its joining up to the next it is due, a contiguous piece of those the room accepted. |
| `HubDelivery.ChannelsStayBounded` | internal/modules/websocket/application/hub.go:71-76 | No client's channel ever holds more than its 20 places. |
| `HubCounting.CountsAreExact` | internal/modules/websocket/application/hub.go:138-168 | In every run the total + registrations queued - unregistrations queued or in hand = handlers between their two sends, and each `done` channel is closed at most once. |
| `HubRemoval.RemoversAgreeOnTheRoom` | internal/modules/websocket/application/broadcasting.go:236-253 | In every run all that are about to remove one client whose `done` channel is open (evictions, the switching client, the hub) are about to remove it from one and the same room. |
| `HubLocks.AtomicCommutes` | internal/modules/websocket/application/broadcasting.go:236-253 | Every step of the hub that waits for no held lock does the same to a memory in the middle of removals as to one where they have not begun. |
| `HubStatements.StatementsAreSteps` | internal/modules/websocket/application/broadcasting.go:236-253 | With `RemoveClients` statement by statement under its room's lock, in every interleaving: the memory is that of a run of the hub in which a removal is one step, overlaid with what the removals under way have done. |
| `HubStatements.UnlockedMomentsAreTheStepsStates` | internal/modules/websocket/application/broadcasting.go:236-253 | The states reached with no removal under way are exactly those of the runs in which a removal is one step. |
| `HubStatements.DoneIsClosedOnce` | internal/modules/websocket/application/broadcasting.go:236-253 | In every interleaving of the statements each `done` channel is closed at most once, and no close panics. |
| `HubCounting.TotalIsBounded` | internal/modules/websocket/application/hub.go:138-168 | The total is never below minus the length of the register queue. |
| `HubCounting.TotalCanBeNegative` | internal/modules/websocket/application/hub.go:138-168 | That bound is attained: every total from 0 down to it occurs in some run. |
| `TypingCoalescer.RoomTyping.FlushTyping` | internal/modules/websocket/application/typing.go:55-116 | A shed flush changes nothing, timer included; any other, with whatever calls come in between the test and the lock, empties the state and the timer field, and its request, if the queue takes it, carries the drained total and every tracked user once, by name. |
| `TypingCoalescer.CoalescedLaws` | internal/modules/websocket/application/typing.go:35-52 | For every sequence of calls since a flush: the tracked users are the first four distinct ones, their number is the smaller of total and 4, the total is at least the number of distinct users and equals it when that is at most four. |
| `TypingCoalescer.TotalCountsUsersExactly` | internal/modules/websocket/application/typing.go:35-52 | The total counts every user once if and only if no user outside the first four called again. |
| `TypingCoalescer.TotalsAreConserved` | internal/modules/websocket/application/typing.go:35-74 | Over any run, shed flushes included: drained totals + current total = counted calls. |
| `TypingCoalescer.OldTimersAreStopped` | internal/modules/websocket/application/typing.go:35-52 | A new timer stops the old one: in every run at most one timer is pending, and one more for every flush that forgot its own. |
| `TypingCoalescer.TimerIsLostExactlyWhenShed` | internal/modules/websocket/application/typing.go:35-74 | In every run of calls, timers and flushes: what is counted, with no flush under way, has its timer pending if and only if the flush of that very timer was not shed. |
| `TypingCoalescer.ShedsFromNinety` | internal/modules/websocket/application/typing.go:55-59 | With the queue's 100 places a flush is shed if and only if 90 are taken. |
| `TypingCoalescer.StuckUntilUntrackedCall` | internal/modules/websocket/application/typing.go:35-74 | Counted users left without a timer stay so, without a flush, whatever happens, and a timer is armed again if and only if a user outside the tracked ones calls. |
| `TypingCoalescer.UntrackedCallFlushes` | internal/modules/websocket/application/typing.go:35-74 | That call's timer, firing with room in the queue, drains everything counted. |
| `BloomCache.CacheManager.Get` | base/infrastructure/redis/cacheManager.go:88-129 | The filter answers first, when it is asked and works; a missing key and a null marker are both nothing. |
| `BloomCache.CacheManager.MGet` | base/infrastructure/redis/cacheManager.go:138-185 | Per key the same as an unguarded `Get`, null markers showing as explicit nil entries; hits and misses add up to the keys asked. An unreachable Redis is an error without result, unless no key is asked. |
| `BloomCache.CacheManager.Set` | base/infrastructure/redis/cacheManager.go:44-84 | Succeeds if and only if Redis takes the write and the value marshals; a nil value is stored as the null marker and adds nothing to the filter. |
| `BloomCache.ReadAfterWrite` | base/infrastructure/redis/cacheManager.go:44-129 | After a write the key reads as the new value, or as nothing for a nil one, and every other key as before; a write that fails changes nothing, and only a real value with an item puts an add on its way. |
| `BloomCache.ReadAfterDelete` | base/infrastructure/redis/cacheManager.go:132-134 | After a deletion the key reads as nothing, and every other key as before, through the filter or not. |
| `BloomCache.ReadAfterAdd` | base/infrastructure/redis/cacheManager.go:74-81 | A completed add puts its item, and no other, into the filter, and takes one add off the pending ones; no plain read changes. |
| `BloomCache.EveryValueIsCovered` | base/infrastructure/redis/cacheManager.go:44-84 | After every run of writes, completed adds and deletions, the item of every real value is in the filter or in a pending add. |
| `BloomCache.GuardedEqualsPlainOnceDrained` | base/infrastructure/redis/cacheManager.go:88-129 | With no add pending, the guarded read equals the unguarded one for every key, false positives and filter failures included. |
| `BloomCache.GuardedDiffersOnlyWhileAdding` | base/infrastructure/redis/cacheManager.go:88-129 | The two reads differ if and only if the key has a real value and a working filter denies its item, and then that item's add is still pending. |
| `BloomCache.FreshValueIsHidden` | base/infrastructure/redis/cacheManager.go:74-81 | Such a moment exists right after a write. |
| `Paging.SortedListsAll` | base/store/channelMessage/query.go:32-34 | The sorted result lists every selected id exactly once, in strict order. |
| `Paging.WhatAPageHolds` | base/store/channelMessage/query.go:27-34 | A page lists the first ids past the cursor in strict order, as many as there are up to the limit, and leaves none out before the last it lists. |
| `Paging.PagesListEverything` | base/store/channelMessage/query.go:27-34 | Following the cursor terminates and lists every id of the first snapshot exactly once in strict order, for every page size, even if rows beyond the start are added between pages. |
| `ChannelMessageQuery.HistoryIsComplete` | base/store/channelMessage/query.go:19-55 | Paging back through a channel lists every matching message of the first page's moment once, newest first, for every limit, while newer messages arrive. |
| `ChannelMessageQuery.GetServerChannelLastMessages` | base/store/channelMessage/query.go:19-92 | An error exactly when MongoDB fails; else the newest messages that are of this channel, not deleted and older than the cursor, newest first, up to the limit (at most 100; all for 0), each as stored and with its author, or all without when the user query fails or the page has more than 100 authors, which a positive limit excludes. |
| `ServerMemberQuery.MemberListIsComplete` | base/store/server/query.go:201-230 | With positive member ids, on a fixed table, for every requested limit after default and clamp, following the cursor comes to an end and has listed every member once in ascending order. |
| `ServerMemberQuery.MemberPagingEndsExactly` | base/store/server/query.go:201-230 | For all integer ids: following the cursor, where 0 or less asks for the first page, comes to an end if and only if the first page is empty or ends in a positive id, and whenever it ends it has listed every member once in ascending order. |
| `ServerMemberQuery.GetServerMembers` | base/store/server/query.go:201-277 | An error exactly when the database fails; else the first members of this server that have a user and come after a positive cursor, in ascending order, up to the limit (100 by default, at most 200), each with its own user. |
| `KafkaHeaders.ParseKafkaMessageHeaders` | base/infrastructure/kafka/utils.go:22-58 | The last-wins loop gives every field the last valid header of its own name, or its default; the two default times are two clock readings. |
| `KafkaHeaders.LastValidID` | base/infrastructure/kafka/utils.go:22-58 | The last header of a name that holds a valid id decides; with none the id is 0. |
| `KafkaHeaders.LastValidMillis` | base/infrastructure/kafka/utils.go:22-58 | The last header of a name that holds a number decides; with none, or no header at all, the time of reading stands. |
| `KafkaHeaders.WithoutHeaders` | base/infrastructure/kafka/utils.go:22-33 | A message without headers has no trace and no sender, and the two clock readings as its times. |
| `KafkaHeaders.Send` | base/infrastructure/kafka/producer.go:70-117 | Sender and publish time first, all extra headers in order, and a trace id or ingest time only if the extra headers have none. |
| `KafkaHeaders.SentNames` | base/infrastructure/kafka/producer.go:70-117 | What a consumer finds under each of the four names, and under any other, for all extra headers. |
| `KafkaHeaders.MetadataSurvivesHops` | base/infrastructure/kafka/producer.go:82-109 | After any number of hops that copy `trace_id` and `ingest_time`, the parsed metadata are the original trace id and ingest time and the last hop's sender and publish time. |
| `KafkaHeaders.ExtraHeadersMayReplaceTheUser` | base/infrastructure/kafka/producer.go:77-95 | The sender's id reaches the parser if and only if the extra headers name no other valid user. |
| `Decimal.ParseUint64Meaning` | base/utils/snowflake.go:35-51 | The parser with its wrapping 64-bit arithmetic accepts exactly the non-empty digit strings below 2^64 and returns their value. |
| `Decimal.ParsePrintedInt` | base/infrastructure/kafka/utils.go:43-53 | Printing and parsing a signed 64-bit integer gives it back. |
| `Decimal.ParseInt64Meaning` | base/infrastructure/kafka/utils.go:43-53 | Accepted as a time are exactly the digit strings, signed or not, within the 64-bit range, with their value. |
| `Decimal.WrittenInDecimal` | base/infrastructure/kafka/producer.go:76-77 | Printed numbers, a negative one among them, digit by digit. |
| `Decimal.ReadInDecimal` | base/utils/snowflake.go:35-51 | Read numbers, digit by digit. |
| `Snowflake.ValidSnowflakeIDMeaning` | base/utils/snowflake.go:35-51 | Accepted are exactly the non-empty digit strings of value 1 to 2^63-1, and the id is that value. |
| `Snowflake.PrintedIDParses` | base/utils/snowflake.go:35-51 | The printed form of an id is accepted if and only if it is positive, and gives that id. |
| `RedisKeys.SameKeySameBuilder` | base/lib/redisKeys/redisKeys.go:12-43 | Keys of different builders differ, whatever the ids and codes. |
| `RedisKeys.CacheKeyInjective` | base/lib/redisKeys/redisKeys.go:12-43 | Two builder calls give one key if and only if they are the same builder with the same argument, invite codes being arbitrary strings. |
| `RedisKeys.KeysInFull` | base/lib/redisKeys/redisKeys.go:12-43 | The six keys in full, at sample arguments. |
| `Base64Url.DecodeInvertsEncode` | base/lib/passport/passport.go:30-59 | Padded base64url (section 5 of RFC 4648): decoding inverts encoding for every byte string. |
| `Base64Url.LineBreaksDoNotMatter` | base/lib/passport/passport.go:58-61 | A line break anywhere in a payload makes no difference to the decoder. |
| `Base64Url.StandardVectors` | base/lib/passport/passport.go:30-43 | The short test vectors of section 10 of RFC 4648. |
| `Base64Url.LongerVectors` | base/lib/passport/passport.go:30-43 | Its longest one, and the two characters that make the alphabet URL-safe. |
| `Base64Url.MalformedTexts` | base/lib/passport/passport.go:58-61 | A length that is no multiple of four and a character outside the alphabet are refused. |
| `Base64Url.PaddingEndsTheText` | base/lib/passport/passport.go:58-61 | Padding before the end is refused. |
| `Base64Url.EncodedAlphabet` | base/lib/passport/passport.go:30-43 | Encoded text has no '.' and no line break. |
| `PassportToken.TokenSplits` | base/lib/passport/passport.go:38-45 | Splitting a token at dots gives back payload and signature, for every payload without a dot. |
| `PassportToken.VerifySigned` | base/lib/passport/passport.go:25-75 | Verifying a signed passport with the same secret returns it until it expires, and then the expiry error. |
| `PassportToken.OtherSecret` | base/lib/passport/passport.go:41-56 | Under another secret a signed token is refused for its signature if and only if the two secrets give its payload different MACs. |
| `PassportToken.BadFormatExactly` | base/lib/passport/passport.go:45-48 | A token is refused for its format if and only if it has not exactly one dot. |
| `PassportToken.RefusedTokenHasItsReason` | base/lib/passport/passport.go:45-75 | For every payload and signature, one if-and-only-if per reason: another MAC, text that is no base64, bytes that are no passport, expiry. |
| `PassportToken.AcceptedExactlyWhenSigned` | base/lib/passport/passport.go:41-75 | A token is accepted as a passport if and only if it is unexpired and is a decodable payload, a dot and that payload's own MAC. |

## Left out

- HTTP handlers, middleware, proxies, start-up and shutdown, and the clients of the databases: plumbing.
- Rate limiting, JWT, bcrypt, compression and the hashing inside the Bloom filter: library internals.
- `singleflight` sharing beyond an acceptor that takes over another's reload.
- Real clocks, tickers and timers: they are steps that may happen at any time, and clock readings are arbitrary.
- Metrics other than the success and failure counts of a batch; logging.
- The single-message consumer modes and the deprecated `broadcastRequest` are left out.
- The Debezium connector set-up and its retry loop, random code generation, the simple create, read, update queries.
- The 32-bit width of `used_count` and `totalClients`: both are unbounded here.
- Replies of a script or statement that took effect but whose answer was lost.
- Redelivery of member-row events: the handler is not idempotent, and events are taken as consumed once.
- Message fields that neither the checks nor the keys look at (edit time, author cache of stored documents).
- InviteProtocol.Step: one invite and one server; the other rows of the members table enter as inserts and removals.
- InviteAcceptance.Backend.AcceptServerInviteAndCreateMember: the reload also writes the invite's own cache entry; here
  whether an invite is cached is an answer of each call.
- InviteAcceptance.Backend.ConsumeServerInviteCache: a script reply that is no integer, which these scripts do not give.
- InviteAcceptance.Backend.RollbackConsumeServerInviteCache: the same.
- BatchConsumer.Consumer.Process: a commit that Kafka refuses is not told apart from one it takes.
- HubCode.Hub.SubscribeRoom: the undisturbed call; what others do between its lock regions is in HubProtocol.
- HubServing.JoinPanicsOnNilRoom: the recovery itself; the client stays where it panicked and is never counted out.
- RoomBroadcaster.Broadcaster.Flush: serialising the batch is taken to succeed; a failure drops the batch in the code.
- RoomBroadcaster.Broadcaster.Run: what is still queued when the goroutine ends stays there.
