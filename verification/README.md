# Messaging model

A Dafny model of a messaging library whose in-memory bus is its executable specification. The main
subject is that bus (`dotnet/src/Messaging.InMemory/InMemoryBus.cs`); around it stand the RabbitMQ
retry loop, the Artemis selector translation, the idempotency window, the in-memory scheduler and
the SSE routing that is built on the bus.

The bus is modelled twice, and the two are tied together.

* **As objects.** `InMemoryQueue` and `InMemoryBus` hold the classes with the program's fields, loops
  and in-place updates. Each lock block is a method, and its `ensures` says that it does to the object
  exactly what the corresponding event does to the machine below.
* **As a machine of lock blocks.** `QueueSteps`, `QueueCells` and `BusMachine` give each lock block as a
  function of the state. Work that waits outside the lock is part of the state: pumps that threads still
  owe, republishes in transit, parked retries, expiry timers. An event that is not due changes nothing, so
  every list of events is a run, and every interleaving of threads, timers and handlers is such a list.
  A ledger beside each queue records what has happened to it and is read by no step. It says where each
  copy is, how often it was delivered, and how each delivery ended.

`StepOutcomes` says what each step comes to for its callers, in terms of the options they gave and the places a copy
can be in, without the functions that the steps are made of.

Theorems about runs (`Guarantees`, `Settlements`, `Fairness`, `LogAgreement`, `DeadLetters`, `DeadLetterAddresses`, `Dedup`, `Termination`,
`Partitioning`, `QueueKeys`, `IdempotentBus`, `SseRouting`) hold for every list of events from the empty bus. They
rest on one invariant, `BusInvariants.BusOk`, kept by every event; `Custody`, `Holders`, `WakeUp`, `Accounts` and `Lanes` prove its parts step by step.

Several things a reader would expect of the bus are not so. Each comes with a run on which it fails, most of them
in `Exceptions`, and with exactly when it holds:

* An expiry that takes a message out of flight frees a consumer without a pump, and a later settle returns
  early. The wake-up is lost exactly when nobody else owes a pump and something waits for that consumer.
* A requeueing nack puts the message behind later ones of its lane (its group, or its priority). A lane stays in publish
  order along a run exactly when no such nack, and no delayed retry, comes back behind others of the lane.
* A drop returns a message without looking at `MaxDeliveries`, and is the only step that does.
* A parked retry is neither pending nor in flight, so its expiry timer misses it for good.
* On a `PartitionByGroup` queue the `SingleActiveConsumer` flag has no effect on any step.
* Topic and subscriber id are joined by a space, so a subscriber can land on the queue of a topic that contains one; and an
  anonymous subscriber can share a queue with one that asked for its id by name.
* Settlement is checked by message and holder and not by delivery. A handler that nacks for requeue and then acks,
  on one delivery, acks the redelivery. A settle ends another delivery exactly when its own is not the latest of
  the message and the same consumer holds the message again (`Settlements`).

(`WakeUp` and `Lanes` have the step conditions of the first two and `Guarantees` the conditions over runs;
`Partitioning` and `QueueKeys` hold the fifth and the sixth.) More are in the adapters:

* The Artemis selector text puts the pattern between quotes as it is. It is read as the comparison that was meant
  exactly when the pattern has no quote, and agrees with the pattern on every key exactly when, besides, the
  pattern has no wildcard or is just `#`. One pattern with quotes gives a text that is no selector, another a
  text that accepts every key.
* RabbitMQ subscriptions that set `TtlMs` together with a retry delay overwrite the dead-letter exchange, and
  rejected messages leave the retry loop.
* A message published with an expiration of its own can expire in the main queue of a retry subscription. The adapter
  reads that as a rejection. Of a limit of two deliveries it then gets one; every other limit is met exactly.
* The idempotency store marks a key before the inner handler runs. A redelivery within the window is acked whether or
  not an inner run succeeded, and that is the only way a message is acked unprocessed (`IdempotentBus`).
* Subscriber ids of SSE connections can clash between instances whose ids contain dots, and only then.

Where code and comments disagree the model follows the code. The comment on `idempotentHandler`
(`typescript/src/idempotency/idempotency-store.ts:27-30`) says that a store that throws surfaces an error;
the throw is commented out, so the handler fails open and runs the inner handler.

## Model

| member | source | states |
|---|---|---|
| Guarantees.NoLostWakeUp | dotnet/src/Messaging.InMemory/InMemoryBus.cs:52-222 | Along every run: at every moment a thread owes the queue a pump or each pending message has to wait, if and only if no expiry along the run takes a message out of flight while no pump is owed and a pending message waits for the consumer it frees |
| Guarantees.OneEventSleepsExactly | dotnet/src/Messaging.InMemory/InMemoryBus.cs:64-72 | From a moment at which no wake-up is lost, an event loses one if and only if it is such an expiry |
| Guarantees.NothingLapsedNothingLost | dotnet/src/Messaging.InMemory/InMemoryBus.cs:52-222 | In particular when no expiry ever took a message of the queue out of flight |
| Guarantees.NothingDeliverableIsWaiting | dotnet/src/Messaging.InMemory/InMemoryBus.cs:142-158 | Nothing can be delivered if and only if nobody is attached or every pending message waits: for its group's busy owner, for the single active consumer, or for all consumers |
| Guarantees.APumpThatStopsLeavesNothing | dotnet/src/Messaging.InMemory/InMemoryBus.cs:134-158 | Whatever expiries did before, a pump that stops leaves nothing deliverable |
| Guarantees.CopiesAreConserved | dotnet/src/Messaging.InMemory/InMemoryBus.cs:43-72 | In every run each copy a queue took is in exactly one of pending, in flight, parked, acked, dead, expired; any other message is in none |
| Guarantees.StaleSettleIsInvisible | dotnet/src/Messaging.InMemory/InMemoryBus.cs:188-192 | A settle by anyone but the present holder leaves the whole bus unchanged |
| Settlements.HolderHasTheLatestDelivery | dotnet/src/Messaging.InMemory/InMemoryBus.cs:159-160 | In every run a message in flight is held by the consumer of its latest delivery, and that delivery alone of the message is under way |
| Settlements.SettleEndsAnotherDeliveryExactly | dotnet/src/Messaging.InMemory/InMemoryBus.cs:182-226 | In every run a settle through delivery k's object ends its own delivery if and only if that is under way, and another one if and only if k is not the latest of its message and the same consumer holds the message; never two |
| Exceptions.AckAfterNackEndsTheRedelivery | dotnet/src/Messaging.InMemory/InMemoryBus.cs:474-486 | A run on which a handler nacks for requeue and then acks on one delivery, and the ack ends the second delivery, which nobody settled |
| Guarantees.DeliveriesAreAccountedFor | dotnet/src/Messaging.InMemory/InMemoryBus.cs:117-126 | In every run the deliveries of a copy are exactly its effective settles, its returns by drops, its expiry in flight, and the one in flight; the delivery count is their number |
| Guarantees.HoldersAreInOrder | dotnet/src/Messaging.InMemory/InMemoryBus.cs:324-377 | In every run: prefetch one, holders attached, one message per group in flight and with the group's owner, only the first consumer holding on a single-active queue |
| Guarantees.LaneStaysInOrderExactly | dotnet/src/Messaging.InMemory/InMemoryBus.cs:200-219 | Along every run: a group of a partitioned queue, or a priority of a single-active one, stands in publish order at every moment if and only if no settle puts a message of it straight back while another of it is pending, and no delayed retry of it comes back with another pending or a newer one delivered |
| Guarantees.DeliveryFollowsPublishOrder | dotnet/src/Messaging.InMemory/InMemoryBus.cs:117-160 | Then the deliveries of that group or priority follow publish order across any number of failovers, whatever the others do |
| Guarantees.UnnackedLaneFollowsPublishOrder | dotnet/src/Messaging.InMemory/InMemoryBus.cs:117-160 | In particular when nothing of it was nacked back; and a copy never nacked back is delivered at most once more than drops returned it |
| Guarantees.RedeliveryIsBounded | dotnet/src/Messaging.InMemory/InMemoryBus.cs:122-126 | In every run a copy is delivered at most max(1, MaxDeliveries) times plus the times a drop returned it |
| Guarantees.AlwaysRequeuedDiesAtItsLimit | dotnet/src/Messaging.InMemory/InMemoryBus.cs:200-219 | A copy that was only ever nacked for requeue and is gone was delivered exactly max(1, MaxDeliveries) times and then died, with or without a retry delay |
| Guarantees.OnlyTimedMessagesExpire | dotnet/src/Messaging.InMemory/InMemoryBus.cs:57-58 | In every run only copies published with a TTL of zero or more expire |
| StepOutcomes.AckByTheHolder | dotnet/src/Messaging.InMemory/InMemoryBus.cs:188-196 | An ack by the holder takes the copy out of flight for good and does nothing else but owe a pump |
| StepOutcomes.RejectByTheHolder | dotnet/src/Messaging.InMemory/InMemoryBus.cs:197-199 | A reject by the holder, under every configuration and count, takes the copy out of flight into the dead, leaves pending and parked alone, and on a dead-lettering queue adds exactly its republish to what is under way |
| StepOutcomes.RequeueByTheHolder | dotnet/src/Messaging.InMemory/InMemoryBus.cs:200-219 | A requeueing nack by the holder: at the limit the copy dies as above; below it the copy goes to the back of the queue when there is no delay, or one of zero or less, and is parked when there is a positive one, dead-lettering queue or not |
| StepOutcomes.DelayedRetry | dotnet/src/Messaging.InMemory/InMemoryBus.cs:214-218 | A parked copy whose delay is over goes to the back of the queue, and a pump is owed |
| StepOutcomes.DropReturnsToTheFront | dotnet/src/Messaging.InMemory/InMemoryBus.cs:113-127 | A consumer that drops leaves the list at its first place; what it holds goes back to the front, and nothing dies |
| StepOutcomes.ExpiryTimer | dotnet/src/Messaging.InMemory/InMemoryBus.cs:64-72 | An expiry timer removes a pending or in-flight copy and adds exactly its republish; a copy that is neither stays where it is; no pump is owed for it |
| StepOutcomes.RepeatedPublish | dotnet/src/Messaging.InMemory/InMemoryBus.cs:36 | A publish whose dedup id was seen does nothing |
| StepOutcomes.PublishIsLogged | dotnet/src/Messaging.InMemory/InMemoryBus.cs:36-42 | Any other is remembered by its dedup id and adds one line with its body, key and options to the log of its topic, and to no other log |
| StepOutcomes.PublishReaches | dotnet/src/Messaging.InMemory/InMemoryBus.cs:43-58 | It gives exactly one copy to each queue of its topic that is fanout, unfiltered, or has a pattern that aligns with the key, arming a timer exactly for a TTL of zero or more, and leaves every other queue as it is |
| StepOutcomes.FirstSubscribe | dotnet/src/Messaging.InMemory/InMemoryBus.cs:78-110 | A subscriber whose key is new gets its own queue with its options, three deliveries unless it says otherwise, and with replay exactly the logged messages it hears, in order and without timers |
| StepOutcomes.LaterSubscribe | dotnet/src/Messaging.InMemory/InMemoryBus.cs:82-109 | Any other joins the queue of its key as last consumer; options and contents stay |
| StepOutcomes.PumpDelivers | dotnet/src/Messaging.InMemory/InMemoryBus.cs:134-161 | A turn hands one pending copy to an attached consumer that holds nothing, counted once, or hands out nothing and ends |
| StepOutcomes.SomebodyTakesIt | dotnet/src/Messaging.InMemory/InMemoryBus.cs:324-339 | On an unpartitioned queue something is delivered if and only if something is pending and somebody may take it; on a single-active one it goes to the first consumer |
| StepOutcomes.HighestPriorityFirst | dotnet/src/Messaging.InMemory/InMemoryBus.cs:281 | On an unpartitioned queue what is delivered was published with the highest priority of all pending, none counting as zero, and is the earliest of those |
| StepOutcomes.LaterButHigherGoesFirst | dotnet/src/Messaging.InMemory/InMemoryBus.cs:432-440 | A run on which a message published later with a higher priority is delivered first |
| StepOutcomes.GroupsGoInTurn | dotnet/src/Messaging.InMemory/InMemoryBus.cs:349-377 | On a partitioned queue the earliest pending message whose published group may go is delivered, to the group's owner if it has one, who owns it from then on; nothing is if and only if no group may go |
| Exceptions.ExpiryLosesAWakeUp | dotnet/src/Messaging.InMemory/InMemoryBus.cs:64-72 | A run after which a message could be delivered and no thread owes a pump |
| WakeUp.ExpiryLosesWakeUpExactly | dotnet/src/Messaging.InMemory/InMemoryBus.cs:64-72 | Whatever earlier expiries did: an expiry loses the wake-up if and only if no pump is owed, it takes the message out of flight, and some pending message waits for the consumer it frees |
| WakeUp.StepSleepsExactly | dotnet/src/Messaging.InMemory/InMemoryBus.cs:64-72 | Of all steps of a queue only such an expiry loses a wake-up |
| Exceptions.RequeueBreaksOrder | dotnet/src/Messaging.InMemory/InMemoryBus.cs:200-204 | A run on a single-active queue whose deliveries step back after a requeueing nack |
| Lanes.SettleKeepsOrderExactly | dotnet/src/Messaging.InMemory/InMemoryBus.cs:189-205 | A settle keeps a lane in publish order if and only if it does not put a message of the lane straight back while another of it is pending; other lanes may be in any state |
| Lanes.RetryKeepsOrderExactly | dotnet/src/Messaging.InMemory/InMemoryBus.cs:214-218 | A delayed retry keeps a lane in order if and only if it is of another lane, or nothing of its lane is pending and nothing newer of it was delivered |
| Exceptions.DropExceedsTheLimit | dotnet/src/Messaging.InMemory/InMemoryBus.cs:122-126 | A run on which a copy granted one delivery is delivered twice |
| Exceptions.OnlyDropsExceedTheLimit | dotnet/src/Messaging.InMemory/InMemoryBus.cs:122-126 | A step queues a copy for a delivery beyond its limit if and only if it drops the consumer that holds the copy on its last delivery |
| Exceptions.ExpiryTakesExactlyTheUnconsumed | dotnet/src/Messaging.InMemory/InMemoryBus.cs:399-403 | An expiry timer expires the copy if and only if it is pending or in flight at that moment, and does not run again |
| Exceptions.ParkedMessageNeverExpires | dotnet/src/Messaging.InMemory/InMemoryBus.cs:208-219 | A timer that fires on a parked copy changes nothing and emits nothing, and in no later run does the copy expire |
| Exceptions.DeliveredAfterItsExpiry | dotnet/src/Messaging.InMemory/InMemoryBus.cs:208-219 | A run on which a message is delivered again after its expiry timer fired |
| Partitioning.PartitioningHidesSingleActive | dotnet/src/Messaging.InMemory/InMemoryBus.cs:143-158 | On a partitioned queue every step leaves the same queue whatever the single-active flag |
| Partitioning.EmitsIgnoresSingleActive | dotnet/src/Messaging.InMemory/InMemoryBus.cs:207-231 | Nor does the flag change what a step leaves to republish |
| Partitioning.PartitionedRunsHideSingleActive | dotnet/src/Messaging.InMemory/InMemoryBus.cs:143-158 | Over every run: with the flag of all partitioned subscriptions set either way, the two final buses differ in that flag only |
| QueueKeys.KeysClashExactly | dotnet/src/Messaging.InMemory/InMemoryBus.cs:27 | Two (topic, subscriber) pairs share a key if and only if they are equal or the longer topic runs on, past a space, into the other's subscriber id |
| QueueKeys.TopicIsMistakenExactly | dotnet/src/Messaging.InMemory/InMemoryBus.cs:27 | A topic can be mistaken for a shorter one if and only if it contains a space |
| QueueKeys.SubscribersJoinTheirOwnTopic | dotnet/src/Messaging.InMemory/InMemoryBus.cs:78-109 | After every run on topics without spaces a new subscriber joins, as last consumer, a queue of the topic it asked for |
| QueueKeys.JoinsAnotherTopicExactly | dotnet/src/Messaging.InMemory/InMemoryBus.cs:78-109 | After every run a subscriber joins a queue of another topic if and only if there is a queue whose topic runs on, past a space, into the subscriber's id, or whose subscriber's id the topic runs on into |
| QueueKeys.JoinsAnotherTopic | dotnet/src/Messaging.InMemory/InMemoryBus.cs:78-109 | A run on which the subscriber of topic `a` ends up on the queue of topic `a b` |
| QueueKeys.AnonymousGetsItsOwnExactly | dotnet/src/Messaging.InMemory/InMemoryBus.cs:80-82 | After every run an anonymous subscriber gets a queue of its own if and only if nobody before it asked by name for the key it is given |
| QueueKeys.AnonymousSharesAQueue | dotnet/src/Messaging.InMemory/InMemoryBus.cs:80-82 | A run on which an anonymous subscriber shares the queue of one that asked for `sub-1` |
| LogAgreement.HistoryIsFilteredLog | dotnet/src/Messaging.InMemory/InMemoryBus.cs:36-50 | In every run, what a queue first took is its topic's log from the queue's start offset, filtered by its match, up to ids |
| LogAgreement.SameContentExactly | dotnet/src/Messaging.InMemory/InMemoryBus.cs:105-107 | Agreement up to ids is agreement in body, key and options |
| LogAgreement.HistoryStartsWithTheOption | dotnet/src/Messaging.InMemory/InMemoryBus.cs:82-107 | Whatever happens after a queue's creation, its history is the matching log from line 0 when it was created with `StreamReplay`, and from the log's length at creation when not |
| LogAgreement.ReplayersSeeTheSameHistory | dotnet/src/Messaging.InMemory/InMemoryBus.cs:97-107 | Two queues created with `StreamReplay` and the same filter, at any two moments of a run, have the same history |
| LogAgreement.CreatedAgrees | dotnet/src/Messaging.InMemory/InMemoryBus.cs:82-107 | A queue just created agrees with the log from its start offset, which is 0 when it replays and the log's length otherwise |
| DeadLetters.DeadLettersAreConserved | dotnet/src/Messaging.InMemory/InMemoryBus.cs:189-232 | In every run each dead copy of a dead-lettering queue and each expired copy has exactly one log line at its address or one republish in transit, nothing else has, and each such line has the copy's body and routing key and no options |
| DeadLetters.EmitsExactly | dotnet/src/Messaging.InMemory/InMemoryBus.cs:195-207 | What a step adds to the dead and the expired is exactly what it leaves to republish |
| DeadLetterAddresses.LinesStandAtTheirAddress | dotnet/src/Messaging.Abstractions/IMessageBus.cs:205-213 | In every run each republished line in the log of a topic stems from a dead copy of a dead-lettering queue on some t, and then stands in the log of `t.dlq`, or from an expired one, and then in that of `t.expiry`, with the copy's body and key |
| DeadLetterAddresses.EachHasOneLine | dotnet/src/Messaging.InMemory/InMemoryBus.cs:228-232 | In every run each dead copy of a dead-lettering queue on t has exactly one line at `t.dlq` or one republish under way, and each expired one at `t.expiry` |
| DeadLetterAddresses.DlqTakesOnlyDeadLetters | dotnet/src/Messaging.Abstractions/IMessageBus.cs:200-205 | In every run a queue on `t.dlq` takes only what was published there and dead letters of queues on t |
| DeadLetterAddresses.ForwardLogs | dotnet/src/Messaging.InMemory/InMemoryBus.cs:228-232 | Performing a republish logs one line, at `t.dlq` for a dead copy and `t.expiry` for an expired one, and remembers no dedup id |
| DeadLetterAddresses.RejectedGoesToTheDlq | dotnet/src/Messaging.InMemory/InMemoryBus.cs:189-232 | The run of publish, deliver, reject and forward: one line at `t.dlq`, none at `t.expiry` |
| Termination.DeliveriesAreFinite | dotnet/src/Messaging.InMemory/InMemoryBus.cs:189-232 | From any reachable bus, every run without outside publishes, subscribes and drops makes at most a number of deliveries known beforehand, dead-letter and expiry republishes included |
| Termination.ApplySpends | dotnet/src/Messaging.InMemory/InMemoryBus.cs:64-72 | No internal event raises the potential: remaining deliveries of live copies plus the weight of the queues their republishes can still reach |
| Termination.RepublishCosts | dotnet/src/Messaging.Abstractions/IMessageBus.cs:205-213 | A republish without options adds at most the weight of its address, which is finite because addresses strictly lengthen |
| Dedup.ErasureIsInvisible | dotnet/src/Messaging.InMemory/InMemoryBus.cs:36 | Deleting from a run every publish whose dedup id was used before, on any topic, leaves the same final bus |
| Dedup.ErasedIsUnrepeated | dotnet/src/Messaging.InMemory/InMemoryBus.cs:15-17 | What is left publishes each dedup id of the run, and none twice |
| Dedup.SeenIsWhatWasPublished | dotnet/src/Messaging.InMemory/InMemoryBus.cs:36 | In every run the bus has seen exactly the dedup ids published, on any topic |
| Dedup.RepeatsExactly | dotnet/src/Messaging.InMemory/InMemoryBus.cs:36 | A repeat is a publish whose dedup id was used before, and nothing else |
| Dedup.RepublishIsNeverDropped | dotnet/src/Messaging.InMemory/InMemoryBus.cs:228-232 | Dedup never drops a dead-letter or expiry republish: it is logged and leaves transit |
| BusInvariants.ReachableIsOk | dotnet/src/Messaging.InMemory/InMemoryBus.cs:11-225 | Every bus reached from the empty one keeps conservation, holders, wake-ups, delivery accounts, lanes, ascending ids and distinct keys |
| BusInvariants.ApplyKeepsOk | dotnet/src/Messaging.InMemory/InMemoryBus.cs:29-225 | Every event keeps that invariant |
| Custody.StepConserves | dotnet/src/Messaging.InMemory/InMemoryBus.cs:399-406 | Every step of a queue keeps each copy's places adding up to the times it was first enqueued |
| Custody.ExactlyOnePlace | dotnet/src/Messaging.InMemory/InMemoryBus.cs:300-301 | In a conserved queue a copy is in exactly one of the six places, and in pending at most once |
| Holders.StepKeepsHeld | dotnet/src/Messaging.InMemory/InMemoryBus.cs:117-160 | Every step keeps prefetch one, attached holders, the single active holder and group ownership |
| Holders.OneInFlightPerGroup | dotnet/src/Messaging.InMemory/InMemoryBus.cs:302-306 | On a partitioned queue two messages in flight of one group are the same message |
| Holders.OwnerChangesOnlyWhenItLeaves | dotnet/src/Messaging.InMemory/InMemoryBus.cs:357-372 | A group keeps its owner over any step after which the owner is still attached |
| WakeUp.StepKeepsAwake | dotnet/src/Messaging.InMemory/InMemoryBus.cs:52-60 | Every step keeps: a deliverable pair is owed a pump, unless an expiry took a message out of flight |
| Accounts.SettledAtMostSent | dotnet/src/Messaging.InMemory/InMemoryBus.cs:189-205 | Effective settles of a copy never exceed its deliveries |
| Accounts.StepBalances | dotnet/src/Messaging.InMemory/InMemoryBus.cs:159-192 | Every step keeps the delivery count equal to recorded deliveries, and those equal to the ones ended or in flight |
| Accounts.StepBounds | dotnet/src/Messaging.InMemory/InMemoryBus.cs:200-204 | Every step keeps the bound on deliveries, with a delivery left for each waiting copy that no drop returned |
| Lanes.StepKeepsLaneExactly | dotnet/src/Messaging.InMemory/InMemoryBus.cs:117-126 | On an ordered queue a step keeps delivered, in-flight and pending copies of a lane in publish order if and only if it puts nothing of the lane back where it disturbs it |
| Lanes.RepeatsOnlyAfterDrops | dotnet/src/Messaging.InMemory/InMemoryBus.cs:117-126 | A copy never nacked back is delivered at most once more than drops returned it |
| GroupScan.GroupDeliveryIsExact | dotnet/src/Messaging.InMemory/InMemoryBus.cs:349-377 | The group scan finds nothing if and only if each pending message's group has a busy attached owner, or none while all are busy; what it finds is the earliest pending message of its group |
| GroupScan.PumpIsExact | dotnet/src/Messaging.InMemory/InMemoryBus.cs:140-161 | The Pump block delivers if and only if something can be delivered; it moves exactly one message to a free attached consumer, or changes only the cursor and dead owners |
| GroupScan.ScanMeetsContract | dotnet/src/Messaging.InMemory/InMemoryBus.cs:353-376 | However the scan edits affinity and cursor on its way, it returns the first message that could go at the start and pins only its group |
| PriorityDrain.BestIsFirstMax | dotnet/src/Messaging.InMemory/InMemoryBus.cs:432-437 | The scan picks the first message of the highest priority |
| PriorityDrain.DrainIsTheStableSort | dotnet/src/Messaging.InMemory/InMemoryBus.cs:390-396 | Draining a pending list gives its stable sort by descending priority, and nothing else is that sort |
| RoundRobin.NextConsumerIsExact | dotnet/src/Messaging.InMemory/InMemoryBus.cs:324-339 | Outside single-active queues no consumer is found if and only if all are busy; the one found is attached and free |
| RoundRobin.PickIsExact | dotnet/src/Messaging.InMemory/InMemoryBus.cs:379-388 | The cursor loop finds a consumer if and only if one is free |
| RoundRobin.RoundRobinIsFair | dotnet/src/Messaging.InMemory/InMemoryBus.cs:379-388 | A consumer that is free at each of n picks, n the number of consumers, is chosen by one of them |
| Fairness.FreeConsumerIsServedWithinARound | dotnet/src/Messaging.InMemory/InMemoryBus.cs:324-339 | On a plain queue of n consumers, from any reachable state and over any run in which nobody joins or leaves, a consumer free at the start gets one of the next n deliveries |
| Fairness.FreeConsumerGetsAGroup | dotnet/src/Messaging.InMemory/InMemoryBus.cs:349-388 | On a partitioned queue of n consumers, over any run in which nobody joins or leaves, a consumer free at the start is delivered something by the time n groups have found an owner |
| TopicMatching.AcceptsIffAligned | dotnet/src/Messaging.InMemory/InMemoryBus.cs:255-267 | The matcher accepts if and only if the key's words split into runs aligned with the pattern's words, as in section 3.1.3.3 of AMQP 0-9-1 |
| TopicMatching.Match | dotnet/src/Messaging.InMemory/InMemoryBus.cs:255-267 | The matcher with its loop over `#` terminates and decides acceptance from any position |
| TopicMatching.ComputeTopicMatch | dotnet/src/Messaging.InMemory/InMemoryBus.cs:248-253 | Splitting at dots and matching decides acceptance of the key |
| TopicMatching.AcceptsAt | dotnet/src/Messaging.InMemory/InMemoryBus.cs:257-266 | What each word of the pattern asks of the rest of the key, from any position |
| TopicMatching.AcceptsIsACongruence | dotnet/src/Messaging.InMemory/InMemoryBus.cs:244-267 | Pattern parts that accept the same keys can replace each other inside any pattern |
| TopicMatching.HashLaws | dotnet/src/Messaging.InMemory/InMemoryBus.cs:244-267 | `#.#` is `#`, and `#.*` is `*.#`, inside any pattern |
| TopicMatching.LiteralMatchIsEquality | dotnet/src/Messaging.InMemory/InMemoryBus.cs:264-266 | A pattern without wildcard words accepts its own key and no other |
| InMemoryQueue.PendingQueue.DequeueHighestPriority | dotnet/src/Messaging.InMemory/InMemoryBus.cs:432-440 | Takes out the message the priority scan picks and leaves the others in order |
| InMemoryQueue.PendingQueue.Remove | dotnet/src/Messaging.InMemory/InMemoryBus.cs:424 | Removes the first occurrence and tells whether there was one |
| InMemoryQueue.BusQueue.Matches | dotnet/src/Messaging.InMemory/InMemoryBus.cs:309-314 | Fanout and unfiltered queues take everything, others what their pattern accepts |
| InMemoryQueue.BusQueue.PickFreeConsumer | dotnet/src/Messaging.InMemory/InMemoryBus.cs:379-388 | The loop returns the pick and leaves the cursor where the pick function does |
| InMemoryQueue.BusQueue.NextConsumer | dotnet/src/Messaging.InMemory/InMemoryBus.cs:324-339 | The same for the plain queue, single-active included |
| InMemoryQueue.BusQueue.NextGroupDelivery | dotnet/src/Messaging.InMemory/InMemoryBus.cs:349-377 | The loop that edits affinity, cursor and pending list in place finds, pins and removes what the scan function says |
| InMemoryQueue.BusQueue.PumpOnce | dotnet/src/Messaging.InMemory/InMemoryBus.cs:140-161 | One turn leaves the queue and returns the delivery as the Pump block does |
| InMemoryQueue.BusQueue.Pump | dotnet/src/Messaging.InMemory/InMemoryBus.cs:134-180 | The whole loop, uninterrupted, terminates, makes the deliveries of a drained queue and leaves nothing deliverable |
| InMemoryQueue.PumpIsItsTurns | dotnet/src/Messaging.InMemory/InMemoryBus.cs:134-180 | The uninterrupted loop is an interleaving of the machine: the same queue and deliveries, and one owed pump less |
| InMemoryQueue.BusQueue.Settle | dotnet/src/Messaging.InMemory/InMemoryBus.cs:188-206 | The settle block on the object: state and outcome as the machine's |
| InMemoryQueue.BusQueue.Drop | dotnet/src/Messaging.InMemory/InMemoryBus.cs:115-127 | The loop of the drop callback detaches the consumer and returns what it held to the front |
| InMemoryQueue.BusQueue.RemoveUnconsumed | dotnet/src/Messaging.InMemory/InMemoryBus.cs:399-403 | Takes the message out of pending, else out of flight, and tells whether it did |
| InMemoryBus.InMemoryBus.constructor | dotnet/src/Messaging.InMemory/InMemoryBus.cs:13-25 | A new bus is the empty machine state |
| InMemoryBus.InMemoryBus.PublishBlock | dotnet/src/Messaging.InMemory/InMemoryBus.cs:29-51 | The dedup check, the log line and the loop over the topic's queues turn the object into the machine's next state |
| InMemoryBus.InMemoryBus.EnqueueCopies | dotnet/src/Messaging.InMemory/InMemoryBus.cs:45-50 | The loop gives each matching queue of the topic its numbered copy and touches no other queue |
| InMemoryBus.InMemoryBus.Replay | dotnet/src/Messaging.InMemory/InMemoryBus.cs:103-107 | The seeding loop leaves exactly the logged messages that match, in order |
| InMemoryBus.InMemoryBus.SubscribeBlock | dotnet/src/Messaging.InMemory/InMemoryBus.cs:78-110 | Naming, lookup or creation, replay and attaching turn the object into the machine's next state |
| InMemoryBus.InMemoryBus.PumpTurn | dotnet/src/Messaging.InMemory/InMemoryBus.cs:140-161 | A turn of an owed pump on one queue of the bus is the machine's pump event |
| InMemoryBus.TurnIsRecorded | dotnet/src/Messaging.InMemory/InMemoryBus.cs:140-161 | The machine records exactly the delivery the turn makes; the thread is done exactly when it makes none |
| InMemoryBus.InMemoryBus.SettleBlock | dotnet/src/Messaging.InMemory/InMemoryBus.cs:186-206 | A settle on one queue of the bus is the machine's settle event |
| InMemoryBus.InMemoryBus.DropBlock | dotnet/src/Messaging.InMemory/InMemoryBus.cs:113-127 | A drop on one queue of the bus is the machine's drop event |
| InMemoryBus.InMemoryBus.RetryBlock | dotnet/src/Messaging.InMemory/InMemoryBus.cs:214-218 | A retry timer on one queue of the bus is the machine's retry event |
| InMemoryBus.InMemoryBus.ExpiryBlock | dotnet/src/Messaging.InMemory/InMemoryBus.cs:64-72 | An expiry timer on one queue of the bus is the machine's expiry event, and reports whether it took the copy |
| InMemoryBus.InMemoryBus.Forward | dotnet/src/Messaging.InMemory/InMemoryBus.cs:228-232 | Publishing a dead letter or an expired message is the machine's republish event |
| InMemoryBus.IncomingBusMessage.constructor | dotnet/src/Messaging.InMemory/InMemoryBus.cs:443-462 | The object stands for one recorded delivery, not settled |
| InMemoryBus.IncomingBusMessage.AckAsync | dotnet/src/Messaging.InMemory/InMemoryBus.cs:474-479 | An ack through delivery k's object is the machine's settle through delivery k, whether or not the object was settled before |
| InMemoryBus.IncomingBusMessage.NackAsync | dotnet/src/Messaging.InMemory/InMemoryBus.cs:481-486 | The same for a nack, for requeue or not |
| InMemoryBus.FirstDelivery | dotnet/src/Messaging.InMemory/InMemoryBus.cs:29-161 | Publishing to a new bus gives its one subscriber the message, with its body and routing key: a fanout subscriber, an unfiltered one, or one whose pattern aligns with the topic |
| RabbitRetry.NeverLost | dotnet/src/Messaging.RabbitMq/RabbitMqScheduler.cs:542-566 | With crashes and an expiry in the main queue at any point: a message the broker has forgotten was acked or is in the DLQ; deliveries are at most the limit plus crashes, DLQ copies at most one plus crashes |
| RabbitRetry.AlwaysRequeuedReachesDlqOnce | dotnet/src/Messaging.RabbitMq/RabbitMqScheduler.cs:542-566 | Without crashes an always-requeued message is forgotten with one DLQ copy, and none before; it was then delivered max(1, MaxDeliveries) times if and only if it did not expire in the main queue or the limit is not two |
| RabbitRetry.ExpirySpendsADelivery | dotnet/src/Messaging.RabbitMq/RabbitMqScheduler.cs:573-589 | A life in which a message with an expiration and two deliveries granted reaches the DLQ after one |
| RabbitRetry.LimitIsMetExactly | dotnet/src/Messaging.RabbitMq/RabbitMqScheduler.cs:508-566 | All its lives end after exactly the limit if and only if not all three hold: the message has an expiration, the queue parks, the limit is two |
| RabbitRetry.RetryLoopWorksExactly | dotnet/src/Messaging.RabbitMq/RabbitMqScheduler.cs:319-371 | With retry on, an always-requeued message can reach the DLQ if and only if the subscription sets no TTL or grants one delivery at most |
| RabbitRetry.TtlBreaksTheRetryLoop | dotnet/src/Messaging.RabbitMq/RabbitMqScheduler.cs:366-371 | A delay and a TTL set together: the first nack takes the message out of the loop and the DLQ never sees it |
| RabbitRetry.ArgumentsDeadLetter | dotnet/src/Messaging.RabbitMq/RabbitMqScheduler.cs:319-371 | The declared arguments park dead-lettered messages if and only if retry is on and no TTL is set; where they go otherwise |
| RabbitRetry.ArgumentsByName | dotnet/src/Messaging.RabbitMq/RabbitMqScheduler.cs:319-371 | Which arguments the main queue is declared with, name by name, for every set of options |
| RabbitRetry.ReachesDlqExactlyWhenParked | dotnet/src/Messaging.RabbitMq/RabbitMqScheduler.cs:319-371 | Of any wiring: the always-requeued message can reach the DLQ if and only if dead-lettered messages are parked or there is one delivery only |
| RabbitRetry.CrashCanDuplicate | dotnet/src/Messaging.RabbitMq/RabbitMqScheduler.cs:550-556 | A crash between the DLQ publish and the ack leaves two copies |
| RabbitRetry.AckedIsForgotten | dotnet/src/Messaging.RabbitMq/RabbitMqScheduler.cs:535-540 | An acked message is forgotten after one delivery and never reaches the DLQ |
| RabbitRetry.RejectedGoesToTheDlq | dotnet/src/Messaging.RabbitMq/RabbitMqScheduler.cs:542-556 | A rejected one is in the DLQ after its first delivery, whatever its limit |
| RabbitRetry.SameDecisionAsInMemory | dotnet/src/Messaging.RabbitMq/RabbitMqScheduler.cs:542-561 | Ack, give-up and requeue take the same decision as the in-memory settle on the same count |
| RabbitRetry.RejectionCounts | dotnet/src/Messaging.RabbitMq/RabbitMqScheduler.cs:573-589 | After a rejection the adapter reads the number of rejections so far, which is one more than before if and only if that is what it read before |
| RabbitRetry.ExpiryCountsToo | dotnet/src/Messaging.RabbitMq/RabbitMqScheduler.cs:573-589 | After an expiry in the main queue the adapter reads the number of expiries there, as if they were rejections |
| RabbitRetry.BounceDoesNotCount | dotnet/src/Messaging.RabbitMq/RabbitMqScheduler.cs:573-589 | The bounce out of the parking queue leaves what the adapter reads alone |
| RabbitRetry.ReadXDeathCount | dotnet/src/Messaging.RabbitMq/RabbitMqScheduler.cs:573-589 | The loop reads the count of the first entry of the queue that carries one |
| RabbitRetry.QueueArguments | dotnet/src/Messaging.RabbitMq/RabbitMqScheduler.cs:319-371 | The dictionary built option by option is the arguments function: with retry on it parks if and only if no TTL is set |
| RabbitRetry.IncomingMessage.constructor | dotnet/src/Messaging.RabbitMq/RabbitMqScheduler.cs:508-511 | The delivery count is what the x-death list reads for the main queue, plus one |
| RabbitRetry.IncomingMessage.AckAsync | dotnet/src/Messaging.RabbitMq/RabbitMqScheduler.cs:535-540 | Acks once, and only when nothing settled before |
| RabbitRetry.IncomingMessage.NackAsync | dotnet/src/Messaging.RabbitMq/RabbitMqScheduler.cs:542-566 | At most one settlement; a give-up publishes to the DLQ before it acks |
| SelectorText.ReadsAsMeantExactly | typescript/src/adapters/artemis.ts:397-403 | The emitted text is read as the comparison that was meant if and only if the pattern has no quote, by the string literals of section 3.8.1.1 of JMS 1.1 |
| SelectorText.EmittedTexts | typescript/src/adapters/artemis.ts:397-403 | Two selector texts in full, one of each form |
| SelectorText.SelectorCoversPattern | typescript/src/adapters/artemis.ts:397-403 | The emitted selector is read as meant and accepts every key the pattern accepts if and only if the pattern has no quote, and no word of it is `#` or it is just `#` |
| SelectorText.SelectorAgreesExactly | typescript/src/adapters/artemis.ts:397-403 | Emitted selector and pattern accept the same keys if and only if the pattern has no quote, and no wildcard character or is just `#` |
| SelectorText.SelectorAcceptsAlignedKey | typescript/src/adapters/artemis.ts:397-403 | For patterns without a quote the emitted selector accepts every key that aligns so that each `#` takes a word, by LIKE of section 3.8.1.1 of JMS 1.1 |
| ArtemisSelector.ComparisonCoversPattern | typescript/src/adapters/artemis.ts:397-403 | The comparison meant, for any pattern: it accepts every key the pattern accepts if and only if no word is `#` or the pattern is just `#` |
| ArtemisSelector.ComparisonAgreesExactly | typescript/src/adapters/artemis.ts:397-403 | The comparison meant, for any pattern: it accepts the same keys if and only if the pattern has no wildcard character or is just `#` |
| SelectorText.SelectorIsExactWithoutWildcards | typescript/src/adapters/artemis.ts:402 | For patterns without `*` and `#` emitted selector and pattern accept the same keys if and only if the pattern has no quote |
| SelectorText.QuotedPatternDiffers | typescript/src/adapters/artemis.ts:397-403 | For every pattern with a quote there is a key on which emitted selector and pattern differ |
| SelectorText.ApostropheIsMalformed | typescript/src/adapters/artemis.ts:402 | The text for `o'brien` is not read as a selector |
| SelectorText.QuotedPatternAcceptsEverything | typescript/src/adapters/artemis.ts:402 | The text for a pattern that closes the literal and adds a comparison that always holds accepts every key |
| SelectorText.SelectorOverAccepts | typescript/src/adapters/artemis.ts:399-400 | The selector of `*` accepts a key of two words, which the pattern does not |
| Idempotency.InMemoryIdempotencyStore.TryMarkSeen | typescript/src/idempotency/in-memory-idempotency.ts:13-21 | The verdict, and the new expiry table: untouched on a duplicate, remarked otherwise |
| Idempotency.SuppressedExactlyInWindow | typescript/src/idempotency/in-memory-idempotency.ts:13-21 | A call is told duplicate if and only if the window of the latest fresh call of its key is still open |
| Idempotency.FreshVerdictsAreApart | typescript/src/idempotency/in-memory-idempotency.ts:13-21 | With a non-decreasing clock two fresh verdicts of a key are at least the earlier call's TTL apart |
| Idempotency.FreshVerdictsPerSpan | typescript/src/idempotency/in-memory-idempotency.ts:13-21 | With one positive TTL a span sees at most floor(span / TTL) + 1 fresh verdicts of a key |
| Idempotency.IdempotentHandler.Handle | typescript/src/idempotency/idempotency-store.ts:42-58 | One effect per delivery: the inner handler, or an ack when the store is up and has seen the key |
| Idempotency.InnerRunsAreFreshOrOutages | typescript/src/idempotency/idempotency-store.ts:42-58 | The inner handler runs once per fresh verdict and once per delivery that found the store down |
| Idempotency.InnerRunsPerSpan | typescript/src/idempotency/idempotency-store.ts:42-58 | However many deliveries of a key fall in a span, the inner handler runs at most floor(span / TTL) + 1 times plus the outages |
| Idempotency.EverySuppressedDeliveryIsAcked | typescript/src/idempotency/idempotency-store.ts:42-58 | A delivery is acked if and only if the store was up and its call was told that the key is not new; every other runs the inner handler |
| Idempotency.HandleAll | typescript/src/idempotency/idempotency-store.ts:42-58 | Calling the handler on each of a list of deliveries yields the effects and the store's table that the theorems speak of |
| IdempotentBus.AckedUnprocessedExactly | typescript/src/idempotency/idempotency-store.ts:42-58 | Over every run of the bus and its idempotent handlers: a message is acked with no successful inner run if and only if none of its inner runs succeeded and the delivery that acked it called inside the window an earlier call of its key had opened |
| IdempotentBus.LostToItsOwnWindow | typescript/src/idempotency/idempotency-store.ts:42-58 | When no other message has the key, that window was opened by an earlier delivery of the message itself, whose inner run did not succeed |
| IdempotentBus.RedeliveryIsSwallowed | typescript/src/idempotency/idempotency-store.ts:45-57 | A run on which the inner handler nacks for requeue and the redelivery, within the window, is acked and never processed |
| IdempotentBus.HandlerEnds | typescript/src/idempotency/idempotency-store.ts:53-57 | A duplicate is acked; otherwise the inner handler's ack, requeueing nack, reject or silence is what the bus sees |
| IdempotentBus.StoreAnswers | typescript/src/idempotency/idempotency-store.ts:43-52 | A store that is up takes one call with the body's key; one that is down takes none, and the handler is told that the key is new |
| Scheduler.ScheduledSplitsExactly | typescript/src/adapters/in-memory.ts:86-109 | In every run timers are armed for exactly the pending ids; the scheduled ids split into pending, fired and cancelled; nothing fires twice or before its timer is due |
| Scheduler.FiredAsScheduled | typescript/src/adapters/in-memory.ts:86-96 | In every run what fires was scheduled by a step of the run: id, destination, body and delivery time are that step's |
| Scheduler.DueExactly | typescript/src/adapters/in-memory.ts:91-96 | The timer of a schedule is due at the delivery time when that is 1 to 2147483647 ms ahead, and after one millisecond otherwise |
| Scheduler.FiresExactlyWhenDue | typescript/src/adapters/in-memory.ts:93-96 | A timer fires if and only if it is armed and due |
| Scheduler.HelloFires | typescript/src/adapters/in-memory.ts:86-96 | A run that schedules a body, waits and dispatches it |
| Scheduler.FireKeepsOk | typescript/src/adapters/in-memory.ts:93-96 | A callback that dispatches without looking at the table keeps that, because a timer is armed only for a pending id |
| Scheduler.NothingFiresEarly | typescript/src/adapters/in-memory.ts:92-96 | In every run whose delays are within the timer's range nothing fires before its delivery time |
| Scheduler.NeverEarlyExactlyInRange | typescript/src/adapters/in-memory.ts:92-96 | A timer is due no earlier than asked for if and only if the delay is within the timer's range |
| Scheduler.CancelIsFinal | typescript/src/adapters/in-memory.ts:103-109 | After a cancel that found the id pending no run has its timer armed or fires it |
| Scheduler.ListedIffPending | typescript/src/adapters/in-memory.ts:111-115 | An entry is listed for a destination if and only if it is pending for it |
| Scheduler.InMemoryScheduler.Schedule | typescript/src/adapters/in-memory.ts:86-101 | A new id, listed from now on, with a timer armed that carries destination, body and delivery time, for the delay the platform makes of it |
| Scheduler.InMemoryScheduler.TimerFires | typescript/src/adapters/in-memory.ts:93-96 | An armed timer that is due runs its callback once, which dispatches what it captured without consulting the table; no other timer dispatches |
| Scheduler.InMemoryScheduler.Callback | typescript/src/adapters/in-memory.ts:93-96 | The callback deletes its id, there or not, and dispatches what it captured |
| Scheduler.InMemoryScheduler.Cancel | typescript/src/adapters/in-memory.ts:103-109 | A pending entry leaves the table and its timer is disarmed; an unknown id changes nothing |
| Scheduler.InMemoryScheduler.ListScheduled | typescript/src/adapters/in-memory.ts:111-115 | Exactly the pending entries of the destination, in order |
| SseRouting.RoutingIsExactWithoutWildcards | typescript/src/sse/domain/contract.ts:36-38 | A binding hears exactly its own target if and only if its id has no word `*` or `#` |
| SseRouting.AddressesWrittenOut | typescript/src/sse/domain/contract.ts:20-38 | The channel and the two address schemes, written out |
| SseRouting.ForwardedIsAcked | typescript/src/sse/adapters/bus-message-port.ts:25-28 | A delivery whose handler has sent its frame is acked: it leaves flight for good and nothing is republished |
| SseRouting.PublishReachesExactlyTheBound | typescript/src/sse/domain/hub.ts:47-79 | In any bus a publish to a target puts one copy with its payload on each queue bound to that target and leaves queues bound to others alone |
| SseRouting.FramesCarryScopeAndInstance | typescript/src/sse/domain/hub.ts:73-79 | Over every run in which nobody joins the binding's queue, each frame carries the binding's scope and instance and was published to that scope's id |
| SseRouting.RunKeepsBinding | typescript/src/sse/domain/hub.ts:65-79 | Over every run a binding keeps its target and its only consumer unless somebody joins its queue |
| SseRouting.BindCreatesQueue | typescript/src/sse/adapters/bus-message-port.ts:21-32 | A fresh subscriber id gets a queue of its own, bound to its target, empty and with one consumer |
| SseRouting.SubscriberIdsAreUnique | typescript/src/sse/adapters/bus-message-port.ts:22 | Subscriptions with different counter values never share a subscriber id, on one instance or on two |
| SseRouting.SubscriberIdsClashExactly | typescript/src/sse/adapters/bus-message-port.ts:22 | Two subscriptions share an id if and only if counter and time agree, and instance and key do or the longer instance id runs on past a dot into the other's key |
| SseRouting.DottedInstancesClash | typescript/src/sse/adapters/bus-message-port.ts:22 | Two instances with dots in an id that share a subscriber id |
| SseRouting.DotFreeInstancesNeverClash | typescript/src/sse/adapters/bus-message-port.ts:22 | Instances whose ids have no dot never do |
| SseRouting.FramesInACluster | typescript/src/sse/domain/hub.ts:65-79 | In a cluster of instances with dot-free ids, over any run before and after the binding: each frame carries the binding's scope and instance and was published to that scope's id |
| SseRouting.BusMessagePort.NewSubscriberId | typescript/src/sse/adapters/bus-message-port.ts:22 | The id carries the counter's value, and the counter moves on |

## Left out

- Handlers, threads and real time: a handler is any choice of ack, nack, throw (a requeueing nack) or silence; a thread or timer is an event that may happen at any moment once it is due.
- The asynchronous job that runs a handler: a delivery is recorded when Pump hands it over.
- `Dispose` of the bus or the scheduler, and 32-bit overflow of the counters, which are unbounded here.
- The enumeration order of `HashSet` and `Dictionary`: queues of a topic are visited in order of creation, which decides only which copy draws which id; a drop callback visits one message at most.
- Object identity of messages: within a queue the id stands for the object, and the mutable delivery count is kept by the queue under the copy.
- Expiry timers are armed in the publish step and not after the lock; a timer may fire at any later moment all the same.
- `Destination`, `Headers`, `ReplyTo` and the other read-only fields that an incoming message copies.
- The same delegate attached twice to one queue is allowed; fairness is stated for a fixed list of consumers.
- Exactly which keys a selector accepts beyond its pattern: one key too many is shown for every pattern with a quote, and for every pattern with a wildcard and no `#` word. `_` and `%` inside a pattern act as wildcards of LIKE, as in the code.
- SelectorText.SelectorAgreesExactly: selector texts are read as comparisons joined by OR, with keywords in upper case; a text with other operators counts as not read, which only patterns with a quote can produce.
- SelectorText.SelectorCoversPattern: whether a text that is not read as meant happens to accept all keys of its pattern is not characterised.
- RabbitMQ's part of the retry loop is an assumption about the broker: the x-death list, bouncing, redelivery of unacked messages after a crash, and that dead-lettering takes a message's own expiration off. A message TTL set on the main queue by broker policy is not modelled; the adapter sets none. The paths without a retry delay, and undecodable x-death entries, are not modelled.
- RabbitRetry.NeverLost: a message dead-lettered by a queue whose arguments do not park it is followed only out of the loop, because where it goes is decided by another exchange.
- Inner handlers of the idempotent handler that settle more than once; one that throws counts as a requeueing nack.
- Network clients, broker management, Kafka, Redis and Jolokia, whose behaviour lives outside the repository.
- Resilience decorators, fault injection, capability records, runners and reports, which only configure or count.
- JSON envelopes, parsing of bodies, SSE framing and the HTTP server: a frame's message is the published body.
- `typescript/src/adapters/in-memory-bus.ts` is not part of this model: the SSE routing is proved over the C# bus, which ignores the `transient` flag that the SSE adapter sets.
- Schedule ids are the numbers inside the program's text ids, and ids of the in-memory scheduler's own bus are not modelled.
- How late a due timer may fire: it fires at some moment from then on.
- The platform timer is an assumption about the runtime: delays of 1 to 2147483647 ms are honoured and any other becomes 1 ms, an armed timer runs its callback once, and `clearTimeout` disarms it.
- The .NET scheduler, whose cancel can race with a timer already completed.
- Fractions of a second in `ttlSeconds`, which is a whole number here.
