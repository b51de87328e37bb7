# Verified model of the bridge validator and its monitor

The validator relays events between two chains. A watcher turns block ranges into event tasks, a
sender gives each one an account nonce, submits a transaction and leaves a receipt task, and a
receiptor polls the receipt and finishes the event, waits, or sends it back. The monitor keeps
running totals of the same events. This project models these processes, their stores and codecs,
and proves what they keep over whole runs.

Each process that changes things in place is a class or a method with the source's fields, branches
and loops (`Sender.dfy`, `SenderMain.dfy`, `Receiptor.dfy`, `Watcher.dfy`, `Contract.dfy`, `Stats.dfy`,
`GasPrice.dfy`, `RetryQueue.dfy`, `Failover.dfy`, `Signatures.dfy`), proved against functions on values;
the whole-run theorems are about those functions. Every answer of an RPC node, the broker, the cache or
the clock is an input, so a failing await, a lagging node, a lost confirmation and a crash are ordinary
inputs. `Pipeline.dfy` puts sender, receiptor, watcher and chain together: any message may be taken next,
the chain may advance during any action, and a handler may die after any of its effects.

The main results:

- no nonce between the mined count and the cached nonce is ever without an owner (`PipelineNonces.dfy`);
- the cached nonce never decreases, and the fresh nonces the node takes are strictly increasing over a run, lost
  answers and crashes included, exactly when between each and the next some step stores past it, or the cache was past
  it already, or the next is read from a node that counts past it (`PipelineFresh.dfy`);
- no event is lost under any exception or crash, a run duplicates one exactly when some step meets a condition
  on its inputs, and none is finished before it is settled (`PipelineEvents.dfy`, `EndToEnd.dfy`);
- the states a dying handler can leave are exactly the prefixes of its effects in statement order (`PipelineCrashes.dfy`);
- the watcher's queries tile the chain exactly, recover from crashes, and refine one big query (`WatcherRuns.dfy`);
- chunking and bisection are transparent, and incremental totals equal a full scan (`Contract.dfy`, `Stats.dfy`);
- gas escalation, retry backoff, message, signature and call data codecs, and the agreement of two RPC failovers.

## What the code does not do

Some promised properties fail on some inputs. The code is modelled as it is, and each such property comes
with the exact condition under which it holds.

- An event is duplicated by a send that leaves a receipt task and whose message is not acknowledged (the cache or the
  lock fails afterwards, or the publish loses its confirmation), by a resend whose confirmation is lost, and by a handler
  that dies after a publish. `Duplicates` says exactly when, for all four handler and fault cases (`DuplicatedExactly`,
  `ExactlyOneCopy`; example: `LostUnlockDuplicates`).
- A fresh nonce can be taken twice although the cache answers throughout: when a submission times out or its answer is
  lost after the node took the transaction, or when tracking an accepted one fails, the nonce is not advanced and the next
  fresh read gets it again (`TakenOnceExactly`, `TakenExactly`; examples: `TimeoutTakenTwice`, `FreshNonceTakenTwice`).
- A sender that dies before its store leaves the nonce to the redelivered event, and two receipt tasks then hold it
  (example: `FreshNonceTrackedTwice`).
- Even successful sends repeat a fresh nonce when the cache cannot be read, and the node's own count is used, or when the
  store is lost (`FreshExactly`; example: `LostStoreRepeatsNonce`).
- A receipt task can hold a nonce above the cached one when its nonce did not come from the cache and the store does not
  follow (`WithinExactly`; example: `LostStoreLeavesCacheBehind`).
- An imported transaction reported without a hash is acknowledged with nothing to track it; the event and its
  nonce are recorded as given up (`UntrackedExactly`).
- A receipt query that fails leaves the receiptor's promise unsettled, so the run hangs and the message stays
  unacknowledged (verdict `Hung`, exactly then: `RunSpec`).
- At the two lower speeds the price is a string, which the minimum hands back uncapped, so the price may exceed the
  cap or fall with age (`WithinCapExactly`, `EscalatesExactly`).
- The watcher does not await its publishes: if it dies after storing the mark, events it has not sent are lost unless an
  earlier attempt had sent them (`LostExactly`, `DeathLosesExactly`).
- A first start skips the configured start block, which the validator's README calls the block to start at
  (`StartBlockSkipped`).
- Bisecting a refused range of two blocks asks for the same range again, for ever (`EndsExactly`).
- A torn store of the monitor, already in its first round, or a head behind the stored mark, spoils the totals unless no
  event lies in between (`RoundExactly`; example: `TornFirstRound`).

## Model

| member | source | states |
|---|---|---|
| Sender.Sender.UpdateNonce | validator/src/lib/sender.ts:241-250 | the stored nonce becomes the larger of old and new, no other key changes, and a failing read changes nothing |
| Sender.Sender.ReadNonce | validator/src/lib/sender.ts:252-266 | the cached nonce when the cache has one and answers and no update is forced, else the node's count |
| Sender.Sender.SendTx | validator/src/lib/sender.ts:382-455 | the stateful form leaves exactly the result, cached nonce and receipt tasks of the value form, for every error class |
| Sender.Sender.Run | validator/src/lib/sender.ts:344-380 | the same for a whole run, with the nonce-filling transfer outside the lock |
| SenderMain.Settle | validator/src/sender.main.ts:100-134 | exactly four results ack the message and only a block gas limit drops it; what is requeued is the same event, its nonce cleared exactly for a retry whose nonce was too low |
| SenderMain.RunSender | validator/src/sender.main.ts:88-135 | the message is settled exactly once, acked, requeued with or without its nonce, or dropped as the result demands, and the effects happen in the order receipt task, nonce, requeue, settlement |
| SenderOutcomes.RunExactly | validator/src/sender.main.ts:88-135 | exactly which answers of the node, cache, lock and broker leave a receipt task, ack the message, or drop it |
| SenderOutcomes.CachedExactly | validator/src/lib/sender.ts:404-449 | exactly which answers bring the cached nonce to a given bound |
| SenderOutcomes.NonceChosen | validator/src/lib/sender.ts:385-393 | a retry whose own nonce the node's count has not passed submits with it; every other run with the cached nonce when the cache holds one and answers, else with the count |
| SenderOutcomes.SendsUnderChosen | validator/src/lib/sender.ts:366-380 | a receipt task of a submission is under the nonce chosen; without the lock or a nonce the run throws and changes nothing |
| SenderOutcomes.FillsExactly | validator/src/lib/sender.ts:350-365 | with nothing to send, a retry fills its nonce exactly when the node's count has not passed it, and which result and receipt task each answer gives |
| SenderOutcomes.NeverBelowCount | validator/src/lib/sender.ts:350-393 | no retry submits, fills or tracks a nonce below the node's count while the cached nonce, or the count read, is at least that |
| Receiptor.RunSpec | validator/src/lib/receiptor.ts:52-120 | unless the broker refuses it, an event is resent, once and with one more retry, exactly after the maximum wait, with its nonce, or after a revert, without it; success exactly for a good receipt K blocks deep, either kind of waiting exactly before that, a hang exactly for a failing receipt query |
| Receiptor.Receiptor.Run | validator/src/lib/receiptor.ts:81-120 | the stateful form gives that verdict and publishes exactly those tasks |
| Receiptor.Receiptor.GetReceipt | validator/src/receiptor.main.ts:56-84 | a message is acked, delayed and kept, dropped, or left unsettled as the verdict demands, with the resend before the delay and the settlement last |
| PipelineNonces.RunNonces | validator/src/lib/sender.ts:382-454 | one run raises the cached nonce only over nonces that are mined or that its new receipt task holds |
| PipelineNonces.RunKeepsNonce | validator/src/lib/sender.ts:350-365 | a retry's nonce stays with the requeued task, moves to a receipt task, has been passed by the chain, or is given up |
| PipelineCrashes.CrashesArePrefixes | validator/src/lib/sender.ts:404-449 | the states a dying sender can leave are exactly those after a proper prefix of the effects its statements produce |
| PipelineCrashes.PollCrashesArePrefixes | validator/src/services/amqpClient.js:163-171 | the states a dying receiptor can leave are exactly those after a prefix of the publishes its statements produce |
| PipelineNonces.NoOrphanNonce | validator/src/lib/sender.ts:344-454 | in every reachable state each nonce from the mined count up to the cached one is held by a retry or a receipt task, or was given up |
| PipelineFresh.CachedNeverDecreases | validator/src/lib/sender.ts:241-250 | over any run the cached nonce never decreases |
| PipelineFresh.CachedReached | validator/src/lib/sender.ts:241-250 | over any run the cached nonce reaches a bound exactly when it had, or when the answers and the crash point of some step make it store that much |
| PipelineFresh.WithinExactly | validator/src/lib/sender.ts:404-449 | a step keeps every nonce in flight within the cached one exactly when a receipt task it leaves is under a nonce the cache has reached |
| PipelineFresh.InFlightWithinCache | validator/src/lib/sender.ts:385-449 | in every state of a run each nonce in flight is at most the cached one exactly when every step meets that condition |
| PipelineFresh.AnsweringCacheKeeps | validator/src/lib/sender.ts:252-266 | while the cache holds a nonce and answers its read, no lost store, lost confirmation or crash breaks that bound |
| PipelineFresh.TakenOnceExactly | validator/src/lib/sender.ts:385-418 | over any run the fresh nonces the node took, unheard answers and crashed sends included, are strictly increasing exactly when each is stored past, or the cache was past it, or a node counts past it, before the next fresh read |
| PipelineFresh.TakenExactly | validator/src/lib/sender.ts:404-449 | a step keeps the fresh nonces the node took increasing and below the cached one exactly when it reads them from the cache or past them from a node, and stores past its own; a timeout does not |
| PipelineFresh.TakenBelowCached | validator/src/lib/sender.ts:404-449 | that order holds in every state of a run exactly when every step that takes a fresh nonce meets that condition |
| PipelineFresh.FreshNoncesIncrease | validator/src/lib/sender.ts:385-418 | completed successful sends that took their nonce from an answering cache use strictly increasing nonces, over any run |
| PipelineFresh.CachedAfterSend | validator/src/lib/sender.ts:404-449 | a completed submission moves the cached nonce past the nonce it used only after a success, and to the node's count after nonce too low |
| PipelineFresh.TooLowCatchesUp | validator/src/lib/sender.ts:432-435 | after nonce too low the requeued event never tries a nonce below the count the node then gave |
| PipelineFresh.FreshExactly | validator/src/lib/sender.ts:252-266 | one more such send keeps the order exactly when its read was answered past the last fresh nonce and the store took effect or the cache was past its nonce already |
| PipelineEvents.RunHandsOn | validator/src/lib/sender.ts:344-454 | a run leaves one copy of its event, or two exactly when its answers leave a receipt task and do not ack its message |
| PipelineEvents.NeverLost | validator/src/sender.main.ts:90-98 | with exceptions and crashes anywhere, every copy ever enqueued is in flight, finished or given up |
| PipelineEvents.ExactlyOneCopy | validator/src/sender.main.ts:88-135 | over any run the copies of all events are exactly those enqueued exactly when no step duplicated one |
| PipelineEvents.ReliableNeverDuplicates | validator/src/receiptor.main.ts:56-84 | without lost confirmations, crashes, and cache or lock failures after a publish, no step duplicates |
| PipelineEvents.InOnePlace | validator/src/receiptor.main.ts:56-84 | in a run in which no step duplicates, an event enqueued once is in exactly one of sender queue, receipt queue, finished, dropped and untracked |
| PipelineEvents.DuplicatedExactly | validator/src/lib/sender.ts:404-449 | a step adds a copy of an event exactly when its answers and the point of its crash meet the stated condition, for both handlers, completed or dying |
| PipelineEvents.UntrackedExactly | validator/src/lib/sender.ts:418-423 | an event is acked with nothing to track it exactly when it is reported imported without a hash, or an error of the receipt task reads like that |
| PipelineEvents.ReleasedExactly | validator/src/sender.main.ts:118-120 | a nonce is given up exactly when a completed send drops its event for the block gas limit or leaves it untracked |
| PipelineEvents.ObservedExactly | validator/src/lib/sender.ts:268-293 | a step records an event as needing nothing, a transaction as submitted, or a receipt as good exactly when its answers say so |
| PipelineEvents.ReceiptsWereSubmitted | validator/src/lib/sender.ts:295-305 | a receipt task names its event, the hash submitted for it, the head, the clock and the retries of its run |
| PipelineEvents.FinishedMeansSettled | validator/src/lib/receiptor.ts:85-116 | over any run an event finishes only if it once needed no transaction or one of its transactions succeeded at least K blocks deep |
| Witnesses.LostUnlockDuplicates | validator/src/lib/sender.ts:367-377 | a reachable run in which an event has two copies |
| Witnesses.FreshNonceTakenTwice | validator/src/lib/sender.ts:404-449 | a reachable run in which the node takes two events' transactions under one fresh nonce because tracking the first failed |
| Witnesses.TimeoutTakenTwice | validator/src/lib/sender.ts:96-115 | a reachable run in which the node takes two events' transactions under one fresh nonce because the first answer came after the timeout |
| Witnesses.FreshNonceTrackedTwice | validator/src/lib/sender.ts:404-449 | a reachable run in which two receipt tasks hold one fresh nonce |
| Witnesses.LostStoreRepeatsNonce | validator/src/lib/sender.ts:241-250 | a reachable run in which two successful sends use one fresh nonce |
| Witnesses.LostStoreLeavesCacheBehind | validator/src/lib/sender.ts:241-250 | a reachable run in which a receipt task is under a nonce the cache has not reached |
| EndToEnd.NoEventLost | validator/src/lib/watcher.ts:271-286 | from chain to settlement, under watcher crashes and pipeline faults, every event up to the mark is in flight, finished or given up, but for those the watcher died over after storing the mark and before sending them |
| EndToEnd.EveryEventOnce | validator/src/lib/watcher.ts:271-286 | the pipeline holds exactly the events of the scanned blocks, each once, exactly when no step duplicated one |
| Watcher.ProcessState.LoadLastProcessedBlock | validator/src/lib/watcher.ts:45-60 | a process resumes at the larger of the stored mark and the start block, at neither but those or zero, never below zero |
| Watcher.ProcessState.UpdateLastProcessedBlock | validator/src/lib/watcher.ts:62-65 | the mark in memory moves first, and a store that takes effect, confirmed or not, leaves it as the stored mark |
| WatcherSpec.ScanExactly | validator/src/lib/watcher.ts:235-270 | a poll scans exactly from the block after the mark to the last one with the required confirmations, at most 501 blocks, answered by a node that has reached their end |
| WatcherSpec.CountExactly | validator/src/lib/watcher.ts:286-293 | a poll reports the number of its events, or -1 exactly when it had nothing to scan, got no answer, or could not store its mark |
| Watcher.EventWatcher.TasksAreFresh | validator/src/lib/watcher.ts:276-283 | one task per event in order, of the watcher's type, without nonce, retries or timestamp |
| Watcher.EventWatcher.GetEvents | validator/src/lib/watcher.ts:105-152 | events are returned exactly when the answering node has reached the end of the query and they decode |
| Watcher.EventWatcher.Do | validator/src/lib/watcher.ts:235-293 | one poll advances the mark over at most 501 blocks and enqueues their events in order, or changes nothing |
| Watcher.EventWatcher.Run | validator/src/lib/watcher.ts:220-233 | at most ten polls, ending exactly at the first that is idle or fails or brings the count above a hundred, with a task per event of their queries, in order |
| Watcher.GoesOnExactly | validator/src/lib/watcher.ts:220-233 | a run goes on exactly while every poll is answered and stored and no more than a hundred events were published |
| WatcherRuns.ExactTiling | validator/src/lib/watcher.ts:235-293 | over any polls the answered queries are contiguous, cover exactly the blocks up to the mark, and yield their events in order |
| WatcherRuns.TilesDisjoint | validator/src/lib/watcher.ts:254-258 | the queries of a tiling are pairwise disjoint, in order, and within its bounds |
| WatcherRuns.CrashRecovery | validator/src/lib/watcher.ts:45-65 | over any mix of polls, crashes and restarts the stored mark stays behind the one in memory and every event past the start is enqueued, but for those a death left unsent after storing the mark |
| WatcherRuns.LostExactly | validator/src/lib/watcher.ts:275-287 | exactly which events up to the mark never reach the queue: those such a death left unsent and no earlier attempt had sent |
| WatcherRuns.DeathLosesExactly | validator/src/lib/watcher.ts:275-287 | one death loses an event exactly when it had stored the mark and not sent all events |
| WatcherRuns.RepeatsAboveStoredMark | validator/src/lib/watcher.ts:272-287 | once a mark is stored no later query reaches down to it, and the stored mark never decreases |
| WatcherRuns.StoreIsResumed | validator/src/lib/watcher.ts:45-65 | after a poll whose store took effect a restart changes nothing, the stored mark never falls below it, and every later query starts above it |
| WatcherRuns.StartBlockSkipped | validator/src/lib/watcher.ts:55-59 | after a first start no query ever covers the configured start block |
| WatcherRuns.PollsNeeded | validator/src/lib/watcher.ts:254-258 | answered polls reach a fixed target exactly from ceil(distance / 501) polls on |
| WatcherRuns.BatchingRefinesOneScan | validator/src/watcher.js:123-155 | those polls yield the mark and the event sequence of the predecessor's single query |
| Contract.BisectionTransparent | monitor/utils/contract.js:20-54 | what bisection finds is what one unlimited query would return, in order, and without node errors it always finds it |
| Contract.NarrowMiddle | monitor/utils/contract.js:30-48 | the middle is half the sum, halves rounded up, and below the end exactly from three blocks on |
| Contract.EndsExactly | monitor/utils/contract.js:30-48 | a query ends exactly when it meets no refused range of one or two blocks; a refused two-block range never ends |
| Contract.BisectSound | monitor/utils/contract.js:20-54 | whatever the node refuses, a query that ends with events has found exactly those of its range, in order |
| Contract.BisectIsQuery | monitor/utils/contract.js:20-54 | when narrow ranges are answered, recursion is no deeper than the range is wide |
| Contract.PastEventsRanges | monitor/utils/contract.js:8-18 | the chunks partition the range exactly, and each but the last ends a whole multiple of 1000 blocks after the start |
| Contract.ChunksTransparent | monitor/utils/contract.js:8-54 | chunks and bisection together return the events of the whole range |
| Stats.ProcessEvents | monitor/getShortEventStats.js:11-25 | the tally grows by the fold of all events of the range |
| Stats.TotalsMeaning | monitor/getShortEventStats.js:11-25 | the totals are the value sum, the number of events, and each once exactly the recipients and, for Transfer events without one, the senders |
| Stats.StoreRoundTrip | monitor/utils/redisClient.js:10-25 | totals survive being stored as an array of users and loaded into a set |
| Stats.Round | monitor/getShortEventStats.js:63-139 | a round brings all four series and both marks up to its heads, or throws and stores nothing |
| Stats.FirstRound | monitor/getShortEventStats.js:71-139 | a first round counts each of the four series from its own chain's deployment block to that chain's head |
| Stats.RoundExactly | monitor/getShortEventStats.js:131-139 | in any round, the first included, whatever head was seen and whichever writes took effect, a series stays right exactly when its mark is not before deployment and no event lies between what its totals cover and what its mark names |
| Stats.TornFirstRound | monitor/getShortEventStats.js:131-139 | a first round that stores its totals but not its mark makes the next one count every event twice |
| Stats.IncrementalEqualsRescan | monitor/getShortEventStats.js:71-139 | after any rounds with advancing heads, thrown ones included, each series equals one scan from deployment to its mark |
| GasPrice.ClampOrderExactly | validator/src/services/gasPrice.js:38-46 | clamping keeps prices in order exactly when the limit is not below the floor |
| GasPrice.ClampExactly | validator/src/services/gasPrice.js:38-46 | a price within the limits is kept, one below a gwei raised to it, one above the limit lowered to it |
| GasPrice.FetchGasPriceFromOracle | validator/src/services/gasPrice.js:48-73 | the answer is refused exactly when a tier is missing or negative, else every tier is clamped and a positive fixed price kept |
| GasPrice.FetchGasPrice | validator/src/services/gasPrice.js:75-121 | nothing exactly when both sources fail, else each tier is the larger of the two sources' and the oracle's fixed price is kept |
| GasPrice.Service.Update | validator/src/services/gasPrice.js:75-121 | ordered sources keep the cached tiers ordered, a contract price within the cap keeps them within it, a double failure changes nothing |
| GasPrice.Service.GetPrice | validator/src/services/gasPrice.js:173-204 | the fixed price, or the price at the task's speed |
| GasPrice.PriceExactly | validator/src/services/gasPrice.js:183-201 | the price at every speed: the lower tiers as they are, then a climb by the gap between the upper tiers, or by 10 gwei when there is none, up to the cap |
| GasPrice.SpeedExactly | validator/src/services/gasPrice.js:177-181 | the speed is the base plus the whole bump intervals in the age, rounded down |
| GasPrice.EscalatesExactly | validator/src/services/gasPrice.js:183-201 | the price never falls with speed exactly when slow <= average <= min(cap, fast) |
| GasPrice.WithinCapExactly | validator/src/services/gasPrice.js:198-201 | the price is within the cap at every speed exactly when the two lower tiers are |
| GasPrice.CapReachedExactly | validator/src/services/gasPrice.js:187-196 | from speed 2 on the price is the cap exactly from step 2 + ceil((cap - fast) / (fast - average)) on, with 10 gwei when the tiers do not differ |
| GasPrice.NewTaskPaysItsTier | validator/src/services/gasPrice.js:160-196 | before the first bump the price is the tier of the configured speed, the slow one for an unknown speed, the fast one up to the cap |
| GasPrice.OlderNeverPaysLess | validator/src/services/gasPrice.js:173-204 | with ordered tiers within the cap an older task pays no less, at most the cap, and in the end the cap |
| RetryQueue.CreateRetryQueues | validator/src/services/amqpClient.js:108-125 | one queue per retry up to the limit, each holding messages twice as long as the one before |
| RetryQueue.Requeue | validator/src/services/amqpClient.js:69-75 | the queue is the header capped at the limit, zero without a header, and the new header is one more |
| RetryQueue.QueueOfRequeue | validator/src/services/amqpClient.js:69-75 | the n-th requeue uses queue min(n, limit), which exists, and the header never passes limit + 1 |
| RetryQueue.WaitOfRequeue | validator/src/services/amqpClient.js:108-125 | the n-th requeue waits delay * 2^min(n, limit) |
| RetryQueue.DoublingBackoff | validator/src/services/amqpClient.js:108-125 | n requeues up to limit + 1 wait delay * (2^n - 1) in total |
| RetryQueue.LinearBackoff | validator/src/services/amqpClient.js:69-75 | every further requeue adds the longest wait |
| Message.CreatesExactly | validator/src/utils/message.js:9-34 | creation succeeds exactly for 20-byte addresses, a 32-byte hash, a value below 16^64 and an expected length of 104 |
| Message.CreatedLayout | validator/src/utils/message.js:9-34 | recipient, value, transaction hash and bridge address stand at their places in the 104 bytes |
| Message.ParsedLayout | validator/src/utils/message.js:36-64 | the fields parsed are those parts of a 104-byte message |
| Message.ParseCreated | validator/src/utils/message.js:36-64 | parsing a created message gives back all four fields |
| Message.DistinctTransfersDistinctMessages | validator/src/utils/message.js:9-34 | equal messages come from equal transfers |
| Message.RebuildsExactly | validator/src/utils/message.js:9-64 | a 104-byte message is rebuilt from its parsed fields exactly when its amount is in lower case |
| Message.SignatureLayout | validator/src/utils/message.js:66-73 | r, s and v are the first and second 32 bytes and the last byte of a signature |
| Message.JoinExactly | validator/src/utils/message.js:66-73 | a signature is recovered from v, r and s exactly when its recovery byte is in lower case |
| Hex.RewriteExactly | validator/src/utils/message.js:19-23 | reading a padded numeral and writing it again is the identity exactly on lower case |
| Calldata.TransferRoundTrip | validator/src/events/processTransfers/index.js:50-61 | read back from the chain, the address the interface appends is the one the validator credits, in lower case, or the event's own when it is zero |
| Calldata.TransferRedirectsExactly | validator/src/events/processTransfers/index.js:50-61 | for every call data, the sender is overridden exactly in a transfer call of 202 characters whose last 40 are not all zero, and then by them |
| Calldata.TransferFromKeepsOwn | validator/src/events/processTransfers/index.js:50-61 | a transferFrom call, which is just as long, never redirects |
| Calldata.TransferLayout | ui/src/stores/TxStore.js:180-183 | receiver, amount and appended address stand at their places in the interface's call data |
| Calldata.PlainTransferKeepsOwn | validator/src/events/processTransfers/index.js:50-53 | a transfer with nothing appended never redirects |
| Calldata.TransferAndCallRoundTrip | validator/src/events/processSignatureRequests/index.js:56-67 | read back from the chain, the ABI-encoded recipient is the one the validator credits, in lower case, or the event's own when it is zero |
| Calldata.TransferAndCallRedirectsExactly | validator/src/events/processSignatureRequests/index.js:56-67 | for every call data, the recipient is overridden exactly in a transferAndCall call of 330 characters whose last 40 are not all zero, and then by them |
| Calldata.TransferAndCallLayout | ui/src/stores/TxStore.js:90-95 | receiver, amount, offset, length and data stand at their places in the ABI encoding |
| Signatures.Gather | validator/src/events/processCollectedSignatures/index.js:67-82 | for every completion order the three arrays stay aligned and hold a permutation of the signatures' parts; one malformed signature rejects all |
| Signatures.EntryRecovers | validator/src/utils/message.js:66-73 | a place of the arrays joins back to its signature exactly when that has a lower-case recovery byte |
| Signatures.GatheredRecover | validator/src/utils/message.js:66-73 | for every completion order, joining the arrays place by place gives a permutation of the signatures |
| Failover.HttpRetryProvider.TrySend | validator/src/services/httpRetryProvider.js:51-94 | a pass tries the URLs around from the given index up to the first answer, and reports that answer and its URL's index |
| Failover.HttpRetryProvider.Send | validator/src/services/httpRetryProvider.js:33-49 | a request gives the first answer of its passes; only an answer moves the index |
| Failover.AnswerMovesIndex | validator/src/services/httpRetryProvider.js:36-45 | after an answered pass the index is that of the URL that answered, otherwise unchanged |
| Failover.FailsExactly | validator/src/services/httpRetryProvider.js:51-94 | a request fails exactly when no attempt of any pass is answered |
| Failover.FirstSuccess | validator/src/utils/tryEach.js:1-14 | the first success with its position, or failure when all fail |
| Failover.RpcUrlsManager.TryEach | validator/src/services/RpcUrlsManager.js:18-45 | the same for the rotated list |
| Failover.AnswerLeadsList | validator/src/services/RpcUrlsManager.js:32-42 | after an answered pass the list begins with the URL that answered, otherwise it is unchanged, and it keeps its URLs |
| Failover.IndexRefinesList | validator/src/services/httpRetryProvider.js:33-94 | over any run the manager's list is the original rotated by the provider's index, and both try the same URLs in the same order |
| Failover.PassCoverage | validator/src/utils/tryEach.js:1-14 | a pass tries no URL more often than listed, and fails exactly when all URLs were tried and failed |

## Left out

- Bridge contracts: only their interfaces are visible, so limits, minting and signature counting have no source here.
- Transport of RPC, AMQP and Redis: their answers are inputs, the lock does not expire, and the broker's client keeps what it was handed.
- SenderMain.Requeue: a requeue, which is not awaited, arrives before the message is settled; the delay publish of the receiptor likewise.
- Interleaving inside a handler: a handler is one action during which the chain may advance; two sends of one account are serialised by the nonce lock.
- Sender wording "transaction with same nonce in the queue": the source counts it as nonce too low; here nonce too low means that the chain has passed the nonce.
- Error texts: error classes are a datatype, so the order in which texts are matched is not modelled.
- Reorganisations: the mined count and the head never decrease, and scanned blocks are final.
- Manual resets of nonce or block, cache flushes, and the polling and expiry timers.
- Cryptography, ABI decoding of logs, and decimal rendering of stored numbers.
- GasPrice.FetchGasPriceFromOracle: prices are whole numbers of wei, so rounding of fractional prices is not modelled.
- GasPrice.Service.GetPrice: the bump interval is a positive number; a missing setting is not modelled.
- Message.CreatesExactly: the value is a natural number; negative or malformed numerals are not modelled.
- Message.JoinExactly: a recovery byte that is not hexadecimal is refused, where the source yields a partial or undefined number.
- Watcher.EventWatcher.Do: the publishes it does not wait for are sent in order, and unless the process dies in that poll they all arrive.
- Receiptor.Receiptor.GetReceipt: the delay of a waiting message depends on its result; here a delayed message simply comes back.
- Stats.Round: the figures it reports to its caller are the stored totals and are not modelled again.
- RetryQueue.Requeue: a queue is known by its number, so its name and exchange bindings are not modelled.
- Other UI stores, deployment, logging and metrics.
