# Resilience and scheduling layer of the A2A gateway

A Dafny model of the parts of the gateway plugin that decide *when* work runs, *which* peer and
transport gets it, and *what is remembered* about it. Each module follows one source file (or one
class of it).

- Asynchronous components (scheduler, serializer, RPC multiplexer, connection pool, outbox relay,
  quorum discovery) are transition systems. A step is the synchronous stretch between two `await`s,
  so a run, an arbitrary sequence of events, covers every interleaving. An event that cannot happen
  in a state leaves it alone.
- Next to each transition system stands a class with the source's fields. Its methods do what the
  source's methods do, loops included, and are proved to take exactly the corresponding step;
  theorems about runs are therefore theorems about the class.
- What delegates, sockets, peers and probes do is an input. The clock is an argument or an event.
  Ghost fields record history (who was started, which promise received what, who holds what).
- Times, scores and delays are `int`, `nat` or `real`; IEEE rounding is not modelled.

| module | source file | main theorems |
|---|---|---|
| `QueueingExecutor` | `src/queueing-executor.ts` | `CapacityAndWorkConservation`, `FirstComeFirstServed`, `SettledAtMostOnce`, `AnsweredIff`, `ConservedUnlessDropped`, `DistinctIdsConserveEveryTask` |
| `DispatchQueue` | `src/dispatch-queue.ts` | `MutualExclusion`, `StartsInEnqueueOrder`, `MapCleansItself`, `FailuresAreIsolatedIff`, `FailuresDoNotCascade`, `ResultIsOwnOutcome` |
| `RpcConnection` | `src/executor.ts` | `PendingOrSettledOnce`, `IssuedRequestFate`, `ClaimedOrOwnFate`, `RequestsDoNotInterfereIff` |
| `ConnectionPool` | `src/executor.ts` | `CountsNeverExceedHolders`, `AcquireReusesOpenConnections`, `CountStaysExactIff`, `DisciplinedRunsCountExactly`, `DestroyIsFinalIffNothingConnects` |
| `PeerHealth` | `src/peer-health.ts` | `StateFollowsFromHistory`, `SameAsThreeStatesIff`, `RecoveryAdmits`, `ThrottleIsExact` |
| `TransportFallback`, `StableSort` | `src/transport-fallback.ts` | `BucketsAreStableSort`, `AdaptiveOrderIsStable`, `NoHistoryMeansStaticOrder`, `FirstTriedIff` |
| `Client` | `src/client.ts`, `src/peer-retry.ts` | `SendMessage`, `CallSucceedsIff`, `NextCallRefusedIff`, `FallbackOutcome`, `AttemptsAreBounded`, `FollowedByAnotherPassIff`, `RetryBeginsWithIff`, `NonTransportErrorMovesOnIff` |
| `Outbox` | `src/internal/outbox.ts` | `RetriesAreAccounted`, `SentAtFirstDueTick`, `CountsComeFromTheEvents`, `OneInFlight`, `UndeliveredIsNeverLost` |
| `TtlStores` | `src/internal/idempotency.ts`, `src/internal/security.ts` | `CheckAnswersFromHistoryIff`, `NonceAcceptedIff`, `ReplayProtectedIff` |
| `QuorumDiscovery` | `src/quorum-discovery.ts` | `StableIffLocked`, `OscillationIsBounded`, `SettlesIffThresholdsOrdered` |
| `RoutingRules` | `src/routing-rules.ts` | `FirstMatchIsBest`, `HillPreservesOrderIff`, `HillRanksByAffinity`, `AffinityLosesWhatIsMissing` |
| `FileSecurity` | `src/file-security.ts` | `SpellingsNormalizeAlike`, `PrivateIffInListedBlock`, `VerdictIsBlockMembership` |
| `TxtRecords` | `src/dns-responder.ts`, `src/dns-discovery.ts` | `EntrySurvivesIff`, `RoundTrip`, `SpaceAndCaseAreOverlooked` |

`StableSort` gives `Array.prototype.sort` its meaning: the stable sort by a strict weak order is
unique, so the insertion sort used in the model stands for any stable sort.

## Where the code does not keep a promise

- **Repeated task ids** (`src/queueing-executor.ts:307-312`). `queueDelete` removes by task id, so
  starting the head of the queue also drops the next queued entry with the same id, whose promise
  then never settles. `ConservedUnlessDropped` says that nothing else is ever lost, and
  `RepeatedIdLosesTheSecondEntry` gives a run in which it happens. The capacity, order and
  at-most-once theorems hold with repeated ids too.
- **Reference counts** (`src/executor.ts:1139-1152`). `acquire` does not look at the pool again
  after its `await`. `CountStaysExactIff` names the steps at which a count goes wrong, and
  `OverlappingAcquiresCloseAHeldConnection` gives a run; `DestroyIsFinalIffNothingConnects` is the
  same question for `destroy`.
- **"Identical to the legacy three-state pattern"** (`src/peer-health.ts:52-53`).
  `SameAsThreeStatesIff` gives the exact set of configurations for which it holds, for clock
  readings after 1970: it includes, but is larger than, the ones without optional settings.
- **Errors that "would fail identically"** (`src/client.ts:215-216`). Within a pass they end the
  fallback loop, but they come back with status 500 (`src/client.ts:395-399`), which the retry loop
  repeats (`src/peer-retry.ts:21-23`), and the failure is recorded first (`src/client.ts:390`), so
  the next pass may begin with another transport. `FollowedByAnotherPassIff` says when there is a
  next pass, `RetryBeginsWithIff` with which transport it begins, `NonTransportErrorMovesOnIff` that
  on a card without history it is another one whenever the card has another one, and
  `AuthenticationErrorIsRetriedElsewhere` gives a call.
- **Agent events carry no request id** (`src/executor.ts:980-995`). The late answer to a request
  that has timed out settles whichever agent request is then alone. `ClaimedOrOwnFate` gives the
  outcome of every request of every run, `RequestsDoNotInterfereIff` says exactly when it is the one
  that the request's own events decide, and `LateAnswerIsMisdelivered` gives a run.
- **Purging is invisible only as long as the clock is not set back**
  (`src/internal/idempotency.ts:46-50`, `src/internal/security.ts:134-142`).
  `CheckAnswersFromHistoryIff`, `NonceAcceptedIff` and `ReplayProtectedIff` hold for clock readings
  in any order; `ClockMustNotRunBackwards` and `ReplayAfterClockSetBack` give runs.

## Model

| member | source | states |
|---|---|---|
| QueueingExecutor.QueueingAgentExecutor.constructor | src/queueing-executor.ts:111-119 | limits are clamped to at least one slot and at least zero queue places; nothing queued or running |
| QueueingExecutor.QueueingAgentExecutor.Execute | src/queueing-executor.ts:121-177 | takes exactly the submission step: start, queue, or reject as overloaded; returns a fresh ticket |
| QueueingExecutor.QueueingAgentExecutor.CancelQueuedTask | src/queueing-executor.ts:179-205 | settles and removes the first queued entry with the id, and answers whether there was one |
| QueueingExecutor.QueueingAgentExecutor.RunEntry | src/queueing-executor.ts:207-235 | the start step, which deletes by task id and takes a slot |
| QueueingExecutor.QueueingAgentExecutor.ResumeEntry | src/queueing-executor.ts:262-295 | the finishing step: settles the promise, frees the slot, drains the queue |
| QueueingExecutor.QueueingAgentExecutor.DrainQueue | src/queueing-executor.ts:297-305 | the loop equals the recursive drain of the specification |
| QueueingExecutor.QueueingAgentExecutor.QueueDelete | src/queueing-executor.ts:307-312 | removes the first entry with the id and nothing else |
| QueueingExecutor.FinishStartsTheHead | src/queueing-executor.ts:271-305 | a finished task hands its slot to exactly the head of the queue, and the clamp at zero never acts |
| QueueingExecutor.StepKeepsInv | src/queueing-executor.ts:121-305 | every step keeps capacity, order and settlement invariants |
| QueueingExecutor.RunKeepsInv | src/queueing-executor.ts:121-305 | so does every run, which also never changes the limits |
| QueueingExecutor.CapacityAndWorkConservation | src/queueing-executor.ts:121-305 | in every run the counter is the number of running tasks, both limits hold, and a task waits only while every slot is taken |
| QueueingExecutor.FirstComeFirstServed | src/queueing-executor.ts:159-305 | in every run tasks start in submission order |
| QueueingExecutor.SettledAtMostOnce | src/queueing-executor.ts:130-192 | in every run no promise settles twice, waiting and running ones are unsettled, rejected and cancelled ones never start |
| QueueingExecutor.StepDelivers | src/queueing-executor.ts:130-192 | an event answers exactly the callers it should: overloaded if all slots and queue places are taken, canceled if it names the first queued entry with its id, completed or failed as the delegate says |
| QueueingExecutor.AnsweredIff | src/queueing-executor.ts:130-269 | over every run a promise has received an answer if and only if some event of the run gave it, in the state it met |
| QueueingExecutor.StepLosesExactly | src/queueing-executor.ts:207-213 | a step loses exactly the entries dropped by the delete-by-id |
| QueueingExecutor.RunLosesExactly | src/queueing-executor.ts:207-312 | the same for a run |
| QueueingExecutor.ConservedUnlessDropped | src/queueing-executor.ts:121-312 | a submitted task is queued, running or settled if and only if no step of the run dropped it |
| QueueingExecutor.RepeatedIdLosesTheSecondEntry | src/queueing-executor.ts:307-312 | a concrete run with a repeated id that loses a task |
| QueueingExecutor.StepKeepsPending | src/queueing-executor.ts:130-192 | with a fresh id per submission the id map holds exactly the queued and running entries, and nothing is dropped |
| QueueingExecutor.DistinctIdsLoseNothing | src/queueing-executor.ts:121-312 | the same over a run |
| QueueingExecutor.DistinctIdsConserveEveryTask | src/queueing-executor.ts:121-312 | with distinct outstanding ids every task is in exactly one of queued, running, settled once |
| DispatchQueue.Dispatcher.EnqueueDispatch | src/dispatch-queue.ts:22-46 | chains behind the tail of the key and becomes the tail |
| DispatchQueue.Dispatcher.CatchPrevious | src/dispatch-queue.ts:36-37 | the `catch` on the predecessor settles: a rejection becomes a fulfilment |
| DispatchQueue.Dispatcher.CallFn | src/dispatch-queue.ts:37-39 | the `then` callback runs: the start step |
| DispatchQueue.Dispatcher.DeliverResult | src/dispatch-queue.ts:38-43 | the caller's promise gets the outcome of `fn`, and the callback ends normally, through its catch clause if `fn` rejected |
| DispatchQueue.Dispatcher.SettleChain | src/dispatch-queue.ts:37-44 | the chain promise settles as its callback ended |
| DispatchQueue.StepKeepsPromises | src/dispatch-queue.ts:36-44 | every step keeps how settlements, phases and handlers go together, whichever handlers stand in the code |
| DispatchQueue.EveryChainFulfils | src/dispatch-queue.ts:36-44 | in every run no chain promise and no caught predecessor rejects |
| DispatchQueue.FailuresAreIsolatedIff | src/dispatch-queue.ts:14-44 | in every run every operation gets its call if and only if the catch on the predecessor or the try/catch around `fn` is there |
| DispatchQueue.Dispatcher.CleanupTail | src/dispatch-queue.ts:48-55 | the map entry goes only if it is still this chain |
| DispatchQueue.StartMeansAllEarlierSettled | src/dispatch-queue.ts:27-46 | when an operation may start, every earlier one of its key has settled |
| DispatchQueue.StartIsLatest | src/dispatch-queue.ts:27-46 | an operation starts once, after all earlier started ones of its key |
| DispatchQueue.StepKeepsInv | src/dispatch-queue.ts:22-58 | every step keeps seriality, chaining, map, result and log invariants |
| DispatchQueue.CleanupKeepsMap | src/dispatch-queue.ts:48-55 | the identity check before the delete keeps the map right |
| DispatchQueue.MutualExclusion | src/dispatch-queue.ts:11-12 | in every run, once an operation has started all earlier ones of its key are over |
| DispatchQueue.StartsInEnqueueOrder | src/dispatch-queue.ts:11-12 | in every run operations of a key start once each, in enqueue order |
| DispatchQueue.MapCleansItself | src/dispatch-queue.ts:48-55 | a key missing from the map has nothing unsettled; after all cleanups the map is empty |
| DispatchQueue.EarliestUnsettledCanMove | src/dispatch-queue.ts:36-44 | the earliest unsettled operation of a key can always take a step |
| DispatchQueue.KeysAreIndependent | src/dispatch-queue.ts:11-12 | a step on one key never enables or disables a step towards a start on another |
| DispatchQueue.ResultIsOwnOutcome | src/dispatch-queue.ts:31-43 | after every run a caller has received the outcome of the first call of its own operation, and nothing before that |
| DispatchQueue.FailuresDoNotCascade | src/dispatch-queue.ts:14-37 | with either handler, runs that differ only in which operations reject have the same schedule |
| RpcConnection.GatewayRpcConnection.Request | src/executor.ts:752-793 | the request step: not connected, sent and pending with a timer, or send failed |
| RpcConnection.GatewayRpcConnection.RequestTimer | src/executor.ts:772-775 | a timeout removes and rejects its own request |
| RpcConnection.GatewayRpcConnection.OnMessage | src/executor.ts:952-1031 | the message step for agent events and responses |
| RpcConnection.GatewayRpcConnection.RejectAllPending | src/executor.ts:1033-1039 | the loop equals the recursive specification |
| RpcConnection.GatewayRpcConnection.OnSocketClose | src/executor.ts:705-709 | a dropped socket rejects everything pending |
| RpcConnection.GatewayRpcConnection.CloseConnection | src/executor.ts:795-814 | detaches the listeners and rejects everything pending |
| RpcConnection.RejectAllSettlesEveryPending | src/executor.ts:1033-1039 | every pending promise gets the error, every timer is cleared, settled promises are untouched |
| RpcConnection.StepKeepsInv | src/executor.ts:752-1039 | every step keeps: pending exactly if a timer is armed, and settled exactly once otherwise |
| RpcConnection.PendingOrSettledOnce | src/executor.ts:752-1039 | after every run each request is pending with a live timer or settled exactly once |
| RpcConnection.ClaimedOrOwnFate | src/executor.ts:952-1039 | every request of every run comes out with the payload of the agent event that claims it, if one does first, and else as its own events decide |
| RpcConnection.RequestsDoNotInterfereIff | src/executor.ts:980-1031 | it comes out as its own events decide if and only if no agent event claims it first, or one with the same payload |
| RpcConnection.OnlyAgentFinalsAreClaimed | src/executor.ts:986-993 | only final-expecting agent requests are ever claimed |
| RpcConnection.OtherRequestsDoNotInterfere | src/executor.ts:999-1031 | a request of any other kind comes out as if it were alone on the connection |
| RpcConnection.IssuedRequestFate | src/executor.ts:752-793 | the whole life of a request from its issue on, with just the method and flag it was issued with: not connected, send failed, or the fate of a pending request |
| RpcConnection.LateAnswerIsMisdelivered | src/executor.ts:986-993 | a concrete run in which a request comes out with the answer to another one that had timed out |
| RpcConnection.SettledStays | src/executor.ts:1003-1021 | a settled promise receives nothing more |
| RpcConnection.AgentEventSettlesOnlyTheSoleRequest | src/executor.ts:980-995 | an agent event settles a request if and only if it has content and the request is the only outstanding final-expecting agent request |
| RpcConnection.AcceptedIsNotFinal | src/executor.ts:1013-1018 | an accepted frame leaves a final-expecting request alone |
| ConnectionPool.GatewayRpcConnectionPool.Acquire | src/executor.ts:1117-1141 | up to the `await`: reuse an open connection, or evict a dead one and start connecting |
| ConnectionPool.GatewayRpcConnectionPool.Reuse | src/executor.ts:1127-1136 | the hot path counts one more reference and leaves the timer |
| ConnectionPool.GatewayRpcConnectionPool.ConnectSettled | src/executor.ts:1143-1153 | a finished connect overwrites the pool entry with one reference |
| ConnectionPool.GatewayRpcConnectionPool.ReleaseConnection | src/executor.ts:1161-1176 | one reference less, never below zero; the last one arms the eviction timer; a release without a holder is tolerated |
| ConnectionPool.GatewayRpcConnectionPool.OnEvictionTimer | src/executor.ts:1280-1287 | evicts only at a count of zero |
| ConnectionPool.GatewayRpcConnectionPool.EvictConnection | src/executor.ts:1237-1246 | closes the connection and deletes whatever its key maps to |
| ConnectionPool.GatewayRpcConnectionPool.DestroyPool | src/executor.ts:1196-1210 | closes exactly the pooled connections and empties the pool |
| ConnectionPool.GatewayRpcConnectionPool.GetStats | src/executor.ts:1178-1194 | active and idle connections are counted by reference count and add up |
| ConnectionPool.StepKeepsInv | src/executor.ts:1117-1287 | every step keeps: counts at most holders, idle entries have a full timeout ahead of them |
| ConnectionPool.CountsNeverExceedHolders | src/executor.ts:1117-1287 | in every run the count is at most the holders, and the timer evicts exactly when the count is zero and the key was idle for the whole timeout |
| ConnectionPool.AcquireReusesOpenConnections | src/executor.ts:1125-1143 | in every run an acquire hands out an open pooled connection again, idle or not, and otherwise drops a dead one and starts exactly one connect |
| ConnectionPool.ConnectPoolsTheConnection | src/executor.ts:1143-1153 | a finished connect is pooled open with one holder, a failed one leaves the pool alone |
| ConnectionPool.CountStaysExactIff | src/executor.ts:1139-1152 | an exact count stays exact through a step if and only if the step is none of three named ones |
| ConnectionPool.DisciplinedRunsCountExactly | src/executor.ts:1117-1287 | without overlapping cold acquires and drops of held connections, counts are exact, held connections open, connections outside the pool closed, and eviction only hits idle keys |
| ConnectionPool.OverlappingAcquiresCloseAHeldConnection | src/executor.ts:1139-1152 | a concrete run of overlapping acquires after which the timer closes a held connection |
| ConnectionPool.DestroyIsFinalIffNothingConnects | src/executor.ts:1196-1210 | the pool stays empty after `destroy` if and only if no connect was under way |
| PeerHealth.PeerHealthManager.constructor | src/peer-health.ts:83-93 | every configured peer starts closed and unknown |
| PeerHealth.PeerHealthManager.CheckPeerCapacity | src/peer-health.ts:174-181 | the round-robin check, which touches only this peer's counter |
| PeerHealth.PeerHealthManager.IsPeerAvailable | src/peer-health.ts:119-171 | the answer and the new state of the peer; other peers unchanged; unknown peers are available |
| PeerHealth.PeerHealthManager.RecordPeerSuccess | src/peer-health.ts:184-202 | the peer closes; other peers unchanged |
| PeerHealth.PeerHealthManager.RecordPeerFailure | src/peer-health.ts:205-269 | the failure transition; other peers unchanged |
| PeerHealth.PeerHealthManager.OnProbe | src/peer-health.ts:310-323 | the transition after a health probe |
| PeerHealth.ReachableStates | src/peer-health.ts:84-93 | in every run the circuit tells between which thresholds the failures stand, and recovering holds exactly while its probe is in flight |
| PeerHealth.OpenEndsOnlyAfterCooldown | src/peer-health.ts:129-143 | asking leaves the open state exactly when the cooldown since the last failure is over |
| PeerHealth.StateFollowsFromHistory | src/peer-health.ts:119-269 | for every configuration and run, the circuit, count, health and times follow from the failures since the last success and the questions since the last failure |
| PeerHealth.AnswerFollowsFromHistory | src/peer-health.ts:119-171 | so does whether a question is admitted, but for throttling |
| PeerHealth.CounterStartsAfresh | src/peer-health.ts:137-250 | the throttling counter starts at zero with each stage and is dropped when the soft stage ends |
| PeerHealth.SoftStageAdmits | src/peer-health.ts:125-127 | in the soft stage, n questions admit exactly the configured share, one half by default |
| PeerHealth.RecoveryAdmits | src/peer-health.ts:145-165 | a recovering peer closes on a question if and only if the curve has reached 0.99, and until then n questions at one instant admit exactly the share the curve gives |
| PeerHealth.ChecksFollowQuota | src/peer-health.ts:174-181 | how many of a run of checks are admitted, from any counter |
| PeerHealth.ThrottleIsExact | src/peer-health.ts:174-181 | from zero, n checks admit n/10*k + min(n%10, k) calls, and any ten in a row admit k |
| PeerHealth.RunRefines | src/peer-health.ts:52-53 | with invisible soft stage and recovery every run answers like the three-state breaker and stays related to it |
| PeerHealth.SoftStageIsVisible | src/peer-health.ts:125-127 | otherwise a run tells the soft stage apart |
| PeerHealth.RecoveryIsVisible | src/peer-health.ts:145-165 | otherwise a run tells gradual recovery apart |
| PeerHealth.SameAsThreeStatesIff | src/peer-health.ts:52-53 | the answers of every run equal those of the three-state breaker if and only if neither can be felt |
| TransportFallback.OrderTransports | src/transport-fallback.ts:40-59 | the two buckets make up the stable sort of the list by static rank |
| TransportFallback.BucketsAreStableSort | src/transport-fallback.ts:40-59 | bucketing and sorting the known ones equals one stable sort |
| TransportFallback.RankIsPlace | src/transport-fallback.ts:29-29 | the rank is the place in the priority order, or its length |
| TransportFallback.TransportStats.constructor | src/transport-fallback.ts:152-155 | window and normaliser are at least one; no history |
| TransportFallback.TransportStats.Record | src/transport-fallback.ts:158-169 | afterwards the list holds exactly the last `windowSize` outcomes of the transport |
| TransportFallback.TransportStats.GetScore | src/transport-fallback.ts:175-209 | the score is computed from exactly the last `windowSize` outcomes and lies in [0, 1] |
| TransportFallback.TransportStats.Count | src/transport-fallback.ts:212-214 | the number of outcomes in the window |
| TransportFallback.ScoreInUnitInterval | src/transport-fallback.ts:194-209 | scores lie in [0, 1] and an untested transport scores 1 |
| TransportFallback.LatencyLowersScore | src/transport-fallback.ts:186-209 | a slower success lowers the score, a slower failure does not change it |
| TransportFallback.ScoreOfInstantAnswers | src/transport-fallback.ts:175-209 | without latency the score is the share of successes |
| TransportFallback.ScoreAtNormalizer | src/transport-fallback.ts:128-134 | at the normaliser's latency it is half of that |
| TransportFallback.AdaptiveOrderIsStable | src/transport-fallback.ts:233-249 | the comparator is a strict weak order and the result the stable sort by it |
| TransportFallback.NoHistoryMeansStaticOrder | src/transport-fallback.ts:230-231 | without outcomes the adaptive order is the static order, for every list |
| TransportFallback.FirstTriedIff | src/transport-fallback.ts:233-249 | an interface comes first if and only if it beats all others by score over its window, static rank and place |
| StableSort.SortIsStable | src/transport-fallback.ts:53-56 | sorting orders the list and keeps ties in place |
| StableSort.StableSortIsUnique | src/transport-fallback.ts:237-248 | two stable sorts of a list are equal |
| StableSort.SortHead | src/transport-fallback.ts:237-248 | which element comes out first |
| Client.TryOne | src/client.ts:355-365 | one attempt and the outcome that is recorded for it |
| Client.TryTransports | src/client.ts:342-424 | tries a prefix of the list, stops at the first success or non-transport failure, and records exactly the attempts made |
| Client.FallbackOutcome | src/client.ts:342-424 | a pass succeeds exactly when some transport delivers and all before it failed at transport level; every failure is a 500 |
| Client.StatisticsGainTheAttempts | src/client.ts:364-390 | each transport's statistics gain exactly the outcomes of its own attempts, deliveries as successes and everything else as failures |
| Client.DelayBounds | src/peer-retry.ts:47-55 | delays grow from pass to pass up to the maximum plus a tenth |
| Client.DelayDoubles | src/peer-retry.ts:47-55 | the delay starts at the base, doubles from pass to pass, stops at the maximum, and chance adds its share of a tenth |
| Client.RetryableStatuses | src/peer-retry.ts:19-24 | 429 and 5xx are retried and nothing else, by the retry loop and the fallback loop alike |
| Client.Pause | src/peer-retry.ts:99-108 | every pause is the computed delay for its attempt |
| Client.PausesDouble | src/peer-retry.ts:98-108 | apart from chance the pauses of a call start at the base delay and double up to the maximum |
| Client.A2AClient.DoSendMessage | src/client.ts:218-424 | one pass: no attempt if it throws, one with at most one transport, else a fallback run in the order that the statistics before it give; and the statistics after it |
| Client.A2AClient.OrderInterfaces | src/client.ts:322-327 | either branch yields the adaptive order |
| Client.A2AClient.NextPass | src/peer-retry.ts:71-96 | one more pass, which starts with the statistics that the one before it left |
| Client.A2AClient.SendWithRetry | src/peer-retry.ts:63-113 | the passes form a retry run: each starts with the statistics of the one before, all but the last are retryable, at most `maxRetries + 1`, the result is that of the last |
| Client.FollowedByAnotherPassIff | src/peer-retry.ts:63-113 | a pass is followed by another if and only if it failed, not by throwing something that is no network error, and retries are left |
| Client.CallSucceedsIff | src/client.ts:187-205 | a call succeeds if and only if its last pass gets the message through, by the factory or by a transport, and no pass before it did |
| Client.NextCallRefusedIff | src/client.ts:178-203 | over every sequence of calls, once `failureThreshold` of them have failed since the last delivery the next is refused if and only if the cooldown is not over or a probe is out; below the thresholds none is |
| Client.RetryBeginsWithIff | src/client.ts:322-357 | a retry begins with an interface if and only if it beats all others by the statistics that the failed pass left |
| Client.NonTransportErrorMovesOnIff | src/client.ts:388-400 | on a card without history, the retry after a non-transport error begins with a different transport if and only if the card has one |
| Client.AuthenticationErrorIsRetriedElsewhere | src/client.ts:388-400 | a concrete call that meets the same error on JSONRPC and then on GRPC |
| Client.AttemptsAreBounded | src/client.ts:187-194 | at most `(maxRetries + 1)` times the transports are contacted per call, added up over its passes |
| Client.A2AClient.SendAdmitted | src/client.ts:187-194 | the passes of an admitted call, with or without retries, and their statistics |
| Client.A2AClient.SendMessage | src/client.ts:166-206 | refused exactly if the breaker knows the peer and says so, and then without any attempt; a delivered call closes the circuit with no failures, a failed one adds one failure at its time, a refused or raised one neither; other peers unchanged |
| Outbox.OutboxRelay.EnqueueMessage | src/internal/outbox.ts:30-48 | appends one pending entry that is due at once |
| Outbox.OutboxRelay.CollectPending | src/internal/outbox.ts:51-61 | exactly the stored entries that are pending and whose time has come, each as often as stored, sorted by creation |
| Outbox.OutboxRelay.MarkSent | src/internal/outbox.ts:68-71 | marks exactly this entry |
| Outbox.OutboxRelay.MarkEntryFailed | src/internal/outbox.ts:77-96 | counts the failure, then dead letter or back-off |
| Outbox.OutboxRelay.CleanupSent | src/internal/outbox.ts:122-129 | removes exactly the old delivered entries |
| Outbox.OutboxRelay.HandOutNext | src/internal/outbox.ts:143-146 | marks the next entry of the batch as sending, or ends the tick |
| Outbox.OutboxRelay.OnTick | src/internal/outbox.ts:138-146 | a tick while another is under way does nothing |
| Outbox.OutboxRelay.OnSendDone | src/internal/outbox.ts:146-159 | records the outcome and goes on with the batch |
| Outbox.MarkFailedIsAccounted | src/internal/outbox.ts:77-96 | the accounting of an entry survives a failure |
| Outbox.BackoffIsBounded | src/internal/outbox.ts:89-95 | the wait is at least the doubled delay or the maximum, and at most the maximum |
| Outbox.BackoffDoubles | src/internal/outbox.ts:89-95 | the first wait is twice the base delay, each further one twice the one before, up to the maximum, jitter on top |
| Outbox.PendingIsInEnqueueOrder | src/internal/outbox.ts:51-61 | the sort never reorders anything: due entries come in enqueue order |
| Outbox.StepKeepsInv | src/internal/outbox.ts:30-161 | every step keeps the accounting of all entries and the state of the batch |
| Outbox.RetriesAreAccounted | src/internal/outbox.ts:77-161 | in every run an entry is sent at most `max(1, maxRetries)` times and never early, its retry count is its failures, and it is dead exactly when they are used up |
| Outbox.OneInFlight | src/internal/outbox.ts:138-161 | in every run at most one entry is being sent |
| Outbox.UndeliveredIsNeverLost | src/internal/outbox.ts:122-161 | in every run an enqueued message is stored until it has been acknowledged |
| Outbox.TickTakesWhatIsDue | src/internal/outbox.ts:138-146 | a tick that finds no flush under way takes exactly the entries that are pending and due, in enqueue order |
| Outbox.NewAndFailedEntriesWait | src/internal/outbox.ts:30-96 | a new entry waits from the start, a failed one with retries left from the moment it comes back |
| Outbox.SentAtFirstDueTick | src/internal/outbox.ts:136-161 | in every run a waiting entry is left alone until the first such tick at or after its time, and that one takes it |
| Outbox.CountsComeFromTheEvents | src/internal/outbox.ts:146-155 | in every run the retry count is the number of failed sends and an entry is marked sent exactly if a send succeeded |
| Outbox.CleanupRemovesExactly | src/internal/outbox.ts:122-129 | cleanup removes exactly the delivered entries older than the given age |
| TtlStores.IdempotencyStore.CheckKey | src/internal/idempotency.ts:42-57 | answers as the latest store of the key in the whole history says unless that was purged, which a clock that is not set back never shows; a purged entry is counted |
| TtlStores.IdempotencyStore.StoreResponse | src/internal/idempotency.ts:60-76 | adds one store to the history, with the default or the given time to live |
| TtlStores.IdempotencyStore.CleanupExpired | src/internal/idempotency.ts:79-87 | the loop removes exactly the expired entries and counts them |
| TtlStores.HoldsLatestUnlessPurged | src/internal/idempotency.ts:42-87 | after every history, under each key the latest entry stored unless it was purged since |
| TtlStores.CheckAnswersFromHistoryIff | src/internal/idempotency.ts:36-57 | for every history, `check` answers as the latest store says if and only if that entry was not purged while it is valid now |
| TtlStores.CheckAnswersFromHistory | src/internal/idempotency.ts:36-57 | so it always does while the clock is not set back |
| TtlStores.ClockMustNotRunBackwards | src/internal/idempotency.ts:46-50 | a clock set back shows the purge |
| TtlStores.NonceCache.AddNonce | src/internal/security.ts:115-127 | accepted exactly when every accepted earlier `add` that is still valid has been forgotten, so exactly when there is none while the clock is not set back |
| TtlStores.NonceCache.PurgeExpired | src/internal/security.ts:135-142 | the loop removes exactly the expired nonces |
| TtlStores.CacheHoldsUnforgotten | src/internal/security.ts:104-142 | after every history the cache holds exactly the acceptance that is not forgotten, with its expiry |
| TtlStores.NonceAcceptedIff | src/internal/security.ts:114-142 | for every history, accepted if and only if every valid acceptance has been forgotten |
| TtlStores.ReplayProtectedIff | src/internal/security.ts:114-142 | the promise is kept if and only if not all valid acceptances are forgotten, which takes a clock that was set back |
| TtlStores.NonceAcceptedIffNotReplayed | src/internal/security.ts:114-127 | replay protection over every history whose clock is not set back |
| TtlStores.ReplayAfterClockSetBack | src/internal/security.ts:134-142 | a clock set back lets a replay through |
| QuorumDiscovery.Validate | src/quorum-discovery.ts:105-115 | no error exactly for ordered thresholds of at least one and zero |
| QuorumDiscovery.NewManager | src/quorum-discovery.ts:100-123 | a manager exactly for accepted thresholds, else an error |
| QuorumDiscovery.QuorumDiscoveryManager.Start | src/quorum-discovery.ts:126-139 | arms an immediate tick unless running |
| QuorumDiscovery.QuorumDiscoveryManager.Stop | src/quorum-discovery.ts:142-149 | disarms the timer and keeps the mode |
| QuorumDiscovery.QuorumDiscoveryManager.RefreshSettled | src/quorum-discovery.ts:189-216 | after every sample the mode is the one the whole trace determines, and the next delay follows the new mode |
| QuorumDiscovery.EndsStable | src/quorum-discovery.ts:189-197 | the final mode of a trace from either mode |
| QuorumDiscovery.StableIffLocked | src/quorum-discovery.ts:189-197 | stable if and only if some sample reached the upper threshold and every later one stayed at or above the lower |
| QuorumDiscovery.ChangesCostMovement | src/quorum-discovery.ts:193-199 | mode changes cost movement of the density, from any start |
| QuorumDiscovery.OscillationIsBounded | src/quorum-discovery.ts:193-199 | k changes need a total movement of k - 1 dead zones |
| QuorumDiscovery.SettlesIffThresholdsOrdered | src/quorum-discovery.ts:105-109 | the mode settles at every constant density if and only if the thresholds are ordered |
| RoutingRules.FirstMatchIsBest | src/routing-rules.ts:150-153 | in priority order the first match is the best match of the configuration, ties by position |
| RoutingRules.HillIsStrictlyIncreasing | src/routing-rules.ts:169-187 | strictly increasing into [0, 1), and one half at `kd` |
| RoutingRules.HillPreservesOrderIff | src/routing-rules.ts:181-187 | scores tell all affinities apart if and only if `n >= 1` and `kd > 0` |
| RoutingRules.HillOdds | src/routing-rules.ts:181-187 | the odds of the score are the n-th power of affinity over `kd` |
| RoutingRules.AffinityIsNonNegative | src/routing-rules.ts:206-255 | non-negative weights and rates give non-negative affinity |
| RoutingRules.AffinityLosesWhatIsMissing | src/routing-rules.ts:206-255 | from full affinity, each criterion takes its own weight times the share of its names that is missing |
| RoutingRules.MatchesIff | src/routing-rules.ts:341-374 | a rule matches if and only if its pattern, of at most 500 characters, matches the first 10000 of the text, a tag is shared, and the peer offers one of the skills |
| RoutingRules.HillRanksByAffinity | src/routing-rules.ts:302-306 | sorting by score equals the stable sort by raw affinity |
| RoutingRules.CollectMatches | src/routing-rules.ts:283-300 | the loop scores exactly the matching rules, in order |
| RoutingRules.MatchAllRules | src/routing-rules.ts:274-309 | legacy order, or the stable descending order by score, which is that by affinity |
| RoutingRules.MatchRule | src/routing-rules.ts:325-335 | the target of the highest-priority match, and nothing only if no rule matches |
| FileSecurity.PrivateIffInListedBlock | src/file-security.ts:78-118 | the octet tests decide exactly membership of the 32-bit address in the listed CIDR blocks |
| FileSecurity.SharedAddressSpaceIsPublic | src/file-security.ts:109-117 | nothing in 100.64.0.0/10 counts as private |
| FileSecurity.GroupIsCanonical | src/file-security.ts:160-160 | padding and lower-casing a group writes its value with four digits |
| FileSecurity.SplitUndoesJoin | src/file-security.ts:157-160 | splitting at colons undoes joining with colons |
| FileSecurity.SplitAroundDoubleColon | src/file-security.ts:147-148 | splitting at a double colon finds the two sides |
| FileSecurity.SpellingsNormalizeAlike | src/file-security.ts:146-161 | every spelling of an address (section 2.2 of RFC 4291, forms 1 and 2) normalises to the same eight groups |
| FileSecurity.CanonicalIsInjective | src/file-security.ts:146-161 | different addresses have different normal forms |
| FileSecurity.CanonicalVerdict | src/file-security.ts:120-144 | the text tests on a normal form decide membership in ::, ::1, fc00::/7, fe80::/10 and the mapped IPv4 blocks |
| FileSecurity.VerdictIsBlockMembership | src/file-security.ts:120-144 | the same for every spelling in forms 1 and 2; an IPv4-mapped address (section 2.5.5.2 of RFC 4291) spelled so gets the verdict of its IPv4 address |
| TxtRecords.EncodeTxtData | src/dns-responder.ts:82-90 | one chunk per entry with a value, in order |
| TxtRecords.ParseTxtRecords | src/dns-discovery.ts:61-76 | the nested loops equal the recursive specification |
| TxtRecords.EntrySurvivesIff | src/dns-discovery.ts:67-72 | an entry comes back if and only if its key is non-empty, has no equals sign, and neither trimming nor lower-casing changes key or value |
| TxtRecords.CleanKeyIff | src/dns-discovery.ts:67-72 | which keys survive: non-empty, no equals sign, no capital letter, no space at either end |
| TxtRecords.SpaceAndCaseAreOverlooked | src/dns-discovery.ts:67-72 | space around key and value and capital letters in the key make no difference |
| TxtRecords.ParseUndoesEncode | src/dns-discovery.ts:61-76 | parsing what was encoded writes the entries with values one after the other |
| TxtRecords.RoundTrip | src/dns-responder.ts:82-90 | with distinct clean keys (section 6.4 of RFC 6763) the original entries come back, minus those with empty values |

## Left out

- QueueingExecutor.QueueingAgentExecutor.Execute: listeners that call back into the executor while an event is published, and a delegate that settles before its first `await`, are not modelled.
- QueueingExecutor.QueueingAgentExecutor.CancelQueuedTask: what the delegate does with a task that is not queued is outside the model.
- QueueingExecutor.SettledAtMostOnce: `TaskState` is imported as a type only and used as a value (`src/queueing-executor.ts:3`, `171`, `187`); the model takes it for the enumeration it names, so publishing a queued or cancelled task does not throw.
- The saturation delay of the scheduler: the constructor never stores the option, so it cannot run.
- RpcConnection.GatewayRpcConnection.Request: request ids are fresh by assumption; the handshake, its challenge and device identity are not modelled.
- ConnectionPool.GatewayRpcConnectionPool.Acquire: pool entries are numbered values in a list rather than heap objects; keys stand for configurations, so the hash is injective by assumption; heartbeats and reconnect attempts are not modelled.
- PeerHealth.SameAsThreeStatesIff: clock readings are positive, because the source reads a failure time of zero as none; the recovery curve is an arbitrary function instead of an exponential.
- Client.A2AClient.SendMessage: calls of one peer that overlap, and probes during a call, are covered by the theorems of `PeerHealth`, which hold for every sequence of questions and outcomes, but not by the contract of this method; the call without a health manager is the part `SendAdmitted`; `withRetry` is proved with the send operation in place, since methods cannot be passed around.
- Client.A2AClient.DoSendMessage: building the interface list from the agent card, message construction and error texts.
- Outbox.RetriesAreAccounted: only the relay marks entries; `remove`, manual marking, and starting and stopping the relay's timer are not modelled.
- TtlStores.NonceCache.AddNonce: both clock readings in `add` are the same; `has`, signatures and the peer registry are not modelled.
- QuorumDiscovery.QuorumDiscoveryManager.Start: a restart while a refresh is out, which would start a second polling loop, shares the one timer field of the model.
- RoutingRules.FirstMatchIsBest: validation of the configured JSON, regular-expression semantics and non-integer Hill coefficients are not modelled.
- FileSecurity.VerdictIsBlockMembership: spellings with a dotted tail (form 3 in section 2.2 of RFC 4291), text that is not an IPv6 address, dotted IPv4 text and the dispatch on address family are not modelled.
- URI and MIME checks, size estimates and DNS in `src/file-security.ts`: one-branch checks.
- TxtRecords.RoundTrip: characters stand for themselves, so byte encoding and non-ASCII lower-casing are not modelled.
- Client.NextCallRefusedIff: assumes that no recovery curve is configured; with one, `PeerHealth.AnswerFollowsFromHistory` and `RecoveryAdmits` say what is refused.
- Telemetry, audit, metrics, logging, configuration, the command line, HTTP, gRPC and the SDK.
- Fairness and liveness under real timers.
