# A verified model of the model router

The router chooses a language model for each inference request under a policy, invokes it with
bounded fallback, and replays repeated requests from an idempotency store. This project models that
logic in Dafny 4.11 and proves what holds over every input, every provider behaviour and every
interleaving. `dafny verify dfyconfig.toml` checks everything.

How the model is laid out, one module per component:

- **Idempotency.** `MemoryStore` and `DynamoStore` are the two stores as classes; `MemoryProtocol` and
  `DynamoProtocol` interleave any number of clients over them (the remote `reserve` is split into clock
  reading, conditional put and get, and the table expires items by itself); `DynamoReplay` traces replies
  to their origin; `DynamoCounterexamples` builds the runs that break promises; `StoreEquivalence`
  compares the stores; `IdempotentInvocation` is the orchestrator's use of a store.
- **Invocation.** `Orchestrator` is the synchronous fallback loop and `Streaming` the generator, as a
  machine advanced one pull at a time. Both are stated over `AttemptHistory` (what attempting each
  candidate would amount to) and `Aggregation` (the final decision). `StreamingRuns` holds whole
  streaming runs, the refinement between the two forms, and where they differ;
  `StreamingCounterexamples` exhibits the differences. `StreamingInvocation` is the streaming entry and
  `WireForms` puts the stream mappers and response parsers under both forms.
- **Evaluation.** `RequirementsResolution`, `Filtering`, `CostEstimation`, `Cohorts`, `Strategy`,
  `RouteEvaluation`, `ReasonCodes`, and `CandidateChain` with the governance theorem; `SampleInputs` are
  small inputs for the examples.
- **Health.** `HealthRepository` is the consecutive-failure counter; `HealthProtocol` interleaves
  requests that share it, and `OrchestratedHealth` shows that evaluated requests walking their chains
  are such requests; `OrchestratedTightness` shows the bound is reached.
- **Adapters.** `Retry`, `StreamMappers` and `Catalogue`; `RequestBudget` puts the retry loop under the chain.

Providers, clocks, random fractions, hash prefixes and generated identifiers are parameters, quantified
over in every theorem. `World` and `Plan` list what the provider would do for each candidate of a chain;
how a failure category becomes an attempt status, a reason code and a decision to move on is the
function `AsLeg`. Policies and fallback limits satisfy what loading validates (`Policy.Valid`,
src/domain/policy.py:61-100 and src/domain/fallback.py:19), and `resolve` gives one policy per request.

Six promises turn out to need a condition. Each is stated exactly and comes with an input that breaks it:

- On the in-memory store `complete` and `release` do not check ownership. Exclusion holds throughout a run if
  and only if no reserve meets a holder past its own reservation (`MemoryProtocol.RunExclusiveIff`,
  `OverdueRunWithTwoInvokers`); a holder that overstays alone does no harm.
- The remote store's docstring says that two hosts can never both succeed for one key. Without fall-throughs
  they do exactly when a put gets past an overdue holder, its reading past the reservation or the item swept
  (`WritersExclusiveIff`, `OverdueRunWithTwoHolders`, `SweptRunWithTwoHolders`). A `reserve` whose key is deleted
  twice while it runs answers NEW without writing (`FallThroughNeedsChurn`, `TimelyRunWithTwoHolders`), and a
  holder that fell through is passed by any put; `DynamoProtocol.RunExclusiveIff` is exact over all runs.
- A remote replay can outlive its retention, because the get ignores the expiry. It is within it exactly while a
  put would still be refused (`DynamoReplay.CompletedRepliesReplayFaithfully`); otherwise the expiry passed after
  the reader's own clock reading, or a delayed storing put landed after the reader's put was refused
  (`StaleReplyHasCause`, `ReplayAfterRetention`, `ReplayOfDelayedStore`).
- The two stores answer alike if and only if no reserve falls on an expiry instant (`StoresInterchangeable`,
  `StoresDifferAtExpiry`).
- A comment in `_aggregate_decision` says it is only reached with a non-empty chain. The streaming form
  also reaches it with an empty one, and then drops NO_ELIGIBLE_MODEL (`EmptyChainFormsAgreeIff`,
  `EmptyChainFormsDifferIff`).
- FALLBACK_SELECTED and `fallback_used` part ways when a fallback's stream breaks midway
  (`FallbackMarkAgreesIff`, `BrokenFallbackSplitsMark`).

## Model

| member | source | states |
|---|---|---|
| MemoryProtocol.AtMostOneInvoker | src/adapters/memory/in_memory_idempotency_store.py:33-84 | in every interleaving, while holders of a key are inside their own reservations, at most one client invokes under it and the stored record is that client's |
| MemoryProtocol.ExclusionLostIff | src/adapters/memory/in_memory_idempotency_store.py:33-84 | a step loses exclusion if and only if it reserves a key past an overdue holder; otherwise the holder keeps owning the record, however long it overstays |
| MemoryProtocol.RunExclusiveIff | src/adapters/memory/in_memory_idempotency_store.py:33-84 | the exact condition for exclusion over a whole run, with no timing hypothesis: no reserve of the key ever met an overdue holder |
| MemoryProtocol.OverdueRunWithTwoInvokers | src/adapters/memory/in_memory_idempotency_store.py:40-55 | for every non-negative stale setting, the run reserve, wait exactly that long, reserve has two invokers |
| MemoryProtocol.CachedResultShields | src/adapters/memory/in_memory_idempotency_store.py:57-80 | after a caching completion by the only invoker nobody invokes under the key until the cached record expires |
| MemoryProtocol.ReserveAnswers | src/adapters/memory/in_memory_idempotency_store.py:33-55 | in every run, what a reserve tells its client over the record it meets: CONFLICT, IN_PROGRESS, COMPLETED with its result, or NEW with a fresh reservation |
| MemoryProtocol.CompletedRepliesReplayFaithfully | src/application/invocation_orchestrator.py:259-276 | with no timing hypothesis, a COMPLETED reply carries the result of an earlier caching completion with the same key and hash, less than its retention ago; the missing-result assertion is unreachable |
| MemoryStore.ReserveOutcome | src/adapters/memory/in_memory_idempotency_store.py:38-55 | NEW exactly when no live record exists, CONFLICT exactly when a live record has another hash, IN_PROGRESS exactly when a live record of this hash is unfinished, and otherwise COMPLETED with the record's result |
| MemoryStore.InMemoryIdempotencyStore.Reserve | src/adapters/memory/in_memory_idempotency_store.py:33-55 | the critical section returns the specified outcome and leaves the specified records |
| MemoryStore.InMemoryIdempotencyStore.Complete | src/adapters/memory/in_memory_idempotency_store.py:57-80 | stores the result with its retention, or clears the key when not caching, whoever owns it |
| MemoryStore.InMemoryIdempotencyStore.Release | src/adapters/memory/in_memory_idempotency_store.py:82-84 | clears the key and nothing else |
| IdempotentInvocation.InvokeWithIdempotency | src/application/invocation_orchestrator.py:259-293 | one request is one client of the protocol: a reserve step and, if told NEW, a leaving step on whatever records other clients have left by then, which stores the result with its retention if the policy caches and otherwise clears the key; the answer or error for each outcome; the missing-result error cannot occur on sound records |
| IdempotentInvocation.SendTwice | src/application/invocation_orchestrator.py:259-293 | after a first request that meets no live record: with caching, a duplicate inside the retention gets the first result without invoking and different content conflicts; without caching the second request is invoked |
| DynamoProtocol.AtMostOneHolder | src/adapters/dynamodb/dynamodb_idempotency_store.py:42-120 | with split clock, put, get, store, delete and expiry steps, at most one client holds a key in every run with timely holders and no fall-through |
| DynamoProtocol.ExclusionLostIff | src/adapters/dynamodb/dynamodb_idempotency_store.py:42-120 | a step loses exclusion if and only if it is a put on a key whose holder is overdue (and the put's clock reading is past the reservation, or the item was swept), a put on a key whose holder fell through, or a second failed get while the holder fell through or is overdue and swept; otherwise every holder keeps what it owns |
| DynamoProtocol.RunExclusiveIff | src/adapters/dynamodb/dynamodb_idempotency_store.py:42-120 | the exact condition for exclusion over a whole run, with no hypothesis on timing or fall-throughs: none of those steps ever happened |
| DynamoProtocol.WritersExclusiveIff | src/adapters/dynamodb/dynamodb_idempotency_store.py:54-75 | in runs whose holders never fell through, exclusion holds throughout if and only if no put ever got past an overdue holder |
| DynamoProtocol.StoredItemShields | src/adapters/dynamodb/dynamodb_idempotency_store.py:91-117 | after a storing put by the only holder nobody holds the key, by put or by fall-through, until the stored item expires |
| DynamoProtocol.FallThroughNeedsChurn | src/adapters/dynamodb/dynamodb_idempotency_store.py:42-52 | the final NEW without a put needs, during that one call, a removal, a re-creation and a second removal of the key |
| DynamoCounterexamples.FallThroughReachable | src/adapters/dynamodb/dynamodb_idempotency_store.py:42-89 | for every non-negative stale setting and every start time, a run with timely holders reaches the fall-through |
| DynamoCounterexamples.TimelyRunWithTwoHolders | src/adapters/dynamodb/dynamodb_idempotency_store.py:42-89 | such a run can end with two holders of one key: excluding fall-throughs is necessary |
| DynamoCounterexamples.OverdueRunWithTwoHolders | src/adapters/dynamodb/dynamodb_idempotency_store.py:54-75 | without fall-throughs, a run with an overdue holder ends with two holders: timeliness is necessary |
| DynamoCounterexamples.SweptRunWithTwoHolders | src/adapters/dynamodb/dynamodb_idempotency_store.py:54-75 | so does a run whose second put carries a reading inside the first reservation, once the table has swept the item |
| DynamoReplay.CompletedRepliesReplayFaithfully | src/adapters/dynamodb/dynamodb_idempotency_store.py:77-117 | with no timing hypothesis, a COMPLETED reply carries the result an earlier completion of the same key and hash stored, within its retention exactly while a put would still be refused |
| DynamoReplay.StaleReplyHasCause | src/adapters/dynamodb/dynamodb_idempotency_store.py:54-117 | a reply past its retention was still within it at the clock reading of the reserving client's last put, or was stored only after that put was refused |
| DynamoReplay.GetAnswers | src/adapters/dynamodb/dynamodb_idempotency_store.py:77-89 | in every run, what a get that finds an item tells its client, over the item's fields: CONFLICT, IN_PROGRESS, or COMPLETED with the stored result |
| DynamoReplay.GetFindsNothing | src/adapters/dynamodb/dynamodb_idempotency_store.py:42-52 | a get that finds nothing leads to a second attempt, and after that to NEW without an item |
| DynamoCounterexamples.ReplayAfterRetention | src/adapters/dynamodb/dynamodb_idempotency_store.py:77-89 | a run whose get replays a result after its retention has passed, since the get ignores the expiry |
| DynamoCounterexamples.ReplayOfDelayedStore | src/adapters/dynamodb/dynamodb_idempotency_store.py:77-117 | a run whose storing put lands after the reader's refused put and after its own expiry |
| DynamoStore.DynamoDbIdempotencyStore.Reserve | src/adapters/dynamodb/dynamodb_idempotency_store.py:42-89 | the bounded put-then-get loop with arbitrary interference before each put and each get: NEW is backed by the caller's own item unless it fell through; undisturbed it equals the atomic reserve and never falls through |
| DynamoStore.DynamoDbIdempotencyStore.Complete | src/adapters/dynamodb/dynamodb_idempotency_store.py:91-117 | overwrites the item with the result, or deletes it when not caching |
| StoreEquivalence.RepliesEqualIff | src/adapters/dynamodb/dynamodb_idempotency_store.py:57-89 | from agreeing contents, for every in-order operation list, with expired items swept at any time, both stores give the same replies if and only if no reserve falls on a record's expiry instant |
| StoreEquivalence.StoresInterchangeable | src/adapters/memory/in_memory_idempotency_store.py:40 | the same from empty stores |
| StoreEquivalence.StoresDifferAtExpiry | src/adapters/dynamodb/dynamodb_idempotency_store.py:57-89 | two reserves exactly one stale period apart: NEW in memory, IN_PROGRESS remotely |
| Orchestrator.InvocationOrchestrator.InvokeUncached | src/application/invocation_orchestrator.py:295-371 | for every provider behaviour: the result, the requests sent, the health updates and one finalisation, in terms of the evaluated decision and its chain; an empty chain returns the decision unchanged |
| Orchestrator.InvocationOrchestrator.Walk | src/application/invocation_orchestrator.py:311-358 | the attempt loop stops at the first candidate that does not move on, recording one attempt, one request and at most one failure code each |
| Orchestrator.HistoryShape | src/application/invocation_orchestrator.py:311-358 | attempts are a prefix of the chain, all but the last throttled, transient or timed out, and the whole chain is tried unless a success or a permanent error ends it |
| Orchestrator.ResultConsistent | src/application/invocation_orchestrator.py:326-371 | selected alias, response and last status SUCCEEDED are equivalent; FALLBACK_SELECTED if and only if `fallback_used`; NO_ELIGIBLE_MODEL is gone |
| Orchestrator.StatusesFollowOutcomes | src/domain/invocation.py:28-33 | each attempt names its candidate and latency, and its status says what the call did, category by category |
| Orchestrator.CodesFollowStatuses | src/domain/invocation.py:35-55 | MODEL_THROTTLED is reported if and only if some attempt was throttled, MODEL_UNAVAILABLE if and only if some was transient or timed out; every other code is the evaluation's |
| Orchestrator.ViewReadsCounters | src/adapters/memory/in_memory_model_health_repository.py:36-43 | evaluation sees each model at the status of its own counter |
| CandidateChain.SentRequestsGoverned | src/application/invocation_orchestrator.py:306-320 | every request handed to the provider, primary or fallback, is governed: allowlisted, capable, in an allowed tier, not UNAVAILABLE, within cost and token limits, and resolvable |
| Orchestrator.UnavailableIsAbsorbing | src/application/invocation_orchestrator.py:373-412 | a request evaluated while a model is UNAVAILABLE never attempts it and leaves its counter unchanged |
| Aggregation.AggregateReports | src/application/invocation_orchestrator.py:414-452 | the final codes are the original ones without NO_ELIGIBLE_MODEL plus the added ones, duplicate-free in canonical order; provider, usage and cost are the succeeding candidate's; nothing else changes |
| Aggregation.ReportDetermines | src/application/invocation_orchestrator.py:414-452 | that report determines the final decision uniquely |
| Streaming.WalkToFirstChunk | src/application/invocation_orchestrator.py:182-215 | the walk until a stream starts: attempts, codes and health up to the committed candidate |
| Streaming.StreamSession.Next | src/application/invocation_orchestrator.py:182-242 | one pull is one transition of the generator (`Step`); health gains exactly the attempts recorded, and the requests sent along the walk are those of the candidates tried |
| Streaming.StepPulls | src/application/invocation_orchestrator.py:182-257 | every transition keeps the state consistent: chunks of one candidate, one finalisation exactly at the end, an error exactly when the committed stream breaks |
| Streaming.StreamSession.Drain | src/application/invocation_orchestrator.py:167-242 | pulling to the end delivers all chunks of the last candidate tried, finalises once, and ends with an error exactly when that candidate's stream broke, and then with its error |
| StreamingRuns.RunDeliversOneCandidate | src/application/invocation_orchestrator.py:182-257 | after any number of pulls the caller holds a prefix of one candidate's chunks, the last tried; finalisation happened once if some pull met the end and never if the caller stopped before |
| StreamingRuns.ChoiceIsIrrevocable | src/application/invocation_orchestrator.py:182-228 | from the first pull on, the candidates tried are those up to where the walk of the chain ends, and no pull tries another |
| StreamingRuns.RunEnds | src/application/invocation_orchestrator.py:182-257 | a caller that keeps pulling reaches the end with one published result |
| Streaming.StepRaisesIff | src/application/invocation_orchestrator.py:216-228 | a pull raises exactly at the end of a committed stream that broke, and then that stream's error |
| StreamingRuns.RunRaisesIff | src/application/invocation_orchestrator.py:182-228 | over whole runs, some pull raises an error if and only if the walk ends at a stream that starts and breaks with it |
| StreamingRuns.StatusesFollowStreams | src/application/invocation_orchestrator.py:194-240 | each attempt names its candidate and latency, and its status says what its stream did, category by category |
| StreamingRuns.CodesFollowStreams | src/application/invocation_orchestrator.py:203-205 | MODEL_THROTTLED and MODEL_UNAVAILABLE are reported if and only if some stream failed to start with those statuses; every other code is the evaluation's |
| StreamingRuns.StreamingRefinesSync | src/application/invocation_orchestrator.py:167-257 | for a non-empty chain whose streams fail to start exactly where calls fail, and otherwise drain: same decision, same attempts up to latency, same health updates |
| StreamingRuns.RunBothForms | src/application/invocation_orchestrator.py:295-371 | the two imperative forms, run on equal health, end with equal decisions, attempts up to latency, health and provider requests |
| StreamingRuns.EmptyChainFormsAgreeIff | src/application/invocation_orchestrator.py:173-174 | with an empty chain the forms return the same result if and only if evaluation did not report NO_ELIGIBLE_MODEL |
| StreamingCounterexamples.EmptyChainFormsDifferIff | src/application/invocation_orchestrator.py:173-174 | for an evaluated request with an empty chain, whatever emptied it, the forms return different results if and only if the capability is allowed and some model declares it |
| StreamingCounterexamples.AllDownEmptiesChain | src/domain/filtering.py:36-38 | with the models that declare the capability UNAVAILABLE the chain is empty and NO_ELIGIBLE_MODEL is reported |
| StreamingCounterexamples.EmptyChainExample | src/application/invocation_orchestrator.py:299-304 | such a valid policy, loaded catalogue and recorded failures exist |
| StreamingRuns.FallbackMarkAgreesIff | src/application/invocation_orchestrator.py:213-228 | FALLBACK_SELECTED matches `fallback_used` if and only if the walk of the plan does not end at a fallback whose stream breaks |
| StreamingCounterexamples.BrokenFallbackSplitsMark | src/application/invocation_orchestrator.py:213-228 | for every evaluated request with at least two candidates, when the first fails retryably to start and the second breaks midway, the published result has the code and not the flag |
| StreamingCounterexamples.BrokenFallbackExample | src/application/invocation_orchestrator.py:213-228 | a valid policy and a loaded catalogue that evaluate to such a chain |
| StreamingInvocation.LazyStream.Next | src/application/invocation_orchestrator.py:155-184 | nothing happens before the first pull, which evaluates against the health of that moment, builds the chain and walks it; every later pull is one transition |
| StreamingInvocation.StreamedRequestsGoverned | src/application/invocation_orchestrator.py:182-191 | after any number of pulls, every request the streaming form has sent is governed |
| WireForms.EmissionIsStream | src/adapters/bedrock/converse_mapper.py:102-146 | what a mapper emits is a stream of exactly its chunks, draining exactly when the mapper ends without error |
| WireForms.CorrespondsIffClean | src/adapters/openai/chat_completions_mapper.py:115-154 | one candidate behaves alike in both forms if and only if its content is whole or none of its text was emitted |
| WireForms.FormsAgreeFromWire | src/application/invocation_orchestrator.py:167-257 | over such exchanges both forms reach the same decision, attempts and health from the wire events up, and the chunks reassemble to the synchronous response |
| CandidateChain.BuildCandidateChain | src/application/invocation_orchestrator.py:385-412 | the loop computes the selected alias followed by as many distinct eligible fallback aliases, in order, as fit |
| CandidateChain.ChainProperties | src/application/invocation_orchestrator.py:399-412 | duplicate-free, at most `maximum_attempts` long, all eligible, headed by the selected alias, and complete when shorter than the limit |
| CandidateChain.ChainInOrder | src/application/invocation_orchestrator.py:405-412 | after the selected alias the chain follows the configured order |
| CandidateChain.ChainKeepsEarliest | src/application/invocation_orchestrator.py:405-412 | when not every eligible fallback fits, one left out comes later in the policy than every one kept |
| CandidateChain.ChainIsGoverned | src/domain/filtering.py:24-91 | every chain alias passes every policy, capability, health, token and cost check, so neither resolution nor the capability check fails for it |
| CandidateChain.ReorderingKeepsChain | src/domain/strategy.py:63-161 | reordering a catalogue with unique aliases changes neither the selection, nor the codes, nor the chain |
| RouteEvaluation.EvaluationWellFormed | src/application/route_evaluation_service.py:75-154 | the selected alias, provider, usage and cost are those of one eligible candidate whose codes are all reported; codes are canonical and free of invocation-layer codes, and an unselected decision carries exactly one code and no estimates |
| RouteEvaluation.NoneEligibleIff | src/application/route_evaluation_service.py:75-129 | a decision has no eligible candidate if and only if the capability is not allowed or every model that declares it lacks something |
| RouteEvaluation.SelectionReported | src/application/route_evaluation_service.py:110-129 | a selecting decision reports exactly the chosen candidate's codes and its strategy's own code |
| RouteEvaluation.DecisionIdentifies | src/application/route_evaluation_service.py:131-154 | the decision carries the request's application and capability and the policy's id and version |
| Filtering.EvaluateCandidate | src/domain/filtering.py:24-91 | the one-pass filter yields the candidate that is eligible exactly when all dimensions pass, with exactly the explaining codes in canonical order |
| Filtering.EligibleIffSuits | src/domain/filtering.py:33-91 | eligible if and only if not UNAVAILABLE, the tag declared, each need supported, the alias allowed, the tier equal, and usage and cost within limits |
| Filtering.CodesTell | src/domain/filtering.py:33-91 | each of the nine codes is given if and only if what it says holds of the model, and no other code is |
| Filtering.EligibilityRecoverable | src/domain/filtering.py:33-91 | eligibility can be read back from the reason codes alone |
| Filtering.FewerTokensKeepEligibility | src/domain/requirements.py:70-78 | asking for fewer output tokens, or setting a limit where there was none, never makes an eligible model ineligible |
| RequirementsResolution.ResolveEffective | src/domain/requirements.py:48-93 | overrides only tighten: each effective limit is the policy's or an honoured request's and exceeds neither; an allowed requested tier and latency are honoured where the policy permits, else the policy's hold; needs pass through |
| CostEstimation.EstimateUsage | src/domain/cost_estimation.py:28-31 | the least token count, at least one, whose characters cover the text |
| CostEstimation.EstimateCloseToExact | src/domain/cost_estimation.py:37-45 | the rounded cost is within half a millionth of exact |
| CostEstimation.EstimateMonotone | src/domain/cost_estimation.py:37-45 | with non-negative prices, fewer tokens never cost more, rounding included |
| CostEstimation.CostPerToken | src/domain/cost_estimation.py:37-45 | each price applies to its own token count, per thousand |
| CostEstimation.EstimateIsRounded | src/domain/cost_estimation.py:37-45 | the estimate is a whole number of millionths, ties to even |
| CostEstimation.CharsAddUp | src/domain/cost_estimation.py:28-31 | every message counts by its own length |
| ReasonCodes.SortReasonCodes | src/domain/reason_codes.py:36-42 | the same codes, each once, in canonical order |
| ReasonCodes.CanonicalListUnique | src/domain/reason_codes.py:36-42 | a set of codes has exactly one canonical list |
| Strategy.SelectionIgnoresOrder | src/domain/strategy.py:63-161 | for all four strategies, with unique aliases, selection does not depend on candidate order |
| Strategy.SelectionMeetsStrategy | src/domain/strategy.py:55-161 | the preferred alias, the least cost with ties by alias, the least alias, or the cohort's arm; and no selection exactly when no eligible candidate qualifies |
| Strategy.AliasLessAt | src/domain/strategy.py:82-115 | aliases compare at their first difference, the shorter or smaller first |
| Cohorts.AssignCohort | src/domain/experiment.py:75-88 | the cumulative loop, end-point fallback included, finds the one arm whose interval owns the hash prefix |
| Cohorts.CohortOf | src/domain/experiment.py:75-88 | every one of the 2^32 prefixes has an arm that owns it |
| Cohorts.IntervalsPartition | src/domain/experiment.py:75-88 | no prefix has two owners, and the contiguous intervals run from 0 to the last prefix |
| Cohorts.SharesProportional | src/domain/experiment.py:75-88 | each share differs from `weight * (2^32 - 1) / total` by at most one |
| Cohorts.ShareCountsPrefixes | src/domain/experiment.py:75-88 | that share is the number of prefixes the arm owns |
| HealthRepository.CounterIsStreak | src/adapters/memory/in_memory_model_health_repository.py:45-52 | the counter equals the failures since the last success, permanent errors ignored |
| HealthRepository.Health | src/adapters/memory/in_memory_model_health_repository.py:36-43 | UNAVAILABLE and HEALTHY exactly at the two thresholds |
| HealthRepository.InMemoryModelHealthRepository.GetHealth | src/adapters/memory/in_memory_model_health_repository.py:36-43 | the reading equals the status of the current counter |
| HealthRepository.InMemoryModelHealthRepository.RecordOutcome | src/adapters/memory/in_memory_model_health_repository.py:45-52 | resets on success, increments on health-affecting failure, else unchanged |
| HealthProtocol.CounterBound | src/adapters/memory/in_memory_model_health_repository.py:36-52 | with at most k requests in flight the counter never exceeds `unavailable_after - 1 + k` |
| HealthProtocol.CounterBoundReached | src/adapters/memory/in_memory_model_health_repository.py:36-52 | for every limit and k some run reaches that bound |
| HealthProtocol.UnavailableAbsorbs | src/domain/filtering.py:36-38 | once UNAVAILABLE with no pending attempt, a model is never attempted again and its counter is frozen |
| HealthProtocol.SequentialUnavailableAbsorbs | src/domain/filtering.py:36-38 | in sequential traffic UNAVAILABLE is absorbing from the moment it is reached |
| OrchestratedHealth.ReadingsDetermineChain | src/application/route_evaluation_service.py:75-129 | evaluation consults only the health of models that declare the capability: those readings determine the chain |
| OrchestratedHealth.ChainIsApproved | src/application/invocation_orchestrator.py:385-412 | the chain a request builds from its own readings names each model once, and only models it read and did not see UNAVAILABLE |
| OrchestratedHealth.Simulates | src/application/invocation_orchestrator.py:295-358 | every step of interleaved orchestrated requests (read, route, attempt) is a step of `HealthProtocol`, guards included, or invisible to it |
| OrchestratedHealth.CounterBound | src/application/invocation_orchestrator.py:373-412 | the bound `unavailable_after - 1 + k` for orchestrated requests, whatever their policies, catalogues and providers |
| OrchestratedHealth.SequentialUnavailableAbsorbs | src/application/invocation_orchestrator.py:373-412 | in sequential traffic no orchestrated request attempts a model again once it is UNAVAILABLE |
| OrchestratedTightness.CounterBoundReached | src/adapters/memory/in_memory_model_health_repository.py:36-52 | for all thresholds and every k, requests that evaluate and walk their own chains reach the bound |
| Retry.CallWithRetry | src/adapters/bedrock/bedrock_model_provider.py:69-85 | a retryable error surfaces only after exactly R calls, a permanent one at once, with the last call's outcome; total sleep is the sum of the backoffs and is bounded |
| Retry.CapIs | src/adapters/common/retry.py:22-30 | the cap before jitter is `base * 2 ** (attempt - 1)`, or the maximum delay if less |
| Retry.BackoffIs | src/adapters/common/retry.py:22-30 | the delay is the jitter times that cap |
| Retry.SleepBoundClosedForm | src/adapters/common/retry.py:22-30 | the bound is `min((R-1) * max, base * (2^(R-1) - 1))` |
| RequestBudget.InvokeAdapter | src/adapters/openai/openai_model_provider.py:67-89 | one adapter call surfaces the last SDK answer and spends the specified calls and sleeps |
| RequestBudget.ChainBudget | src/application/invocation_orchestrator.py:399-412 | any candidates of the chain, in either form, cost at most `maximum_attempts * R` SDK calls and `maximum_attempts` sleep bounds |
| RequestBudget.RequestWithinBudget | src/application/invocation_orchestrator.py:295-371 | the same for the candidates a request's result attempted, when the provider behaves as the retry loops surface it |
| StreamMappers.IterConverseStream | src/adapters/bedrock/converse_mapper.py:102-146 | the event loop emits one chunk per non-empty text, then one final chunk, or the PERMANENT error |
| StreamMappers.IterCompletionStream | src/adapters/openai/chat_completions_mapper.py:115-154 | the same for chat completion chunks |
| StreamMappers.ChunkPerPiece | src/adapters/bedrock/converse_mapper.py:126-140 | one text chunk per event that has text, in order, with that text and nothing else |
| StreamMappers.TextConcatenates | src/adapters/openai/chat_completions_mapper.py:136-146 | the streamed text of two parts is the concatenation of theirs |
| StreamMappers.BlocksConcatenate | src/adapters/bedrock/converse_mapper.py:71-99 | the parsed text of two lists of blocks is the concatenation of theirs |
| StreamMappers.OnePart | src/adapters/bedrock/converse_mapper.py:71-140 | a single block or delta contributes exactly its text, or nothing |
| StreamMappers.PiecesCarry | src/adapters/bedrock/converse_mapper.py:126-140 | stop reasons come from message stops, usage from metadata, text from content deltas |
| StreamMappers.ChunksCarry | src/adapters/openai/chat_completions_mapper.py:136-146 | finish reason and text come from the first choice, usage from the chunk |
| StreamMappers.StopReasonsMean | src/adapters/bedrock/converse_mapper.py:18-37 | the wire value each stop reason stands for |
| StreamMappers.FinishReasonsMean | src/adapters/openai/chat_completions_mapper.py:21-39 | the wire values each finish reason stands for |
| StreamMappers.SplittingIsInvisible | src/adapters/bedrock/converse_mapper.py:102-146 | reassembling a stream depends only on the joined text, last stop reason and last usage |
| StreamMappers.ConverseFormsAgree | src/adapters/bedrock/converse_mapper.py:71-99 | streaming and parsing the same Bedrock content give the same response, or both fail PERMANENT |
| StreamMappers.CompletionFormsAgree | src/adapters/openai/chat_completions_mapper.py:82-112 | the same for OpenAI |
| StreamMappers.StreamNeverEndsSilently | src/adapters/openai/chat_completions_mapper.py:115-154 | exactly one final chunk, last, or a PERMANENT error and no final chunk: never an empty end |
| Catalogue.Load | src/adapters/config/local_model_catalogue.py:36-63 | loading succeeds exactly for unique aliases and provider-consistent routers, and builds both indexes correctly |
| Catalogue.AliasLookupIsScan | src/adapters/config/local_model_catalogue.py:71-72 | alias lookup equals a linear scan |
| Catalogue.CapabilityLookupIsFilterIff | src/adapters/config/local_model_catalogue.py:68-69 | capability lookup equals the in-order filter if and only if no model repeats the tag |
| Catalogue.ResolvesIffCatalogued | src/adapters/common/model_resolution.py:15-27 | an alias resolves exactly when it is catalogued, and then to its model |
| Catalogue.TargetResolvesIff | src/adapters/common/model_resolution.py:30-50 | an identifier resolves exactly when the model is no router or routes to a catalogued non-router, and then to that entry's value; every failure is PERMANENT |
| Catalogue.CheckPassesIff | src/adapters/common/model_resolution.py:53-65 | the capability check passes exactly when the model supports what the request needs |
| Catalogue.DispatchesIff | src/adapters/composite_model_provider.py:51-60 | dispatch reaches a provider exactly when it is registered and is the catalogued model's |
| Catalogue.IdentifierBelongsToDispatchedProvider | src/adapters/common/model_resolution.py:30-50 | the identifier sent is the value of a non-router entry of the dispatched provider, reached in at most one hop |

## Left out

- Handlers, HTTP mapping, infrastructure, logging, tracing and metric text: translation and wiring. Audit, metrics and event publishing are one list of finalised results.
- SHA-256, JSON canonicalisation and the subject-key join: the request hash is an opaque string, the cohort hash any 32-bit prefix.
- Floating point in cohort assignment and backoff: exact integers and reals. Decimal context limits: only the final half-even rounding is modelled.
- Eventually consistent reads and clock skew between hosts: one shared clock and current reads.
- Lock internals: each critical section of the in-memory stores is one atomic step.
- Policy files and YAML or field parsing: the model starts from validated values.
- The absent (`None`) health repository and publishers: always present here.
- The two eager checks of `invoke_stream` (idempotency key, non-streaming provider) and malformed wire events that raise inside a mapper: they only add early error exits.
- Exceptions of the provider other than `ProviderError`: they escape both loops unrecorded; `Work.Threw` covers them at the idempotency layer.
- Request builders for the two providers and the classification of SDK exceptions: field copying and table lookup.
- A model read twice within one evaluation: evaluation sees one value per alias; different models are read at different moments in `OrchestratedHealth`.
- The part of a provider's `_stream` after the stream is established: it only passes chunks and a classified error on, which `Streaming` and `StreamMappers` take as given.
