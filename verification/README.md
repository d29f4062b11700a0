# CrossShop verification

A Dafny model of the parts of CrossShop whose correctness rests on an algorithm or a protocol, with
proofs that hold for every input, every run or every schedule. `dafny verify dfyconfig.toml` checks it.

- `IndexBuilder`: the resumable product index builder. The search index and the checkpoint file survive a
  crash, the two nested buffers do not; an oracle may stop the process at any I/O action, inside a bulk
  request after any subset of its actions, and inside a checkpoint write on either side of the rename.
- `RankingMetrics`: recall, reciprocal rank and NDCG over exact reals, with any positive, strictly
  decreasing position discount in place of the logarithm.
- `RepeatedLabels`: when labels may repeat, the exact condition under which NDCG cannot exceed 1.
- `MetricValues`: what NDCG and recall are worth between 0 and 1, result by result.
- `EventPairing`: the queue-per-key pairing of invoke and result events, the scan-based matcher, and exactly
  when both compute the same matching.
- `EvidenceRecords`: what the normalized evidence says, in terms of the logged events alone.
- `CircuitBreaker`: the in-process breaker, specified by its history of calls alone.
- `SharedBreaker`: the breaker kept in Redis, once with whole operations, where it refines the in-process
  one, and once as a load, modify, save protocol of any number of replicas, with exactly when they act like
  one.
- `Gateway`: the semaphore, the spacing lock, the stream wrapper and the retry loop of the model gateway,
  as a state machine of interleaved callers between any two awaits.
- `CaseSuite`, `BatchRun`, `Quality`, `QualityLaws`, `Coverage`: the rubric evaluation engine, from the suite
  contract over selection, the gated run and the scorecards to the release gate and the two scores, with what
  each answer and each covered point is worth.
- `DisplayedProducts`: which products a turn shows, and with which cards.
- `Transient`: the walk along an exception's causes, and the retry that depends on it.
- `Sequences` and `Wrappers`: lists without repeats, sums, optional values.

Where the code and its own comments differ, the model follows the code:

- A breaker whose cooldown is over lets every call through until an outcome is recorded; the comments speak
  of one probe, which holds exactly when only one call asks (`CircuitBreaker.OneProbeExactlyWhenOneAsks`).
- A Redis failure inside the shared breaker is treated as "no state" and the call is let through, and a
  failed save is dropped; the module comment speaks of falling back to the local state
  (`SharedBreaker.FailedLoadAdmits` says when that is the same answer).
- A stream that is returned but never started keeps its slot for good, although the wrapper is documented to
  cover callers that stop early; `Gateway.StuckExactlyWhenLeaked` says exactly what this can cost.

Assumptions taken from the code's surroundings: sleeping lasts at least as long as asked; recording the usage
of a model call does not raise; the labels of `RankingMetrics.NdcgIsNormalised` are duplicate-free, as
`scripts/eval/validate_datasets.py` checks; the encoder is deterministic, so a row always gives the same
document; weights sum to exactly 100; all replicas and Redis read one clock, which
`SharedBreaker.ExpiryNeverEndsARefusal` needs, and the clock reads more than 0.

## Model

| member | source | states |
|---|---|---|
| IndexBuilder.RestartUntilCompleted | scripts/index/build_product_opensearch.py:129-202 | For every sequence of runs, each crashed between or inside any I/O actions, a run that completes leaves exactly the index of one uninterrupted pass over the source; one reliable run over a well-formed source is enough to complete |
| IndexBuilder.BuildPartition | scripts/index/build_product_opensearch.py:129-202 | One run, stopped anywhere, keeps the durable state honest; a checkpoint of another contract is refused and nothing is touched; it completes unless a line is malformed or an action fails |
| IndexBuilder.CompletedMeansUninterruptedResult | scripts/index/build_product_opensearch.py:197-202 | A completed checkpoint implies that the index equals the last-write-wins image of all rows |
| IndexBuilder.CheckpointedRowsAreIndexed | scripts/index/build_product_opensearch.py:155-167 | At every crash point `docs_written` counts the non-blank lines up to `next_line`, and each of them is in the index |
| IndexBuilder.IndexHoldsNothingElse | scripts/index/build_product_opensearch.py:155-189 | At every crash point, whatever else is in the index belongs to one of the next rows, fewer than batch size plus bulk size of them |
| IndexBuilder.ApplyIsLastWrite | scripts/index/build_product_opensearch.py:159 | A bulk write leaves each id with the document of its last row |
| IndexBuilder.RowsOfPrefix | scripts/index/build_product_opensearch.py:63-68 | The rows of a prefix of the file are a prefix of the rows, so skipping lines skips no row |
| IndexBuilder.RowsUpToLine | scripts/index/build_product_opensearch.py:63-68 | Resuming after the line of the k-th row resumes after exactly k rows |
| IndexBuilder.RowsAreTheRowLines | scripts/index/build_product_opensearch.py:63-68 | The rows are exactly the non-blank lines of the file, in order, each with its line number |
| IndexBuilder.CutOffBulkAppliesSome | scripts/index/build_product_opensearch.py:155-159 | A bulk request cut off by a crash leaves the index as a request of only the applied actions would |
| IndexBuilder.WholeBulkTracks | scripts/index/build_product_opensearch.py:155-167 | A complete bulk request moves the settled part of the index forward by its rows |
| IndexBuilder.PartialBulkTracks | scripts/index/build_product_opensearch.py:155-167 | A bulk request of which any subset of actions applied keeps the invariant at the old checkpoint |
| IndexBuilder.BulkPartlyTracks | scripts/index/build_product_opensearch.py:155-167 | A crash inside the bulk request leaves the durable state honest |
| IndexBuilder.BulkTracks | scripts/index/build_product_opensearch.py:155-167 | A crash after the bulk request and before its checkpoint leaves the durable state honest |
| IndexBuilder.BulkThenAdvanceTracks | scripts/index/build_product_opensearch.py:155-167 | The bulk request followed by its checkpoint leaves the durable state honest |
| IndexBuilder.PendingComesNext | scripts/index/build_product_opensearch.py:151-189 | The two buffers always hold exactly the rows between the checkpoint and the reader, in order |
| IndexBuilder.AdvanceIsHonest | scripts/index/build_product_opensearch.py:160-165 | `next_line`, `docs_written` and `last_product_id` taken from the last pending row describe a prefix of the source |
| IndexBuilder.Builder.WriteCheckpoint | scripts/index/build_product_opensearch.py:107-114 | A checkpoint write leaves the old or the new checkpoint, never a mixture |
| IndexBuilder.Builder.SendBulk | scripts/index/build_product_opensearch.py:159 | The bulk request, whole or cut off by a crash |
| IndexBuilder.Builder.FlushBulk | scripts/index/build_product_opensearch.py:155-173 | Empties `pending` into the index and the checkpoint, and is safe at every point inside |
| IndexBuilder.Builder.FlushEncoded | scripts/index/build_product_opensearch.py:175-189 | Moves the encoded batch to `pending`, and flushes when the bulk size is reached |
| IndexBuilder.Builder.TakeRow | scripts/index/build_product_opensearch.py:192-194 | Appends a row to the batch and encodes it when the batch is full |
| IndexBuilder.Builder.ReadLine | scripts/index/build_product_opensearch.py:191-194 | One step of the reading loop keeps both buffers below their sizes |
| IndexBuilder.OthersKeepDurable | scripts/index/build_product_opensearch.py:41-52 | Partitions that share an index but no product id do not disturb each other's durable state |
| IndexBuilder.Builder.Consume | scripts/index/build_product_opensearch.py:191-202 | The loop and both final flushes reach the completed checkpoint unless something failed |
| IndexBuilder.Deployment.Reset | scripts/index/build_product_opensearch.py:117-126 | `--reset` deletes checkpoints before indexes, so no crash inside it leaves a checkpoint claiming a line that its index has not |
| RankingMetrics.NdcgIsNormalised | scripts/eval/metrics.py:64-75 | NDCG@K lies in [0, 1], and is 1 exactly when the first min(k, n) distinct results are the first min(k, n) labels in order |
| RankingMetrics.DcgAtMostIdeal | scripts/eval/metrics.py:69-75 | No ranking gathers more discounted gain than the labels in their own order: the rearrangement inequality for distinct gains |
| RankingMetrics.PrefixDominance | scripts/eval/metrics.py:71-74 | Gains whose prefix sums never lead have the smaller discounted sum under every positive decreasing discount (summation by parts) |
| RankingMetrics.PrefixDominanceIsStrict | scripts/eval/metrics.py:71-74 | and the sums agree only for equal gains |
| RankingMetrics.SumAtMostTop | scripts/eval/metrics.py:69-74 | Distinct positive gains from a falling list cannot add up to more than its first entries |
| RankingMetrics.SumAtMostBest | scripts/eval/metrics.py:69-74 | Distinct positive gains up to n cannot add up to more than n, n - 1, and so on |
| RankingMetrics.PromotionPays | scripts/eval/metrics.py:71 | Moving a more relevant result up strictly raises the discounted gain |
| RankingMetrics.RepeatedLabelsBreakTheBound | scripts/eval/metrics.py:69-75 | A concrete input with a repeated label on which NDCG exceeds 1 under every discount |
| RepeatedLabels.BoundHoldsExactly | scripts/eval/metrics.py:64-75 | For any non-empty labels, repeated or not, NDCG@K is at most 1 over all result lists and discounts exactly when for every m up to min(k, n) the m largest distinct gains sum to at most the first m gains in label order |
| RepeatedLabels.BoundHoldsForDiscount | scripts/eval/metrics.py:64-75 | For one discount NDCG@K is at most 1 over all result lists exactly when the distinct gains in falling order earn at most the ideal sum |
| RepeatedLabels.FallingGainsAreBest | scripts/eval/metrics.py:69-71 | No result list earns more than the distinct labels in order of falling gain, under any discount |
| RepeatedLabels.LeadingLabelsDominate | scripts/eval/metrics.py:69-74 | Where the labels lead in every prefix up to k they lead at every length |
| RepeatedLabels.LaggingLabelsLose | scripts/eval/metrics.py:69-75 | Where they do not lead in some prefix, a discount that drops after it gives a result list more than 1 |
| RepeatedLabels.DistinctLabelsLead | scripts/eval/metrics.py:69-75 | Duplicate-free labels always meet the condition |
| RankingMetrics.DedupKeepOrder | scripts/eval/metrics.py:23-35 | The loop keeps the first occurrence of each id |
| RankingMetrics.DedupKeepsFirstOccurrences | scripts/eval/metrics.py:23-35 | Deduplication keeps the order of first occurrences |
| RankingMetrics.RecallIsMonotone | scripts/eval/metrics.py:38-50 | Recall lies in [0, 1] and never falls when k grows |
| RankingMetrics.RecallIsCoverage | scripts/eval/metrics.py:38-50 | Recall is 1 exactly when all labels are among the first k distinct results |
| RankingMetrics.Mrr | scripts/eval/metrics.py:53-61 | The reciprocal of the rank of the first hit, 0 without one |
| MetricValues.OneHitAlone | scripts/eval/metrics.py:64-75 | One hit alone, label i after r distinct misses, scores (n - i) w(r) over the ideal sum of (n - p) w(p) for the positions p below min(k, n) |
| MetricValues.NewResultAddsItsWorth | scripts/eval/metrics.py:64-75 | For any labels, a new result at position r < k raises NDCG by exactly its worth times w(r), over the discounted worth of the first min(k, n) labels |
| MetricValues.IdleResultAddsNothing | scripts/eval/metrics.py:66-75 | A repeated result, or one beyond the first k distinct results, leaves NDCG unchanged |
| MetricValues.MissAddsNothing | scripts/eval/metrics.py:69-75 | A result that is not a label leaves NDCG unchanged |
| MetricValues.MissesScoreZero | scripts/eval/metrics.py:64-75 | Any list without a hit scores 0 |
| MetricValues.HitAfterMisses | scripts/eval/metrics.py:64-75 | With repeated labels too, the first hit after r distinct misses scores its worth at position r |
| MetricValues.NothingRetrievedScoresZero | scripts/eval/metrics.py:64-75 | An empty list scores 0; with the two laws above this gives the NDCG of every list |
| MetricValues.NothingWantedScoresZero | scripts/eval/metrics.py:38-75 | Without labels, or for k <= 0, NDCG and recall are 0 |
| MetricValues.GainIsWorth | scripts/eval/metrics.py:69-70 | A result is worth the distance of its last position in the labels from their end, or 0 |
| MetricValues.NewHitAddsItsShare | scripts/eval/metrics.py:38-50 | A new result among the first k distinct ones raises recall by one over the number of distinct labels if it is a label, by nothing otherwise |
| MetricValues.IdleResultRecallsNothing | scripts/eval/metrics.py:38-50 | A repeated result, or one beyond the first k distinct results, leaves recall unchanged |
| MetricValues.NothingRetrievedRecallsNothing | scripts/eval/metrics.py:38-50 | An empty list recalls nothing |
| EventPairing.NormalizeEvents | scripts/eval/rubric_evidence.py:339-458 | The queue-per-key pass gives every tool and dispatch record the answer of the m-th result to m-th invoke matching, records each orphan result, and fails exactly on an invoke without a tool name |
| EventPairing.MatchingIsOneToOne | scripts/eval/rubric_evidence.py:390-412 | Pairing is one-to-one in both directions and forward in time |
| EventPairing.EveryPairedCloseHasItsOpen | scripts/eval/rubric_evidence.py:404-412 | Every paired result has an earlier invoke of its key |
| EventPairing.OrphanCount | scripts/eval/rubric_evidence.py:413-435 | The orphans of a key number the largest prefix excess of results over invokes, or 0; every result is paired or an orphan |
| EventPairing.RecordCount | scripts/eval/rubric_evidence.py:374-435 | Tool records number invokes plus orphans |
| EventPairing.AnswerIsMatch | scripts/eval/rubric_evidence.py:390-412 | A record is answered exactly when as many results of its key were paired as its rank asks for |
| EventPairing.MatchIsAnswer | scripts/eval/rubric_evidence.py:390-412 | A result that matches a record is, and stays, its answer |
| EventPairing.OpenStep | scripts/eval/rubric_evidence.py:371 | An invoke appended to the queue of its key keeps every queue the list of unanswered records, oldest first |
| EventPairing.PairStep | scripts/eval/rubric_evidence.py:396-412 | A result that pops its queue answers the matching record and no other |
| EventPairing.IdleStep | scripts/eval/rubric_evidence.py:404-435 | A result with an empty queue is an orphan and changes no earlier record |
| EventPairing.ProductSearchCalls | scripts/index/smoke_h4_agent.py:734-771 | The scan over the time-sorted events, whose meaning the next rows give |
| EventPairing.ByTimeIsStableSort | scripts/index/smoke_h4_agent.py:723-731 | The sorted events are an ordered permutation in which events of one moment keep their order |
| EventPairing.ScanTargetTells | scripts/index/smoke_h4_agent.py:756-770 | Of the calls still open, a reply that names its platform targets the first on it, and a reply without one the last |
| EventPairing.ScanAnswered | scripts/index/smoke_h4_agent.py:756-770 | The scan answers a call with exactly the reply that had it as its target |
| EventPairing.AnswerIsFront | scripts/eval/rubric_evidence.py:404-412 | The queues answer an invoke with exactly the result that found it at the front of its queue |
| EventPairing.AgreeExactlyOnFronts | scripts/index/smoke_h4_agent.py:756-770 | Both pairings agree on every call exactly when, at each reply, the call the scan targets is the front of that reply's queue, or there is neither |
| EventPairing.LogAgreesExactly | scripts/index/smoke_h4_agent.py:734-771 | The same for every time-ordered log, with the queues of `_normalize_events` keyed by tool and correlation id and with any other tools in between |
| EventPairing.ScanIsFifo | scripts/index/smoke_h4_agent.py:756-770 | Where every reply names its platform the scan is the first-in first-out pairing of each platform |
| EventPairing.QueueAndScanAgree | scripts/index/smoke_h4_agent.py:734-771 | The queue-per-key pairing and the scan compute the same matching on every time-ordered log whose search results carry the key (a platform, shared exactly with the correlation id), whatever other tools do in between |
| EventPairing.ByTimeKeepsOrderedStreams | scripts/index/smoke_h4_agent.py:723-731 | The stable sort leaves a time-ordered stream alone |
| EventPairing.CrossedRepliesDiffer | scripts/index/smoke_h4_agent.py:758-764 | Two dispatches to one platform answered in the other order: the scan gives the first reply to the first call, the queues to the call with its correlation id |
| EventPairing.RejectedArgumentsDiffer | scripts/index/smoke_h4_agent.py:765-768 | A reply without a platform goes to the last open call, in the queues to the call with its correlation id |
| EvidenceRecords.ToolStatusTells | scripts/eval/rubric_evidence.py:404-435 | A tool record is an error exactly when its answering event carries one, a success exactly when an invoke was answered without one, unknown exactly when an invoke is unanswered or an orphan carries no error |
| EvidenceRecords.ToolRecordTells | scripts/eval/rubric_evidence.py:374-435 | A tool record carries the tool and correlation id of the event at its order, an invoke or a result; its answer is a later result of both, or that result itself |
| EvidenceRecords.RecordsAscend | scripts/eval/rubric_evidence.py:365-435 | Tool records come in the order of their events |
| EvidenceRecords.EveryInvokeIsRecorded | scripts/eval/rubric_evidence.py:374-394 | Every invoke of a named tool has its record |
| EvidenceRecords.EveryResultIsRecorded | scripts/eval/rubric_evidence.py:396-435 | Every result of a named tool but `task_dispatch` is the answer of exactly one record |
| EvidenceRecords.AnsweredOnce | scripts/eval/rubric_evidence.py:404-412 | No event answers two records |
| EvidenceRecords.AnswerComesFrom | scripts/eval/rubric_evidence.py:404-426 | An answer is the matching result of an invoke, or an orphan that answers its own record |
| EvidenceRecords.OrphanSignalsTell | scripts/eval/rubric_evidence.py:428-434 | `orphan_tool_result` is signalled at exactly the results without an open invoke |
| EvidenceRecords.OrphansOfTool | scripts/eval/rubric_evidence.py:404-435 | The orphan signals of a tool and correlation id number the largest surplus of its results over its invokes in any prefix of the log, or 0 |
| EvidenceRecords.CountsOfEvents | scripts/eval/rubric_evidence.py:374-412 | What the pairing laws count as opened and closed under a key are the logged invokes and results of that tool and correlation id |
| EvidenceRecords.DispatchRecordTells | scripts/eval/rubric_evidence.py:357-403 | A dispatch record carries the agent and correlation id of the dispatch at its order; its finish is a later `task_dispatch` result of both |
| EvidenceRecords.EveryDispatchIsRecorded | scripts/eval/rubric_evidence.py:357-371 | Every dispatch of a known agent has its record |
| EvidenceRecords.CountsOfDispatches | scripts/eval/rubric_evidence.py:357-403 | The same count for dispatches and their `task_dispatch` results |
| EvidenceRecords.SearchCallTells | scripts/index/smoke_h4_agent.py:734-771 | A call of the scan stands for an invoke of the search tool on its platform; its answer is a result of the search tool that names this platform or none |
| EvidenceRecords.EverySearchIsACall | scripts/index/smoke_h4_agent.py:734-748 | Every invoke of the search tool is a call of the scan |
| CircuitBreaker.StateTellsHistory | app/infrastructure/resilience.py:50-100 | For every history the breaker is tripped exactly when at least `failure_threshold` failures (and at least one) came since the last success, opened at the last failure, half-open exactly while an admitted probe is unanswered |
| CircuitBreaker.FailuresSinceCounts | app/infrastructure/resilience.py:88-100 | The failures the state is told by are those no success of the key follows |
| CircuitBreaker.LastFailureIsLast | app/infrastructure/resilience.py:94-100 | The opening time is that of the failure no other failure of the key follows |
| CircuitBreaker.ProbingExactly | app/infrastructure/resilience.py:77-86 | The breaker is half-open exactly while a call admitted when tripped is followed by no outcome |
| CircuitBreaker.AnswersTellHistory | app/infrastructure/resilience.py:77-86 | `allow` refuses exactly when the breaker is tripped and its last failure is less than the cooldown ago |
| CircuitBreaker.RefusedUntilCooldownOrSuccess | app/infrastructure/resilience.py:77-100 | After a failure at t that leaves it tripped, every call before t + reset is refused until a success |
| CircuitBreaker.KeysAreIndependent | app/infrastructure/resilience.py:69-75 | Calls on other keys never change the state of a key |
| CircuitBreaker.ProbesAreNotCounted | app/infrastructure/resilience.py:77-86 | Asking for admission changes nobody's admission: after the cooldown every call passes until an outcome is recorded, although the comments speak of one probe |
| CircuitBreaker.OneProbeExactlyWhenOneAsks | app/infrastructure/resilience.py:77-86 | After the cooldown, and before the next outcome, every call that asks is admitted, so at most one probe passes exactly when at most one asks |
| CircuitBreaker.Registry.State | app/infrastructure/resilience.py:71-72 | A missing key behaves as a fresh state |
| CircuitBreaker.StampTakesGivenTimes | app/infrastructure/resilience.py:82 | `now or monotonic` takes a given time other than 0, and the clock otherwise |
| CircuitBreaker.Registry.Status | app/infrastructure/resilience.py:74-75 | The status the history says |
| CircuitBreaker.Registry.Allow | app/infrastructure/resilience.py:77-86 | Admits as the history says, with `now or monotonic` reading time 0 as missing |
| CircuitBreaker.Registry.RecordSuccess | app/infrastructure/resilience.py:88-89 | Notes a success |
| CircuitBreaker.Registry.RecordFailure | app/infrastructure/resilience.py:91-100 | Notes a failure, during a probe or not |
| SharedBreaker.StoredMeansState | app/infrastructure/shared_breaker.py:60-104 | Run one operation at a time, the stored dictionary means the state of the in-process breaker, for every history without a failure at time 0 |
| SharedBreaker.SharedAnswersLikeLocal | app/infrastructure/shared_breaker.py:60-104 | Same `allow` and `status` answers as the in-process breaker for every such history |
| SharedBreaker.StampIsNeverZero | app/infrastructure/shared_breaker.py:88 | `now or time.time()` never gives the time 0, which the stored form reads as closed |
| SharedBreaker.SharedRegistry.AllowAsync | app/infrastructure/shared_breaker.py:60-75 | Admits as the in-process breaker at `now or time.time()`, saving the probe mark |
| SharedBreaker.SharedRegistry.RecordSuccessAsync | app/infrastructure/shared_breaker.py:77-81 | Deletes the entry |
| SharedBreaker.SharedRegistry.RecordFailureAsync | app/infrastructure/shared_breaker.py:83-96 | Loads, updates and saves the entry, stamped with `now or time.time()` |
| SharedBreaker.SharedRegistry.StatusAsync | app/infrastructure/shared_breaker.py:98-104 | Same status as the in-process breaker |
| SharedBreaker.NeverOpenTooEarly | app/infrastructure/shared_breaker.py:60-119 | Under every interleaving of loads, saves and deletes of any number of replicas, with failed loads and saves and expiry, the breaker is never stored open or half-open before the threshold of failures was reported |
| SharedBreaker.ExpiryNeverEndsARefusal | app/infrastructure/shared_breaker.py:54-72 | When an entry can expire it already admits calls |
| SharedBreaker.TtlCoversCooldown | app/infrastructure/shared_breaker.py:54-56 | The TTL is at least the cooldown |
| SharedBreaker.TtlIsTenCooldowns | app/infrastructure/shared_breaker.py:54-56 | The TTL is ten cooldowns in whole seconds, and at least a minute |
| SharedBreaker.RunCountsReportsAndWrites | app/infrastructure/shared_breaker.py:60-119 | The counters the laws about runs speak of count the failure reports and the writes of the run |
| SharedBreaker.StepKeepsInv | app/infrastructure/shared_breaker.py:60-119 | Every step of every replica keeps: stored and in-flight entries count no more failures than reported and are open only after the threshold |
| SharedBreaker.RunKeepsInv | app/infrastructure/shared_breaker.py:60-119 | and so does every run |
| SharedBreaker.ActsLikeOneExactly | app/infrastructure/shared_breaker.py:60-119 | In every run, with Redis failures, expiry and abandoned operations, any number of replicas act at every step like one that runs the calls reaching Redis in the order of their saves, exactly when every save writes what it would write on what Redis then holds |
| SharedBreaker.UndisturbedRunsActLikeOne | app/infrastructure/shared_breaker.py:60-119 | If no save, delete or expiry falls between any operation's load and its own save, and no failure is counted on a failed load, the stored entry is that of the calls run one after the other in save order |
| SharedBreaker.StepKeepsCurrent | app/infrastructure/shared_breaker.py:60-119 | An operation before whose save nothing was written still holds what Redis holds |
| SharedBreaker.AnswersAfterUndisturbedRun | app/infrastructure/shared_breaker.py:60-104 | and `allow` and `status` then answer as the in-process breaker fed the same calls |
| SharedBreaker.FailedLoadAdmits | app/infrastructure/shared_breaker.py:108-113 | A failed load lets the call through: the answer of a local registry fed the same calls exactly when that registry would admit it |
| SharedBreaker.FailureFitsExactly | app/infrastructure/shared_breaker.py:83-96 | When a failure saved over a changed entry loses nothing: the counts agree, or a probe made up for one failure, and the opening time is the same |
| SharedBreaker.ProbeFitsExactly | app/infrastructure/shared_breaker.py:69-75 | When a probe mark saved over a changed entry loses nothing: nothing but the mark changed, and it is there or due |
| SharedBreaker.OverlappingFailuresCountAsOne | app/infrastructure/shared_breaker.py:83-96 | Failures whose loads all come before the first save count as one, in any number and save order, at any times, on any stored entry |
| SharedBreaker.StaleSaveUndoesSuccess | app/infrastructure/shared_breaker.py:77-96 | A failure that loaded before a success and saves after it opens the breaker again |
| Gateway.AtMostCapacity | app/infrastructure/throttle.py:21-36 | Over all schedules of any number of callers, cancelled anywhere, at most max(1, max_concurrency) slots are held, upstream calls plus unfinished streams never exceed that, and the free slots are the rest |
| Gateway.WaiterEntersExactly | app/infrastructure/throttle.py:21-36 | A waiting caller can take a slot exactly when fewer than max(1, max_concurrency) callers hold one |
| Gateway.HoldersTookSlots | app/infrastructure/throttle.py:34-36 | A caller holds a slot exactly when it took one and has not given it back |
| Gateway.EachSlotIsReturnedOnce | app/infrastructure/llm.py:61-99 | Each slot is given back at most once, and exactly once by an error, a plain value, or the end or close of a started stream; a caller makes at most max_retries + 2 upstream calls |
| Gateway.SlotOutlivesTheStream | app/infrastructure/llm.py:86-99 | No step gives a stream's slot back before its last chunk, except closing it or an error in it |
| Gateway.StreamEndsAfterLastChunk | app/infrastructure/llm.py:86-99 | A stream ends by itself only after every one of its chunks was handed out, each once |
| Gateway.StartsAreSpaced | app/infrastructure/throttle.py:38-46 | Any two recorded starts are at least min_interval apart for each start between them |
| Gateway.EveryStartIsRecorded | app/infrastructure/throttle.py:38-46 | With min_interval > 0 nobody gets upstream but by a step that records that moment as a start |
| Gateway.WindowHoldsFewStarts | app/infrastructure/throttle.py:38-46 | A window of length W holds at most 1 + floor(W / min_interval) recorded starts |
| Gateway.SleepIsAsShortAsAllowed | app/infrastructure/throttle.py:43-45 | The sleep ends at the first moment that is min_interval after the last recorded start, or at once |
| Gateway.NoIntervalNoSpacing | app/infrastructure/throttle.py:38-40 | With min_interval <= 0 nobody waits for the lock and no start is recorded |
| Gateway.AbandonedStreamKeepsSlot | app/infrastructure/llm.py:84-99 | A stream nobody starts keeps its slot whatever happens later |
| Gateway.StuckExactlyWhenLeaked | app/infrastructure/llm.py:67-99 | Callers left over can never get on exactly when max(1, max_concurrency) slots went to streams nobody started: the gate has no other deadlock |
| Gateway.StepKeepsSlots | app/infrastructure/throttle.py:34-36 | Free slots plus holders are the capacity after every step |
| Gateway.StepKeepsAccounts | app/infrastructure/llm.py:67-99 | Every phase keeps its account of slots taken and returned |
| Gateway.StepKeepsLock | app/infrastructure/throttle.py:42-45 | The spacing lock has one owner, which sleeps long enough |
| Gateway.StepKeepsStarts | app/infrastructure/throttle.py:43-46 | Recorded starts stay spaced and are never dropped |
| Gateway.RunKeepsInv | app/infrastructure/throttle.py:20-46 | All four hold after every run |
| Gateway.CallWithFallback | app/infrastructure/llm.py:142-182 | At most max_retries + 1 primary calls and one fallback call; another call exactly after a transient failure with one left; pauses start at the base and triple; what the last call gave is passed on; with no attempt allowed and no fallback there is nothing to raise |
| Gateway.CallsFollowTheRetryLimit | app/infrastructure/llm.py:150-182 | In the state machine of callers a failed call is followed by another exactly when it is transient and a retry or the fallback is left |
| CaseSuite.ValidateSuite | scripts/eval/rubric_contract.py:211-248 | Accepts exactly the suites with distinct ids, dependencies on earlier cases only, and known families and points; otherwise reports the first problem in order |
| CaseSuite.ProblemOfTells | scripts/eval/rubric_contract.py:224-247 | What each reported problem of a case means, and that they are looked for in this order |
| CaseSuite.SelectCases | scripts/eval/rubric_runner.py:132-155 | Returns, in suite order, the cases of exactly the smallest set that holds the requested ids and is closed under `depends_on`; unknown ids are reported |
| CaseSuite.Selection.Include | scripts/eval/rubric_runner.py:146-151 | Adds a case with all it needs and nothing else, and terminates because dependencies stand earlier |
| CaseSuite.DependencyStandsEarlier | scripts/eval/rubric_runner.py:149-150 | A dependency stands earlier than the case, which bounds the recursion |
| CaseSuite.ChosenIds | scripts/eval/rubric_runner.py:155 | The choice has exactly the selected ids |
| CaseSuite.ChosenKeepsOrder | scripts/eval/rubric_runner.py:155 | The choice is in suite order |
| CaseSuite.SelectionStaysValid | scripts/eval/rubric_runner.py:144-155 | A closed selection is again a suite with distinct ids and earlier dependencies |
| BatchRun.RunCases | scripts/eval/rubric_runner.py:785-870 | One result per case in order; a case is evaluated exactly behind ready direct dependencies, otherwise it gets a dependency error |
| BatchRun.EvaluatedExactlyBehindReady | scripts/eval/rubric_runner.py:528-535 | A case is evaluated exactly when every case it needs, directly or not, was SCORED with all P0 passed and no P1 failure |
| BatchRun.ReadyMeansAllPassed | scripts/eval/rubric_runner.py:528-535 | A judged dependency is ready exactly when every P0 and every P1 criterion passed |
| BatchRun.ResultTells | scripts/eval/rubric_runner.py:785-870 | The result of a case is a dependency error exactly when it was not evaluated, an evaluation error exactly when that gave no answer, and otherwise the judge's answer, FAIL exactly with a failed P0 criterion |
| BatchRun.RunsAreAccepted | scripts/eval/rubric_report.py:140-166 | Whatever is requested and however the evaluations end, the identity check accepts the batch |
| BatchRun.AcceptedExactlyWithOneResultEach | scripts/eval/rubric_report.py:140-166 | The identity check accepts exactly one result per run case, in any order |
| BatchRun.RunSuite | scripts/eval/rubric_runner.py:752-894 | Validation, selection and run together: a valid suite and request always give an accepted batch |
| Quality.AcceptedExactlyWhenComplete | scripts/eval/rubric_contract.py:398-425 | A judgement is accepted exactly when each level answers a reordering of the rubric's criteria |
| Quality.CardTellsJudgement | scripts/eval/rubric_contract.py:427-442 | Redline exactly with a failed P0 criterion; counts and totals as in judgement and rubric |
| Quality.ValidExactlyWhenBuilt | scripts/eval/rubric_report.py:54-72 | The result validator accepts exactly what `completed_result` and `error_result` build |
| Quality.GateTellsOutcomes | scripts/eval/rubric_report.py:263-273 | The P0 gate is PASS exactly for a non-empty batch of SCORED outcomes, INCOMPLETE exactly with an ERROR and no FAIL |
| Quality.ScoredExactlyWhenComplete | scripts/eval/rubric_report.py:254-262 | There is a weighted score exactly for a non-empty batch without errors |
| Quality.WeightedScoreIsAPercentage | scripts/eval/rubric_report.py:248-262 | The weighted score lies in [0, 100], and is 100 exactly for a batch perfect in every criterion |
| Quality.WeightedScoreIsMonotone | scripts/eval/rubric_report.py:236-262 | A batch no worse in any criterion never scores less |
| Quality.BetterAnswersAreNoWorse | scripts/eval/rubric_contract.py:427-442 | Better answers of the judge give a result no worse in any section |
| Quality.OrderOfAnswersDoesNotMatter | scripts/eval/rubric_contract.py:398-442 | The judge's items in another order give the same outcome, counts and section sums |
| Quality.JudgedBatchIsGood | scripts/eval/rubric_contract.py:413-442 | A batch of judged cases meets what the laws about batches ask for |
| Quality.OrderOfAnswersDoesNotMoveTheGate | scripts/eval/rubric_report.py:229-289 | Reordering the judge's items in any cases changes nothing in the batch summary, gate and weighted score included |
| QualityLaws.OneMoreP0Raises | scripts/eval/rubric_report.py:236-262 | One more passed P0 criterion in any case raises the weighted score by exactly the P0 weight over all P0 criteria |
| QualityLaws.OneP1FailureFewerRaises | scripts/eval/rubric_report.py:236-262 | One P1 failure fewer raises it by exactly the P1 weight over all P1 criteria |
| QualityLaws.OneMoreP2PointRaises | scripts/eval/rubric_report.py:236-262 | One P2 point more raises it by exactly the P2 weight over five times all P2 criteria |
| QualityLaws.SectionsMoveTheScore | scripts/eval/rubric_report.py:236-262 | Each section moves the score by its own weight, in proportion to what it earns more |
| QualityLaws.NothingEarnedScoresZero | scripts/eval/rubric_report.py:236-262 | A batch that earned nothing in any section scores 0 |
| QualityLaws.WorstBatchScore | scripts/eval/rubric_report.py:236-262 | The worst answers a valid judgement can give score a fifth of the P2 weight; with the three laws above this gives every score |
| QualityLaws.ScoreAddsSections | scripts/eval/rubric_report.py:248-262 | The score adds what each section earned of its weight: passed P0 criteria, P1 criteria that did not fail, P2 points out of five each |
| QualityLaws.CardCountsAnswers | scripts/eval/rubric_contract.py:427-442 | The card counts the passed P0 and the failed P1 criteria and keeps the P2 scores |
| QualityLaws.BatchTotals | scripts/eval/rubric_report.py:236-247 | The totals of a judged batch are the criteria of its rubrics, and it has no errors |
| QualityLaws.SummaryShowsSections | scripts/eval/rubric_report.py:236-289 | The summary shows the sums of the three sections: two points for each P1 criterion, five for each P2 criterion |
| QualityLaws.SummaryCountsErrors | scripts/eval/rubric_report.py:236-254 | The errors of the summary are the results with that outcome |
| Coverage.SummarizeCoverage | scripts/eval/rubric_report.py:292-347 | The accumulated scores are the weighted shares of covered points over all families, with the covered, executed and missing points of each |
| Coverage.FullScoreMeansFullCoverage | scripts/eval/rubric_report.py:325-329 | The designed score lies in [0, 100], and is 100 exactly when every required point of every family is covered |
| Coverage.ExecutedIsAtMostDesigned | scripts/eval/rubric_report.py:301-329 | 0 <= executed score <= designed score <= 100 |
| Coverage.OnlyNewPointsScore | scripts/eval/rubric_report.py:314-328 | Adding a case never lowers the score, and leaves it unchanged exactly when it brings no new point of its family |
| Coverage.WiderCoverageScoresMore | scripts/eval/rubric_report.py:314-329 | The score orders suites by coverage, strictly |
| Coverage.NewPointsRaise | scripts/eval/rubric_report.py:314-328 | Adding a case raises the score by exactly its family's weight for each point the family did not have, over the points it requires |
| Coverage.NoPointsScoreZero | scripts/eval/rubric_report.py:314-328 | A suite without points scores 0; with the law above this gives the score of every suite |
| Coverage.ReportTells | scripts/eval/rubric_report.py:301-341 | The report lists for each family the points authored cases cover, those executed cases cover, and the required points no authored case covers |
| Coverage.ExecutedExactly | scripts/eval/rubric_report.py:298-306 | A run case counts as executed exactly when some result for it is not an error |
| DisplayedProducts.ResolveDisplayedProducts | app/application/agents/orchestrator.py:124-189 | The first five distinct resolvable references in selection order, ranked from 1, each with the card it resolves to |
| DisplayedProducts.CollectCards | app/application/agents/orchestrator.py:131-161 | The table holds for each product its latest current hit, or else its latest prior card |
| DisplayedProducts.CollectPrior | app/application/agents/orchestrator.py:132-140 | Later prior entries win; malformed ones are skipped |
| DisplayedProducts.CollectHits | app/application/agents/orchestrator.py:141-161 | Later hits win over earlier ones and over prior cards; failed and foreign results are skipped |
| DisplayedProducts.LatestHitIsLatest | app/application/agents/orchestrator.py:141-161 | What a reference resolves to in this turn is the very last hit for it |
| DisplayedProducts.LatestPriorIsLatest | app/application/agents/orchestrator.py:132-140 | What a reference resolves to from earlier turns is the last prior entry that shows it |
| DisplayedProducts.ResolvesExactly | app/application/agents/orchestrator.py:131-161 | A reference resolves exactly when this turn has a hit for it or an earlier turn showed it: to the last such hit, and only without one to the last such card |
| DisplayedProducts.ResolvedCardHasTheId | app/application/agents/orchestrator.py:124-177 | A resolved card is a card of the referenced product |
| DisplayedProducts.ResolvableIsExact | app/application/agents/orchestrator.py:163-178 | The references shown are distinct and exactly those that resolve |
| DisplayedProducts.ResolvableKeepsOrder | app/application/agents/orchestrator.py:163-188 | They keep the order of first selection |
| DisplayedProducts.DisplayedPassesTheValidator | scripts/eval/rubric_contract.py:525-538 | The list always passes the turn validator |
| Transient.IsRetryable | app/infrastructure/transient.py:53-72 | The walk ends on every finite cause and context graph, cycles included, and is True exactly when some error on the followed chain is of a retryable kind |
| Transient.ChainGoesOnAtTheCause | app/infrastructure/transient.py:53-72 | A chain is retryable exactly when its first exception is a 429, 502, 503 or 504 status, a timeout or a connection error, or when the chain of its cause is, or without a cause that of its context |
| Transient.RetryOnce | app/infrastructure/transient.py:75-118 | The operation is called a second time exactly when its first call raised such a chain |
| Transient.ChainStaysConfined | app/infrastructure/transient.py:58-71 | A chain that re-enters seen objects never leaves them, so stopping there misses nothing |

## Left out

- Gateway: modelled on values as a state machine, not as classes with fields, because its callers interleave between awaits; the fairness of the semaphore queue is not part of this model.
- Gateway.EachSlotIsReturnedOnce: closing the wrapper ends the stream for the gate, but the wrapper does not close the stream it wraps, so the upstream connection may live on without a slot.
- Gateway.CallWithFallback: the budget tier switch inside an upstream call is one of the possible outcomes of that call; the classification of transient errors by message text is a given flag.
- IndexBuilder: a bulk request that times out for the client and is applied by the server only after the next run has started.
- IndexBuilder.Job: one build at a time writes an index; amazon us, es and jp share one, and `IndexBuilder.OthersKeepDurable` covers what they write between each other's runs only as long as their product ids differ; runs over all partitions are not composed into one result.
- IndexBuilder.Builder.FlushEncoded: validation errors of a document and failures of the encoder both appear as an abort before the bulk request.
- IndexBuilder.Deployment.Reset: checkpoint files are deleted in any given order; temporary files and the search pipeline are not part of this model.
- RankingMetrics: the macro averages, rounding and the release thresholds, which would only add easy members.
- EventPairing.NormalizeEvents: redaction, argument and result summaries, circuit, harness and other pass-through signals, and the later attribution of tool calls to agents.
- EventPairing.ByTime: event times are integers; the source compares time strings.
- CircuitBreaker: the tool middleware around the registry (timeouts, which errors count as failures, published events).
- SharedBreaker: switching between the shared and the local registry while running; the stored dictionary always has its three fields.
- SharedBreaker.NeverOpenTooEarly: the converse fails, since overlapping saves lose failures (`SharedBreaker.OverlappingFailuresCountAsOne`) and revive stale ones (`SharedBreaker.StaleSaveUndoesSuccess`); `SharedBreaker.ActsLikeOneExactly` says when neither happens.
- CaseSuite.ValidateSuite: field patterns and lengths, and the checks inside one case or one family.
- BatchRun: prompts, buyer aliases, artifact files and dependency context are inside the oracle that answers for a case.
- Quality: rounded percentages and averages of the report; the scores by criterion are kept as a list, each criterion once, in place of a dictionary.
- Coverage: rounding of the scores to three digits and the tolerance of the weight sums.
- DisplayedProducts: the literal type of the site locale in the evidence record; copying of cards, since values cannot be shared.
- Transient.RetryOnce: span attributes, the log line and the pause before the second call.
- The HTTP, WebSocket, worker and queue paths, context assembly, token budgets, event bus delivery, the frontend and report rendering.
