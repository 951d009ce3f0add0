# Verification of the operations agent platform

A Dafny model of the stateful and algorithmic core of the platform, with proofs of what that core is
for. Each module follows one source component: methods over classes where the source updates fields
in place, functions where it computes. A method is proved equal to a function on values (the
"reference"), and the laws are lemmas about that function or about every run of the component.

| file | component |
|---|---|
| `Retriever.dfy` | reciprocal-rank fusion, filter, de-duplication, reranking |
| `Splitter.dfy` | the sliding-window document splitter |
| `Topology.dfy` | the depth-bounded walk over a component graph |
| `SemanticCache.dfy` | the two-level answer cache, against its unbounded log |
| `GoCache.dfy` | the Go tool cache as interleaved critical sections |
| `McpClient.dfy` | tool clients with private caches over one shared store |
| `AgentState.dfy`, `AgentNodes.dfy`, `AgentGraph.dfy` | the agent's nodes, routes and whole runs |
| `HitlGate.dfy`, `HitlWorkflow.dfy` | approval requests, and the workflow that polls them |
| `Providers.dfy` | circuit breakers, provider selection, fallback chains |
| `Budget.dfy` | token budgets |
| `Statistics.dfy` | cosine similarity, correlation, Welch's test |
| `StableSorting.dfy`, `OrderedDict.dfy` | Python's `sorted` and `dict` |
| `Basics.dfy`, `Wrappers.dfy` | small facts that several components need, option and result types |

## Conventions

- Floating-point numbers are reals; a square root, a distribution function, an embedding and a
  similarity are function parameters. Clocks are parameters of the calls that read them.
- A digest is a function, injective where a law needs it; request ids are fresh.
- Language models, tools, the network and other users are inputs or steps of an environment that may
  answer anything or raise.
- In the tool client one operation reads the clock several times; `lag` bounds how far apart those
  readings are, and is 0 for instantaneous operations.

## Where the code differs from its documentation

- The topology walk is documented as depth-bounded reach. It finds all nodes within `depth` hops on
  every graph only under the condition of `DepthCompleteExactly`.
- The splitter loops for ever on some texts when the overlap reaches min(max, max/2 + 2)
  (`SplitEndsExactly`); the shipped sizes are far below.
- The half-open breaker is documented to admit one request; it admits any number (`HalfOpenAdmitsAll`),
  and a success recorded while it is open leaves it open (`ClosesExactly`).
- `check_approval_status` skips a step it has refused before, so a second check may report approval
  (`RefusalForgotten`, from a fresh submission `RefusalForgottenFromSubmission`);
  `ApprovalReportSoundExactly` says when the report can be trusted.
- The tool client's cache is documented to hold 200 entries of at most 30 s. A client that uses the
  shared store serves answers up to 60 s old and its dictionary has no bound, however many others
  there are (`AgeLimitExactly`, `SizeLimitExactly`).
- The Go cache may drop an entry that is still in time, when a slow reader of an older one finishes
  (`DropLosesFreshExactly`).
- A budget check reserves nothing: calls that check before any of them consumes may overrun the
  budget (`OverlapExactly`).
- Provider request counts are never incremented, so the rate limit never takes effect
  (`IsRateLimited`).
- The diagnostic node does not copy a tool name into the plan, so remediation executes nothing in a
  run of the graph (`NoRunExecutes`). The graph also builds its remediation node without a tool client
  (python/src/aiops/agent/graph.py:76), which alone excludes execution.
- The budget check raises a division error when a task's session cap is 0 and the estimate passes
  the earlier tests; the model returns `DivisionByZero` there (`DivisionExactly`).

## Model

| member | source | states |
|---|---|---|
| Topology.TopologyWalk.constructor | python/src/aiops/rag/graph_rag.py:443-445 | A walk starts with nothing visited and an empty result |
| Topology.TopologyWalk.Traverse | python/src/aiops/rag/graph_rag.py:447-454 | The recursive walk over the shared visited set ends for every graph, cyclic ones too; it visits exactly the nodes of the reference walk, and each visited node is a key with its own dependency list |
| Topology.GetComponentTopology | python/src/aiops/rag/graph_rag.py:443-457 | The returned dictionary has exactly the walked nodes as keys, each with its dependency list |
| Topology.TopologySound | python/src/aiops/rag/graph_rag.py:447-456 | Every key returned is at most `depth` hops from the start; a negative depth returns nothing |
| Topology.TopologyComplete | python/src/aiops/rag/graph_rag.py:447-456 | When `depth` + 1 is at least the number of reachable nodes, the keys are exactly the reachable nodes |
| Topology.TopologyExactAtNodeCount | python/src/aiops/rag/graph_rag.py:447-456 | When `depth` + 1 is at least the number of nodes of the dictionary, a node is a key if and only if it is reachable |
| Topology.ShortcutMisses | python/src/aiops/rag/graph_rag.py:448-454 | On every size and depth in between there is a graph where a node within `depth` hops is missed |
| Topology.DepthCompleteExactly | python/src/aiops/rag/graph_rag.py:447-456 | "All nodes within `depth` hops" holds on every graph with n reachable nodes if and only if depth is at most 1 or at least n - 1 |
| Splitter.LastOccurrenceIsLast | python/src/aiops/rag/processor.py:240-248 | What `rfind` over a slice finds: an occurrence, and none later |
| Splitter.StripOnlyCutsSpace | python/src/aiops/rag/processor.py:253-254 | `strip` removes white space at the two ends and nothing else; the result is empty exactly for blank text |
| Splitter.SpacesAre | python/src/aiops/rag/processor.py:253-254 | White space is these 29 characters |
| Splitter.SliceIs | python/src/aiops/rag/processor.py:240-253 | What a slice with bounds beyond or below the text comes to |
| Splitter.WindowBounds | python/src/aiops/rag/processor.py:235-251 | Every window advances at least min(max, max/2 + 2) characters and is at most `max` long |
| Splitter.WindowEndsAtBreak | python/src/aiops/rag/processor.py:238-251 | A window that leaves text over ends just after the last paragraph break of its second half, else just after the last sentence end there, else at full size |
| Splitter.CollectChunks | python/src/aiops/rag/processor.py:231-260 | The loop ends and returns exactly the stripped non-empty texts of the reference windows, in order |
| Splitter.ChunksAre | python/src/aiops/rag/processor.py:253-256 | A window gives a chunk if and only if it shows more than white space; no chunk is empty; they keep the order of the windows |
| Splitter.SplitText | python/src/aiops/rag/processor.py:226-260 | Short text is returned whole unless blank; long text gives the chunks of its windows |
| Splitter.TextWindowsShape | python/src/aiops/rag/processor.py:232-258 | Every window and its text are non-empty and at most `max_chars` long, the first starts at 0, each later one exactly `overlap` before the previous end, and the last reaches the end of the text |
| Splitter.WindowsReconstructText | python/src/aiops/rag/processor.py:253-258 | The first window and the later ones without their first `overlap` characters join back to the original text |
| Splitter.VisibleCharacterKept | python/src/aiops/rag/processor.py:253-260 | Every position of the text that does not hold white space lies in the stretch of text that some emitted chunk is |
| Splitter.WideOverlapNeverEnds | python/src/aiops/rag/processor.py:234-258 | With an overlap of a whole window or more, a text without breaks is never finished |
| Splitter.StuckNeverEnds | python/src/aiops/rag/processor.py:250-258 | With an overlap from max/2 + 2 up, a text with one full stop in the right place is never finished |
| Splitter.SplitEndsExactly | python/src/aiops/rag/processor.py:234-258 | The loop ends on every text if and only if overlap < min(max, max/2 + 2) |
| Retriever.TallyAllDense | python/src/aiops/rag/retriever.py:213-217 | After the dense loop the scores are the sums over dense ranks, the keys are in first-seen order, and each key is represented by its last dense occurrence |
| Retriever.TallyAllSparse | python/src/aiops/rag/retriever.py:219-224 | The sparse loop adds its own terms, and represents by its first occurrence only what the dense list did not have |
| Retriever.Assemble | python/src/aiops/rag/retriever.py:229-237 | The result list takes content, source and metadata from the representative and the fused score |
| Retriever.SameDocumentExactly | python/src/aiops/rag/retriever.py:240-242 | Two documents are one if and only if their content hashes agree; without hashes, source and first 100 characters |
| Retriever.FusedScoreIs | python/src/aiops/rag/retriever.py:213-222 | In duplicate-free lists a document at ranks i and j scores 1/(k+i+1) + 1/(k+j+1), one found by a single route its one term |
| Retriever.RepresentativeIs | python/src/aiops/rag/retriever.py:217-224 | The document shown is the last dense occurrence of the key, or else the first sparse one |
| Retriever.TakeIs | python/src/aiops/rag/retriever.py:118-126 | A cut to k keeps the first k; a negative k drops that many from the end |
| Retriever.RrfFusion | python/src/aiops/rag/retriever.py:180-237 | One document per key of either list, scored by the sum of 1/(k + rank + 1) over all its occurrences, in descending order with ties in first-seen order, represented by the last dense or else the first sparse occurrence |
| Retriever.FusionUnique | python/src/aiops/rag/retriever.py:226-237 | That promise determines the list: two lists that keep it are equal |
| Retriever.BothRoutesWin | python/src/aiops/rag/retriever.py:213-227 | With duplicate-free lists of at most n and k > n - 2, whatever both routes found scores strictly above whatever only one found |
| Retriever.SmallKFails | python/src/aiops/rag/retriever.py:213-227 | With k at most n - 2 a document at the bottom of both lists does not beat the top of one |
| Retriever.BothRoutesExactly | python/src/aiops/rag/retriever.py:213-227 | So the law holds on all such lists if and only if k > n - 2 |
| Retriever.FusionIsRanked | python/src/aiops/rag/retriever.py:226-237 | Fused documents have distinct keys and descending scores |
| Retriever.FilterRanked | python/src/aiops/rag/retriever.py:109-112 | The metadata filter keeps exactly the documents that match, still distinct and descending |
| Retriever.Deduplicate | python/src/aiops/rag/retriever.py:166-177 | The loop over the seen-set keeps the first document of each key, in order |
| Retriever.DeduplicateDistinct | python/src/aiops/rag/retriever.py:114-115 | On documents with distinct keys, such as fused and filtered ones, de-duplication changes nothing |
| Retriever.RerankOnlyCuts | python/src/aiops/rag/reranker.py:44-45 | On ranked documents the bundled reranker's stable sort changes nothing, it only cuts |
| Retriever.FallbackAgreesExactly | python/src/aiops/rag/retriever.py:118-126 | The reranked answer equals the fallback after a reranker failure if and only if at most 20 documents are left, or top_k is from 0 to 20, or top_k cuts everything off |
| Retriever.Retrieve | python/src/aiops/rag/retriever.py:82-139 | A lone route's exception escapes, with both routes a failed one counts as empty; every other answer is the fused list of what was answered, filtered, cut to 20 when reranked, and cut to top_k |
| Statistics.CauchySchwarz | python/src/aiops/llm/cache.py:303-310 | For any two vectors of one length the squared dot product is at most the product of the squared norms |
| Statistics.CosineInUnitInterval | python/src/aiops/llm/cache.py:290-310 | Cosine similarity lies in [-1, 1] for any two vectors, mismatched, empty and zero ones included |
| Statistics.CosineSymmetric | python/src/aiops/llm/cache.py:290-310 | It is symmetric, and 1 for a non-zero vector with itself |
| Statistics.CosineOfOpposite | python/src/aiops/llm/cache.py:290-310 | It is -1 for a non-zero vector with its opposite |
| Statistics.CosineOfNothing | python/src/aiops/llm/cache.py:302-310 | It is 0 for vectors of different lengths, for empty ones, and against a vector of length zero |
| Statistics.CorrelationInUnitInterval | python/src/aiops/eval/llm_judge.py:268-290 | The human/model correlation of any two score sequences lies in [-1, 1] |
| Statistics.CorrelationOfExtremes | python/src/aiops/eval/llm_judge.py:268-290 | Varying scores correlate 1 with themselves and -1 with their negatives |
| Statistics.CorrelationOfNothing | python/src/aiops/eval/llm_judge.py:268-290 | A single score, or scores that never vary, correlate 0 |
| Statistics.DeviationsCancel | python/src/aiops/eval/llm_judge.py:274-280 | Deviations from the mean sum to zero |
| Statistics.WelchMeans | python/src/aiops/eval/ab_test.py:296-332 | Too little data or spread gives (0, 1); otherwise the statistic is the difference of the means in standard errors, positive if and only if the first mean is the greater, with the two-sided p-value |
| Statistics.VarianceMeans | python/src/aiops/eval/ab_test.py:303-312 | The squared standard error of a mean: squared deviations over n - 1, over n |
| Statistics.WelchSwap | python/src/aiops/eval/ab_test.py:303-332 | Swapping the groups negates the statistic and keeps the p-value, which lies in [0, 1] |
| Statistics.DegreesBounds | python/src/aiops/eval/ab_test.py:318-321 | The Welch-Satterthwaite quotient lies between the smaller of the two single degrees and their sum |
| Statistics.WelchDegreesBounds | python/src/aiops/eval/ab_test.py:307-321 | Whenever the test gets as far, the degrees of freedom lie between min(n1, n2) - 1 and n1 + n2 - 2 |
| SemanticCache.LatestMeans | python/src/aiops/llm/cache.py:174-174 | The reference answer for a key is the last event of the log that stores the key, or erases everything or by a part of the key, if it stores |
| SemanticCache.SurvivesMeans | python/src/aiops/llm/cache.py:175-206 | A put survives if and only if no later invalidation is of everything or by a part of its key |
| SemanticCache.SameKeyExactly | python/src/aiops/llm/cache.py:218-226 | Under an injective digest two lists of messages share a key if and only if they have one length and agree everywhere on role and content, a missing field reading as empty |
| SemanticCache.ReferenceAnswersQuestion | python/src/aiops/llm/cache.py:109-126 | So the reference answers with the last put of the same question that is in time and neither superseded nor erased, and only with that |
| SemanticCache.ServedForLifetime | python/src/aiops/llm/cache.py:74-82 | An answer is served for the lifetime of its kind of task: an hour for triage down to five minutes for remediation and correlation |
| SemanticCache.RetainPieces | python/src/aiops/llm/cache.py:199-199 | Filtering a level works piece by piece, so order and repetitions stay |
| SemanticCache.SemanticCache.constructor | python/src/aiops/llm/cache.py:92-96 | An empty cache |
| SemanticCache.SemanticCache.Get | python/src/aiops/llm/cache.py:98-149 | A level-one hit is what the unbounded reference answers, with an injective digest the last unexpired answer to the same raw messages; a level-two hit is an unexpired surviving put of greatest similarity, above 0.92; the one counter of the outcome goes up, hits and misses add up to the gets; exactly the entry that answers counts a hit; an expired exact entry is deleted, and nothing else changes |
| SemanticCache.SemanticCache.LookupL1 | python/src/aiops/llm/cache.py:109-130 | The exact match agrees with the reference, and deletes only an expired entry |
| SemanticCache.FindBest | python/src/aiops/llm/cache.py:261-276 | The scan returns the first of the unexpired embedded entries of greatest similarity above 0.92, or none if there is none |
| SemanticCache.SemanticCache.SearchL2 | python/src/aiops/llm/cache.py:251-288 | Level two answers with such an entry and counts the hit on it alone |
| SemanticCache.SemanticCache.Put | python/src/aiops/llm/cache.py:151-176 | The put is logged and becomes its key's entry, after an eviction if the cache was full and only then; both levels are otherwise as that eviction leaves them, level two with the entry at its end if it has an embedding; only the eviction counter moves, by the keys evicted; level one never holds more than max(1, max_entries) |
| SemanticCache.SemanticCache.Evict | python/src/aiops/llm/cache.py:347-375 | Every key past its lifetime goes; if the rest still fills the cache, entries go down to 100 below the limit, none of them used more, or as often and entered later, than one that stays; both levels keep the rest in order; every key gone is counted |
| SemanticCache.SemanticCache.EvictExpired | python/src/aiops/llm/cache.py:349-358 | Exactly the expired keys are deleted, each counted as an eviction |
| SemanticCache.SemanticCache.EvictLowest | python/src/aiops/llm/cache.py:361-369 | No survivor has smaller (hits, age) than a key evicted by rank |
| SemanticCache.LowestRanked | python/src/aiops/llm/cache.py:362-367 | A prefix of the stable sort by (hit_count, created_at) is below everything left |
| SemanticCache.SemanticCache.SyncL2 | python/src/aiops/llm/cache.py:371-375 | Level two keeps, in order and with repetitions, exactly the entries whose key is in level one |
| SemanticCache.SemanticCache.Invalidate | python/src/aiops/llm/cache.py:185-208 | Without a pattern both levels are emptied, with one exactly the keys it is part of go from both, the rest stays in order; the count is what level one lost; the reference agrees |
| SemanticCache.VictimsAreLowest | python/src/aiops/llm/cache.py:361-369 | The keys chosen for eviction are distinct, as many as asked, and ranked below all others |
| GoCache.CacheStore.constructor | go/internal/middleware/cache.go:67-75 | A limit of zero or less becomes 1000 |
| GoCache.CacheStore.Get | go/internal/middleware/cache.go:77-103 | An uninterrupted get answers the unexpired entry and counts a hit, or counts a miss and drops an expired entry |
| GoCache.CacheStore.RecordExpired | go/internal/middleware/cache.go:89-95 | The second critical section deletes whatever is under the key by then |
| GoCache.CacheStore.Set | go/internal/middleware/cache.go:105-119 | A full store first gives up an entry of least creation time, also when the key is already there |
| GoCache.CacheStore.EvictOldest | go/internal/middleware/cache.go:123-138 | An oldest entry is deleted and counted; nothing happens on an empty store |
| GoCache.CacheStore.Oldest | go/internal/middleware/cache.go:124-132 | The scan finds an entry of least creation time in whatever order the map is walked |
| GoCache.StepBalanced | go/internal/middleware/cache.go:77-138 | Each atomic step keeps the size limit and the counters |
| GoCache.EveryInterleaving | go/internal/middleware/cache.go:77-138 | In every interleaving of gets and sets: at most `maxEntries` entries; hits + misses are the finished gets; every answer was set for its key and in time when judged; every entry ever added is present, evicted or dropped |
| GoCache.GetsFinish | go/internal/middleware/cache.go:77-103 | A started get always has a step it can take, and only its own steps move it |
| GoCache.UninterruptedGet | go/internal/middleware/cache.go:77-103 | The three steps of a get that nobody interrupts: served and counted as a hit if and only if the entry is in time, else dropped and counted as a miss |
| GoCache.DropLosesFreshExactly | go/internal/middleware/cache.go:77-119 | In every interleaving, the drop that ends a get removes an entry still in time if and only if a set of the key since that get looked is undisplaced and still in time |
| GoCache.QuietDropLosesNothing | go/internal/middleware/cache.go:77-95 | With no set of the key since the look a drop removes nothing in time |
| GoCache.StaleReaderDropsFreshEntry | go/internal/middleware/cache.go:89-95 | Such a run, step by step: a reader of an old entry deletes the newer one |
| McpClient.McpClient.GetCache | python/src/aiops/mcp_client/client.py:201-222 | The private entry answers while younger than 30 s and is deleted otherwise; then the shared store answers until its entry expires, and its answer is copied under a new time stamp |
| McpClient.McpClient.SetCache | python/src/aiops/mcp_client/client.py:224-238 | The new entry is kept, at most one entry, the oldest, is given up beyond 200, and the shared store gets it with a 30 s lifetime |
| McpClient.McpClient.CallTool | python/src/aiops/mcp_client/client.py:84-121 | An answer comes from the cache only for one of the nine tools, written out; a call of any other tool leaves cache and store alone and ends as the backend does; errors are counted only for failed calls; a failed call stores nothing |
| McpClient.Oldest | python/src/aiops/mcp_client/client.py:228-230 | The entry given up has the least stamp, the first inserted among equals |
| McpClient.EveryRun | python/src/aiops/mcp_client/client.py:201-238 | For any number of clients and any interleaving, every cached answer came from a successful call with the same tool and parameters less than 60 s earlier (plus two clock lags); without the shared store less than 30 s earlier and the client's own; without it at most 200 entries |
| McpClient.RunKeepsInv | python/src/aiops/mcp_client/client.py:201-238 | What every step keeps: every entry anywhere is backed by a call recent enough for its stamp |
| McpClient.NineToolsOnly | python/src/aiops/mcp_client/client.py:24-30 | In every run every key of every cache, of the shared store and of every answer served is of one of the nine tools |
| McpClient.NineToolsExactly | python/src/aiops/mcp_client/client.py:24-30 | For every client of every sharing pattern a tool can be served from a cache if and only if it is one of the nine |
| McpClient.AgeReached | python/src/aiops/mcp_client/client.py:210-218 | For every sharing pattern and every client of it: any age below 60 s and two lags for a client that shares, below 30 s for one that does not, is served in some run |
| McpClient.AgeLimitExactly | python/src/aiops/mcp_client/client.py:31-31 | So for every client of every sharing pattern an age limit holds in all runs if and only if it is at least 60 s and two lags, or at least 30 s for a client that does not share |
| McpClient.SizeLimitExactly | python/src/aiops/mcp_client/client.py:215-230 | For every client of every sharing pattern a size limit holds in all runs if and only if the client does not share and the limit is at least 200: copying skips the trim |
| AgentNodes.StateDict.Finish | python/src/aiops/agent/base.py:63-109 | An exception is counted and the state goes on as it was left; no exception leaves the node |
| AgentNodes.ProcessTriage | python/src/aiops/agent/nodes/triage.py:143-284 | The node writes what the value function says: rule match, model answer or fallback, then the corrections |
| AgentNodes.ProcessPlanning | python/src/aiops/agent/nodes/planning.py:100-169 | The round limit and data requirements after an answer, a fallback or an exception |
| AgentNodes.ProcessDiagnostic | python/src/aiops/agent/nodes/diagnostic.py:65-139 | One round: the counter is raised first; diagnosis, plan and requirements are written as far as no exception stops it |
| AgentNodes.HitlWorker.Process | python/src/aiops/agent/nodes/hitl_gate.py:65-171 | The node working in place on the plan and the gate, with exceptions at any request or check, has the effect of the value function |
| AgentNodes.HitlWorker.RequestPhase | python/src/aiops/agent/nodes/hitl_gate.py:97-122 | One request for each high-risk step, in order, whose id the step carries |
| AgentNodes.HitlWorker.CheckPhase | python/src/aiops/agent/nodes/hitl_gate.py:124-169 | The verdict is rejected if any request is rejected or timed out, approved if all are cleared, pending otherwise |
| AgentNodes.RemediationWorker.Process | python/src/aiops/agent/nodes/remediation.py:70-117 | Steps edited in place, in order; executed and suggested counts add up to the plan |
| AgentState.RemediationIsControlled | python/src/aiops/agent/nodes/remediation.py:119-161 | Every processed step keeps number, action, risk, impact, tool and request, and its rollback note if it had one; it is executed if and only if its risk is none or low (medium too in development), there is a tool for it and nothing was rejected; high and critical ones never are, and need approval; the rest of the plan stays |
| AgentGraph.EveryRunEnds | python/src/aiops/agent/graph.py:97-136 | Whatever the nodes return or raise, a run from a fresh state has at most 5 diagnostic rounds and 11 node executions and is over after 11 |
| AgentGraph.RunBounds | python/src/aiops/agent/router.py:72-96 | The bound behind it: executions done and executions left never add up to more than 11, rounds to more than 5 |
| AgentGraph.AfterTriageExactly | python/src/aiops/agent/nodes/triage.py:143-284 | The node after triage and the route written, from the request, the rules and the model: direct tool, correlation from three alerts on or at the model's word, planning otherwise |
| AgentGraph.AfterRoundExactly | python/src/aiops/agent/router.py:72-106 | After every diagnostic round: another if and only if rounds are left, at most 14000 tokens are spent, confidence is below 0.6 and data is asked for; the approval node if and only if rounds and tokens are left, no round is due and some step is high or critical; the report otherwise |
| AgentGraph.TokensStopRuns | python/src/aiops/agent/router.py:84-86 | Beyond 14000 tokens no approval starts in any run, and no round but one just planned; every round leads to report |
| AgentGraph.AfterPlanningExactly | python/src/aiops/agent/nodes/planning.py:100-169 | Planning sets the round limit one above the estimate, at most five, and the data to collect; an exception sets neither |
| AgentGraph.RoundsWithinPlan | python/src/aiops/agent/nodes/planning.py:100-169 | So no run makes more rounds than one over the plan's estimate, nor more than five |
| AgentGraph.DiagnosisWritten | python/src/aiops/agent/nodes/diagnostic.py:65-139 | A round writes confidence, plan (the model's steps field by field) and open questions, as far as no exception stops it |
| AgentGraph.ErrorsAreExceptions | python/src/aiops/agent/base.py:63-109 | In every run the error count is the number of exceptions that escaped a node |
| AgentGraph.ElevenIsReached | python/src/aiops/agent/graph.py:97-136 | A run with 11 executions exists, so the bound is tight |
| AgentGraph.RunsEndWithReport | python/src/aiops/agent/graph.py:109-136 | A finished run is triage then direct tool, or ends with report then knowledge sink, each exactly once |
| AgentGraph.FastPathExactly | python/src/aiops/agent/nodes/triage.py:154-181 | The fast path is taken if and only if a rule matches a user query, or the model says so for fewer than three alerts and no alert request |
| AgentGraph.AlertsNeverTakeFastPath | python/src/aiops/agent/nodes/triage.py:257-268 | No run of an alert request visits direct tool |
| AgentGraph.HitlApprovesExactly | python/src/aiops/agent/nodes/hitl_gate.py:124-171 | With high-risk steps, remediation follows if and only if nothing is raised and every new request is approved when it is checked |
| AgentGraph.HitlStatusExactly | python/src/aiops/agent/nodes/hitl_gate.py:65-171 | Rejected if some request is rejected, timed out or open past its deadline at the check, else approved if all are approved, else pending; no status after an exception; approved at once without high-risk steps |
| AgentGraph.HitlDecidedStays | python/src/aiops/agent/nodes/hitl_gate.py:81-92 | A plan approved or rejected before is not asked for again |
| AgentGraph.RequestsMatchSteps | python/src/aiops/agent/nodes/hitl_gate.py:97-122 | The a-th high-risk step gets the a-th request, with its own action and risk and at least 600 s, and carries its id; the other steps stay |
| AgentGraph.RemediationOnlyWhenApproved | python/src/aiops/agent/router.py:113-130 | In every run, when remediation is reached every step of risk high or critical has a request of its own, for its own action and risk, that is approved; a critical one by two people unless automatic |
| AgentGraph.ApprovalOutlastsOthers | python/src/aiops/agent/nodes/hitl_gate.py:130-160 | Nothing others do at the gate takes such an approval back |
| AgentGraph.UnattendedHitlNeverApproves | python/src/aiops/agent/nodes/hitl_gate.py:126-169 | Outside development mode, with nobody acting between creation and check, the node leads to report |
| AgentGraph.UnattendedRunsNeverRemediate | python/src/aiops/agent/graph.py:125-132 | Outside development mode such runs never reach remediation |
| AgentGraph.NoRunExecutes | python/src/aiops/agent/nodes/diagnostic.py:106-116 | No run executes any step, even with a tool client: the diagnostic node copies no tool name into the plan |
| HitlGate.HITLGate.CreateRequest | python/src/aiops/hitl/gate.py:135-195 | A request under the rules of its risk level, resolved at once in development mode; other requests unchanged |
| HitlGate.HITLGate.Approve | python/src/aiops/hitl/gate.py:197-249 | The error cases, the expiry and the dual rule as on values; other requests unchanged |
| HitlGate.HITLGate.Reject | python/src/aiops/hitl/gate.py:251-275 | As on values: a pending request is rejected even past its deadline |
| HitlGate.HITLGate.CheckStatus | python/src/aiops/hitl/gate.py:277-296 | A pending request past its deadline is timed out now; nothing else changes |
| HitlGate.RunKeepsInv | python/src/aiops/hitl/gate.py:156-296 | In every run: kind and deadline follow the risk level, high and critical ones at least 600 s; an approved dual request has two distinct approvers; a pending dual one at most one; a pending single one none |
| HitlGate.ResolvedForever | python/src/aiops/hitl/gate.py:210-216 | A resolved request never changes again |
| HitlGate.TermsForever | python/src/aiops/hitl/gate.py:163-170 | A request keeps its terms, and approvals are only added |
| HitlGate.DualApprovedExactly | python/src/aiops/hitl/gate.py:220-237 | A dual request within its timeout is approved by a call if and only if an earlier approval came from someone else |
| HitlGate.CheckExactly | python/src/aiops/hitl/gate.py:277-296 | A check times out exactly the open request past its deadline, and leaves every other request alone |
| HitlGate.ApproveExactly | python/src/aiops/hitl/gate.py:210-249 | Resolved requests refuse; late ones time out; in time a single request is approved, a dual one if somebody else approved before |
| HitlGate.RejectExactly | python/src/aiops/hitl/gate.py:251-275 | Every open request can be rejected, even late, and no other |
| HitlGate.StatusIsReadOffTheCalls | python/src/aiops/hitl/gate.py:135-296 | In every run with manual approval a request is open exactly until the first call that resolves it, and that call decides: rejected, timed out past the deadline, or approved (a critical one after an approval by somebody else); its terms are those it was created with |
| HitlGate.AutoApprovedForever | python/src/aiops/hitl/gate.py:175-186 | In development mode a request is approved when created and stays so |
| HitlGate.ApprovalsWereMade | python/src/aiops/hitl/gate.py:213-218 | Every recorded approver called approve on that request before its deadline, or the request was approved automatically |
| HitlGate.ExpiredNeverApproved | python/src/aiops/hitl/gate.py:213-216 | Past its deadline a request not approved collects no approval from any later call |
| HitlWorkflow.ApprovalWorkflow.constructor | python/src/aiops/hitl/workflow.py:112-136 | A workflow of risk-assessed steps without requests |
| HitlWorkflow.ApprovalWorkflow.SubmitForApproval | python/src/aiops/hitl/workflow.py:152-200 | Each step of medium, high or critical risk awaits its own new request, with its operation, level and timeout; safe and low ones are approved without; the workflow waits if and only if a step does |
| HitlWorkflow.SubmissionExactly | python/src/aiops/hitl/workflow.py:164-195 | The same on values, with the earlier requests of the gate untouched |
| HitlWorkflow.ApprovalWorkflow.CheckApprovalStatus | python/src/aiops/hitl/workflow.py:202-234 | Each waiting step takes over its request's outcome; refused if one is newly refused, approved if none is pending |
| HitlWorkflow.PollExactly | python/src/aiops/hitl/workflow.py:209-232 | From the gate as the check finds it: refused if and only if some awaiting step's request is rejected, timed out or past its deadline, else approved if and only if all awaiting ones are approved, else unchanged; and so for each step |
| HitlWorkflow.OverduePollRefuses | python/src/aiops/hitl/workflow.py:213-232 | A poll past the deadline of one open request refuses the workflow |
| HitlWorkflow.ApprovalReportSoundExactly | python/src/aiops/hitl/workflow.py:212-232 | A check's report of approval means every step is approved if and only if no step had been refused before |
| HitlWorkflow.RefusalForgotten | python/src/aiops/hitl/workflow.py:213-232 | After a refusal, once the other requests are cleared, the next check reports approval |
| HitlWorkflow.RefusalForgottenFromSubmission | python/src/aiops/hitl/workflow.py:152-232 | From a fresh submission of two steps: one refused, reported, then the other approved, and the next check reports approval |
| HitlWorkflow.VerdictExplained | python/src/aiops/hitl/workflow.py:209-232 | From a workflow nobody has refused: approved only with every step properly approved, refused only with a refused step and request |
| HitlWorkflow.RunKeepsLinked | python/src/aiops/hitl/workflow.py:212-226 | Whatever others do at the gate, creating requests under new ids included, every step stays tied to its own request |
| HitlWorkflow.WaitUnique | python/src/aiops/hitl/workflow.py:254-271 | The polls, the environment and the time limit determine when the wait ends and with what |
| HitlWorkflow.WaitMeans | python/src/aiops/hitl/workflow.py:254-271 | The steps come back with nothing but their states changed and distinct requests; approved only with every step of medium, high or critical risk approved by its own cleared request, a critical one by two people or automatically; refused only with a refused step and request or the wait used up |
| HitlWorkflow.ApprovedAsSubmitted | python/src/aiops/hitl/workflow.py:164-264 | From submission to approval: the request made for each step of medium, high or critical risk, for its operation and level, is the one that was cleared |
| HitlWorkflow.ApprovalWorkflow.WaitForApproval | python/src/aiops/hitl/workflow.py:236-271 | Against a gate where others create, approve, reject and check between polls, the wait ends, exactly as the polls and pauses make of the submitted steps and gate: at the first final poll, else refused with the time used up; the time returned is the sum of the sleeps; approved and refused mean what `WaitMeans` says, written out |
| Providers.CircuitBreaker.RecordSuccess | python/src/aiops/llm/providers.py:65-74 | The fields stay the replay of the trace |
| Providers.CircuitBreaker.RecordFailure | python/src/aiops/llm/providers.py:76-87 | The fields stay the replay of the trace |
| Providers.CircuitBreaker.IsAvailable | python/src/aiops/llm/providers.py:89-102 | The answer is whether the breaker is not open afterwards; an open one turns half open a minute after the last failure |
| Providers.CountsTheTrace | python/src/aiops/llm/providers.py:65-87 | The failure count is the number of failures since the last success; the totals count the trace; closed means below five |
| Providers.StateIsReadOffTheTrace | python/src/aiops/llm/providers.py:65-102 | The state from the trace alone: not closed if and only if five failures came without a success between and no success since followed a late question; then half open if and only if a question came late and no failure since |
| Providers.OpensExactly | python/src/aiops/llm/providers.py:83-87 | It opens on the fifth failure in a row while closed, on a failed probe, and on nothing else |
| Providers.ClosesExactly | python/src/aiops/llm/providers.py:70-74 | It closes on a successful probe and on nothing else |
| Providers.StaysOpenExactly | python/src/aiops/llm/providers.py:94-99 | Open, it stays open through any events, successes too, if and only if every question comes within 60 s of the latest failure |
| Providers.AdmitsExactly | python/src/aiops/llm/providers.py:89-102 | Under a clock that never goes back it admits if and only if it is closed or 60 s have passed since the last failure |
| Providers.HalfOpenAdmitsAll | python/src/aiops/llm/providers.py:101-102 | Half open it admits any number of requests, although one is documented |
| Providers.ProviderManager.constructor | python/src/aiops/llm/providers.py:194-202 | The given providers, or the four built-in ones for none, each with a fresh breaker |
| Providers.ProviderManager.Register | python/src/aiops/llm/providers.py:204-208 | The provider is entered under its name with a fresh breaker of its own |
| Providers.ProviderManager.IsRateLimited | python/src/aiops/llm/providers.py:348-361 | Since no request is ever counted, only a limit of zero or less turns a provider away |
| Providers.ProviderManager.GetAvailableProviders | python/src/aiops/llm/providers.py:216-258 | The stable sort by priority of the eligible providers in registration order; every breaker is asked once |
| Providers.SelectionIsExact | python/src/aiops/llm/providers.py:231-258 | That list is exactly the providers with a positive rate limit, serving the model asked for, local if the request is sensitive, whose breaker is not open or failed 60 s ago; each once, by ascending priority number, equals in registration order |
| Providers.ShippedProviders | python/src/aiops/llm/providers.py:156-192 | The four shipped providers, their order, limits and models; only one is local |
| Providers.EachAskedOnce | python/src/aiops/llm/providers.py:233-239 | Selecting asks each breaker exactly once, whether its provider serves or not |
| Providers.ProviderManager.TierFor | python/src/aiops/llm/providers.py:291-297 | The last tier that contains the pair, or the middle one |
| Providers.TargetsAre | python/src/aiops/llm/providers.py:275-297 | Which tier each model falls back in |
| Providers.ProviderManager.GetFallbackChain | python/src/aiops/llm/providers.py:260-308 | The other providers of the tier, in its order, whose breakers let them be tried |
| Providers.FallbacksAre | python/src/aiops/llm/providers.py:275-308 | What is tried after each model when every breaker admits |
| Providers.ChainIsSafe | python/src/aiops/llm/providers.py:299-308 | The chain never contains the primary or a provider left open, and everyone missing is the primary, unregistered or open |
| Budget.DecisionsOnlyHarden | python/src/aiops/llm/budget.py:150-199 | Asking for more, or after more use, never gets a milder answer |
| Budget.TokenBudgetManager.CheckBudget | python/src/aiops/llm/budget.py:133-199 | The session exists afterwards and nothing else changes; the answer follows the source's order: session, task, call |
| Budget.TokenBudgetManager.Consume | python/src/aiops/llm/budget.py:201-217 | Only the one session and task change, by the amount |
| Budget.TokenBudgetManager.ResetSession | python/src/aiops/llm/budget.py:251-255 | Only the one session goes |
| Budget.BookIsHistory | python/src/aiops/llm/budget.py:212-217 | After any operations a session holds exactly what it consumed since its last reset, task by task, how often, and its total is the sum of its tasks |
| Budget.AnswersFromHistory | python/src/aiops/llm/budget.py:133-199 | After any history the answer is read off what session and task consumed since the last reset: reject, downgrade, compress and allow each if and only if |
| Budget.ShippedLimits | python/src/aiops/llm/budget.py:67-106 | The largest first call of each kind and the shipped session caps |
| Budget.BudgetHolds | python/src/aiops/llm/budget.py:150-161 | If every consumption follows its own unrejected check with a sufficient estimate, with at most further checks of the session between, no session exceeds its budget, whatever others do |
| Budget.TaskCapHolds | python/src/aiops/llm/budget.py:163-187 | If moreover nothing is consumed on a downgrade, no task exceeds its cap |
| Budget.OthersDoNotMatter | python/src/aiops/llm/budget.py:133-217 | A session depends on its own operations only |
| Budget.KeptExactly | python/src/aiops/llm/budget.py:150-217 | However checks and consumptions overlap, the budget is kept throughout if and only if all that is consumed fits what remained at the start |
| Budget.ChecksDoNotSeeEachOther | python/src/aiops/llm/budget.py:150-161 | A check is answered from what was consumed, not from what others have checked |
| Budget.OverlapExactly | python/src/aiops/llm/budget.py:150-217 | Calls that all check before any consumes, then consume their estimates, keep the budget if and only if the estimates together fit what remained |
| Budget.OverlappingChecksOverrun | python/src/aiops/llm/budget.py:150-161 | The check reserves nothing: two checks before either consumption overrun any positive budget |
| Budget.DivisionExactly | python/src/aiops/llm/budget.py:163-190 | The division error is raised exactly for a cap of 0 and an estimate that passes the earlier tests; some estimate does so whenever the cap is 0, and none above 0 while usage is not negative |

## Left out

- Language model, HTTP, Redis, vector and graph database calls, logging, metrics, notifications and report texts: inputs or nothing.
- Redis persistence and restore in the approval gate: memory mode only, where its invariants hold.
- `RiskClassifier.classify`: the resulting risk level is an input of the workflow.
- `_match_filters`: the filter is an arbitrary predicate on documents, which covers every filter dictionary.
- Heading and table splitting in `process`, and the retrieval and path search of the graph module: string and query work around the modelled loops.
- `_plan_tool_calls` and the parallel tool calls of the diagnostic node: they only feed the collected data, and the analysis of that data is an input.
- Regular expressions of the triage rules: an outcome of the rule engine.
- The query rewriter of the retriever: an exception there escapes before anything modelled happens.
- Retriever.RrfFusion: requires that no denominator k + rank + 1 is zero, which holds for every k that is not negative; Python raises there.
- Splitter.SplitText: requires a terminating pair of sizes, the condition proved exact by `SplitEndsExactly`; otherwise there is no result to describe.
- Python's recursion limit in the topology walk, and the order of the returned dictionary's keys.
- Rounding of floating-point numbers, and the normal distribution function itself (`_normal_cdf`).
- The string-hash trigram vector of the semantic cache: `embed` is any function of the messages.
- SemanticCache.SemanticCache.Get: a level-two answer may belong to a superseded put of a similar question, as in the source; only level one is held to the latest put.
- `default_ttl` of the semantic cache: every task type has its own lifetime, so it is never used.
- `hitCount` of a Go cache entry and 64-bit overflow of the Go counters: the first is never read, the second needs 2^63 calls.
- GoCache.CacheStore.Set: requires that no entry has the empty key, which the scan uses as "none yet"; keys are hexadecimal digests.
- The Go middleware around the cache, the breaker and limiter libraries, and the registry tables.
- McpClient.McpClient.CallTool: other tasks of the same client may run while a call awaits its backend; the method is the call nobody comes between, and `EveryRun` covers the two halves interleaved with everything else.
- Digest collisions of tool parameters, `close`, and the health flag of the backend, which is part of what the backend answers.
- The agent's total token count is an arbitrary growing number; per-node token updates and budget checks are part of what a node may raise.
- Checkpoint and resume of the graph with an injected approval status: runs are uninterrupted from the initial state.
- The mock graph used when the graph library is missing, and the single-node helpers around it.
- Aliasing of approval requests held by callers of the gate: other holders are the `others` of a run, acting through the gate's methods.
- `last_state_change` and the log lines of the breaker, the health report, and `max_tpm`: nothing reads them.
- Providers.ProviderManager.GetAvailableProviders: each provider's breaker and rate window share one clock reading; the window's start influences no answer.
- HitlWorkflow.ApprovalWorkflow.WaitForApproval: requires sleeps of at least the poll interval and requests of others under new ids, as sleeping and random ids give.
- Workflow listeners, rollback points and execution of workflow steps.
- The warning threshold of a task budget only logs, and reports of usage are formatting.
