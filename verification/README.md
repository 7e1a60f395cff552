# Verified model of the hive cluster's stateful components

The repository serves language models from a cluster of Ollama hosts. This project models its
compact stateful components one by one and proves what each promises over whole runs:

| component | files | question answered |
|---|---|---|
| deadline-aware priority queue | `job_order.dfy`, `job_order_proofs.dfy`, `priority_queue.dfy`, `wakeup.dfy` | which job is served next, how long a job near its deadline waits, whether a wake-up can be lost |
| Ollama worker pool | `worker_pool.dfy`, `ollama_queue.dfy` | where a job is at any moment, over every interleaving, and what `Stop` leaves behind |
| rate limiter | `rate_limiter.dfy` | how many requests get through in any window, and whether the sweep can be noticed |
| bounded request queue | `stable_queue.dfy`, `stable_queue_proofs.dfy` | that the shifted slice is a stable sort of what is waiting |
| circuit breaker | `circuit_breaker.dfy` | that its counters and transitions are functions of the event history |
| coding-agent sessions | `session_context.dfy` | what compression keeps, and what the token and message counters mean |
| node registry and balancer | `cluster.dfy`, `balancer.dfy` | health as a function of the trace, what the load score weighs, true minima, fairness of round robin |
| model map | `model_map.dfy` | what every text means, and when printing and parsing a map is a round trip |
| model families and registry | `model_family.dfy`, `model_registry.dfy` | what a family is, that a local substitute is of the requested one, and when the choice depends on the map order |
| histogram | `histogram.dfy` | that every value is counted once, in the bin it lies in |

`common.dfy` holds the shared vocabulary. Objects that the Go code updates in place are classes;
each method is proved against a step function on the object's abstract value, and the run-level
theorems are lemmas about that step function. Code whose point is interleaving is a step system,
one step per critical section. The clock is an explicit argument, read once per operation unless
stated otherwise, and counters and durations are mathematical integers in nanoseconds.

## Where the code and its documentation differ

- `README.md:176` promises 100 requests per minute per client. In an arbitrary minute up to
  2·max(rate,1)−1 get through (`SlidingWindowBound`, reached by `BoundReached`); "at most rate" holds
  for every interval exactly when the rate is one (`SlidingPromiseIff`). A rate of zero or less, which
  the configuration accepts, still lets a first request through (`FirstAlwaysGranted`).
- `hive-server-go/AGENT_API.md:805` says the most recent six messages stay. The loop counts from the
  front, so of a prompt and eight messages the last three survive (`KeepsThreeOfNine`), and with every budget a
  session can have some run ends that way (`NineCompress`, `RecentMessagesLost`); `KeepsRecentIff` gives the exact condition. Message 0 survives, as line 804 says
  (`CompressionEffect`), but the loop's exemption of system messages protects no other: one at place
  1 to 3 is always summarised away (`EarlyMessagesGo`). Line 811 has the token total recalculated; it
  is, unless the table cannot be read again after the commit (`Ledger`). Line 812 has the compression
  count go up after a compression; it goes up with every answered message above the threshold, whether
  or not anything was compressed, and not when the reply fails (`CompressionsAreAttempts`).
- `hive-server-go/model_registry.go:298` gives "llama3" as the family of a "llama3.1" name; the code
  answers "llama3.1" (`CommentedExample`).
- `hive-server-go/circuit_breaker.go:89` speaks of limited requests while half open; the code
  limits none (`HalfOpenAdmitsAll`).
- A consumer that calls `Dequeue` on a closed and empty priority queue is never answered, short of a
  second `Close`; every other call is answered on some run (`SleepsForeverIff`).
- `hive-server-go/model_registry.go:185-192` prefers a quantized substitute and a later used one, but
  the two preferences together are not transitive, so what is found can depend on the order in which
  Go visits the map (`OrderMattersInRegistry`); `OrderIndependentIff` says when it does not.
- `concurrentDeque.remove` goes by ID: with an ID repeated inside one tier, one job can be served
  twice and another lost (`RepeatedIdServedTwice`); `ConservationIff` says exactly when none is.

## Model

| member | source | states |
|---|---|---|
| JobOrderProofs.RunRefines | hive-server-go/priority_queue.go:99-207 | every run of the four deques, with scan and remove-by-ID, is a run of one arrival-ordered list from which the least by (not urgent, tier, arrival) is taken, with the same replies; survivors keep their order |
| JobOrderProofs.ListNextUnique | hive-server-go/priority_queue.go:148-207 | the arrival list leaves no choice: reply and successor are determined |
| JobOrderProofs.DequeueRefines | hive-server-go/priority_queue.go:148-207 | the job found by urgency scan or tier order goes before every other queued job |
| JobOrderProofs.CancelRefines | hive-server-go/priority_queue.go:250-260 | Cancel removes the earliest match of the highest tier, or nothing when no job has the ID |
| JobOrderProofs.EnqueueRefines | hive-server-go/priority_queue.go:126-144 | unless the queue is closed a job joins the end of the list, as it comes when its priority is 0 to 3, otherwise with priority 2 and the same ID and deadline |
| JobOrderProofs.EmptyRefines | hive-server-go/priority_queue.go:112-123 | the new queue is the empty list, so the run theorems apply from the start |
| JobOrderProofs.Conservation | hive-server-go/priority_queue.go:126-260 | over any run in which each urgent job handed out is the first of its tier with its ID, accepted = queued + served + cancelled as multisets, whatever was enqueued |
| JobOrderProofs.ConservationIff | hive-server-go/priority_queue.go:99-260 | that balance holds all along a run exactly when each urgent removal is of that kind |
| JobOrderProofs.DistinctIdsConserve | hive-server-go/priority_queue.go:126-260 | every run that enqueues no ID its tier still holds is such a run |
| JobOrderProofs.CountersCount | hive-server-go/priority_queue.go:126-174 | on every run the two counters count the jobs accepted and served |
| JobOrderProofs.UrgentConservesIff | hive-server-go/priority_queue.go:99-109 | an urgent removal keeps the books exactly when the first holder of the ID in its tier is the job itself |
| JobOrderProofs.RepeatedIdServedTwice | hive-server-go/priority_queue.go:187-203 | a concrete run in which a repeated ID makes one job served twice and another lost |
| JobOrderProofs.BoundedWait | hive-server-go/priority_queue.go:126-207 | while an urgent job stays queued every Dequeue hands out a job, and at most (jobs ahead at the start) + (jobs later accepted into higher tiers) are handed out, counting only jobs of any class that holds all those urgent at some Dequeue |
| JobOrderProofs.ServedInTime | hive-server-go/priority_queue.go:176-207 | once Dequeue has been called more often than there were jobs ahead, and later arrivals above, urgent by the last call, the urgent job has been served or cancelled |
| JobOrderProofs.PriorityRespected | hive-server-go/priority_queue.go:126-174 | on every run a job taken in and neither served nor cancelled is still there, so the next Dequeue serves a job, and that one is urgent when the other is not, or as urgent and of no lower tier |
| JobOrderProofs.LowerPriorityFirst | hive-server-go/priority_queue.go:134-163 | of two enqueued jobs more than five seconds from their deadlines the one with the lower priority number is served first, whichever came first |
| PriorityQueue.ConcurrentDeque.Remove | hive-server-go/priority_queue.go:99-109 | removes the first job with the ID and says whether there was one |
| PriorityQueue.ConcurrentDeque.PopFront | hive-server-go/priority_queue.go:73-82 | takes the front, or answers nil |
| PriorityQueue.PriorityQueue.Enqueue | hive-server-go/priority_queue.go:126-144 | the job stands at the end of the tier of its own priority, or of tier 2 with priority 2 when it names no tier; the other tiers stay; refused exactly when closed; this is the Enqueue step of the tier machine |
| PriorityQueue.PriorityQueue.FindUrgentDeadlineJob | hive-server-go/priority_queue.go:178-207 | the nested scan takes the first job of the first tier that is within five seconds of its deadline or past it, or there is none such in any tier |
| PriorityQueue.PriorityQueue.Dequeue | hive-server-go/priority_queue.go:148-174 | one pass of the loop takes the Dequeue step; None is where the caller goes to sleep |
| PriorityQueue.PriorityQueue.Cancel | hive-server-go/priority_queue.go:250-260 | the object takes the Cancel step and reports whether a job was removed |
| PriorityQueue.PriorityQueue.Close | hive-server-go/priority_queue.go:263-269 | the object refuses arrivals from here on and keeps its jobs |
| Wakeup.NeverLost | hive-server-go/priority_queue.go:126-174 | in every reachable state a sleeping, unsignalled consumer means queued jobs ≤ woken consumers, and none queued after Close |
| Wakeup.QueueRuns | hive-server-go/priority_queue.go:126-174 | the queue under any run of waiting consumers is that of a run of the tier machine, so the theorems about order, books and urgent jobs hold there too |
| Wakeup.JobsAreSpokenFor | hive-server-go/priority_queue.go:126-174 | no job sits queued while all blocked consumers sleep: some consumer is then woken, and whichever woken one runs next comes away with a job |
| Wakeup.WokenAreServed | hive-server-go/priority_queue.go:148-174 | of woken consumers resuming one after the other on an open queue, as many are served as there are jobs, and only the others go back to sleep |
| Wakeup.WokenAreEnough | hive-server-go/priority_queue.go:126-174 | in every reachable state with a sleeper, the queue is empty once all woken consumers have resumed: the signals given suffice for every job |
| Wakeup.SleepsForeverIff | hive-server-go/priority_queue.go:167-172 | a Dequeue call remains blocked, asleep or woken, on every continuation without another Close exactly when the queue is closed and empty; otherwise some run answers it |
| Wakeup.CloseAnswersAll | hive-server-go/priority_queue.go:166-173 | in every reachable state Close leaves nobody asleep, and on every continuation a consumer blocked then is answered by its one next step, and blocked no more until it calls again |
| Wakeup.CloseLeavesJobs | hive-server-go/priority_queue.go:166-173 | consumers woken by Close take no job: what was queued stays until a later Dequeue or Cancel call |
| WorkerPool.Safety | hive-server-go/queue.go:99-143 | over all interleavings an accepted job is in exactly one of channel, hands, running, completed; it is executed at most once; running ≤ maxConcurrent; jobs leave the channel in Submit order; completed jobs are terminal |
| WorkerPool.AfterStop | hive-server-go/queue.go:106-143 | after Stop has returned nothing runs, ever again, and each accepted job is pending in the channel, never executed, or terminal in completed |
| WorkerPool.RunKeeps | hive-server-go/queue.go:120-143 | the placement invariant survives every step; accepted, taken, executed and completed jobs only grow |
| WorkerPool.WorkIsBounded | hive-server-go/queue.go:120-143 | the workers take exactly four steps per accepted job and one to leave, so they never spin |
| WorkerPool.StopIsNotStuck | hive-server-go/queue.go:106-109 | between the call of Stop and its return some worker can always move |
| WorkerPool.OutcomeIff | hive-server-go/queue.go:175-184 | over all interleavings a job's status is completed exactly when its execution succeeded, failed exactly when it failed, and never both happened |
| WorkerPool.QueuedIsNotStuck | hive-server-go/queue.go:120-143 | until Stop is called a queued job means that some worker can take a step other than leaving |
| WorkerPool.NobodyLeavesEarly | hive-server-go/queue.go:123-125 | no worker leaves before Stop is called |
| OllamaQueue.OllamaQueue.Submit | hive-server-go/queue.go:111-118 | a non-blocking send: accepted exactly while the buffer of 1000 has room |
| OllamaQueue.OllamaQueue.WorkerReceive | hive-server-go/queue.go:126-129 | the worker takes the oldest job and marks it running |
| OllamaQueue.OllamaQueue.WorkerRegister | hive-server-go/queue.go:131-133 | the first locked section takes the Register step |
| OllamaQueue.OllamaQueue.WorkerExecute | hive-server-go/queue.go:175-184 | the executed job is completed on success and failed on an error; no other status changes |
| OllamaQueue.OllamaQueue.WorkerFinish | hive-server-go/queue.go:137-140 | the second locked section moves the job from running to completed |
| OllamaQueue.OllamaQueue.GetJob | hive-server-go/queue.go:476-486 | exactly the executed jobs are found (for good, as RunKeeps has executions only grow), never with status pending; the answer is completed or failed exactly when OutcomeIff says so of the job |
| OllamaQueue.OllamaQueue.GetAvailableCapacity | hive-server-go/queue.go:470-474 | the free slots, which the clipping at zero never changes |
| RateLimiter.SlidingWindowBound | hive-server-go/auth.go:32-65 | in every closed interval of one window at most 2·max(rate,1)−1 requests of a client get through, sweeps anywhere |
| RateLimiter.StraddleTimed | hive-server-go/auth.go:32-50 | the run that reaches the bound has a forward clock |
| RateLimiter.BoundReached | hive-server-go/auth.go:32-50 | that run lets 2·rate−1 requests through in one closed window |
| RateLimiter.SlidingPromiseIff | hive-server-go/auth.go:32-65 | "at most rate requests" holds for every interval of one window on every run exactly when rate = 1 |
| RateLimiter.FirstAlwaysGranted | hive-server-go/auth.go:36-43 | a client's first request gets through whatever the rate, zero and less included |
| RateLimiter.RefusalJustified | hive-server-go/auth.go:45-47 | a refused client got max(rate,1) requests through in the window ending at the refusal |
| RateLimiter.CleanupUnobservable | hive-server-go/auth.go:36-65 | with sweeps at arbitrary times the answers are those of a limiter that never sweeps |
| RateLimiter.Bisimulation | hive-server-go/auth.go:36-61 | the swept table is the unswept one without buckets that have expired |
| RateLimiter.SweepForgets | hive-server-go/auth.go:52-65 | a client still in the table after a sweep got a request through in the window before it |
| RateLimiter.RateLimiter.Allow | hive-server-go/auth.go:32-50 | answer and new table are those of the Call step |
| RateLimiter.RateLimiter.Cleanup | hive-server-go/auth.go:56-63 | the sweep, in any map order, keeps exactly the buckets whose reset time has not passed, unchanged |
| StableQueueProofs.RunKeeps | internal/queue/queue.go:55-127 | after any run the slice is the stable descending-priority sort of the requests waiting, within maxSize, and every reply is the one arrival order calls for |
| StableQueueProofs.StableSortUnique | internal/queue/queue.go:55-80 | the stable sort of the waiting requests is unique |
| StableQueueProofs.EnqueueKeeps | internal/queue/queue.go:55-80 | insertion before the first lower priority keeps the slice the stable sort |
| StableQueueProofs.DequeueKeeps | internal/queue/queue.go:82-91 | the head is the earliest arrival of the highest priority |
| StableQueueProofs.CancelKeeps | internal/queue/queue.go:116-127 | Cancel takes the earliest pending match of the highest priority, or nothing |
| StableQueue.Queue.FindInsertIndex | internal/queue/queue.go:64-70 | the scan stops at the first lower priority |
| StableQueue.Queue.ShiftRight | internal/queue/queue.go:72 | the overlapping copy moves the tail up by one place |
| StableQueue.Queue.InsertAt | internal/queue/queue.go:71-73 | append nil, copy and write are the insertion at that index |
| StableQueue.Queue.Enqueue | internal/queue/queue.go:55-80 | inserts and stamps the request, or refuses at maxSize and changes nothing |
| StableQueue.Queue.Dequeue | internal/queue/queue.go:82-91 | takes the head, or answers nil |
| StableQueue.Queue.Peek | internal/queue/queue.go:93-100 | shows what Dequeue would take |
| StableQueue.Queue.Cancel | internal/queue/queue.go:116-127 | true exactly when a queued request with the ID is pending; splices the first such out in place and fails it; other statuses stay |
| CircuitBreaker.CountersAreHistory | hive-server-go/circuit_breaker.go:74-177 | after any history state and failure count are what the history says: Closed means failures = failures since the latest success or reset, below the threshold; Open and HalfOpen mean at least the threshold, counted on through successes that do not close; HalfOpen successes = successes since it was entered |
| CircuitBreaker.OpensExactly | hive-server-go/circuit_breaker.go:114-126 | Closed is left exactly on the failure that makes max(FailureThreshold,1) in a row |
| CircuitBreaker.ClosesExactly | hive-server-go/circuit_breaker.go:96-111 | without Reset, Closed is reached exactly on the success that completes max(SuccessThreshold,1) after a late enough Allow, with no failure in between |
| CircuitBreaker.RefusesExactly | hive-server-go/circuit_breaker.go:74-93 | Allow refuses exactly while Open and no later than Timeout after the latest failure, late failures included |
| CircuitBreaker.HalfOpenAdmitsAll | hive-server-go/circuit_breaker.go:88-91 | any number of consecutive Allow calls in HalfOpen are all admitted and change nothing |
| CircuitBreaker.RecoveryTakesAllowAndSuccesses | hive-server-go/circuit_breaker.go:81-131 | every run without Reset from Open to Closed contains an Allow more than Timeout after the latest failure and then enough successes without a failure |
| CircuitBreaker.DefaultPolicy | hive-server-go/circuit_breaker.go:195-214 | a name first used is refused exactly after five or more failures in a row, for thirty seconds after the latest |
| CircuitBreaker.DefaultRecovery | hive-server-go/circuit_breaker.go:195-214 | after that, three successes close it and two do not |
| CircuitBreaker.Breaker.Allow | hive-server-go/circuit_breaker.go:74-93 | answer and new state are those of the Allow step |
| CircuitBreaker.Breaker.RecordSuccess | hive-server-go/circuit_breaker.go:96-111 | new state is that of the Success step |
| CircuitBreaker.Breaker.RecordFailure | hive-server-go/circuit_breaker.go:114-132 | new state is that of the Failure step |
| CircuitBreaker.Breaker.MoveTo | hive-server-go/circuit_breaker.go:167-177 | which counters each transition clears |
| CircuitBreaker.Manager.Get | hive-server-go/circuit_breaker.go:195-214 | one breaker per name, created closed with the default configuration on first use |
| CircuitBreaker.Manager.Execute | hive-server-go/circuit_breaker.go:258-272 | a refused call leaves the breaker alone; an admitted one records its outcome; breakers of other names are untouched |
| SessionContext.FindSplit | hive-server-go/coding_agent.go:493-506 | the loop stops at the sixth message that is not an original system message, else after the last original one |
| SessionContext.CompressionShape | hive-server-go/coding_agent.go:488-516 | with more than eight messages the cut is at index 4 or later and at most five conversation messages come before it |
| SessionContext.TokensOf | hive-server-go/coding_agent.go:686-696 | no token for no text, one for up to seven bytes, and from there on one for every four |
| SessionContext.CompressesIff | hive-server-go/coding_agent.go:470-516 | compression happens exactly with more than 85 percent of the budget used, more than eight messages, and a non-empty summary that can be stored beside the survivors |
| SessionContext.CompressionEffect | hive-server-go/db.go:590-631 | message 0 and all from the cut on survive in order, one summary comes last, at most five conversation messages go, and the table shrinks by at least two |
| SessionContext.KeepsRecentIff | hive-server-go/coding_agent.go:492-506 | the six most recent messages survive exactly when six conversation messages come before the last five of all |
| SessionContext.KeepsThreeOfNine | hive-server-go/coding_agent.go:492-506 | in every compressing session of a system prompt and eight messages that are not original system messages, messages 1 to 5 are gone and 6 to 8 remain, three of the most recent six |
| SessionContext.NineCompress | hive-server-go/coding_agent.go:104-154 | from session creation with any budget of at least 4096 tokens, a prompt, seven unanswered one-token messages and one long message lead to a compression of nine messages, whatever the role of message 1 |
| SessionContext.RecentMessagesLost | hive-server-go/coding_agent.go:189-218 | after that run messages 3 to 5, among the most recent six of nine, are gone |
| SessionContext.EarlyMessagesGo | hive-server-go/coding_agent.go:492-516 | messages 1 to 3 never survive an effective compression, original system messages among them |
| SessionContext.MessageStore.CompressMessages | hive-server-go/db.go:584-632 | deleting one by one and inserting the summary is the cut, or nothing when the transaction fails |
| SessionContext.CodingAgent.CompressContext | hive-server-go/coding_agent.go:482-588 | every early return and failure before the commit leaves the session as it was; otherwise the table is the compressed one, and the token total is its sum if the table can be read again, else its old value |
| SessionContext.CodingAgent.MaybeCompress | hive-server-go/coding_agent.go:470-478 | compression is attempted exactly above 85 percent of the budget |
| SessionContext.CodingAgent.SendMessage | hive-server-go/coding_agent.go:189-327 | store, count, compress if due, reply, count: the new session for every outcome of each insert, of the transaction, of the re-read after it, and of Ollama; up to 85 percent of the budget just the two messages are added; a stored reply comes last |
| SessionContext.CompressionsAreAttempts | hive-server-go/coding_agent.go:296-320 | over any run the compression counter counts the answered messages sent above 85 percent of the budget, compressed or not |
| SessionContext.BudgetFor | hive-server-go/model_context.go:404-431 | the budget asked for, or without one 80 percent of the context length, raised to 4096 or cut to 200000 when outside these bounds |
| SessionContext.CodingAgent.CreateSession | hive-server-go/coding_agent.go:104-154 | an initial session under the clamped budget, with a non-empty system prompt stored and counted |
| SessionContext.Ledger | hive-server-go/coding_agent.go:130-144 | after any run of messages from a new session TotalTokens = stored tokens + tokens of messages whose insert failed + tokens left stale by a failed re-read, the last two since the total was last recounted, so it is the stored sum exactly when these two cancel; TotalMessages = stored + lost + retired messages |
| SessionContext.LedgerExact | hive-server-go/coding_agent.go:200-225 | with the prompt and every reply stored and every re-read successful, TotalTokens is the sum over the stored messages |
| SessionContext.SendBalanced | hive-server-go/coding_agent.go:296-320 | one message, whatever fails on the way, keeps the books balanced |
| SessionContext.CompressionBalanced | hive-server-go/coding_agent.go:558-584 | a committed compression retires exactly the cut messages; the books balance with the total recounted or left stale |
| Cluster.HealthIsTrace | internal/cluster/manager.go:28-123 | a node is healthy at t exactly when it was registered after any deregistration, no sweep since saw a gap above the timeout, and its latest contact is less than the timeout before t |
| Cluster.RecordIsTrace | internal/cluster/manager.go:28-77 | presence, status and last contact of a node read off the trace |
| Cluster.HeartbeatsDoNotRevive | internal/cluster/manager.go:54-65 | without a registration an offline or unknown node never comes online |
| Cluster.Manager.RegisterNode | internal/cluster/manager.go:28-52 | a known node is brought up to date and keeps its load, a new one is stored; both online from now |
| Cluster.Manager.UpdateNodeHeartbeat | internal/cluster/manager.go:54-65 | load and contact time of that node alone change; an unknown node is ignored |
| Cluster.Manager.DeregisterNode | internal/cluster/manager.go:67-77 | the node is gone, the others stay |
| Cluster.Manager.CheckStale | internal/cluster/manager.go:111-118 | one sweep takes exactly the online nodes silent for longer than the timeout offline |
| Cluster.Manager.GetHealthyNodes | internal/cluster/manager.go:95-105 | exactly the healthy nodes, each once, in some order |
| Cluster.Node.AvailableSlots | internal/cluster/node.go:84-92 | the capacity less the connections, 0 when there are as many or more |
| Cluster.ScoreMonotone | internal/cluster/node.go:63-82 | a node no share of which is larger scores no more, and less when a share is smaller |
| Cluster.ScoreScale | internal/cluster/node.go:63-82 | an idle node scores 0, one used to the full 1 |
| Cluster.ScoreWeights | internal/cluster/node.go:81 | a rise of the VRAM share weighs as much as twice that rise of the CPU, memory or connection share |
| Cluster.UnknownTotals | internal/cluster/node.go:67-79 | shares are used over total, and a total of 0 contributes nothing |
| Balancer.RoundRobinFair | internal/balancer/balancer.go:78-84 | among n consecutive round-robin picks from a fixed list of m distinct nodes each node occurs ⌊n/m⌋ or ⌈n/m⌉ times |
| Balancer.SelectInTurn | internal/balancer/balancer.go:38-84 | n consecutive calls of SelectNode over unchanged eligible nodes return such picks, so every eligible node gets its even share |
| Balancer.Balancer.SelectNode | internal/balancer/balancer.go:38-66 | nil exactly when no node is online, heard of within ten seconds and has a free slot; the choice is such a node; under least load none such scores less, nor uses no more of everything and less of something; under capacity none has more free slots; round robin advances its counter |
| Balancer.FitAreEligible | internal/balancer/balancer.go:44-49 | the filter keeps exactly the nodes online, heard of within ten seconds and with a free slot |
| Balancer.EligibleConcat | internal/balancer/balancer.go:44-49 | the filter keeps the order and the multiplicity of the nodes |
| Balancer.Balancer.LeastLoadNode | internal/balancer/balancer.go:68-76 | a true minimum of the load score |
| Balancer.Balancer.BestCapacity | internal/balancer/balancer.go:90-95 | a true maximum of the free slots |
| Balancer.Balancer.First | internal/balancer/balancer.go:68-95 | the head of the sorted slice is least by the strategy's key |
| Balancer.SortNodes | internal/balancer/balancer.go:72-74 | sorting gives an ascending permutation |
| ModelMap.RoundTripIff | hive-server-go/mesh.go:745-762 | printing a map in any order and parsing it gives it back exactly when all names are trimmed, non-empty, comma-free and arrow-free; the empty map prints as "", for which the parser answers nil |
| ModelMap.PrintedLookup | hive-server-go/mesh.go:745-775 | looking a name up in the parsed print, nil included, is looking it up in the list |
| ModelMap.ParseIsMeaning | hive-server-go/mesh.go:749-762 | blanks around names, arrows and commas, empty items, and items with fewer or more than two names change nothing; later pairs win |
| ModelMap.EveryTextHasMeaning | hive-server-go/mesh.go:749-762 | every text whatever is a list of such items, so its parse is what they say |
| ModelMap.SpacesAre | hive-server-go/handlers.go:872 | the blanks trimmed are the 25 code points with the Unicode property White_Space |
| ModelMap.ParsedWellFormed | hive-server-go/mesh.go:754-760 | whatever the variable holds, only well-formed names come out |
| ModelMap.MapModelIsLookup | hive-server-go/mesh.go:766-775 | MapModel is lookup in what the text means, or the identity |
| ModelMap.SplitAndTrim | hive-server-go/handlers.go:869-878 | the loop yields the trimmed non-empty pieces in order |
| ModelMap.ParseModelMap | hive-server-go/mesh.go:749-762 | the loop folds the items into the map; nil for an unset variable |
| ModelMap.SplitPair | hive-server-go/mesh.go:755 | a pair is split at the arrow between the names even next to '-' and '>' |
| ModelFamily.LongestPrefix | hive-server-go/model_registry.go:299-314 | a name with a listed prefix has the longest listed prefix as its family |
| ModelFamily.FallbackFamily | hive-server-go/model_registry.go:316-322 | any other name has what stands before its first ':' or '-' |
| ModelFamily.ListedPrefix | hive-server-go/model_registry.go:301-314 | a name that begins like one of the sixteen families has that one or a longer one of them |
| ModelFamily.FamilyIdempotent | hive-server-go/model_registry.go:299-323 | taking the family again changes nothing, for every string |
| ModelFamily.LongerFirst | hive-server-go/model_registry.go:301-308 | no listed family is a prefix of a later one |
| ModelFamily.CommentedExample | hive-server-go/model_registry.go:297-299 | the commented example yields "llama3.1" |
| ModelFamily.ExtractModelFamily | hive-server-go/model_registry.go:299-323 | the two loops compute the family |
| ModelFamily.Contains | hive-server-go/model_registry.go:359-366 | true exactly when the substring occurs |
| ModelFamily.ExtractQuantization | hive-server-go/model_registry.go:326-338 | the first listed pattern that occurs in the name, "" when none does |
| ModelFamily.ListedQuantization | hive-server-go/model_registry.go:327-336 | a name in which one of the eight patterns occurs has a quantization |
| ModelRegistry.Registry.SelectBestModel | hive-server-go/openai_compat.go:655-685 | the cascade of choices; a local substitute is loaded, of the requested model's family and the one the scan finds; a peer's substitute only when no peer has the model; exactly the chosen record is marked used |
| ModelRegistry.SelectAgain | hive-server-go/openai_compat.go:655-685 | of unquantized candidates, the one a later first request used answers the next request of that family not served exactly |
| ModelRegistry.Registry.FindCompatibleLocalModel | hive-server-go/model_registry.go:169-196 | a loaded model of the family whenever there is one, namely the result of scanning all candidates in some order; it is the latest used when all candidates are alike in being quantized, and a quantized one, if any, when all were used at the same time |
| ModelRegistry.OrderIndependentIff | hive-server-go/model_registry.go:178-195 | every visiting order finds the same substitute exactly when one candidate would replace each other one and be replaced by none |
| ModelRegistry.DominatesIff | hive-server-go/model_registry.go:185-192 | such a candidate, against each other one, was used later and is not the one unquantized of the two, or is the one quantized and was used no earlier |
| ModelRegistry.ScanPair | hive-server-go/model_registry.go:185-192 | of two candidates the second is found exactly when it was used later or alone is quantized |
| ModelRegistry.OrderMatters | hive-server-go/model_registry.go:185-192 | of an unquantized candidate, a quantized one used first and an unquantized one used in between, one visiting order finds the first and another the last |
| ModelRegistry.OrderMattersInRegistry | hive-server-go/model_registry.go:169-196 | so in a registry holding three such models of the requested family the substitute depends on the visiting order |
| ModelRegistry.SuchNames | hive-server-go/model_registry.go:299-338 | "phi2", "phi2-q4_0" and "phi2x" are names of such models |
| ModelRegistry.Registry.RegisterLocalModel | hive-server-go/model_registry.go:61-94 | the record carries the family and quantization of its name, unused and freshly stamped, and a new name is counted |
| ModelRegistry.Registry.RegisterPeerModels | hive-server-go/model_registry.go:199-210 | a peer's reports are added to what is known of it, later ones winning |
| ModelRegistry.ReportedIs | hive-server-go/model_registry.go:203-209 | of several reports of a name the latest counts, and a name not reported keeps its record |
| ModelRegistry.Registry.UnregisterLocalModel | hive-server-go/model_registry.go:97-105 | the record is gone and counted if it was there |
| ModelRegistry.Registry.MarkModelUsed | hive-server-go/model_registry.go:108-124 | on this node or a peer the record has one reference more and was used now; its other fields and all other records stay |
| ModelRegistry.Registry.FindPeerWithCompatibleModel | hive-server-go/model_registry.go:234-254 | a peer with a loaded model of the family by its own account, or none |
| Histogram.GetHistogram | hive-server-go/db.go:345-393 | bins of equal width tile the range, of length 1 when all values are equal; each bin's count is the number of values between its own edges, the last one closed above; the counts sum to the number of values; the mean is the sum over the number; the median lies halfway between the two middle values, and at most half of the values are on either side |
| Histogram.MedianHalves | hive-server-go/db.go:359-364 | that median, for every sorted list |
| Histogram.SumConcat | hive-server-go/db.go:353-357 | the running sum is additive |
| Histogram.InBinIff | hive-server-go/db.go:374-378 | the computed index is in range and is the only bin the value lies in, the last one closed above |
| Histogram.CountValues | hive-server-go/db.go:371-382 | the counting loop counts every value once, in its bin |
| Histogram.MeanBetween | hive-server-go/db.go:353-357 | the mean lies between the extremes |

## Left out

- JobOrderProofs.RunRefines: assumes that no job is enqueued while its tier holds one with the same ID; RepeatedIdServedTwice shows why.
- PriorityQueue.PriorityQueue.Dequeue: one clock reading per pass, where the code reads the clock for every job; jobs are values, so the in-place correction of an out-of-range priority is not seen by the caller's own pointer.
- PriorityQueue.Peek, Stats and pushFront: Peek removes an urgent job, Stats locks a mutex it holds, pushFront is unused.
- WorkerPool.Safety: assumes fresh job IDs and a single call of Stop, as a second one would panic; CleanupOldJobs, which nothing calls, and token metrics are not modelled, and writing status and result is one step.
- OllamaQueue.OllamaQueue.WorkerExecute: the call to Ollama is an arbitrary success or failure.
- RateLimiter.RateLimiter.Allow: buckets are values in the map, as no pointer to one escapes.
- StableQueue.Queue.Enqueue: the notify channel is not modelled, and the growth of the backing array is one fixed choice.
- CircuitBreaker.Breaker.MoveTo: lastStateChange, logging and the unused Interval setting are not modelled.
- CircuitBreaker.Manager.Execute: its three calls run in one sequence; interleavings with other users of a breaker are covered by the history lemmas, which allow any order of events.
- SessionContext.CodingAgent.SendMessage: rows come back in insertion order, which the code gets from timestamps assumed to increase strictly; a row that cannot be scanned is skipped by the code without an error and is not modelled; session lookup, archiving, compress groups, audit log and peers are not modelled; a character stands for a byte.
- SessionContext.CodingAgent.CreateSession: the context length found for the model is an argument, percentages are taken over the reals, and the insert of the session's own row succeeds.
- SessionContext.SentRun: messages of one session are handled one after another; the code updates the counters without a lock, so overlapping calls could lose an update.
- Cluster.Manager.UpdateNodeHeartbeat: lookup and update are one step.
- Cluster.Node.LoadScore: over the reals, so without rounding.
- Balancer.SelectInTurn: is about a fixed list; GetHealthyNodes iterates a Go map, so the order may change from call to call.
- ModelRegistry.Registry.SelectBestModel: runs as one step, where the code takes the registry lock anew for each look-up and for the marking.
- ModelRegistry.Registry.RegisterPeerModels: family groups, statistics and the peers' own claims are not checked.
- ModelRegistry.Registry.RegisterLocalModel: provider, node, size and context length are not modelled.
- Histogram.GetHistogram: over the reals, so without rounding; the handler admits only positive bin counts, and the query delivers sorted values.
- ModelMap.RoundTripIff: strings are sequences of Unicode characters.
- HTTP handlers, JSON, SQL text, streaming, peer discovery, response cache, metrics, log ring, request history and the proxy: input and output plumbing.
- Deadline calculation and job-type priorities: single expressions.
