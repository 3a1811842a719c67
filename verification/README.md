# Roadstead, verified

Roadstead is a scheduler and proxy in front of language-model backends. This
project models its stateful cores in Dafny and proves what they promise over
every input, every stream or every run. `dafny verify dfyconfig.toml` checks it.

Objects that the program updates in place are classes here (the sanitizer, the
budgets, the goodput monitor and poller, the detectors, the cache, the failover
state, the two breakers). Each of their methods is proved equal to a
specification function of the old state, and the theorems are about those
functions over whole runs. Loops are loops with invariants; pure decisions are
functions. Floating-point numbers are `real`, clocks are explicit `now`
parameters, and backends, probes and token estimates are inputs.

| modules | part of the program |
|---|---|
| Prelude, Seqs, Sums | shared vocabulary: options, white space, filtering, sums over maps |
| Json | the JSON scanner behind `raw_decode`, as a grammar with texts and a parser |
| Sanitizer, SanitizerRuns, SanitizerSplit, SanitizerStreams, SanitizerCalls, SanitizerOrder | the tool-call stream sanitizer |
| Detectors | the blank-run and the reasoning-loop detector |
| AgentBudget, BudgetRuns, BudgetProfile | the deficit-round-robin ledger and its accounting |
| Fairness, Bypass | weighted fairness of the picker, and bounded bypass past the timeout |
| Scrape | the folds over a metrics page |
| Goodput, GoodputRuns, GoodputLaws, GoodputNumbers | the goodput-collapse verdict, its latch, and the poller that drives them |
| ResponseCache, CacheRuns | the LRU + TTL response cache |
| Failover, FailoverCohort, FailoverRuns, FailoverHops, FailoverRefusals | degraded routing, the move of a queued cohort, and runs of both |
| Breakers, BreakerRuns | the rate-windowed cooldown and the probe circuit |
| Gbnf, GbnfTokens, GbnfRules, GbnfNesting, GbnfLaws, GbnfMeaning | the grammar tokenizer, the rewrapping of rules, and what both preserve |
| GbnfUnits, GbnfClasses | the hyphen fix in character classes |
| Intent, IntentLaws, IntentReasons | intent resolution |

## Where the code and its own words differ

The model follows the code. Each of these is a lemma.

- `_complete_value` says that leading white space is allowed; such a buffer is
  never complete (`SanitizerRuns.LeadingSpaceNeverCompletes`).
- An emitted argument need not be RFC 8259 JSON: Python's decoder takes `NaN`
  and the infinities (`SanitizerSplit.NaNIsEmitted`); it is exactly when none of
  these occur (`SanitizerSplit.RfcExactly`).
- A number of more than one digit, at the top level of the arguments, is emitted
  differently for different splits (`SanitizerSplit.SplitDependent`).
- An id or type that arrives after its call is complete is lost
  (`SanitizerCalls.LateIdIsLost`): a call carries the first id of its whole
  stream exactly when one had arrived when it went out, or none ever does
  (`SanitizerCalls.IdIsFirstExactly`).
- A no-argument call is lost when its finish chunk has no delta
  (`SanitizerRuns.NoArgCallNeedsDelta`).
- `prune_idle` says a returning agent is recreated in the identical state; it
  starts over (`BudgetRuns.PrunedStartsOver`).
- `negative_since` is documented as 0 exactly while the balance is not negative.
  That is kept by exactly the operations of `BudgetRuns.StepMarkExact`; an
  undercharge, a charge at clock zero and a negative cap break it
  (`BudgetRuns.NegativeUnmarked`).
- A trip recorded at clock value zero reads as no trip, and is stuck
  (`GoodputLaws.ZeroTripIsStuck`); on a clock that starts at zero or later none
  is recorded there, and the hold is bounded (`GoodputLaws.HoldIsBounded`).
- "Failover never chains" is a property of the configuration, not of the code:
  requests are rerouted at most once exactly when no target declares a failover
  of its own (`FailoverHops.OneHopExactly`).
- The rewrapping of multi-line rules is to put every line break inside
  parentheses. `_is_single_paren_group` counts parentheses inside literals, so a
  rule can be left with a line break outside (`GbnfNesting.MisleadingIsLeft`);
  exactly then does the rewriting miss its purpose
  (`GbnfNesting.BreaksAreNested`), and never where the parentheses inside
  literals balance (`GbnfNesting.EvenIsJudged`).
- The hyphen fix is documented as preserving the set of a class. It turns the
  valid class `[\\-]` into the class `[\-]` that it exists to remove
  (`GbnfClasses.StraddleFails`), and fails on a range that begins with an escaped
  hyphen, on a caret that becomes first and on an empty range at the end
  (`RangeFails`, `CaretFails`, `EmptyRangeFails`); each is excluded by an exact
  condition (`GbnfUnits.FixKeepsExactly`, `GbnfClasses.NegationIsExact`,
  `RangesAreExact`, `MembersAreExact`), and elsewhere the set is kept
  (`GbnfClasses.FixKeepsTheSet`).
- A rule that was rewrapped is rewrapped again by the next `normalize` exactly
  when the parentheses of its right side do not balance, those inside literals
  included (`GbnfMeaning.RewrappedOnce`).
- Where no literal, class or repetition crosses a line break, a literal left open
  at the end of a grammar swallows the closing parenthesis of a rewrapped last
  rule (`GbnfLaws.OpenLiteralLosesParen`), and that is the only way in which the
  token stream is not preserved (`GbnfLaws.WrappingIsExact`).

## Model

| member | source | states |
|---|---|---|
| `Json.ParseSound` | roadstead/correction.py:1244-1248 | what the scanner returns is a valid JSON value, and its text followed by the rest is the input |
| `Json.ParseComplete` | roadstead/correction.py:1244-1248 | every valid value is read back whole, whatever follows it, unless it is a number that the following text continues |
| `Json.ParseExtends` | roadstead/correction.py:1244-1248 | a buffer that begins with a whole value still does when more text arrives; only a number can change |
| `Json.TextUnique` | roadstead/correction.py:1244-1248 | a text is the text of at most one value |
| `Sanitizer.ToolCallStreamSanitizer.TakeCall` | roadstead/correction.py:1285-1307 | one fragment updates exactly its own slot: first id, type and non-empty name win, arguments are appended, and the call is emitted when a named open slot first holds a complete value |
| `Sanitizer.ToolCallStreamSanitizer.BufferCalls` | roadstead/correction.py:1280-1307 | the fragments of a delta are folded in order, and the emitted calls are collected in order |
| `Sanitizer.ToolCallStreamSanitizer.CloseSlot` | roadstead/correction.py:1319-1326 | an open slot is closed and classified: named and blank, named and cut off, or neither |
| `Sanitizer.ToolCallStreamSanitizer.FinalizeChoice` | roadstead/correction.py:1316-1329 | every slot of the choice is closed, exactly the blank named ones are emitted with `{}` in dictionary order, and truncation is reported exactly when a named one was cut off |
| `Sanitizer.ToolCallStreamSanitizer.Choose` | roadstead/correction.py:1270-1343 | a choice is rewritten to exactly the completed calls, and its finish reason relabelled as specified |
| `Sanitizer.ToolCallStreamSanitizer.IsPending` | roadstead/correction.py:1250-1254 | true exactly when some slot is still open |
| `Sanitizer.ToolCallStreamSanitizer.Feed` | roadstead/correction.py:1256-1346 | the fast path and the full path both give the specified chunk and slots |
| `Sanitizer.PassThrough` | roadstead/correction.py:1256-1261 | with no tool calls in the chunk and none pending, the full path would change nothing, so skipping it is sound |
| `SanitizerRuns.CompleteValueMeaning` | roadstead/correction.py:1234-1248 | a buffer is complete exactly when it begins with a JSON value, and what is returned is that value's text |
| `SanitizerRuns.LeadingSpaceNeverCompletes` | roadstead/correction.py:1236-1248 | a buffer with leading white space is never complete |
| `SanitizerRuns.EmittedOnceAndWhole` | roadstead/correction.py:1256-1346 | over every stream each (choice, index) slot reaches the client at most once, always with a non-empty name and one complete JSON value |
| `SanitizerRuns.PendingIsIncomplete` | roadstead/correction.py:1302-1307 | over every stream a named slot that is still open holds no complete value |
| `SanitizerRuns.FinishDropsTruncated` | roadstead/correction.py:1309-1329 | at the finish chunk after any stream: `length` replaces the reason exactly when a named call was cut off and the reason was `tool_calls` or `stop`; a cut-off call is incomplete and not emitted, a blank one is emitted with `{}` |
| `SanitizerRuns.NoArgCallNeedsDelta` | roadstead/correction.py:1319-1343 | a pending no-argument call reaches the client exactly when the finish chunk carries a delta |
| `SanitizerSplit.SlotMeaning` | roadstead/correction.py:1285-1307 | a slot has emitted exactly when it is named and its concatenated text begins with a complete value |
| `SanitizerSplit.SplitIndependent` | roadstead/correction.py:1299-1307 | for self-delimiting values the emitted text depends only on the concatenated fragments |
| `SanitizerSplit.SplitDependent` | roadstead/correction.py:1299-1307 | for every other value there are two splits of the same text that emit differently |
| `SanitizerStreams.StreamShows` | roadstead/correction.py:1256-1346 | over every stream, finished or not, a slot is what its fragments and finishes make of a fresh one, and the client has seen of it exactly what they show |
| `SanitizerStreams.SeenIsView` | roadstead/correction.py:1256-1346 | over every stream the view is decided by the fragments up to the first finish after them: what they emit, else `{}` or nothing |
| `SanitizerStreams.SeenIsTheValue` | roadstead/correction.py:1299-1307 | over every stream a slot whose fragments name it and begin with a self-delimiting value has been seen with exactly that value |
| `SanitizerStreams.SeenWithoutArguments` | roadstead/correction.py:1319-1343 | a named slot without arguments has been seen with `{}` exactly when its choice has finished with a delta, and not otherwise |
| `SanitizerStreams.UnseenUnlessWhole` | roadstead/correction.py:1302-1326 | over every stream a slot that is unnamed, or whose text is not blank and begins with no value, has never been seen |
| `SanitizerCalls.CallFields` | roadstead/correction.py:1291-1301 | over every stream each call that reaches the client has the first non-empty name among all fragments of its slot, and the first id and the first type, or `function`, among those up to the chunk it goes out with |
| `SanitizerCalls.IdIsFirstExactly` | roadstead/correction.py:1291-1301 | that first id (or type) is the first of the whole stream if and only if one had arrived by then or none ever does |
| `SanitizerCalls.LateIdIsLost` | roadstead/correction.py:1291-1301 | a stream in which the id comes after the call is complete: it goes out without an id, once |
| `SanitizerCalls.ChoicesAreKept` | roadstead/correction.py:1332-1343 | over every stream choices come out one for one with their index and content, with a delta and with a finish exactly when they had one |
| `SanitizerCalls.FinishReason` | roadstead/correction.py:1316-1329 | over every stream `tool_calls` and `stop` become `length` exactly when a named call of the choice was cut off in its text; every other reason is as it came |
| `SanitizerOrder.SlotsInOrder` | roadstead/correction.py:1285-1290 | over every stream the slots stand in the order in which their first fragments came, each once |
| `SanitizerOrder.CallsInOrder` | roadstead/correction.py:1302-1343 | after any stream a choice carries first the calls its fragments complete, in the order of the fragments, then at its finish the calls without arguments, in the order in which their slots first appeared |
| `SanitizerSplit.RfcExactly` | roadstead/correction.py:1244-1248 | a value is RFC 8259 JSON exactly when it holds no NaN or infinity |
| `SanitizerSplit.NaNIsEmitted` | roadstead/correction.py:1244-1248 | `NaN` is emitted as an argument and is not RFC 8259 JSON |
| `Detectors.BlankRunDetector.Feed` | roadstead/correction.py:451-476 | fires on the delta in which the text fed so far completes its first blank run of the threshold length, with that length, and never again |
| `Detectors.WatchBlankRun` | roadstead/correction.py:436-476 | for every split of a text into deltas the detector fires exactly when the text has such a run, in the delta holding the end of the first one |
| `Detectors.DistinctGramRatioOver` | roadstead/correction.py:171-193 | the number of distinct shingles of the tail over their number, 1 when the tail is shorter than a shingle |
| `Detectors.ReasoningLoopDetector.KeepTail` | roadstead/correction.py:353-361 | the buffer stays a suffix of everything fed, at least min(seen, window) and at most two windows long |
| `Detectors.ReasoningLoopDetector.KeepHead` | roadstead/correction.py:349-352 | the head is the exact prefix of the stream up to its cap |
| `Detectors.ReasoningLoopDetector.Feed` | roadstead/correction.py:337-377 | every check of the bounded detector equals the check on the full text (what that is, over a whole stream, is `VerdictMeans`) |
| `Detectors.WatchReasoning` | roadstead/correction.py:277-377 | for any chunking there is a verdict exactly when a checked prefix of the deltas has at most the set share of distinct shingles; it carries the share and the length of the first such prefix; the head is the exact prefix of 12000 characters |
| `Detectors.ReferenceSeesAll` | roadstead/correction.py:337-377 | up to the first verdict the reference has seen exactly the concatenated text |
| `Detectors.VerdictMeans` | roadstead/correction.py:337-377 | the same of the detector that keeps the whole text, with the check points (first at the minimum length, then at least the interval apart) defined on the deltas alone |
| `Detectors.NeverSilent` | roadstead/correction.py:355-364 | the next check is never more than one interval away, so checking cannot go silent after a trim |
| `AgentBudget.AgentBudget.Charge` | roadstead/agent_budget.py:34-41 | takes the cost from the balance and adds it to the consumption, noting when the balance first went negative |
| `AgentBudget.AgentBudget.Refund` | roadstead/agent_budget.py:43-48 | gives back to the balance, past the cap if need be, and clears the note when it is no longer negative |
| `AgentBudget.AgentBudget.Replenish` | roadstead/agent_budget.py:164-175 | credits rate times elapsed time up to the cap |
| `AgentBudget.BudgetManager.SumWeights` | roadstead/agent_budget.py:251 | the sum of the weights, in whatever order they are visited |
| `AgentBudget.BudgetManager.RecalculateRates` | roadstead/agent_budget.py:248-255 | every rate becomes capacity times weight over total weight, or nothing changes when capacity or weight is not positive |
| `AgentBudget.BudgetManager.GetOrCreate` | roadstead/agent_budget.py:87-105 | an unknown agent is added empty and the rates shared out again; a known one is returned as it is |
| `AgentBudget.BudgetManager.Reweigh` | roadstead/agent_budget.py:107-136 | changes weight and cap and the rates, never a balance |
| `AgentBudget.BudgetManager.RemoveAgent` | roadstead/agent_budget.py:138-140 | removes exactly that agent and shares the rates out again |
| `AgentBudget.BudgetManager.PruneIdle` | roadstead/agent_budget.py:142-156 | removes exactly the idle agents and reports them |
| `AgentBudget.BudgetManager.SetTotalCapacity` | roadstead/agent_budget.py:158-162 | records the capacity and shares the rates out again |
| `AgentBudget.BudgetManager.ReplenishAll` | roadstead/agent_budget.py:164-175 | replenishes every agent, and nothing else |
| `AgentBudget.BudgetManager.ChargeAgent` | roadstead/agent_budget.py:177-180 | charges exactly that agent, if known |
| `AgentBudget.BudgetManager.RetroactiveAdjust` | roadstead/agent_budget.py:182-192 | refunds an overcharge; takes an undercharge from the balance without noting a negative one |
| `AgentBudget.BudgetManager.PickAgent` | roadstead/agent_budget.py:194-246 | picks as specified: the longest-waiting overdue candidate, else the highest balance per weight; changes no budget |
| `BudgetRuns.RatesSumToCapacity` | roadstead/agent_budget.py:248-255 | after any run of public operations, with capacity and weight positive, the rates add up to the capacity |
| `BudgetRuns.NoCapacityKeepsRates` | roadstead/agent_budget.py:248-250 | once the capacity is set to zero or less, every agent keeps the rate it had over any run without eviction, until capacity comes back |
| `BudgetRuns.ReplenishTwice` | roadstead/agent_budget.py:164-175 | replenishing at t1 and then at t2 is replenishing once at t2 |
| `BudgetRuns.ConsumedIsAccountedFor` | roadstead/agent_budget.py:177-192 | over any run without eviction the consumption is the actual cost of settled requests plus the estimates of outstanding ones |
| `BudgetRuns.WorthIsCredit` | roadstead/agent_budget.py:34-48 | over any run without eviction balance plus consumption changes only by capped credit |
| `BudgetRuns.PrunedStartsOver` | roadstead/agent_budget.py:142-156 | a pruned agent that returns is a new budget but for weight, cap and rate: its balance is the old one exactly when that was zero, and the budget as a whole never is |
| `BudgetProfile.ProfileAgrees` | roadstead/agent_budget.py:87-156 | over every run an agent is known, and has the weight, the cap, the number of requests and the last activity, that its own operations say |
| `BudgetProfile.ChargedSurvives` | roadstead/agent_budget.py:142-156 | an agent charged at t survives a prune exactly when t is at most the idle time ago (or is zero, which reads as never) |
| `BudgetRuns.MarkedIsNegative` | roadstead/agent_budget.py:34-48 | over any run with non-negative costs an agent marked as negative is negative |
| `BudgetRuns.StepMarkExact` | roadstead/agent_budget.py:25-48 | for every operation, an exact mark (set exactly while the balance is negative) stays exact if and only if the operation keeps it, by a condition on its arguments and the budget |
| `BudgetRuns.MarkExactly` | roadstead/agent_budget.py:25-48 | over every run the mark is exact at every moment if and only if every operation keeps it |
| `BudgetRuns.NegativeUnmarked` | roadstead/agent_budget.py:34-48 | three budgets that end negative and unmarked: by an undercharge, by a charge at clock zero, by a refill under a negative cap |
| `Fairness.OverdueIsServed` | roadstead/agent_budget.py:217-231 | when somebody has waited past the timeout, the picked one has waited longest |
| `Fairness.RichestIsServed` | roadstead/agent_budget.py:233-246 | otherwise the picked one has the highest balance per weight |
| `Fairness.FirstOfEquals` | roadstead/agent_budget.py:217-246 | among candidates with the same wait or score the first one is picked |
| `Fairness.WeightedFairness` | roadstead/agent_budget.py:164-255 | in any run over backlogged agents two balance/weight ratios never differ by more than the initial spread or the largest cost over the smallest weight |
| `Fairness.ServiceIsProportional` | roadstead/agent_budget.py:233-255 | so the service of two agents per weight differs by at most twice that, however long the run |
| `Fairness.LevelReached` | roadstead/agent_budget.py:164-175 | after any run that leaves capacity, agents and positive weights, one refill reaches the situation the fairness claim starts from |
| `Bypass.PickServesTheOld` | roadstead/agent_budget.py:194-231 | a pick while a request is overdue removes one that arrived no later |
| `Bypass.StepCounts` | roadstead/agent_budget.py:194-231 | the number of queued requests that arrived no later falls by exactly one per pick, whatever the balances are |
| `Bypass.BoundedBypass` | roadstead/agent_budget.py:194-231 | an overdue request is served within N picks, N being the queued requests that arrived no later |
| `Scrape.CounterScrape.Take` | roadstead/backend.py:1357-1391 | one reading updates exactly its own key |
| `Scrape.SeriesFeed` | roadstead/backend.py:1415-1429 | which series feeds which counter: the token series by prefix, the iteration series and the gauges of running requests by exact name, and no other series any |
| `Scrape.PartitionMeans` | roadstead/backend.py:1415-1429 | a name is its part before the first brace and the labels after it |
| `Scrape.ProbeProgressCounters` | roadstead/backend.py:1348-1439 | every counter is the sum of its readings when there is one, all are non-negative and label sets distinct; otherwise absent; the result is absent when all are |
| `Scrape.ScrapeOrderFree` | roadstead/backend.py:1348-1436 | permuting the lines changes no counter |
| `Scrape.ProbeBusyGauge` | roadstead/backend.py:1492-1524 | the largest reading, or absent when there is none or one is malformed |
| `Scrape.GaugeOrderFree` | roadstead/backend.py:1492-1524 | permuting the lines does not change the gauge |
| `Goodput.SelectWindow` | roadstead/goodput.py:437 | exactly the samples of the window, in order |
| `Goodput.ResetDetected` | roadstead/goodput.py:599-611 | true exactly when some cumulative counter drops between neighbouring samples that both have it |
| `Goodput.NeededKeys` | roadstead/goodput.py:621-632 | the counters needed by occupancy and the declared clauses |
| `Goodput.MissingCounters` | roadstead/goodput.py:613-637 | exactly the needed counters that some sample of the window lacks |
| `Goodput.MeanAtLeast` | roadstead/goodput.py:464-473 | at an occupied endpoint the mean number running is at least the occupancy gate |
| `Goodput.ReadingAvailable` | roadstead/goodput.py:464-528 | at an evaluable, occupied endpoint every declared clause has a number, so `rate_unavailable` is unreachable |
| `Goodput.JudgeClauses` | roadstead/goodput.py:510-546 | the verdict is collapse exactly when no declared clause clears its ceiling; held and cleared clauses are listed exactly |
| `Goodput.Judge` | roadstead/goodput.py:430-546 | the three-valued outcome; the reason is the first obstacle in order, with exactly the missing counters; the evidence lists exactly the clauses under and not under their ceilings |
| `Goodput.GoodputMonitor.Observe` | roadstead/goodput.py:385-402 | appends to the endpoint's ring, dropping the oldest sample past the capacity; a failed scrape is a sample with everything absent |
| `Goodput.GoodputMonitor.Evaluate` | roadstead/goodput.py:422-546 | outcome, reason and evidence of the verdict on the window; the ring shrinks to its newest sample exactly on a detected reset |
| `Goodput.GoodputMonitor.Step` | roadstead/goodput.py:550-595 | one step of the endpoint's latch |
| `GoodputRuns.GoodputPoller.Merge` | roadstead/health.py:833-845 | the two probes are merged so that a failure of either never blanks the other |
| `GoodputRuns.GoodputPoller.SampleGoodput` | roadstead/health.py:798-878 | one tick of scrape, observe, evaluate, step and set update for one endpoint, leaving the others alone; nothing when disarmed |
| `GoodputLaws.CollapseMeans` | roadstead/goodput.py:430-546 | collapse exactly when armed, the window long enough, reset-free and fully observed, every sample occupied and every clause below its ceiling |
| `GoodputNumbers.VerdictByNumbers` | roadstead/goodput.py:430-546 | the verdict on the sample values alone: UNKNOWN exactly when something needed cannot be seen; else collapsed exactly when every sample is occupied, iterations and prompt tokens grew by less than ceiling times span, generation by less than ceiling times mean running times span, and every busy reading is under the floor |
| `GoodputNumbers.WorkingIsNotCollapsed` | roadstead/goodput.py:510-546 | an endpoint whose iteration counter grew by at least the ceiling times the span is never collapsed |
| `GoodputNumbers.WindowIsFilter` | roadstead/goodput.py:437 | the window is the samples that are recent enough, in order |
| `GoodputNumbers.RingIsNewest` | roadstead/goodput.py:385-402 | over every run the ring is exactly the newest samples taken, up to the capacity and back to the last reset |
| `GoodputNumbers.SampleMeans` | roadstead/health.py:833-845 | a sample holds exactly the counters that were published and the gauge if it was asked for, with the values read |
| `GoodputNumbers.UnconfiguredIsUntouched` | roadstead/health.py:825-830 | a tick of an endpoint without a usable rule touches nothing |
| `GoodputLaws.ErasureBlinds` | roadstead/goodput.py:437-462 | erasing one needed counter from one in-window sample always gives UNKNOWN |
| `GoodputLaws.LatchLaws` | roadstead/goodput.py:550-595 | over every run TRIP and CLEAR alternate, the breaker set holds the endpoint exactly between them, `trips` counts them, a TRIP needs sustained collapse, a CLEAR sustained recovery or an expired hold, and a trip left held is younger than the maximum hold |
| `GoodputLaws.TripIsExact` | roadstead/goodput.py:550-595 | with a constant setting, a TRIP happens exactly when none is held and the streak of collapsed verdicts reaches it |
| `GoodputLaws.TripSawEverything` | roadstead/health.py:846-878 | at every TRIP of every run each of the last sustained evaluations had every needed counter in every sample of its window |
| `GoodputLaws.UnpublishedNeverTrips` | roadstead/health.py:846-878 | an endpoint whose configured counter is never published never trips |
| `GoodputLaws.HeldTripIsDated` | roadstead/goodput.py:437-445 | on a clock that starts at zero or later, a held trip was recorded no earlier than the shortest window |
| `GoodputLaws.HoldIsBounded` | roadstead/goodput.py:562-568 | on such a clock a held trip is released by the first armed tick that finds it as old as the maximum hold, whatever that tick sees |
| `GoodputLaws.ZeroTripIsStuck` | roadstead/goodput.py:562-568 | a run on a clock below zero that trips at zero, and that no number of later blind ticks releases |
| `ResponseCache.DeterministicCache.Get` | roadstead/coalesce.py:66-78 | a live entry is returned and becomes the newest, an expired one is dropped; hits and misses are counted |
| `ResponseCache.DeterministicCache.Put` | roadstead/coalesce.py:80-85 | the entry becomes the newest and the oldest are evicted until the size fits |
| `CacheRuns.RunAgrees` | roadstead/coalesce.py:66-85 | after any history the recency order, the entries and the reasons for absence are those of the history |
| `CacheRuns.HitIsLastPut` | roadstead/coalesce.py:66-85 | a hit is the value of the latest put of that key, made at most the time-to-live ago; the size never exceeds the maximum |
| `CacheRuns.RecentIsKept` | roadstead/coalesce.py:66-85 | an unexpired key is still present when fewer than the maximum of distinct other keys were touched since it was |
| `CacheRuns.PresenceIsExact` | roadstead/coalesce.py:66-85 | where nothing was dropped as expired, a key is present exactly then |
| `Failover.Proxy.DegradedInflight` | roadstead/scheduler.py:602-620 | the number of queued and active requests that came from the endpoint |
| `Failover.Proxy.Refresh` | roadstead/failover.py:104-154 | every pair enters or leaves degraded mode as specified, in whatever order the pairs are visited |
| `FailoverRuns.PairsAre` | roadstead/failover.py:78-102 | a failover is usable exactly when its target is named, known and not on demand |
| `FailoverRuns.ModeMeans` | roadstead/failover.py:104-154 | a refresh enters degraded mode exactly when the source is down and the target up, and leaves exactly when the source is up, nothing it sent away is in flight and the dwell is over; the time of entry is kept |
| `Failover.Proxy.Cancel` | roadstead/scheduler.py:559-576 | exactly the first queued request with that id is removed |
| `Failover.Proxy.Apply` | roadstead/failover.py:242-272 | the request is re-pointed, its origin and the target's context recorded, and the reroute counted |
| `Failover.Proxy.Submit` | roadstead/lifecycle.py:1066-1162 | at an unhealthy endpoint a request is rerouted, refused or, in the background band, queued; otherwise queued |
| `Failover.Proxy.FastFailInteractive` | roadstead/health.py:315-363 | the loop over the listed cohort gives the specified fleet |
| `FailoverCohort.CohortMoves` | roadstead/health.py:334-363 | the eligible requests of the cohort are appended re-pointed, the others closed with an error, both in the order in which the scheduler lists them; all other requests stay queued in order |
| `FailoverCohort.CohortConserved` | roadstead/health.py:334-363 | no request is lost or duplicated |
| `FailoverCohort.FateOfOne` | roadstead/health.py:334-363 | each request of the cohort is queued on a healthy target other than the endpoint, or closed and gone; background requests and other queues are untouched |
| `FailoverCohort.LanesKeepOrder` | roadstead/scheduler.py:578-597 | on the target, the moved requests of one agent and band stand behind those that were there, first in first |
| `FailoverRuns.DegradedOnlyInMode` | roadstead/failover.py:104-154 | in every run a request rerouted from an endpoint is live only while that endpoint is degraded, and only opted in, not declined and, for chat, within the target's positive context |
| `FailoverRuns.DwellHolds` | roadstead/failover.py:119-154 | in every run ENTER and LEAVE alternate, at least the dwell apart, and the endpoint is degraded exactly between them |
| `FailoverRuns.LeaveIsDrained` | roadstead/failover.py:120-133 | at a LEAVE the source is healthy and nothing degraded is in flight |
| `FailoverRuns.RefreshIdempotent` | roadstead/failover.py:104-120 | refreshing twice under the same conditions is refreshing once |
| `FailoverRuns.PlanMeans` | roadstead/failover.py:158-240 | a request is rerouted to the declared target exactly past both gates, spelled out: degraded, target up, agent opted in and not declining, and, for chat with a positive context there, no more tokens than that context; a refusal names the first gate that failed, consent before context |
| `FailoverHops.EveryoneIsSomewhere` | roadstead/health.py:334-363 | after any run the submitted requests are queued, in flight or closed, each in exactly one place |
| `FailoverHops.LiveIsSubmitted` | roadstead/failover.py:242-272 | in every run a live request is one that was submitted, in everything but its routing |
| `FailoverHops.EveryHopAllowed` | roadstead/failover.py:158-240 | every reroute of every run went to the failover its endpoint declares, known, healthy and not on demand, for an agent opted in and not declining, and for chat within the target's context if that is positive |
| `FailoverHops.AtMostOneHop` | roadstead/failover.py:242-272 | when targets declare no failover of their own, no request is rerouted twice |
| `FailoverHops.ChainHopsTwice` | roadstead/failover.py:78-102 | wherever one pair leads into another and somebody is opted in, two events reroute a request twice |
| `FailoverHops.OneHopExactly` | roadstead/failover.py:78-102 | requests are rerouted at most once in all runs exactly when there is no such chain, or nobody is opted in |
| `FailoverHops.ReroutesAreCounted` | roadstead/failover.py:261-268 | in every run the reroute counter of an endpoint is the number of reroutes that left it |
| `FailoverRefusals.RefusalsAreCounted` | roadstead/failover.py:302-317 | in every run the requests closed with an error are exactly the turned ones, in order, none of them background, each with the plan its own state calls for (context overflow exactly for chat with more tokens than a positive context), and each refusal counter is the number refused on that account with that code |
| `Breakers.CooldownBreaker.RecordDispatchFailure` | roadstead/health.py:364-433 | only backend faults with a fair deadline count; the list is pruned and the breaker trips, clears and cools as specified |
| `Breakers.EndpointHealth.Update` | roadstead/health.py:257-314 | the circuit's new state, and exactly when the queue is released or resumed |
| `BreakerRuns.ListIsTheWindow` | roadstead/health.py:410-414 | the pruned list is the window of all counting failures since the last trip |
| `BreakerRuns.TripIsTheCount` | roadstead/health.py:410-421 | a failure trips exactly when its status is 500 or more, its deadline was fair, and the plain count of such failures since the last trip within the window reaches the limit |
| `BreakerRuns.RunIsWindowed` | roadstead/health.py:408-429 | over every log the trips are counted, and the endpoint cools, until the set duration after the last one, exactly when enforcing |
| `BreakerRuns.TripsArePaidFor` | roadstead/health.py:410-421 | every trip uses up at least the limit of counting failures, and no failure pays for two |
| `BreakerRuns.SkipsAreCounted` | roadstead/health.py:400-406 | the skip tally is the number of excluded best-effort faults |
| `BreakerRuns.OpensOnlyWhenDead` | roadstead/health.py:292-314 | a healthy circuit has fewer failures than the threshold; an open one opened at a failed `/health` after enough failed polls in a row, and no poll answered since |
| `BreakerRuns.OpensExactly` | roadstead/health.py:292-314 | a healthy circuit opens at exactly the poll that fails both ways with the failed polls in a row before it reaching the threshold, and records that time |
| `BreakerRuns.OpenWhileDark` | roadstead/health.py:272-291 | an open circuit stays open through further polls exactly as long as none of them shows a sign of life |
| `BreakerRuns.DeadIsFound` | roadstead/health.py:292-311 | a threshold of polls without a sign of life always leaves it open |
| `Gbnf.ScanLiteral` | roadstead/grammar.py:101-109 | the position where a literal or class is closed, honouring backslashes, or the end |
| `Gbnf.Tokenize` | roadstead/grammar.py:88-140 | the tokens of the text |
| `Gbnf.FixCharclassHyphens` | roadstead/grammar.py:248-287 | the fixed text |
| `Gbnf.IsSingleParenGroup` | roadstead/grammar.py:318-330 | the depth of parentheses is zero at the end and at no closing one before it, literals included |
| `Gbnf.Normalize` | roadstead/grammar.py:290-315 | the fixed text, cut at rule headers, with exactly the multi-line rules that are not one group rewrapped |
| `GbnfTokens.LineSplit` | roadstead/grammar.py:88-140 | where nothing crosses a line break, a text can be cut after any line break without changing its tokens |
| `GbnfTokens.SpaceSuffix` | roadstead/grammar.py:88-140 | trailing white space reads as its line breaks, also behind a comment |
| `GbnfTokens.TokensAreSource` | roadstead/grammar.py:88-140 | the tokens are disjoint pieces of the source, in order |
| `GbnfMeaning.TokenKinds` | roadstead/grammar.py:88-140 | each kind of token and the texts it can have |
| `GbnfMeaning.NamesAreWhole` | roadstead/grammar.py:43-46 | a letter followed by letters, digits and hyphens is read as one whole name |
| `GbnfMeaning.PassedOver` | roadstead/grammar.py:88-140 | exactly comments, up to their line break, and single characters that begin no token are passed over |
| `GbnfMeaning.DefinedMeans` | roadstead/grammar.py:144-162 | the defined names are those directly before `::=` |
| `GbnfMeaning.ReferencedMeans` | roadstead/grammar.py:144-162 | the referenced names are all others |
| `GbnfMeaning.RuleIsOne` | roadstead/grammar.py:290-303 | no line inside a rule begins with a header |
| `GbnfMeaning.RulesCover` | roadstead/grammar.py:290-315 | the rules are the whole text, in order |
| `GbnfMeaning.OneGroupMeans` | roadstead/grammar.py:318-330 | the scan finds one group exactly in a pair of parentheses around a balanced text |
| `GbnfMeaning.RewrappedOnce` | roadstead/grammar.py:299-313 | rewrapping a rewrapped rule changes nothing if and only if the parentheses of its right side balance |
| `GbnfRules.BlockTokens` | roadstead/grammar.py:299-313 | a rewrapped rule reads as before with a parenthesis after `::=` and one after the body |
| `GbnfNesting.BreaksAreNested` | roadstead/grammar.py:299-313 | after rewriting a rule whose parentheses never close more than was opened, every line break of its right side is inside parentheses if and only if the scan for one group did not misjudge it |
| `GbnfNesting.EvenIsJudged` | roadstead/grammar.py:318-330 | the scan misjudges no right side in which the parentheses inside literals, classes and comments balance |
| `GbnfNesting.MisleadingIsLeft` | roadstead/grammar.py:318-330 | a rule that is left as it is with its line break outside all parentheses |
| `GbnfNesting.NestedWithoutOneGroup` | roadstead/grammar.py:318-330 | a right side that is rightly left alone although it is not one group of tokens |
| `GbnfLaws.WrappingIsExact` | roadstead/grammar.py:290-315 | where nothing crosses a line break, the tokens are preserved up to one matched pair around exactly the rewrapped right sides if and only if every literal is closed or the last rule is not rewrapped; then the defined and referenced rules are unchanged |
| `GbnfLaws.NormalizePreserves` | roadstead/grammar.py:144-162 | `normalize` as a whole preserves tokens, defined and referenced rules when nothing crosses a line break, literals are closed and no class has an escaped hyphen |
| `GbnfLaws.OpenLiteralLosesParen` | roadstead/grammar.py:308-313 | a text with an open literal for which the parenthesis is lost |
| `GbnfUnits.FixIsExact` | roadstead/grammar.py:248-287 | with every class closed, the fix changes nothing exactly when no class has an escaped hyphen |
| `GbnfUnits.MendIsExact` | roadstead/grammar.py:280-285 | a class body loses exactly its escaped hyphens and gains one at the end if and only if no escaped backslash stands directly before a hyphen |
| `GbnfUnits.FixKeepsExactly` | roadstead/grammar.py:248-287 | for every text with closed classes, read again after the fix, all classes hold exactly the units meant to be kept if and only if none of them has that |
| `GbnfMeaning.LiteralPasses` | roadstead/grammar.py:259-267 | a closed literal passes through the fix as it is |
| `GbnfMeaning.CommentPasses` | roadstead/grammar.py:268-271 | so does a comment |
| `GbnfMeaning.CharacterPasses` | roadstead/grammar.py:286 | and every other character outside a class |
| `GbnfClasses.NegationIsExact` | roadstead/grammar.py:280-285 | a class stays negated or not if and only if dropping escaped hyphens puts no caret first |
| `GbnfClasses.RangesAreExact` | roadstead/grammar.py:280-285 | its ranges stay the same if and only if none ends in an escaped hyphen |
| `GbnfClasses.MembersAreExact` | roadstead/grammar.py:280-285 | where none does, no member but the hyphen can be lost, and the set is kept if and only if the hyphen is still in it |
| `GbnfClasses.FixKeepsTheSet` | roadstead/grammar.py:248-287 | in every text with closed classes and no straddling, each class without these obstacles is negated or not as before and lists the same code points after the fix |
| `GbnfClasses.StraddleFails` | roadstead/grammar.py:280-285 | a class for which the fix produces the escape it removes |
| `GbnfClasses.RangeFails` | roadstead/grammar.py:280-285 | a range from an escaped hyphen to a plain character keeps its set exactly when nothing lies between the two |
| `GbnfClasses.CaretFails` | roadstead/grammar.py:280-285 | a class that becomes negated |
| `GbnfClasses.EmptyRangeFails` | roadstead/grammar.py:280-285 | a class that loses its hyphen to an empty range at its end |
| `Intent.Resolve` | roadstead/intent.py:654-763 | the loop over the candidates gives the specified resolution |
| `IntentLaws.SortSorts` | roadstead/intent.py:744-757 | the ranking is a sorted permutation of the eligible endpoints |
| `IntentLaws.SortFilter` | roadstead/intent.py:744-757 | ranking commutes with removing endpoints, by stability |
| `IntentLaws.NobodyBeatenFirst` | roadstead/intent.py:639-651 | no alternative is ranked before one that beats it: money first, then health, then the stated preference, with unmeasured latency slowest, then the name |
| `IntentLaws.EveryCandidateOnce` | roadstead/intent.py:696-763 | every candidate is ranked or rejected exactly once; a ranked one fails no constraint, a rejection names the first that fails |
| `IntentReasons.ResolutionMeans` | roadstead/intent.py:696-763 | where every name is known, an endpoint is ranked exactly when it is the pinned one if any, not excluded, routed, of the right kind, has every needed capability and a context that is unknown or at least the floor; it is rejected with a reason exactly when that constraint fails and all earlier ones hold; the choice is the first ranked |
| `IntentReasons.UnknownNamesRefuse` | roadstead/intent.py:662-700 | an exclusion or a pin that names nothing refuses the request, and exactly the names that are not there are reported, as written |
| `IntentReasons.StripMeans` | roadstead/intent.py:662-700 | a pin is compared without the white space at both ends, and nothing else is dropped |
| `IntentLaws.OrderOfFactsIsFree` | roadstead/intent.py:654-763 | with distinct names the choice, the ranking and the refusals do not depend on the order of the facts |
| `IntentLaws.TighteningFilters` | roadstead/intent.py:702-757 | adding requirements, a context floor, exclusions or a pin leaves exactly the old alternatives that still serve, in order |
| `IntentLaws.TighterIsSubsequence` | roadstead/intent.py:654-763 | what `resolve` returns for the tighter request is a subsequence of what it returned before, also when an added pin or exclusion names nothing |
| `IntentLaws.LocalFirst` | roadstead/intent.py:744-757 | under every preference the ranking is that of the local endpoints followed by that of the paid ones |
| `IntentLaws.PaidNeverDisplaces` | roadstead/intent.py:744-763 | adding or removing paid endpoints never changes the choice while a local one is eligible |

## Left out

- HTTP, SSE and ASGI transport, connection pools, timeouts and process shutdown: input and output over libraries.
- `Correction.apply`, its guards and retries, JSON repair and schema validation.
- The sanitizer's `except` branch, which returns the raw chunk: the theorems are over well-typed chunks; a `tool_calls` field that is present but not a list counts as absent, and entries of the wrong type are not modelled.
- Sanitizer.ToolCallStreamSanitizer.Feed: serialization of the chunk is not modelled; that the raw text of a chunk with tool calls contains `"tool_calls"` is a precondition.
- The JSON scanner has no recursion limit and no limit on the digits of a number, which Python's decoder has.
- Rounding: floats are exact reals, and the rounding of reported evidence is not modelled.
- Bypass.BoundedBypass: the scheduler's bands, slots and shed depth are not modelled; each pick sees every backlogged agent's head-of-queue wait and removes that agent's oldest request.
- Fairness.WeightedFairness: stated for always-backlogged agents with positive weights, equal refill times and no wait past the timeout, as the round-robin design assumes.
- `is_starving`, the budget snapshot, `forget`, `tripped_for_s` and the fields of a verdict that only report numbers.
- `cache_key` (hashing and what makes a request cacheable) and the cache statistics.
- Failover.Proxy.Apply: the request is a value, not an object shared with a queue; at the time it is re-pointed it is in none.
- Failover.Proxy.Submit: load shedding, on-demand loading and the wording of refusals are not modelled; a shed request is one that expires at once.
- The scheduler's queues are one sequence in arrival order; the order in which it goes through the agents of a band is any, and the theorems hold for each.
- Without a failover object nothing is rerouted and nothing refused by code, which is the case of an empty set of pairs.
- Endpoint names are canonical: `normalize_endpoint` and aliases are not modelled; spill to remote capacity is not either.
- Token estimation and the cost model: a request carries its estimate.
- How `endpoint_healthy` combines its signals: the set of healthy endpoints is an input of each event. The queue release that a trip of the cooldown, the circuit or the goodput breaker calls for is an output of those methods, and is modelled in Failover.
- Token positions and the validator's error list.
- GbnfClasses.FixKeepsTheSet: one direction only where a range ends in an escaped hyphen or the class ends in a range to a hyphen; the set can then still come out the same by coincidence with other members. `RangesAreExact`, `MembersAreExact` and `RangeFails` say exactly what changes.
- `parse_intent`, profiles, and the wording of rejections.
- Configuration, access control, metrics, the thinking canary, prefix keep-alive and alert text.
