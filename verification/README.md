# NeuVector enforcer: model and proofs

A Dafny model of the parts of the NeuVector enforcer and controller that carry
state across threads, messages or maps, with proofs of what they promise.

Reporting, from packets to the controller:

- `ThreatRing`: the lock-free ring through which a data-plane thread hands threat logs to the control thread.
- `RateLimiter`: the windowed limiter in front of new connection entries.
- `ConnectMap`: the two connection maps of each data-plane thread, flipped and drained by the control thread after an RCU grace period, as steps that interleave freely.
- `ConnectLedger`: what those steps conserve, over every run.
- `ConnectEntries`: which reports become entries, and whose counts these carry.
- `ConnectTables`: the two routines over those maps as imperative code; each call is proved to be a run of the steps of `ConnectMap`.
- `ConnectionReport`: the agent's capped connection map, its batches in flight, and resending by priority.
- `ReportMap`: what that map shows after reports and resends, and the routines that keep it.
- `Pipeline`: both maps and the hand-over between them, as one machine.
- `ReportSpacing`: the controller's back-pressure interval and the ticks of the agent.
- `ReportQueue`: the controller's concurrent report handlers and their bounded channel.
- `Counters`, `MapSums`, `Sequences` and `Options`: fixed-width counters, sums over maps, sequences and absent values, used throughout.

Streams that must agree with a plain list:

- `Pagination`: session and meter lists, paged while they stream in.
- `SubnetConfig`: the routine that takes in subnet lists in parts, over an explicit heap of blocks.
- `SubnetStreams`: what sequences of its messages install, with lost parts and two targets.
- `DlpConfig`: the routine that takes in DLP rule lists in parts, one message at a time.
- `DlpStreams`: what sequences of its messages leave on the endpoints they name.
- `PolicySlots`: policy rules striped over slots.
- `BenchParse`: benchmark output, parsed with one item of look-ahead.

Selection, merging and concurrent work:

- `Glob`, `Selector` and `SelectorRules`: wildcard matching, group criteria, and their documented rule.
- `ProcessProfile` and `ProcessTiers`: process rules, merged by priority and stacked by tier.
- `VulAssets`: the worker pool that turns assets with vulnerabilities into vulnerabilities with assets.
- `TaskScanner`: the secret-scan scheduler.

A state machine is a function `Apply` on labelled steps; a run is any sequence of
steps, and a step that is not enabled changes nothing. Routines that update state
in place are classes whose methods are proved against functions on values. The
clock, memory allocation, hash-map iteration order, the regexp engine, the search
filter and all decoded messages are parameters or left open.

## What the code does that its documentation does not say

- `share/criteria.go:181-185` documents that criteria of one kind are combined by 'or' if at least one is positive. The loop combines the negative criteria that come before the first positive one by 'and' first. `SelectorRules.RuleDiffers` says exactly when the two disagree, `SelectorRules.RuleHoldsByPolarity` for which orders of polarities they never do, and `SelectorRules.DocumentedRuleFails` gives a workload and a selector. The model follows the code.
- A page larger than the flush threshold by more than one can be overrun, because a message sent mid-stream does not reduce what is still to be sent (`Pagination.LargePagesOverrun`); a page whose end does not fit 32 bits can panic (`Pagination.OverflowPanics`). `Pagination.PagingIsSlicing` gives the exact conditions for given batches, `Pagination.ExactForAllBatches` for a request.
- The pointer that gathers a subnet list is not cleared when the list is installed. A continuation right after an end frees the installed list (`SubnetConfig.ContinuationAfterEnd`); `SubnetConfig.Replay` shows that memory stays sound in exactly the other message sequences.
- A part of a subnet list that is lost to a failed allocation does not stop the list: a list with a hole is installed (`SubnetStreams.HoleBecomesVisible`). `SubnetStreams.StreamIsWhole` gives the exact condition.
- One pointer serves two targets, so subnet lists sent alternately mix (`SubnetStreams.InterleavedListsMix`). `SubnetStreams.ListsStaySeparate` says exactly when they do not.
- A wildcard does not match a newline (`Glob.PlainReadingIffNoNewline`).
- The comment above the controller's report handler says that an agent's call is not blocked. Two handlers that check the channel while one place is left both go on to send, and one blocks (`ReportQueue.TwoHandlersBlock`). `ReportQueue.NoBlockingIffOneAtATime`: this cannot happen if and only if at most one handler at a time is let between its check and its send.
- The counters of a connection have 32 bits, the agent's byte count 64, and wrap silently (`ConnectTables.CounterWraps`, `ConnectionReport.CounterWraps`). Nothing else is lost: `ConnectLedger.EveryRunConserves`, `ConnectionReport.EveryRunAccounts` and `Pipeline.EveryRunAccountsEndToEnd` are exact if and only if no report takes the counter of its entry past its width.
- A DLP rule for which no memory is found is skipped without notice, and the stream goes on. `DlpConfig.NothingLostIffFirstsAllocated` says exactly when no action is changed or missing for it.
- The sessions of a host-mode workload are sent whole, whatever page was asked for (`agent/service.go:287-293`); `Pagination.GetSessionList` says exactly when that is the page.
- The lookup key of a connection report does not have its application set (`dp/ctrl.c:2639-2681`). The model looks up an arbitrary value instead; no proof depends on a hit.
- Two process rules whose names or paths contain a colon can share a map key (`ProcessProfile.ColonCollides`).
- Reports of the agent can burst if a tick starts while a report is being sent (`ReportSpacing.OverlapBursts`).

## Model

| member | source | states |
|---|---|---|
| ThreatRing.EveryRunIsSafe | dp/ctrl.c:2500-2540 | in every interleaving of writer and reader: the slot being copied is not the slot being read; logs come out whole, in order, none lost or repeated; at most MAX_LOG_ENTRIES - 1 wait; the two index tests mean exactly full and empty |
| ThreatRing.StepKeepsInv | dp/ctrl.c:2507-2539 | each single step of either thread keeps the inductive invariant behind that |
| ThreatRing.LogRun | dp/ctrl.c:2522-2540 | the four writer steps in a row append the log, or do nothing on a full ring |
| ThreatRing.ConsumeRun | dp/ctrl.c:2507-2518 | the three reader steps in a row hand on the oldest log, or do nothing on an empty ring |
| ThreatRing.ThreadData.constructor | dp/ctrl.c:2991-3005 | a new ring starts with the reader at the last slot and the writer at the first |
| ThreatRing.ThreadData.ThreatLog | dp/ctrl.c:2522-2540 | the routine is the writer's steps in a row; it returns 0 exactly when the log was accepted |
| ThreatRing.ThreadData.ConsumeThreatLog | dp/ctrl.c:2500-2520 | the routine is as many rounds of reader steps as it hands on logs, and leaves the ring empty |
| RateLimiter.PassBound | dp/ctrl.c:2551-2576 | for every sequence of checks at non-decreasing times, at most limit * (1 + (b - a + dur) / (dur + 1)) checks in [a, b] pass |
| RateLimiter.BoundIsAttained | dp/ctrl.c:2551-2576 | that bound is reached for every length of the interval, every limit and every window |
| RateLimiter.DroppedOnlyWhenSpent | dp/ctrl.c:2551-2576 | a check is turned down only if since its window began as many have passed as the limit allows |
| RateLimiter.TotalsCountChecks | dp/ctrl.c:2551-2576 | total_pass and total_drop are, in 32 bits, the numbers of checks that passed and that did not |
| RateLimiter.WindowTracks | dp/ctrl.c:2555-2564 | the stored 32-bit start is that of a true window, which the last check did not end |
| RateLimiter.ConnLimiter.constructor | dp/ctrl.c:2543-2549 | a reset limiter starts a window now, with all counts zero |
| RateLimiter.ConnLimiter.CheckNow | dp/ctrl.c:2551-2576 | the routine computes the specified check and returns 0 exactly when it passes |
| Counters.AccountsAdd | agent/timer.go:461-463 | adding to one entry's counter, wrapped to its width, keeps the books balanced: the total still exceeds what is found by whole turns only |
| ConnectMap.EveryRunIsExclusive | dp/ctrl.c:2683-2878 | in every interleaving: the map being drained is not being written; nothing is left in a thread's other map unless that map is being retired; a count of zero means an empty map once nobody is adding |
| ConnectLedger.EveryRunConserves | dp/ctrl.c:2683-2878 | in every interleaving, for bytes, sessions and violations: accepted = in both maps + buffered + sent + carried, where carried is what the counters of single entries could not hold, in whole turns; it is zero if and only if no report that is counted takes its entry's counter past its width |
| ConnectLedger.StepCarries | dp/ctrl.c:2683-2878 | each step adds to what is accepted what it adds to the entries, and the turns it carries |
| ConnectTables.CounterWraps | dp/ctrl.c:2689-2695 | from every initial state a run in which a connection takes in half of a counter's width or more, twice between two passes, and is not reported in full |
| ConnectLedger.EveryEntryGoesOutOnce | dp/ctrl.c:2824-2878 | every entry ever added is in exactly one place, once; messages hold 1 to CONNECTS_PER_MSG entries; nothing stays buffered between passes; a high-priority report is lost only for want of memory |
| ConnectEntries.EveryConnectionConserved | dp/ctrl.c:2683-2878 | in every interleaving, for each connection and counter: its entries in the maps, the buffer and the messages show what its own reports brought, all of it unless an entry's counter was taken past its width; a report without an entry counts if there is memory and it is LEARN, VIOLATE or above, or passes the limiter |
| ConnectEntries.EntriesAreMade | dp/ctrl.c:2718-2777 | in every interleaving there are exactly as many entries of a connection and application as its reports made |
| ConnectEntries.EntriesAreLimited | dp/ctrl.c:2718-2719 | in every interleaving, with a clock that does not go back, a thread makes in [a, b] at most as many entries for reports that are not LEARN, VIOLATE or above as the limiter allows |
| ConnectEntries.StepAsks | dp/ctrl.c:2718-2719 | exactly the reports without an entry that are not LEARN, VIOLATE or above ask the limiter of their thread |
| ConnectMap.StepKeepsExclusive | dp/ctrl.c:2633-2878 | every step of every thread keeps the exclusion and counting invariant |
| ConnectLedger.StepKeepsLedger | dp/ctrl.c:2633-2878 | every step keeps the books balanced, for each counter and each entry |
| ConnectLedger.OtherStepMoves | dp/ctrl.c:2829-2878 | steps that are not reports neither create, change nor lose an entry |
| ConnectTables.Lookup | dp/ctrl.c:2606-2618 | an entry that matches key and application, or the knowledge that there is none |
| ConnectTables.NewEntry | dp/ctrl.c:2718-2777 | high-priority reports do not go through the limiter; an entry is added and counted exactly when admitted and allocated |
| ConnectTables.Tables.constructor | dp/ctrl.c:2991-3016 | new tables are an initial state of the step machine |
| ConnectTables.Tables.UpdateEntry | dp/ctrl.c:2689-2695 | a known connection's counters grow; the call is a run of the step machine |
| ConnectTables.Tables.AddEntry | dp/ctrl.c:2718-2777 | a new connection is added or dropped; the call is a run of the step machine |
| ConnectTables.Tables.ConnectReport | dp/ctrl.c:2633-2785 | a report counts exactly when its connection is known or it is admitted and there is memory; otherwise it is recorded as dropped; other threads' tables stay as they are |
| ConnectTables.DrainMap | dp/ctrl.c:2846-2868 | whatever the iteration order, the entries of the retired map are exactly those moved to full messages and the buffer; the loop is a run of drain steps |
| ConnectTables.Serve | dp/ctrl.c:2833-2870 | a thread with a count of zero is skipped with nothing lost; otherwise its map is switched, drained and its count reset |
| ConnectTables.ServeAll | dp/ctrl.c:2832-2871 | after all threads had their turn, what their maps held is in full messages and the buffer |
| ConnectTables.Update | dp/ctrl.c:2824-2878 | a whole pass empties every map and the buffer, in messages of which only the last may be less than full |
| ConnectTables.Tables.UpdateConnects | dp/ctrl.c:2824-2878 | after a pass over quiet threads everything accepted so far has been sent, exactly the entries the maps held, none twice; each counter in full if and only if no entry's counter was taken past its width |
| ConnectTables.RecordedIsRun | dp/ctrl.c:2633-2878 | what the routines recorded is a run of the step machine from an initial state |
| ConnectTables.RecordedKeepsAll | dp/ctrl.c:2633-2878 | so all invariants of the step machine hold after every sequence of calls |
| ConnectionReport.EveryRunAccounts | agent/timer.go:460-561 | over every run of merges, inserts, host inserts, drains, acknowledgements and resends: reported = in the map + in flight + acknowledged + dropped at capacity + displaced + carried, in whole turns; carried is zero if and only if no report takes the counter of the entry it is merged into past its width |
| ConnectionReport.StepCarries | agent/timer.go:460-561 | each step adds to what is reported what it adds to the five places, and the turns it carries |
| ConnectionReport.CounterWraps | agent/timer.go:541-561 | two reports of half a counter's width or more for one connection are not accounted for in full |
| ConnectionReport.DisplacedOnlyByCollision | agent/timer.go:460-491 | nothing is displaced in exactly the runs where no mesh report meets a non-mesh entry or the other way round, and no key of a batch put back was inserted anew |
| ConnectionReport.MergedShowsLatestAndWorst | agent/timer.go:461-472 | however many reports go into an entry, it shows the decision of the last of the latest reports and the threat of the first of the most severe ones |
| ReportMap.MapShowsLatestAndWorst | agent/timer.go:460-561 | after any reports of containers and hosts for any connections: a connection is in the map if it was or was reported, with the mesh flag of its reports; it shows the decision of the last of the latest reports and the threat of the first of the most severe ones, where a host's report brings a threat only if it is the first |
| ReportMap.OthersUnchanged | agent/timer.go:460-561 | a connection nobody reports keeps its entry, or its absence |
| ReportMap.HighPriorityIsNotDropped | agent/timer.go:474-497 | in every run a LEARN, VIOLATE or DENY connection is dropped only if a host reported it |
| ReportMap.CapHolds | agent/timer.go:440-690 | in every run without reports of LEARN or above CHECK_APP the map stays within its cap |
| ReportMap.HostListIsRun | agent/timer.go:541-561 | the loop over host connections is a run of their reports, one after the other |
| ConnectionReport.ResendKeepsHighPriority | agent/timer.go:654-683 | after a resend every LEARN, VIOLATE or DENY entry of the batch is back under its key |
| ConnectionReport.ResendIsBounded | agent/timer.go:654-683 | after a resend the map holds at most its cap, or what it held plus the high-priority entries |
| ReportMap.ResendReturns | agent/timer.go:653-690 | after a resend the map holds exactly the entries that return, and otherwise what it held: all of a batch that fits; of one that does not, all LEARN, VIOLATE and DENY entries and, earliest first, as many others as there are places for |
| ReportMap.ReturnedCount | agent/timer.go:653-690 | how many return: of a batch that does not fit, the LEARN, VIOLATE and DENY entries and as many others as there are, or as the cap leaves places for once those are back |
| ReportMap.ResendFills | agent/timer.go:653-690 | under keys not inserted anew the map grows to min(size + batch, max(cap, size + LEARN, VIOLATE and DENY entries)) |
| ConnectionReport.DrainThenResend | agent/timer.go:628-690 | draining and resending at once restores the map if and only if the map was within its cap or the batch holds high-priority entries only |
| ReportMap.Reporter.UpdateConnectionMap | agent/timer.go:440-497 | the routine computes the specified merge, insert or drop, of which MapShowsLatestAndWorst says what it shows |
| ReportMap.Reporter.UpdateHostConnection | agent/timer.go:541-561 | the loop over host connections is the fold of the specified merge, insert or drop |
| ReportMap.Reporter.DrainBatch | agent/timer.go:628-638 | whatever the iteration order, a batch holds distinct entries of the map, all of them or connectionListMax, and the map keeps the rest |
| ReportMap.Reporter.PutBack | agent/timer.go:653-690 | the map holds exactly the entries that return and otherwise what it held, and how many return |
| ReportMap.Reporter.PutBackByPriority | agent/timer.go:659-683 | when the batch does not fit: exactly the entries that return are put back, and their number is returned |
| ReportMap.Reporter.PutHigh | agent/timer.go:661-671 | the high-priority entries are put back, in order, and remembered |
| ReportMap.Reporter.PutLow | agent/timer.go:674-683 | of the others as many as there is room for are put back, in order |
| Pipeline.EveryRunAccountsEndToEnd | agent/timer.go:358-497 | in every interleaving of the data plane, the hand-over and the agent: accepted by the data plane + reported by hosts = in its maps, buffer and unread messages + cached + ignored + in the agent's map + in flight + acknowledged + dropped + displaced + carried, in whole turns; carried is zero if and only if no report takes its entry's counter past its width, neither in the data plane nor in the agent |
| Pipeline.StepGrows | agent/timer.go:358-497 | each step of either side adds to both books alike, but for the turns it carries |
| Pipeline.StepHands | agent/timer.go:212-217 | every step keeps: read = cached + ignored + handed to the agent's map |
| ReportSpacing.AgentService.ReportConnections | controller/grpc.go:520-539 | a batch is queued exactly when the answer is Done, which is exactly when the leader has room; a non-zero interval is a multiple of 5 from 5 to 75 |
| ReportSpacing.AnswerSpacing | controller/grpc.go:521-538 | for every cluster size and load the leader's interval is a multiple of 5 from 5 to 75; a follower answers 0 |
| ReportSpacing.IntervalMeans | controller/grpc.go:526-529 | five seconds for every ten hosts or part of ten, up to fifty |
| ReportSpacing.IntervalGrows | controller/grpc.go:526-529 | more hosts never shorten the interval |
| ReportSpacing.FullIsSlower | controller/grpc.go:531-538 | a full channel asks for a resend, 25 seconds later than a leader with room asks for the next report |
| ReportQueue.EveryRunIsBounded | controller/grpc.go:531-537 | in every interleaving of handlers, each checking and then sending, and the worker: the channel never overfills, and every batch let through is with its handler, in the channel or taken, once |
| ReportQueue.StepKeepsInv | controller/grpc.go:531-537 | each single check, send or take keeps that |
| ReportQueue.BlocksExactlyWhenOverbooked | controller/grpc.go:531-537 | if the worker is slow some handler will block on the channel if and only if more batches were let through than there are places |
| ReportQueue.NoBlockingIffOneAtATime | controller/grpc.go:531-537 | for every k: no run with at most k handlers at a time between check and send ever has a handler blocked on the channel, if and only if k is at most 1 |
| ReportQueue.OneHandlerFits | controller/grpc.go:531-537 | with one such handler at a time, whoever has passed the check finds a place |
| ReportQueue.TwoHandlersBlock | controller/grpc.go:531-537 | a run with two of them that ends with one blocked |
| ReportSpacing.SpacedExactlyOnTime | agent/timer.go:178-184 | reports start exactly when due, spaced by intervals the controller approved and never in a burst, in exactly the runs where each goroutine looks while no other is sending and not later than the due tick |
| ReportSpacing.GapsFollowAnswers | agent/timer.go:620-700 | in every run the time to the next report is what the leader answered to this one; without an answer, or with a follower's, it is what it was |
| ReportSpacing.NonOverlappingRunsAreSpaced | agent/timer.go:170-184 | so they are whenever each tick's work ends before the next tick |
| ReportSpacing.OverlapBursts | agent/timer.go:620-626 | a run with overlapping ticks in which a report starts five seconds late, on top of the previous one |
| Pagination.PagingIsSlicing | agent/service.go:85-113 | for all batches, what is sent is the window [start, start + limit) of the filtered items if and only if no batch ends inside the window after more than max of its items, or the items end with the window; the request panics if and only if its bounds overflow 32 bits in the batch that reaches its start |
| Pagination.ItemsAreGathered | agent/service.go:219-258 | the items of a request are the first list whole and then, of all that the batches bring, exactly those kept, each as often as it comes and in that order |
| Pagination.SentInPlace | agent/service.go:85-113 | whatever is sent are items in their places, from the start of the window on |
| Pagination.WindowMeans | agent/service.go:85-113 | a window holds items in their places from its start on, up to its limit or their end |
| Sequences.FilterSelects | agent/service.go:219-258 | filtering keeps exactly the items it is to keep, in order |
| Pagination.SmallPagesAreExact | agent/service.go:85-113 | a page that ends within 32 bits and is at most one larger than the flush threshold is always the window |
| Pagination.ExactForAllBatches | agent/service.go:85-113 | a request gets its window however the items arrive if and only if it has no limit, or ends within 32 bits and is at most one larger than the threshold or ends at the last item there can be |
| Pagination.LargePagesOverrun | agent/service.go:259-265 | for every start, threshold and larger page, batches for which the page is overrun |
| Pagination.OverflowPanics | agent/service.go:97-106 | a request that panics |
| Pagination.Pager.constructor | agent/service.go:302-303 | a pager starts under its window |
| Pagination.Pager.PaginateList | agent/service.go:85-113 | the routine computes the specified cut, with its panic |
| Pagination.Pager.SendList | agent/service.go:77-83 | the pending list becomes a message |
| Pagination.Pager.Callback | agent/service.go:219-267 | a batch is filtered, cut, and sent if too much has piled up; ignored once the window is complete |
| Pagination.GetList | agent/service.go:302-312 | the whole request: when it succeeds, when what it sends is the window, and that everything after the first list is kept by the filter |
| Pagination.GetSessionList | agent/service.go:270-313 | the same for sessions, host-mode sessions first unless a workload is named, all others kept by the filter, threshold 1024; the sessions of a host-mode workload go out whole, which is the window if and only if there are none or it starts at 0 and has no limit or room for all |
| Pagination.GetMeterList | agent/service.go:484-500 | the same for meters, all of them kept by the filter, threshold 3072 |
| Glob.RewriteIsTranslate | share/criteria.go:255-257 | for every pattern the three replacements in sequence equal one character-wise translation |
| Glob.TranslateParses | share/criteria.go:255-258 | for patterns whose only metacharacters are dot, question mark and star, the translation is a regular expression, namely the compiled pattern |
| Glob.CompiledMeans | share/criteria.go:255-263 | the compiled pattern accepts exactly the strings the glob accepts, wildcards stopping at newlines |
| Glob.EqualMatchIsGlob | share/criteria.go:250-265 | so the match is the glob's, for every engine that gives such expressions their usual meaning; without newlines in the value it is the plain glob's |
| Glob.PlainReadingIffNoNewline | share/criteria.go:250-265 | for every value: all patterns match it as the plain glob would, wildcards standing for any character, if and only if it has no newline |
| Selector.Record | share/criteria.go:129-149 | the maps hold each key's result and polarity after one more criterion |
| Selector.AllTrue | share/criteria.go:242-246 | whether all keys came out true |
| Selector.Select | share/criteria.go:190-248 | a selector selects if and only if none of its criteria stops it, some key has an entry, and every key's entries combine to true |
| Selector.IsWorkloadSelected | share/criteria.go:186-248 | the selection, as SelectedMeans says in terms of the workload's fields and labels; a criterion on addresses selects nothing |
| Selector.IsSvcIpGroupSelected | share/criteria.go:124-161 | the loop over domain criteria selects as GroupSelectedMeans says |
| Selector.SelectedMeans | share/criteria.go:186-246 | for every selector, in terms of the fields and labels its criteria name: selected if and only if there are criteria, none on addresses, and for every kind (one key, labels of the namespace, labels of the workload) the negative ones that come first all hold, if there are any, or one of the others holds |
| Selector.EachKeySelects | share/criteria.go:192-206 | one criterion on image, node, container, service, domain or namespace selects if and only if that field is, is not, contains, starts with or matches its value |
| Selector.EachLabelSelects | share/criteria.go:207-223 | one criterion on a label of the namespace or of the workload selects if and only if the label is there and its value is as the criterion says |
| Selector.SameSubjectsSameSelection | share/criteria.go:186-246 | a selector gives the same answer for workloads that agree on what its criteria name |
| Selector.GroupSelectedMeans | share/criteria.go:124-160 | a service-IP group is selected as a workload of its domain would be, by the criteria on domains alone |
| Selector.FoldIsCombined | share/criteria.go:225-236 | closed form of the loop for one key: all met if all are negative; otherwise a non-empty leading negative run all met, or some later entry met |
| Selector.CombinedAppend | share/criteria.go:229-236 | how the closed form grows by one entry |
| SelectorRules.RuleDiffers | share/criteria.go:181-236 | the code departs from the documented rule if and only if a positive entry follows negative ones of which some but not all are met, and nothing later is met |
| SelectorRules.RuleHoldsByPolarity | share/criteria.go:181-236 | an order of polarities agrees with the documented rule for every outcome if and only if it has no positive entry or at most one negative entry before the first positive one |
| SelectorRules.DocumentedRuleFails | share/criteria.go:181-248 | a workload and three criteria on its image for which the code selects nothing and the documented rule selects it |
| SelectorRules.ReorderAcrossKeys | share/criteria.go:190-248 | for every rearrangement of a selector that keeps the order of criteria with the same effective key, the selection is the same |
| ProcessProfile.BucketIsPriority | agent/group_profile.go:463-505 | the seven buckets are the documented precedence by action and coverage; only a rule that denies everything has none |
| ProcessProfile.MapProcToSortedSlices | agent/group_profile.go:445-461 | whatever the map order, the entries of a bucket by name, then path |
| ProcessProfile.MergeProcessProfiles | agent/group_profile.go:471-514 | the result is ordered by bucket, name and path, and is the merge (one rule each, the last given, none forgotten) if and only if the map keys tell rules apart |
| ProcessProfile.MergeHoldsLast | agent/group_profile.go:463-514 | a merge holds exactly the rules, apart from denying everything, that are not given again later under the same name, path and action |
| ProcessProfile.MergeIsSorted | agent/group_profile.go:445-461 | they come by bucket, then name, then path, as strings are ordered |
| ProcessProfile.MergesWhenDistinguished | agent/group_profile.go:477-505 | what the maps hold is the merge if and only if rules of one bucket that share a key have the same name and path |
| ProcessProfile.NoColonDistinguishes | agent/group_profile.go:478 | names without a colon are enough |
| ProcessProfile.ColonCollides | agent/group_profile.go:478 | with a colon two different rules can share a key |
| ProcessProfile.MergeIgnoresOrder | agent/group_profile.go:471-514 | for every permutation of the rules and every map order the same sequence of bucket, name and path |
| ProcessProfile.MergeIsUnique | agent/group_profile.go:471-514 | the merge is determined by its input |
| ProcessProfile.MergeIsIdempotent | agent/group_profile.go:471-514 | merging a merged list changes nothing |
| ProcessTiers.SplitRules | agent/group_profile.go:641-647 | rules from custom resources and others, each in order |
| ProcessTiers.CollectMembers | agent/group_profile.go:616-632 | which rules end up in which tier |
| ProcessTiers.CollectTiers | agent/group_profile.go:616-632 | the loop over groups collects the three tiers |
| ProcessTiers.MergeTier | agent/group_profile.go:650-654 | one tier's rules as its maps hold them, in order |
| ProcessTiers.CalculateProcGroupProfile | agent/group_profile.go:609-673 | the profile is what the maps of the three tiers hold, one after the other; if the map keys tell rules apart, each tier holds exactly the rules that prevail in it, sorted, and every rule of the service that it does not repeat and that does not deny everything stands in the profile, whatever the groups say |
| ProcessTiers.TierHoldsPrevailing | agent/group_profile.go:609-647 | a merged tier holds exactly the rules of its sources, groups in the order walked and then the service, that no later one of the tier replaces |
| ProcessTiers.ServicePrevails | agent/group_profile.go:641-647 | the service's own rules stand in the profile, whatever the groups say |
| ProcessTiers.FederalMeans | agent/group_profile.go:617-620 | federal groups are those whose name starts with the federal prefix |
| ProcessTiers.ProfileIgnoresGroupOrder | agent/group_profile.go:617-673 | the order in which groups are walked does not change where rules stand |
| ProcessTiers.FirstOfMerge | agent/group_profile.go:463-514 | for every match on name and path, the first match of a merged list is a matching rule of the lowest bucket |
| ProcessTiers.FirstOfStack | agent/group_profile.go:649-666 | the first match of a profile comes from the best tier that has one, and the lowest bucket in that tier; deny-all rules never apply |
| VulAssets.EveryScheduleCounts | db/vulassets.go:239-280 | for every interleaving of critical sections: an asset stands under a vulnerability exactly as often as that stands in its list; a vulnerability is present, has a fix or lacks one exactly when some list says so |
| VulAssets.SchedulesAgree | db/vulassets.go:239-280 | any two complete interleavings agree on names, on the multiset of assets per type and on the flags |
| VulAssets.RunInOrder | db/vulassets.go:239-280 | one asset after another is one of the complete interleavings |
| VulAssets.BatchProcess | db/vulassets.go:239-280 | what one worker computes lists each asset as often as the lists say, and every complete interleaving gives the same result |
| VulAssets.FilterVulAssets | db/vulassets.go:197-231 | the rows are exactly those found on some asset and, if they meet the search, in view; those that meet it weigh as much as they list assets, the others nothing; the total counts all found ones; no name twice |
| VulAssets.RowsByAssets | db/vulassets.go:197-306 | for every interleaving: a vulnerability has a row if and only if some platform, node, workload or image lists it and, if it meets the search, one of those the view is about does |
| VulAssets.ImpactIsOccurrences | db/vulassets.go:226-227 | for every interleaving the weight of a kept row is the number of times its vulnerability stands in the four kinds of lists |
| SubnetConfig.Config.constructor | dp/ctrl.c:1510-1519 | nothing gathered, nothing installed |
| SubnetConfig.Config.Gather | dp/ctrl.c:1527-1566 | a part is joined to what is gathered, or an error is returned and nothing installed changes |
| SubnetConfig.Config.Install | dp/ctrl.c:1572-1592 | the installed block is replaced and the old one freed |
| SubnetConfig.Config.CfgInternalNet | dp/ctrl.c:1514-1595 | a legal message leaves memory sound and the lists as specified; an illegal one frees a block that is still installed |
| SubnetConfig.Replay | dp/ctrl.c:1514-1595 | over every message sequence memory stays sound if and only if no message continues a list right after its end; then the lists are as specified |
| SubnetConfig.ContinuationAfterEnd | dp/ctrl.c:1541-1566 | a list sent whole and then continued is not legal |
| SubnetStreams.GatheredIs | dp/ctrl.c:1541-1566 | in every sequence what is gathered is the concatenation of the parts that joined since the last start that was not lost |
| SubnetStreams.InstalledIs | dp/ctrl.c:1541-1592 | in every sequence each installed list is the concatenation of the parts that joined from the last start before its last end up to that end |
| SubnetStreams.NothingInstalled | dp/ctrl.c:1568-1592 | no list is installed before one is complete |
| SubnetStreams.StreamInstalls | dp/ctrl.c:1527-1592 | for a list sent in parts without another in between, whichever allocations fail and whatever was there before: what is gathered after each part; nothing installed changes before the last part; the list is installed with the last part unless that one is lost |
| SubnetStreams.StreamLegal | dp/ctrl.c:1527-1566 | such a stream is legal if and only if its start is not lost, or not right after an end, or all later parts are lost too |
| SubnetStreams.StreamIsWhole | dp/ctrl.c:1527-1592 | a list is sure to be installed in one piece, for all parts and states before, if and only if every allocation of its stream succeeds |
| SubnetStreams.HoleBecomesVisible | dp/ctrl.c:1527-1592 | three messages of which the middle one is lost install a list with a hole |
| SubnetStreams.ListsStaySeparate | dp/ctrl.c:1519-1592 | for every sequence of flags and targets: both installed lists are what their own messages alone would install, at every moment and for all contents, if and only if every end that completes a list comes after a start with only messages for its own target in between |
| SubnetStreams.InterleavedListsMix | dp/ctrl.c:1519-1566 | two lists sent alternately get mixed up |
| DlpConfig.EnableRules | dp/ctrl.c:1972-1990 | the loop over rules: the enabled entries are those before and the rules not lost for want of memory, of several for a signature the first; rules mentioned are no longer disabled |
| DlpConfig.NothingLostIffFirstsAllocated | dp/ctrl.c:1972-1990 | for given signatures: whatever their actions, lost memory changes no enabled entry if and only if the first rule for each signature without an entry gets its memory |
| DlpConfig.Sweep | dp/ctrl.c:1991-2004 | only disabled entries are deleted, as many as the limit allows |
| DlpConfig.HandleEndpoint | dp/ctrl.c:1960-2005 | the enabled entries afterwards, and how many disabled ones remain |
| DlpConfig.HandleAll | dp/ctrl.c:1861-2052 | the same for every endpoint a message names, even twice; after a last message all are clean if and only if the disabled entries of all of them together fit the limit |
| DlpStreams.Endpoints.CfgDlp | dp/ctrl.c:1856-2052 | the routine for one message: its answer, every endpoint it names handled at each of its places, endpoints not named as they were, and when all are clean |
| DlpStreams.Endpoints.CfgStream | dp/ctrl.c:1960-2052 | a whole stream whose messages name any endpoints and can lose any rules: what each endpoint is left with; those the last message names are all clean if and only if what it has to delete, in terms of the maps before the stream, fits the limit; if all messages name the same endpoints and there is memory, all their maps are exactly the stream's rules if and only if the entries it does not mention fit the limit |
| DlpStreams.NextGets | dp/ctrl.c:1960-2005 | an endpoint the message names has, of all rules given to it so far, those that found memory if it is named once per message, and all of them if there was memory; in both cases of several for a signature the first, and starting afresh if the first message named it |
| DlpStreams.NextMidway | dp/ctrl.c:1960-2005 | one more message, not the last: disabled are exactly the entries there were before, all or the disabled ones, that no rule given to the endpoint mentions |
| DlpStreams.LastMidway | dp/ctrl.c:1960-2005 | the last message: of those it may delete some, and only at the endpoints it names |
| DlpStreams.UniformGets | dp/ctrl.c:1960-2005 | with the same endpoints in all messages and memory, the enabled entries are the stream's rules whatever the map held before, and the whole map is if and only if nothing disabled is left |
| DlpConfig.FirstOfIsFirst | dp/ctrl.c:1978-1989 | of several rules for a signature the first one's action counts |
| DlpConfig.VisitedWithPlenty | dp/ctrl.c:1861-2005 | naming an endpoint twice in a message is like naming it once, if there is memory |
| DlpConfig.VisitedTurns | dp/ctrl.c:1861-2005 | however often it is named and whatever is lost: which entries can be enabled and which disabled afterwards; an endpoint not named stays as it is |
| DlpConfig.VisitedOnce | dp/ctrl.c:1861-2005 | an endpoint named once gets exactly the rules that found memory at its turn |
| PolicySlots.GetPolicyConfig | agent/system.go:259-287 | succeeds if and only if every rule has its place; then rule idx of slot i stands there, and zero values where no slot has a rule |
| PolicySlots.Position | agent/system.go:281-282 | every position belongs to one slot at one index, so it is written at most once |
| PolicySlots.SpreadRoundTrip | agent/system.go:259-287 | for every list and number of slots, spreading and reassembling gives the list back |
| PolicySlots.MergeWlPolicyConfig | agent/system.go:289-308 | the leading workload rules become one rule with all their addresses, the others follow unchanged; panics if and only if there are more workload slots than rules |
| PolicySlots.AddressesKept | agent/system.go:297-304 | no address is lost or duplicated, and no nil entry is kept |
| TaskScanner.Scanner.constructor | agent/bench.go:1777-1788 | an idle scheduler |
| TaskScanner.Scanner.AddScanTask | agent/bench.go:1865-1877 | a task waits behind all others |
| TaskScanner.Scanner.NextScanTasks | agent/bench.go:1836-1862 | tasks start from the head of the queue; afterwards the queue is empty or all workers are busy |
| TaskScanner.Scanner.OnTick | agent/bench.go:1797-1824 | when a pass runs, what it leaves, and that the count reported at the end of a busy period is the number of tasks started in it |
| TaskScanner.Scanner.OnDone | agent/bench.go:1825-1830 | a finished task is acknowledged once |
| TaskScanner.Drive | agent/bench.go:1790-1877 | over every sequence of events: tasks start in the order added, each once; the worker count is the number started and not acknowledged and never exceeds its limit |
| TaskScanner.TasksInOrder | agent/bench.go:1865-1877 | the tasks of a sequence of events are those of its additions, in their order |
| BenchParse.Headlines | agent/bench.go:848-862 | the positions, in order, of the recognised lines that have a test number or are the first |
| BenchParse.GetBenchMsg | agent/bench.go:825-873 | for every output the loop returns exactly the items accepted in view of their successors, in order; item j is the j-th headline with the recognised lines strictly between it and the next headline, or the end |
| BenchParse.AcceptedMeans | agent/bench.go:825-873 | the accepted items are, in order, those whose level is neither note nor info and whose number followed by a dot does not begin the number of the next item |
| BenchParse.ItemMeans | agent/bench.go:848-862 | item j carries number, level and text of the j-th headline |
| BenchParse.HeadersMean | agent/bench.go:851-853 | a message consists of what the recognised lines say, in order |

## Left out

- ConnectMap: entries carry identity, key, application and the three counters; last-seen policy, severity, metrics and flags are not modelled, and memory is sequentially consistent.
- ConnectTables: the two routines are called one after the other; that they also interleave inside is the business of ConnectMap. Draining loops hold their working values in local variables.
- RateLimiter.PassBound: the count within a window is unbounded, so a window of 2^32 checks, which would wrap it, is not modelled; times and totals do wrap.
- ReportSpacing.SpacedExactlyOnTime: the tick counters are unbounded, and each addition to one is a single step, although overlapping goroutines do not synchronise on them and an addition could be lost.
- ReportSpacing.AgentService.ReportConnections: one handler at a time; concurrent handlers and the worker are in ReportQueue.
- Pagination: 2^32 items or more in all and malformed buffers are not modelled.
- Selector.SelectedMeans: values with wildcards are read as globs only for a regexp engine of the usual kind and patterns without other metacharacters.
- Glob: characters stand for runes; other regexp operators are left to the engine, and so are the regular-expression criteria of the selector.
- ProcessProfile: `sort.Slice` is modelled by insertion, which the strict order makes the only possible result.
- ProcessProfile.CalculateProcGroupProfile: mode, alert and hash fields and the update of allow rules are not modelled.
- VulAssets.FilterVulAssets: the search filter is a parameter, and the parsing of a vulnerability's database key and its details are not modelled.
- SubnetConfig: the twin routine for special addresses (dp/ctrl.c:1597-1680) has the same shape and is not repeated; blocks that are leaked are not a fault.
- DlpConfig: the WAF twin and the freeing of deleted entries after the grace period are not repeated; rule-id maps are not modelled.
- TaskScanner: what a worker does is not modelled.
- File access profiles, group membership refresh, traffic statistics windows and process supervision.
- Sockets, packet capture, netfilter, SQL, JSON, gzip, logging and process startup.
