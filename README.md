# Rowser in Dafny

Rowser is a Ruby browser simulator that focuses on DNS behaviour. It repeats
HTTP GETs of one host the way a given browser would. A background thread
stands in for the operating system's DNS cache. The fetcher tries each
resolved address in turn, and against each address it walks a ladder of
escalating timeouts until one GET answers. Some browsers remember the
address that answered and move it first. Chrome re-resolves after a total
failure. At the end a summary counts the successes and adds up the success
and failure times.

This project models that core of `lib/rowser.rb` and proves what it does:

- `round_robin.dfy` (`RoundRobin`) covers `round_robinie_get` and `simulate`.
  - The nested loops are the methods `LadderGet` and `RoundRobinGet`.
  - They are proved equal to a reference function `RoundRobinOutcome`.
  - The first-success, attempt-order and failure-result properties are proved about that function.
- `reorder.dfy` (`Reorder`) covers the reorder block `delete_at(index(w))`, then `push(w).reverse!`, as `Promote`.
- `dns_cache.dfy` (`DnsCache`) covers the background cache thread.
  - It is a method that produces the log of the lookups it makes.
  - It sleeps `max(ttl, cache_flush)` between lookups.
- `orchestrator.dfy` (`Orchestrator`) covers the runner loop of `execute`.
  - The method `Execute` has a `while` loop and is proved equal to the recursive specification `Run`, whose per-iteration step is `Step`.
  - What the runner thread cannot see or control is an environment `Env`: the cache thread's refreshes, the resolver's answers to Chrome's re-resolution, the transport and the clock.
- `results.dfy` (`Results`) covers the result records and `display_summary`.
- `presets.dfy` (`Presets`) covers the four browser entry points as a constant table.
- `wrappers.dfy` (`Wrappers`) holds `Option`.

Durations are whole milliseconds: the source's seconds are scaled by 1000,
so Firefox's first rung of 0.5 s becomes 500. A GET is the oracle
`net(address, timeout)`, where a timeout or any other error is `false`. A
background refresh is an optional replacement of the shared list in `Env`.
It can land just before an iteration's snapshot (`refresh(i)`) or between
its fetch and the reorder guard (`racing(i)`).

A few points of the code's behaviour are easy to misread, and the header
comment of `lib/rowser.rb` (lines 28-36) describes the reordering more
loosely than the code does. The model takes the first three exactly as the
code does, and it departs from the code on the fourth:

- **Reordering is not a plain move-to-front.** `delete_at`, then `push`,
  then `reverse!` puts the winner first and the other addresses in reversed
  order. For `[A, B, C]` won by `B` the result is `[B, C, A]` (`PromoteExample`).
  Two successes in a row on the same address do give a move-to-front (`PromoteTwice`).
- **A failed fetch names an address.** After a total failure `addr` is the
  last address tried, that is the last element of the list. It is none
  only when the list is empty.
- **Only a nil cache is re-resolved.** An empty array is used as it is, and
  the fetch fails without any attempt. In `execute` the cache is never nil,
  since `addrs` starts as `[]`.
- **`execute` returns the runner thread.** The value of its
  `begin`/`ensure` (lines 135-143) is that of `runner.join`, which is the
  runner's `Thread`. The `results` inside the `ensure` is discarded, and
  `display_summary` only prints. The model returns the results and the
  printed summary instead (see `Orchestrator.Execute` under "Left out").

## Model

| member | source | states |
|---|---|---|
| RoundRobin.Normalize | lib/rowser.rb:155 | Definition: a non-array scenario is a one-rung ladder and an array is used as it is. It appears in `RoundRobinGet`'s contract. |
| RoundRobin.RoundRobinOutcome | lib/rowser.rb:153-181 | Definition: the reference result of one fetch, built from `FirstAddr` and `FirstRung`. Its properties are `FirstSuccessWins`, `WinnerListed` and `AttemptOrder`, and `RoundRobinGet` is proved equal to it. |
| RoundRobin.LadderGet | lib/rowser.rb:163-175 | The GET succeeds with some rung exactly when some rung of the ladder answers. The GETs issued are the ladder's rungs in order, up to the first that answers, or all of them. |
| RoundRobin.RoundRobinGet | lib/rowser.rb:153-181 | The list used is the cache, or the resolver's answer only when the cache is nil. The response, the address, the list and the GETs issued are exactly `RoundRobinOutcome` over the normalised ladder. |
| RoundRobin.Simulate | lib/rowser.rb:146-148 | The same result as `round_robinie_get`. An empty (non-nil) cache fails without naming an address and without any GET. |
| RoundRobin.FirstRungIsFirst | lib/rowser.rb:163-169 | The rung found is the first that answers. None is found only when no rung answers. |
| RoundRobin.FirstAddrIsFirst | lib/rowser.rb:160-177 | The address found is the first in list order against which some rung answers. None is found only when no address is reachable. |
| RoundRobin.FirstSuccessWins | lib/rowser.rb:160-177 | The fetch succeeds if and only if some (address, rung) pair answers. It then names the first reachable address in list order; failures name the last address, or none for an empty list; the list reported is the list used. |
| RoundRobin.WinnerListed | lib/rowser.rb:159-161 | A success names an address of the list used. A failure names its last address, or none when it is empty. |
| RoundRobin.AttemptOrder | lib/rowser.rb:160-177 | The GETs issued are a prefix of the address-major, ladder-minor order, and all but the last fail. The last succeeds exactly when the fetch does, so nothing is tried after a success, and a failure tries everything. |
| RoundRobin.AttemptsOnSuccess | lib/rowser.rb:163-176 | When address i wins, the GETs are a non-empty prefix of the full order, with every GET failing except the final one. |
| RoundRobin.AttemptsOnFailure | lib/rowser.rb:160-177 | When nothing answers, every rung was tried against every address, and each of those GETs failed. |
| RoundRobin.AllAttemptsLength | lib/rowser.rb:160-175 | There are |addresses| × |ladder| possible GETs. |
| RoundRobin.AllAttemptsAt | lib/rowser.rb:160-175 | GET number i·|ladder|+j is rung j against address i. |
| RoundRobin.AllAttemptsPrefix | lib/rowser.rb:160-175 | The GETs over a prefix of the list are a prefix of the GETs over the whole list. |
| RoundRobin.FailoverToSecondAddress | lib/rowser.rb:160-177 | If A never answers and B always does, the ladder [1 s, 1 s, 2 s] gives success on B, after three GETs against A and one against B. |
| Reorder.Reverse | lib/rowser.rb:125 | Definition of `reverse!` on values. See `ReverseAt`, `ReverseMultiset` and `ReverseReverse`. |
| Reorder.Promote | lib/rowser.rb:124-125 | Definition of the reorder, `delete_at(index(w))` then `push(w).reverse!`. Its properties are in `PromoteShape`, `PromoteTwice` and `PromoteExample`. |
| Reorder.IndexOf | lib/rowser.rb:124 | The index returned holds the element. No earlier index holds it. |
| Reorder.DeleteAt | lib/rowser.rb:124 | One element fewer; the elements before k keep their places and those after move down one. |
| Reorder.ReverseMultiset | lib/rowser.rb:125 | `reverse!` keeps every element with its multiplicity. |
| Reorder.PromoteShape | lib/rowser.rb:123-126 | The reorder keeps the multiset and the length, and puts the winner first. The tail is the reverse of the list without the winner. |
| Reorder.PromoteTwice | lib/rowser.rb:123-126 | Reordering twice for the same winner moves it to the front and keeps the other addresses in their original order. |
| Reorder.PromoteExample | lib/rowser.rb:124-125 | [A, B, C] won by B becomes [B, C, A]. |
| DnsCache.RefreshInterval | lib/rowser.rb:89 | The sleep between refreshes is at least the TTL and at least the cache-flush interval, and it equals one of the two. |
| DnsCache.SimulatedOsDnsCache | lib/rowser.rb:75-92 | With `wise_chrome` there is one lookup and it stops. Otherwise it makes one lookup per round, each publishing its resolver answer, the first at time 0, and each next one starting the refresh interval after the previous publication. |
| DnsCache.RefreshGap | lib/rowser.rb:83-90 | Periodic lookups i < j are at least (j − i) intervals apart, both in start time and in publication time. |
| DnsCache.ConsecutiveRefreshes | lib/rowser.rb:89 | Consecutive periodic lookups are never closer than the TTL or the cache-flush interval. |
| Orchestrator.Publish | lib/rowser.rb:86 | Definition: a list published by the cache thread replaces the shared list, and with no publication the shared list stays as it was. It is used by `Snapshot` and `LiveList`. |
| Orchestrator.Step | lib/rowser.rb:97-131 | Definition of one iteration on values. `Iteration` is proved equal to it, and `ChromeRetry`, `RetryReport`, `ReorderStep`, `NoReorderWithoutFlag` and `ReportedCoherent` state its properties. |
| Orchestrator.Run | lib/rowser.rb:96-131 | Definition: the state after n iterations from `addrs = []`, each iteration being `Step` on the previous state (through `Advance` and `Iterate`). `Execute` is proved equal to it, and `RunLength`, `ResultAt`, `FetchCount` and `ResultsWellFormed` state its properties. |
| Orchestrator.FinalFetchReports | lib/rowser.rb:106-117 | The reported fetch used the snapshot, or the re-resolved list after a retry. A success names an address on that list; a failure names its last address, or none. |
| Orchestrator.FetchPhase | lib/rowser.rb:98-115 | Snapshot, fetch, and under `wise_chrome` after a failure one re-resolution and one more fetch. Returns what iteration i reports, with one or two fetches and zero or one resolutions. |
| Orchestrator.Iteration | lib/rowser.rb:97-131 | One loop body. It appends the result and reorders, or leaves the shared list as last published; the new state is `Step`. |
| Orchestrator.Execute | lib/rowser.rb:94-143 | Runs exactly max(number_of_run, 0) iterations. The results are those of `Run`, one per iteration, and the summary is the folds over them. |
| Orchestrator.RunLength | lib/rowser.rb:96-131 | After n iterations there are exactly n results. |
| Orchestrator.ResultsPrefix | lib/rowser.rb:117-120 | Results are only appended: the results after m iterations are a prefix of those after any later n. |
| Orchestrator.ResultAt | lib/rowser.rb:117-120 | Results are only appended, in order. The i-th stored result is the one iteration i reported. |
| Orchestrator.FetchCount | lib/rowser.rb:106-114 | Fetches equal iterations plus re-resolutions. There is at most one re-resolution per iteration, and none without `wise_chrome`. |
| Orchestrator.RetryReport | lib/rowser.rb:106-117 | After a retry, the reported result is the second fetch's success flag and address, with the re-resolved list and the iteration's elapsed time. Without one, it is the first fetch's flag, address and snapshot list. |
| Orchestrator.ChromeRetry | lib/rowser.rb:107-117 | There is a re-resolution exactly when `wise_chrome` is set and the first fetch failed. It brings exactly one more fetch, that iteration appends exactly one result, and that result is the second fetch's flag, address and re-resolved list; otherwise it is the first fetch's flag, address and snapshot. |
| Orchestrator.ReorderStep | lib/rowser.rb:121-127 | The reorder happens only after a success whose list is still the shared list, and otherwise the list is left as it is. When it happens, the multiset and length are kept, the winner comes first and the others are reversed. |
| Orchestrator.NoReorderWithoutFlag | lib/rowser.rb:121 | Without `use_successful_addr` the shared list is whatever was last published or re-resolved. |
| Orchestrator.ReportedCoherent | lib/rowser.rb:117 | Every iteration's result has a success flag, address and list that agree with each other. |
| Orchestrator.ResultsWellFormed | lib/rowser.rb:117-120 | Every stored result of a run is coherent. |
| Results.FoldsMatchFilter | lib/rowser.rb:199-203 | The success count is the number of successful results, and the failures are the rest. Each time total sums exactly the results of its kind. |
| Results.SummaryTotals | lib/rowser.rb:199-203 | Success time plus failure time is the total elapsed time. The success count is at most the number of results. |
| Results.AllFailedSummary | lib/rowser.rb:200-202 | With only failures, success count and success time are zero, and failure time is the total. |
| Results.DisplaySummary | lib/rowser.rb:195-205 | Tried, success count, success time and failure time are the folds over the results. |
| Presets.Preset | lib/rowser.rb:51-69 | Each browser's ladder is a non-empty, non-decreasing list of positive timeouts. Only a browser that remembers the winner re-resolves after failure. |
| Presets.Browse | lib/rowser.rb:51-69 | An entry point is `execute` with that browser's preset, so its results and summary are as for `Execute`. |

## Left out

- The network: `Net::HTTP` and its open and read timeouts are the oracle `net(address, timeout)`. Timeouts and the other rescued errors make it return `false`. The response body and headers are not modelled; a response is just "there was one".
- RoundRobin.LadderGet, RoundRobin.RoundRobinGet: within one fetch, GETs with the same address and the same timeout are modelled as getting the same answer. The oracle takes only the address and the timeout, and it changes only from one fetch to the next. So a repeated rung (Safari's and Firefox's ladders repeat 1 s and other timeouts) cannot answer after an identical earlier rung timed out, and a list that names an address twice gets that address's first answer again. In the source, each `http.get` at lib/rowser.rb:167 is a fresh attempt that may answer differently.
- DNS resolution: `get_addresses` (the hosts file, then DNS) is an oracle. It is `resolve(k)` in the cache thread, `reresolve(i)` for Chrome's re-resolution, and the `resolved` argument of `RoundRobinGet`.
- Threads and the mutex: `Thread.new`, `Mutex#synchronize`, `kill`, `join` and the `ensure` cleanup are not modelled. Each refresh is an `Env` event that replaces the whole list between steps, so interleavings finer than "before the snapshot" or "before the reorder guard" are not covered.
- Clocks and sleeping: `Time.now`, `sleep` and `Benchmark.measure` are not modelled. An iteration's whole-millisecond elapsed time is `Env.elapsed(i)`, and the cache thread's lookup times are a parameter. Floating-point `real` times are not modelled.
- Output: `puts` and the block callback. The block receives each result that is appended, so the results sequence is what it sees.
- Ruby aliasing: `address_cache = addrs` shares one array, so the in-place reorder also changes the lists already stored in `results`. The model keeps every list as a value, and the guard at lib/rowser.rb:123 becomes value equality.
- DnsCache.SimulatedOsDnsCache: `ttl` and the cache-flush interval are natural numbers, so negative values are not modelled. In the source a negative interval makes `sleep` at lib/rowser.rb:89 raise ArgumentError after the first lookup. That ends the cache thread, and `simulated_os_dns_cache.join` at lib/rowser.rb:136 raises the same exception in the main thread. The `ensure` at lib/rowser.rb:138-142 then kills the runner and prints the summary of the results gathered so far, and `execute` itself raises, so the whole run stops. The four presets can never cause this, because their cache-flush intervals are 0, 1800 and 120 seconds and line 89 takes the larger of the two values. Only a direct call of `execute` with both `ttl` and `cache_flush` negative can.
- Presets.Browse: the `hostname`, `path`, `sleep_time` and `ttl` arguments are not passed through. They only reach the network, the resolver, `sleep` and the cache thread, which are oracles or separate (`DnsCache.SimulatedOsDnsCache` takes `ttl`).
- Orchestrator.Execute: it returns the results and the summary, while `execute` returns the runner `Thread` (the value of `runner.join` at lib/rowser.rb:137; the `results` at line 142 is discarded). The runner's own exception paths are not modelled. `block.call` at line 118 raises when no block is given, and `sleep sleep_time` at line 129 raises when `sleep_time` is negative. Either one ends the runner before it kills the cache thread at line 132. In periodic mode the cache thread then runs forever, so the main thread waits at line 136 for good. With `wise_chrome`, `runner.join` at line 137 raises the error again after the `ensure` has printed the summary. In both cases fewer than max(number_of_run, 0) iterations complete, so `Execute`'s iteration count holds only for runs that raise nothing.
- Orchestrator.Execute: it does not start the cache thread. The lists that thread publishes arrive through `Env.refresh` and `Env.racing`, so `Execute` does not tie them to `SimulatedOsDnsCache`'s schedule.
