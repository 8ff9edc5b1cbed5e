# NimbusMesh-X simulation core, modelled and verified

NimbusMesh-X routes inference requests to accelerator pools. This project models the
deterministic core of its simulator in Dafny and proves what that core keeps over every run:
the slot scheduler of a pool, the fabric graph and its shortest paths, the KV-cache directory,
the routing policies, the control plane that ties them together, and the statistics of the
report. `dafny verify dfyconfig.toml` checks everything.

## How the model is laid out

State that the program changes in place is a class whose methods are proved against functions
on values; the theorems are about those functions.

- `Numbers`, `Sequences`, `Dicts`: exact reals, rounding to four decimals, dictionaries in
  insertion order.
- `PoolModel`, `QueueLimit`, `LoadBounds`, `ClockOrder`: the slot scheduler of one pool, and
  what the order of times decides about it.
- `BusyPeriods`, `GreedyFactor`: the scheduler against every other schedule of the same jobs.
- `Topology`, `TopologyBuild`, `TopologyService`, `RouteCosts`: the graph search, the graph built
  from a configuration, the service object, what routes cost and pools suit by tier and probe.
- `CacheModel`, `CacheUpdate`, `CacheDirectory`, `CacheLimits`: eviction and scoring,
  observation and trimming, the directory object, how it grows.
- `CacheScores`, `CacheHistory`: what an answer and an entry mean, in fields and past observations.
- `Requests`, `Estimates`: requests, memory and latency estimates, rounding error of a prediction;
  what the estimates depend on, and by which formulas.
- `Selection`, `PolicyState`, `Routing`: candidates, the policies, the native selectors, learned
  state, and which of them answers a request.
- `PolicyPicks`: what each policy and selector picks, in the figures of the candidates.
- `ControlModel`, `ControlRun`, `RunTheorems`, `Reservations`: the control plane as a state
  machine whose choices are left open, the invariants of every reachable state, the theorems
  about runs, and how memory in use and memory held add up.
- `CandidateFacts`, `ResultFacts`, `RunSums`, `RunHistory`: what candidates and results say, what
  a run adds up to, and what the directory has been told in it.
- `RaisingRuns`: how short a run can end in an exception.
- `RoutedRuns`: runs in which the control plane makes the choices itself.
- `Runtime`, `Engine`: the objects of the running system and the request loop.
- `Statistics`: Jain's index and quantiles.

## Conventions

- Times, costs and memory are exact reals. `Round4` rounds to four decimals, halves to even.
- Python dictionaries are key-value lists in insertion order (`Dict`), so loops over them have
  the program's order. `Pool.jobs` is a history of placements that no operation reads.
- Synthetic arrivals are sorted; trace replay does not sort its rows. What holds in any order
  is stated without one: memory safety, disjoint intervals, at most as many jobs running as
  slots, the shape of the directory, conservation, admission, no wait under a tight queue limit;
  and, from the latest arrival on, the books, the balance of the slots, Graham's load bounds and
  the number of unfinished jobs under a tight limit. Only three things are stated for runs in
  order: first come first started, no idling, and a wait of at most an even share of the earlier
  work from a job's own arrival. `ClockOrder` says exactly from when, or in which orders, the
  books agree, the slots are even and no slot idles; `GreedyFactor` gives the exact factor
  against the best schedule, for any order and for runs in order. There m is the slot count.
- A run of the state machine (`Run`) takes any choice at every request, so its theorems hold for
  every chooser. A routed run (`RoutedRun`) lets the native selectors and the policy choose;
  whether a native selector answers a request is an input.
- A configuration has at least one pool, at least one slot a pool, non-negative costs and
  congestion, positive probe factors, and, for the graph, distinct cluster ids and distinct
  pool ids within a cluster.
- Trimming the directory sorts tuples that end in an unordered entry, which raises on a tie.
  The raise is a value here (`TrimRaises`, `Raised`); runs stop at it. `NeverRaisesIffFew` and
  `NoRunRaisesIffFew` say how many observations and how many requests it takes.
- docs/failure_analysis.md:31 says a queue limit can mark a pool unavailable. In the code that
  happens in some run exactly when the limit does not exceed the pool's slot count
  (`RejectionReachable`, `QueueLimitDichotomy`). The model follows the code.

## Model

| member | source | states |
|---|---|---|
| PoolModel.Earliest | cluster_scheduler/local_scheduler.py:27 | the chosen slot frees up no later than any other, and strictly before every lower-numbered one |
| PoolModel.RefreshKeeps | nimbusmesh_x/types.py:122-130 | forgetting finished jobs step by step leaves exactly what filtering the whole placement history at once leaves, and keeps the pool invariant |
| PoolModel.PlaceKeeps | cluster_scheduler/local_scheduler.py:27-48 | placement keeps the whole pool invariant: first come first started, disjoint intervals on a slot, no idling while a job waits, matching books |
| PoolModel.PlaceKeepsNoIdling | cluster_scheduler/local_scheduler.py:27-45 | while any placed job waits, every slot runs a job at every instant of the wait |
| PoolModel.RunSound | cluster_scheduler/local_scheduler.py:27-48 | in every run, in whatever order its times come: jobs of a slot never overlap, memory in use is the sum over the jobs in flight, and the books match from the latest refresh on |
| PoolModel.RunConsistent | nimbusmesh_x/types.py:122-137 | the whole pool invariant holds after every run of refreshes and placements whose times do not go back |
| PoolModel.SlotsCountJobs | nimbusmesh_x/types.py:132-133 | at any time, in any run, the slots in use equal the jobs of the whole history that are unfinished, capped at the slot count |
| PoolModel.BooksAgree | nimbusmesh_x/types.py:122-133 | so they equal the entries a refresh leaves, capped at the slot count, although the two books are kept apart |
| PoolModel.NeverMoreThanSlots | cluster_scheduler/local_scheduler.py:27-45 | at any instant, past or future, no more jobs run than there are slots, in whatever order they came |
| QueueLimit.TightLimitNeverWaits | control_plane/service.py:148-150 | with a limit at most the slot count, in any order, no admitted job of any run waits, and no more than the limit are unfinished when one is placed, nor at any time from the latest arrival on |
| QueueLimit.RejectionReachable | control_plane/service.py:148-150 | some run makes the limit reject if and only if the limit does not exceed the slot count; otherwise no run does at any time |
| ClockOrder.BooksAgreeFromLatestRefresh | nimbusmesh_x/types.py:122-133 | the books of every run agree at a time if and only if no refresh has gone past it; the order of placements does not matter |
| ClockOrder.NoIdlingIffOrdered | workload_gen/generator.py:85-89 | for given arrivals, no choice of durations lets a slot idle while a job waits if and only if the arrivals are in order from the first that can find every slot taken |
| ClockOrder.EvenFromLatestArrival | workload_gen/generator.py:85-89 | every run whose latest job came at h has, at a time, slots within one longest job of each other and no more outstanding than was placed, if and only if that time is not before h; for the balance alone, one slot is enough as well |
| LoadBounds.RunEven | cluster_scheduler/local_scheduler.py:27-45 | in every run, in any order, from the latest arrival on: slots within one longest job of each other, no more outstanding than was placed; and no job has waited, from when the latest so far came, longer than an even share of the earlier work |
| LoadBounds.RunFair | cluster_scheduler/local_scheduler.py:27-45 | if times do not go back, no job waits, from its own arrival, longer than an even share of the earlier work |
| LoadBounds.PlaceAddsDuration | cluster_scheduler/local_scheduler.py:44-45 | each placement raises the outstanding work by exactly its own duration |
| LoadBounds.GreedyLoadBounds | nimbusmesh_x/types.py:135-137 | for balanced slots: every other slot within one longest job, queue delay at most the mean outstanding work, Graham's bound on how full a slot is |
| LoadBounds.WithinThriceOptimal | cluster_scheduler/local_scheduler.py:27-45 | against any feasible schedule of the same jobs ending at `end`, whatever their order, a job of length d finishes by 2 * `end` + d * (1 - 1/m) |
| LoadBounds.WithinTwiceOptimal | cluster_scheduler/local_scheduler.py:27-45 | where waits are fair, by 2 * `end` - d/m, and a job that was there from the start by (2 - 1/m) * `end` |
| BusyPeriods.RunBusy | cluster_scheduler/local_scheduler.py:27-45 | in every run whose times do not go back, each job waits, within its busy period, at most for its share of the work that came in the period and of what the period took over, at most one begun job a slot and none on one of them |
| BusyPeriods.PeriodHolds | cluster_scheduler/local_scheduler.py:27-45 | any other schedule must do all of that after the period began, but for what m - 1 slots can have done by then |
| GreedyFactor.FactorInAnyOrder | cluster_scheduler/local_scheduler.py:27-45 | in whatever order jobs come, every job of every run ends by c times the end of any schedule of the same jobs, if and only if c is at least 3 - 1/m |
| GreedyFactor.FactorInOrder | cluster_scheduler/local_scheduler.py:27-45 | if times do not go back, and just as well if all jobs are there from the start, if and only if c is at least 2 - 1/m |
| Topology.ShortestPathCost | topology_service/graph.py:79-95 | returns the least cost over all walks, and infinity exactly when there is no walk, for every graph with non-negative costs |
| Topology.RelaxLinks | topology_service/graph.py:90-94 | relaxing a node's links keeps the heap, visited-set and tentative-distance invariants despite stale duplicates |
| Topology.WalkBound | topology_service/graph.py:83-94 | every walk ends at a visited node it does not beat or costs at least some heap entry |
| Topology.DistanceUnique | topology_service/graph.py:79-95 | a distance is determined by the graph, so the order of equal heap entries cannot matter |
| TopologyBuild.BuiltIsHubAndSpoke | topology_service/graph.py:41-73 | every graph built from a well-formed configuration hangs each pool off its own gateway, both ways, at its internal cost |
| TopologyBuild.RouteDecomposes | topology_service/graph.py:79-111 | the distance between different nodes is internal cost out, plus the distance over gateways only, plus internal cost in; infinite exactly when the gateways are disconnected |
| TopologyBuild.SameClusterRoute | topology_service/graph.py:79-111 | inside one cluster the distance is the sum of the two internal costs |
| TopologyServices.GroupedRepresents | topology_service/graph.py:20-29 | adding links one at a time gives each node its links, in order of addition |
| TopologyServices.BuiltInOrder | topology_service/graph.py:31-73 | the two construction loops add the configuration's links in order, skipping ingress and unknown clusters |
| TopologyServices.TopologyService.constructor | topology_service/graph.py:12-73 | the built object holds exactly the configuration's nodes, links, gateways and probe figures, and is hub-and-spoke |
| TopologyServices.TopologyService.AddNetwork | topology_service/graph.py:65-73 | links a gateway to exactly the known clusters its network costs name |
| TopologyServices.TopologyService.RouteCost | topology_service/graph.py:107-111 | the searched cost equals a closed form with no search; an unknown cluster is an error, an unknown pool is infinite |
| TopologyServices.RouteCostOfConfigured | topology_service/graph.py:107-111 | for every configured pool the route is finite and costs max(0.05, 1.2 - tier score) times the probe factor, rounded |
| RouteCosts.CostBeforeScaling | topology_service/graph.py:54-58 | the route to every configured pool costs x times its probe factor, rounded, where x is at least 0.05, x plus the tier score is at least 1.2, and one of the two is an equality |
| RouteCosts.UnprobedCosts | nimbusmesh_x/types.py:13-19 | without a probe the named tiers cost 0.2, 0.28, 0.48, 0.65 and 1.0, and any other 0.6 |
| RouteCosts.BetterTierCostsNoMore | topology_service/graph.py:107-111 | with equal probe factors a pool of a higher tier score never costs more |
| RouteCosts.FasterTierCostsLess | nimbusmesh_x/types.py:13-19 | the tiers are strictly ordered: with equal probe factors above 0.002 a faster one costs less, also after rounding |
| RouteCosts.LinkFigures | topology_service/graph.py:53-73 | every link of a built graph joins a gateway and its pool, with bandwidth and latency by the pool's tier, or two gateways, with cost, bandwidth and latency by the configured cost |
| RouteCosts.AffinityParts | topology_service/graph.py:97-105 | an affinity is four parts tier and one part probe, all of it from 8192 prompt tokens on, and 65% and a proportional share of the rest below |
| RouteCosts.LongPromptSuits | topology_service/graph.py:97-105 | without a probe, a prompt of 8192 tokens or more finds exactly the tier's score |
| RouteCosts.LongerPromptSuitsNoLess | topology_service/graph.py:97-105 | a longer prompt never suits a pool less, unless tier and probe blend to a negative figure |
| CacheModel.KeepBucket | cache_directory/directory.py:33-39 | eviction leaves each key the entries of its bucket that survive, in order |
| CacheModel.QueriesUnobservable | cache_directory/directory.py:33-41 | any queries at earlier times leave what eviction at `now` yields unchanged |
| CacheModel.ScoreOf | cache_directory/directory.py:41-62 | before rounding the ratio is zero or between 0.035 and 0.95, and saved tokens never exceed 95% of the prompt |
| CacheModel.BestAtIsFirstBest | cache_directory/directory.py:47-61 | the loop's strict comparison picks the first entry that attains the maximum over those shown |
| CacheModel.ScoreIsFirstBest | cache_directory/directory.py:41-62 | the score is that of the first best entry whose latest completion lies in [now - ttl, now], with no eviction in the statement |
| CacheScores.ScoreAnswers | cache_directory/directory.py:41-62 | an answer of nothing means that no entry has its last completion in [now - ttl, now]; any other is the greatest ratio such entries offer, and the whole part of that ratio of the tokens that its entry and the prompt share. An entry offers 1 less its age over the ttl, at least 0.1, times 1 on its pool, 0.7 in its cluster and 0.35 elsewhere, at most 0.95 |
| CacheScores.ScoreFades | cache_directory/directory.py:50 | an answer never rises with time while no further entry becomes visible |
| CacheModel.AnywhereAtLeastAThird | cache_directory/directory.py:50-57 | the ratio at any site is at least 0.35 times the ratio at any other |
| CacheUpdate.TouchKeeps | cache_directory/directory.py:67-91 | an observation touches or adds one entry, keeps sites distinct and every other entry |
| CacheHistory.TouchedEntry | cache_directory/directory.py:70-91 | the observed site's entry has the hits it had, or none, and one more exactly on a hit, the larger of its tokens and the prompt, the larger of the two sizes, and the new completion |
| CacheHistory.EntryStandsForPast | cache_directory/directory.py:64-96 | after any accesses an entry counts the hits among the observations of its key and site since it was added, has the largest prompt and size among them, and dates from the last |
| RunHistory.RunEntriesStandForPast | cluster_scheduler/local_scheduler.py:72 | in every run those observations are the admitted requests, in order: their prompt, 55% of their memory, their completion, and a hit exactly if they found something cached |
| CacheUpdate.CutKeepsBest | cache_directory/directory.py:92-94 | cutting to four keeps a well-formed bucket and removes only entries that rank no higher than any kept |
| CacheUpdate.TrimKeepsBest | cache_directory/directory.py:135-151 | trimming leaves exactly the limit or fewer, in place, and removes only entries that rank no higher than any left |
| CacheDirectory.UpdateShape | cache_directory/directory.py:64-96 | after an observation no bucket is empty, none exceeds four, sites are distinct; the size limit holds if and only if trimming did not raise |
| CacheDirectory.AlwaysInShape | cache_directory/directory.py:33-151 | that shape holds after any mix of observations and queries from an empty directory |
| CacheLimits.UpdateFits | cache_directory/directory.py:64-96 | an observation adds at most one entry, and with room for one more it cannot make trimming raise |
| CacheLimits.NeverRaisesIffFew | cache_directory/directory.py:135-151 | n requests to an empty directory never make trimming raise if and only if n is within the size limit, or the limit is zero |
| CacheDirectory.KVCacheDirectory.EvictStale | cache_directory/directory.py:33-39 | rewriting and deleting buckets in place equals one filter over the directory |
| CacheDirectory.KVCacheDirectory.Score | cache_directory/directory.py:41-62 | the loop computes the rounded score of the directory as it was before the call, and leaves it evicted |
| CacheDirectory.KVCacheDirectory.ReservedGb | cache_directory/directory.py:98-105 | the nested loops sum a site's entries of the evicted directory; never negative |
| CacheDirectory.KVCacheDirectory.PopLowest | cache_directory/directory.py:139-151 | popping the sorted list in place removes exactly its first items |
| CacheDirectory.KVCacheDirectory.Trim | cache_directory/directory.py:135-151 | raises exactly when over the limit with a tie of one key, and then changes nothing |
| CacheDirectory.KVCacheDirectory.ObserveResult | cache_directory/directory.py:64-96 | the new directory is the updated old one; success if and only if the limit is met |
| Numbers.Round4IsNearest | control_plane/service.py:167-172 | rounding gives the nearest multiple of a ten-thousandth, and the even one of two as near |
| Requests.RequestMemoryGb | nimbusmesh_x/types.py:46-53 | every request needs some memory, however many tokens are saved |
| Estimates.NeedPerToken | nimbusmesh_x/types.py:46-53 | memory is in proportion to prompt and generated tokens less those saved, at least one, by a factor of the model alone |
| Estimates.NeedMonotone | nimbusmesh_x/types.py:46-53 | no request needs more with more tokens saved, or with fewer tokens |
| Estimates.NeedByModel | nimbusmesh_x/types.py:21-28 | what 2048 tokens of each model need |
| Backends.EstimateLatencyMs | serving_backends/mock_backend.py:13-31 | both times are non-negative for non-negative network cost and congestion, whatever the rates and affinity |
| Backends.EstimateAsWritten | serving_backends/vllm_backend.py:22-29 | the estimate, which the model spreads into a sum, is base time times topology factor times congestion factor, plus the network's penalty, rounded, for all three backends |
| Estimates.PrefillMonotone | serving_backends/mock_backend.py:22-29 | prefill never rises with its own rate, the hit ratio or the affinity, never falls with the prompt, the network cost or the congestion, and depends on nothing else of the request or the rates |
| Estimates.DecodeMonotone | serving_backends/mock_backend.py:24-30 | decode never rises with its own rate or the affinity, never falls with the generated tokens or the congestion, and depends on nothing else: not on the prompt, the cache, the network or the rate of prefill |
| Estimates.MockFormula | serving_backends/mock_backend.py:22-31 | both times in full, base times written out |
| Estimates.VllmFormula | serving_backends/vllm_backend.py:22-29 | both times in full, base times written out |
| Estimates.TritonFormula | serving_backends/triton_backend.py:22-29 | both times in full, base times written out |
| Backends.EstimateDrift | serving_backends/vllm_backend.py:13-29 | rounding network cost and congestion moves an estimate by a bound linear in the unloaded times and the network weight |
| Backends.PredictionGap | control_plane/service.py:202-219 | the estimate differs from the actual total by an explicit bound, for all three backends, and not at all when the inputs need no rounding |
| Selection.ChooseIsLeast | policies/heuristics/simple.py:9-103 | each stateless policy picks an available candidate if there is one, and none of the usable ones has a smaller key |
| PolicyPicks.LeastQueuePick | policies/heuristics/simple.py:32-41 | no contender has less queue delay than the pick, or the same and a cheaper network, or the same of both and a cheaper accelerator |
| PolicyPicks.CacheAwarePick | policies/heuristics/simple.py:63-74 | the pick has the greatest hit ratio of all contenders, and among those the least delay, network cost and price |
| PolicyPicks.TopologyGreedyPick | policies/heuristics/simple.py:47-57 | a contender as good in every figure is equal in every figure; what others have in delay is made up for by network at 14, affinity at 110 and congestion at 80 |
| PolicyPicks.MultiObjectivePick | policies/heuristics/simple.py:80-103 | a contender as good in every figure is equal in every figure; nobody's other advantages outweigh its extra latency, at the weights of its class |
| PolicyPicks.SpreadPick | policies/heuristics/simple.py:112-123 | the pick has the least counter of all contenders, then the least delay, then the cheapest network |
| PolicyPicks.BanditPick | policies/rl/contextual_bandit.py:17-34 | of no contender the bandit expects more: mean reward, bonus over one more than its pulls, and what the candidate promises |
| PolicyPicks.NativePicks | scheduler_core_cpp/scheduler_core.cpp:20-47 | for both native selectors: no available candidate as good in every figure differs from the pick in any, none's other advantages outweigh its extra latency, and the two fall back to the least latency and to the first candidate |
| Selection.LeastAtIsFirst | policies/heuristics/simple.py:34-41 | min by key is the first candidate of least key, keys compared as tuples |
| Selection.ChooseCpp | scheduler_core_cpp/scheduler_core.cpp:16-47 | lowest index of least score among the available; else lowest index of least latency; -1 on an empty list |
| Selection.ChooseGrpc | grpc_layer/server.py:14-37 | lowest index of least score among the available; else the first candidate; -1 on an empty list |
| Selection.NativesAdmit | scheduler_core_cpp/scheduler_core.cpp:20-47 | either selector picks an available candidate whenever there is one |
| Selection.NativeSelectorsAgreeIff | grpc_layer/server.py:14-37 | given who is available and with which affinity, the C++ and gRPC selectors pick the same candidate whatever the other figures are, if and only if there is no choice, or some are available and share one affinity |
| PolicyState.RoundRobinPolicy.Choose | policies/heuristics/simple.py:22-26 | takes the usable candidate at the cursor, available if any is, and advances the cursor |
| PolicyState.FailureAwareSpreadPolicy.Choose | policies/heuristics/simple.py:112-123 | first least by counter, delay and cost; available if any is; raises only that pool's counter |
| PolicyState.FailureAwareSpreadPolicy.ObserveResult | policies/heuristics/simple.py:125-127 | afterwards the counter of the result's pool is never below zero, and one less than it was unless it is at zero; every other counter is as it was |
| PolicyState.ContextualBanditPolicy.Choose | policies/rl/contextual_bandit.py:17-34 | first greatest score among the usable; available if any is |
| PolicyState.BanditKeepsMeans | policies/rl/contextual_bandit.py:36-46 | the incremental update keeps the exact count and mean of all rewards observed at each pool, for every history |
| Routing.Pick | control_plane/service.py:222-229 | whatever policy is in force and whatever it remembers, its pick is one of the candidates, and available if any is |
| Routing.Router.ChooseCandidate | control_plane/service.py:222-229 | the gRPC router, then the C++ core, then the policy; whichever answers, the pick is available if any candidate is, and only the policy that was asked changes |
| ControlModel.NetworkCostIsRouted | control_plane/service.py:155 | a candidate's network cost beyond ingress is the route cost found in the graph built from the configuration |
| ControlModel.AffinityIsLookedUp | topology_service/graph.py:97-105 | a candidate's affinity is the one looked up in that graph |
| CandidateFacts.CandidateDescribes | control_plane/service.py:121-200 | each figure of a candidate is that of its pool: the delay is what a job placed now would wait, the headroom what jobs and cached prefixes leave, and so on, each rounded |
| CandidateFacts.CongestionByWindow | nimbusmesh_x/types.py:154-159 | congestion is the base with no windows, and any window multiplies it by its factor while it is open, both ends included, wherever it stands in the list |
| CandidateFacts.ReasonIsFirst | control_plane/service.py:138-153 | the reason of a rejection is the first failing check, in terms of failure windows, models, booked slots and the limit |
| CandidateFacts.FairnessPays | control_plane/service.py:272-278 | a tenant pays for the excess of its share of completions over its share of weights, and nothing without excess |
| ControlRun.AdmittedPoolSafe | control_plane/service.py:129-153 | admission checks the estimate that placement adds: memory in use plus held fits at admission, and the pool stays safe |
| ControlRun.ExecuteSafe | control_plane/service.py:231-270 | executing a request anywhere keeps every pool and the directory safe |
| ControlRun.RunSafe | simulators/engine.py:27-36 | in every state of every run, whoever chooses and in whatever order requests come, every pool is safe, its slots are even, no tight limit is exceeded, the directory is in shape and the books match from the latest arrival on, also after a raised exception |
| ControlRun.RunInStep | simulators/engine.py:27-36 | with requests in order, every pool is besides first come first started and without idling |
| RunTheorems.ReachablePool | nimbusmesh_x/types.py:122-140 | in every run, in any order, memory in use is the sum over jobs in flight and within capacity, no more jobs run at an instant than there are slots, and the books agree from the latest arrival on |
| RunTheorems.QueueLimitDichotomy | control_plane/service.py:148-150 | in every run, in any order, a limit above the slot count never rejects, and one at or below it never lets a job wait nor, from the latest arrival on, leaves more than the limit unfinished |
| RunTheorems.ReachablePoolIsBalanced | nimbusmesh_x/types.py:132-137 | in every run, in any order, from the latest arrival on Graham's bounds hold for every slot of a pool, no more is outstanding than was placed, and no job has waited, from when the latest so far came, longer than an even share of the earlier work |
| RunTheorems.ReachablePoolIsFair | cluster_scheduler/local_scheduler.py:27-45 | in every run with requests in order, jobs of a pool start first come first served, no slot idles while one waits, and no wait exceeds an even share of the earlier work |
| RunTheorems.ReachablePoolIsEfficient | cluster_scheduler/local_scheduler.py:27-45 | in every run no pool finishes a job later than 3 - 1/m times the end of any other schedule of its jobs, and with requests in order than 2 - 1/m times it |
| Reservations.StillFitsIff | control_plane/service.py:110-116 | in any run, after an admitted request whose entry displaces no other and until a job ends or an entry expires, memory in use and memory held still fit if and only if the headroom covered the need and the growth of the site's entry |
| Reservations.ReservationOvercommits | control_plane/service.py:148-153 | a run of one request after which they do not fit, so their sum is no invariant |
| RoutedRuns.RejectedIffAllClosed | control_plane/service.py:222-256 | in every reachable state, for every policy in any state and whichever native selectors answer, a request is rejected if and only if every pool is in a failure window of its cluster, both ends included, lacks its model, has as many slots booked past now as its limit, or lacks the memory once jobs and cached prefixes are taken off |
| RoutedRuns.RoutedRunIsRun | control_plane/service.py:202-229 | a routed run is the run of its own choices, so every theorem about runs holds of it |
| RoutedRuns.SpreadCountsRejections | policies/heuristics/simple.py:106-127 | in every run in which the policy chooses, the counter of a pool is the number of requests rejected there |
| RoutedRuns.CountsRejectionsIffAlwaysAsked | control_plane/service.py:222-229 | given which native selectors answer when, the counters count rejections in every run if and only if none ever answers |
| RoutedRuns.SpreadNeverClamps | policies/heuristics/simple.py:125-127 | when the policy chooses, no result finds its counter at zero, so the bound there is never met |
| RoutedRuns.SpreadIgnoresCountsUntilRejection | policies/heuristics/simple.py:112-123 | until a first rejection of a run the policy chooses by queue delay and network cost alone |
| RoutedRuns.BanditKeepsMeanRewards | policies/rl/contextual_bandit.py:36-46 | in every run, whoever chooses, the count and value of a pool are the number of requests admitted there and the exact mean of their rewards |
| RunTheorems.PredictionHolds | control_plane/service.py:156-219 | the decision's estimate is the result's total latency up to the rounding bound, and equals it when queue delay, network cost and congestion need no rounding |
| RunTheorems.FewNeverRaise | cache_directory/directory.py:135-151 | no run of at most as many requests as the directory's size limit ends in an exception |
| RaisingRuns.NoRunRaisesIffFew | cache_directory/directory.py:135-151 | no run of n requests ends in an exception, under any configuration with a given size limit, if and only if n does not exceed that limit, or it is zero: whoever chooses, and just as well when any one stateless policy does |
| RunTheorems.Conservation | simulators/engine.py:30-36 | over every run, in any order: submitted = completed + rejected per tenant in both sets of books, but for the one request an exception cut short; tenant, pool, decision and result totals are one number, but for its decision; misses never exceed completions |
| RunTheorems.ConservationOfFew | simulators/engine.py:30-36 | with no more requests than the directory's size limit each request has its result, and tenant and pool totals agree with none cut short |
| ResultFacts.ResultsReport | cluster_scheduler/local_scheduler.py:27-70 | in every run the j-th result is that of the j-th request on the pool chosen: its latency is completion less arrival, it met its limit exactly if that is no longer, tokens are charged at the pool's price and energy; one turned away took nothing |
| RunSums.BanditValuesAreEarned | policies/rl/contextual_bandit.py:36-46 | in every run a pool's value times its pulls is 120 for each limit met, less 108 for each missed, 60 for a full hit, less 0.08 a millisecond and 9 a dollar |
| RunSums.RunKeepsLatencies | control_plane/service.py:264-267 | in every run a tenant's total latency is that of its completed requests |
| Runtime.PoolRuntime.Refresh | nimbusmesh_x/types.py:122-130 | the loop keeps exactly the unfinished entries and their memory |
| Runtime.PoolRuntime.Occupy | cluster_scheduler/local_scheduler.py:27-48 | books the slot in place and nothing else |
| Runtime.PlaceRequest | cluster_scheduler/local_scheduler.py:18-73 | the pool, the result and the directory after a placement |
| Runtime.CongestionNow | nimbusmesh_x/types.py:154-159 | the loop multiplies in exactly the open windows |
| Runtime.ControlPlane.Refresh | control_plane/service.py:110-116 | every pool is brought to now against one evicted directory, in any order |
| Runtime.ControlPlane.BuildCandidates | control_plane/service.py:121-200 | each candidate is the one its pool would get if it were scored first, so order does not matter |
| Runtime.ControlPlane.Execute | control_plane/service.py:231-270 | the objects after a request, the policy among them, are the state machine's next state |
| Engine.Simulate | simulators/engine.py:27-36 | for every policy and any order of requests, the loop's final state is that of a routed run over them |
| Engine.ReportSound | nimbusmesh_x/metrics.py:46-102 | reported percentiles never cross; before rounding the fairness index of n tenants lies in [1/n, 1] and is 1 exactly for equal shares; as reported it is at least 1/n rounded, at most 1, and 1 exactly when within half a step of it |
| Engine.PercentileRanks | nimbusmesh_x/metrics.py:46-72 | a reported percentile is, up to rounding, the latency of the admitted request that q * (n - 1) others come before, or that share of the way to the next |
| Engine.SharesAre | nimbusmesh_x/metrics.py:68-70 | each tenant's share times what it submitted is what it had completed |
| Statistics.JainsIndexBounds | nimbusmesh_x/metrics.py:23-30 | between 1/n and 1 for non-negative values, and 1 exactly when all are equal |
| Statistics.GapIsRemainder | nimbusmesh_x/metrics.py:23-30 | n times the sum of squares exceeds the squared sum by a sum of squared differences |
| Statistics.QuantilePermutes | nimbusmesh_x/metrics.py:11-20 | a quantile depends on the values, not on their order |
| Statistics.QuantileMonotone | nimbusmesh_x/metrics.py:11-20 | quantiles are monotone in q across the interpolation breakpoints |
| Statistics.QuantileInterpolates | nimbusmesh_x/metrics.py:11-20 | a quantile is the value of its rank, or that share of the way to the next; ranks are counts over the values, with no sorting in the statement |
| Statistics.IndexCountsServed | nimbusmesh_x/metrics.py:23-30 | where k of n tenants get one share and the others nothing, the index is k/n |
| Statistics.QuantileRange | nimbusmesh_x/metrics.py:11-20 | every quantile lies between the least and the greatest value, which are the quantiles at 0 and 1 |

## Left out

- Backends.PredictionGap: exactness is proved from inputs that need no rounding, not characterised; roundings can also cancel.
- Reservations.StillFitsIff: is about entries that displace no other; when a bucket is cut or the directory trimmed, what a site holds can also shrink.
- Selection.ChooseCpp: takes one list of candidates in place of eight parallel arrays, and an optional score in place of infinity.
- Topology.ShortestPathCost: the heap is a multiset from which an entry of least cost is popped; ties are left open rather than broken by node id.
- Runtime.ControlPlane.Refresh: the nested loops over clusters and their pools are one loop over pools, each carrying its cluster's settings.
- Runtime.ControlPlane.Execute: finds the chosen pool by the position of the pick among the candidates; the program finds it by cluster and pool id, which are taken to be distinct.
- Routing.Router: one class holds the policies that keep state and dispatches on a name, where the program holds one object of an abstract class.
- Cache entries are values inside the directory's own lists, so aliasing of an entry is not modelled; nothing else holds one.
- Cache keys are numbers in the order of their strings, and node ids are structured; hashing of prefixes and collisions of joined ids are not modelled.
- IEEE-754 rounding and NaN: arithmetic is exact.
- Redis and PostgreSQL mirrors, gRPC transport, ctypes, CUDA, HTTP backends, logging, exporters and the Azure overlay: input and output only.
- Workload generation: requests are an arbitrary list.
- The remaining averages and totals of the report, the directory's offload advice and snapshots: single expressions with nothing to relate.
- The PPO and GNN scaffolds: further policies of the same least-key form.
