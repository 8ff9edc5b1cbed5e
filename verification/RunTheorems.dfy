// What every run of the engine promises: admission is complete, memory is safe, predictions
// are exact up to rounding, and every request is accounted for.
module RunTheorems {
  import opened Numbers
  import opened Dicts
  import opened Requests
  import opened Backends
  import opened Selection
  import opened ControlModel
  import opened ControlRun
  import Slots = PoolModel
  import LoadBounds
  import BusyPeriods
  import GreedyFactor
  import CacheModel
  import CacheUpdate
  import CacheDirectory
  import CacheLimits
  import QueueLimit

  // ----- every reachable state

  // In whatever order requests come and whoever chooses: a pool's memory in use is the sum over
  // the jobs it counts as in flight and never exceeds its capacity; jobs of one slot never
  // overlap, so at no instant do more run than there are slots; and its two books agree at
  // every time from the latest arrival on.
  lemma ReachablePool(cfg: Config, trace: Trace, i: nat, now: real, t: real)
    requires GoodConfig(cfg) && ValidTrace(cfg, trace) && i < |cfg.pools| && LatestArrival(trace) <= now
    ensures var p := Run(cfg, trace).sys.pools[i];
            && p.active == Slots.Memory(p.inflight) <= cfg.pools[i].memoryGb
            && Slots.Disjoint(p.jobs)
            && Slots.Count(p.jobs, Slots.RunningAt(t)) <= cfg.pools[i].parallelSlots
            && Slots.InflightCount(p.slots, now)
               == MinNat(cfg.pools[i].parallelSlots, |Slots.Unfinished(Slots.Log(p.jobs), now)|)
               == MinNat(cfg.pools[i].parallelSlots, |Slots.Unfinished(p.inflight, now)|)
  {
    var p := Run(cfg, trace).sys.pools[i];
    RunSafe(cfg, trace);
    assert PoolSafe(cfg.pools[i], p) && PoolUpTo(p, LatestArrival(trace));
    Slots.NeverMoreThanSlots(p, t);
    Slots.BooksAgree(p, now);
    assert Slots.Unfinished(p.inflight, now) == Slots.Unfinished(Slots.Log(p.jobs), now);
  }

  lemma LooseLimitAdmits(s: PoolSpec, slots: seq<real>, headroom: real, r: Request, saved: nat, now: real)
    requires |slots| < s.queueLimit
    ensures Admission(s, slots, headroom, r, saved, now) != Rejected(QueueLimit)
  {
  }

  lemma LooseLimitNeverRejects(cfg: Config, sys: System, r: Request, i: nat)
    requires GoodConfig(cfg) && i < |cfg.pools| == |sys.pools| && Slotted(sys)
    requires |sys.pools[i].slots| < cfg.pools[i].queueLimit
    ensures CandidateFor(cfg, Prepared(cfg, sys, r), r, r.arrival, i).status != Rejected(QueueLimit)
  {
    var s, p := cfg.pools[i], Prepared(cfg, sys, r).pools[i];
    LooseLimitAdmits(s, p.slots, Slots.Headroom(s.memoryGb, p.active, p.reserved), r,
                     CandidateFor(cfg, Prepared(cfg, sys, r), r, r.arrival, i).savedTokens, r.arrival);
  }

  lemma ReachedSlots(cfg: Config, trace: Trace, i: nat, now: real) returns (p: Slots.Pool)
    requires GoodConfig(cfg) && ValidTrace(cfg, trace) && i < |cfg.pools| && LatestArrival(trace) <= now
    ensures p == Run(cfg, trace).sys.pools[i] && PoolSafe(cfg.pools[i], p)
    ensures Slots.PeakArrival(p.jobs) <= now && LoadBounds.EvenAt(p, now)
  {
    p := Run(cfg, trace).sys.pools[i];
    RunSafe(cfg, trace);
    assert PoolSafe(cfg.pools[i], p) && PoolUpTo(p, LatestArrival(trace));
    Slots.PeakAtMost(p.jobs, LatestArrival(trace));
    LoadBounds.TimeKeepsEven(p, Slots.PeakArrival(p.jobs), now);
  }

  // With a queue limit above its slot count, no pool ever turns a request away for its queue;
  // with one at or below it, in whatever order requests come, no request it admitted has
  // waited, and from the latest arrival on no more than the limit are unfinished.
  lemma QueueLimitDichotomy(cfg: Config, trace: Trace, r: Request, i: nat, now: real)
    requires GoodConfig(cfg) && ValidTrace(cfg, trace) && i < |cfg.pools| && LatestArrival(trace) <= now
    ensures cfg.pools[i].queueLimit > cfg.pools[i].parallelSlots ==>
              CandidateFor(cfg, Prepared(cfg, Run(cfg, trace).sys, r), r, r.arrival, i).status != Rejected(QueueLimit)
    ensures cfg.pools[i].queueLimit <= cfg.pools[i].parallelSlots ==>
              var jobs := Run(cfg, trace).sys.pools[i].jobs;
              QueueLimit.NoWait(jobs) && QueueLimit.FewUnfinished(jobs, cfg.pools[i].queueLimit, now)
  {
    var p := ReachedSlots(cfg, trace, i, now);
    if cfg.pools[i].queueLimit > cfg.pools[i].parallelSlots {
      LooseLimitNeverRejects(cfg, Run(cfg, trace).sys, r, i);
    } else {
      QueueLimit.LaterFewUnfinished(p.jobs, cfg.pools[i].queueLimit, Slots.PeakArrival(p.jobs), now);
    }
  }

  // In whatever order requests come, from the latest arrival on Graham's bounds hold for every
  // slot of a pool and no more is outstanding than was placed; and no job has waited, from when
  // the latest so far came, longer than an even share of the work before it.
  lemma ReachablePoolIsBalanced(cfg: Config, trace: Trace, i: nat, now: real)
    requires GoodConfig(cfg) && ValidTrace(cfg, trace) && i < |cfg.pools| && LatestArrival(trace) <= now
    ensures var p := Run(cfg, trace).sys.pools[i];
            && (forall a :: 0 <= a < |p.slots| ==> LoadBounds.Graham(p, now, a))
            && LoadBounds.TotalResidual(p.slots, now) <= LoadBounds.Work(p.jobs)
            && LoadBounds.LateWaits(p.jobs, |p.slots|)
  {
    var p := ReachedSlots(cfg, trace, i, now);
    forall a | 0 <= a < |p.slots| ensures LoadBounds.Graham(p, now, a) {
      LoadBounds.GreedyLoadBounds(p, now, a);
    }
  }

  lemma ReachedInOrder(cfg: Config, trace: Trace, i: nat)
    requires GoodConfig(cfg) && ValidTrace(cfg, trace) && InOrder(trace) && i < |cfg.pools|
    ensures Slots.InStep(Run(cfg, trace).sys.pools[i], LastArrival(trace))
  {
    RunInStep(cfg, trace);
  }

  // With requests in order: first come first started, no slot idles while a job waits, and no
  // job waits longer than an even share of the earlier work.
  lemma ReachablePoolIsFair(cfg: Config, trace: Trace, i: nat)
    requires GoodConfig(cfg) && ValidTrace(cfg, trace) && InOrder(trace) && i < |cfg.pools|
    ensures var jobs, m := Run(cfg, trace).sys.pools[i].jobs, cfg.pools[i].parallelSlots;
            Slots.Fifo(jobs) && Slots.NoIdling(jobs, m) && LoadBounds.FairWaits(jobs, m)
  {
    var p := ReachedSlots(cfg, trace, i, LatestArrival(trace));
    ReachedInOrder(cfg, trace, i);
    LoadBounds.OrderedIsFair(p.jobs, cfg.pools[i].parallelSlots, LastArrival(trace));
  }

  // No pool finishes a job later than 3 - 1/m times the end of any other schedule of its jobs,
  // nor, with requests in order, later than 2 - 1/m times it.
  lemma ReachablePoolIsEfficient(cfg: Config, trace: Trace, i: nat)
    requires GoodConfig(cfg) && ValidTrace(cfg, trace) && i < |cfg.pools|
    ensures var jobs, m := Run(cfg, trace).sys.pools[i].jobs, cfg.pools[i].parallelSlots;
            && GreedyFactor.WithinFactor(jobs, m, GreedyFactor.AnyOrderFactor(m))
            && (InOrder(trace) ==> GreedyFactor.WithinFactor(jobs, m, GreedyFactor.InOrderFactor(m)))
  {
    var p := ReachedSlots(cfg, trace, i, LatestArrival(trace));
    GreedyFactor.LateWaitsHold(p, GreedyFactor.AnyOrderFactor(|p.slots|));
    if InOrder(trace) {
      ReachedInOrder(cfg, trace, i);
      BusyPeriods.ReplayBusy(p, LastArrival(trace));
      GreedyFactor.BusyWaitsHold(p, GreedyFactor.InOrderFactor(|p.slots|));
    }
  }

  // ----- when a run can raise

  lemma PlacedUpdates(cfg: Config, sys: System, r: Request, c: Candidate, now: real, i: nat)
    returns (o: CacheUpdate.Observation)
    requires i < |cfg.pools| == |sys.pools| && |sys.pools[i].slots| > 0
    ensures o == ObservationOf(Placement(cfg.pools[i], sys.pools[i], r, c, now)) && o.sizeGb >= 0.0
    ensures var after := Placed(cfg, sys, r, c, now, i);
            && after.sys.cache == CacheDirectory.Update(sys.cache, o, cfg.maxEntries)
            && (after.Raised? <==> CacheDirectory.TrimRaises(CacheUpdate.Observed(sys.cache, o), cfg.maxEntries))
  {
    o := ObservationOf(Placement(cfg.pools[i], sys.pools[i], r, c, now));
    PlacedPools(cfg, sys, r, c, now, i);
  }

  lemma PlacedNeverRaises(cfg: Config, sys: System, r: Request, c: Candidate, now: real, i: nat, n: nat)
    requires i < |cfg.pools| == |sys.pools| && |sys.pools[i].slots| > 0
    requires CacheModel.Shape(sys.cache) && CacheLimits.Fits(sys.cache, n, cfg.maxEntries)
    requires n < cfg.maxEntries || cfg.maxEntries == 0
    ensures var o := Placed(cfg, sys, r, c, now, i);
            o.Done? && CacheLimits.Fits(o.sys.cache, n + 1, cfg.maxEntries)
  {
    var o := PlacedUpdates(cfg, sys, r, c, now, i);
    CacheLimits.UpdateFits(sys.cache, o, n, cfg.maxEntries);
  }

  lemma ExecuteNeverRaises(cfg: Config, sys: System, r: Request, now: real, i: nat, n: nat)
    requires GoodConfig(cfg) && i < |cfg.pools| == |sys.pools| && |sys.pools[i].slots| > 0
    requires CacheModel.Shape(sys.cache) && CacheLimits.Fits(sys.cache, n, cfg.maxEntries)
    requires n < cfg.maxEntries || cfg.maxEntries == 0
    ensures var o := Execute(cfg, sys, r, now, i);
            o.Done? && CacheLimits.Fits(o.sys.cache, n + 1, cfg.maxEntries)
  {
    var evicted := sys.(cache := CacheModel.Evict(sys.cache, now, cfg.ttl));
    CacheLimits.KeepShrinks(sys.cache, CacheModel.Fresh(now, cfg.ttl));
    CacheModel.KeepShape(sys.cache, CacheModel.Fresh(now, cfg.ttl));
    PlacedNeverRaises(cfg, evicted, r, CandidateFor(cfg, sys, r, now, i), now, i, n);
  }

  // No run of at most as many requests as the directory has room for entries ends in an
  // exception, nor does any run if there is room for none.
  lemma {:induction false} FewNeverRaise(cfg: Config, trace: Trace)
    requires GoodConfig(cfg) && ValidTrace(cfg, trace) && (|trace| <= cfg.maxEntries || cfg.maxEntries == 0)
    ensures !Run(cfg, trace).raised
    ensures CacheLimits.Fits(Run(cfg, trace).sys.cache, |trace|, cfg.maxEntries)
  {
    if |trace| > 0 {
      var init, r, choice := trace[..|trace| - 1], trace[|trace| - 1].0, trace[|trace| - 1].1;
      FewNeverRaise(cfg, init);
      RunSafe(cfg, init);
      PreparedSafe(cfg, Run(cfg, init).sys, r);
      CacheLimits.KeepShrinks(Run(cfg, init).sys.cache, CacheModel.Fresh(r.arrival, cfg.ttl));
      ExecuteNeverRaises(cfg, Prepared(cfg, Run(cfg, init).sys, r), r, r.arrival, choice, |init|);
    }
  }

  // ----- one step

  // Both latencies of a placement, from one queue delay and two estimates.
  lemma PlacementLatencies(s: PoolSpec, p: Slots.Pool, headroom: real, fairness: real, r: Request, now: real,
                           hitRatio: real, saved: nat)
    requires GoodSpec(s) && |p.slots| > 0
    ensures var c := Assemble(s, p.slots, headroom, p.congestion, fairness, r, now, hitRatio, saved);
            var x := Placement(s, p, r, c, now);
            var queue, network := Slots.QueueDelayMs(p.slots, now), NetworkCost(s);
            var projected := EstimateLatencyMs(s.backend, s.rates, r, hitRatio, c.affinity, network, p.congestion);
            var actual := EstimateLatencyMs(s.backend, s.rates, r, hitRatio, c.affinity, Round4(network), Round4(p.congestion));
            x.estimatedMs == EstimatedMs(queue, projected) && x.totalMs == ActualMs(queue, actual)
  {
    var c := Assemble(s, p.slots, headroom, p.congestion, fairness, r, now, hitRatio, saved);
    var job := Slots.NextJob(p, now, ServiceTime(s, r, c), RequestMemoryGb(r, c.savedTokens));
    assert Max(0.0, job.start - now) == Max(0.0, p.slots[Slots.Earliest(p.slots)] - now);
  }

  // The estimate in the decision is the latency of the result, up to an explicit rounding
  // bound; it is exact when queue delay, network cost and congestion need no rounding.
  lemma PredictionHolds(cfg: Config, sys: System, r: Request, now: real, k: nat)
    requires GoodConfig(cfg) && k < |cfg.pools| == |sys.pools| && |sys.pools[k].slots| > 0
    ensures var s, p, c := cfg.pools[k], sys.pools[k], CandidateFor(cfg, sys, r, now, k);
            var x := Placement(s, p, r, c, now);
            var bound := GapBound(s.backend, s.rates, r, c.hitRatio, c.affinity);
            var queue := Slots.QueueDelayMs(p.slots, now);
            && -bound <= x.estimatedMs - x.totalMs <= bound
            && (Round4(NetworkCost(s)) == NetworkCost(s) && Round4(p.congestion) == p.congestion && Round4(queue) == queue
                ==> x.estimatedMs == x.totalMs)
  {
    var s, p, c := cfg.pools[k], sys.pools[k], CandidateFor(cfg, sys, r, now, k);
    PlacementLatencies(s, p, Slots.Headroom(s.memoryGb, p.active, p.reserved), c.fairness, r, now, c.hitRatio, c.savedTokens);
    PredictionGap(s.backend, s.rates, r, c.hitRatio, c.affinity, NetworkCost(s), p.congestion, Slots.QueueDelayMs(p.slots, now));
  }

  // ----- conservation

  function Tally(results: seq<Result>, p: Result -> bool): nat {
    if |results| == 0 then 0
    else Tally(results[..|results| - 1], p) + (if p(results[|results| - 1]) then 1 else 0)
  }

  function Admitted(): Result -> bool {
    (x: Result) => x.admitted
  }

  function Of(tenantId: string): Result -> bool {
    (x: Result) => x.request.tenantId == tenantId
  }

  function CompletedOf(tenantId: string): Result -> bool {
    (x: Result) => x.request.tenantId == tenantId && x.admitted
  }

  function RejectedOf(tenantId: string): Result -> bool {
    (x: Result) => x.request.tenantId == tenantId && !x.admitted
  }

  function MissedOf(tenantId: string): Result -> bool {
    (x: Result) => x.request.tenantId == tenantId && x.admitted && !x.slaMet
  }

  lemma TallyAppend(results: seq<Result>, x: Result, p: Result -> bool)
    ensures Tally(results + [x], p) == Tally(results, p) + (if p(x) then 1 else 0)
  {
    assert (results + [x])[..|results|] == results;
  }

  function SumPools(pools: seq<Slots.Pool>, f: Slots.Pool -> nat): nat {
    if |pools| == 0 then 0 else SumPools(pools[..|pools| - 1], f) + f(pools[|pools| - 1])
  }

  function DecisionsOf(): Slots.Pool -> nat {
    (p: Slots.Pool) => p.decisions
  }

  function CompletedIn(): Slots.Pool -> nat {
    (p: Slots.Pool) => p.completed
  }

  lemma {:induction false} SumPoolsUpdate(pools: seq<Slots.Pool>, i: nat, q: Slots.Pool, f: Slots.Pool -> nat)
    requires i < |pools|
    ensures SumPools(pools[i := q], f) + f(pools[i]) == SumPools(pools, f) + f(q)
  {
    var n := |pools| - 1;
    if i == n {
      assert pools[i := q][..n] == pools[..n];
    } else {
      SumPoolsUpdate(pools[..n], i, q, f);
      assert pools[i := q][..n] == pools[..n][i := q];
    }
  }

  lemma {:induction false} SumPoolsSame(a: seq<Slots.Pool>, b: seq<Slots.Pool>, f: Slots.Pool -> nat)
    requires |a| == |b| && forall i :: 0 <= i < |a| ==> f(a[i]) == f(b[i])
    ensures SumPools(a, f) == SumPools(b, f)
  {
    if |a| > 0 {
      SumPoolsSame(a[..|a| - 1], b[..|b| - 1], f);
    }
  }

  // Both books of tenants, and the results, agree on one tenant.
  ghost predicate TenantBalanced(sys: System, m: Metrics, t: string) {
    var stats := Get(sys.tenants, t, NO_STATS);
    && stats.submitted == Get(m.submitted, t, 0) == Tally(m.results, Of(t))
    && stats.completed == Get(m.completed, t, 0) == Tally(m.results, CompletedOf(t))
    && stats.slaMisses == Tally(m.results, MissedOf(t))
  }

  ghost predicate TotalsBalanced(sys: System, m: Metrics) {
    && SumBy(sys.tenants, Completed()) == Tally(m.results, Admitted())
    && SumPools(sys.pools, CompletedIn()) == Tally(m.results, Admitted())
    && SumPools(sys.pools, DecisionsOf()) == Tally(m.results, Admitted())
  }

  lemma NotedTenant(sys: System, m: Metrics, tenantId: string, t: string)
    requires TenantBalanced(sys, m, t)
    ensures var stats := Get(NoteSubmission(sys, tenantId).tenants, t, NO_STATS);
            && stats == (if t == tenantId then Noted(Get(sys.tenants, t, NO_STATS)) else Get(sys.tenants, t, NO_STATS))
            && stats.submitted == Get(Submitted(m, tenantId).submitted, t, 0)
  {
    PutGet(sys.tenants, tenantId, Noted(Get(sys.tenants, tenantId, NO_STATS)), t, NO_STATS);
    PutGet(m.submitted, tenantId, Get(m.submitted, tenantId, 0) + 1, t, 0);
  }

  lemma NotedTotals(sys: System, tenantId: string)
    ensures SumBy(NoteSubmission(sys, tenantId).tenants, Completed()) == SumBy(sys.tenants, Completed())
  {
    PutSum(sys.tenants, tenantId, Noted(Get(sys.tenants, tenantId, NO_STATS)), Completed(), NO_STATS);
  }

  lemma RefreshTotals(cfg: Config, sys: System, r: Request)
    requires |sys.pools| == |cfg.pools|
    ensures SumPools(Prepared(cfg, sys, r).pools, CompletedIn()) == SumPools(sys.pools, CompletedIn())
    ensures SumPools(Prepared(cfg, sys, r).pools, DecisionsOf()) == SumPools(sys.pools, DecisionsOf())
  {
    SumPoolsSame(Prepared(cfg, sys, r).pools, sys.pools, CompletedIn());
    SumPoolsSame(Prepared(cfg, sys, r).pools, sys.pools, DecisionsOf());
  }

  // The tenants' statistics after a finished execution.
  function TenantsAfter(tenants: Dict<string, TenantStats>, x: Result): Dict<string, TenantStats> {
    if x.admitted
    then Put(tenants, x.request.tenantId, Served(Get(tenants, x.request.tenantId, NO_STATS), x))
    else tenants
  }

  lemma ExecuteAccounts(cfg: Config, sys: System, r: Request, now: real, i: nat)
    requires GoodConfig(cfg) && i < |cfg.pools| == |sys.pools| && |sys.pools[i].slots| > 0
    requires Execute(cfg, sys, r, now, i).Done?
    ensures var after := Execute(cfg, sys, r, now, i);
            && after.result.request == r
            && after.sys.tenants == TenantsAfter(sys.tenants, after.result)
            && after.sys.pools == sys.pools[i := after.sys.pools[i]]
            && var add := if after.result.admitted then 1 else 0;
               && after.sys.pools[i].completed == sys.pools[i].completed + add
               && after.sys.pools[i].decisions == sys.pools[i].decisions + add
  {
  }

  lemma RecordedTenant(tenants: Dict<string, TenantStats>, m: Metrics, x: Result, t: string)
    requires var stats := Get(tenants, t, NO_STATS);
             && stats.completed == Get(m.completed, t, 0) == Tally(m.results, CompletedOf(t))
             && stats.slaMisses == Tally(m.results, MissedOf(t))
             && stats.submitted == Get(m.submitted, t, 0)
             && stats.submitted == Tally(m.results, Of(t)) + (if x.request.tenantId == t then 1 else 0)
    ensures TenantBalanced(System([], [], TenantsAfter(tenants, x)), Recorded(m, x), t)
  {
    var who := x.request.tenantId;
    PutGet(tenants, who, Served(Get(tenants, who, NO_STATS), x), t, NO_STATS);
    PutGet(m.completed, who, Get(m.completed, who, 0) + (if x.admitted then 1 else 0), t, 0);
    TallyAppend(m.results, x, Of(t));
    TallyAppend(m.results, x, CompletedOf(t));
    TallyAppend(m.results, x, MissedOf(t));
  }

  lemma StepBalancesTenant(cfg: Config, st: RunState, r: Request, choice: nat, t: string)
    requires GoodConfig(cfg) && choice < |cfg.pools| == |st.sys.pools| && Slotted(st.sys)
    requires !Step(cfg, st, r, choice).raised && TenantBalanced(st.sys, st.metrics, t)
    ensures TenantBalanced(Step(cfg, st, r, choice).sys, Step(cfg, st, r, choice).metrics, t)
  {
    var prepared, m := Prepared(cfg, st.sys, r), Submitted(st.metrics, r.tenantId);
    ExecuteAccounts(cfg, prepared, r, r.arrival, choice);
    NotedTenant(Refresh(cfg, st.sys, r.arrival), st.metrics, r.tenantId, t);
    RecordedTenant(prepared.tenants, m, Execute(cfg, prepared, r, r.arrival, choice).result, t);
  }

  lemma ServedTotal(tenants: Dict<string, TenantStats>, x: Result)
    ensures SumBy(TenantsAfter(tenants, x), Completed())
         == SumBy(tenants, Completed()) + (if x.admitted then 1 else 0)
  {
    var who := x.request.tenantId;
    PutSum(tenants, who, Served(Get(tenants, who, NO_STATS), x), Completed(), NO_STATS);
  }

  lemma RecordedTotals(sys: System, m: Metrics, after: System, x: Result, i: nat)
    requires i < |sys.pools| == |after.pools| && TotalsBalanced(sys, m)
    requires after.tenants == TenantsAfter(sys.tenants, x) && after.pools == sys.pools[i := after.pools[i]]
    requires var add := if x.admitted then 1 else 0;
             && after.pools[i].completed == sys.pools[i].completed + add
             && after.pools[i].decisions == sys.pools[i].decisions + add
    ensures TotalsBalanced(after, Recorded(m, x))
  {
    ServedTotal(sys.tenants, x);
    SumPoolsUpdate(sys.pools, i, after.pools[i], CompletedIn());
    SumPoolsUpdate(sys.pools, i, after.pools[i], DecisionsOf());
    TallyAppend(m.results, x, Admitted());
  }

  lemma PreparedTotals(cfg: Config, sys: System, m: Metrics, r: Request)
    requires |sys.pools| == |cfg.pools| && TotalsBalanced(sys, m)
    ensures TotalsBalanced(Prepared(cfg, sys, r), Submitted(m, r.tenantId))
  {
    NotedTotals(Refresh(cfg, sys, r.arrival), r.tenantId);
    RefreshTotals(cfg, sys, r);
  }

  lemma StepBalancesTotals(cfg: Config, st: RunState, r: Request, choice: nat)
    requires GoodConfig(cfg) && choice < |cfg.pools| == |st.sys.pools| && Slotted(st.sys)
    requires !Step(cfg, st, r, choice).raised && TotalsBalanced(st.sys, st.metrics)
    ensures TotalsBalanced(Step(cfg, st, r, choice).sys, Step(cfg, st, r, choice).metrics)
  {
    var prepared := Prepared(cfg, st.sys, r);
    var after := Execute(cfg, prepared, r, r.arrival, choice);
    PreparedTotals(cfg, st.sys, st.metrics, r);
    ExecuteAccounts(cfg, prepared, r, r.arrival, choice);
    RecordedTotals(prepared, Submitted(st.metrics, r.tenantId), after.sys, after.result, choice);
  }

  lemma {:induction false} StartTotals(cfg: Config, n: nat)
    requires n <= |cfg.pools|
    ensures SumPools(Start(cfg).pools[..n], CompletedIn()) == 0 == SumPools(Start(cfg).pools[..n], DecisionsOf())
  {
    if n > 0 {
      StartTotals(cfg, n - 1);
      assert Start(cfg).pools[..n][..n - 1] == Start(cfg).pools[..n - 1];
    }
  }

  lemma ExecuteRaises(cfg: Config, sys: System, r: Request, now: real, i: nat)
    requires GoodConfig(cfg) && i < |cfg.pools| == |sys.pools| && |sys.pools[i].slots| > 0
    requires Execute(cfg, sys, r, now, i).Raised?
    ensures var after := Execute(cfg, sys, r, now, i);
            && after.sys.tenants == sys.tenants && after.sys.pools == sys.pools[i := after.sys.pools[i]]
            && after.sys.pools[i].completed == sys.pools[i].completed
            && after.sys.pools[i].decisions == sys.pools[i].decisions + 1
  {
  }

  // One request was in the middle of its placement when a run raised: `cut` counts it.
  ghost predicate TenantAccounted(sys: System, m: Metrics, t: string, cut: nat) {
    var stats := Get(sys.tenants, t, NO_STATS);
    && stats.submitted == Get(m.submitted, t, 0) == Tally(m.results, Of(t)) + cut
    && stats.completed == Get(m.completed, t, 0) == Tally(m.results, CompletedOf(t))
    && stats.slaMisses == Tally(m.results, MissedOf(t))
  }

  ghost predicate TotalsAccounted(sys: System, m: Metrics, cut: nat) {
    && SumBy(sys.tenants, Completed()) == Tally(m.results, Admitted())
    && SumPools(sys.pools, CompletedIn()) == Tally(m.results, Admitted())
    && SumPools(sys.pools, DecisionsOf()) == Tally(m.results, Admitted()) + cut
  }

  lemma RaiseCutsTenant(cfg: Config, st: RunState, r: Request, choice: nat, t: string)
    requires GoodConfig(cfg) && choice < |cfg.pools| == |st.sys.pools| && Slotted(st.sys)
    requires Step(cfg, st, r, choice).raised && TenantBalanced(st.sys, st.metrics, t)
    ensures var st' := Step(cfg, st, r, choice);
            st'.metrics.results == st.metrics.results
            && TenantAccounted(st'.sys, st'.metrics, t, if r.tenantId == t then 1 else 0)
  {
    ExecuteRaises(cfg, Prepared(cfg, st.sys, r), r, r.arrival, choice);
    NotedTenant(Refresh(cfg, st.sys, r.arrival), st.metrics, r.tenantId, t);
  }

  lemma RaiseCutsTotals(cfg: Config, st: RunState, r: Request, choice: nat)
    requires GoodConfig(cfg) && choice < |cfg.pools| == |st.sys.pools| && Slotted(st.sys)
    requires Step(cfg, st, r, choice).raised && TotalsBalanced(st.sys, st.metrics)
    ensures TotalsAccounted(Step(cfg, st, r, choice).sys, Step(cfg, st, r, choice).metrics, 1)
  {
    var prepared := Prepared(cfg, st.sys, r);
    var after := Execute(cfg, prepared, r, r.arrival, choice);
    ExecuteRaises(cfg, prepared, r, r.arrival, choice);
    NotedTotals(Refresh(cfg, st.sys, r.arrival), r.tenantId);
    RefreshTotals(cfg, st.sys, r);
    SumPoolsUpdate(prepared.pools, choice, after.sys.pools[choice], CompletedIn());
    SumPoolsUpdate(prepared.pools, choice, after.sys.pools[choice], DecisionsOf());
  }

  // Whether the request whose placement raised, the first without a result, is this tenant's.
  function Cut(st: RunState, trace: Trace, t: string): nat {
    var n := |st.metrics.results|;
    if st.raised && n < |trace| && trace[n].0.tenantId == t then 1 else 0
  }

  ghost predicate Accounted(st: RunState, trace: Trace, t: string) {
    && (if st.raised then |st.metrics.results| < |trace| else |st.metrics.results| == |trace|)
    && TenantAccounted(st.sys, st.metrics, t, Cut(st, trace, t))
    && TotalsAccounted(st.sys, st.metrics, if st.raised then 1 else 0)
  }

  lemma StepAccounted(cfg: Config, st: RunState, trace: Trace, r: Request, choice: nat, t: string)
    requires GoodConfig(cfg) && choice < |cfg.pools| == |st.sys.pools| && Slotted(st.sys)
    requires !st.raised && Accounted(st, trace, t)
    ensures Accounted(Step(cfg, st, r, choice), trace + [(r, choice)], t)
  {
    if Step(cfg, st, r, choice).raised {
      RaiseCutsTenant(cfg, st, r, choice, t);
      RaiseCutsTotals(cfg, st, r, choice);
    } else {
      StepBalancesTenant(cfg, st, r, choice, t);
      StepBalancesTotals(cfg, st, r, choice);
    }
  }

  lemma StartAccounted(cfg: Config, t: string)
    ensures Accounted(RunState(Start(cfg), Metrics([], [], []), false), [], t)
  {
    StartTotals(cfg, |cfg.pools|);
    assert Start(cfg).pools[..|cfg.pools|] == Start(cfg).pools;
  }

  lemma LongerAccounted(st: RunState, trace: Trace, last: (Request, nat), t: string)
    requires st.raised && Accounted(st, trace, t)
    ensures Accounted(st, trace + [last], t)
  {
    assert Cut(st, trace + [last], t) == Cut(st, trace, t);
  }

  lemma {:induction false} RunAccounted(cfg: Config, trace: Trace, t: string)
    requires GoodConfig(cfg) && ValidTrace(cfg, trace)
    ensures Accounted(Run(cfg, trace), trace, t)
  {
    if |trace| == 0 {
      StartAccounted(cfg, t);
    } else {
      var init, last := trace[..|trace| - 1], trace[|trace| - 1];
      assert trace == init + [last];
      RunAccounted(cfg, init, t);
      if Run(cfg, init).raised {
        LongerAccounted(Run(cfg, init), init, last, t);
      } else {
        StepAccounted(cfg, Run(cfg, init), init, last.0, last.1, t);
      }
    }
  }

  lemma {:induction false} TallySplits(results: seq<Result>, t: string)
    ensures Tally(results, Of(t)) == Tally(results, CompletedOf(t)) + Tally(results, RejectedOf(t))
    ensures Tally(results, MissedOf(t)) <= Tally(results, CompletedOf(t))
  {
    if |results| > 0 {
      TallySplits(results[..|results| - 1], t);
    }
  }

  // Over every run, in any order of requests: each request has one result, up to the one an
  // exception cut short, if any; what a tenant submitted is what it had completed plus what it
  // had rejected plus that one, in both sets of books; and the totals over tenants, over pools
  // and over results are one number, but for the decision that was cut short.
  lemma Conservation(cfg: Config, trace: Trace, t: string)
    requires GoodConfig(cfg) && ValidTrace(cfg, trace)
    ensures var st := Run(cfg, trace);
            var stats := Get(st.sys.tenants, t, NO_STATS);
            && (if st.raised then |st.metrics.results| < |trace| else |st.metrics.results| == |trace|)
            && stats.submitted
               == stats.completed + Tally(st.metrics.results, RejectedOf(t)) + Cut(st, trace, t)
            && Get(st.metrics.submitted, t, 0) == stats.submitted && Get(st.metrics.completed, t, 0) == stats.completed
            && stats.slaMisses <= stats.completed
            && SumBy(st.sys.tenants, Completed()) == SumPools(st.sys.pools, CompletedIn())
            && SumBy(st.sys.tenants, Completed()) == Tally(st.metrics.results, Admitted())
            && SumPools(st.sys.pools, DecisionsOf())
               == SumBy(st.sys.tenants, Completed()) + (if st.raised then 1 else 0)
  {
    RunAccounted(cfg, trace, t);
    TallySplits(Run(cfg, trace).metrics.results, t);
  }

  // With no more requests than the directory has room for, nothing is cut short.
  lemma ConservationOfFew(cfg: Config, trace: Trace, t: string)
    requires GoodConfig(cfg) && ValidTrace(cfg, trace) && (|trace| <= cfg.maxEntries || cfg.maxEntries == 0)
    ensures var st := Run(cfg, trace);
            var stats := Get(st.sys.tenants, t, NO_STATS);
            && |st.metrics.results| == |trace|
            && stats.submitted == stats.completed + Tally(st.metrics.results, RejectedOf(t))
            && SumBy(st.sys.tenants, Completed()) == SumPools(st.sys.pools, DecisionsOf())
  {
    FewNeverRaise(cfg, trace);
    Conservation(cfg, trace, t);
  }
}
