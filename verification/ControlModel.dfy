// The control plane as a state machine on values: refresh, note the submission, build the
// candidates, let anyone choose, execute.
module ControlModel {
  import opened Numbers
  import opened Dicts
  import opened Requests
  import opened Backends
  import opened Selection
  import opened Topology
  import opened TopologyBuild
  import Slots = PoolModel
  import TopologyServices
  import CacheModel
  import CacheUpdate
  import CacheDirectory

  type Window = (real, real)

  datatype Cluster = Cluster(
    id: string, ingressCost: real, baseCongestion: real, failures: seq<Window>, congestions: seq<(Window, real)>)

  datatype PoolSpec = PoolSpec(
    cluster: Cluster, poolId: string, backend: Backend, models: set<Model>, rates: Rates,
    memoryGb: real, parallelSlots: nat, costPer1M: real, energy: real, premium: bool, queueLimit: int,
    tier: Tier, probe: Probe)

  datatype Config = Config(
    pools: seq<PoolSpec>, tenantWeights: Dict<string, real>, fairnessStrength: real, ttl: real, maxEntries: nat)

  datatype TenantStats = TenantStats(submitted: nat, completed: nat, totalLatencyMs: real, slaMisses: nat)

  const NO_STATS := TenantStats(0, 0, 0.0, 0)

  datatype System = System(
    pools: seq<Slots.Pool>, cache: CacheModel.Cache, tenants: Dict<string, TenantStats>)

  predicate GoodSpec(s: PoolSpec) {
    && s.parallelSlots > 0 && s.memoryGb > 0.0
    && s.cluster.ingressCost >= 0.0 && s.cluster.baseCongestion >= 0.0
    && (forall i :: 0 <= i < |s.cluster.congestions| ==> s.cluster.congestions[i].1 >= 0.0)
    && TopologyServices.ProbeFactor(s.probe) > 0.0
  }

  ghost predicate GoodConfig(cfg: Config) {
    cfg.ttl > 0.0 && |cfg.pools| > 0 && forall i :: 0 <= i < |cfg.pools| ==> GoodSpec(cfg.pools[i])
  }

  function SiteOf(s: PoolSpec): CacheModel.Site {
    CacheModel.Site(s.cluster.id, s.poolId)
  }

  // ----- cluster weather

  predicate Within(w: Window, now: real) {
    w.0 <= now <= w.1
  }

  function Congested(base: real, windows: seq<(Window, real)>, now: real): (r: real)
    ensures base >= 0.0 && (forall i :: 0 <= i < |windows| ==> windows[i].1 >= 0.0) ==> r >= 0.0
  {
    if |windows| == 0 then base
    else
      var before, last := Congested(base, windows[..|windows| - 1], now), windows[|windows| - 1];
      if Within(last.0, now) then Product(before, last.1) else before
  }

  function EffectiveCongestion(c: Cluster, now: real): real {
    Congested(c.baseCongestion, c.congestions, now)
  }

  predicate ClusterDown(c: Cluster, now: real) {
    exists i :: 0 <= i < |c.failures| && Within(c.failures[i], now)
  }

  // ----- refresh and submission

  function RefreshPool(s: PoolSpec, p: Slots.Pool, cache: CacheModel.Cache, now: real): Slots.Pool {
    Slots.Refresh(p, now).(congestion := EffectiveCongestion(s.cluster, now),
                           reserved := CacheModel.Reserved(cache, SiteOf(s)))
  }

  function Refresh(cfg: Config, sys: System, now: real): (r: System)
    requires |sys.pools| == |cfg.pools|
    ensures |r.pools| == |sys.pools|
  {
    var cache := CacheModel.Evict(sys.cache, now, cfg.ttl);
    System(seq(|sys.pools|, i requires 0 <= i < |sys.pools| => RefreshPool(cfg.pools[i], sys.pools[i], cache, now)),
           cache, sys.tenants)
  }

  function Noted(t: TenantStats): TenantStats {
    t.(submitted := t.submitted + 1)
  }

  function NoteSubmission(sys: System, tenantId: string): System {
    sys.(tenants := Put(sys.tenants, tenantId, Noted(Get(sys.tenants, tenantId, NO_STATS))))
  }

  // ----- candidates

  function SumWeights(d: Dict<string, real>): real {
    if |d| == 0 then 0.0 else d[0].1 + SumWeights(d[1..])
  }

  function Completed(): TenantStats -> nat {
    (t: TenantStats) => t.completed
  }

  function FairnessPenalty(cfg: Config, tenants: Dict<string, TenantStats>, tenantId: string): real {
    var total := SumBy(tenants, Completed());
    if total == 0 then 0.0
    else
      var actual := Get(tenants, tenantId, NO_STATS).completed as real / total as real;
      var expected := Get(cfg.tenantWeights, tenantId, 1.0) / Max(0.000000001, SumWeights(cfg.tenantWeights));
      Max(0.0, actual - expected) * cfg.fairnessStrength
  }

  function NetworkCost(s: PoolSpec): (r: real)
    requires GoodSpec(s)
    ensures r >= 0.0
  {
    s.cluster.ingressCost + TopologyServices.TierRouteCost(s.tier, TopologyServices.ProbeFactor(s.probe))
  }

  function PoolAffinity(s: PoolSpec, promptTokens: nat): real {
    var score := TierScore(s.tier);
    TopologyServices.Affinity(score, if s.probe.Probed? then s.probe.affinity else score, promptTokens)
  }

  // The pool as the configuration of the fabric has it.
  ghost predicate Drawn(s: PoolSpec, fabric: seq<ClusterConfig>, i: nat, j: nat) {
    && i < |fabric| && j < |fabric[i].pools|
    && s.cluster.id == fabric[i].clusterId && s.probe == fabric[i].probe
    && s.poolId == fabric[i].pools[j].poolId && s.tier == fabric[i].pools[j].tier
  }

  // What a candidate is charged for the network, beyond the ingress cost of its cluster, is
  // what the search finds in the graph built from the configuration ...
  lemma NetworkCostIsRouted(s: PoolSpec, fabric: seq<ClusterConfig>, i: nat, j: nat)
    requires WellFormed(fabric) && Drawn(s, fabric, i, j) && GoodSpec(s)
    ensures TopologyServices.RouteCostOf(TopologyServices.Built(fabric), s.cluster.id, s.poolId)
         == Found(Finite(NetworkCost(s) - s.cluster.ingressCost))
  {
    var cost := TopologyServices.TierRouteCost(s.tier, TopologyServices.ProbeFactor(s.probe));
    TopologyServices.RouteCostOfConfigured(fabric, i, j);
    TopologyServices.TierRouteCostIs(s.tier, TopologyServices.ProbeFactor(s.probe));
    assert NetworkCost(s) - s.cluster.ingressCost == cost;
  }

  // ... and so is its affinity.
  lemma AffinityIsLookedUp(s: PoolSpec, fabric: seq<ClusterConfig>, i: nat, j: nat, promptTokens: nat)
    requires WellFormed(fabric) && Drawn(s, fabric, i, j)
    ensures TopologyServices.AffinityOf(TopologyServices.Built(fabric), s.cluster.id, s.poolId, promptTokens)
         == Found(PoolAffinity(s, promptTokens))
  {
    TopologyServices.AffinityOfConfigured(fabric, i, j, promptTokens);
  }

  // The checks of admission, in order.
  function Admission(s: PoolSpec, slots: seq<real>, headroom: real, r: Request, savedTokens: nat, now: real): Availability {
    if ClusterDown(s.cluster, now) then Rejected(ClusterUnavailable)
    else if |s.models| > 0 && r.model !in s.models then Rejected(UnsupportedModel)
    else if Slots.InflightCount(slots, now) >= s.queueLimit then Rejected(QueueLimit)
    else if headroom < RequestMemoryGb(r, savedTokens) then Rejected(MemoryPressure)
    else Available
  }

  // A candidate, from what the pool and the directory report.
  function Assemble(s: PoolSpec, slots: seq<real>, headroom: real, congestion: real, fairness: real,
                    r: Request, now: real, hitRatio: real, saved: nat): Candidate
    requires GoodSpec(s) && |slots| > 0
  {
    var affinity, network := PoolAffinity(s, r.promptTokens), NetworkCost(s);
    var ms := EstimateLatencyMs(s.backend, s.rates, r, hitRatio, affinity, network, congestion);
    var queue := Round4(Slots.QueueDelayMs(slots, now));
    Candidate(s.cluster.id, s.poolId, s.backend, queue, ms.0, ms.1, hitRatio, saved, affinity,
              Round4(network), Round4(congestion), Round4(headroom), s.costPer1M, fairness, s.premium,
              Admission(s, slots, headroom, r, saved, now),
              Round4(Product(hitRatio, 1.0 + saved as real / 8192.0)),
              Round4(Max(0.0, Round4(network) - affinity)),
              Round4(queue / 1000.0 + Round4(congestion) + Max(0.0, 1.0 - Round4(headroom) / 64.0)))
  }

  // The candidate of one pool, scored against a directory no query of this moment has changed.
  function CandidateFor(cfg: Config, sys: System, r: Request, now: real, i: nat): Candidate
    requires GoodConfig(cfg) && i < |cfg.pools| == |sys.pools| && |sys.pools[i].slots| > 0
  {
    var s, p := cfg.pools[i], sys.pools[i];
    var score := CacheModel.ScoreOf(sys.cache, r.cacheKey, SiteOf(s), r.promptTokens, now, cfg.ttl);
    Assemble(s, p.slots, Slots.Headroom(s.memoryGb, p.active, p.reserved), p.congestion,
             FairnessPenalty(cfg, sys.tenants, r.tenantId), r, now, Round4(score.0), score.1)
  }

  ghost predicate Slotted(sys: System) {
    forall i :: 0 <= i < |sys.pools| ==> |sys.pools[i].slots| > 0
  }

  function Candidates(cfg: Config, sys: System, r: Request, now: real): (cs: seq<Candidate>)
    requires GoodConfig(cfg) && |cfg.pools| == |sys.pools| && Slotted(sys)
    ensures |cs| == |cfg.pools|
  {
    seq(|cfg.pools|, i requires 0 <= i < |cfg.pools| => CandidateFor(cfg, sys, r, now, i))
  }

  // ----- execution

  datatype Result = Result(
    request: Request, site: CacheModel.Site, admitted: bool, estimatedMs: real, start: real, completion: real,
    queueDelayMs: real, prefillMs: real, decodeMs: real, totalMs: real, hitRatio: real, savedTokens: nat,
    memoryGb: real, costUsd: real, energy: real, networkCost: real, slaMet: bool, status: Availability)

  datatype Outcome = Done(sys: System, result: Result) | Raised(sys: System)

  function Rejection(r: Request, c: Candidate, now: real): Result {
    Result(r, CacheModel.Site(c.clusterId, c.poolId), false, Round4(TotalLatencyMs(c)), now, now,
           0.0, 0.0, 0.0, 0.0, 0.0, 0, 0.0, 0.0, 0.0, c.networkCost, false, c.status)
  }

  function ActualLatency(s: PoolSpec, r: Request, c: Candidate): (real, real) {
    EstimateLatencyMs(s.backend, s.rates, r, c.hitRatio, c.affinity, c.networkCost, c.congestion)
  }

  function ServiceTime(s: PoolSpec, r: Request, c: Candidate): real {
    (ActualLatency(s, r, c).0 + ActualLatency(s, r, c).1) / 1000.0
  }

  function ResultOf(s: PoolSpec, r: Request, c: Candidate, now: real, start: real, completion: real,
                    ms: (real, real), memory: real): Result {
    var queue := Max(0.0, start - now) * 1000.0;
    var total := queue + ms.0 + ms.1;
    var tokens := (r.promptTokens + r.generationTokens) as real;
    Result(r, SiteOf(s), true, Round4(TotalLatencyMs(c)), start, completion,
           Round4(queue), Round4(ms.0), Round4(ms.1), Round4(total), c.hitRatio, c.savedTokens,
           Round4(memory), Round6(Product(s.costPer1M, tokens / 1000000.0)), Round4(Product(s.energy, tokens / 1000.0)),
           Round4(c.networkCost), total <= r.maxLatencyMs, Available)
  }

  // What placing a request on a pool reports.
  function Placement(s: PoolSpec, p: Slots.Pool, r: Request, c: Candidate, now: real): Result
    requires |p.slots| > 0
  {
    var memory := RequestMemoryGb(r, c.savedTokens);
    var job := Slots.NextJob(p, now, ServiceTime(s, r, c), memory);
    ResultOf(s, r, c, now, job.start, job.finish, ActualLatency(s, r, c), memory)
  }

  function ObservationOf(x: Result): CacheUpdate.Observation {
    CacheUpdate.Observation(x.request.cacheKey, x.site, x.request.promptTokens, x.memoryGb * 0.55, x.completion, x.hitRatio > 0.0)
  }

  function Served(t: TenantStats, x: Result): TenantStats {
    TenantStats(t.submitted, t.completed + 1, t.totalLatencyMs + x.totalMs, t.slaMisses + (if x.slaMet then 0 else 1))
  }

  function PlaceOn(cfg: Config, sys: System, r: Request, now: real, i: nat): Slots.Pool
    requires GoodConfig(cfg) && i < |cfg.pools| == |sys.pools| && |sys.pools[i].slots| > 0
  {
    var c := CandidateFor(cfg, sys, r, now, i);
    Slots.Place(sys.pools[i], now, ServiceTime(cfg.pools[i], r, c), RequestMemoryGb(r, c.savedTokens))
  }

  // The pools are as many, and each has as many slots.
  predicate SameSlots(a: seq<Slots.Pool>, b: seq<Slots.Pool>) {
    |a| == |b| && forall j :: 0 <= j < |a| ==> |a[j].slots| == |b[j].slots|
  }

  // Placement, observation and statistics of an admitted request.
  function Placed(cfg: Config, sys: System, r: Request, c: Candidate, now: real, i: nat): (o: Outcome)
    requires i < |cfg.pools| == |sys.pools| && |sys.pools[i].slots| > 0
    ensures SameSlots(o.sys.pools, sys.pools)
  {
    var x := Placement(cfg.pools[i], sys.pools[i], r, c, now);
    var p := Slots.Place(sys.pools[i], now, ServiceTime(cfg.pools[i], r, c), RequestMemoryGb(r, c.savedTokens));
    var cache := CacheDirectory.Update(sys.cache, ObservationOf(x), cfg.maxEntries);
    if CacheDirectory.TrimRaises(CacheUpdate.Observed(sys.cache, ObservationOf(x)), cfg.maxEntries)
    then Raised(System(sys.pools[i := p], cache, sys.tenants))
    else Done(System(sys.pools[i := p.(completed := p.completed + 1)], cache,
                     Put(sys.tenants, r.tenantId, Served(Get(sys.tenants, r.tenantId, NO_STATS), x))), x)
  }

  function Execute(cfg: Config, sys: System, r: Request, now: real, i: nat): (o: Outcome)
    requires GoodConfig(cfg) && i < |cfg.pools| == |sys.pools| && |sys.pools[i].slots| > 0
    ensures SameSlots(o.sys.pools, sys.pools)
  {
    var c := CandidateFor(cfg, sys, r, now, i);
    var evicted := sys.(cache := CacheModel.Evict(sys.cache, now, cfg.ttl));
    if c.status.Available? then Placed(cfg, evicted, r, c, now, i) else Done(evicted, Rejection(r, c, now))
  }

  // One turn of the engine: everything up to the choice, then the choice's execution.
  function Prepared(cfg: Config, sys: System, r: Request): (p: System)
    requires |sys.pools| == |cfg.pools|
    ensures SameSlots(p.pools, sys.pools)
  {
    NoteSubmission(Refresh(cfg, sys, r.arrival), r.tenantId)
  }
}
