// The objects of the running system: pools, the local scheduler, the control plane, the
// metrics and the engine, each tied to its state machine on values.
module Runtime {
  import opened Numbers
  import opened Dicts
  import opened Requests
  import opened Selection
  import opened ControlModel
  import opened ControlRun
  import opened Routing
  import Slots = PoolModel
  import CacheModel
  import CacheUpdate
  import CacheDirectory

  class PoolRuntime {
    const spec: PoolSpec
    var slotAvailableAt: seq<real>
    var inflightMemory: seq<(real, real)>
    var activeMemoryGb: real
    var cacheReservedGb: real
    var congestionScore: real
    var decisionCount: nat
    var completedCount: nat
    ghost var jobs: seq<Slots.Job>

    ghost function View(): Slots.Pool
      reads this
    {
      Slots.Pool(slotAvailableAt, inflightMemory, activeMemoryGb, cacheReservedGb, congestionScore,
                 decisionCount, completedCount, jobs)
    }

    constructor (spec: PoolSpec)
      ensures this.spec == spec && View() == Slots.Init(spec.parallelSlots)
    {
      this.spec := spec;
      slotAvailableAt := seq(spec.parallelSlots, i => 0.0);
      inflightMemory, activeMemoryGb, cacheReservedGb, congestionScore := [], 0.0, 0.0, 0.0;
      decisionCount, completedCount, jobs := 0, 0, [];
    }

    // Forgets the jobs finished by now.
    method Refresh(now: real)
      modifies this`inflightMemory, this`activeMemoryGb
      ensures View() == Slots.Refresh(old(View()), now)
    {
      inflightMemory, activeMemoryGb := StillInflight(inflightMemory, now);
    }

    // Books the slot that frees up first.
    method Occupy(now: real, duration: real, memory: real) returns (start: real, completion: real)
      requires |slotAvailableAt| > 0
      modifies this
      ensures View() == Slots.Place(old(View()), now, duration, memory)
      ensures var job := Slots.NextJob(old(View()), now, duration, memory); start == job.start && completion == job.finish
    {
      var slot := Slots.Earliest(slotAvailableAt);
      start := Max(now, slotAvailableAt[slot]);
      completion := start + duration;
      slotAvailableAt := slotAvailableAt[slot := completion];
      inflightMemory := inflightMemory + [(completion, memory)];
      activeMemoryGb := activeMemoryGb + memory;
      decisionCount := decisionCount + 1;
      jobs := jobs + [Slots.Job(slot, now, start, completion, memory)];
    }

    function HeadroomGb(): real
      reads this
    {
      Slots.Headroom(spec.memoryGb, activeMemoryGb, cacheReservedGb)
    }
  }

  method StillInflight(entries: seq<(real, real)>, now: real) returns (still: seq<(real, real)>, active: real)
    ensures still == Slots.Unfinished(entries, now) && active == Slots.Memory(still)
  {
    still, active := [], 0.0;
    for i := 0 to |entries|
      invariant still == Slots.Unfinished(entries[..i], now) && active == Slots.Memory(still)
    {
      var e := entries[i];
      assert entries[..i + 1] == entries[..i] + [e];
      Slots.UnfinishedAppend(entries[..i], e, now);
      if e.0 > now {
        Slots.MemoryAppend(still, e);
        still, active := still + [e], active + e.1;
      }
    }
    assert entries[..|entries|] == entries;
  }

  // The local scheduler: puts a request on the slot that frees up first.
  method PlaceRequest(r: Request, c: Candidate, pool: PoolRuntime, cache: CacheDirectory.KVCacheDirectory, now: real)
    returns (x: Result, ok: bool)
    requires |pool.slotAvailableAt| > 0 && cache.Valid()
    modifies pool, cache
    ensures pool.View() == Slots.Place(old(pool.View()), now, ServiceTime(pool.spec, r, c), RequestMemoryGb(r, c.savedTokens))
    ensures x == Placement(pool.spec, old(pool.View()), r, c, now)
    ensures cache.Valid()
    ensures cache.entries == CacheDirectory.Update(old(cache.entries), ObservationOf(x), cache.maxEntries)
    ensures !ok <==> CacheDirectory.TrimRaises(CacheUpdate.Observed(old(cache.entries), ObservationOf(x)), cache.maxEntries)
  {
    var ms, memory := ActualLatency(pool.spec, r, c), RequestMemoryGb(r, c.savedTokens);
    var start, completion := pool.Occupy(now, ServiceTime(pool.spec, r, c), memory);
    x := ResultOf(pool.spec, r, c, now, start, completion, ms, memory);
    CacheDirectory.UpdateShape(cache.entries, ObservationOf(x), cache.maxEntries);
    ok := cache.ObserveResult(ObservationOf(x));
  }

  // Base congestion times the multipliers of the windows now open.
  method CongestionNow(c: Cluster, now: real) returns (congestion: real)
    ensures congestion == EffectiveCongestion(c, now)
  {
    congestion := c.baseCongestion;
    for i := 0 to |c.congestions|
      invariant congestion == Congested(c.baseCongestion, c.congestions[..i], now)
    {
      assert c.congestions[..i + 1][..i] == c.congestions[..i];
      if Within(c.congestions[i].0, now) {
        congestion := congestion * c.congestions[i].1;
      }
    }
    assert c.congestions[..|c.congestions|] == c.congestions;
  }

  datatype Execution = Finished(result: Result) | Error

  function OutcomeOf(e: Execution, sys: System): Outcome {
    match e
    case Finished(x) => Done(sys, x)
    case Error => Raised(sys)
  }

  class ControlPlane {
    const cfg: Config
    const pools: seq<PoolRuntime>
    const cache: CacheDirectory.KVCacheDirectory
    const router: Router
    var tenantStats: Dict<string, TenantStats>

    ghost predicate Wired() {
      && GoodConfig(cfg) && router.Valid() && |pools| == |cfg.pools| && cache.ttl == cfg.ttl && cache.maxEntries == cfg.maxEntries
      && (forall i, j :: 0 <= i < j < |pools| ==> pools[i] != pools[j])
      && (forall i :: 0 <= i < |pools| ==> pools[i].spec == cfg.pools[i])
    }

    ghost predicate Valid()
      reads this, pools, cache
    {
      Wired() && cache.Valid() && forall i :: 0 <= i < |pools| ==> |pools[i].slotAvailableAt| > 0
    }

    ghost function PoolViews(): (v: seq<Slots.Pool>)
      reads this, pools
      ensures |v| == |pools| && forall i :: 0 <= i < |v| ==> v[i] == pools[i].View()
    {
      seq(|pools|, i requires 0 <= i < |pools| reads this, pools => pools[i].View())
    }

    ghost function View(): System
      reads this, pools, cache
    {
      System(PoolViews(), cache.entries, tenantStats)
    }

    constructor (cfg: Config, policy: PolicyName)
      requires GoodConfig(cfg)
      ensures Valid() && this.cfg == cfg && View() == Start(cfg) && router.View() == Initially(policy)
      ensures fresh(router.roundRobin) && fresh(router.spread) && fresh(router.bandit)
      ensures fresh(cache) && forall i :: 0 <= i < |pools| ==> fresh(pools[i])
    {
      var ps: seq<PoolRuntime> := [];
      for i := 0 to |cfg.pools|
        invariant |ps| == i
        invariant forall j :: 0 <= j < i ==> fresh(ps[j])
        invariant forall j :: 0 <= j < i ==> ps[j].spec == cfg.pools[j]
        invariant forall j :: 0 <= j < i ==> ps[j].View() == Slots.Init(cfg.pools[j].parallelSlots)
        invariant forall j, k :: 0 <= j < k < i ==> ps[j] != ps[k]
      {
        var pool := new PoolRuntime(cfg.pools[i]);
        ps := ps + [pool];
      }
      this.cfg, pools, tenantStats := cfg, ps, [];
      cache := new CacheDirectory.KVCacheDirectory(cfg.ttl, cfg.maxEntries);
      router := new Router(policy);
      new;
      assert PoolViews() == Start(cfg).pools;
    }

    // Brings one pool up to date; the directory evicts what is stale on the way.
    method RefreshOne(i: nat, now: real)
      requires Valid() && i < |pools|
      modifies pools[i], cache
      ensures Valid() && cache.entries == CacheModel.Evict(old(cache.entries), now, cfg.ttl)
      ensures PoolViews() == old(PoolViews())[i := RefreshPool(cfg.pools[i], old(pools[i].View()), cache.entries, now)]
    {
      ghost var views := PoolViews();
      var pool := pools[i];
      pool.congestionScore := CongestionNow(pool.spec.cluster, now);
      pool.Refresh(now);
      pool.cacheReservedGb := cache.ReservedGb(SiteOf(pool.spec), now);
      forall j | 0 <= j < |pools| && j != i ensures pools[j] != pools[i] && pools[j].View() == views[j] {
      }
    }

    // The first i pools are refreshed, the others as they were.
    ghost predicate RefreshedUpTo(start: System, i: nat, now: real)
      requires |start.pools| == |cfg.pools|
      reads this, pools
    {
      && |pools| == |start.pools|
      && forall j :: 0 <= j < |pools| ==>
           PoolViews()[j] == if j < i then ControlModel.Refresh(cfg, start, now).pools[j] else start.pools[j]
    }

    method Refresh(now: real)
      requires Valid()
      modifies pools, cache
      ensures Valid() && View() == ControlModel.Refresh(cfg, old(View()), now)
    {
      ghost var start, evicted := View(), CacheModel.Evict(cache.entries, now, cfg.ttl);
      for i := 0 to |pools|
        invariant Valid() && cache.entries == (if i == 0 then start.cache else evicted)
        invariant RefreshedUpTo(start, i, now)
      {
        CacheModel.EvictTwice(start.cache, now, now, cfg.ttl);
        RefreshOne(i, now);
      }
    }

    method NoteSubmission(r: Request)
      requires Valid()
      modifies this`tenantStats
      ensures Valid() && View() == ControlModel.NoteSubmission(old(View()), r.tenantId)
    {
      tenantStats := Put(tenantStats, r.tenantId, Noted(Get(tenantStats, r.tenantId, NO_STATS)));
    }

    // The control plane is as at `start`, except that the directory may have evicted.
    ghost predicate AsAt(start: System, now: real)
      reads this, pools, cache
    {
      && PoolViews() == start.pools && tenantStats == start.tenants
      && (cache.entries == start.cache || cache.entries == CacheModel.Evict(start.cache, now, cfg.ttl))
    }

    method BuildCandidate(r: Request, now: real, i: nat, ghost start: System) returns (c: Candidate)
      requires Valid() && i < |pools| && AsAt(start, now)
      modifies cache
      ensures Valid() && AsAt(start, now) && cache.entries == CacheModel.Evict(start.cache, now, cfg.ttl)
      ensures |start.pools| == |pools| && |start.pools[i].slots| > 0 && c == CandidateFor(cfg, start, r, now, i)
    {
      EvictionHidden(cfg, start, r, now, i);
      var pool := pools[i];
      var headroom := pool.HeadroomGb();
      var hitRatio, saved := cache.Score(r.cacheKey, SiteOf(pool.spec), r.promptTokens, now);
      c := Assemble(pool.spec, pool.slotAvailableAt, headroom, pool.congestionScore,
                    FairnessPenalty(cfg, tenantStats, r.tenantId), r, now, hitRatio, saved);
    }

    // Every pool's candidate is the one it would get if it were scored first.
    method BuildCandidates(r: Request, now: real) returns (cs: seq<Candidate>)
      requires Valid()
      modifies cache
      ensures Valid() && View() == old(View()).(cache := CacheModel.Evict(old(cache.entries), now, cfg.ttl))
      ensures cs == Candidates(cfg, old(View()), r, now)
    {
      ghost var start := View();
      ghost var all := Candidates(cfg, start, r, now);
      cs := [];
      for i := 0 to |pools|
        invariant Valid() && AsAt(start, now)
        invariant i > 0 ==> cache.entries == CacheModel.Evict(start.cache, now, cfg.ttl)
        invariant cs == all[..i]
      {
        var c := BuildCandidate(r, now, i, start);
        CandidateAt(cfg, start, r, now, i);
        assert all[..i + 1] == all[..i] + [all[i]];
        cs := cs + [c];
      }
    }

    method PlaceIn(r: Request, c: Candidate, k: nat, now: real, ghost start: System) returns (x: Result, ok: bool)
      requires Valid() && k < |pools| && View() == start
      modifies pools[k], cache
      ensures Valid()
      ensures HalfPlaced(cfg, start, r, c, now, k, ok, x, View())
    {
      x, ok := PlaceRequest(r, c, pools[k], cache, now);
      forall j | 0 <= j < |pools| && j != k ensures pools[j] != pools[k] && pools[j].View() == start.pools[j] {
      }
    }

    method Complete(r: Request, k: nat, x: Result, ghost start: System)
      requires Valid() && k < |pools| && View() == start
      modifies this`tenantStats, pools[k]
      ensures Valid()
      ensures View() == CountedDone(start, r, k, x)
    {
      tenantStats := Put(tenantStats, r.tenantId, Served(Get(tenantStats, r.tenantId, NO_STATS), x));
      pools[k].completedCount := pools[k].completedCount + 1;
      forall j | 0 <= j < |pools| && j != k ensures pools[j] != pools[k] && pools[j].View() == start.pools[j] {
      }
    }

    // Places an admitted request on its pool and books it in the statistics.
    method PlaceAt(r: Request, c: Candidate, k: nat, now: real, ghost start: System) returns (e: Execution)
      requires Valid() && k < |pools| && View() == start
      modifies this`tenantStats, pools[k], cache
      ensures Valid()
      ensures Placed(cfg, start, r, c, now, k) == OutcomeOf(e, View())
    {
      var x, ok := PlaceIn(r, c, k, now, start);
      ghost var mid := View();
      if ok {
        Complete(r, k, x, mid);
      }
      PlacedIs(cfg, start, r, c, now, k, ok, x, mid, View());
      e := if ok then Finished(x) else Error;
    }

    // Picks one of the candidates; only the policy in force can change.
    method PickFrom(cs: seq<Candidate>, sla: SlaClass, n: Natives, ghost sys: System, ghost policy: ActivePolicy)
      returns (k: nat)
      requires Valid() && |cs| > 0 && View() == sys && router.View() == policy
      modifies router.roundRobin, router.spread
      ensures Valid() && View() == sys && (k, router.View()) == Route(n, policy, sla, cs)
    {
      k := router.ChooseCandidate(n, sla, cs);
    }

    // Turns a request away, or places it.
    method Dispatch(r: Request, c: Candidate, k: nat, now: real, ghost start: System, ghost policy: ActivePolicy)
      returns (e: Execution)
      requires Valid() && k < |pools| == |start.pools| && Slotted(start) && router.View() == policy
      requires View() == start.(cache := CacheModel.Evict(start.cache, now, cfg.ttl))
      requires c == Candidates(cfg, start, r, now)[k]
      modifies this`tenantStats, pools[k], cache
      ensures Valid() && OutcomeOf(e, View()) == ControlModel.Execute(cfg, start, r, now, k) && router.View() == policy
    {
      CandidateAt(cfg, start, r, now, k);
      if !c.status.Available? {
        return Finished(Rejection(r, c, now));
      }
      e := PlaceAt(r, c, k, now, View());
    }

    // Shows the policy the result of an admitted request.
    method Settle(e: Execution, ghost sys: System, ghost policy: ActivePolicy)
      requires Valid() && View() == sys && router.View() == policy
      modifies router.spread, router.bandit
      ensures Valid() && View() == sys && router.View() == AfterOutcome(policy, OutcomeOf(e, sys))
    {
      if e.Finished? && e.result.admitted {
        router.ObserveResult(e.result);
      }
    }

    /** Routes a request and, if the pick is available, places it and tells the policy.  `start`
        and `policy` name the state at the call. */
    method Execute(r: Request, now: real, n: Natives, ghost start: System, ghost policy: ActivePolicy)
      returns (e: Execution, ghost k: nat)
      requires Valid() && View() == start && router.View() == policy
      modifies this`tenantStats, pools, cache, router.roundRobin, router.spread, router.bandit
      ensures Valid() && |start.pools| == |cfg.pools| && Slotted(start)
      ensures k == Route(n, policy, r.sla, Candidates(cfg, start, r, now)).0
      ensures k < |cfg.pools| && OutcomeOf(e, View()) == ControlModel.Execute(cfg, start, r, now, k)
      ensures router.View() == AfterOutcome(Route(n, policy, r.sla, Candidates(cfg, start, r, now)).1, OutcomeOf(e, View()))
    {
      var cs := BuildCandidates(r, now);
      var pick := PickFrom(cs, r.sla, n, View(), policy);
      k := pick;
      e := Dispatch(r, cs[pick], pick, now, start, router.View());
      Settle(e, View(), router.View());
    }
  }

  lemma CandidateAt(cfg: Config, sys: System, r: Request, now: real, i: nat)
    requires GoodConfig(cfg) && i < |cfg.pools| == |sys.pools| && Slotted(sys)
    ensures Candidates(cfg, sys, r, now)[i] == CandidateFor(cfg, sys, r, now, i)
  {
  }

  // The slot is booked and the directory has observed it; `ok` says that trimming did not raise.
  ghost predicate HalfPlaced(cfg: Config, sys: System, r: Request, c: Candidate, now: real, k: nat, ok: bool, x: Result, mid: System)
    requires k < |cfg.pools| == |sys.pools| && |sys.pools[k].slots| > 0
  {
    var q := Slots.Place(sys.pools[k], now, ServiceTime(cfg.pools[k], r, c), RequestMemoryGb(r, c.savedTokens));
    && x == Placement(cfg.pools[k], sys.pools[k], r, c, now)
    && mid == System(sys.pools[k := q], CacheDirectory.Update(sys.cache, ObservationOf(x), cfg.maxEntries), sys.tenants)
    && (!ok <==> CacheDirectory.TrimRaises(CacheUpdate.Observed(sys.cache, ObservationOf(x)), cfg.maxEntries))
  }

  // The completion is counted, by the pool and for the tenant.
  function CountedDone(sys: System, r: Request, k: nat, x: Result): System
    requires k < |sys.pools|
  {
    var q := sys.pools[k];
    System(sys.pools[k := q.(completed := q.completed + 1)], sys.cache,
           Put(sys.tenants, r.tenantId, Served(Get(sys.tenants, r.tenantId, NO_STATS), x)))
  }

  lemma PlacedIs(cfg: Config, sys: System, r: Request, c: Candidate, now: real, k: nat, ok: bool, x: Result, mid: System,
                 after: System)
    requires k < |cfg.pools| == |sys.pools| == |mid.pools| && |sys.pools[k].slots| > 0
    requires HalfPlaced(cfg, sys, r, c, now, k, ok, x, mid) && after == if ok then CountedDone(mid, r, k, x) else mid
    ensures Placed(cfg, sys, r, c, now, k) == OutcomeOf(if ok then Finished(x) else Error, after)
  {
  }

  // Scoring one pool's candidate does not change another's.
  lemma EvictionHidden(cfg: Config, sys: System, r: Request, now: real, i: nat)
    requires GoodConfig(cfg) && i < |cfg.pools| == |sys.pools| && |sys.pools[i].slots| > 0
    ensures var evicted := CacheModel.Evict(sys.cache, now, cfg.ttl);
            && CandidateFor(cfg, sys.(cache := evicted), r, now, i) == CandidateFor(cfg, sys, r, now, i)
            && CacheModel.ScoreOf(evicted, r.cacheKey, SiteOf(cfg.pools[i]), r.promptTokens, now, cfg.ttl)
               == CacheModel.ScoreOf(sys.cache, r.cacheKey, SiteOf(cfg.pools[i]), r.promptTokens, now, cfg.ttl)
            && CacheModel.Evict(evicted, now, cfg.ttl) == evicted
  {
    CacheModel.EvictTwice(sys.cache, now, now, cfg.ttl);
  }
}
