// How short a run of the control plane can be and still end in an exception.
module RaisingRuns {
  import opened Numbers
  import opened Dicts
  import opened Requests
  import opened Backends
  import opened Selection
  import opened ControlModel
  import opened ControlRun
  import opened RunTheorems
  import opened CacheModel
  import opened CacheUpdate
  import opened CacheLimits
  import opened Routing
  import opened RoutedRuns
  import Slots = PoolModel
  import CacheDirectory
  import Reservations
  import TopologyBuild

  // ----- pools alike but for their names, each asked once, all at time zero

  function PlainRequest(key: Key): Request {
    Request("r", "t", OtherModel("m"), 1, 1, 0.0, Interactive, key, 1800.0)
  }

  function PlainMs(s: PoolSpec): (real, real)
    requires GoodSpec(s)
  {
    EstimateLatencyMs(s.backend, s.rates, PlainRequest(0), 0.0, PoolAffinity(s, 1), Round4(NetworkCost(s)),
                      Round4(EffectiveCongestion(s.cluster, 0.0)))
  }

  // When a pool that is idle at time zero has served its plain request.
  function PlainEnd(s: PoolSpec): real
    requires GoodSpec(s)
  {
    (PlainMs(s).0 + PlainMs(s).1) / 1000.0
  }

  ghost predicate Willing(s: PoolSpec) {
    && GoodSpec(s) && s.parallelSlots == 1 && s.queueLimit == 1 && !ClusterDown(s.cluster, 0.0) && |s.models| == 0
    && s.memoryGb >= RequestMemoryGb(PlainRequest(0), 0) && PlainEnd(s) > 0.0
  }

  ghost predicate Alike(cfg: Config) {
    && GoodConfig(cfg) && Willing(cfg.pools[0])
    && (forall k :: 0 <= k < |cfg.pools| ==> cfg.pools[k] == cfg.pools[0].(poolId := cfg.pools[k].poolId))
    && (forall j, k :: 0 <= j < k < |cfg.pools| ==> cfg.pools[j].poolId != cfg.pools[k].poolId)
  }

  ghost predicate Idle(p: Slots.Pool) {
    p.slots == [0.0] && p.inflight == []
  }

  ghost predicate Busy(p: Slots.Pool) {
    |p.slots| == 1 && p.slots[0] > 0.0
  }

  // The first observation of a key, by the pool with the key's number.
  function FirstServed(cfg: Config): nat -> Observation
    requires GoodConfig(cfg)
  {
    (k: nat) => Observation(k, if k < |cfg.pools| then SiteOf(cfg.pools[k]) else SiteOf(cfg.pools[0]), 1,
                            Round4(RequestMemoryGb(PlainRequest(0), 0)) * 0.55, PlainEnd(cfg.pools[0]), false)
  }

  lemma AlikeEnds(cfg: Config, k: nat)
    requires Alike(cfg) && k < |cfg.pools|
    ensures Willing(cfg.pools[k]) && PlainEnd(cfg.pools[k]) == PlainEnd(cfg.pools[0])
  {
    assert cfg.pools[k] == cfg.pools[0].(poolId := cfg.pools[k].poolId);
  }

  // A willing pool that is idle admits a plain request of which nothing is cached ...
  lemma IdleAdmits(s: PoolSpec, p: Slots.Pool, headroom: real, key: Key)
    requires Willing(s) && Idle(p) && headroom == Slots.Headroom(s.memoryGb, 0.0, 0.0)
    ensures Admission(s, p.slots, headroom, PlainRequest(key), 0, 0.0).Available?
  {
    assert p.slots[..0] == [] && Slots.InflightCount(p.slots, 0.0) == 0;
    assert RequestMemoryGb(PlainRequest(key), 0) == RequestMemoryGb(PlainRequest(0), 0);
  }

  // Estimates depend on a request through its tokens alone.
  lemma SameTokensSameMs(b: Backend, rates: Rates, r: Request, r': Request, hitRatio: real, affinity: real,
                         network: real, congestion: real)
    requires r.promptTokens == r'.promptTokens && r.generationTokens == r'.generationTokens
    ensures EstimateLatencyMs(b, rates, r, hitRatio, affinity, network, congestion)
         == EstimateLatencyMs(b, rates, r', hitRatio, affinity, network, congestion)
  {
    var p, p' := UnloadedPrefill(b, rates, r, hitRatio, affinity), UnloadedPrefill(b, rates, r', hitRatio, affinity);
    var d, d' := UnloadedDecode(b, rates, r, affinity), UnloadedDecode(b, rates, r', affinity);
    SamePromptSamePrefill(b, rates, r, r', hitRatio, affinity);
    SameLengthSameDecode(b, rates, r, r', affinity);
    LoadedTwice(p, p', CongestionGain(b), congestion, NetworkWeight(b, r.promptTokens), network);
    LoadedTwice(d, d', CongestionGain(b), congestion, 0.0, 0.0);
  }

  lemma SamePromptSamePrefill(b: Backend, rates: Rates, r: Request, r': Request, hitRatio: real, affinity: real)
    requires r.promptTokens == r'.promptTokens
    ensures UnloadedPrefill(b, rates, r, hitRatio, affinity) == UnloadedPrefill(b, rates, r', hitRatio, affinity)
  {
    var share := 1.0 - hitRatio * CacheEffect(b);
    assert r.promptTokens as real * share == r'.promptTokens as real * share;
  }

  lemma SameLengthSameDecode(b: Backend, rates: Rates, r: Request, r': Request, affinity: real)
    requires r.generationTokens == r'.generationTokens
    ensures UnloadedDecode(b, rates, r, affinity) == UnloadedDecode(b, rates, r', affinity)
  {
  }

  lemma LoadedTwice(ms: real, ms': real, gain: real, congestion: real, weight: real, network: real)
    requires ms == ms'
    ensures Loaded(ms, gain, congestion, weight, network) == Loaded(ms', gain, congestion, weight, network)
  {
  }

  lemma PlainTakes(s: PoolSpec, c: Candidate, key: Key)
    requires GoodSpec(s) && c.hitRatio == 0.0 && c.affinity == PoolAffinity(s, 1)
    requires c.networkCost == Round4(NetworkCost(s)) && c.congestion == Round4(EffectiveCongestion(s.cluster, 0.0))
    ensures ServiceTime(s, PlainRequest(key), c) == PlainEnd(s)
  {
    SameTokensSameMs(s.backend, s.rates, PlainRequest(key), PlainRequest(0), c.hitRatio, c.affinity, c.networkCost, c.congestion);
    assert ActualLatency(s, PlainRequest(key), c) == PlainMs(s);
  }

  lemma PlainNeed(key: Key)
    ensures RequestMemoryGb(PlainRequest(key), 0) == RequestMemoryGb(PlainRequest(0), 0)
  {
  }

  lemma IdleStart(s: PoolSpec, p: Slots.Pool, r: Request, c: Candidate)
    requires Idle(p) && ServiceTime(s, r, c) >= 0.0
    ensures Placement(s, p, r, c, 0.0).completion == ServiceTime(s, r, c)
  {
    assert Slots.Earliest(p.slots) == 0;
  }

  lemma PlacementObserved(s: PoolSpec, p: Slots.Pool, r: Request, c: Candidate)
    requires |p.slots| > 0
    ensures var x := Placement(s, p, r, c, 0.0);
            ObservationOf(x) == Observation(r.cacheKey, SiteOf(s), r.promptTokens,
                                            Round4(RequestMemoryGb(r, c.savedTokens)) * 0.55, x.completion, c.hitRatio > 0.0)
  {
  }

  // ... and serves it at once.
  lemma IdleServes(s: PoolSpec, p: Slots.Pool, c: Candidate, key: Key)
    requires Willing(s) && Idle(p) && c.hitRatio == 0.0 && c.savedTokens == 0
    requires c.affinity == PoolAffinity(s, 1) && c.networkCost == Round4(NetworkCost(s))
    requires c.congestion == Round4(EffectiveCongestion(s.cluster, 0.0))
    ensures ObservationOf(Placement(s, p, PlainRequest(key), c, 0.0))
         == Observation(key, SiteOf(s), 1, Round4(RequestMemoryGb(PlainRequest(0), 0)) * 0.55, PlainEnd(s), false)
  {
    PlainTakes(s, c, key);
    IdleStart(s, p, PlainRequest(key), c);
    PlacementObserved(s, p, PlainRequest(key), c);
    PlainNeed(key);
  }

  // ----- the directory along the run

  lemma {:induction false} RowBucket(o: nat -> Observation, n: nat, k: nat)
    requires OnePerKey(o)
    ensures Bucket(Row(o, n), k) == if k < n then [NewEntry(o(k))] else []
  {
    if n > 0 {
      RowBucket(o, n - 1, k);
      NextKey(o, n - 1);
      RowLacks(o, n - 1);
      var last: Key := n - 1;
      PutGet(Row(o, n - 1), last, [NewEntry(o(n - 1))], k, []);
    }
  }

  lemma {:induction false} NothingReserved(o: nat -> Observation, n: nat, site: Site)
    requires forall k :: 0 <= k < n ==> o(k).site != site
    ensures Reserved(Row(o, n), site) == 0.0
  {
    if n > 0 {
      NothingReserved(o, n - 1, site);
      assert Row(o, n)[..n - 1] == Row(o, n - 1);
      var b := [NewEntry(o(n - 1))];
      assert b[..0] == [] && Row(o, n)[n - 1] == (n - 1, b);
      assert ReservedIn(b, site) == 0.0;
    }
  }

  lemma NothingVisible(c: Cache, k: Key, site: Site, promptTokens: nat, ttl: real)
    requires ttl > 0.0 && Evict(c, 0.0, ttl) == c
    requires forall i :: 0 <= i < |Bucket(c, k)| ==> Bucket(c, k)[i].available > 0.0
    ensures ScoreOf(c, k, site, promptTokens, 0.0, ttl) == (0.0, 0)
  {
    BestAtIsFirstBest(Bucket(c, k), Visible(0.0), ByRatio(site, 0.0, ttl));
  }

  // Nothing in the directory of this run has expired, can be seen, or is held for a later pool.
  lemma RowUnseen(cfg: Config, n: nat, k: nat, key: Key)
    requires Alike(cfg) && n <= k < |cfg.pools|
    ensures Evict(Row(FirstServed(cfg), n), 0.0, cfg.ttl) == Row(FirstServed(cfg), n)
    ensures Reserved(Row(FirstServed(cfg), n), SiteOf(cfg.pools[k])) == 0.0
    ensures ScoreOf(Row(FirstServed(cfg), n), key, SiteOf(cfg.pools[k]), 1, 0.0, cfg.ttl) == (0.0, 0)
  {
    Reservations.FreshStays(Row(FirstServed(cfg), n), 0.0, cfg.ttl);
    NothingReserved(FirstServed(cfg), n, SiteOf(cfg.pools[k]));
    RowBucket(FirstServed(cfg), n, key);
    NothingVisible(Row(FirstServed(cfg), n), key, SiteOf(cfg.pools[k]), 1, cfg.ttl);
  }

  // ----- one step

  lemma RoundedZero()
    ensures Round4(0.0) == 0.0
  {
  }

  lemma PlainCandidate(cfg: Config, sys: System, k: nat, key: Key)
    requires Alike(cfg) && k < |cfg.pools| == |sys.pools| && Slotted(sys) && Idle(sys.pools[k])
    requires Evict(sys.cache, 0.0, cfg.ttl) == sys.cache && Reserved(sys.cache, SiteOf(cfg.pools[k])) == 0.0
    requires ScoreOf(sys.cache, key, SiteOf(cfg.pools[k]), 1, 0.0, cfg.ttl) == (0.0, 0)
    ensures var prepared, s := Prepared(cfg, sys, PlainRequest(key)), cfg.pools[k];
            var c := CandidateFor(cfg, prepared, PlainRequest(key), 0.0, k);
            && Idle(prepared.pools[k]) && prepared.cache == sys.cache
            && c.status.Available? && c.hitRatio == 0.0 && c.savedTokens == 0
            && c.affinity == PoolAffinity(s, 1) && c.networkCost == Round4(NetworkCost(s))
            && c.congestion == Round4(EffectiveCongestion(s.cluster, 0.0))
  {
    var prepared := Prepared(cfg, sys, PlainRequest(key));
    var p := prepared.pools[k];
    AlikeEnds(cfg, k);
    RoundedZero();
    assert p.inflight == [] && p.active == 0.0;
    IdleAdmits(cfg.pools[k], p, Slots.Headroom(cfg.pools[k].memoryGb, p.active, p.reserved), key);
  }

  // A plain request put on an idle pool is placed, and observed as every other one is.
  lemma PlainStep(cfg: Config, sys: System, k: nat, key: Key) returns (o: Observation)
    requires Alike(cfg) && k < |cfg.pools| == |sys.pools| && Slotted(sys) && Idle(sys.pools[k])
    requires Evict(sys.cache, 0.0, cfg.ttl) == sys.cache && Reserved(sys.cache, SiteOf(cfg.pools[k])) == 0.0
    requires ScoreOf(sys.cache, key, SiteOf(cfg.pools[k]), 1, 0.0, cfg.ttl) == (0.0, 0)
    ensures o == FirstServed(cfg)(k).(key := key)
    ensures var after := Execute(cfg, Prepared(cfg, sys, PlainRequest(key)), PlainRequest(key), 0.0, k);
            && Busy(after.sys.pools[k])
            && after.sys.cache == CacheDirectory.Update(sys.cache, o, cfg.maxEntries)
            && (after.Raised? <==> CacheDirectory.TrimRaises(Observed(sys.cache, o), cfg.maxEntries))
  {
    var prepared := Prepared(cfg, sys, PlainRequest(key));
    var c := CandidateFor(cfg, prepared, PlainRequest(key), 0.0, k);
    PlainCandidate(cfg, sys, k, key);
    AlikeEnds(cfg, k);
    IdleServes(cfg.pools[k], prepared.pools[k], c, key);
    assert Execute(cfg, prepared, PlainRequest(key), 0.0, k) == Placed(cfg, prepared, PlainRequest(key), c, 0.0, k);
    o := PlacedUpdates(cfg, prepared, PlainRequest(key), c, 0.0, k);
    PlacedIsBusy(cfg, prepared, PlainRequest(key), c, k, o);
  }

  lemma PlacedIsBusy(cfg: Config, sys: System, r: Request, c: Candidate, k: nat, o: Observation)
    requires k < |cfg.pools| == |sys.pools| && Idle(sys.pools[k])
    requires o == ObservationOf(Placement(cfg.pools[k], sys.pools[k], r, c, 0.0)) && o.completion > 0.0
    ensures Busy(Placed(cfg, sys, r, c, 0.0, k).sys.pools[k])
  {
    PlacedPools(cfg, sys, r, c, 0.0, k);
  }

  lemma PlainTurn(cfg: Config, st: RunState, k: nat, key: Key) returns (o: Observation, after: RunState)
    requires Alike(cfg) && k < |cfg.pools| == |st.sys.pools| && Slotted(st.sys) && Idle(st.sys.pools[k])
    requires Evict(st.sys.cache, 0.0, cfg.ttl) == st.sys.cache && Reserved(st.sys.cache, SiteOf(cfg.pools[k])) == 0.0
    requires ScoreOf(st.sys.cache, key, SiteOf(cfg.pools[k]), 1, 0.0, cfg.ttl) == (0.0, 0)
    ensures o == FirstServed(cfg)(k).(key := key)
    ensures after == Step(cfg, st, PlainRequest(key), k)
    ensures |after.sys.pools| == |st.sys.pools| && Busy(after.sys.pools[k])
    ensures after.sys.cache == CacheDirectory.Update(st.sys.cache, o, cfg.maxEntries)
    ensures after.raised <==> CacheDirectory.TrimRaises(Observed(st.sys.cache, o), cfg.maxEntries)
  {
    o := PlainStep(cfg, st.sys, k, key);
    after := Step(cfg, st, PlainRequest(key), k);
  }

  lemma OthersStay(cfg: Config, sys: System, r: Request, k: nat, j: nat)
    requires GoodConfig(cfg) && k < |cfg.pools| == |sys.pools| && Slotted(sys) && j < |cfg.pools| && j != k
    ensures var q := Execute(cfg, Prepared(cfg, sys, r), r, r.arrival, k).sys.pools[j];
            && q.slots == sys.pools[j].slots && (sys.pools[j].inflight == [] ==> q.inflight == [])
  {
  }

  // ----- which pool a policy picks

  lemma BusyIsClosed(cfg: Config, sys: System, key: Key, j: nat)
    requires Alike(cfg) && j < |cfg.pools| == |sys.pools| && Slotted(sys) && Busy(sys.pools[j])
    ensures !CandidateFor(cfg, Prepared(cfg, sys, PlainRequest(key)), PlainRequest(key), 0.0, j).status.Available?
  {
    AlikeEnds(cfg, j);
    var slots := sys.pools[j].slots;
    assert slots[..0] == [] && Slots.InflightCount(slots, 0.0) == 1;
    assert Prepared(cfg, sys, PlainRequest(key)).pools[j].slots == slots;
  }

  // Two pools that differ in their names alone get candidates that differ in their names alone.
  lemma RenamedCandidate(s: PoolSpec, t: PoolSpec, slots: seq<real>, headroom: real, congestion: real, fairness: real,
                         r: Request, now: real, hitRatio: real, saved: nat)
    requires GoodSpec(s) && t == s.(poolId := t.poolId) && |slots| > 0
    ensures GoodSpec(t)
    ensures Assemble(t, slots, headroom, congestion, fairness, r, now, hitRatio, saved)
         == Assemble(s, slots, headroom, congestion, fairness, r, now, hitRatio, saved).(poolId := t.poolId)
  {
    assert PoolAffinity(t, r.promptTokens) == PoolAffinity(s, r.promptTokens) && NetworkCost(t) == NetworkCost(s);
    assert Admission(t, slots, headroom, r, saved, now) == Admission(s, slots, headroom, r, saved, now);
  }

  function IdleCandidate(cfg: Config, tenants: Dict<string, TenantStats>, key: Key): Candidate
    requires GoodConfig(cfg)
  {
    var s := cfg.pools[0];
    Assemble(s, [0.0], Slots.Headroom(s.memoryGb, 0.0, 0.0), EffectiveCongestion(s.cluster, 0.0),
             FairnessPenalty(cfg, tenants, "t"), PlainRequest(key), 0.0, 0.0, 0)
  }

  lemma IdlesLookAlike(cfg: Config, sys: System, k: nat, key: Key)
    requires Alike(cfg) && k < |cfg.pools| == |sys.pools| && Slotted(sys) && Idle(sys.pools[k])
    requires Evict(sys.cache, 0.0, cfg.ttl) == sys.cache && Reserved(sys.cache, SiteOf(cfg.pools[k])) == 0.0
    requires ScoreOf(sys.cache, key, SiteOf(cfg.pools[k]), 1, 0.0, cfg.ttl) == (0.0, 0)
    ensures var prepared := Prepared(cfg, sys, PlainRequest(key));
            CandidateFor(cfg, prepared, PlainRequest(key), 0.0, k)
            == IdleCandidate(cfg, prepared.tenants, key).(poolId := cfg.pools[k].poolId)
  {
    var prepared := Prepared(cfg, sys, PlainRequest(key));
    var s, t := cfg.pools[0], cfg.pools[k];
    assert t == s.(poolId := t.poolId);
    RoundedZero();
    assert prepared.pools[k].inflight == [] && prepared.pools[k].active == 0.0;
    RenamedCandidate(s, t, [0.0], Slots.Headroom(s.memoryGb, 0.0, 0.0), EffectiveCongestion(s.cluster, 0.0),
                     FairnessPenalty(cfg, prepared.tenants, "t"), PlainRequest(key), 0.0, 0.0, 0);
  }

  // The first n candidates are closed, the others are open and differ in their names alone.
  ghost predicate OpenFrom(cs: seq<Candidate>, n: nat, c: Candidate) {
    && n < |cs|
    && (forall i :: 0 <= i < n ==> !cs[i].status.Available?)
    && (forall i :: n <= i < |cs| ==> cs[i].status.Available? && cs[i] == c.(poolId := cs[i].poolId))
  }

  lemma {:induction false} OpenOnes(cs: seq<Candidate>, n: nat)
    requires n <= |cs| && forall i :: 0 <= i < |cs| ==> (cs[i].status.Available? <==> n <= i)
    ensures OnlyAvailable(cs) == cs[n..]
  {
    if n < |cs| {
      OpenOnes(cs[..|cs| - 1], n);
      assert cs[n..] == cs[..|cs| - 1][n..] + [cs[|cs| - 1]];
    } else if |cs| > 0 {
      OpenOnes(cs[..|cs| - 1], n - 1);
    }
  }

  lemma {:induction false} FirstOfTies(cs: seq<Candidate>, key: Candidate -> seq<real>, width: nat)
    requires |cs| > 0 && (forall c :: |key(c)| == width) && forall i :: 0 <= i < |cs| ==> key(cs[i]) == key(cs[0])
    ensures LeastAt(cs, key, width) == 0
  {
    if |cs| > 1 {
      FirstOfTies(cs[..|cs| - 1], key, width);
      KeyLtIrreflexive(key(cs[0]));
    }
  }

  lemma {:induction false} FindsFirst(cs: seq<Candidate>, n: nat)
    requires n < |cs| && forall i :: 0 <= i < n ==> cs[i] != cs[n]
    ensures Find(cs, cs[n]) == n
  {
    if n > 0 {
      FindsFirst(cs[1..], n - 1);
    }
  }

  // No stateless policy looks at a name, so each picks the first of candidates that differ in
  // nothing else.
  lemma PicksFirstOpen(policy: Policy, sla: SlaClass, cs: seq<Candidate>, n: nat, c: Candidate)
    requires OpenFrom(cs, n, c)
    ensures Route(NO_NATIVES, Fixed(policy), sla, cs) == (n, Fixed(policy))
  {
    var key := (d: Candidate) => PolicyKey(policy, sla, d);
    OpenOnes(cs, n);
    assert cs[n..][0] == cs[n];
    forall i | 0 <= i < |cs[n..]| ensures key(cs[n..][i]) == key(cs[n..][0]) {
      assert cs[n..][i] == cs[n + i];
      NameIgnored(policy, sla, c, cs[n + i].poolId);
      NameIgnored(policy, sla, c, cs[n].poolId);
    }
    FirstOfTies(cs[n..], key, Width(policy));
    assert Selection.Choose(policy, sla, cs) == cs[n];
    FindsFirst(cs, n);
  }

  lemma NameIgnored(policy: Policy, sla: SlaClass, c: Candidate, name: string)
    ensures PolicyKey(policy, sla, c.(poolId := name)) == PolicyKey(policy, sla, c)
  {
  }

  // ----- the run

  // The first `limit` requests have a key of their own, the next one shares the first key.
  function TieRequest(limit: nat, k: nat): Request {
    PlainRequest(if k < limit then k else 0)
  }

  function TieCalls(limit: nat, n: nat): (calls: Calls)
    ensures |calls| == n && ValidCalls(calls) && PolicyChooses(calls)
  {
    seq(n, k requires 0 <= k < n => (TieRequest(limit, k), NO_NATIVES))
  }

  // So far every request has left one entry of its own key, on its own pool.
  ghost predicate InRow(cfg: Config, st: RunState, n: nat)
    requires GoodConfig(cfg)
  {
    && !st.raised && |st.sys.pools| == |cfg.pools| && Slotted(st.sys)
    && st.sys.cache == Row(FirstServed(cfg), n)
    && (forall j :: 0 <= j < n && j < |cfg.pools| ==> Busy(st.sys.pools[j]))
    && (forall j :: n <= j < |cfg.pools| ==> Idle(st.sys.pools[j]))
  }

  lemma OthersInRow(cfg: Config, st: RunState, n: nat, j: nat, after: RunState)
    requires Alike(cfg) && n < |cfg.pools| && InRow(cfg, st, n) && j < |cfg.pools| && j != n
    requires after == Step(cfg, st, PlainRequest(n), n)
    ensures if j < n then Busy(after.sys.pools[j]) else Idle(after.sys.pools[j])
  {
    OthersStay(cfg, st.sys, PlainRequest(n), n, j);
  }

  lemma RowTurn(cfg: Config, st: RunState, n: nat) returns (after: RunState)
    requires Alike(cfg) && n < |cfg.pools| && n < cfg.maxEntries && InRow(cfg, st, n)
    ensures after == Step(cfg, st, PlainRequest(n), n) && Busy(after.sys.pools[n])
    ensures !after.raised && after.sys.cache == Row(FirstServed(cfg), n + 1)
  {
    RowUnseen(cfg, n, n, n);
    var o;
    o, after := PlainTurn(cfg, st, n, n);
    NextKeyFits(FirstServed(cfg), n, cfg.maxEntries);
  }

  lemma NextInRow(cfg: Config, st: RunState, n: nat)
    requires GoodConfig(cfg) && n < |cfg.pools| == |st.sys.pools| && Slotted(st.sys)
    requires !st.raised && st.sys.cache == Row(FirstServed(cfg), n + 1) && Busy(st.sys.pools[n])
    requires forall j :: 0 <= j < |cfg.pools| && j != n ==> if j < n then Busy(st.sys.pools[j]) else Idle(st.sys.pools[j])
    ensures InRow(cfg, st, n + 1)
  {
  }

  lemma RowStep(cfg: Config, st: RunState, n: nat) returns (after: RunState)
    requires Alike(cfg) && n < |cfg.pools| && n < cfg.maxEntries && InRow(cfg, st, n)
    ensures after == Step(cfg, st, PlainRequest(n), n) && InRow(cfg, after, n + 1)
  {
    after := RowTurn(cfg, st, n);
    forall j | 0 <= j < |cfg.pools| && j != n
      ensures if j < n then Busy(after.sys.pools[j]) else Idle(after.sys.pools[j])
    {
      OthersInRow(cfg, st, n, j, after);
    }
    NextInRow(cfg, after, n);
  }

  lemma ServedTies(cfg: Config, o: Observation, n: nat)
    requires Alike(cfg) && 0 < n < |cfg.pools| && o == FirstServed(cfg)(n).(key := 0)
    ensures CacheDirectory.TrimRaises(Observed(Row(FirstServed(cfg), n), o), n)
  {
    assert cfg.pools[0].poolId != cfg.pools[n].poolId;
    TieRaises(FirstServed(cfg), o, n);
  }

  lemma TieStep(cfg: Config, st: RunState, n: nat)
    requires Alike(cfg) && 0 < n < |cfg.pools| && n == cfg.maxEntries && InRow(cfg, st, n)
    ensures Step(cfg, st, PlainRequest(0), n).raised
  {
    RowUnseen(cfg, n, n, 0);
    var o, after := PlainTurn(cfg, st, n, 0);
    ServedTies(cfg, o, n);
  }

  // Every stateless policy takes the pools in turn: the ones it has used are at their limit, and
  // the others look alike.
  lemma RowRoute(cfg: Config, st: RunState, n: nat, key: Key, policy: Policy)
    requires Alike(cfg) && n < |cfg.pools| && InRow(cfg, st, n)
    ensures var r := PlainRequest(key);
            Route(NO_NATIVES, Fixed(policy), r.sla, Candidates(cfg, Prepared(cfg, st.sys, r), r, 0.0)) == (n, Fixed(policy))
  {
    var r := PlainRequest(key);
    var prepared := Prepared(cfg, st.sys, r);
    var cs, c := Candidates(cfg, prepared, r, 0.0), IdleCandidate(cfg, prepared.tenants, key);
    forall j | 0 <= j < |cfg.pools|
      ensures if j < n then !cs[j].status.Available? else cs[j].status.Available? && cs[j] == c.(poolId := cs[j].poolId)
    {
      if j < n {
        BusyIsClosed(cfg, st.sys, key, j);
      } else {
        RowUnseen(cfg, n, j, key);
        PlainCandidate(cfg, st.sys, j, key);
        IdlesLookAlike(cfg, st.sys, j, key);
      }
    }
    PicksFirstOpen(policy, r.sla, cs, n, c);
  }

  lemma OneMoreTie(limit: nat, n: nat)
    ensures TieCalls(limit, n + 1) == TieCalls(limit, n) + [(TieRequest(limit, n), NO_NATIVES)]
  {
  }

  // Routed by the policy, one more request is a step to the next pool in the row.
  lemma RoutedRowStep(cfg: Config, policy: Policy, n: nat) returns (before: Routed, after: Routed)
    requires Alike(cfg) && n < |cfg.pools|
    requires var rr := RoutedRun(cfg, Stateless(policy), TieCalls(cfg.maxEntries, n));
             InRow(cfg, rr.st, n) && rr.policy == Fixed(policy)
    ensures before == RoutedRun(cfg, Stateless(policy), TieCalls(cfg.maxEntries, n))
    ensures after == RoutedRun(cfg, Stateless(policy), TieCalls(cfg.maxEntries, n + 1))
    ensures after.policy == Fixed(policy) && after.st == Step(cfg, before.st, TieRequest(cfg.maxEntries, n), n)
  {
    var calls, longer, r := TieCalls(cfg.maxEntries, n), TieCalls(cfg.maxEntries, n + 1), TieRequest(cfg.maxEntries, n);
    OneMoreTie(cfg.maxEntries, n);
    before, after := OneMoreCall(cfg, Stateless(policy), calls, longer, r, NO_NATIVES);
    RoutedTurn(cfg, policy, n, r.cacheKey, before, after);
  }

  lemma RoutedTurn(cfg: Config, policy: Policy, n: nat, key: Key, before: Routed, after: Routed)
    requires Alike(cfg) && n < |cfg.pools| && InRow(cfg, before.st, n) && before.policy == Fixed(policy)
    requires after == RoutedStep(cfg, before, PlainRequest(key), NO_NATIVES)
    ensures after.policy == Fixed(policy) && after.st == Step(cfg, before.st, PlainRequest(key), n)
  {
    RowRoute(cfg, before.st, n, key, policy);
    var k, p, o, next := StepParts(cfg, before, PlainRequest(key), NO_NATIVES);
  }

  lemma {:induction false} RowRun(cfg: Config, policy: Policy, n: nat)
    requires Alike(cfg) && n <= cfg.maxEntries && n <= |cfg.pools|
    ensures var rr := RoutedRun(cfg, Stateless(policy), TieCalls(cfg.maxEntries, n));
            InRow(cfg, rr.st, n) && rr.policy == Fixed(policy)
  {
    if n > 0 {
      RowRun(cfg, policy, n - 1);
      var after := NextInRun(cfg, policy, n - 1);
    }
  }

  lemma NextInRun(cfg: Config, policy: Policy, n: nat) returns (after: Routed)
    requires Alike(cfg) && n < cfg.maxEntries && n < |cfg.pools|
    requires var rr := RoutedRun(cfg, Stateless(policy), TieCalls(cfg.maxEntries, n));
             InRow(cfg, rr.st, n) && rr.policy == Fixed(policy)
    ensures after == RoutedRun(cfg, Stateless(policy), TieCalls(cfg.maxEntries, n + 1))
    ensures InRow(cfg, after.st, n + 1) && after.policy == Fixed(policy)
  {
    var before;
    before, after := RoutedRowStep(cfg, policy, n);
    var next := RowStep(cfg, before.st, n);
  }

  lemma TieRunRaises(cfg: Config, policy: Policy)
    requires Alike(cfg) && 0 < cfg.maxEntries < |cfg.pools|
    ensures RoutedRun(cfg, Stateless(policy), TieCalls(cfg.maxEntries, cfg.maxEntries + 1)).st.raised
  {
    var n := cfg.maxEntries;
    RowRun(cfg, policy, n);
    var before, after := RoutedRowStep(cfg, policy, n);
    TieStep(cfg, before.st, n);
  }

  // ----- such a configuration

  function PlainPool(k: nat): PoolSpec {
    PoolSpec(Cluster("c", 0.0, 0.0, [], []), seq(k, i => 'p'), Mock, {}, Rates(1.0, 1.0), 1.0, 1, 0.0, 0.0, false, 1,
             TopologyBuild.Ethernet, TopologyBuild.NoProbe)
  }

  lemma PlainPoolWilling(k: nat)
    ensures Willing(PlainPool(k))
  {
    var s := PlainPool(k);
    var ms := UnloadedPrefill(Mock, s.rates, PlainRequest(0), 0.0, PoolAffinity(s, 1));
    assert ms >= 1000.0 * 0.72;
    ProductSign(CongestionGain(Mock), ms);
    ProductSign(CongestionGain(Mock) * ms, Round4(EffectiveCongestion(s.cluster, 0.0)));
    ProductSign(NetworkWeight(Mock, 1), Round4(NetworkCost(s)));
  }

  lemma AlikeExample(maxEntries: nat) returns (cfg: Config)
    ensures Alike(cfg) && cfg.maxEntries == maxEntries && |cfg.pools| == maxEntries + 1
  {
    cfg := Config(seq(maxEntries + 1, k requires 0 <= k => PlainPool(k)), [], 0.0, 180.0, maxEntries);
    forall k | 0 <= k < |cfg.pools| ensures Willing(cfg.pools[k]) && |cfg.pools[k].poolId| == k {
      PlainPoolWilling(k);
    }
  }

  // Whoever chooses.
  ghost predicate NeverRaises(cfg: Config, n: nat)
    requires GoodConfig(cfg)
  {
    forall trace :: ValidTrace(cfg, trace) && |trace| <= n ==> !Run(cfg, trace).raised
  }

  // When this policy chooses.
  ghost predicate PolicyNeverRaises(cfg: Config, policy: Policy, n: nat)
    requires GoodConfig(cfg)
  {
    forall calls :: ValidCalls(calls) && PolicyChooses(calls) && |calls| <= n ==>
      !RoutedRun(cfg, Stateless(policy), calls).st.raised
  }

  lemma {:induction false} NoLongerTrace(cfg: Config, name: PolicyName, calls: Calls)
    requires GoodConfig(cfg) && ValidCalls(calls)
    ensures |RoutedRun(cfg, name, calls).trace| <= |calls|
  {
    if |calls| > 0 {
      NoLongerTrace(cfg, name, calls[..|calls| - 1]);
    }
  }

  lemma PolicyToo(cfg: Config, policy: Policy, n: nat)
    requires GoodConfig(cfg) && NeverRaises(cfg, n)
    ensures PolicyNeverRaises(cfg, policy, n)
  {
    forall calls | ValidCalls(calls) && PolicyChooses(calls) && |calls| <= n
      ensures !RoutedRun(cfg, Stateless(policy), calls).st.raised
    {
      RoutedRunIsRun(cfg, Stateless(policy), calls);
      NoLongerTrace(cfg, Stateless(policy), calls);
    }
  }

  // No run of n requests ends in an exception, under any configuration with this size limit, if
  // and only if n does not exceed the limit, or the limit is zero: whoever chooses, and just as
  // well when any one of the stateless policies does.
  lemma NoRunRaisesIffFew(n: nat, maxEntries: nat, policy: Policy)
    ensures (forall cfg :: GoodConfig(cfg) && cfg.maxEntries == maxEntries ==> NeverRaises(cfg, n))
       <==> n <= maxEntries || maxEntries == 0
    ensures (forall cfg :: GoodConfig(cfg) && cfg.maxEntries == maxEntries ==> PolicyNeverRaises(cfg, policy, n))
       <==> n <= maxEntries || maxEntries == 0
  {
    if n <= maxEntries || maxEntries == 0 {
      forall cfg | GoodConfig(cfg) && cfg.maxEntries == maxEntries
        ensures NeverRaises(cfg, n) && PolicyNeverRaises(cfg, policy, n)
      {
        forall trace | ValidTrace(cfg, trace) && |trace| <= n ensures !Run(cfg, trace).raised {
          FewNeverRaise(cfg, trace);
        }
        PolicyToo(cfg, policy, n);
      }
    } else {
      var cfg := AlikeExample(maxEntries);
      TieRunRaises(cfg, policy);
      assert !PolicyNeverRaises(cfg, policy, n);
      if NeverRaises(cfg, n) {
        PolicyToo(cfg, policy, n);
        assert false;
      }
    }
  }
}
