// What a candidate says of its pool, its cluster and its tenant.
module CandidateFacts {
  import opened Numbers
  import opened Dicts
  import opened Requests
  import opened Backends
  import opened Selection
  import opened ControlModel
  import Slots = PoolModel
  import CacheModel

  // ----- congestion

  lemma {:induction false} WindowCounts(base: real, before: seq<(Window, real)>, w: (Window, real), after: seq<(Window, real)>,
                                        now: real)
    ensures Congested(base, before + [w] + after, now)
         == Product(Congested(base, before + after, now), if w.0.0 <= now <= w.0.1 then w.1 else 1.0)
  {
    var all, less := before + [w] + after, before + after;
    if |after| == 0 {
      assert all[..|all| - 1] == before && less == before;
    } else {
      var init, last := after[..|after| - 1], after[|after| - 1];
      WindowCounts(base, before, w, init, now);
      assert all[..|all| - 1] == before + [w] + init && less[..|less| - 1] == before + init;
      Swapped(Congested(base, before + init, now), if w.0.0 <= now <= w.0.1 then w.1 else 1.0, last.1);
    }
  }

  lemma Swapped(x: real, f: real, g: real)
    ensures Product(Product(x, f), g) == Product(Product(x, g), f)
  {
  }

  // Congestion is the base where no windows are configured, and any one window multiplies it by
  // its factor while it is open, both ends included, and leaves it alone otherwise.
  lemma CongestionByWindow(c: Cluster, now: real, i: nat)
    ensures c.congestions == [] ==> EffectiveCongestion(c, now) == c.baseCongestion
    ensures i < |c.congestions| ==>
              var w := c.congestions[i];
              EffectiveCongestion(c, now)
              == Product(EffectiveCongestion(c.(congestions := c.congestions[..i] + c.congestions[i + 1..]), now),
                         if w.0.0 <= now <= w.0.1 then w.1 else 1.0)
  {
    if i < |c.congestions| {
      var ws := c.congestions;
      assert ws == ws[..i] + [ws[i]] + ws[i + 1..];
      WindowCounts(c.baseCongestion, ws[..i], ws[i], ws[i + 1..], now);
    }
  }

  // ----- admission

  // The reason given is that of the first check to fail.
  lemma ReasonIsFirst(cfg: Config, sys: System, r: Request, now: real, i: nat)
    requires GoodConfig(cfg) && i < |cfg.pools| == |sys.pools| && |sys.pools[i].slots| > 0
    ensures var s, p, status := cfg.pools[i], sys.pools[i], CandidateFor(cfg, sys, r, now, i).status;
            var down := exists w :: w in s.cluster.failures && w.0 <= now <= w.1;
            var unserved := s.models != {} && r.model !in s.models;
            var full := Slots.InflightCount(p.slots, now) >= s.queueLimit;
            && (status == Rejected(ClusterUnavailable) <==> down)
            && (status == Rejected(UnsupportedModel) <==> !down && unserved)
            && (status == Rejected(QueueLimit) <==> !down && !unserved && full)
            && (status == Available || status == Rejected(MemoryPressure) <==> !down && !unserved && !full)
  {
    var s := cfg.pools[i];
    if w :| w in s.cluster.failures && w.0 <= now <= w.1 {
      var j :| 0 <= j < |s.cluster.failures| && s.cluster.failures[j] == w;
    }
    assert |s.models| == 0 <==> s.models == {};
  }

  // ----- fairness

  // A tenant pays for the excess of its share of all completions over its share of the weights,
  // one weight by default, and pays nothing where there is none.
  ghost predicate PaysFor(cfg: Config, tenants: Dict<string, TenantStats>, t: string, penalty: real, excess: real) {
    var total, weights := SumBy(tenants, Completed()) as real, Max(0.000000001, SumWeights(cfg.tenantWeights));
    var mine := Get(tenants, t, NO_STATS).completed as real * weights - Get(cfg.tenantWeights, t, 1.0) * total;
    && penalty == excess * cfg.fairnessStrength && excess >= 0.0
    && excess * (total * weights) >= mine && (excess == 0.0 || excess * (total * weights) == mine)
  }

  lemma FairnessPays(cfg: Config, tenants: Dict<string, TenantStats>, t: string) returns (excess: real)
    ensures SumBy(tenants, Completed()) == 0 ==> FairnessPenalty(cfg, tenants, t) == 0.0
    ensures SumBy(tenants, Completed()) > 0 ==> PaysFor(cfg, tenants, t, FairnessPenalty(cfg, tenants, t), excess)
  {
    excess := 0.0;
    var total := SumBy(tenants, Completed());
    if total > 0 {
      var weights := Max(0.000000001, SumWeights(cfg.tenantWeights));
      var a, e := Get(tenants, t, NO_STATS).completed as real / total as real, Get(cfg.tenantWeights, t, 1.0) / weights;
      excess := Max(0.0, a - e);
      SharesCompare(Get(tenants, t, NO_STATS).completed as real, total as real, Get(cfg.tenantWeights, t, 1.0), weights, a, e, excess);
    }
  }

  lemma SharesCompare(mine: real, total: real, weight: real, weights: real, a: real, e: real, excess: real)
    requires total > 0.0 && weights > 0.0 && a == mine / total && e == weight / weights && excess == Max(0.0, a - e)
    ensures excess * (total * weights) >= mine * weights - weight * total
    ensures excess == 0.0 || excess * (total * weights) == mine * weights - weight * total
  {
    assert a * total == mine && e * weights == weight;
    var all := total * weights;
    ProductSign(total, weights);
    assert a * all == mine * weights && e * all == weight * total;
    assert (a - e) * all == mine * weights - weight * total;
    ProductMonotone(all, a - e, excess);
  }

  // The weights are added up, in any order.
  lemma {:induction false} WeightsAdd(before: Dict<string, real>, after: Dict<string, real>, t: string, w: real)
    ensures SumWeights([]) == 0.0
    ensures SumWeights(before + [(t, w)] + after) == SumWeights(before + after) + w
  {
    var all, less := before + [(t, w)] + after, before + after;
    if |before| == 0 {
      assert all[1..] == after && less == after;
    } else {
      WeightsAdd(before[1..], after, t, w);
      assert all[1..] == before[1..] + [(t, w)] + after && less[1..] == before[1..] + after;
    }
  }

  // ----- the figures

  ghost predicate Rounded(x: real, y: real) {
    -HALF_STEP <= x - y <= HALF_STEP
  }

  // What the figures of a candidate are the figures of.  A job placed now would wait as long as
  // it says.
  ghost predicate Describes(c: Candidate, s: PoolSpec, p: Slots.Pool, r: Request, now: real)
    requires GoodSpec(s) && |p.slots| > 0
  {
    && c.clusterId == s.cluster.id && c.poolId == s.poolId && c.backend == s.backend
    && c.costPer1M == s.costPer1M && c.premium == s.premium
    && (forall d, m :: Rounded(c.queueDelayMs, 1000.0 * (Slots.NextJob(p, now, d, m).start - now)))
    && Rounded(c.congestion, p.congestion) && Rounded(c.networkCost, NetworkCost(s)) && c.affinity == PoolAffinity(s, r.promptTokens)
    && Rounded(c.headroomGb, Max(0.0, s.memoryGb - p.active - p.reserved))
    && (c.prefillMs, c.decodeMs) == EstimateLatencyMs(s.backend, s.rates, r, c.hitRatio, c.affinity, NetworkCost(s), p.congestion)
  }

  // The three figures added for multi_objective: the hit ratio, more by an 8192nd of itself for
  // every token saved; what the network costs beyond the affinity; and the queue delay in
  // seconds with the congestion and what is missing of 64 GB of headroom, as a share of it.
  ghost predicate Enriched(c: Candidate) {
    && Rounded(c.cacheBonus, Product(c.hitRatio, 1.0 + c.savedTokens as real / 8192.0))
    && (if c.networkCost > c.affinity then Rounded(c.topologyPenalty, c.networkCost - c.affinity) else c.topologyPenalty == 0.0)
    && Rounded(c.loadPenalty, c.queueDelayMs / 1000.0 + c.congestion
                              + (if c.headroomGb < 64.0 then 1.0 - c.headroomGb / 64.0 else 0.0))
  }

  lemma WaitIs(p: Slots.Pool, now: real, d: real, m: real)
    requires |p.slots| > 0
    ensures 1000.0 * (Slots.NextJob(p, now, d, m).start - now) == Slots.QueueDelayMs(p.slots, now)
  {
  }

  lemma AssembleDescribes(s: PoolSpec, p: Slots.Pool, fairness: real, r: Request, now: real, hitRatio: real, saved: nat)
    requires GoodSpec(s) && |p.slots| > 0
    ensures Describes(Assemble(s, p.slots, Slots.Headroom(s.memoryGb, p.active, p.reserved), p.congestion, fairness, r, now,
                               hitRatio, saved), s, p, r, now)
  {
    forall d, m ensures 1000.0 * (Slots.NextJob(p, now, d, m).start - now) == Slots.QueueDelayMs(p.slots, now) {
      WaitIs(p, now, d, m);
    }
  }

  lemma AssembleEnriches(s: PoolSpec, slots: seq<real>, headroom: real, congestion: real, fairness: real, r: Request, now: real,
                         hitRatio: real, saved: nat)
    requires GoodSpec(s) && |slots| > 0
    ensures Enriched(Assemble(s, slots, headroom, congestion, fairness, r, now, hitRatio, saved))
  {
    ZeroRounds();
  }

  lemma ZeroRounds()
    ensures Round4(0.0) == 0.0
  {
  }

  lemma CandidateDescribes(cfg: Config, sys: System, r: Request, now: real, i: nat)
    requires GoodConfig(cfg) && i < |cfg.pools| == |sys.pools| && |sys.pools[i].slots| > 0
    ensures var c, s := CandidateFor(cfg, sys, r, now, i), cfg.pools[i];
            var score := CacheModel.ScoreOf(sys.cache, r.cacheKey, SiteOf(s), r.promptTokens, now, cfg.ttl);
            && Describes(c, s, sys.pools[i], r, now) && Enriched(c)
            && Rounded(c.hitRatio, score.0) && c.savedTokens == score.1
            && c.fairness == FairnessPenalty(cfg, sys.tenants, r.tenantId)
  {
    var s, p := cfg.pools[i], sys.pools[i];
    var score := CacheModel.ScoreOf(sys.cache, r.cacheKey, SiteOf(s), r.promptTokens, now, cfg.ttl);
    var fairness := FairnessPenalty(cfg, sys.tenants, r.tenantId);
    AssembleDescribes(s, p, fairness, r, now, Round4(score.0), score.1);
    AssembleEnriches(s, p.slots, Slots.Headroom(s.memoryGb, p.active, p.reserved), p.congestion, fairness, r, now,
                     Round4(score.0), score.1);
  }
}
