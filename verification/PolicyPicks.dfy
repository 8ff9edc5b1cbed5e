// What each policy and each native selector picks, in terms of the figures of the candidates.
module PolicyPicks {
  import opened Numbers
  import opened Requests
  import opened Dicts
  import opened Selection
  import opened PolicyState
  import opened CacheModel

  // The candidates a policy chooses among: the available ones, or all if there is none.
  ghost predicate Contends(d: Candidate, cs: seq<Candidate>) {
    d in cs && (d.status.Available? || forall i :: 0 <= i < |cs| ==> !cs[i].status.Available?)
  }

  // ----- queue first, cache first

  // Less queue delay, then a cheaper network, then a cheaper accelerator.
  ghost predicate QueueBefore(d: Candidate, c: Candidate) {
    || d.queueDelayMs < c.queueDelayMs
    || (d.queueDelayMs == c.queueDelayMs && d.networkCost < c.networkCost)
    || (d.queueDelayMs == c.queueDelayMs && d.networkCost == c.networkCost && d.costPer1M < c.costPer1M)
  }

  lemma ContendsIs(d: Candidate, cs: seq<Candidate>)
    ensures Contends(d, cs) <==> d in cs && (d.status.Available? || !AnyAvailable(cs))
  {
  }

  lemma OneKey(x: real, x': real)
    ensures KeyLt([x], [x']) <==> x < x'
  {
  }

  lemma TwoKeys(x: real, y: real, x': real, y': real)
    ensures KeyLt([x, y], [x', y']) <==> x < x' || (x == x' && y < y')
  {
    assert [x, y][1..] == [y] && [x', y'][1..] == [y'];
    OneKey(y, y');
  }

  lemma ThreeKeys(x: real, y: real, z: real, x': real, y': real, z': real)
    ensures KeyLt([x, y, z], [x', y', z']) <==> x < x' || (x == x' && y < y') || (x == x' && y == y' && z < z')
  {
    assert [x, y, z][1..] == [y, z] && [x', y', z'][1..] == [y', z'];
    TwoKeys(y, z, y', z');
  }

  lemma FourKeys(w: real, x: real, y: real, z: real, w': real, x': real, y': real, z': real)
    ensures KeyLt([w, x, y, z], [w', x', y', z']) <==>
            w < w' || (w == w' && (x < x' || (x == x' && y < y') || (x == x' && y == y' && z < z')))
  {
    assert [w, x, y, z][1..] == [x, y, z] && [w', x', y', z'][1..] == [x', y', z'];
    ThreeKeys(x, y, z, x', y', z');
  }

  // Nobody who contends comes before the pick of least_queue ...
  lemma LeastQueuePick(sla: SlaClass, cs: seq<Candidate>, d: Candidate)
    requires |cs| > 0 && Contends(d, cs)
    ensures Contends(Choose(LeastQueue, sla, cs), cs) && !QueueBefore(d, Choose(LeastQueue, sla, cs))
  {
    ChooseIsLeast(LeastQueue, sla, cs);
    var c := Choose(LeastQueue, sla, cs);
    ThreeKeys(d.queueDelayMs, d.networkCost, d.costPer1M, c.queueDelayMs, c.networkCost, c.costPer1M);
  }

  // ... nor has anyone a better hit ratio than the pick of cache_aware, or the same and comes
  // before it.
  lemma CacheAwarePick(sla: SlaClass, cs: seq<Candidate>, d: Candidate)
    requires |cs| > 0 && Contends(d, cs)
    ensures var c := Choose(CacheAware, sla, cs);
            && Contends(c, cs) && d.hitRatio <= c.hitRatio && (d.hitRatio == c.hitRatio ==> !QueueBefore(d, c))
  {
    ChooseIsLeast(CacheAware, sla, cs);
    var c := Choose(CacheAware, sla, cs);
    FourKeys(-(d.hitRatio * 1000.0), d.queueDelayMs, d.networkCost, d.costPer1M,
             -(c.hitRatio * 1000.0), c.queueDelayMs, c.networkCost, c.costPer1M);
  }

  // ----- weighted sums

  // At least as good in every figure that topology_greedy weighs.
  ghost predicate Closer(d: Candidate, c: Candidate) {
    d.queueDelayMs <= c.queueDelayMs && d.networkCost <= c.networkCost && d.affinity >= c.affinity && d.congestion <= c.congestion
  }

  // Whoever is at least as good in all of them and still not picked is as good as the pick in
  // each; and what a contender is better by in one figure the pick makes up for in the others:
  // a network cost of 1 for 14 ms of delay, an affinity of 1 for 110, a congestion of 1 for 80.
  lemma TopologyGreedyPick(sla: SlaClass, cs: seq<Candidate>, d: Candidate)
    requires |cs| > 0 && Contends(d, cs)
    ensures var c := Choose(TopologyGreedy, sla, cs);
            && Contends(c, cs)
            && (Closer(d, c) ==> Closer(c, d))
            && c.queueDelayMs - d.queueDelayMs <= 14.0 * (d.networkCost - c.networkCost) + 110.0 * (c.affinity - d.affinity)
                                                  + 80.0 * (d.congestion - c.congestion)
  {
    ChooseIsLeast(TopologyGreedy, sla, cs);
    var c := Choose(TopologyGreedy, sla, cs);
    OneKey(PolicyKey(TopologyGreedy, sla, d)[0], PolicyKey(TopologyGreedy, sla, c)[0]);
  }

  // A best-effort request shuns premium pools, a realtime one seeks them.
  ghost predicate Befits(d: Candidate, c: Candidate, sla: SlaClass) {
    (sla.BestEffort? && d.premium ==> c.premium) && (sla.Realtime? && c.premium ==> d.premium)
  }

  // At least as good in every figure that multi_objective weighs.
  ghost predicate Dominates(d: Candidate, c: Candidate, sla: SlaClass) {
    && d.queueDelayMs + d.prefillMs + d.decodeMs <= c.queueDelayMs + c.prefillMs + c.decodeMs
    && d.networkCost <= c.networkCost && d.costPer1M <= c.costPer1M
    && d.congestion <= c.congestion && d.hitRatio >= c.hitRatio && d.affinity >= c.affinity && d.fairness <= c.fairness
    && d.cacheBonus >= c.cacheBonus && d.topologyPenalty <= c.topologyPenalty && d.loadPenalty <= c.loadPenalty
    && Befits(d, c, sla)
  }

  // How much better d is than c where latency does not count, in the unit of the objective.
  function Advantage(d: Candidate, c: Candidate, costWeight: real): real {
    18.0 * (c.networkCost - d.networkCost) + costWeight * (c.costPer1M - d.costPer1M) + 90.0 * (c.congestion - d.congestion)
    + 450.0 * (d.hitRatio - c.hitRatio) + 85.0 * (d.affinity - c.affinity) + 110.0 * (c.fairness - d.fairness)
    + 70.0 * (d.cacheBonus - c.cacheBonus) + 65.0 * (c.topologyPenalty - d.topologyPenalty)
    + 55.0 * (c.loadPenalty - d.loadPenalty)
  }

  function Mismatch(c: Candidate, sla: SlaClass): real {
    match sla
    case Realtime => if c.premium then 0.0 else 25.0
    case Interactive => 0.0
    case BestEffort => if c.premium then 70.0 else 0.0
  }

  // Whoever dominates the pick of multi_objective is dominated by it; and nobody's other
  // advantages outweigh what latency he costs, at 1.4, 1.1 or 0.75 a millisecond by class.
  lemma MultiObjectivePick(sla: SlaClass, cs: seq<Candidate>, d: Candidate)
    requires |cs| > 0 && Contends(d, cs)
    ensures var c := Choose(MultiObjective, sla, cs);
            && Contends(c, cs)
            && (Dominates(d, c, sla) ==> Dominates(c, d, sla))
            && var perMs := match sla case Realtime => 1.4 case Interactive => 1.1 case BestEffort => 0.75;
               Advantage(d, c, if sla.Realtime? then 0.25 else 0.55) + Mismatch(c, sla) - Mismatch(d, sla)
               <= perMs * (d.queueDelayMs + d.prefillMs + d.decodeMs - (c.queueDelayMs + c.prefillMs + c.decodeMs))
  {
    ChooseIsLeast(MultiObjective, sla, cs);
    var c := Choose(MultiObjective, sla, cs);
    OneKey(PolicyKey(MultiObjective, sla, d)[0], PolicyKey(MultiObjective, sla, c)[0]);
  }

  // ----- policies with a memory

  // The pick of spread has been picked least often on balance, then has the least delay, then
  // the cheapest network.
  lemma SpreadPick(counts: Counts, cs: seq<Candidate>, d: Candidate)
    requires |cs| > 0 && Contends(d, cs)
    ensures var c := SpreadChoice(counts, cs);
            var n, m := Get(counts, Site(c.clusterId, c.poolId), 0), Get(counts, Site(d.clusterId, d.poolId), 0);
            && Contends(c, cs) && n <= m
            && (n == m ==> c.queueDelayMs <= d.queueDelayMs)
            && (n == m && c.queueDelayMs == d.queueDelayMs ==> c.networkCost <= d.networkCost)
  {
    var c := SpreadChoice(counts, cs);
    PickLeastIs(cs, SpreadKey(counts), 3, d);
    ThreeKeys(Get(counts, Site(d.clusterId, d.poolId), 0) as real, d.queueDelayMs, d.networkCost,
              Get(counts, Site(c.clusterId, c.poolId), 0) as real, c.queueDelayMs, c.networkCost);
  }

  lemma PickLeastIs(cs: seq<Candidate>, key: Candidate -> seq<real>, width: nat, d: Candidate)
    requires |cs| > 0 && (forall c :: |key(c)| == width) && Contends(d, cs)
    ensures Contends(PickLeast(cs, key, width), cs) && !KeyLt(key(d), key(PickLeast(cs, key, width)))
  {
    var usable := Usable(cs);
    var k := LeastAt(usable, key, width);
    UsableAdmits(cs, k);
    LeastAtIsFirst(usable, key, width);
    OnlyAvailableIs(cs);
    if d.status.Available? {
      assert d in OnlyAvailable(cs);
    } else {
      UsableAdmits(cs, 0);
      assert usable == cs;
    }
    var j :| 0 <= j < |usable| && usable[j] == d;
    assert !KeyLt(key(usable[j]), key(usable[k]));
  }

  // What the bandit expects of a pool: the mean of its rewards, a bonus that halves with the
  // first pull and shrinks from there, and what the candidate itself promises.
  ghost predicate Expects(b: Bandit, explorationBonus: real, c: Candidate, bonus: real, x: real) {
    var k := Site(c.clusterId, c.poolId);
    && bonus * (Get(b.counts, k, 0) as real + 1.0) == explorationBonus
    && x == Get(b.value, k, 0.0) + bonus + 120.0 * c.hitRatio + 60.0 * c.affinity - 0.08 * (c.queueDelayMs + c.costPer1M)
  }

  lemma ScoreExpects(b: Bandit, explorationBonus: real, c: Candidate) returns (bonus: real)
    ensures Expects(b, explorationBonus, c, bonus, BanditScore(b, explorationBonus, c))
  {
    bonus := explorationBonus / (1 + Get(b.counts, Site(c.clusterId, c.poolId), 0)) as real;
  }

  // Of no contender it expects more than of its pick.
  lemma BanditPick(b: Bandit, explorationBonus: real, cs: seq<Candidate>, d: Candidate)
    returns (bonus: real, x: real, bonus': real, y: real)
    requires |cs| > 0 && Contends(d, cs)
    ensures var c := PickLeast(cs, BanditKey(b, explorationBonus), 1);
            && Contends(c, cs) && x >= y
            && Expects(b, explorationBonus, c, bonus, x) && Expects(b, explorationBonus, d, bonus', y)
  {
    var c := PickLeast(cs, BanditKey(b, explorationBonus), 1);
    PickLeastIs(cs, BanditKey(b, explorationBonus), 1, d);
    x, y := BanditScore(b, explorationBonus, c), BanditScore(b, explorationBonus, d);
    OneKey(-y, -x);
    bonus := ScoreExpects(b, explorationBonus, c);
    bonus' := ScoreExpects(b, explorationBonus, d);
  }

  // ----- the native selectors

  // How much better d is than c in what the selectors weigh besides latency and affinity.
  function NativeAdvantage(d: Candidate, c: Candidate, sla: SlaClass): real {
    0.1 * (c.queueDelayMs - d.queueDelayMs) + 18.0 * (c.networkCost - d.networkCost)
    + (if sla.Realtime? then 0.2 else 0.6) * (c.costPer1M - d.costPer1M) + 450.0 * (d.hitRatio - c.hitRatio)
  }

  function PerNativeMs(sla: SlaClass): real {
    match sla case Realtime => 1.5 case Interactive => 1.1 case BestEffort => 0.8
  }

  // At least as good in every figure the selectors weigh.
  ghost predicate NativelyDominates(d: Candidate, c: Candidate) {
    && d.queueDelayMs + d.prefillMs + d.decodeMs <= c.queueDelayMs + c.prefillMs + c.decodeMs
    && d.queueDelayMs <= c.queueDelayMs && d.networkCost <= c.networkCost && d.costPer1M <= c.costPer1M
    && d.hitRatio >= c.hitRatio && d.affinity >= c.affinity && d.fairness <= c.fairness
  }

  // No available candidate's other advantages outweigh its extra latency; nor does one dominate
  // the pick without being dominated by it.
  ghost predicate NativelyBest(cs: seq<Candidate>, k: int, sla: SlaClass, perFairness: real, perAffinity: real) {
    && 0 <= k < |cs| && cs[k].status.Available?
    && forall j :: 0 <= j < |cs| && cs[j].status.Available? ==>
         var c, d := cs[k], cs[j];
         && (NativelyDominates(d, c) ==> NativelyDominates(c, d))
         && NativeAdvantage(d, c, sla) + perFairness * (c.fairness - d.fairness) + perAffinity * (d.affinity - c.affinity)
            <= PerNativeMs(sla) * (d.queueDelayMs + d.prefillMs + d.decodeMs - (c.queueDelayMs + c.prefillMs + c.decodeMs))
  }

  // The two selectors differ in what fairness and affinity are worth to them.
  lemma NativePicks(sla: SlaClass, cs: seq<Candidate>)
    ensures (exists i :: 0 <= i < |cs| && cs[i].status.Available?) ==>
              NativelyBest(cs, CppIndex(sla, cs), sla, 120.0, 90.0) && NativelyBest(cs, GrpcIndex(sla, cs), sla, 110.0, 85.0)
    ensures |cs| > 0 && (forall i :: 0 <= i < |cs| ==> !cs[i].status.Available?) ==>
              && GrpcIndex(sla, cs) == 0
              && var k := CppIndex(sla, cs); 0 <= k < |cs| && forall j :: 0 <= j < |cs| ==>
                   cs[k].queueDelayMs + cs[k].prefillMs + cs[k].decodeMs <= cs[j].queueDelayMs + cs[j].prefillMs + cs[j].decodeMs
  {
    BestScoredIs(CPP_WEIGHTS, sla, cs);
    BestScoredIs(GRPC_WEIGHTS, sla, cs);
    if AnyAvailable(cs) {
      LeastScoreBest(CPP_WEIGHTS, sla, cs, CppIndex(sla, cs));
      LeastScoreBest(GRPC_WEIGHTS, sla, cs, GrpcIndex(sla, cs));
    } else if |cs| > 0 {
      LeastShownIsLowest(TotalLatencies(cs), AllOf(cs), |cs|);
      assert AllOf(cs)[0];
      var k := CppIndex(sla, cs);
      forall j | 0 <= j < |cs|
        ensures cs[k].queueDelayMs + cs[k].prefillMs + cs[k].decodeMs <= cs[j].queueDelayMs + cs[j].prefillMs + cs[j].decodeMs
      {
        assert AllOf(cs)[j] && TotalLatencies(cs)[k] <= TotalLatencies(cs)[j];
      }
    }
  }

  lemma LeastScoreBest(w: Weights, sla: SlaClass, cs: seq<Candidate>, k: int)
    requires LowestLeast(Scores(w, sla, cs), Shown(cs), |cs|, k) && w.fairness > 0.0 && w.affinity > 0.0
    ensures NativelyBest(cs, k, sla, w.fairness, w.affinity)
  {
    assert Shown(cs)[k];
    forall j | 0 <= j < |cs| && cs[j].status.Available?
      ensures NativelyDominates(cs[j], cs[k]) ==> NativelyDominates(cs[k], cs[j])
      ensures NativeAdvantage(cs[j], cs[k], sla) + w.fairness * (cs[k].fairness - cs[j].fairness)
              + w.affinity * (cs[j].affinity - cs[k].affinity)
              <= PerNativeMs(sla) * (cs[j].queueDelayMs + cs[j].prefillMs + cs[j].decodeMs
                                     - (cs[k].queueDelayMs + cs[k].prefillMs + cs[k].decodeMs))
    {
      assert Shown(cs)[j] && Scores(w, sla, cs)[k] <= Scores(w, sla, cs)[j];
      ScoresCompare(w, sla, cs[j], cs[k]);
    }
  }

  lemma ScoresCompare(w: Weights, sla: SlaClass, d: Candidate, c: Candidate)
    requires NativeScore(w, sla, c) <= NativeScore(w, sla, d) && w.fairness > 0.0 && w.affinity > 0.0
    ensures NativelyDominates(d, c) ==> NativelyDominates(c, d)
    ensures NativeAdvantage(d, c, sla) + w.fairness * (c.fairness - d.fairness) + w.affinity * (d.affinity - c.affinity)
            <= PerNativeMs(sla) * (d.queueDelayMs + d.prefillMs + d.decodeMs - (c.queueDelayMs + c.prefillMs + c.decodeMs))
  {
    var f, a := c.fairness - d.fairness, d.affinity - c.affinity;
    ScoreDifference(w, sla, d, c, w.fairness * f, w.affinity * a);
    ProductSign(w.fairness, f);
    ProductSign(w.affinity, a);
    ProductSign(PerNativeMs(sla), c.queueDelayMs + c.prefillMs + c.decodeMs - (d.queueDelayMs + d.prefillMs + d.decodeMs));
    match sla case Realtime => case Interactive => case BestEffort =>
  }

  lemma ScoreDifference(w: Weights, sla: SlaClass, d: Candidate, c: Candidate, fair: real, near: real)
    requires fair == w.fairness * (c.fairness - d.fairness) && near == w.affinity * (d.affinity - c.affinity)
    ensures NativeScore(w, sla, d) - NativeScore(w, sla, c)
         == PerNativeMs(sla) * (d.queueDelayMs + d.prefillMs + d.decodeMs - (c.queueDelayMs + c.prefillMs + c.decodeMs))
            - NativeAdvantage(d, c, sla) - fair - near
  {
    match sla case Realtime => case Interactive => case BestEffort =>
  }
}
