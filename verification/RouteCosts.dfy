// What the routes of a configured fabric cost, and how well its pools suit a prompt, in terms of
// tiers, probes and prompt lengths alone.
module RouteCosts {
  import opened Numbers
  import opened Topology
  import opened TopologyBuild
  import opened TopologyServices

  ghost predicate Configured(config: seq<ClusterConfig>, i: nat, j: nat) {
    WellFormed(config) && i < |config| && j < |config[i].pools|
  }

  function RouteTo(config: seq<ClusterConfig>, i: nat, j: nat): Lookup<Distance>
    requires i < |config| && j < |config[i].pools|
  {
    RouteCostOf(Built(config), config[i].clusterId, config[i].pools[j].poolId)
  }

  // ----- cost

  // The cost x before scaling is as low as two floors allow, 0.05 and what the tier's score falls
  // short of 1.2; a probe scales it, and the route costs that, rounded.
  ghost predicate Costs(route: Lookup<Distance>, score: real, factor: real, x: real, scaled: real) {
    && scaled == x * factor && route == Found(Finite(Round4(scaled)))
    && x >= 0.05 && x + score >= 1.2 && (x == 0.05 || x + score == 1.2)
  }

  lemma CostBeforeScaling(config: seq<ClusterConfig>, i: nat, j: nat) returns (x: real, factor: real, scaled: real)
    requires Configured(config, i, j)
    ensures factor == ProbeFactor(config[i].probe) > 0.0
    ensures Costs(RouteTo(config, i, j), TierScore(config[i].pools[j].tier), factor, x, scaled)
  {
    RouteCostOfConfigured(config, i, j);
    factor := ProbeFactor(config[i].probe);
    x, scaled := Unscaled(RouteTo(config, i, j), config[i].pools[j].tier, factor);
  }

  lemma Unscaled(route: Lookup<Distance>, t: Tier, factor: real) returns (x: real, scaled: real)
    requires route == Found(Scaled(Finite(InternalCost(t)), factor))
    ensures Costs(route, TierScore(t), factor, x, scaled)
  {
    x, scaled := InternalCost(t), Product(InternalCost(t), factor);
  }

  // Without a probe, tier by tier.
  lemma UnprobedCosts(config: seq<ClusterConfig>, i: nat, j: nat)
    requires Configured(config, i, j) && config[i].probe.NoProbe?
    ensures RouteTo(config, i, j) == Found(Finite(
              match config[i].pools[j].tier
              case NvlinkMesh => 0.2 case NvlinkRing => 0.28 case PcieFabric => 0.48
              case Ethernet => 0.65 case CpuFallback => 1.0 case OtherTier => 0.6))
  {
    var x, factor, scaled := CostBeforeScaling(config, i, j);
    Exactly(RouteTo(config, i, j), config[i].pools[j].tier, x, scaled);
  }

  lemma Exactly(route: Lookup<Distance>, t: Tier, x: real, scaled: real)
    requires Costs(route, TierScore(t), 1.0, x, scaled)
    ensures route == Found(Finite(
              match t
              case NvlinkMesh => 0.2 case NvlinkRing => 0.28 case PcieFabric => 0.48
              case Ethernet => 0.65 case CpuFallback => 1.0 case OtherTier => 0.6))
  {
  }

  ghost predicate CostsAtMost(a: Lookup<Distance>, b: Lookup<Distance>) {
    a.Found? && b.Found? && a.value.Finite? && b.value.Finite? && a.value.cost <= b.value.cost
  }

  lemma ScaledMonotone(factor: real, x: real, y: real, sx: real, sy: real)
    requires factor >= 0.0 && x <= y && sx == x * factor && sy == y * factor
    ensures sx <= sy
  {
    ProductMonotone(factor, x, y);
  }

  lemma BetterScore(a: Lookup<Distance>, b: Lookup<Distance>, score: real, score': real, factor: real,
                    x: real, y: real, sx: real, sy: real)
    requires Costs(a, score, factor, x, sx) && Costs(b, score', factor, y, sy) && score >= score' && factor >= 0.0
    ensures CostsAtMost(a, b)
  {
    ScaledMonotone(factor, x, y, sx, sy);
    Round4Monotone(sx, sy);
  }

  // With equal probe factors a higher tier score never costs more.
  lemma BetterTierCostsNoMore(config: seq<ClusterConfig>, i: nat, j: nat, k: nat, l: nat)
    requires Configured(config, i, j) && Configured(config, k, l)
    requires ProbeFactor(config[i].probe) == ProbeFactor(config[k].probe)
    requires TierScore(config[i].pools[j].tier) >= TierScore(config[k].pools[l].tier)
    ensures CostsAtMost(RouteTo(config, i, j), RouteTo(config, k, l))
  {
    var x, f, a := CostBeforeScaling(config, i, j);
    var y, g, b := CostBeforeScaling(config, k, l);
    BetterScore(RouteTo(config, i, j), RouteTo(config, k, l), TierScore(config[i].pools[j].tier),
                TierScore(config[k].pools[l].tier), f, x, y, a, b);
  }

  // The tiers from the slowest to the fastest; one without a name stands third.
  function Rank(t: Tier): nat {
    match t
    case CpuFallback => 0 case Ethernet => 1 case OtherTier => 2
    case PcieFabric => 3 case NvlinkRing => 4 case NvlinkMesh => 5
  }

  lemma FasterScore(t: Tier, u: Tier)
    requires Rank(t) > Rank(u)
    ensures TierScore(u) + 0.05 <= TierScore(t) <= 1.15
  {
  }

  lemma MuchBetterScore(a: Lookup<Distance>, b: Lookup<Distance>, score: real, score': real, factor: real,
                        x: real, y: real, sx: real, sy: real)
    requires Costs(a, score, factor, x, sx) && Costs(b, score', factor, y, sy)
    requires score >= score' + 0.05 && score <= 1.15 && factor > 0.002
    ensures CostsAtMost(a, b) && a != b
  {
    FarApart(factor, x, y, sx, sy);
    RoundedApart(sx, sy);
  }

  // And a faster tier costs less, unless a factor of 0.002 or smaller leaves too little to see
  // in four decimals.
  lemma FasterTierCostsLess(config: seq<ClusterConfig>, i: nat, j: nat, k: nat, l: nat)
    requires Configured(config, i, j) && Configured(config, k, l)
    requires ProbeFactor(config[i].probe) == ProbeFactor(config[k].probe) > 0.002
    requires Rank(config[i].pools[j].tier) > Rank(config[k].pools[l].tier)
    ensures CostsAtMost(RouteTo(config, i, j), RouteTo(config, k, l))
    ensures RouteTo(config, i, j) != RouteTo(config, k, l)
  {
    FasterScore(config[i].pools[j].tier, config[k].pools[l].tier);
    var x, f, a := CostBeforeScaling(config, i, j);
    var y, g, b := CostBeforeScaling(config, k, l);
    MuchBetterScore(RouteTo(config, i, j), RouteTo(config, k, l), TierScore(config[i].pools[j].tier),
                    TierScore(config[k].pools[l].tier), f, x, y, a, b);
  }

  lemma FarApart(factor: real, x: real, y: real, a: real, b: real)
    requires y - x >= 0.05 && factor > 0.002 && a == x * factor && b == y * factor
    ensures b - a > 2.0 * HALF_STEP
  {
    var d := y - x;
    ProductMonotone(factor, 0.05, d);
    assert factor * 0.05 > 2.0 * HALF_STEP;
    assert factor * d == factor * y - factor * x;
  }

  lemma RoundedApart(a: real, b: real)
    requires b - a > 2.0 * HALF_STEP
    ensures Round4(a) < Round4(b)
  {
  }

  // ----- the other figures of a link

  // Between a gateway and a pool of its cluster: the better the tier, the more it carries, up to
  // 800, and the sooner, down to 8.
  ghost predicate SpokeFigures(l: Link, c: ClusterConfig, p: PoolConfig) {
    && {l.source, l.target} == {Gateway(c.clusterId), PoolNode(c.clusterId, p.poolId)}
    && l.bandwidth == 800.0 * TierScore(p.tier) && l.latency + 35.0 * TierScore(p.tier) == 43.0
  }

  // Between gateways, at the configured cost: the dearer, the less it carries, and the later.
  ghost predicate AcrossFigures(l: Link, c: ClusterConfig, target: string, cost: real) {
    && l.source == Gateway(c.clusterId) && l.target == Gateway(target) && target != "ingress" && l.cost == cost
    && l.latency == 25.0 * cost && l.bandwidth * (if cost < 0.5 then 0.5 else cost) == 400.0
  }

  lemma AcrossHas(c: ClusterConfig, target: string, cost: real)
    requires target != "ingress"
    ensures AcrossFigures(Across(c, target, cost), c, target, cost)
  {
    var d := Max(cost, 0.5);
    assert 400.0 / d * d == 400.0;
  }

  // Every link of the graph of a configuration is one of the two.
  lemma LinkFigures(config: seq<ClusterConfig>, u: Node, l: Link) returns (i: nat, j: nat)
    requires WellFormed(config) && l in Links(Built(config).adjacency, u)
    ensures i < |config|
    ensures if l.source.PoolNode? || l.target.PoolNode? then j < |config[i].pools| && SpokeFigures(l, config[i], config[i].pools[j])
            else j < |config[i].networkCosts|
                 && AcrossFigures(l, config[i], config[i].networkCosts[j].0, config[i].networkCosts[j].1)
  {
    GroupedRepresents(BuildLinks(config));
    LinksFromMember(BuildLinks(config), u, l);
    if l in ClusterLinks(config, |config|) {
      i, j := ClusterLinkOf(config, |config|, l);
    } else {
      i, j := FabricLinkOf(config, ClusterIds(config), |config|, l);
      AcrossHas(config[i], config[i].networkCosts[j].0, config[i].networkCosts[j].1);
    }
  }

  // ----- affinity

  function AffinityTo(config: seq<ClusterConfig>, i: nat, j: nat, promptTokens: nat): Lookup<real>
    requires i < |config| && j < |config[i].pools|
  {
    AffinityOf(Built(config), config[i].clusterId, config[i].pools[j].poolId, promptTokens)
  }

  // Four parts tier and one part probe, the tier standing in for a probe that is not there; all
  // of it counts for a prompt of 8192 tokens or more, and 65% and a proportional share of the
  // rest for a shorter one.
  ghost predicate Suits(found: Lookup<real>, score: real, probe: Probe, promptTokens: nat, blend: real, share: real, x: real) {
    && found == Found(Round4(x)) && x == blend * share
    && 5.0 * blend == 4.0 * score + (if probe.Probed? then probe.affinity else score)
    && (promptTokens >= 8192 ==> share == 1.0)
    && (promptTokens < 8192 ==> 8192.0 * (share - 0.65) == 0.35 * promptTokens as real)
  }

  lemma AffinityParts(config: seq<ClusterConfig>, i: nat, j: nat, promptTokens: nat) returns (blend: real, share: real, x: real)
    requires Configured(config, i, j)
    ensures Suits(AffinityTo(config, i, j, promptTokens), TierScore(config[i].pools[j].tier), config[i].probe, promptTokens,
                  blend, share, x)
  {
    AffinityOfConfigured(config, i, j, promptTokens);
    blend, share, x := Blended(AffinityTo(config, i, j, promptTokens), TierScore(config[i].pools[j].tier), config[i].probe,
                               promptTokens);
  }

  lemma Blended(found: Lookup<real>, score: real, probe: Probe, promptTokens: nat) returns (blend: real, share: real, x: real)
    requires found == Found(Affinity(score, if probe.Probed? then probe.affinity else score, promptTokens))
    ensures Suits(found, score, probe, promptTokens, blend, share, x)
  {
    blend := score * 0.8 + (if probe.Probed? then probe.affinity else score) * 0.2;
    share := 0.65 + 0.35 * Min(1.0, promptTokens as real / 8192.0);
    x := Product(blend, share);
  }

  // Without a probe a long prompt finds the tier's own score.
  lemma LongPromptSuits(config: seq<ClusterConfig>, i: nat, j: nat, promptTokens: nat)
    requires Configured(config, i, j) && config[i].probe.NoProbe? && promptTokens >= 8192
    ensures AffinityTo(config, i, j, promptTokens) == Found(TierScore(config[i].pools[j].tier))
  {
    var blend, share, x := AffinityParts(config, i, j, promptTokens);
    SuitsAsTier(AffinityTo(config, i, j, promptTokens), config[i].pools[j].tier, promptTokens, blend, share, x);
  }

  lemma SuitsAsTier(found: Lookup<real>, t: Tier, promptTokens: nat, blend: real, share: real, x: real)
    requires Suits(found, TierScore(t), NoProbe, promptTokens, blend, share, x) && promptTokens >= 8192
    ensures found == Found(TierScore(t))
  {
  }

  lemma ShareGrows(n: nat, m: nat, share: real, share': real)
    requires n <= m
    requires if n >= 8192 then share == 1.0 else 8192.0 * (share - 0.65) == 0.35 * n as real
    requires if m >= 8192 then share' == 1.0 else 8192.0 * (share' - 0.65) == 0.35 * m as real
    ensures share <= share'
  {
  }

  lemma BetterSuited(a: Lookup<real>, b: Lookup<real>, score: real, probe: Probe, n: nat, m: nat,
                     blend: real, share: real, x: real, blend': real, share': real, y: real)
    requires Suits(a, score, probe, n, blend, share, x) && Suits(b, score, probe, m, blend', share', y)
    requires n <= m && blend >= 0.0
    ensures a.value <= b.value
  {
    ShareGrows(n, m, share, share');
    ScaledMonotone(blend, share, share', x, y);
    Round4Monotone(x, y);
  }

  // A longer prompt suits no pool less, as long as its tier and probe come to no negative blend.
  lemma LongerPromptSuitsNoLess(config: seq<ClusterConfig>, i: nat, j: nat, n: nat, m: nat)
    requires Configured(config, i, j) && n <= m
    requires config[i].probe.Probed? ==> 4.0 * TierScore(config[i].pools[j].tier) + config[i].probe.affinity >= 0.0
    ensures AffinityTo(config, i, j, n).Found? && AffinityTo(config, i, j, m).Found?
    ensures AffinityTo(config, i, j, n).value <= AffinityTo(config, i, j, m).value
  {
    var blend, share, x := AffinityParts(config, i, j, n);
    var blend', share', y := AffinityParts(config, i, j, m);
    PositiveScore(config[i].pools[j].tier);
    BetterSuited(AffinityTo(config, i, j, n), AffinityTo(config, i, j, m), TierScore(config[i].pools[j].tier),
                 config[i].probe, n, m, blend, share, x, blend', share', y);
  }

  lemma PositiveScore(t: Tier)
    ensures TierScore(t) > 0.0
  {
  }
}
