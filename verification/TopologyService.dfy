// The topology service object: building the graph in place, and answering route queries.
module TopologyServices {
  import opened Numbers
  import opened Sequences
  import opened Topology
  import opened TopologyBuild

  // ----- the dictionaries of a configuration's first n clusters

  function WithPools(nodes: map<Node, NodeInfo>, c: ClusterConfig, n: nat): map<Node, NodeInfo>
    requires n <= |c.pools|
  {
    if n == 0 then nodes[Gateway(c.clusterId) := GatewayInfo]
    else WithPools(nodes, c, n - 1)[PoolNode(c.clusterId, c.pools[n - 1].poolId) := PoolInfo(c.pools[n - 1].tier)]
  }

  function NodeMap(config: seq<ClusterConfig>, n: nat): map<Node, NodeInfo>
    requires n <= |config|
  {
    if n == 0 then map[] else WithPools(NodeMap(config, n - 1), config[n - 1], |config[n - 1].pools|)
  }

  function GatewayMap(config: seq<ClusterConfig>, n: nat): map<string, Node>
    requires n <= |config|
  {
    if n == 0 then map[] else GatewayMap(config, n - 1)[config[n - 1].clusterId := Gateway(config[n - 1].clusterId)]
  }

  lemma {:induction false} GatewayMapIds(config: seq<ClusterConfig>, n: nat)
    requires n <= |config|
    ensures GatewayMap(config, n).Keys == set i | 0 <= i < n :: config[i].clusterId
    ensures forall c :: c in GatewayMap(config, n) ==> GatewayMap(config, n)[c] == Gateway(c)
  {
    if n > 0 {
      GatewayMapIds(config, n - 1);
    }
  }

  function WithAffinity(m: map<string, real>, c: ClusterConfig): map<string, real> {
    if c.probe.Probed? then m[c.clusterId := c.probe.affinity] else m
  }

  function WithCostFactor(m: map<string, real>, c: ClusterConfig): map<string, real> {
    if c.probe.Probed? then m[c.clusterId := c.probe.costFactor] else m
  }

  function AffinityMap(config: seq<ClusterConfig>, n: nat): map<string, real>
    requires n <= |config|
  {
    if n == 0 then map[] else WithAffinity(AffinityMap(config, n - 1), config[n - 1])
  }

  function CostFactorMap(config: seq<ClusterConfig>, n: nat): map<string, real>
    requires n <= |config|
  {
    if n == 0 then map[] else WithCostFactor(CostFactorMap(config, n - 1), config[n - 1])
  }

  // The clusters' own nodes are added, every other node stays.
  lemma {:induction false} WithPoolsHas(nodes: map<Node, NodeInfo>, c: ClusterConfig, n: nat)
    requires n <= |c.pools|
    requires forall j, k :: 0 <= j < k < |c.pools| ==> c.pools[j].poolId != c.pools[k].poolId
    ensures HasCluster(c, n, WithPools(nodes, c, n))
    ensures forall v :: v in nodes && v.cluster != c.clusterId ==>
              v in WithPools(nodes, c, n) && WithPools(nodes, c, n)[v] == nodes[v]
    ensures forall v :: v in WithPools(nodes, c, n) && v !in nodes ==>
              v == Gateway(c.clusterId) || (v.PoolNode? && exists j :: 0 <= j < n && IsPool(c, j, v))
  {
    if n > 0 {
      WithPoolsHas(nodes, c, n - 1);
      assert IsPool(c, n - 1, PoolNode(c.clusterId, c.pools[n - 1].poolId));
    }
  }

  lemma HasClusterCarries(c: ClusterConfig, m: map<Node, NodeInfo>, m': map<Node, NodeInfo>)
    requires HasCluster(c, |c.pools|, m)
    requires forall v :: v in m && v.cluster == c.clusterId ==> v in m' && m'[v] == m[v]
    ensures HasCluster(c, |c.pools|, m')
  {
  }

  lemma {:induction false} NodeMapHasClusters(config: seq<ClusterConfig>, n: nat)
    requires WellFormed(config) && n <= |config|
    ensures forall i :: 0 <= i < n ==> HasCluster(config[i], |config[i].pools|, NodeMap(config, n))
  {
    if n > 0 {
      var m, c := NodeMap(config, n - 1), config[n - 1];
      NodeMapHasClusters(config, n - 1);
      WithPoolsHas(m, c, |c.pools|);
      forall i | 0 <= i < n - 1 ensures HasCluster(config[i], |config[i].pools|, NodeMap(config, n)) {
        HasClusterCarries(config[i], m, NodeMap(config, n));
      }
    }
  }

  lemma {:induction false} NodeMapOrigin(config: seq<ClusterConfig>, n: nat, v: Node) returns (i: nat)
    requires WellFormed(config) && n <= |config| && v in NodeMap(config, n)
    ensures i < n && config[i].clusterId == v.cluster
    ensures v.PoolNode? ==> exists j :: 0 <= j < |config[i].pools| && IsPool(config[i], j, v)
  {
    if v in NodeMap(config, n - 1) {
      i := NodeMapOrigin(config, n - 1, v);
    } else {
      i := n - 1;
      WithPoolsHas(NodeMap(config, i), config[i], |config[i].pools|);
    }
  }

  lemma NodeMapIsNodes(config: seq<ClusterConfig>, n: nat)
    requires WellFormed(config) && n <= |config|
    ensures NodesOf(config, n, NodeMap(config, n))
  {
    NodeMapHasClusters(config, n);
    forall v | v in NodeMap(config, n)
      ensures v.Gateway? ==> exists i :: 0 <= i < n && config[i].clusterId == v.cluster
      ensures v.PoolNode? ==> exists i, j :: 0 <= i < n && 0 <= j < |config[i].pools| && IsPool(config[i], j, v)
    {
      var i := NodeMapOrigin(config, n, v);
    }
  }

  lemma {:induction false} NodeMapKinds(config: seq<ClusterConfig>, n: nat)
    requires n <= |config|
    ensures forall v :: v in NodeMap(config, n) ==> v.PoolNode? == NodeMap(config, n)[v].PoolInfo?
    ensures forall v :: v in NodeMap(config, n) ==> v.cluster in GatewayMap(config, n)
    ensures forall v :: v in GatewayMap(config, n) ==> Gateway(v) in NodeMap(config, n)
  {
    if n > 0 {
      NodeMapKinds(config, n - 1);
      WithPoolsKinds(NodeMap(config, n - 1), config[n - 1], |config[n - 1].pools|);
    }
  }

  lemma {:induction false} WithPoolsKinds(nodes: map<Node, NodeInfo>, c: ClusterConfig, n: nat)
    requires n <= |c.pools| && forall v :: v in nodes ==> v.PoolNode? == nodes[v].PoolInfo?
    ensures var m := WithPools(nodes, c, n);
            && Gateway(c.clusterId) in m && nodes.Keys <= m.Keys
            && (forall v :: v in m ==> v.PoolNode? == m[v].PoolInfo?)
            && (forall v :: v in m ==> v in nodes || v.cluster == c.clusterId)
  {
    if n > 0 {
      WithPoolsKinds(nodes, c, n - 1);
    }
  }

  lemma {:induction false} CostFactorsPositive(config: seq<ClusterConfig>, n: nat)
    requires WellFormed(config) && n <= |config|
    ensures forall c :: c in CostFactorMap(config, n) ==> CostFactorMap(config, n)[c] > 0.0
  {
    if n > 0 {
      CostFactorsPositive(config, n - 1);
    }
  }

  function AddTo(g: Graph, l: Link): Graph {
    g[l.source := Links(g, l.source) + [l]]
  }

  // The adjacency lists after adding the links one by one.
  function Grouped(links: seq<Link>): Graph {
    if |links| == 0 then map[] else AddTo(Grouped(links[..|links| - 1]), links[|links| - 1])
  }

  lemma {:induction false} GroupedRepresents(links: seq<Link>)
    ensures Represents(Grouped(links), links)
  {
    if |links| > 0 {
      GroupedRepresents(links[..|links| - 1]);
    }
  }

  lemma GroupedAppend(links: seq<Link>, l: Link)
    ensures Grouped(links + [l]) == AddTo(Grouped(links), l)
  {
    assert (links + [l])[..|links|] == links;
  }

  // ----- the construction, step by step

  datatype Fabric = Fabric(
    nodes: map<Node, NodeInfo>, adjacency: Graph, gateways: map<string, Node>,
    affinity: map<string, real>, costFactor: map<string, real>)

  function AddPools(g: Graph, c: ClusterConfig, n: nat): Graph
    requires n <= |c.pools|
  {
    if n == 0 then g
    else AddTo(AddTo(AddPools(g, c, n - 1), Down(c, c.pools[n - 1])), Up(c, c.pools[n - 1]))
  }

  function WithCluster(f: Fabric, c: ClusterConfig): Fabric {
    Fabric(WithPools(f.nodes, c, |c.pools|), AddPools(f.adjacency, c, |c.pools|),
           f.gateways[c.clusterId := Gateway(c.clusterId)],
           WithAffinity(f.affinity, c), WithCostFactor(f.costFactor, c))
  }

  function Clusters(config: seq<ClusterConfig>, n: nat): Fabric
    requires n <= |config|
  {
    if n == 0 then Fabric(map[], map[], map[], map[], map[]) else WithCluster(Clusters(config, n - 1), config[n - 1])
  }

  function AddNetworks(g: Graph, c: ClusterConfig, ids: set<string>, n: nat): Graph
    requires n <= |c.networkCosts|
  {
    if n == 0 then g
    else
      var (target, cost) := c.networkCosts[n - 1];
      var before := AddNetworks(g, c, ids, n - 1);
      if Connects(ids, target) then AddTo(before, Across(c, target, cost)) else before
  }

  function AddFabrics(g: Graph, config: seq<ClusterConfig>, ids: set<string>, n: nat): Graph
    requires n <= |config|
  {
    if n == 0 then g
    else AddNetworks(AddFabrics(g, config, ids, n - 1), config[n - 1], ids, |config[n - 1].networkCosts|)
  }

  lemma {:induction false} AddPoolsGroups(links: seq<Link>, c: ClusterConfig, n: nat)
    requires n <= |c.pools|
    ensures AddPools(Grouped(links), c, n) == Grouped(links + PoolLinks(c, n))
  {
    if n == 0 {
      assert links + [] == links;
    } else {
      var before, p := links + PoolLinks(c, n - 1), c.pools[n - 1];
      AddPoolsGroups(links, c, n - 1);
      GroupedAppend(before, Down(c, p));
      GroupedAppend(before + [Down(c, p)], Up(c, p));
      Regroup(links, PoolLinks(c, n - 1) + [Down(c, p)], [Up(c, p)]);
      Regroup(links, PoolLinks(c, n - 1), [Down(c, p)]);
    }
  }

  lemma {:induction false} AddNetworksGroups(links: seq<Link>, c: ClusterConfig, ids: set<string>, n: nat)
    requires n <= |c.networkCosts|
    ensures AddNetworks(Grouped(links), c, ids, n) == Grouped(links + NetworkLinks(c, ids, n))
  {
    if n == 0 {
      assert links + [] == links;
    } else {
      var (target, cost) := c.networkCosts[n - 1];
      var before := NetworkLinks(c, ids, n - 1);
      AddNetworksGroups(links, c, ids, n - 1);
      GroupedAppend(links + before, Across(c, target, cost));
      Regroup(links, before, [Across(c, target, cost)]);
      assert before + [] == before;
    }
  }

  lemma {:induction false} AddFabricsGroups(links: seq<Link>, config: seq<ClusterConfig>, ids: set<string>, n: nat)
    requires n <= |config|
    ensures AddFabrics(Grouped(links), config, ids, n) == Grouped(links + FabricLinks(config, ids, n))
  {
    if n == 0 {
      assert links + [] == links;
    } else {
      var c := config[n - 1];
      AddFabricsGroups(links, config, ids, n - 1);
      AddNetworksGroups(links + FabricLinks(config, ids, n - 1), c, ids, |c.networkCosts|);
      Regroup(links, FabricLinks(config, ids, n - 1), NetworkLinks(c, ids, |c.networkCosts|));
    }
  }

  ghost predicate ClustersGrouped(config: seq<ClusterConfig>, n: nat)
    requires n <= |config|
  {
    Clusters(config, n).adjacency == Grouped(ClusterLinks(config, n))
  }

  lemma ClustersGroupedStep(config: seq<ClusterConfig>, n: nat)
    requires n < |config| && ClustersGrouped(config, n)
    ensures ClustersGrouped(config, n + 1)
  {
    AddPoolsGroups(ClusterLinks(config, n), config[n], |config[n].pools|);
  }

  lemma {:induction false} ClustersAdjacency(config: seq<ClusterConfig>, n: nat)
    requires n <= |config|
    ensures ClustersGrouped(config, n)
  {
    if n == 0 {
      NoClustersGrouped(config);
    } else {
      var m: nat := n - 1;
      ClustersAdjacency(config, m);
      ClustersGroupedStep(config, m);
      assert n == m + 1;
    }
  }

  lemma NoClustersGrouped(config: seq<ClusterConfig>)
    ensures ClustersGrouped(config, 0)
  {
  }

  lemma {:induction false} ClustersMaps(config: seq<ClusterConfig>, n: nat)
    requires n <= |config|
    ensures Clusters(config, n).nodes == NodeMap(config, n) && Clusters(config, n).gateways == GatewayMap(config, n)
    ensures Clusters(config, n).affinity == AffinityMap(config, n)
    ensures Clusters(config, n).costFactor == CostFactorMap(config, n)
  {
    if n > 0 {
      ClustersMaps(config, n - 1);
    }
  }

  // The finished graph and dictionaries of a configuration.
  function Built(config: seq<ClusterConfig>): Fabric {
    Fabric(NodeMap(config, |config|), Grouped(BuildLinks(config)), GatewayMap(config, |config|),
           AffinityMap(config, |config|), CostFactorMap(config, |config|))
  }

  lemma BuiltInOrder(config: seq<ClusterConfig>)
    ensures var f := Clusters(config, |config|);
            && f.gateways.Keys == ClusterIds(config)
            && f.(adjacency := AddFabrics(f.adjacency, config, ClusterIds(config), |config|)) == Built(config)
  {
    ClustersAdjacency(config, |config|);
    ClustersMaps(config, |config|);
    GatewayMapIds(config, |config|);
    AddFabricsGroups(ClusterLinks(config, |config|), config, ClusterIds(config), |config|);
  }

  ghost predicate ValidFabric(f: Fabric) {
    && HubAndSpoke(f.adjacency, f.nodes)
    && (forall c :: c in f.gateways ==> f.gateways[c] == Gateway(c) && Gateway(c) in f.nodes)
    && (forall v :: v in f.nodes ==> v.cluster in f.gateways && v.PoolNode? == f.nodes[v].PoolInfo?)
    && (forall c :: c in f.costFactor ==> f.costFactor[c] > 0.0)
  }

  lemma BuiltIsValid(config: seq<ClusterConfig>)
    requires WellFormed(config)
    ensures ValidFabric(Built(config))
  {
    GroupedRepresents(BuildLinks(config));
    GatewayMapIds(config, |config|);
    NodeMapIsNodes(config, |config|);
    BuiltIsHubAndSpoke(config, Built(config).adjacency, NodeMap(config, |config|));
    NodeMapKinds(config, |config|);
    CostFactorsPositive(config, |config|);
  }

  class TopologyService {
    var nodes: map<Node, NodeInfo>
    var adjacency: Graph
    var clusterGateways: map<string, Node>
    var probeAffinity: map<string, real>
    var probeCostFactor: map<string, real>

    function View(): Fabric
      reads this
    {
      Fabric(nodes, adjacency, clusterGateways, probeAffinity, probeCostFactor)
    }

    method AddEdge(l: Link)
      modifies this`adjacency
      ensures adjacency == AddTo(old(adjacency), l)
    {
      adjacency := adjacency[l.source := Links(adjacency, l.source) + [l]];
    }

    // Records a cluster's gateway and pools, and links each pool to the gateway both ways.
    method AddPoolNodes(c: ClusterConfig)
      modifies this`nodes, this`adjacency
      ensures nodes == WithPools(old(nodes), c, |c.pools|)
      ensures adjacency == AddPools(old(adjacency), c, |c.pools|)
    {
      nodes := nodes[Gateway(c.clusterId) := GatewayInfo];
      for j := 0 to |c.pools|
        invariant nodes == WithPools(old(nodes), c, j)
        invariant adjacency == AddPools(old(adjacency), c, j)
      {
        var p := c.pools[j];
        nodes := nodes[PoolNode(c.clusterId, p.poolId) := PoolInfo(p.tier)];
        AddEdge(Down(c, p));
        AddEdge(Up(c, p));
      }
    }

    method AddCluster(c: ClusterConfig)
      modifies this
      ensures View() == WithCluster(old(View()), c)
    {
      clusterGateways := clusterGateways[c.clusterId := Gateway(c.clusterId)];
      AddPoolNodes(c);
      if c.probe.Probed? {
        probeAffinity := probeAffinity[c.clusterId := c.probe.affinity];
        probeCostFactor := probeCostFactor[c.clusterId := c.probe.costFactor];
      }
    }

    // Links a cluster's gateway to the gateways its network costs name.
    method AddNetwork(c: ClusterConfig)
      modifies this`adjacency
      ensures adjacency == AddNetworks(old(adjacency), c, clusterGateways.Keys, |c.networkCosts|)
    {
      for j := 0 to |c.networkCosts|
        invariant adjacency == AddNetworks(old(adjacency), c, clusterGateways.Keys, j)
      {
        var (target, cost) := c.networkCosts[j];
        if target == "ingress" {
          continue;
        }
        if target !in clusterGateways {
          continue;
        }
        AddEdge(Across(c, target, cost));
      }
    }

    constructor (config: seq<ClusterConfig>)
      requires WellFormed(config)
      ensures View() == Built(config) && ValidFabric(View())
    {
      nodes, adjacency, clusterGateways := map[], map[], map[];
      probeAffinity, probeCostFactor := map[], map[];
      new;
      for i := 0 to |config|
        invariant View() == Clusters(config, i)
      {
        AddCluster(config[i]);
      }
      ghost var ids := clusterGateways.Keys;
      ghost var f := View();
      for i := 0 to |config|
        invariant View() == f.(adjacency := AddFabrics(f.adjacency, config, ids, i))
      {
        AddNetwork(config[i]);
      }
      BuiltInOrder(config);
      BuiltIsValid(config);
    }

    /** The rounded cost from a cluster's gateway to one of its pools. */
    method RouteCost(clusterId: string, poolId: string) returns (r: Lookup<Distance>)
      requires ValidFabric(View())
      ensures r == RouteCostOf(View(), clusterId, poolId)
    {
      if clusterId !in clusterGateways {
        return KeyError;
      }
      var base := BaseCost(View(), clusterId, poolId);
      r := Found(Scaled(base, CostFactor(probeCostFactor, clusterId)));
    }

    function PoolAffinity(clusterId: string, poolId: string, promptTokens: nat): Lookup<real>
      reads this
    {
      AffinityOf(View(), clusterId, poolId, promptTokens)
    }
  }

  // What a route costs in a built fabric: the internal cost of the pool times its cluster's
  // probe factor, with no search at all.
  function RouteCostOf(f: Fabric, clusterId: string, poolId: string): Lookup<Distance> {
    if clusterId !in f.gateways then KeyError
    else Found(Scaled(InClusterCost(f, PoolNode(clusterId, poolId)), CostFactor(f.costFactor, clusterId)))
  }

  // How well a pool suits a prompt: mostly its tier, in part its cluster's probe.
  function AffinityOf(f: Fabric, clusterId: string, poolId: string, promptTokens: nat): Lookup<real> {
    var v := PoolNode(clusterId, poolId);
    if v !in f.nodes || f.nodes[v].GatewayInfo? then KeyError
    else
      var tierScore := TierScore(f.nodes[v].tier);
      Found(Affinity(tierScore, if clusterId in f.affinity then f.affinity[clusterId] else tierScore, promptTokens))
  }

  function InClusterCost(f: Fabric, v: Node): Distance {
    if v in f.nodes then Finite(Inner(f.nodes, v)) else Infinite
  }

  // Scaling by a probe factor, then rounding; an infinite cost stays infinite.
  function Scaled(d: Distance, factor: real): Distance {
    match d
    case Finite(cost) => Finite(Round4(Product(cost, factor)))
    case Infinite => Infinite
  }

  function CostFactor(factors: map<string, real>, clusterId: string): real {
    if clusterId in factors then factors[clusterId] else 1.0
  }

  // The search from a gateway to a pool of its own cluster finds the direct link.
  method BaseCost(f: Fabric, clusterId: string, poolId: string) returns (r: Distance)
    requires ValidFabric(f) && clusterId in f.gateways
    ensures r == InClusterCost(f, PoolNode(clusterId, poolId))
  {
    var gateway, v := f.gateways[clusterId], PoolNode(clusterId, poolId);
    HubAndSpokeNonNegative(f.adjacency, f.nodes);
    r := ShortestPathCost(f.adjacency, gateway, v);
    RouteInCluster(f, clusterId, poolId);
    DistanceUnique(f.adjacency, gateway, v, r, InClusterCost(f, v));
  }

  lemma RouteInCluster(f: Fabric, clusterId: string, poolId: string)
    requires ValidFabric(f) && clusterId in f.gateways
    ensures var v := PoolNode(clusterId, poolId);
            IsDistance(f.adjacency, Gateway(clusterId), v, InClusterCost(f, v))
  {
    var v := PoolNode(clusterId, poolId);
    if v in f.nodes {
      SameClusterRoute(f.adjacency, f.nodes, Gateway(clusterId), v);
    } else {
      UnknownUnreachable(f.adjacency, f.nodes, Gateway(clusterId), v);
    }
  }

  function Affinity(tierScore: real, probeAffinity: real, promptTokens: nat): real {
    var longContext := Min(1.0, promptTokens as real / 8192.0);
    Round4(Product(tierScore * 0.8 + probeAffinity * 0.2, 0.65 + 0.35 * longContext))
  }

  // The cost of the route from its gateway to a pool of this tier and probe factor.
  function TierRouteCost(t: Tier, factor: real): (r: real)
    requires factor >= 0.0
    ensures r >= 0.0
  {
    Round4(Product(InternalCost(t), factor))
  }

  function ProbeFactor(p: Probe): real {
    match p case NoProbe => 1.0 case Probed(_, factor) => factor
  }

  lemma {:induction false} CostFactorOf(config: seq<ClusterConfig>, n: nat, i: nat)
    requires WellFormed(config) && i < n <= |config|
    ensures CostFactor(CostFactorMap(config, n), config[i].clusterId) == ProbeFactor(config[i].probe)
  {
    if i < n - 1 {
      CostFactorOf(config, n - 1, i);
    } else {
      CostFactorUnset(config, n - 1, i);
    }
  }

  lemma {:induction false} AffinityMapOf(config: seq<ClusterConfig>, n: nat, i: nat)
    requires WellFormed(config) && i < n <= |config|
    ensures var (m, c) := (AffinityMap(config, n), config[i]);
            if c.probe.Probed? then c.clusterId in m && m[c.clusterId] == c.probe.affinity else c.clusterId !in m
  {
    if i < n - 1 {
      AffinityMapOf(config, n - 1, i);
    } else {
      CostFactorUnset(config, n - 1, i);
    }
  }

  lemma {:induction false} CostFactorUnset(config: seq<ClusterConfig>, n: nat, i: nat)
    requires WellFormed(config) && n <= i < |config|
    ensures config[i].clusterId !in CostFactorMap(config, n) && config[i].clusterId !in AffinityMap(config, n)
  {
    if n > 0 {
      CostFactorUnset(config, n - 1, i);
    }
  }

  lemma ConfiguredNode(config: seq<ClusterConfig>, i: nat, j: nat)
    requires WellFormed(config) && i < |config| && j < |config[i].pools|
    ensures var (c, p) := (config[i], config[i].pools[j]);
            var (nodes, v) := (NodeMap(config, |config|), PoolNode(c.clusterId, p.poolId));
            v in nodes && nodes[v] == PoolInfo(p.tier)
  {
    NodeMapHasClusters(config, |config|);
    assert HasCluster(config[i], |config[i].pools|, NodeMap(config, |config|));
    assert IsPool(config[i], j, PoolNode(config[i].clusterId, config[i].pools[j].poolId));
  }

  lemma ConfiguredGateway(config: seq<ClusterConfig>, i: nat)
    requires i < |config|
    ensures config[i].clusterId in GatewayMap(config, |config|)
  {
    GatewayMapIds(config, |config|);
  }

  // On every graph built from a well-formed configuration, the route to every configured pool
  // is finite and costs max(0.05, 1.2 - tier score) times the probe factor.
  lemma RouteCostOfConfigured(config: seq<ClusterConfig>, i: nat, j: nat)
    requires WellFormed(config) && i < |config| && j < |config[i].pools|
    ensures var (c, p) := (config[i], config[i].pools[j]);
            && ProbeFactor(c.probe) > 0.0
            && RouteCostOf(Built(config), c.clusterId, p.poolId)
               == Found(Scaled(Finite(InternalCost(p.tier)), ProbeFactor(c.probe)))
  {
    ConfiguredNode(config, i, j);
    ConfiguredGateway(config, i);
    CostFactorOf(config, |config|, i);
    var v := PoolNode(config[i].clusterId, config[i].pools[j].poolId);
    assert InClusterCost(Built(config), v) == Finite(InternalCost(config[i].pools[j].tier));
  }

  lemma TierRouteCostIs(t: Tier, factor: real)
    requires factor >= 0.0
    ensures Scaled(Finite(InternalCost(t)), factor) == Finite(TierRouteCost(t, factor))
  {
  }

  // And its affinity is that of its tier and its cluster's probe.
  lemma AffinityOfConfigured(config: seq<ClusterConfig>, i: nat, j: nat, promptTokens: nat)
    requires WellFormed(config) && i < |config| && j < |config[i].pools|
    ensures var (c, p) := (config[i], config[i].pools[j]);
            AffinityOf(Built(config), c.clusterId, p.poolId, promptTokens)
            == Found(Affinity(TierScore(p.tier), if c.probe.Probed? then c.probe.affinity else TierScore(p.tier), promptTokens))
  {
    ConfiguredNode(config, i, j);
    AffinityMapOf(config, |config|, i);
  }
}
