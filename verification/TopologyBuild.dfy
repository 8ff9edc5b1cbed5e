// The graph the topology service builds from a configuration, and what routes cost in it.
module TopologyBuild {
  import opened Numbers
  import opened Topology

  datatype Tier = NvlinkMesh | NvlinkRing | PcieFabric | Ethernet | CpuFallback | OtherTier

  datatype Probe = NoProbe | Probed(affinity: real, costFactor: real)

  datatype PoolConfig = PoolConfig(poolId: string, tier: Tier)

  datatype ClusterConfig = ClusterConfig(
    clusterId: string, pools: seq<PoolConfig>, networkCosts: seq<(string, real)>, probe: Probe)

  datatype NodeInfo = GatewayInfo | PoolInfo(tier: Tier)

  datatype Lookup<T> = KeyError | Found(value: T)

  function TierScore(t: Tier): real {
    match t
    case NvlinkMesh => 1.0
    case NvlinkRing => 0.92
    case PcieFabric => 0.72
    case Ethernet => 0.55
    case CpuFallback => 0.2
    case OtherTier => 0.6
  }

  function InternalCost(t: Tier): (r: real)
    ensures r > 0.0
  {
    Max(0.05, 1.2 - TierScore(t))
  }

  // ----- the links of a configuration, in the order they are added

  function PoolLink(from: Node, to: Node, t: Tier): Link {
    Link(from, to, 800.0 * TierScore(t), 8.0 + (1.0 - TierScore(t)) * 35.0, InternalCost(t))
  }

  function Down(c: ClusterConfig, p: PoolConfig): Link {
    PoolLink(Gateway(c.clusterId), PoolNode(c.clusterId, p.poolId), p.tier)
  }

  function Up(c: ClusterConfig, p: PoolConfig): Link {
    PoolLink(PoolNode(c.clusterId, p.poolId), Gateway(c.clusterId), p.tier)
  }

  function Across(c: ClusterConfig, target: string, cost: real): Link {
    Link(Gateway(c.clusterId), Gateway(target), 400.0 / Max(cost, 0.5), 25.0 * cost, cost)
  }

  function PoolLinks(c: ClusterConfig, n: nat): seq<Link>
    requires n <= |c.pools|
  {
    if n == 0 then [] else PoolLinks(c, n - 1) + [Down(c, c.pools[n - 1])] + [Up(c, c.pools[n - 1])]
  }

  function ClusterLinks(config: seq<ClusterConfig>, n: nat): seq<Link>
    requires n <= |config|
  {
    if n == 0 then [] else ClusterLinks(config, n - 1) + PoolLinks(config[n - 1], |config[n - 1].pools|)
  }

  // A network cost becomes a link unless it is the ingress cost or names no cluster.
  predicate Connects(ids: set<string>, target: string) {
    target != "ingress" && target in ids
  }

  function NetworkLinks(c: ClusterConfig, ids: set<string>, n: nat): seq<Link>
    requires n <= |c.networkCosts|
  {
    if n == 0 then []
    else
      var (target, cost) := c.networkCosts[n - 1];
      NetworkLinks(c, ids, n - 1) + (if Connects(ids, target) then [Across(c, target, cost)] else [])
  }

  function FabricLinks(config: seq<ClusterConfig>, ids: set<string>, n: nat): seq<Link>
    requires n <= |config|
  {
    if n == 0 then []
    else FabricLinks(config, ids, n - 1) + NetworkLinks(config[n - 1], ids, |config[n - 1].networkCosts|)
  }

  function ClusterIds(config: seq<ClusterConfig>): set<string> {
    set i | 0 <= i < |config| :: config[i].clusterId
  }

  function BuildLinks(config: seq<ClusterConfig>): seq<Link> {
    ClusterLinks(config, |config|) + FabricLinks(config, ClusterIds(config), |config|)
  }

  function LinksFrom(links: seq<Link>, u: Node): seq<Link> {
    if |links| == 0 then []
    else
      var l := links[|links| - 1];
      LinksFrom(links[..|links| - 1], u) + (if l.source == u then [l] else [])
  }

  // The adjacency lists are the added links, grouped by source in the order of addition.
  ghost predicate Represents(g: Graph, links: seq<Link>) {
    forall u :: Links(g, u) == LinksFrom(links, u)
  }

  ghost predicate WellFormed(config: seq<ClusterConfig>) {
    && (forall i, k :: 0 <= i < k < |config| ==> config[i].clusterId != config[k].clusterId)
    && (forall i, j, k :: 0 <= i < |config| && 0 <= j < k < |config[i].pools| ==>
          config[i].pools[j].poolId != config[i].pools[k].poolId)
    && (forall i, j :: 0 <= i < |config| && 0 <= j < |config[i].networkCosts| ==>
          config[i].networkCosts[j].1 >= 0.0)
    && (forall i :: 0 <= i < |config| && config[i].probe.Probed? ==> config[i].probe.costFactor > 0.0)
  }

  lemma {:induction false} LinksFromMember(links: seq<Link>, u: Node, l: Link)
    ensures l in LinksFrom(links, u) <==> l in links && l.source == u
  {
    if |links| > 0 {
      LinksFromMember(links[..|links| - 1], u, l);
      assert links == links[..|links| - 1] + [links[|links| - 1]];
    }
  }

  // ----- hub and spoke

  function Hub(v: Node): Node {
    Gateway(v.cluster)
  }

  function Inner(nodes: map<Node, NodeInfo>, v: Node): (r: real)
    ensures r >= 0.0
  {
    if v.PoolNode? && v in nodes && nodes[v].PoolInfo? then InternalCost(nodes[v].tier) else 0.0
  }

  // Pools hang off their own gateway at their internal cost; gateways link to gateways.
  ghost predicate SpokeLink(nodes: map<Node, NodeInfo>, u: Node, l: Link) {
    && u in nodes && l.target in nodes
    && (u.PoolNode? ==> l.target == Hub(u) && l.cost == Inner(nodes, u))
    && (u.Gateway? && l.target.PoolNode? ==> Hub(l.target) == u && l.cost == Inner(nodes, l.target))
    && (u.Gateway? && l.target.Gateway? ==> l.cost >= 0.0)
  }

  ghost predicate Attached(g: Graph, nodes: map<Node, NodeInfo>, v: Node) {
    && Hub(v) in nodes
    && (exists l :: l in Links(g, v) && l.target == Hub(v) && l.cost == Inner(nodes, v))
    && (exists l :: l in Links(g, Hub(v)) && l.target == v && l.cost == Inner(nodes, v))
  }

  ghost predicate HubAndSpoke(g: Graph, nodes: map<Node, NodeInfo>) {
    && (forall u, l :: l in Links(g, u) ==> SpokeLink(nodes, u, l))
    && (forall v :: v in nodes && v.PoolNode? ==> Attached(g, nodes, v))
  }

  lemma HubAndSpokeNonNegative(g: Graph, nodes: map<Node, NodeInfo>)
    requires HubAndSpoke(g, nodes)
    ensures NonNegative(g)
  {
    forall u, i | u in g && 0 <= i < |g[u]| ensures g[u][i].cost >= 0.0 {
      assert g[u][i] in Links(g, u);
      assert SpokeLink(nodes, u, g[u][i]);
    }
  }

  // ----- routes of a hub-and-spoke graph

  function OnlyGateways(links: seq<Link>): seq<Link> {
    if |links| == 0 then []
    else
      var l := links[|links| - 1];
      OnlyGateways(links[..|links| - 1]) + (if l.target.Gateway? then [l] else [])
  }

  // The same graph without its pools.
  function GatewayGraph(g: Graph): Graph {
    map u | u in g && u.Gateway? :: OnlyGateways(g[u])
  }

  lemma {:induction false} OnlyGatewaysMember(links: seq<Link>, l: Link)
    ensures l in OnlyGateways(links) <==> l in links && l.target.Gateway?
  {
    if |links| > 0 {
      OnlyGatewaysMember(links[..|links| - 1], l);
      assert links == links[..|links| - 1] + [links[|links| - 1]];
    }
  }

  lemma GatewayGraphLink(g: Graph, u: Node, l: Link)
    ensures l in Links(GatewayGraph(g), u) <==> l in Links(g, u) && u.Gateway? && l.target.Gateway?
  {
    if u in g {
      OnlyGatewaysMember(g[u], l);
    }
  }

  // `w'` is a route between gateways that, with the spokes at both ends, costs no more than w.
  ghost predicate Projects(g: Graph, nodes: map<Node, NodeInfo>, source: Node, w: Walk, w': Walk) {
    && IsWalk(GatewayGraph(g), Hub(source), w')
    && End(Hub(source), w') == Hub(End(source, w))
    && Inner(nodes, source) + Cost(w') + Inner(nodes, End(source, w)) <= Cost(w)
  }

  lemma ProjectStep(g: Graph, nodes: map<Node, NodeInfo>, source: Node, before: Walk, link: Link, path: Walk)
    requires HubAndSpoke(g, nodes) && link in Links(g, End(source, before))
    requires IsWalk(GatewayGraph(g), Hub(source), path) && End(Hub(source), path) == Hub(End(source, before))
    requires if End(source, before) == source then path == Stay && 0.0 <= Cost(before)
             else Projects(g, nodes, source, before, path)
    ensures exists w' :: Projects(g, nodes, source, Hop(before, link), w')
  {
    var u, w := End(source, before), Hop(before, link);
    assert SpokeLink(nodes, u, link);
    GatewayGraphLink(g, u, link);
    if u.Gateway? && link.target.Gateway? {
      var longer := Hop(path, link);
      assert IsWalk(GatewayGraph(g), Hub(source), longer) && End(Hub(source), longer) == link.target;
      assert Cost(longer) == Cost(path) + link.cost;
      assert Projects(g, nodes, source, w, longer);
    } else {
      assert Projects(g, nodes, source, w, path);
    }
  }

  lemma {:induction false} Project(g: Graph, nodes: map<Node, NodeInfo>, source: Node, w: Walk)
    requires HubAndSpoke(g, nodes) && IsWalk(g, source, w)
    ensures Cost(w) >= 0.0
    ensures End(source, w) == source || exists w' :: Projects(g, nodes, source, w, w')
  {
    match w
    case Stay =>
    case Hop(before, link) =>
      Project(g, nodes, source, before);
      assert SpokeLink(nodes, End(source, before), link);
      var path: Walk := Stay;
      if End(source, before) != source {
        path :| Projects(g, nodes, source, before, path);
      }
      ProjectStep(g, nodes, source, before, link, path);
  }

  // Runs w after `first`.
  function Graft(first: Walk, w: Walk): Walk {
    match w
    case Stay => first
    case Hop(before, link) => Hop(Graft(first, before), link)
  }

  lemma {:induction false} GraftIsWalk(g: Graph, source: Node, first: Walk, w: Walk)
    requires IsWalk(g, source, first) && IsWalk(GatewayGraph(g), End(source, first), w)
    ensures IsWalk(g, source, Graft(first, w))
    ensures End(source, Graft(first, w)) == End(End(source, first), w)
    ensures Cost(Graft(first, w)) == Cost(first) + Cost(w)
  {
    match w
    case Stay =>
    case Hop(before, link) =>
      GraftIsWalk(g, source, first, before);
      GatewayGraphLink(g, End(End(source, first), before), link);
  }

  lemma Lift(g: Graph, nodes: map<Node, NodeInfo>, source: Node, target: Node, w': Walk) returns (w: Walk)
    requires HubAndSpoke(g, nodes) && source in nodes && target in nodes
    requires IsWalk(GatewayGraph(g), Hub(source), w') && End(Hub(source), w') == Hub(target)
    ensures IsWalk(g, source, w) && End(source, w) == target
    ensures Cost(w) == Inner(nodes, source) + Cost(w') + Inner(nodes, target)
  {
    w := Stay;
    if source.PoolNode? {
      assert Attached(g, nodes, source);
      var l :| l in Links(g, source) && l.target == Hub(source) && l.cost == Inner(nodes, source);
      w := Hop(Stay, l);
    }
    var first := w;
    w := Graft(first, w');
    GraftIsWalk(g, source, first, w');
    if target.PoolNode? {
      assert Attached(g, nodes, target);
      var l :| l in Links(g, Hub(target)) && l.target == target && l.cost == Inner(nodes, target);
      w := Hop(w, l);
    }
  }

  function ThroughHubs(nodes: map<Node, NodeInfo>, a: Node, b: Node, d: Distance): Distance {
    match d
    case Finite(cost) => Finite(Inner(nodes, a) + cost + Inner(nodes, b))
    case Infinite => Infinite
  }

  // Between two different nodes the cheapest route is: out of the first to its gateway, the
  // cheapest route that visits gateways only, and in from the last gateway.
  lemma RouteDecomposes(g: Graph, nodes: map<Node, NodeInfo>, a: Node, b: Node, d: Distance)
    requires HubAndSpoke(g, nodes) && a in nodes && b in nodes && a != b
    requires IsDistance(GatewayGraph(g), Hub(a), Hub(b), d)
    ensures IsDistance(g, a, b, ThroughHubs(nodes, a, b, d))
  {
    forall w | IsWalk(g, a, w) && End(a, w) == b
      ensures d.Finite? && ThroughHubs(nodes, a, b, d).cost <= Cost(w)
    {
      Project(g, nodes, a, w);
      var w' :| Projects(g, nodes, a, w, w');
    }
    if d.Finite? {
      var w' :| IsWalk(GatewayGraph(g), Hub(a), w') && End(Hub(a), w') == Hub(b) && Cost(w') == d.cost;
      var w := Lift(g, nodes, a, b, w');
    }
  }

  lemma {:induction false} GatewayWalkNonNegative(g: Graph, nodes: map<Node, NodeInfo>, source: Node, w: Walk)
    requires HubAndSpoke(g, nodes) && IsWalk(GatewayGraph(g), source, w)
    ensures Cost(w) >= 0.0
  {
    match w
    case Stay =>
    case Hop(before, link) =>
      GatewayWalkNonNegative(g, nodes, source, before);
      GatewayGraphLink(g, End(source, before), link);
      assert SpokeLink(nodes, End(source, before), link);
  }

  // In one cluster the route is the two internal costs, or the one if an end is the gateway.
  lemma SameClusterRoute(g: Graph, nodes: map<Node, NodeInfo>, a: Node, b: Node)
    requires HubAndSpoke(g, nodes) && a in nodes && b in nodes && a != b && a.cluster == b.cluster
    ensures IsDistance(g, a, b, Finite(Inner(nodes, a) + Inner(nodes, b)))
  {
    var gg := GatewayGraph(g);
    assert IsWalk(gg, Hub(a), Stay) && End(Hub(a), Stay) == Hub(b) && Cost(Stay) == 0.0;
    forall w | IsWalk(gg, Hub(a), w) ensures 0.0 <= Cost(w) {
      GatewayWalkNonNegative(g, nodes, Hub(a), w);
    }
    RouteDecomposes(g, nodes, a, b, Finite(0.0));
  }

  lemma UnknownUnreachable(g: Graph, nodes: map<Node, NodeInfo>, a: Node, b: Node)
    requires HubAndSpoke(g, nodes) && a in nodes && b !in nodes
    ensures IsDistance(g, a, b, Infinite)
  {
    forall w | IsWalk(g, a, w) ensures End(a, w) != b {
      match w
      case Stay =>
      case Hop(before, link) => assert SpokeLink(nodes, End(a, before), link);
    }
  }

  // ----- a built graph is a hub-and-spoke graph

  // `nodes` holds the first n clusters and their pools, and nothing else.
  ghost predicate NodesOf(config: seq<ClusterConfig>, n: nat, nodes: map<Node, NodeInfo>)
    requires n <= |config|
  {
    && (forall i :: 0 <= i < n ==> HasCluster(config[i], |config[i].pools|, nodes))
    && (forall v :: v in nodes && v.Gateway? ==> exists i :: 0 <= i < n && config[i].clusterId == v.cluster)
    && (forall v :: v in nodes && v.PoolNode? ==>
          exists i, j :: 0 <= i < n && 0 <= j < |config[i].pools| && IsPool(config[i], j, v))
  }

  predicate IsPool(c: ClusterConfig, j: nat, v: Node)
    requires j < |c.pools|
  {
    v == PoolNode(c.clusterId, c.pools[j].poolId)
  }

  ghost predicate HasCluster(c: ClusterConfig, n: nat, nodes: map<Node, NodeInfo>)
    requires n <= |c.pools|
  {
    && Gateway(c.clusterId) in nodes && nodes[Gateway(c.clusterId)] == GatewayInfo
    && forall j, v :: 0 <= j < n && IsPool(c, j, v) ==> v in nodes && nodes[v] == PoolInfo(c.pools[j].tier)
  }

  lemma {:induction false} PoolLinkOf(c: ClusterConfig, n: nat, l: Link) returns (j: nat)
    requires n <= |c.pools| && l in PoolLinks(c, n)
    ensures j < n && (l == Down(c, c.pools[j]) || l == Up(c, c.pools[j]))
  {
    if l in PoolLinks(c, n - 1) {
      j := PoolLinkOf(c, n - 1, l);
    } else {
      j := n - 1;
    }
  }

  lemma {:induction false} ClusterLinkOf(config: seq<ClusterConfig>, n: nat, l: Link) returns (i: nat, j: nat)
    requires n <= |config| && l in ClusterLinks(config, n)
    ensures i < n && j < |config[i].pools|
    ensures l == Down(config[i], config[i].pools[j]) || l == Up(config[i], config[i].pools[j])
  {
    if l in ClusterLinks(config, n - 1) {
      i, j := ClusterLinkOf(config, n - 1, l);
    } else {
      i := n - 1;
      j := PoolLinkOf(config[i], |config[i].pools|, l);
    }
  }

  lemma {:induction false} NetworkLinkOf(c: ClusterConfig, ids: set<string>, n: nat, l: Link) returns (j: nat)
    requires n <= |c.networkCosts| && l in NetworkLinks(c, ids, n)
    ensures j < n && Connects(ids, c.networkCosts[j].0) && l == Across(c, c.networkCosts[j].0, c.networkCosts[j].1)
  {
    if l in NetworkLinks(c, ids, n - 1) {
      j := NetworkLinkOf(c, ids, n - 1, l);
    } else {
      j := n - 1;
    }
  }

  lemma {:induction false} FabricLinkOf(config: seq<ClusterConfig>, ids: set<string>, n: nat, l: Link)
    returns (i: nat, j: nat)
    requires n <= |config| && l in FabricLinks(config, ids, n)
    ensures i < n && j < |config[i].networkCosts|
    ensures var (target, cost) := config[i].networkCosts[j];
            Connects(ids, target) && l == Across(config[i], target, cost)
  {
    if l in FabricLinks(config, ids, n - 1) {
      i, j := FabricLinkOf(config, ids, n - 1, l);
    } else {
      i := n - 1;
      j := NetworkLinkOf(config[i], ids, |config[i].networkCosts|, l);
    }
  }

  lemma {:induction false} PoolLinksHas(c: ClusterConfig, n: nat, j: nat)
    requires j < n <= |c.pools|
    ensures Down(c, c.pools[j]) in PoolLinks(c, n) && Up(c, c.pools[j]) in PoolLinks(c, n)
  {
    if j < n - 1 {
      PoolLinksHas(c, n - 1, j);
    }
  }

  lemma {:induction false} ClusterLinksHas(config: seq<ClusterConfig>, n: nat, i: nat, j: nat)
    requires i < n <= |config| && j < |config[i].pools|
    ensures Down(config[i], config[i].pools[j]) in ClusterLinks(config, n)
    ensures Up(config[i], config[i].pools[j]) in ClusterLinks(config, n)
  {
    var last := config[n - 1];
    var before, own := ClusterLinks(config, n - 1), PoolLinks(last, |last.pools|);
    if i < n - 1 {
      ClusterLinksHas(config, n - 1, i, j);
    } else {
      PoolLinksHas(last, |last.pools|, j);
    }
    assert ClusterLinks(config, n) == before + own;
  }

  lemma BuiltLink(config: seq<ClusterConfig>, nodes: map<Node, NodeInfo>, l: Link)
    requires WellFormed(config) && NodesOf(config, |config|, nodes) && l in BuildLinks(config)
    ensures SpokeLink(nodes, l.source, l)
  {
    var n := |config|;
    if l in ClusterLinks(config, n) {
      var i, j := ClusterLinkOf(config, n, l);
      assert HasCluster(config[i], |config[i].pools|, nodes);
      assert IsPool(config[i], j, PoolNode(config[i].clusterId, config[i].pools[j].poolId));
    } else {
      var i, j := FabricLinkOf(config, ClusterIds(config), n, l);
      var (target, cost) := config[i].networkCosts[j];
      var k :| 0 <= k < n && config[k].clusterId == target;
      assert HasCluster(config[i], |config[i].pools|, nodes) && HasCluster(config[k], |config[k].pools|, nodes);
    }
  }

  lemma BuiltSpoke(config: seq<ClusterConfig>, g: Graph, nodes: map<Node, NodeInfo>, v: Node)
    requires NodesOf(config, |config|, nodes) && Represents(g, BuildLinks(config))
    requires v in nodes && v.PoolNode?
    ensures Attached(g, nodes, v)
  {
    var i, j :| 0 <= i < |config| && 0 <= j < |config[i].pools| && IsPool(config[i], j, v);
    var c, p := config[i], config[i].pools[j];
    assert HasCluster(c, |c.pools|, nodes);
    ClusterLinksHas(config, |config|, i, j);
    assert Down(c, p) in BuildLinks(config) && Up(c, p) in BuildLinks(config);
    LinksFromMember(BuildLinks(config), v, Up(c, p));
    LinksFromMember(BuildLinks(config), Hub(v), Down(c, p));
    assert Up(c, p) in Links(g, v) && Down(c, p) in Links(g, Hub(v));
  }

  // Every graph built from a well-formed configuration is hub-and-spoke.
  lemma BuiltIsHubAndSpoke(config: seq<ClusterConfig>, g: Graph, nodes: map<Node, NodeInfo>)
    requires WellFormed(config) && NodesOf(config, |config|, nodes) && Represents(g, BuildLinks(config))
    ensures HubAndSpoke(g, nodes)
  {
    forall u, l | l in Links(g, u) ensures SpokeLink(nodes, u, l) {
      LinksFromMember(BuildLinks(config), u, l);
      BuiltLink(config, nodes, l);
    }
    forall v | v in nodes && v.PoolNode? ensures Attached(g, nodes, v) {
      BuiltSpoke(config, g, nodes, v);
    }
  }
}
