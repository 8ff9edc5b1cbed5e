// The fabric graph and the cost of the cheapest route through it.
module Topology {

  // Node ids are structured here: the colon-joined strings of the program are taken to be
  // different for different nodes.
  datatype Node = Gateway(cluster: string) | PoolNode(cluster: string, pool: string)

  datatype Link = Link(source: Node, target: Node, bandwidth: real, latency: real, cost: real)

  type Graph = map<Node, seq<Link>>

  datatype Distance = Finite(cost: real) | Infinite

  function Links(g: Graph, u: Node): seq<Link> {
    if u in g then g[u] else []
  }

  ghost predicate NonNegative(g: Graph) {
    forall u, i :: u in g && 0 <= i < |g[u]| ==> g[u][i].cost >= 0.0
  }

  // ----- walks

  datatype Walk = Stay | Hop(before: Walk, link: Link)

  function End(source: Node, w: Walk): Node {
    match w
    case Stay => source
    case Hop(_, link) => link.target
  }

  function Cost(w: Walk): real {
    match w
    case Stay => 0.0
    case Hop(before, link) => Cost(before) + link.cost
  }

  ghost predicate IsWalk(g: Graph, source: Node, w: Walk) {
    match w
    case Stay => true
    case Hop(before, link) => IsWalk(g, source, before) && link in Links(g, End(source, before))
  }

  // `d` is the least cost of any walk, or Infinite when there is none.
  ghost predicate IsDistance(g: Graph, source: Node, target: Node, d: Distance) {
    match d
    case Finite(cost) =>
      && (exists w :: IsWalk(g, source, w) && End(source, w) == target && Cost(w) == cost)
      && (forall w :: IsWalk(g, source, w) && End(source, w) == target ==> cost <= Cost(w))
    case Infinite =>
      forall w :: IsWalk(g, source, w) ==> End(source, w) != target
  }

  lemma DistanceUnique(g: Graph, source: Node, target: Node, d: Distance, e: Distance)
    requires IsDistance(g, source, target, d) && IsDistance(g, source, target, e)
    ensures d == e
  {
    if d.Finite? {
      var w :| IsWalk(g, source, w) && End(source, w) == target && Cost(w) == d.cost;
      assert e.Finite?;
    }
    if e.Finite? {
      var w :| IsWalk(g, source, w) && End(source, w) == target && Cost(w) == e.cost;
      assert d.Finite?;
    }
  }

  // ----- the state of the search

  // Nodes that can ever enter the frontier.
  function Known(g: Graph, source: Node): set<Node> {
    {source} + set u, i | u in g && 0 <= i < |g[u]| :: g[u][i].target
  }

  // Tentative distances are costs of walks.
  ghost predicate Attained(g: Graph, source: Node, dist: map<Node, real>) {
    forall v :: v in dist ==> exists w :: IsWalk(g, source, w) && End(source, w) == v && Cost(w) == dist[v]
  }

  // A link is relaxed when its target is known to be no farther than through it.
  predicate Relaxed(dist: map<Node, real>, from: real, link: Link) {
    link.target in dist && dist[link.target] <= from + link.cost
  }

  ghost predicate Settled(g: Graph, visited: set<Node>, dist: map<Node, real>) {
    forall u, i :: u in visited && u in dist && 0 <= i < |Links(g, u)| ==> Relaxed(dist, dist[u], Links(g, u)[i])
  }

  // The heap holds the tentative distance of every unvisited node, and otherwise only stale,
  // larger costs; no visited node is farther than anything in the heap.
  ghost predicate FrontierOk(frontier: multiset<(real, Node)>, visited: set<Node>, dist: map<Node, real>) {
    && visited <= dist.Keys
    && (forall v :: v in dist && v !in visited ==> (dist[v], v) in frontier)
    && (forall f :: f in frontier ==> f.1 in dist && dist[f.1] <= f.0)
    && (forall u, f :: u in visited && f in frontier ==> dist[u] <= f.0)
  }

  // Every walk ends at a visited node it does not beat, or is no cheaper than a heap entry.
  lemma {:induction false} WalkBound(g: Graph, source: Node, w: Walk, frontier: multiset<(real, Node)>,
                                     visited: set<Node>, dist: map<Node, real>)
    requires NonNegative(g) && IsWalk(g, source, w)
    requires source in dist && dist[source] <= 0.0
    requires Settled(g, visited, dist) && FrontierOk(frontier, visited, dist)
    ensures var v := End(source, w);
            (v in visited && dist[v] <= Cost(w)) || exists f :: f in frontier && f.0 <= Cost(w)
  {
    match w
    case Stay =>
      if source !in visited {
        assert (dist[source], source) in frontier;
      }
    case Hop(before, link) =>
      var u := End(source, before);
      WalkBound(g, source, before, frontier, visited, dist);
      var i :| 0 <= i < |Links(g, u)| && Links(g, u)[i] == link;
      assert link.cost >= 0.0;
      if u in visited && dist[u] <= Cost(before) {
        assert Relaxed(dist, dist[u], Links(g, u)[i]);
        if link.target !in visited {
          assert (dist[link.target], link.target) in frontier;
        }
      }
  }

  lemma {:induction false} LeastEntry(frontier: multiset<(real, Node)>) returns (f: (real, Node))
    requires |frontier| > 0
    ensures f in frontier && forall e :: e in frontier ==> f.0 <= e.0
    decreases |frontier|
  {
    var x :| x in frontier;
    var rest := frontier - multiset{x};
    if |rest| == 0 {
      f := x;
      assert forall e :: e in frontier ==> e == x || e in rest;
    } else {
      var y := LeastEntry(rest);
      f := if x.0 < y.0 then x else y;
      forall e | e in frontier ensures f.0 <= e.0 {
        if e != x {
          assert e in rest;
        }
      }
    }
  }

  // heapq.heappop: takes out an entry of least cost.
  method PopLeast(frontier: multiset<(real, Node)>) returns (f: (real, Node), rest: multiset<(real, Node)>)
    requires |frontier| > 0
    ensures f in frontier && forall e :: e in frontier ==> f.0 <= e.0
    ensures rest == frontier - multiset{f}
  {
    ghost var least := LeastEntry(frontier);
    f :| f in frontier && forall e :: e in frontier ==> f.0 <= e.0;
    rest := frontier - multiset{f};
  }

  lemma AttainedStep(g: Graph, source: Node, dist: map<Node, real>, u: Node, link: Link)
    requires Attained(g, source, dist) && u in dist && link in Links(g, u)
    ensures Attained(g, source, dist[link.target := dist[u] + link.cost])
  {
    var w :| IsWalk(g, source, w) && End(source, w) == u && Cost(w) == dist[u];
    var longer := Hop(w, link);
    assert IsWalk(g, source, longer) && End(source, longer) == link.target
        && Cost(longer) == dist[u] + link.cost;
  }

  ghost predicate AllKnown(frontier: multiset<(real, Node)>, known: set<Node>) {
    forall f :: f in frontier ==> f.1 in known
  }

  lemma ImproveKeepsFrontier(frontier: multiset<(real, Node)>, visited: set<Node>, dist: map<Node, real>,
                             v: Node, cost: real)
    requires FrontierOk(frontier, visited, dist) && v !in visited && (v in dist ==> cost < dist[v])
    requires forall u :: u in visited ==> dist[u] <= cost
    ensures FrontierOk(frontier + multiset{(cost, v)}, visited, dist[v := cost])
  {
    var frontier', dist' := frontier + multiset{(cost, v)}, dist[v := cost];
    assert (cost, v) in frontier';
    forall f | f in frontier' ensures f.1 in dist' && dist'[f.1] <= f.0 {
      assert f in frontier || f == (cost, v);
    }
    forall u, f | u in visited && f in frontier' ensures dist'[u] <= f.0 {
      assert f in frontier || f == (cost, v);
    }
  }

  // What every step of the search keeps.
  ghost predicate SearchOk(g: Graph, source: Node, frontier: multiset<(real, Node)>, visited: set<Node>,
                           dist: map<Node, real>) {
    && Attained(g, source, dist) && source in dist && dist[source] <= 0.0
    && FrontierOk(frontier, visited, dist) && AllKnown(frontier, Known(g, source))
  }

  // Tentative distances only fall, and those of visited nodes stay.
  ghost predicate Lowered(visited: set<Node>, dist: map<Node, real>, dist': map<Node, real>) {
    && (forall v :: v in dist ==> v in dist' && dist'[v] <= dist[v])
    && (forall v :: v in visited && v in dist ==> v in dist' && dist'[v] == dist[v])
  }

  ghost predicate AllRelaxed(dist: map<Node, real>, from: real, links: seq<Link>, n: nat)
    requires n <= |links|
  {
    forall k :: 0 <= k < n ==> Relaxed(dist, from, links[k])
  }

  lemma LoweredKeepsRelaxed(visited: set<Node>, dist: map<Node, real>, dist': map<Node, real>, from: real,
                            links: seq<Link>, n: nat)
    requires n < |links| && Lowered(visited, dist, dist')
    requires AllRelaxed(dist, from, links, n) && Relaxed(dist', from, links[n])
    ensures AllRelaxed(dist', from, links, n + 1)
  {
    forall k | 0 <= k < n + 1 ensures Relaxed(dist', from, links[k]) {
      if k < n {
        assert Relaxed(dist, from, links[k]);
      }
    }
  }

  lemma LoweredTwice(visited: set<Node>, first: map<Node, real>, second: map<Node, real>, third: map<Node, real>)
    requires Lowered(visited, first, second) && Lowered(visited, second, third)
    ensures Lowered(visited, first, third)
  {
  }

  lemma ImproveKeepsKnown(frontier: multiset<(real, Node)>, known: set<Node>, v: Node, cost: real)
    requires AllKnown(frontier, known) && v in known
    ensures AllKnown(frontier + multiset{(cost, v)}, known)
  {
    forall f | f in frontier + multiset{(cost, v)} ensures f.1 in known {
      assert f in frontier || f == (cost, v);
    }
  }

  lemma ImproveKeepsSearch(g: Graph, source: Node, u: Node, frontier: multiset<(real, Node)>,
                           visited: set<Node>, dist: map<Node, real>, link: Link)
    requires SearchOk(g, source, frontier, visited, dist) && u in visited && u in dist
    requires forall v :: v in visited && v in dist ==> dist[v] <= dist[u]
    requires link in Links(g, u) && link.cost >= 0.0 && link.target in Known(g, source)
    requires link.target in dist ==> dist[u] + link.cost < dist[link.target]
    ensures var cost := dist[u] + link.cost;
            SearchOk(g, source, frontier + multiset{(cost, link.target)}, visited, dist[link.target := cost])
  {
    var cost := dist[u] + link.cost;
    AttainedStep(g, source, dist, u, link);
    ImproveKeepsFrontier(frontier, visited, dist, link.target, cost);
    ImproveKeepsKnown(frontier, Known(g, source), link.target, cost);
  }

  lemma NowSettled(g: Graph, visited: set<Node>, u: Node, dist: map<Node, real>, dist': map<Node, real>)
    requires u in visited && visited <= dist.Keys && Settled(g, visited - {u}, dist)
    requires Lowered(visited, dist, dist') && AllRelaxed(dist', dist[u], Links(g, u), |Links(g, u)|)
    ensures Settled(g, visited, dist')
  {
    forall x, i | x in visited && x in dist' && 0 <= i < |Links(g, x)|
      ensures Relaxed(dist', dist'[x], Links(g, x)[i])
    {
      if x != u {
        assert Relaxed(dist, dist[x], Links(g, x)[i]);
      }
    }
  }

  lemma LinkFacts(g: Graph, source: Node, u: Node, i: nat)
    requires NonNegative(g) && i < |Links(g, u)|
    ensures var link := Links(g, u)[i];
            link in Links(g, u) && link.cost >= 0.0 && link.target in Known(g, source)
  {
  }

  // One turn of the inner loop.
  method RelaxLink(g: Graph, source: Node, u: Node, link: Link, cost: real,
                   frontier: multiset<(real, Node)>, ghost visited: set<Node>, dist: map<Node, real>)
    returns (frontier': multiset<(real, Node)>, dist': map<Node, real>)
    requires SearchOk(g, source, frontier, visited, dist) && u in visited && u in dist && dist[u] == cost
    requires forall v :: v in visited && v in dist ==> dist[v] <= cost
    requires link in Links(g, u) && link.cost >= 0.0 && link.target in Known(g, source)
    ensures SearchOk(g, source, frontier', visited, dist')
    ensures Lowered(visited, dist, dist') && Relaxed(dist', cost, link)
  {
    frontier', dist' := frontier, dist;
    var newCost := cost + link.cost;
    if link.target !in dist || newCost < dist[link.target] {
      ImproveKeepsSearch(g, source, u, frontier, visited, dist, link);
      dist' := dist[link.target := newCost];
      frontier' := frontier + multiset{(newCost, link.target)};
    }
  }

  // The inner loop: relaxes every link out of the node just visited.
  method RelaxLinks(g: Graph, source: Node, u: Node, frontier: multiset<(real, Node)>,
                    ghost visited: set<Node>, dist: map<Node, real>)
    returns (frontier': multiset<(real, Node)>, dist': map<Node, real>)
    requires NonNegative(g) && SearchOk(g, source, frontier, visited, dist)
    requires u in visited && u in dist && Settled(g, visited - {u}, dist)
    requires forall v :: v in visited && v in dist ==> dist[v] <= dist[u]
    ensures SearchOk(g, source, frontier', visited, dist') && Settled(g, visited, dist')
  {
    frontier', dist' := frontier, dist;
    var links := Links(g, u);
    var cost := dist[u];
    for i := 0 to |links|
      invariant SearchOk(g, source, frontier', visited, dist')
      invariant Lowered(visited, dist, dist')
      invariant AllRelaxed(dist', cost, links, i)
    {
      LinkFacts(g, source, u, i);
      ghost var was := dist';
      frontier', dist' := RelaxLink(g, source, u, links[i], cost, frontier', visited, dist');
      LoweredTwice(visited, dist, was, dist');
      LoweredKeepsRelaxed(visited, was, dist', cost, links, i);
    }
    NowSettled(g, visited, u, dist, dist');
  }

  lemma VisitKeeps(g: Graph, frontier: multiset<(real, Node)>, visited: set<Node>, dist: map<Node, real>,
                   f: (real, Node))
    requires Settled(g, visited, dist) && FrontierOk(frontier, visited, dist)
    requires f in frontier && forall e :: e in frontier ==> f.0 <= e.0
    requires f.1 !in visited
    ensures f.1 in dist && f.0 == dist[f.1]
    ensures var now := visited + {f.1};
            && FrontierOk(frontier - multiset{f}, now, dist)
            && Settled(g, now - {f.1}, dist)
            && forall v :: v in now ==> dist[v] <= f.0
  {
    var rest := frontier - multiset{f};
    assert (dist[f.1], f.1) in frontier;
    forall e | e in rest ensures e in frontier {
    }
    forall v | v in dist && v !in visited + {f.1} ensures (dist[v], v) in rest {
      assert (dist[v], v) in frontier;
    }
    assert visited + {f.1} - {f.1} == visited;
  }

  lemma SkipKeeps(frontier: multiset<(real, Node)>, visited: set<Node>, dist: map<Node, real>, f: (real, Node))
    requires FrontierOk(frontier, visited, dist) && f in frontier && f.1 in visited
    ensures FrontierOk(frontier - multiset{f}, visited, dist)
  {
    var rest := frontier - multiset{f};
    forall e | e in rest ensures e in frontier {
    }
    forall v | v in dist && v !in visited ensures (dist[v], v) in rest {
      assert (dist[v], v) in frontier;
    }
  }

  lemma FoundIsDistance(g: Graph, source: Node, target: Node, frontier: multiset<(real, Node)>,
                        visited: set<Node>, dist: map<Node, real>, cost: real)
    requires NonNegative(g) && Attained(g, source, dist) && source in dist && dist[source] <= 0.0
    requires Settled(g, visited, dist) && FrontierOk(frontier, visited, dist)
    requires target !in visited && target in dist && dist[target] == cost
    requires forall e :: e in frontier ==> cost <= e.0
    ensures IsDistance(g, source, target, Finite(cost))
  {
    forall w | IsWalk(g, source, w) && End(source, w) == target ensures cost <= Cost(w) {
      WalkBound(g, source, w, frontier, visited, dist);
    }
  }

  lemma ExhaustedIsInfinite(g: Graph, source: Node, target: Node, visited: set<Node>, dist: map<Node, real>)
    requires NonNegative(g) && source in dist && dist[source] <= 0.0
    requires Settled(g, visited, dist) && FrontierOk(multiset{}, visited, dist)
    requires target !in visited
    ensures IsDistance(g, source, target, Infinite)
  {
    forall w | IsWalk(g, source, w) ensures End(source, w) != target {
      WalkBound(g, source, w, multiset{}, visited, dist);
    }
  }

  /** Dijkstra's search with lazy deletion and an early exit. */
  method ShortestPathCost(g: Graph, source: Node, target: Node) returns (r: Distance)
    requires NonNegative(g)
    ensures IsDistance(g, source, target, r)
  {
    var frontier := multiset{(0.0, source)};
    var visited: set<Node> := {};
    var dist := map[source := 0.0];
    assert IsWalk(g, source, Stay) && End(source, Stay) == source && Cost(Stay) == 0.0;
    while |frontier| > 0
      invariant SearchOk(g, source, frontier, visited, dist) && Settled(g, visited, dist)
      invariant target !in visited
      decreases Known(g, source) - visited, |frontier|
    {
      var f, rest := PopLeast(frontier);
      var cost, node := f.0, f.1;
      if node in visited {
        SkipKeeps(frontier, visited, dist, f);
        frontier := rest;
        continue;
      }
      VisitKeeps(g, frontier, visited, dist, f);
      if node == target {
        FoundIsDistance(g, source, target, frontier, visited, dist, cost);
        return Finite(cost);
      }
      visited := visited + {node};
      frontier, dist := RelaxLinks(g, source, node, rest, visited, dist);
    }
    ExhaustedIsInfinite(g, source, target, visited, dist);
    return Infinite;
  }
}
