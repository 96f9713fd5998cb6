/**
 * Dijkstra's single-source shortest-path search from a source node to a
 * target node, as the route query runs it: a table of tentative distances
 * (`seen`), a table of final distances (`dist`) and, for every node reached,
 * the node sequence that reached it (`paths`). The search stops as soon as the
 * target is settled, and reports that there is no route when every reached
 * node is settled without the target.
 */
module Dijkstra {
  import opened Wrappers
  import opened RoadGraph

  /** Every reached node has a recorded route from `s` that costs at most its tentative distance. */
  ghost predicate Tentative(g: Graph, s: Node, seen: map<Node, real>, paths: map<Node, seq<Node>>)
  {
    paths.Keys == seen.Keys &&
    forall x :: x in seen ==> IsRoute(g, paths[x], s, x) && PathCost(g, paths[x]) <= seen[x]
  }

  /** Every settled node's distance is final: no route from `s` to it is cheaper. */
  ghost predicate Settled(g: Graph, s: Node, seen: map<Node, real>, dist: map<Node, real>)
  {
    dist.Keys <= seen.Keys &&
    forall x :: x in dist ==> dist[x] == seen[x] && forall q :: IsRoute(g, q, s, x) ==> seen[x] <= PathCost(g, q)
  }

  /** Arc `j` from a settled node to an unsettled one has been relaxed. */
  ghost predicate Relaxed(g: Graph, seen: map<Node, real>, dist: map<Node, real>, j: int)
    requires 0 <= j < |g.arcs|
  {
    var a := g.arcs[j];
    a.from in dist && a.from in seen && a.to !in dist ==> a.to in seen && seen[a.to] <= seen[a.from] + a.weight
  }

  ghost predicate AllRelaxed(g: Graph, seen: map<Node, real>, dist: map<Node, real>)
  {
    forall j :: 0 <= j < |g.arcs| ==> Relaxed(g, seen, dist, j)
  }

  /** The source is reached at distance 0 and is the only reached node until it is settled. */
  ghost predicate SourceFirst(s: Node, seen: map<Node, real>, dist: map<Node, real>)
  {
    s in seen && seen[s] == 0.0 && (s !in dist ==> dist.Keys == {} && seen.Keys == {s})
  }

  /**
   * Every route from `s` to an unsettled node `z` crosses the frontier: some
   * reached but unsettled node has a tentative distance no larger than the
   * route's cost.
   */
  lemma {:induction false} FrontierBound(g: Graph, s: Node, seen: map<Node, real>, dist: map<Node, real>, q: seq<Node>, z: Node)
    requires NonNegative(g) && Settled(g, s, seen, dist) && AllRelaxed(g, seen, dist) && SourceFirst(s, seen, dist)
    requires IsRoute(g, q, s, z) && z !in dist
    ensures exists y :: y in seen && y !in dist && seen[y] <= PathCost(g, q)
    decreases |q|
  {
    if |q| == 1 {
      assert z == s && seen[s] <= PathCost(g, q);
    } else {
      var x := q[|q| - 2];
      var prefix := q[..|q| - 1];
      RoutePrefix(g, q, s, z);
      var j := CheapestStepIsAnArc(g, x, z);
      if x in dist {
        assert Relaxed(g, seen, dist, j);
        assert seen[z] <= PathCost(g, q);
      } else {
        FrontierBound(g, s, seen, dist, prefix, x);
      }
    }
  }

  /** The reached, unsettled node of least tentative distance has its final distance. */
  lemma MinFrontierIsFinal(g: Graph, s: Node, seen: map<Node, real>, dist: map<Node, real>, v: Node)
    requires NonNegative(g) && Settled(g, s, seen, dist) && AllRelaxed(g, seen, dist) && SourceFirst(s, seen, dist)
    requires v in seen && v !in dist
    requires forall y :: y in seen && y !in dist ==> seen[v] <= seen[y]
    ensures forall q :: IsRoute(g, q, s, v) ==> seen[v] <= PathCost(g, q)
  {
    forall q | IsRoute(g, q, s, v) ensures seen[v] <= PathCost(g, q) {
      FrontierBound(g, s, seen, dist, q, v);
    }
  }

  /** Picks a reached, unsettled node of least tentative distance, scanning the nodes in order. */
  method PickMin(nodes: seq<Node>, seen: map<Node, real>, dist: map<Node, real>) returns (found: bool, v: Node)
    requires seen.Keys <= set x | x in nodes
    ensures found ==> v in seen && v !in dist && forall y :: y in seen && y !in dist ==> seen[v] <= seen[y]
    ensures !found ==> seen.Keys <= dist.Keys
  {
    found, v := false, 0;
    for i := 0 to |nodes|
      invariant found ==> v in seen && v !in dist
      invariant found ==> forall k :: 0 <= k < i && nodes[k] in seen && nodes[k] !in dist ==> seen[v] <= seen[nodes[k]]
      invariant !found ==> forall k :: 0 <= k < i ==> nodes[k] !in seen || nodes[k] in dist
    {
      var x := nodes[i];
      if x in seen && x !in dist && (!found || seen[x] < seen[v]) {
        found, v := true, x;
      }
    }
    forall y | y in seen && y !in dist ensures found && seen[v] <= seen[y] {
      var k :| 0 <= k < |nodes| && nodes[k] == y;
    }
  }

  /** Settling the least unsettled node keeps every invariant except relaxation of its own arcs. */
  lemma SettleMin(g: Graph, s: Node, seen: map<Node, real>, dist: map<Node, real>, v: Node)
    requires NonNegative(g) && Settled(g, s, seen, dist) && AllRelaxed(g, seen, dist) && SourceFirst(s, seen, dist)
    requires v in seen && v !in dist
    requires forall y :: y in seen && y !in dist ==> seen[v] <= seen[y]
    ensures Settled(g, s, seen, dist[v := seen[v]]) && SourceFirst(s, seen, dist[v := seen[v]])
    ensures s in dist[v := seen[v]]
    ensures forall j :: 0 <= j < |g.arcs| && g.arcs[j].from != v ==> Relaxed(g, seen, dist[v := seen[v]], j)
  {
    MinFrontierIsFinal(g, s, seen, dist, v);
    var after := dist[v := seen[v]];
    forall j | 0 <= j < |g.arcs| && g.arcs[j].from != v ensures Relaxed(g, seen, after, j) {
      assert Relaxed(g, seen, dist, j);
    }
  }

  /** Every arc is relaxed, except arcs out of `v` at index `i` or later. */
  ghost predicate RelaxedBefore(g: Graph, seen: map<Node, real>, dist: map<Node, real>, v: Node, i: int)
  {
    forall j :: 0 <= j < |g.arcs| && (j < i || g.arcs[j].from != v) ==> Relaxed(g, seen, dist, j)
  }

  /** The invariant of the relaxation loop for the settled node `v`. */
  ghost predicate RelaxInvariant(g: Graph, s: Node, v: Node, seen: map<Node, real>, dist: map<Node, real>, paths: map<Node, seq<Node>>)
  {
    seen.Keys <= (set x | x in g.nodes) && v in dist &&
    SourceFirst(s, seen, dist) && Tentative(g, s, seen, paths) && Settled(g, s, seen, dist)
  }

  /** Lowering the tentative distance of the unsettled node at the head of arc `i` keeps the invariant. */
  lemma LowerTentative(g: Graph, s: Node, v: Node, seen: map<Node, real>, dist: map<Node, real>, paths: map<Node, seq<Node>>, i: int)
    requires WellFormed(g) && 0 <= i < |g.arcs| && g.arcs[i].from == v && g.arcs[i].to !in dist
    requires RelaxInvariant(g, s, v, seen, dist, paths) && RelaxedBefore(g, seen, dist, v, i)
    requires g.arcs[i].to !in seen || seen[v] + g.arcs[i].weight < seen[g.arcs[i].to]
    ensures var y := g.arcs[i].to;
      var seen' := seen[y := seen[v] + g.arcs[i].weight];
      RelaxInvariant(g, s, v, seen', dist, paths[y := paths[v] + [y]]) && RelaxedBefore(g, seen', dist, v, i + 1)
  {
    var y := g.arcs[i].to;
    var seen' := seen[y := seen[v] + g.arcs[i].weight];
    var paths' := paths[y := paths[v] + [y]];
    assert Joins(g, i, v, y);
    ExtendRoute(g, paths[v], s, v, y);
    StepCostBounds(g, i);
    assert Tentative(g, s, seen', paths');
    forall j | 0 <= j < |g.arcs| && (j < i + 1 || g.arcs[j].from != v) ensures Relaxed(g, seen', dist, j) {
      if j != i {
        assert Relaxed(g, seen, dist, j);
      }
    }
  }

  /** An arc that needs no update is already relaxed. */
  lemma SkipArc(g: Graph, v: Node, seen: map<Node, real>, dist: map<Node, real>, i: int)
    requires 0 <= i < |g.arcs| && v in dist && v in seen && RelaxedBefore(g, seen, dist, v, i)
    requires !(g.arcs[i].from == v && g.arcs[i].to !in dist && (g.arcs[i].to !in seen || seen[v] + g.arcs[i].weight < seen[g.arcs[i].to]))
    ensures RelaxedBefore(g, seen, dist, v, i + 1)
  {
  }

  /** Relaxes every arc out of the just-settled node `v`. */
  method RelaxArcs(g: Graph, s: Node, v: Node, seen0: map<Node, real>, dist: map<Node, real>, paths0: map<Node, seq<Node>>)
    returns (seen: map<Node, real>, paths: map<Node, seq<Node>>)
    requires WellFormed(g) && NonNegative(g)
    requires RelaxInvariant(g, s, v, seen0, dist, paths0) && RelaxedBefore(g, seen0, dist, v, 0)
    ensures RelaxInvariant(g, s, v, seen, dist, paths) && AllRelaxed(g, seen, dist)
  {
    seen, paths := seen0, paths0;
    for i := 0 to |g.arcs|
      invariant RelaxInvariant(g, s, v, seen, dist, paths) && RelaxedBefore(g, seen, dist, v, i)
    {
      var a := g.arcs[i];
      if a.from == v && a.to !in dist && (a.to !in seen || seen[v] + a.weight < seen[a.to]) {
        LowerTentative(g, s, v, seen, dist, paths, i);
        seen := seen[a.to := seen[v] + a.weight];
        paths := paths[a.to := paths[v] + [a.to]];
      } else {
        SkipArc(g, v, seen, dist, i);
      }
    }
    assert forall j :: 0 <= j < |g.arcs| ==> Relaxed(g, seen, dist, j);
  }

  /**
   * The route query's search: the cheapest route from `source` to `target`,
   * or `None` exactly when `target` cannot be reached.
   */
  method ShortestRoute(g: Graph, source: Node, target: Node) returns (route: Option<seq<Node>>)
    requires WellFormed(g) && NonNegative(g) && source in g.nodes
    ensures route.Some? ==> IsShortestRoute(g, route.value, source, target)
    ensures route.None? ==> !Reachable(g, source, target)
  {
    ghost var universe := set x | x in g.nodes;
    var seen: map<Node, real> := map[source := 0.0];
    var dist: map<Node, real> := map[];
    var paths: map<Node, seq<Node>> := map[source := [source]];
    route := None;
    while true
      invariant seen.Keys <= universe && target !in dist
      invariant SourceFirst(source, seen, dist)
      invariant Tentative(g, source, seen, paths)
      invariant Settled(g, source, seen, dist)
      invariant AllRelaxed(g, seen, dist)
      decreases universe - dist.Keys
    {
      var found, v := PickMin(g.nodes, seen, dist);
      if !found {
        break;
      }
      SettleMin(g, source, seen, dist, v);
      dist := dist[v := seen[v]];
      if v == target {
        route := Some(paths[v]);
        break;
      }
      seen, paths := RelaxArcs(g, source, v, seen, dist, paths);
      assert AllRelaxed(g, seen, dist);
    }
    if route.None? && Reachable(g, source, target) {
      var q :| IsRoute(g, q, source, target);
      FrontierBound(g, source, seen, dist, q, target);
      assert false;
    }
  }
}
