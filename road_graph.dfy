/**
 * The weighted directed multigraph that the route query searches: nodes in
 * insertion order and one arc per road segment, weighted by the segment's
 * current cost. Parallel segments between the same pair of intersections are
 * separate arcs; a route pays for the cheapest of them, as a shortest-path
 * search over a multigraph does.
 */
module RoadGraph {
  import opened Wrappers

  /** An intersection id of the road network. */
  type Node = int

  /** One road segment, as seen by the search: origin, destination and weight. */
  datatype Arc = Arc(from: Node, to: Node, weight: real)

  datatype Graph = Graph(nodes: seq<Node>, arcs: seq<Arc>)

  /** Every arc joins two nodes of the graph. */
  predicate WellFormed(g: Graph)
  {
    forall j :: 0 <= j < |g.arcs| ==> g.arcs[j].from in g.nodes && g.arcs[j].to in g.nodes
  }

  /** No arc has a negative weight (the precondition of Dijkstra's algorithm). */
  predicate NonNegative(g: Graph)
  {
    forall j :: 0 <= j < |g.arcs| ==> g.arcs[j].weight >= 0.0
  }

  /** Arc `j` goes from `u` to `v`. */
  predicate Joins(g: Graph, j: int, u: Node, v: Node)
  {
    0 <= j < |g.arcs| && g.arcs[j].from == u && g.arcs[j].to == v
  }

  /** At least one road segment goes from `u` to `v`. */
  predicate HasArc(g: Graph, u: Node, v: Node)
  {
    exists j :: 0 <= j < |g.arcs| && Joins(g, j, u, v)
  }

  /** The smallest weight among the arcs of `arcs` from `u` to `v`, or `None` if there are none. */
  function CheapestArc(arcs: seq<Arc>, u: Node, v: Node): (r: Option<real>)
    ensures r.None? <==> forall j :: 0 <= j < |arcs| ==> !(arcs[j].from == u && arcs[j].to == v)
    ensures r.Some? ==> forall j :: 0 <= j < |arcs| && arcs[j].from == u && arcs[j].to == v ==> r.value <= arcs[j].weight
    ensures r.Some? ==> exists j :: 0 <= j < |arcs| && arcs[j].from == u && arcs[j].to == v && arcs[j].weight == r.value
    decreases |arcs|
  {
    if |arcs| == 0 then None
    else
      var rest := CheapestArc(arcs[1..], u, v);
      assert forall j :: 1 <= j < |arcs| ==> arcs[j] == arcs[1..][j - 1];
      if arcs[0].from == u && arcs[0].to == v then
        (if rest.Some? && rest.value < arcs[0].weight then rest else Some(arcs[0].weight))
      else rest
  }

  /** What one step from `u` to `v` costs: the cheapest parallel arc (0 when there is none). */
  function StepCost(g: Graph, u: Node, v: Node): real
  {
    match CheapestArc(g.arcs, u, v)
    case Some(w) => w
    case None => 0.0
  }

  /** `p` is a walk: a non-empty node sequence whose consecutive nodes are joined by an arc. */
  predicate IsPath(g: Graph, p: seq<Node>)
  {
    |p| >= 1 && forall i :: 0 <= i < |p| - 1 ==> HasArc(g, p[i], p[i + 1])
  }

  /** `p` is a walk from `s` to `t`. */
  predicate IsRoute(g: Graph, p: seq<Node>, s: Node, t: Node)
  {
    IsPath(g, p) && p[0] == s && p[|p| - 1] == t
  }

  /** Total cost of a node sequence, each step paying its cheapest parallel arc. */
  function PathCost(g: Graph, p: seq<Node>): real
    decreases |p|
  {
    if |p| <= 1 then 0.0 else PathCost(g, p[..|p| - 1]) + StepCost(g, p[|p| - 2], p[|p| - 1])
  }

  /** `t` can be reached from `s`. */
  ghost predicate Reachable(g: Graph, s: Node, t: Node)
  {
    exists q :: IsRoute(g, q, s, t)
  }

  /** `p` is a route from `s` to `t` that no other route from `s` to `t` undercuts. */
  ghost predicate IsShortestRoute(g: Graph, p: seq<Node>, s: Node, t: Node)
  {
    IsRoute(g, p, s, t) && forall q :: IsRoute(g, q, s, t) ==> PathCost(g, p) <= PathCost(g, q)
  }

  /** A step over an existing arc costs at most that arc's weight, and never less than zero. */
  lemma StepCostBounds(g: Graph, j: int)
    requires 0 <= j < |g.arcs|
    ensures StepCost(g, g.arcs[j].from, g.arcs[j].to) <= g.arcs[j].weight
    ensures NonNegative(g) ==> StepCost(g, g.arcs[j].from, g.arcs[j].to) >= 0.0
  {
  }

  /** The cheapest parallel arc is an actual arc, so a relaxation bound on every arc covers it. */
  lemma CheapestStepIsAnArc(g: Graph, u: Node, v: Node) returns (j: int)
    requires HasArc(g, u, v)
    ensures Joins(g, j, u, v) && g.arcs[j].weight == StepCost(g, u, v)
  {
    var w :| Joins(g, w, u, v);
    assert CheapestArc(g.arcs, u, v).Some?;
    j :| 0 <= j < |g.arcs| && g.arcs[j].from == u && g.arcs[j].to == v && g.arcs[j].weight == StepCost(g, u, v);
  }

  /** Extending a route to `x` by an arc `x -> y` gives a route to `y` that costs one more step. */
  lemma ExtendRoute(g: Graph, p: seq<Node>, s: Node, x: Node, y: Node)
    requires IsRoute(g, p, s, x) && HasArc(g, x, y)
    ensures IsRoute(g, p + [y], s, y)
    ensures PathCost(g, p + [y]) == PathCost(g, p) + StepCost(g, x, y)
  {
  }

  /** Dropping the last node of a route of two or more nodes leaves a route to the second-to-last node. */
  lemma RoutePrefix(g: Graph, q: seq<Node>, s: Node, t: Node)
    requires IsRoute(g, q, s, t) && |q| >= 2
    ensures IsRoute(g, q[..|q| - 1], s, q[|q| - 2])
    ensures HasArc(g, q[|q| - 2], t)
    ensures PathCost(g, q) == PathCost(g, q[..|q| - 1]) + StepCost(g, q[|q| - 2], t)
  {
  }

}
