/**
 * The adaptive routing engine. A directed road multigraph whose edges carry a
 * baseline travel time and a current cost; one edge, bound once at start-up,
 * is the monitored ("camera") road. Each update cycle resets every current cost
 * to the baseline and then prices the monitored edge from the congestion factor
 * and the incident penalty; the route query searches for the cheapest route by
 * current cost.
 *
 * Edges are kept in the graph's edge-iteration order, which groups the edges
 * by origin, origins in node order, and lists a node's neighbours in adjacency
 * order; so a node's first neighbour is the destination of its first edge in
 * that order.
 */
module MapEngine {
  import opened Wrappers
  import opened RoadGraph
  import Dijkstra

  /** An edge of the multigraph is keyed by its origin, its destination and a parallel-edge index. */
  datatype EdgeKey = EdgeKey(u: Node, v: Node, k: nat)

  /** An edge's record: the baseline travel time (seconds) and the current cost, if one is set. */
  datatype Edge = Edge(key: EdgeKey, travelTime: real, currentCost: Option<real>)

  /** The endpoints of the monitored road segment. */
  datatype Monitor = Monitor(u: Node, v: Node)

  /** What an update reports: the monitored edge's travel time and its new cost. */
  datatype CostPair = CostPair(originalTime: real, newCost: real)

  /** Binding fails when there is no first node or the first node has no neighbour. */
  datatype BindError = EmptyNetwork | NoNeighbour

  /** The update fails when the monitored pair has no parallel edge with index 0. */
  datatype UpdateError = MissingMonitoredEdge

  /** The position of `x` in the node order. */
  function IndexOf(nodes: seq<Node>, x: Node): (r: nat)
    requires x in nodes
    ensures r < |nodes| && nodes[r] == x
    ensures forall j :: 0 <= j < r ==> nodes[j] != x
  {
    if nodes[0] == x then 0 else 1 + IndexOf(nodes[1..], x)
  }

  /** The shape of a loaded network: nodes listed once, edges between listed nodes,
      edges grouped by origin in node order, edge keys unique, baseline times non-negative. */
  predicate RoadNetwork(nodes: seq<Node>, es: seq<Edge>)
  {
    (forall i, j :: 0 <= i < j < |nodes| ==> nodes[i] != nodes[j]) &&
    (forall i :: 0 <= i < |es| ==> es[i].key.u in nodes && es[i].key.v in nodes) &&
    (forall i, j :: 0 <= i < j < |es| ==> IndexOf(nodes, es[i].key.u) <= IndexOf(nodes, es[j].key.u)) &&
    UniqueKeys(es) &&
    (forall i :: 0 <= i < |es| ==> es[i].travelTime >= 0.0)
  }

  predicate UniqueKeys(es: seq<Edge>)
  {
    forall i, j :: 0 <= i < j < |es| ==> es[i].key != es[j].key
  }

  /** `a` and `b` have the same edges and baseline times; only current costs may differ. */
  predicate SameLayout(a: seq<Edge>, b: seq<Edge>)
  {
    |a| == |b| && forall i :: 0 <= i < |a| ==> a[i].key == b[i].key && a[i].travelTime == b[i].travelTime
  }

  /** Every current cost that is set is non-negative. */
  predicate CostsNonNegative(es: seq<Edge>)
  {
    forall i :: 0 <= i < |es| && es[i].currentCost.Some? ==> es[i].currentCost.value >= 0.0
  }

  // ---------------------------------------------------------------------------
  // Binding the monitored edge
  // ---------------------------------------------------------------------------

  /** Edge `i` is the first edge out of `u`. */
  predicate FirstOutEdge(es: seq<Edge>, u: Node, i: int)
  {
    0 <= i < |es| && es[i].key.u == u && forall j :: 0 <= j < i ==> es[j].key.u != u
  }

  /** The first neighbour of `u`: the destination of its first edge, if it has one. */
  function FirstNeighbour(es: seq<Edge>, u: Node): (r: Option<Node>)
    ensures r.None? <==> forall i :: 0 <= i < |es| ==> es[i].key.u != u
    ensures r.Some? ==> exists i :: FirstOutEdge(es, u, i) && es[i].key.v == r.value
    decreases |es|
  {
    if |es| == 0 then None
    else if es[0].key.u == u then
      assert FirstOutEdge(es, u, 0);
      Some(es[0].key.v)
    else
      var r := FirstNeighbour(es[1..], u);
      assert forall i :: 1 <= i < |es| ==> es[i] == es[1..][i - 1];
      if r.Some? then
        var i :| FirstOutEdge(es[1..], u, i) && es[1..][i].key.v == r.value;
        assert FirstOutEdge(es, u, i + 1);
        r
      else r
  }

  /** The monitored edge: the first node in node order and that node's first neighbour. */
  function BindMonitor(nodes: seq<Node>, es: seq<Edge>): (r: Result<Monitor, BindError>)
    ensures r == Failure(EmptyNetwork) <==> |nodes| == 0
    ensures r == Failure(NoNeighbour) <==> |nodes| > 0 && forall i :: 0 <= i < |es| ==> es[i].key.u != nodes[0]
    ensures r.Success? ==> r.value.u == nodes[0] && exists i :: FirstOutEdge(es, nodes[0], i) && es[i].key.v == r.value.v
  {
    if |nodes| == 0 then Failure(EmptyNetwork)
    else match FirstNeighbour(es, nodes[0])
      case None => Failure(NoNeighbour)
      case Some(v) => Success(Monitor(nodes[0], v))
  }

  /** Rewriting current costs keeps the network's shape and its monitored edge. */
  lemma LayoutKeepsBinding(nodes: seq<Node>, a: seq<Edge>, b: seq<Edge>)
    requires SameLayout(a, b)
    ensures RoadNetwork(nodes, a) <==> RoadNetwork(nodes, b)
    ensures BindMonitor(nodes, a) == BindMonitor(nodes, b)
  {
  }

  /**
   * In a road network that binds, the first edge in edge order joins the
   * monitored pair: the edge the fill-in step inspects is a monitored-pair edge.
   */
  lemma {:induction false} FirstEdgeJoinsMonitoredPair(nodes: seq<Node>, es: seq<Edge>)
    requires RoadNetwork(nodes, es) && BindMonitor(nodes, es).Success?
    ensures |es| > 0
    ensures es[0].key.u == BindMonitor(nodes, es).value.u && es[0].key.v == BindMonitor(nodes, es).value.v
  {
    var m := BindMonitor(nodes, es).value;
    var i :| FirstOutEdge(es, nodes[0], i) && es[i].key.v == m.v;
    assert IndexOf(nodes, nodes[0]) == 0;
    assert IndexOf(nodes, es[0].key.u) <= IndexOf(nodes, es[i].key.u);
    assert es[0].key.u == nodes[0];
    assert i == 0;
  }

  // ---------------------------------------------------------------------------
  // The reset-then-apply cost update
  // ---------------------------------------------------------------------------

  /** The cost formula: base time scaled by the congestion factor, plus the incident penalty. */
  function NewCost(travelTime: real, congestionFactor: real, incidentPenalty: real): (r: real)
    ensures congestionFactor == 1.0 && incidentPenalty == 0.0 ==> r == travelTime
    ensures congestionFactor == 0.0 ==> r == incidentPenalty
    ensures travelTime == 0.0 ==> r == incidentPenalty
  {
    travelTime * congestionFactor + incidentPenalty
  }

  /** Every edge's current cost set back to its baseline travel time. */
  function ResetCosts(es: seq<Edge>): (r: seq<Edge>)
    ensures SameLayout(es, r)
    ensures forall i :: 0 <= i < |r| ==> r[i].currentCost == Some(r[i].travelTime)
  {
    seq(|es|, i requires 0 <= i < |es| => es[i].(currentCost := Some(es[i].travelTime)))
  }

  /** The position of the edge with key `key`, if there is one (the first, should keys repeat). */
  function FindKey(es: seq<Edge>, key: EdgeKey): (r: Option<nat>)
    ensures r.None? <==> forall i :: 0 <= i < |es| ==> es[i].key != key
    ensures r.Some? ==> r.value < |es| && es[r.value].key == key
    ensures r.Some? ==> forall j :: 0 <= j < r.value ==> es[j].key != key
    decreases |es|
  {
    if |es| == 0 then None
    else if es[0].key == key then Some(0)
    else
      assert forall i :: 1 <= i < |es| ==> es[i] == es[1..][i - 1];
      match FindKey(es[1..], key)
      case None => None
      case Some(i) => Some(i + 1)
  }

  /** Where an edge is found depends on the keys alone, not on current costs. */
  lemma SameLayoutSameFind(a: seq<Edge>, b: seq<Edge>, key: EdgeKey)
    requires SameLayout(a, b)
    ensures FindKey(a, key) == FindKey(b, key)
  {
  }

  /** The edge records after `update_edge_weights(f, p)` on records `es`, monitored key `m`. */
  function Updated(es: seq<Edge>, m: EdgeKey, f: real, p: real): (r: seq<Edge>)
    ensures SameLayout(es, r)
    ensures forall i :: 0 <= i < |r| && es[i].key != m ==> r[i].currentCost == Some(es[i].travelTime)
    ensures UniqueKeys(es) ==>
      forall i :: 0 <= i < |r| && es[i].key == m ==> r[i].currentCost == Some(NewCost(es[i].travelTime, f, p))
  {
    var reset := ResetCosts(es);
    match FindKey(es, m)
    case None => reset
    case Some(i) => reset[i := reset[i].(currentCost := Some(NewCost(es[i].travelTime, f, p)))]
  }

  /** What `update_edge_weights(f, p)` returns, or the missing-key failure it raises. */
  function UpdateOutcome(es: seq<Edge>, m: EdgeKey, f: real, p: real): (r: Result<CostPair, UpdateError>)
    ensures r.Failure? <==> forall i :: 0 <= i < |es| ==> es[i].key != m
    ensures UniqueKeys(es) ==>
      forall i :: 0 <= i < |es| && es[i].key == m ==> r == Success(CostPair(es[i].travelTime, NewCost(es[i].travelTime, f, p)))
  {
    match FindKey(es, m)
    case None => Failure(MissingMonitoredEdge)
    case Some(i) => Success(CostPair(es[i].travelTime, NewCost(es[i].travelTime, f, p)))
  }

  /** The update reads nothing but the edges and their baseline times: current costs do not matter. */
  lemma UpdateDependsOnlyOnLayout(a: seq<Edge>, b: seq<Edge>, m: EdgeKey, f: real, p: real)
    requires SameLayout(a, b)
    ensures Updated(a, m, f, p) == Updated(b, m, f, p)
    ensures UpdateOutcome(a, m, f, p) == UpdateOutcome(b, m, f, p)
  {
  }

  /** An update erases every earlier update: the state after it depends only on its own arguments. */
  lemma UpdateForgetsHistory(es: seq<Edge>, m: EdgeKey, f0: real, p0: real, f: real, p: real)
    ensures Updated(Updated(es, m, f0, p0), m, f, p) == Updated(es, m, f, p)
    ensures UpdateOutcome(Updated(es, m, f0, p0), m, f, p) == UpdateOutcome(es, m, f, p)
  {
  }

  /** Repeating an update with the same signals changes nothing. */
  lemma UpdateIdempotent(es: seq<Edge>, m: EdgeKey, f: real, p: real)
    ensures Updated(Updated(es, m, f, p), m, f, p) == Updated(es, m, f, p)
  {
  }

  /** A clear signal (factor 1, penalty 0) puts every edge, the monitored one included, at its baseline. */
  lemma ClearSignalRestoresBaseline(es: seq<Edge>, m: EdgeKey)
    ensures Updated(es, m, 1.0, 0.0) == ResetCosts(es)
    ensures forall i :: 0 <= i < |es| ==> Updated(es, m, 1.0, 0.0)[i].currentCost == Some(es[i].travelTime)
  {
  }

  /** No leakage: after a crash signal, a clear signal leaves no residual penalty on any edge. */
  lemma NoLeakageAfterCrash(es: seq<Edge>, m: EdgeKey)
    ensures Updated(Updated(es, m, 3.0, 2000.0), m, 1.0, 0.0) == ResetCosts(es)
  {
  }

  /** The new cost never falls when either signal grows (for a non-negative travel time). */
  lemma NewCostMonotone(t: real, f1: real, f2: real, p1: real, p2: real)
    requires t >= 0.0 && f1 <= f2 && p1 <= p2
    ensures NewCost(t, f1, p1) <= NewCost(t, f2, p2)
  {
    assert t * (f2 - f1) >= 0.0;
    assert t * (f2 - f1) == t * f2 - t * f1;
    assert NewCost(t, f2, p2) - NewCost(t, f1, p1) == t * (f2 - f1) + (p2 - p1);
  }

  /** A factor of at least 1 and a non-negative penalty never price an edge below its travel time. */
  lemma NewCostAtLeastBaseline(t: real, f: real, p: real)
    requires t >= 0.0 && f >= 1.0 && p >= 0.0
    ensures NewCost(t, f, p) >= t
  {
  }

  /** The crash scenario (factor 3, penalty 2000) always raises the cost above the travel time. */
  lemma CrashRaisesCost(t: real)
    requires t >= 0.0
    ensures NewCost(t, 3.0, 2000.0) > t
  {
  }

  /** The returned pair is the monitored edge's travel time and its new current cost. */
  lemma OutcomeMatchesState(es: seq<Edge>, m: EdgeKey, f: real, p: real)
    requires UniqueKeys(es)
    ensures UpdateOutcome(es, m, f, p).Success? ==>
      exists i :: 0 <= i < |es| && es[i].key == m &&
        Updated(es, m, f, p)[i].travelTime == UpdateOutcome(es, m, f, p).value.originalTime &&
        Updated(es, m, f, p)[i].currentCost == Some(UpdateOutcome(es, m, f, p).value.newCost)
  {
  }

  /** The test block's two signal pairs, on a monitored edge of 100 seconds: clear gives (100, 100), crash (100, 2300). */
  lemma TestBlockScenarios(es: seq<Edge>, m: EdgeKey, i: int)
    requires UniqueKeys(es) && 0 <= i < |es| && es[i].key == m && es[i].travelTime == 100.0
    ensures UpdateOutcome(es, m, 1.0, 0.0) == Success(CostPair(100.0, 100.0))
    ensures UpdateOutcome(es, m, 3.0, 2000.0) == Success(CostPair(100.0, 2300.0))
  {
  }

  // ---------------------------------------------------------------------------
  // The route query
  // ---------------------------------------------------------------------------

  /** Before the search: if the first edge has no current cost, every edge gets its baseline. */
  function FillIn(es: seq<Edge>): (r: seq<Edge>)
    requires |es| > 0
    ensures SameLayout(es, r)
    ensures es[0].currentCost.None? ==> forall i :: 0 <= i < |r| ==> r[i].currentCost == Some(es[i].travelTime)
    ensures es[0].currentCost.Some? ==> r == es
  {
    if es[0].currentCost.None? then ResetCosts(es) else es
  }

  /** After any update the fill-in step changes nothing. */
  lemma FillInAfterUpdateIsNoop(es: seq<Edge>, m: EdgeKey, f: real, p: real)
    requires |es| > 0
    ensures FillIn(Updated(es, m, f, p)) == Updated(es, m, f, p)
  {
  }

  /** The weight the search uses for an edge: its current cost, or 1 when it has none. */
  function EdgeWeight(e: Edge): (r: real)
    ensures e.currentCost.Some? ==> r == e.currentCost.value
    ensures e.currentCost.None? ==> r == 1.0
    ensures r >= 0.0 <==> e.currentCost.None? || e.currentCost.value >= 0.0
  {
    match e.currentCost
    case Some(c) => c
    case None => 1.0
  }

  /** The road network as the search sees it: one arc per edge, weighted by current cost. */
  function Network(nodes: seq<Node>, es: seq<Edge>): (g: Graph)
    ensures g.nodes == nodes && |g.arcs| == |es|
    ensures forall i :: 0 <= i < |es| ==> g.arcs[i] == Arc(es[i].key.u, es[i].key.v, EdgeWeight(es[i]))
  {
    Graph(nodes, seq(|es|, i requires 0 <= i < |es| => Arc(es[i].key.u, es[i].key.v, EdgeWeight(es[i]))))
  }

  /**
   * A step from `u` to `v` in the search graph exists exactly when some edge record
   * joins them, and it pays the cheapest such record's weight: at most the
   * weight of every record from `u` to `v`, and exactly the weight of one of them.
   */
  lemma NetworkStepCost(nodes: seq<Node>, es: seq<Edge>, u: Node, v: Node)
    ensures HasArc(Network(nodes, es), u, v) <==> exists i :: 0 <= i < |es| && es[i].key.u == u && es[i].key.v == v
    ensures forall i :: 0 <= i < |es| && es[i].key.u == u && es[i].key.v == v ==>
      StepCost(Network(nodes, es), u, v) <= EdgeWeight(es[i])
    ensures HasArc(Network(nodes, es), u, v) ==>
      exists i :: 0 <= i < |es| && es[i].key.u == u && es[i].key.v == v && StepCost(Network(nodes, es), u, v) == EdgeWeight(es[i])
  {
    var g := Network(nodes, es);
    forall i | 0 <= i < |es| && es[i].key.u == u && es[i].key.v == v
      ensures HasArc(g, u, v) && StepCost(g, u, v) <= EdgeWeight(es[i])
    {
      assert Joins(g, i, u, v);
      StepCostBounds(g, i);
    }
    if HasArc(g, u, v) {
      var j := CheapestStepIsAnArc(g, u, v);
      assert es[j].key.u == u && es[j].key.v == v;
    }
  }

  /** A loaded network with non-negative costs is a valid input to Dijkstra's algorithm. */
  lemma NetworkIsSearchable(nodes: seq<Node>, es: seq<Edge>)
    requires RoadNetwork(nodes, es) && CostsNonNegative(es)
    ensures WellFormed(Network(nodes, es)) && NonNegative(Network(nodes, es))
  {
  }

  /**
   * The engine: the road network, its edge records (updated in place) and the
   * monitored edge, bound once when the engine is built.
   */
  class StockholmMap {
    const nodes: seq<Node>
    const edges: array<Edge>
    const targetU: Node
    const targetV: Node

    ghost predicate Valid()
      reads this, edges
    {
      RoadNetwork(nodes, edges[..]) && BindMonitor(nodes, edges[..]) == Success(Monitor(targetU, targetV))
    }

    /** The key of the monitored edge: parallel index 0 between the two bound nodes. */
    function Monitored(): EdgeKey
      reads this
    {
      EdgeKey(targetU, targetV, 0)
    }

    /**
     * The monitored key starts at the first node and joins the pair of the
     * first edge in edge order (the record the fill-in step inspects); only
     * its parallel index 0 may be missing, the update's failure case.
     */
    lemma MonitoredIsFirstEdge()
      requires Valid()
      ensures Monitored().u == nodes[0] && Monitored().k == 0
      ensures edges.Length > 0 && edges[0].key.u == Monitored().u && edges[0].key.v == Monitored().v
    {
      FirstEdgeJoinsMonitoredPair(nodes, edges[..]);
    }

    /** Takes a loaded network and binds the monitored edge; binding must succeed. */
    constructor (nodes: seq<Node>, network: seq<Edge>)
      requires RoadNetwork(nodes, network) && BindMonitor(nodes, network).Success?
      ensures Valid() && fresh(edges)
      ensures this.nodes == nodes && edges[..] == network
      ensures Monitor(targetU, targetV) == BindMonitor(nodes, network).value
      ensures targetU == nodes[0]
    {
      this.nodes := nodes;
      edges := new Edge[|network|](i requires 0 <= i < |network| => network[i]);
      var bound := BindMonitor(nodes, network).value;
      targetU := bound.u;
      targetV := bound.v;
      new;
      assert edges[..] == network;
    }

    /** Sets every edge's current cost to its baseline travel time. */
    method ResetAll()
      requires Valid()
      modifies edges
      ensures Valid() && edges[..] == ResetCosts(old(edges[..]))
    {
      for i := 0 to edges.Length
        invariant forall j :: 0 <= j < i ==> edges[j] == old(edges[j]).(currentCost := Some(old(edges[j]).travelTime))
        invariant forall j :: i <= j < edges.Length ==> edges[j] == old(edges[j])
      {
        edges[i] := edges[i].(currentCost := Some(edges[i].travelTime));
      }
      LayoutKeepsBinding(nodes, old(edges[..]), edges[..]);
    }

    /**
     * The adaptive update: reset every edge to its baseline, then price the
     * monitored edge as travel time * congestion factor + incident penalty and
     * report (travel time, new cost).
     */
    method UpdateEdgeWeights(congestionFactor: real, incidentPenalty: real) returns (r: Result<CostPair, UpdateError>)
      requires Valid()
      modifies edges
      ensures Valid()
      ensures edges[..] == Updated(old(edges[..]), Monitored(), congestionFactor, incidentPenalty)
      ensures r == UpdateOutcome(old(edges[..]), Monitored(), congestionFactor, incidentPenalty)
      ensures forall i :: 0 <= i < edges.Length ==>
        edges[i].key == old(edges[i].key) && edges[i].travelTime == old(edges[i].travelTime)
      ensures forall i :: 0 <= i < edges.Length && edges[i].key != Monitored() ==>
        edges[i].currentCost == Some(edges[i].travelTime)
      ensures forall i :: 0 <= i < edges.Length && edges[i].key == Monitored() ==>
        var cost := NewCost(edges[i].travelTime, congestionFactor, incidentPenalty);
        edges[i].currentCost == Some(cost) && r == Success(CostPair(edges[i].travelTime, cost))
    {
      ghost var before := edges[..];
      ResetAll();
      SameLayoutSameFind(before, edges[..], Monitored());
      match FindKey(edges[..], Monitored())
      case None =>
        r := Failure(MissingMonitoredEdge);
      case Some(i) =>
        var originalTime := edges[i].travelTime;
        var newCost := NewCost(originalTime, congestionFactor, incidentPenalty);
        edges[i] := edges[i].(currentCost := Some(newCost));
        r := Success(CostPair(originalTime, newCost));
      assert edges[..] == Updated(before, Monitored(), congestionFactor, incidentPenalty);
      LayoutKeepsBinding(nodes, before, edges[..]);
    }

    /**
     * The route query between two intersections (already snapped to nodes):
     * fill in missing current costs, then return the cheapest route by
     * current cost, or `None` when the end cannot be reached.
     */
    method GetBestRoute(startNode: Node, endNode: Node) returns (route: Option<seq<Node>>)
      requires Valid() && startNode in nodes && CostsNonNegative(edges[..])
      modifies edges
      ensures Valid() && |old(edges[..])| > 0 && edges[..] == FillIn(old(edges[..]))
      ensures route.Some? ==> IsShortestRoute(Network(nodes, edges[..]), route.value, startNode, endNode)
      ensures route.None? ==> !Reachable(Network(nodes, edges[..]), startNode, endNode)
    {
      if edges[0].currentCost.None? {
        ResetAll();
      }
      NetworkIsSearchable(nodes, edges[..]);
      route := Dijkstra.ShortestRoute(Network(nodes, edges[..]), startNode, endNode);
    }
  }
}
