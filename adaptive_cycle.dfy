/**
 * The sense-think-act cycle around the engine: the sensors' signals priced into
 * the monitored road, and a three-intersection network on which the engine's
 * own test scenarios (a clear signal, then a crash) are followed through to the
 * route the query returns.
 */
module AdaptiveCycle {
  import opened Wrappers
  import opened RoadGraph
  import opened MapEngine
  import VisionSensor
  import TextSensor

  /** Whatever the camera counts and whatever the message says, the monitored road never gets cheaper than its baseline. */
  lemma SensorSignalsNeverDiscount(travelTime: real, vehicleCount: int, message: string)
    requires travelTime >= 0.0
    ensures NewCost(travelTime, VisionSensor.CongestionFactor(vehicleCount).0, TextSensor.Classify(message).1 as real) >= travelTime
  {
  }

  // ---------------------------------------------------------------------------
  // A three-intersection network: the monitored road 1 -> 3 (100 s) and a
  // detour 1 -> 2 -> 3 (150 s + 150 s).
  // ---------------------------------------------------------------------------

  const DemoNodes: seq<Node> := [1, 2, 3]

  const DemoEdges: seq<Edge> := [
    Edge(EdgeKey(1, 3, 0), 100.0, None),
    Edge(EdgeKey(1, 2, 0), 150.0, None),
    Edge(EdgeKey(2, 3, 0), 150.0, None)
  ]

  /** The demo edges are grouped by origin in node order. */
  lemma DemoEdgesGrouped()
    ensures forall i, j :: 0 <= i < j < |DemoEdges| ==>
      IndexOf(DemoNodes, DemoEdges[i].key.u) <= IndexOf(DemoNodes, DemoEdges[j].key.u)
  {
    assert IndexOf(DemoNodes, 1) == 0;
    assert IndexOf(DemoNodes, 2) == 1 by {
      assert DemoNodes[1..] == [2, 3];
    }
  }

  /** The demo network is a road network whose camera binds to the direct road 1 -> 3. */
  lemma DemoBinding()
    ensures RoadNetwork(DemoNodes, DemoEdges)
    ensures BindMonitor(DemoNodes, DemoEdges) == Success(Monitor(1, 3))
  {
    DemoEdgesGrouped();
    assert FirstNeighbour(DemoEdges, 1) == Some(3);
  }

  /** The search graph of the demo network after `update_edge_weights(f, p)`. */
  function DemoGraph(f: real, p: real): Graph
  {
    Network(DemoNodes, Updated(DemoEdges, EdgeKey(1, 3, 0), f, p))
  }

  /** After an update the direct road costs the priced value and the detour keeps its baseline. */
  lemma DemoArcs(f: real, p: real)
    ensures DemoGraph(f, p).arcs == [Arc(1, 3, NewCost(100.0, f, p)), Arc(1, 2, 150.0), Arc(2, 3, 150.0)]
  {
  }

  /** A graph shaped like the demo network, with weight `w` on the direct road. */
  predicate DemoShape(g: Graph, w: real)
  {
    g.arcs == [Arc(1, 3, w), Arc(1, 2, 150.0), Arc(2, 3, 150.0)]
  }

  /** No road leads into intersection 1, so the only route from 1 to 1 is staying put. */
  lemma RouteToStartIsTrivial(g: Graph, w: real, p: seq<Node>)
    requires DemoShape(g, w) && IsRoute(g, p, 1, 1)
    ensures p == [1]
  {
    if |p| >= 2 {
      RoutePrefix(g, p, 1, 1);
      assert false;
    }
  }

  /** The only routes from 1 to 3 are the direct road and the detour through 2. */
  lemma DemoRoutes(g: Graph, w: real, q: seq<Node>)
    requires DemoShape(g, w) && IsRoute(g, q, 1, 3)
    ensures q == [1, 3] || q == [1, 2, 3]
  {
    RoutePrefix(g, q, 1, 3);
    var p := q[..|q| - 1];
    assert q == p + [3];
    var y := q[|q| - 2];
    var j :| Joins(g, j, y, 3);
    if y == 1 {
      RouteToStartIsTrivial(g, w, p);
    } else {
      assert y == 2;
      RoutePrefix(g, p, 1, 2);
      var p' := p[..|p| - 1];
      assert p == p' + [2];
      var j' :| Joins(g, j', p[|p| - 2], 2);
      RouteToStartIsTrivial(g, w, p');
    }
  }

  /** The direct road costs `w`, the detour 300 seconds. */
  lemma DemoCosts(g: Graph, w: real)
    requires DemoShape(g, w)
    ensures PathCost(g, [1, 3]) == w
    ensures PathCost(g, [1, 2, 3]) == 300.0
  {
    assert g.arcs[1..] == [Arc(1, 2, 150.0), Arc(2, 3, 150.0)];
    assert g.arcs[1..][1..] == [Arc(2, 3, 150.0)];
    assert g.arcs[1..][1..][1..] == [];
    assert CheapestArc(g.arcs, 1, 3) == Some(w);
    assert CheapestArc(g.arcs, 1, 2) == Some(150.0);
    assert CheapestArc(g.arcs[1..][1..], 2, 3) == Some(150.0);
    assert CheapestArc(g.arcs[1..], 2, 3) == Some(150.0);
    assert CheapestArc(g.arcs, 2, 3) == Some(150.0);
    assert [1, 2, 3][..2] == [1, 2];
    assert [1, 2][..1] == [1];
    assert [1, 3][..1] == [1];
  }

  /** Both candidate routes exist in a demo-shaped graph. */
  lemma DemoRoutesExist(g: Graph, w: real)
    requires DemoShape(g, w)
    ensures IsRoute(g, [1, 3], 1, 3) && IsRoute(g, [1, 2, 3], 1, 3)
  {
    assert Joins(g, 0, 1, 3) && Joins(g, 1, 1, 2) && Joins(g, 2, 2, 3);
  }

  /**
   * The route the query should take depends only on the priced direct road
   * against the 300-second detour: the direct road while it costs at most 300,
   * the detour once it costs at least 300.
   */
  lemma DemoShortestRoute(f: real, p: real)
    ensures NewCost(100.0, f, p) <= 300.0 <==> IsShortestRoute(DemoGraph(f, p), [1, 3], 1, 3)
    ensures NewCost(100.0, f, p) >= 300.0 <==> IsShortestRoute(DemoGraph(f, p), [1, 2, 3], 1, 3)
  {
    var g, w := DemoGraph(f, p), NewCost(100.0, f, p);
    DemoArcs(f, p);
    DemoCosts(g, w);
    DemoRoutesExist(g, w);
    forall q | IsRoute(g, q, 1, 3) ensures PathCost(g, q) == w || PathCost(g, q) == 300.0 {
      DemoRoutes(g, w, q);
    }
  }

  /** Scenario A, the clear signal: the monitored road (100 s) is the route to take. */
  lemma ClearSignalKeepsMonitoredRoad()
    ensures IsShortestRoute(DemoGraph(1.0, 0.0), [1, 3], 1, 3)
    ensures !IsShortestRoute(DemoGraph(1.0, 0.0), [1, 2, 3], 1, 3)
  {
    DemoShortestRoute(1.0, 0.0);
  }

  /** Scenario B, the crash (factor 3, penalty 2000): the monitored road costs 2300 s and the route detours. */
  lemma CrashSignalReroutes()
    ensures IsShortestRoute(DemoGraph(3.0, 2000.0), [1, 2, 3], 1, 3)
    ensures !IsShortestRoute(DemoGraph(3.0, 2000.0), [1, 3], 1, 3)
  {
    DemoShortestRoute(3.0, 2000.0);
  }

  /** An accident report alone, whatever the camera counts, prices the direct road above the detour. */
  lemma AccidentReportReroutes(vehicleCount: int, message: string)
    requires TextSensor.MentionsAccident(message)
    ensures var f := VisionSensor.CongestionFactor(vehicleCount).0;
            IsShortestRoute(DemoGraph(f, TextSensor.Classify(message).1 as real), [1, 2, 3], 1, 3)
  {
    var f := VisionSensor.CongestionFactor(vehicleCount).0;
    VisionSensor.FactorIsBandValue(vehicleCount);
    NewCostAtLeastBaseline(100.0, f, 0.0);
    DemoShortestRoute(f, TextSensor.Classify(message).1 as real);
  }

  /** With non-negative signals every demo edge has a non-negative cost after the update. */
  lemma DemoCostsNonNegative(f: real, p: real)
    requires f >= 0.0 && p >= 0.0
    ensures CostsNonNegative(Updated(DemoEdges, EdgeKey(1, 3, 0), f, p))
  {
    NewCostMonotone(100.0, 0.0, f, 0.0, p);
  }

  /**
   * One full cycle on the demo network: build the engine, update it with the
   * signals `(f, p)`, and ask for the route from 1 to 3. The engine returns the
   * direct road when it is strictly cheaper than the detour and the detour when
   * it is strictly dearer.
   */
  method DemoCycle(f: real, p: real) returns (route: Option<seq<Node>>, costs: Result<CostPair, UpdateError>)
    requires f >= 0.0 && p >= 0.0
    ensures costs == Success(CostPair(100.0, NewCost(100.0, f, p)))
    ensures NewCost(100.0, f, p) < 300.0 ==> route == Some([1, 3])
    ensures NewCost(100.0, f, p) > 300.0 ==> route == Some([1, 2, 3])
    ensures NewCost(100.0, f, p) == 300.0 ==> route == Some([1, 3]) || route == Some([1, 2, 3])
  {
    DemoBinding();
    var engine := new StockholmMap(DemoNodes, DemoEdges);
    costs := engine.UpdateEdgeWeights(f, p);
    ghost var es := engine.edges[..];
    assert es == Updated(DemoEdges, EdgeKey(1, 3, 0), f, p);
    assert engine.Monitored() == EdgeKey(1, 3, 0);
    assert es[0].currentCost == Some(NewCost(100.0, f, p)) by {
      assert es[0].key == EdgeKey(1, 3, 0);
    }
    DemoCostsNonNegative(f, p);
    route := engine.GetBestRoute(1, 3);
    assert engine.edges[..] == es by {
      FillInAfterUpdateIsNoop(DemoEdges, EdgeKey(1, 3, 0), f, p);
    }
    var g := DemoGraph(f, p);
    DemoArcs(f, p);
    DemoRoutesExist(g, NewCost(100.0, f, p));
    DemoShortestRoute(f, p);
    if route.Some? {
      DemoRoutes(g, NewCost(100.0, f, p), route.value);
    }
  }
}
