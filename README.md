# Adaptive routing engine (Stockholm) — a Dafny model

This project models the core of an adaptive traffic-routing demo. A road network of
Stockholm is a directed multigraph whose edges carry a baseline `travel_time`. One road
segment, bound once when the engine starts, is the monitored ("camera") road. Each cycle:

- a vision sensor turns a vehicle count into a congestion factor;
- a text sensor turns a message into an incident penalty;
- the map engine resets every edge's `current_cost` to its travel time, then prices the
  monitored edge as `travel_time * factor + penalty`;
- the route query returns the cheapest route by `current_cost`, or nothing when the
  destination cannot be reached.

Modules (one file each):

- `Wrappers` (`wrappers.dfy`): `Option` and `Result`.
- `RoadGraph` (`road_graph.dfy`): the weighted multigraph the search sees. It defines
  walks, route cost and shortest routes. A step between two intersections pays the
  cheapest of their parallel segments.
- `Dijkstra` (`dijkstra.dfy`): Dijkstra's algorithm as an imperative method over a
  tentative-distance table and a table of settled distances. It is proved to return a
  shortest route, or `None` exactly when the target is unreachable.
- `MapEngine` (`map_engine.dfy`): the class `StockholmMap`. Its fields are the node
  order, an `array<Edge>` of edge records in the graph's edge-iteration order, and the
  bound monitored endpoints `targetU`/`targetV`. It has the binding rule, the
  reset-then-apply update (a loop that rewrites the array in place, then one write to
  the monitored edge) and the route query. The specification functions `Updated` and
  `UpdateOutcome` carry the lemmas on history independence, idempotence and no
  leakage. `FillIn` carries the fill-in lemma, and `Network` carries the lemma
  on the step cost the search pays. The monotonicity lemmas are about the cost
  formula `NewCost`.
- `VisionSensor` (`vision_sensor.dfy`): the three-band factor rule and the time-window
  count of video mode.
- `TextSensor` (`text_sensor.dfy`): the fixed message list and the case-sensitive,
  accident-first keyword rule. It includes a census of the list: two accidents, one
  warning, four clear.
- `AdaptiveCycle` (`adaptive_cycle.dfy`): links the sensors to the engine. On a
  three-intersection network it follows the engine's own test scenarios to the route
  the query returns. A clear signal keeps the monitored road (100 s against a
  300 s detour); a crash signal prices it at 2300 s and the route detours.

In these places the model follows the code as written, which a reader might not expect:

- **No input validation.** A negative factor or penalty is not rejected; the formula
  is applied as written.
- **Costs can be missing.** `current_cost` is absent until the first update or route query.
  `current_cost` is an `Option`, and the fill-in step of the route query is modelled.
  The fill-in looks only at the first edge. A missing cost weighs 1 in the search,
  which is the default weight of the graph library.
- **The update can fail.** If the monitored pair has no edge with parallel index 0, the
  update fails. This happens after the reset loop has already run, so the costs are
  reset on the failure path too.
- **No tie-breaking rule.** Any shortest route satisfies the contract. The library's
  heap order is not modelled.
- **The time window.** The count of video mode reads as a jam when `t % 20 > 10`. So
  second 10 of each window is still free flow, although the code's comment says
  "10-20 seconds: Heavy Traffic".

The edge array is in the graph's edge-iteration order, and `RoadNetwork` states the part of it the model relies on:
edges are grouped by origin, and the origins follow the node order. So a node's first
neighbour is the destination of its first out-edge. When binding succeeds, the first
edge in the array joins the monitored pair, and that edge is the one the fill-in step
inspects.

## Model

| member | source | states |
|---|---|---|
| MapEngine.FirstNeighbour | modules/map_engine.py:89-90 | The first neighbour of a node is `None` exactly when no edge leaves it; otherwise it is the destination of the first edge out of that node in edge order |
| MapEngine.BindMonitor | modules/map_engine.py:88-91 | Binding fails on an empty node list, and fails when the first node has no out-edge. Otherwise the monitored pair is (first node, destination of that node's first out-edge), so an edge between them exists |
| MapEngine.FirstEdgeJoinsMonitoredPair | modules/map_engine.py:88-91 | In a road network that binds, the first edge in edge order runs from the first node to its first neighbour: it joins the monitored pair |
| MapEngine.LayoutKeepsBinding | modules/map_engine.py:88-91 | Rewriting current costs changes neither the network's shape nor which edge is bound, so the binding stays fixed for the run |
| MapEngine.ResetCosts | modules/map_engine.py:102-104 | Every edge keeps its key and travel time and gets `current_cost == travel_time` |
| MapEngine.FindKey | modules/map_engine.py:109 | The lookup of edge `(u, v, 0)` finds nothing exactly when no edge has that key; otherwise it returns the first position holding that key |
| MapEngine.Updated | modules/map_engine.py:100-118 | After an update, keys and travel times are unchanged. Every edge whose key is not the monitored key, parallel edges `k > 0` included, has `current_cost == travel_time`. With unique keys, the monitored edge has `travel_time * f + p` |
| MapEngine.UpdateOutcome | modules/map_engine.py:109-120 | The update fails exactly when the monitored key is missing. Otherwise it returns (that edge's travel time, `travel_time * f + p`) |
| MapEngine.UpdateDependsOnlyOnLayout | modules/map_engine.py:100-104 | The update's resulting state and return value do not depend on the current costs before the call |
| MapEngine.UpdateForgetsHistory | modules/map_engine.py:100-118 | Updating with (f0, p0) and then with (f, p) gives the same state and return value as updating with (f, p) alone |
| MapEngine.UpdateIdempotent | modules/map_engine.py:100-118 | Updating twice with the same signals gives the same state as updating once |
| MapEngine.ClearSignalRestoresBaseline | modules/map_engine.py:115 | The signals (1.0, 0) put every edge, the monitored one included, at `current_cost == travel_time` |
| MapEngine.NoLeakageAfterCrash | modules/map_engine.py:151-155 | A clear update after the crash update (3.0, 2000) leaves every edge at its baseline |
| MapEngine.NewCostMonotone | modules/map_engine.py:115 | For `travel_time >= 0` the new cost does not decrease as the factor or the penalty grows |
| MapEngine.NewCostAtLeastBaseline | modules/map_engine.py:115 | With `f >= 1` and `p >= 0` the new cost is at least the travel time |
| MapEngine.CrashRaisesCost | modules/map_engine.py:155-158 | The crash signals (3.0, 2000) give a new cost strictly above any non-negative travel time |
| MapEngine.NewCost | modules/map_engine.py:115 | The cost formula `travel_time * f + p`. The clear signal (1.0, 0) leaves the travel time unchanged. A factor of 0, or a travel time of 0, leaves the penalty alone. Its monotonicity and lower bound are the lemmas `NewCostMonotone` and `NewCostAtLeastBaseline` |
| MapEngine.OutcomeMatchesState | modules/map_engine.py:111-120 | A successful update's returned pair is the monitored edge's travel time and the current cost stored on it |
| MapEngine.TestBlockScenarios | modules/map_engine.py:150-156 | The test block's two signal pairs, on an assumed monitored edge of 100 s: the clear signal returns (100, 100) and the crash signal returns (100, 2300) |
| MapEngine.FillIn | modules/map_engine.py:135-137 | If the first edge has no current cost, every edge gets `current_cost := travel_time`; otherwise nothing changes |
| MapEngine.FillInAfterUpdateIsNoop | modules/map_engine.py:135-137 | After any update the fill-in step changes nothing |
| MapEngine.EdgeWeight | modules/map_engine.py:139 | The search reads an edge's weight as its `current_cost`, or 1 (the library's default) when the cost is missing. The weight is non-negative exactly when the cost is missing or non-negative |
| MapEngine.NetworkStepCost | modules/map_engine.py:139 | In the search graph built from the edge records, a step from u to v exists exactly when some record joins u to v. It costs at most the weight of every such record, and exactly the weight of one of them: the cheapest parallel edge |
| MapEngine.NetworkIsSearchable | modules/map_engine.py:139 | A loaded network with non-negative costs has arcs between known nodes and non-negative weights |
| MapEngine.StockholmMap.MonitoredIsFirstEdge | modules/map_engine.py:109 | The monitored key `Monitored()` is `(target_u, target_v, 0)`. For a valid engine, its origin is the first node and the first edge record joins its endpoints. Only parallel index 0 may be missing, which is the update's failure case |
| MapEngine.StockholmMap.constructor | modules/map_engine.py:88-91 | The engine keeps the network as given and binds `targetU` to the first node and `targetV` to its first neighbour |
| MapEngine.StockholmMap.ResetAll | modules/map_engine.py:102-104 | The loop sets every edge in the array to `current_cost == travel_time` and keeps the engine valid |
| MapEngine.StockholmMap.UpdateEdgeWeights | modules/map_engine.py:95-120 | The new array is `Updated(old)` and the result is `UpdateOutcome(old)`. Keys and travel times are unchanged, non-monitored edges are at baseline, the monitored edge holds the new cost, and that edge's pair is returned |
| MapEngine.StockholmMap.GetBestRoute | modules/map_engine.py:122-142 | The edge records become `FillIn(old)`. A returned route starts and ends at the given nodes, follows existing edges, and no route costs less. `None` is returned only when the end is unreachable |
| RoadGraph.CheapestArc | modules/map_engine.py:139 | The weight between two nodes of the multigraph is the smallest weight among their parallel edges, and it is the weight of one of them |
| Dijkstra.ShortestRoute | modules/map_engine.py:139-142 | A returned route is a shortest route from source to target. `None` means no route exists, reported as a result and not as an error |
| VisionSensor.CongestionFactor | modules/vision_sensor.py:67-83 | A count below 10 gives (1.0, Free Flow), 10 to 29 gives (1.5, Moderate), and 30 and above gives (3.0, Heavy Jam) |
| VisionSensor.FactorIsBandValue | modules/vision_sensor.py:71-83 | The factor is 1.0, 1.5 or 3.0, hence at least 1 |
| VisionSensor.FactorMonotone | modules/vision_sensor.py:71-83 | A larger vehicle count never gives a smaller factor |
| VisionSensor.StatusMatchesFactor | modules/vision_sensor.py:71-83 | Two counts give the same status exactly when they give the same factor |
| VisionSensor.SimulatedCount | modules/vision_sensor.py:54-59 | The simulated count is 45 or 5 |
| VisionSensor.SimulatedWindowFactor | modules/vision_sensor.py:54-59 | When `t % 20 > 10` the factor is 3.0 (Heavy Jam); otherwise it is 1.0 (Free Flow) |
| VisionSensor.SimulatedCountPeriodic | modules/vision_sensor.py:54 | The simulated count repeats every 20 seconds |
| TextSensor.Classify | modules/text_sensor.py:35-45 | An "ACCIDENT" or "collision" substring gives (CRITICAL ACCIDENT, 2000). Otherwise "JAM" or "construction" gives (WARNING, 500). Otherwise the result is (Clear, 0) |
| TextSensor.LatestIncident | modules/text_sensor.py:30-47 | The returned message is the list entry at the drawn index, so it is an element of the fixed list. Its event and penalty are its classification |
| TextSensor.PenaltyIsBandValue | modules/text_sensor.py:35-45 | The penalty is 0, 500 or 2000, hence non-negative |
| TextSensor.EventMatchesPenalty | modules/text_sensor.py:35-45 | Two messages get the same event exactly when they get the same penalty |
| TextSensor.AccidentOutranksJam | modules/text_sensor.py:35-41 | A message with both an accident keyword and a jam keyword is an accident |
| TextSensor.CaseSensitive | modules/text_sensor.py:35 | A lower-case "accident" is not a keyword: "accident on the bridge" is Clear with penalty 0 |
| TextSensor.Tweet0IsClear | modules/text_sensor.py:12 | The first message is Clear (0) |
| TextSensor.Tweet1IsClear | modules/text_sensor.py:13 | The second message is Clear (0) |
| TextSensor.Tweet2IsAccident | modules/text_sensor.py:14 | The third message is a critical accident (2000) |
| TextSensor.Tweet3IsClear | modules/text_sensor.py:15 | The fourth message is Clear (0) |
| TextSensor.Tweet4IsWarning | modules/text_sensor.py:16 | The fifth message is a warning (500) |
| TextSensor.Tweet5IsClear | modules/text_sensor.py:17 | The sixth message is Clear (0) |
| TextSensor.Tweet6IsAccident | modules/text_sensor.py:18 | The seventh message is a critical accident (2000) |
| TextSensor.TweetCensus | modules/text_sensor.py:11-19 | Of the seven messages, exactly two classify to 2000, one to 500 and four to 0 |
| AdaptiveCycle.SensorSignalsNeverDiscount | modules/map_engine.py:115 | For any vehicle count and any message, the sensors' signals never price the monitored road below its travel time |
| AdaptiveCycle.DemoBinding | modules/map_engine.py:88-91 | On the demo network the camera binds to the direct road 1 -> 3 |
| AdaptiveCycle.DemoArcs | modules/map_engine.py:109-118 | After an update, only the direct road carries the priced cost; the detour keeps its baseline |
| AdaptiveCycle.DemoRoutes | modules/map_engine.py:139 | The only routes from 1 to 3 are the direct road and the detour through 2 |
| AdaptiveCycle.DemoCosts | modules/map_engine.py:139 | The direct road costs its current cost; the detour costs 300 s |
| AdaptiveCycle.DemoShortestRoute | modules/map_engine.py:139-142 | The direct road is a shortest route exactly when its new cost is at most 300. The detour is one exactly when that cost is at least 300 |
| AdaptiveCycle.ClearSignalKeepsMonitoredRoad | modules/map_engine.py:150-152 | Under the clear signal the direct road is the shortest route and the detour is not |
| AdaptiveCycle.CrashSignalReroutes | modules/map_engine.py:154-158 | Under the crash signal the detour is the shortest route and the direct road is not |
| AdaptiveCycle.AccidentReportReroutes | modules/text_sensor.py:35-37 | A message with an accident keyword makes the detour the shortest route, whatever the vehicle count |
| AdaptiveCycle.DemoCycle | modules/map_engine.py:150-158 | Build, update with (f, p), then query 1 -> 3. The update returns (100, 100f + p). The route is the direct road when that is under 300, the detour when it is over 300, and one of the two on a tie |

## Left out

- Downloading and enriching the road network from map data is left out. It is external I/O. The network, with its travel times, is a constructor argument.
- Snapping coordinates to the nearest node is left out. It is a geographic search in floating point inside a library. `GetBestRoute` takes node ids.
- The internals of the graph library's Dijkstra are left out: its binary heap, its insertion counter and its tie-breaking among equally cheap routes. `Dijkstra.ShortestRoute` scans for the cheapest frontier node and relaxes each parallel edge. Its contract admits any shortest route.
- The library's error for negative weights is left out. It cannot be raised when costs are non-negative, and `GetBestRoute` requires that.
- `MapEngine.StockholmMap.GetBestRoute` requires non-negative current costs and a start node in the network. On negative weights, which an update with a negative factor or penalty produces, the library either raises an error the code does not catch or silently returns a route that need not be shortest. On an unknown start node it raises. Neither is modelled.
- `MapEngine.StockholmMap.constructor` requires binding to succeed. The failure is modelled by `BindMonitor`'s error values. The object is not, because the code raises while constructing.
- Real numbers stand in for floating point, so rounding in `travel_time * f + p` is not modelled.
- The video capture plumbing and the random fallback count are left out, being I/O and randomness. The clock is an integer parameter of `SimulatedCount`.
- The random choice of message is an index parameter of `LatestIncident`.
- The status and event texts shown on the dashboard, with their emoji, are not modelled. Statuses and events are datatype constructors.
- The commented-out first version of the engine, the printing, the dashboard application and the configuration constants are left out. They are not part of the engine's logic.
