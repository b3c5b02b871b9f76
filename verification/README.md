# SeaRoute.NET routing core in Dafny

This project models the routing core of SeaRoute.NET. The core computes the
shortest sea route between two points over a fixed maritime network (the
"marnet" feature collection).

- `models.dfy` (module `Models`): the GeoJSON shapes the core reads and
  writes. A position is a `Coord(lon, lat)` of reals.
- `geo_calculator.dfy` (module `GeoCalculator`): the distance helpers.
  - Unit conversion through the three earth radii.
  - The longitude wrap and unit dispatch of the rhumb-line distance.
  - The projection and clamp that find the closest point of a segment.
  - The point-to-polyline minimum and the polyline length, as loop methods
    proved against recursive specification functions.
- `route_graph.dfy` (module `RouteGraph`): the network graph as a value.
  - `Segments` lists the consecutive pairs of every LineString feature.
  - `AddSegment` is one step of the building loop; `AddAll` folds it over the
    segments.
  - The lemmas cover which geometries count, which keys exist, symmetry,
    multiplicity of entries, entry counts per key, and which position each
    key stores.
- `walks.dfy` (module `Walks`) defines walks in the graph: their weight,
  reachability, shortest walks, and the positions along a walk.
- `search_invariant.dfy` (module `SearchInvariant`): the invariant of
  Dijkstra's search, split into named parts, with one lemma per step of the
  loop. Its ghost state is the set of settled keys and a walk recorded for
  every key that has a distance.
- `dijkstra_path_finder.dfy` (module `DijkstraPathFinder`): class
  `PathFinder`.
  - `graph` and `vertices` are fields that `BuildGraph` fills in place.
  - `FindPath` runs the priority-queue search and rebuilds the path from the
    predecessor map.
  - The search loop (`Search`), the relaxation of one key's list
    (`RelaxEdges`) and the predecessor walk (`TracePath`) are the three
    parts of the source's `FindPath`, kept as separate methods.
- `sea_route.dfy` (module `SeaRoute`): class `SeaRouteCalculator`.
  - The two-stage snapping of a query point onto the network.
  - `CalculateRoute`, which composes snapping, `FindPath` and the length
    computation.

Three behaviours of the code worth knowing:

- **Snapping fallback.** When no polyline is closer than 30000 km, the
  snapping keeps feature 0 (SeaRouteCalculator.cs:97,115). The query point
  comes back only when the chosen feature has no positions (:126).
- **Stored positions.** When two positions share a key, the position stored
  for that key is the one written last (DijkstraPathFinder.cs:31-32;
  `BuildVertices`).
- **Empty network.** With no features, snapping fails on `Features[0]`. The
  model makes a non-empty feature list a precondition.

The modules split `DijkstraPathFinder.cs` by concern rather than by file.
`RouteGraph` is the graph its building loop produces, as a value. `Walks`
is the graph theory its answer is judged by. `SearchInvariant` holds the
invariant of its search loop and one lemma per step. Keeping them apart lets
the class in `DijkstraPathFinder` stay close to the source, with each of its
methods checked against these definitions in small proofs.

## Model

| member | source | states |
|---|---|---|
| GeoCalculator.ConvertDistance | Utilities/GeoCalculator.cs:115-130 | the result is the distance scaled by radius(toUnits)/radius(fromUnits); every unit name other than "miles" and "nm" counts as kilometres |
| GeoCalculator.ConvertFromKm | Utilities/GeoCalculator.cs:115-130 | from "km": the factor is 3958.8/6371 for "miles" and 3440.065/6371 for "nm"; any other unit, including "kilometers" and unknown names, leaves the value unchanged |
| GeoCalculator.ConvertRoundTrip | Utilities/GeoCalculator.cs:115-130 | converting from u to v and back to u gives the original distance, for every pair of unit names |
| GeoCalculator.WrapLongitudeDelta | Utilities/GeoCalculator.cs:19-22 | a non-negative longitude difference above pi is replaced by the other way round; on [0, 2*pi] the result's magnitude is the shorter way, at most pi |
| GeoCalculator.LongitudeDelta | Utilities/GeoCalculator.cs:14 | the longitude difference in radians is non-negative, and at most 2*pi when the longitudes differ by at most 360 degrees |
| GeoCalculator.RhumbDistance | Utilities/GeoCalculator.cs:9-33 | the rhumb-line distance is non-negative in every unit |
| GeoCalculator.RhumbUnitsAgreeWithConversion | Utilities/GeoCalculator.cs:26-32 | the unit switch of the rhumb-line distance agrees with unit conversion: any unit is the "km" result converted from km |
| GeoCalculator.RhumbLongitudeIsShorterWay | Utilities/GeoCalculator.cs:14-22 | for longitudes at most 360 degrees apart, the wrapped longitude difference has magnitude at most pi |
| GeoCalculator.Clamp01 | Utilities/GeoCalculator.cs:69-83 | the clamped parameter lies in [0, 1] and equals the parameter when that already lies in [0, 1] |
| GeoCalculator.ClosestPointOnSegment | Utilities/GeoCalculator.cs:49-83 | the chosen point is the segment point at the clamped projection parameter (so it lies on the segment); a zero-length segment gives its start |
| GeoCalculator.ClosestPointMinimizes | Utilities/GeoCalculator.cs:58-83 | no point of the segment is closer to p, in the plane of longitude and latitude, than the chosen point |
| GeoCalculator.PointToSegmentDistance | Utilities/GeoCalculator.cs:49-86 | the distance is non-negative and is the great-circle distance from p to the segment point at the clamped projection parameter, the point `ClosestPointMinimizes` shows is nearest (its start for a zero-length segment) |
| GeoCalculator.MinSegmentDistance | Utilities/GeoCalculator.cs:37-44 | the running minimum after n segments is at most the sentinel, at most every segment distance seen, and is the sentinel or one of those distances |
| GeoCalculator.PointToLineDistance | Utilities/GeoCalculator.cs:35-47 | the loop returns the least segment distance (the double.MaxValue sentinel for fewer than two positions) converted from km to the requested unit |
| GeoCalculator.PolylineLengthKm | Utilities/GeoCalculator.cs:103-110 | a polyline's length is non-negative and is 0 for fewer than two positions |
| GeoCalculator.PolylineLengthSplit | Utilities/GeoCalculator.cs:103-110 | cutting a polyline at a shared position splits its length into the lengths of the two parts |
| GeoCalculator.CalculateLineStringLength | Utilities/GeoCalculator.cs:103-113 | the loop returns the sum of great-circle distances of consecutive positions, converted from km to the requested unit |
| RouteGraph.AddSegment | Algorithms/DijkstraPathFinder.cs:28-42 | one iteration of the inner building loop: both end keys have a list and a stored position afterwards, the end written last is stored under its key, and every other key keeps its list and position |
| RouteGraph.SegmentsAppend | Algorithms/DijkstraPathFinder.cs:21-26 | the segments of two feature lists in a row are the segments of the first followed by those of the second |
| RouteGraph.SegmentsOfLineStrings | Algorithms/DijkstraPathFinder.cs:21-23 | only LineString features contribute segments: dropping every other feature leaves the segments unchanged |
| RouteGraph.BuildIgnoresOtherGeometries | Algorithms/DijkstraPathFinder.cs:21-23 | the graph built from the features equals the graph built from their LineStrings alone |
| RouteGraph.ShortLineAddsNothing | Algorithms/DijkstraPathFinder.cs:25-26 | appending a feature with fewer than two positions leaves the built graph unchanged |
| RouteGraph.AddAllStep | Algorithms/DijkstraPathFinder.cs:26-43 | visiting one more segment of a prefix is one more building step |
| RouteGraph.AddAllConcat | Algorithms/DijkstraPathFinder.cs:21-44 | building from the segments of two lists in a row is building from the first, then continuing with the second |
| RouteGraph.AddAllKeys | Algorithms/DijkstraPathFinder.cs:28-39 | after the building steps, the adjacency keys and the position keys are the old keys plus the keys of all segment endpoints |
| RouteGraph.BuildKeys | Algorithms/DijkstraPathFinder.cs:19-45 | the built graph's adjacency keys and position keys are both exactly the keys of the segment endpoints |
| RouteGraph.AddSegmentWellFormed | Algorithms/DijkstraPathFinder.cs:34-42 | one building step keeps every entry pointing at a key of the graph with a non-negative weight |
| RouteGraph.AddAllWellFormed | Algorithms/DijkstraPathFinder.cs:26-43 | any number of building steps keeps that property |
| RouteGraph.BuildWellFormed | Algorithms/DijkstraPathFinder.cs:19-45 | in the built graph every entry leads to a key of the graph with a non-negative weight, and the adjacency and position maps have the same keys |
| RouteGraph.AddSegmentAppends | Algorithms/DijkstraPathFinder.cs:36-42 | a building step appends the entry to `to` at the end of the list of `from`, then the entry to `from` at the end of the list of `to` |
| RouteGraph.AddSegmentCount | Algorithms/DijkstraPathFinder.cs:36-42 | a building step raises the number of copies of each entry in each list by exactly that segment's contribution |
| RouteGraph.AddAllCount | Algorithms/DijkstraPathFinder.cs:21-44 | after the building steps, each list holds each entry as often as before plus once per segment that contributes it (parallel entries are kept) |
| RouteGraph.BuildCount | Algorithms/DijkstraPathFinder.cs:19-45 | in the built graph, the number of copies of an entry in a list equals the number of segments contributing it |
| RouteGraph.CountInSymmetric | Algorithms/DijkstraPathFinder.cs:41-42 | segments contribute the entry u to (v, w) as often as they contribute v to (u, w) |
| RouteGraph.BuildSymmetric | Algorithms/DijkstraPathFinder.cs:41-42 | the built graph is symmetric with multiplicity: u lists (v, w) exactly as often as v lists (u, w) |
| RouteGraph.CountInAtLeast | Algorithms/DijkstraPathFinder.cs:41-42 | a list of segments contributes each entry at least as often as any one of its segments does |
| RouteGraph.SegmentEdgesPresent | Algorithms/DijkstraPathFinder.cs:26-43 | for every segment, the list of its start key has the entry to its end key weighted by their distance, and the list of its end key has the reverse entry |
| RouteGraph.AddAllDegree | Algorithms/DijkstraPathFinder.cs:36-42 | after the building steps, each key's list is as long as before plus one per segment endpoint with that key; a key still missing has no endpoint |
| RouteGraph.BuildDegree | Algorithms/DijkstraPathFinder.cs:19-45 | in the built graph, each key's list has one entry per segment endpoint with that key |
| RouteGraph.AddAllVertices | Algorithms/DijkstraPathFinder.cs:31-32 | after building from empty, a key has a stored position exactly when some segment endpoint has it, and the position stored is the last one written with that key |
| RouteGraph.BuildVertices | Algorithms/DijkstraPathFinder.cs:31-32 | in the built graph a key has a position exactly when some endpoint has that key, and the position is the last endpoint written under it |
| Walks.WalkCoords | Algorithms/DijkstraPathFinder.cs:91-100 | a walk of n entries visits n + 1 positions |
| Walks.WalkOnVertices | Algorithms/DijkstraPathFinder.cs:31-42 | on a graph whose entries lead to keys of the graph, every key a walk visits has a stored position |
| Walks.RoutePositions | Algorithms/DijkstraPathFinder.cs:91-100 | the positions of a walk from s to t start with the position of s and end with the position of t |
| Walks.VisitedCount | Algorithms/DijkstraPathFinder.cs:91-100 | a walk that visits no key twice visits exactly one key more than it has entries |
| Walks.SimpleWalkBound | Algorithms/DijkstraPathFinder.cs:91-100 | on a well-formed graph such a walk has fewer entries than the graph has keys, so a returned route has at most one position per key |
| Walks.WalkAppend | Algorithms/DijkstraPathFinder.cs:74-82 | following one more entry from a walk's last key gives a walk ending at that entry's key, heavier by its weight |
| Walks.WalkPrefix | Algorithms/DijkstraPathFinder.cs:94-97 | every prefix of a walk is a walk, ending at the key the walk visits at that point |
| Walks.WeightPrefix | Algorithms/DijkstraPathFinder.cs:76 | with no negative entry, every prefix weighs at least 0 and no more than the whole |
| Walks.WalkWeightPrefix | Algorithms/DijkstraPathFinder.cs:76 | on a well-formed graph a walk weighs at least 0 and at least as much as each of its prefixes |
| SearchInvariant.MinExists | Algorithms/DijkstraPathFinder.cs:62-64 | a non-empty queue holds an entry of least priority |
| SearchInvariant.InitialInv | Algorithms/DijkstraPathFinder.cs:55-60 | distance 0 for the start, no predecessors and one queue entry (start, 0) satisfy the search invariant |
| SearchInvariant.Frontier | Algorithms/DijkstraPathFinder.cs:62-86 | every walk from the start to an unsettled key passes a queued entry whose priority is at most the walk's weight |
| SearchInvariant.ExtractedIsOptimal | Algorithms/DijkstraPathFinder.cs:64 | the key of a least-priority entry has a distance and no walk from the start to it is lighter |
| SearchInvariant.Exhausted | Algorithms/DijkstraPathFinder.cs:62 | when the queue empties before the target comes out, the target has no distance, differs from the start, and no walk reaches it |
| SearchInvariant.Settle | Algorithms/DijkstraPathFinder.cs:64-72 | removing a least-priority entry that is not the target and settling its key keeps the invariant; a key settled before has its list relaxed already |
| SearchInvariant.FinishRelaxing | Algorithms/DijkstraPathFinder.cs:72-85 | once every entry of the current key's list is relaxed, the loop invariant holds again |
| SearchInvariant.RelaxSkip | Algorithms/DijkstraPathFinder.cs:78 | an entry that cannot improve its key's distance is relaxed already |
| SearchInvariant.RelaxUpdate | Algorithms/DijkstraPathFinder.cs:76-83 | recording a strictly shorter distance, the current key as predecessor and a queue entry keeps the invariant; the improved key is never the start or a settled key |
| SearchInvariant.ReachedOutcome | Algorithms/DijkstraPathFinder.cs:64-67 | when the target comes out of the queue, its recorded walk is a shortest walk from the start |
| SearchInvariant.ExhaustedOutcome | Algorithms/DijkstraPathFinder.cs:62-86 | when the queue empties, the target has no distance only if it differs from the start and is unreachable |
| SearchInvariant.PredecessorStep | Algorithms/DijkstraPathFinder.cs:94-97 | a key with a predecessor has a distance, its predecessor has one too, and the predecessor's walk is its own walk without the last entry |
| SearchInvariant.NoPredecessor | Algorithms/DijkstraPathFinder.cs:92-98 | a key with a distance and no predecessor is the start, with the empty walk |
| SearchInvariant.StartOrLinkedIfReached | Algorithms/DijkstraPathFinder.cs:88-89 | a key has a distance exactly when it is the start or has a predecessor |
| SearchInvariant.ChainAt | Algorithms/DijkstraPathFinder.cs:91-98 | every key on the recorded walk of a reached key has a distance, and its own recorded walk is the prefix up to that point: following predecessors walks the recorded walk backwards |
| SearchInvariant.DistinctKeys | Algorithms/DijkstraPathFinder.cs:76-82 | with weights at least 0 and the strict improvement test, the recorded walk of every reached key visits no key twice, so the predecessor chain has no cycle |
| SearchInvariant.ChainVertex | Algorithms/DijkstraPathFinder.cs:94-98 | a key whose walk is the first m entries of a walk is the key that walk visits after m steps |
| DijkstraPathFinder.Reversed | Algorithms/DijkstraPathFinder.cs:100 | the reversal has the same length, with element i taken from position length-1-i |
| DijkstraPathFinder.PathFinder.constructor | Algorithms/DijkstraPathFinder.cs:11-17 | the finder keeps its network, and its graph and positions are those built from the network's features |
| DijkstraPathFinder.PathFinder.BuildGraph | Algorithms/DijkstraPathFinder.cs:19-45 | the nested loops leave the graph and positions equal to the building steps folded over the segments of the LineString features, in order |
| DijkstraPathFinder.PathFinder.FindPath | Algorithms/DijkstraPathFinder.cs:47-107 | the result is absent exactly when a key is not a vertex or the end is unreachable. Otherwise it is the positions of a shortest walk between the keys that visits no key twice, with that walk's weight. Equal keys give the single stored position and distance 0. Graph and positions are not modified |
| DijkstraPathFinder.PathFinder.Search | Algorithms/DijkstraPathFinder.cs:55-86 | the loop ends with the target's recorded walk a shortest walk, or with the target lacking a distance only when it is unreachable and differs from the start; predecessor chains lead back to the start |
| DijkstraPathFinder.PathFinder.RelaxEdges | Algorithms/DijkstraPathFinder.cs:72-85 | relaxing the current key's list restores the loop invariant; when that list was relaxed before, the distances, the predecessors, the queue and the recorded walks are all unchanged |
| DijkstraPathFinder.PathFinder.TracePath | Algorithms/DijkstraPathFinder.cs:91-100 | following predecessors from the target and reversing yields exactly the stored positions along the target's recorded walk, from the start |
| SeaRoute.LineScan | SeaRouteCalculator.cs:97-110 | the first stage's choice is the earliest feature of least distance when that distance is below 30000, and index 0 at distance 30000 otherwise. Every feature takes part |
| SeaRoute.VertexScan | SeaRouteCalculator.cs:112-124 | the second stage picks nothing for no positions, otherwise the earliest position of least rhumb-line distance |
| SeaRoute.NearestLine | SeaRouteCalculator.cs:97-115 | the chosen feature index is a valid index of a non-empty collection |
| SeaRoute.Snap | SeaRouteCalculator.cs:95-127 | the snapped point is the first position of least rhumb-line distance on the chosen polyline, or the query point when that polyline has no positions |
| SeaRoute.NearestLineChoice | SeaRouteCalculator.cs:97-110 | if any feature is closer than 30000 km, the chosen one is the earliest of least distance. If none is, the first feature is chosen |
| SeaRoute.SeaRouteCalculator.constructor | SeaRouteCalculator.cs:14-18 | the calculator's path finder works on the given network, with its graph built from the network's features |
| SeaRoute.SeaRouteCalculator.SnapToNetwork | SeaRouteCalculator.cs:95-127 | the two loops return exactly the snapped point of the query |
| SeaRoute.SeaRouteCalculator.NearestLineIndex | SeaRouteCalculator.cs:97-110 | the first loop ends on the feature the first snapping stage chooses over the whole collection |
| SeaRoute.SeaRouteCalculator.NearestVertex | SeaRouteCalculator.cs:112-124 | the second loop ends on nothing for a polyline without positions, otherwise on its earliest position of least rhumb-line distance |
| SeaRoute.SeaRouteCalculator.CalculateRoute | SeaRouteCalculator.cs:27-57 | no route exactly when FindPath finds none between the snapped points. Otherwise a "Feature" with a "LineString" geometry: its positions are those of a shortest walk that visits no key twice, its unit is the requested one, and its length is the polyline length in that unit |

## Left out

- Loading the embedded network (`LoadMarnetData`, JSON deserialisation). This is I/O: the network is a constructor parameter.
- The vertex key (`CoordToKey`, six-decimal formatting). It is a parameter `coordToKey` of the finder. Rounding and string formatting are not modelled; distinct positions may share a key, and then the last position written wins.
- The haversine formula (`HaversineDistance` and the finder's `CalculateDistance`). Both compute the same formula; they are one parameter, any non-negative function of two positions. Symmetry and zero on equal points are not modelled.
- The logarithm, tangent, cosine and square root of `RhumbDistance`. They form an uninterpreted non-negative function of the two latitudes and the wrapped longitude difference. The conversion to radians, the wrap and the unit switch are modelled exactly.
- IEEE doubles. They are modelled as exact reals: no rounding, overflow or NaN, so conversions round-trip exactly. `Math.PI` is written as its exact double value. `double.MaxValue` is written as 1.7976931348623157e308, the shortest decimal that rounds to it, which is slightly below the exact (2 - 2^-52) * 2^1023; only its being far above any distance matters.
- Default unit arguments. `CalculateRoute` and `CalculateLineStringLength` default to "nm", `RhumbDistance` and `PointToLineDistance` to "km"; every model member takes the unit explicitly.
- The tie order of .NET's `PriorityQueue`. The model removes any entry of least priority, and every contract holds for every such choice. When several shortest walks exist, `FindPath` promises one of them, not a particular one.
- Console logging and the re-wrapping of exceptions in `CalculateRoute`.
- The empty feature collection. There `SnapToNetwork` fails on `Features[0]`; the model makes non-empty features a precondition of `SnapToNetwork` and `CalculateRoute`.
- The coordinate overload `CalculateRoute(double, double, double, double, string)`. It only wraps the four numbers as points.
- Null geometries and coordinate arrays of length other than two.
- Unused model fields. The `Type` strings of `FeatureCollection` and `Feature` and the `Properties` dictionaries of `Feature` and `GeoJsonPoint` (Models/FeatureCollection.cs:5,11-12, Models/GeoJsonPoint.cs:6) are not read by the core and are not modelled.
- RouteGraph.BuildDegree: the rule that the whole graph holds two entries per segment is stated per key (one entry per segment endpoint with that key), not as a sum over all keys.
- In-place list updates. `List<Edge>.Add` and `List.Reverse` become sequence values that are reassigned.
- Shared position arrays. Positions are `double[]` references in the source: the stored positions are the network's own arrays, the path and the route's coordinates hand those arrays out, and snapping returns either a network array or the caller's own point. The model's positions are values, so this sharing, and any effect of a caller mutating such an array, is not captured.
- Method boundaries. `FindPath` is one method in the source; here its search loop, the relaxation of one key's list and the path reconstruction are the methods `Search`, `RelaxEdges` and `TracePath`, and the two loops of `SnapToNetwork` are `NearestLineIndex` and `NearestVertex`. Each helper does what the corresponding lines do, in the same order.
