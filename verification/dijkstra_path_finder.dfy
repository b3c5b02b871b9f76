/**
 * The path finder: it builds the route graph from the network once, when it
 * is constructed, and answers shortest-path queries between two positions
 * with Dijkstra's algorithm over a priority queue.
 *
 * The key function and the great-circle distance are fixed when the finder
 * is created; the model takes them as parameters (see `RouteGraph`).
 */
module DijkstraPathFinder {
  import opened Models
  import opened GeoCalculator
  import opened RouteGraph
  import opened Walks
  import opened SearchInvariant

  /** The answer to a query: the positions along the route and its length in kilometres. */
  datatype PathResult = PathResult(path: seq<Coord>, distance: real)

  /** `xs` back to front (the list reversal the path reconstruction ends with). */
  function Reversed<T>(xs: seq<T>): (r: seq<T>)
    ensures |r| == |xs|
    ensures forall i | 0 <= i < |xs| :: r[i] == xs[|xs| - 1 - i]
  {
    if |xs| == 0 then [] else Reversed(xs[1..]) + [xs[0]]
  }

  class PathFinder {
    const network: FeatureCollection
    const coordToKey: Coord -> VertexKey
    const distance: Metric
    var graph: Adjacency
    var vertices: map<VertexKey, Coord>

    /**
     * The graph and the positions are the ones built from the network; so
     * every listed entry leads to a key of the graph and weighs at least 0,
     * and the graph and the positions have the same keys.
     */
    ghost predicate Valid()
      reads this
    {
      Graph(graph, vertices) == Build(coordToKey, distance, network.features) && Closed()
    }

    /** The part of `Valid` the search needs: entries lead to keys of the graph, weigh at least 0, and keys agree. */
    ghost predicate Closed()
      reads this
    {
      WellFormed(graph) && graph.Keys == vertices.Keys
    }

    /** The finder over `network`: its graph is the one the building loop produces. */
    constructor(network: FeatureCollection, coordToKey: Coord -> VertexKey, distance: Metric)
      ensures this.network == network && this.coordToKey == coordToKey && this.distance == distance
      ensures Graph(graph, vertices) == Build(coordToKey, distance, network.features)
      ensures Valid()
    {
      this.network := network;
      this.coordToKey := coordToKey;
      this.distance := distance;
      graph := map[];
      vertices := map[];
      new;
      BuildGraph();
      BuildWellFormed(coordToKey, distance, network.features);
    }

    /**
     * Adds every segment of every LineString feature of the network, in
     * order: both positions are stored under their keys, both keys get a
     * list, and each list receives an entry to the other key.
     */
    method BuildGraph()
      modifies this
      ensures Graph(graph, vertices) == AddAll(coordToKey, distance, old(Graph(graph, vertices)), Segments(network.features))
    {
      ghost var g0 := Graph(graph, vertices);
      var features := network.features;
      var fi := 0;
      while fi < |features|
        invariant 0 <= fi <= |features|
        invariant Graph(graph, vertices) == AddAll(coordToKey, distance, g0, Segments(features[..fi]))
      {
        var feature := features[fi];
        SegmentsSnoc(features, fi);
        if feature.geometry.kind != "LineString" {
          assert Segments(features[..fi + 1]) == Segments(features[..fi]);
          fi := fi + 1;
          continue;
        }
        var coords := feature.geometry.coordinates;
        ghost var g1 := Graph(graph, vertices);
        ghost var segs := LineSegments(coords);
        var i := 0;
        while i < |coords| - 1
          invariant 0 <= i <= |segs|
          invariant Graph(graph, vertices) == AddAll(coordToKey, distance, g1, segs[..i])
        {
          ghost var before := Graph(graph, vertices);
          var from := coordToKey(coords[i]);
          var to := coordToKey(coords[i + 1]);
          vertices := vertices[from := coords[i]];
          vertices := vertices[to := coords[i + 1]];
          var d := distance(coords[i], coords[i + 1]);
          if from !in graph {
            graph := graph[from := []];
          }
          if to !in graph {
            graph := graph[to := []];
          }
          graph := graph[from := graph[from] + [Edge(to, d)]];
          graph := graph[to := graph[to] + [Edge(from, d)]];
          assert Graph(graph, vertices) == AddSegment(coordToKey, distance, before, segs[i]);
          AddAllStep(coordToKey, distance, g1, segs, i);
          assert Graph(graph, vertices) == AddAll(coordToKey, distance, g1, segs[..i + 1]);
          i := i + 1;
        }
        assert segs[..i] == segs;
        assert FeatureSegments(feature) == segs;
        AddAllConcat(coordToKey, distance, g0, Segments(features[..fi]), segs);
        fi := fi + 1;
      }
      assert features[..fi] == features;
    }

    /**
     * The shortest route between the keys of `start` and `end`: absent when
     * either key is not a vertex or no walk joins them; otherwise the
     * positions along a walk no other walk undercuts, visiting no key twice,
     * and that walk's weight.
     */
    method FindPath(start: Coord, end: Coord) returns (r: Option<PathResult>)
      requires Valid()
      ensures var sk, ek := coordToKey(start), coordToKey(end);
        r.None? <==> (sk !in vertices || ek !in vertices || !Reachable(graph, sk, ek))
      ensures var sk, ek := coordToKey(start), coordToKey(end);
        r.Some? ==> exists es :: IsShortestWalk(graph, sk, ek, es) && Simple(sk, es) && OnVertices(vertices, sk, es) &&
                                 r.value.path == WalkCoords(vertices, sk, es) && r.value.distance == Weight(es)
      ensures var sk, ek := coordToKey(start), coordToKey(end);
        sk == ek && sk in vertices ==> r == Some(PathResult([vertices[sk]], 0.0))
    {
      var startKey := coordToKey(start);
      var endKey := coordToKey(end);
      if startKey !in vertices || endKey !in vertices {
        return None;
      }

      var distances, previous, walks := Search(startKey, endKey);
      StartOrLinkedIfReached(graph, startKey, distances, previous, walks, endKey);
      if endKey !in previous && startKey != endKey {
        return None;
      }

      var path := TracePath(startKey, endKey, previous, distances, walks);
      if startKey == endKey {
        assert walks[endKey] == [];
        WalkCoordsOfEmpty(vertices, startKey);
      }
      var dist := if endKey in distances then distances[endKey] else DoubleMax;
      assert WalkRealises(graph, startKey, distances, walks, endKey);
      DistinctKeys(graph, startKey, distances, previous, walks, endKey);
      r := Some(PathResult(path, dist));
    }

    /**
     * The search loop: takes a queue entry of least priority until the
     * queue is empty or the entry is for `endKey`, and relaxes the list of
     * every other key it takes. The distances and predecessors it leaves
     * describe, for `endKey`, a shortest walk, or no walk at all.
     */
    method Search(startKey: VertexKey, endKey: VertexKey)
      returns (distances: map<VertexKey, real>, previous: map<VertexKey, VertexKey>, ghost walks: map<VertexKey, seq<Edge>>)
      requires Closed() && startKey in graph
      ensures Outcome(graph, startKey, endKey, distances, previous, walks)
    {
      distances := map[startKey := 0.0];
      previous := map[];
      var queue: multiset<QueueEntry> := multiset{QueueEntry(startKey, 0.0)};
      ghost var settled: set<VertexKey> := {};
      walks := map[startKey := []];
      // Set only just before the loop is left early: the loop invariant says it is still false.
      ghost var reachedEnd := false;
      InitialInv(graph, startKey, endKey);

      while |queue| > 0
        invariant Inv(graph, startKey, endKey, distances, previous, queue, settled, walks)
        invariant !reachedEnd
        decreases |graph.Keys - settled|, |queue|
      {
        MinExists(queue);
        var entry :| IsMin(queue, entry);
        var current := entry.key;
        if current == endKey {
          ReachedOutcome(graph, startKey, endKey, distances, previous, queue, settled, walks, entry);
          queue := queue - multiset{entry};
          reachedEnd := true;
          break;
        }
        Settle(graph, startKey, endKey, distances, previous, queue, settled, walks, entry);
        ghost var wasSettled := current in settled;
        if !wasSettled {
          SettlingShrinks(graph.Keys, settled, current);
        } else {
          assert settled + {current} == settled;
        }
        queue := queue - multiset{entry};
        settled := settled + {current};
        if current !in distances {
          continue;
        }
        if current in graph {
          distances, previous, queue, walks := RelaxEdges(startKey, endKey, current, distances, previous, queue, settled, walks);
        }
      }

      if !reachedEnd {
        assert queue == multiset{};
        ExhaustedOutcome(graph, startKey, endKey, distances, previous, settled, walks);
      }
    }

    /**
     * The inner loop of the search: every entry in the list of `current`
     * that leads to a key without a distance, or offers a shorter one
     * through `current`, records that distance, `current` as the key's
     * predecessor and a queue entry for it. Once `current` has been relaxed
     * before, nothing changes.
     */
    method RelaxEdges(ghost startKey: VertexKey, ghost endKey: VertexKey, current: VertexKey,
                      distances: map<VertexKey, real>, previous: map<VertexKey, VertexKey>, queue: multiset<QueueEntry>,
                      ghost settled: set<VertexKey>, ghost walks: map<VertexKey, seq<Edge>>)
      returns (distances': map<VertexKey, real>, previous': map<VertexKey, VertexKey>, queue': multiset<QueueEntry>,
               ghost walks': map<VertexKey, seq<Edge>>)
      requires PartialInv(graph, startKey, endKey, distances, previous, queue, settled, walks, current, 0)
      ensures Inv(graph, startKey, endKey, distances', previous', queue', settled, walks')
      ensures current in distances && Relaxed(distances, current, graph[current]) ==>
                distances' == distances && previous' == previous && queue' == queue && walks' == walks
    {
      distances', previous', queue', walks' := distances, previous, queue, walks;
      var currentDistance := distances[current];
      var edges := graph[current];
      ghost var wasRelaxed := Relaxed(distances, current, edges);
      var j := 0;
      while j < |edges|
        invariant 0 <= j <= |edges| && edges == graph[current]
        invariant PartialInv(graph, startKey, endKey, distances', previous', queue', settled, walks', current, j)
        invariant current in distances' && distances'[current] == currentDistance
        invariant wasRelaxed ==> distances' == distances && previous' == previous && queue' == queue && walks' == walks
      {
        var edge := edges[j];
        var alt := currentDistance + edge.weight;
        assert edge in edges;
        if edge.to !in distances' || alt < distances'[edge.to] {
          RelaxUpdate(graph, startKey, endKey, distances', previous', queue', settled, walks', current, j, edge, alt);
          distances' := distances'[edge.to := alt];
          previous' := previous'[edge.to := current];
          queue' := queue' + multiset{QueueEntry(edge.to, alt)};
          walks' := walks'[edge.to := walks'[current] + [edge]];
        } else {
          RelaxSkip(graph, startKey, endKey, distances', previous', queue', settled, walks', current, j);
        }
        j := j + 1;
      }
      FinishRelaxing(graph, startKey, endKey, distances', previous', queue', settled, walks', current);
    }

    /**
     * Follows the predecessors back from `endKey` until a key without one,
     * collecting the stored positions, and reverses what it collected: the
     * positions along the walk the search recorded for `endKey`.
     */
    method TracePath(startKey: VertexKey, endKey: VertexKey, previous: map<VertexKey, VertexKey>,
                     ghost distances: map<VertexKey, real>, ghost walks: map<VertexKey, seq<Edge>>)
      returns (path: seq<Coord>)
      requires Closed() && Chains(graph, startKey, distances, previous, walks) && endKey in distances
      ensures endKey in walks && OnVertices(vertices, startKey, walks[endKey])
      ensures path == WalkCoords(vertices, startKey, walks[endKey])
    {
      ghost var es := walks[endKey];
      ghost var n := |es|;
      assert WalkRealises(graph, startKey, distances, walks, endKey);
      WalkOnVertices(graph, vertices, startKey, es);
      assert es[..n] == es;
      path := [];
      var currentNode: Option<VertexKey> := Some(endKey);
      ghost var k := 0;
      while currentNode.Some?
        invariant 0 <= k <= n + 1 && |path| == k
        invariant currentNode.Some? <==> k <= n
        invariant currentNode.Some? ==> currentNode.value in distances && walks[currentNode.value] == es[..n - k]
        invariant forall i | 0 <= i < k :: path[i] == vertices[VertexAt(startKey, es, n - i)]
        decreases n + 1 - k
      {
        var node := currentNode.value;
        ChainVertex(graph, startKey, distances, previous, walks, node, es, n - k);
        path := path + [vertices[node]];
        if node in previous {
          PredecessorStep(graph, startKey, distances, previous, walks, node);
          assert es[..n - k][..n - k - 1] == es[..n - k - 1];
          currentNode := Some(previous[node]);
        } else {
          NoPredecessor(graph, startKey, distances, previous, walks, node);
          currentNode := None;
        }
        k := k + 1;
      }
      path := Reversed(path);
    }
  }
}
