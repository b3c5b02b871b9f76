/**
 * The route graph built from the network's polylines: every pair of
 * consecutive positions of a LineString feature becomes a segment, and every
 * segment adds an edge in both directions between the keys of its ends.
 *
 * `AddSegment` is one step of the building loop and `Build` the whole of it,
 * as a fold over the segments in the order the loop visits them. The lemmas
 * below characterise the result without that order: the keys, the number of
 * copies of every edge, the symmetry of the adjacency, the stored position of
 * every key and the fact that other geometries contribute nothing.
 */
module RouteGraph {
  import opened Models
  import opened GeoCalculator

  /** Vertex identity: a position rendered by the key function (six decimals in the source). */
  type VertexKey = string

  /** An adjacency entry: the key at the other end and the segment's length in km. */
  datatype Edge = Edge(to: VertexKey, weight: real)

  type Adjacency = map<VertexKey, seq<Edge>>

  /** The two dictionaries of the path finder: adjacency lists and the position stored per key. */
  datatype Graph = Graph(adj: Adjacency, vertices: map<VertexKey, Coord>)

  /** Two consecutive positions of a polyline. */
  datatype Segment = Segment(from: Coord, to: Coord)

  const EmptyGraph: Graph := Graph(map[], map[])

  // ---------------------------------------------------------------------------
  // The segments the building loop visits

  /** The consecutive pairs of a polyline; none for fewer than two positions. */
  function LineSegments(cs: seq<Coord>): seq<Segment>
  {
    seq(if |cs| < 2 then 0 else |cs| - 1, i requires 0 <= i < |cs| - 1 => Segment(cs[i], cs[i + 1]))
  }

  predicate IsLineString(f: Feature)
  {
    f.geometry.kind == "LineString"
  }

  /** The segments one feature contributes: those of a LineString, nothing otherwise. */
  function FeatureSegments(f: Feature): seq<Segment>
  {
    if IsLineString(f) then LineSegments(f.geometry.coordinates) else []
  }

  /** The segments of all features, feature by feature in order. */
  function Segments(fs: seq<Feature>): seq<Segment>
  {
    if |fs| == 0 then [] else Segments(fs[..|fs| - 1]) + FeatureSegments(fs[|fs| - 1])
  }

  // ---------------------------------------------------------------------------
  // Building

  /**
   * One step of the building loop: store both positions under their keys,
   * make sure both keys have a list, then append the edge to `to` to the list
   * of `from` and the edge to `from` to the list of `to`. When both ends have
   * the same key the list of that key receives both entries.
   */
  function AddSegment(keyOf: Coord -> VertexKey, dist: Metric, g: Graph, seg: Segment): (r: Graph)
    ensures r.adj.Keys == g.adj.Keys + {keyOf(seg.from), keyOf(seg.to)}
    ensures r.vertices.Keys == g.vertices.Keys + {keyOf(seg.from), keyOf(seg.to)}
    ensures r.vertices[keyOf(seg.to)] == seg.to
    ensures keyOf(seg.from) != keyOf(seg.to) ==> r.vertices[keyOf(seg.from)] == seg.from
    ensures forall k | k in g.adj && k != keyOf(seg.from) && k != keyOf(seg.to) :: r.adj[k] == g.adj[k]
    ensures forall k | k in g.vertices && k != keyOf(seg.from) && k != keyOf(seg.to) :: r.vertices[k] == g.vertices[k]
  {
    var from, to := keyOf(seg.from), keyOf(seg.to);
    var vertices := g.vertices[from := seg.from][to := seg.to];
    var w := dist(seg.from, seg.to);
    var adj1 := if from in g.adj then g.adj else g.adj[from := []];
    var adj2 := if to in adj1 then adj1 else adj1[to := []];
    var adj3 := adj2[from := adj2[from] + [Edge(to, w)]];
    Graph(adj3[to := adj3[to] + [Edge(from, w)]], vertices)
  }

  /** The graph after the loop has visited `segs`, in order, starting from `g`. */
  function AddAll(keyOf: Coord -> VertexKey, dist: Metric, g: Graph, segs: seq<Segment>): Graph
  {
    if |segs| == 0 then g
    else AddSegment(keyOf, dist, AddAll(keyOf, dist, g, segs[..|segs| - 1]), segs[|segs| - 1])
  }

  /** Visiting the segment after a prefix is one more building step. */
  lemma AddAllStep(keyOf: Coord -> VertexKey, dist: Metric, g: Graph, segs: seq<Segment>, i: nat)
    requires i < |segs|
    ensures AddAll(keyOf, dist, g, segs[..i + 1]) == AddSegment(keyOf, dist, AddAll(keyOf, dist, g, segs[..i]), segs[i])
  {
    assert segs[..i + 1][..i] == segs[..i];
  }

  /** Building from `a + b` is building from `a`, then carrying on with `b`. */
  lemma {:induction false} AddAllConcat(keyOf: Coord -> VertexKey, dist: Metric, g: Graph, a: seq<Segment>, b: seq<Segment>)
    ensures AddAll(keyOf, dist, g, a + b) == AddAll(keyOf, dist, AddAll(keyOf, dist, g, a), b)
    decreases |b|
  {
    if |b| == 0 {
      assert a + b == a;
    } else {
      var n := |b| - 1;
      assert (a + b)[..|a + b| - 1] == a + b[..n];
      AddAllConcat(keyOf, dist, g, a, b[..n]);
    }
  }

  /** The features seen so far, one more feature: its segments follow theirs. */
  lemma SegmentsSnoc(fs: seq<Feature>, i: nat)
    requires i < |fs|
    ensures Segments(fs[..i + 1]) == Segments(fs[..i]) + FeatureSegments(fs[i])
  {
    assert fs[..i + 1][..i] == fs[..i];
  }

  /** The graph built from a feature collection. */
  function Build(keyOf: Coord -> VertexKey, dist: Metric, fs: seq<Feature>): Graph
  {
    AddAll(keyOf, dist, EmptyGraph, Segments(fs))
  }

  // ---------------------------------------------------------------------------
  // Which features count

  /** The LineString features, in order. */
  function LineStrings(fs: seq<Feature>): seq<Feature>
  {
    if |fs| == 0 then []
    else LineStrings(fs[..|fs| - 1]) + (if IsLineString(fs[|fs| - 1]) then [fs[|fs| - 1]] else [])
  }

  lemma {:induction false} SegmentsAppend(a: seq<Feature>, b: seq<Feature>)
    ensures Segments(a + b) == Segments(a) + Segments(b)
    decreases |b|
  {
    if |b| == 0 {
      assert a + b == a;
    } else {
      var y, f := b[..|b| - 1], b[|b| - 1];
      var x := a + y;
      assert b == y + [f];
      assert a + b == x + [f];
      SegmentsAppend(a, y);
      SegmentsSnocOne(x, f);
      SegmentsSnocOne(y, f);
      calc {
        Segments(a + b);
        Segments(x + [f]);
        Segments(x) + FeatureSegments(f);
        (Segments(a) + Segments(y)) + FeatureSegments(f);
        Segments(a) + (Segments(y) + FeatureSegments(f));
        Segments(a) + Segments(y + [f]);
        Segments(a) + Segments(b);
      }
    }
  }

  /** One more feature at the end: its segments come after the others'. */
  lemma SegmentsSnocOne(fs: seq<Feature>, f: Feature)
    ensures Segments(fs + [f]) == Segments(fs) + FeatureSegments(f)
  {
    var g := fs + [f];
    assert g[..|g| - 1] == fs;
  }

  lemma {:induction false} SegmentsOfLineStrings(fs: seq<Feature>)
    ensures Segments(LineStrings(fs)) == Segments(fs)
  {
    if |fs| > 0 {
      var n := |fs| - 1;
      var tail := if IsLineString(fs[n]) then [fs[n]] else [];
      SegmentsOfLineStrings(fs[..n]);
      SegmentsAppend(LineStrings(fs[..n]), tail);
      assert Segments(tail) == FeatureSegments(fs[n]) by {
        if IsLineString(fs[n]) {
          assert tail[..0] == [];
        }
      }
    }
  }

  /** Only LineString features add vertices or edges: the others can be dropped. */
  lemma BuildIgnoresOtherGeometries(keyOf: Coord -> VertexKey, dist: Metric, fs: seq<Feature>)
    ensures Build(keyOf, dist, fs) == Build(keyOf, dist, LineStrings(fs))
  {
    SegmentsOfLineStrings(fs);
  }

  /** A polyline of fewer than two positions adds nothing. */
  lemma ShortLineAddsNothing(keyOf: Coord -> VertexKey, dist: Metric, fs: seq<Feature>, f: Feature)
    requires |f.geometry.coordinates| < 2
    ensures Build(keyOf, dist, fs + [f]) == Build(keyOf, dist, fs)
  {
    assert (fs + [f])[..|fs|] == fs;
    assert |FeatureSegments(f)| == 0;
    assert Segments(fs + [f]) == Segments(fs) + FeatureSegments(f) == Segments(fs);
  }

  // ---------------------------------------------------------------------------
  // Keys and the well-formedness the search relies on

  /** The keys of the ends of the segments. */
  function EndpointKeys(keyOf: Coord -> VertexKey, segs: seq<Segment>): set<VertexKey>
  {
    if |segs| == 0 then {}
    else EndpointKeys(keyOf, segs[..|segs| - 1]) + {keyOf(segs[|segs| - 1].from), keyOf(segs[|segs| - 1].to)}
  }

  lemma {:induction false} AddAllKeys(keyOf: Coord -> VertexKey, dist: Metric, g: Graph, segs: seq<Segment>)
    ensures AddAll(keyOf, dist, g, segs).adj.Keys == g.adj.Keys + EndpointKeys(keyOf, segs)
    ensures AddAll(keyOf, dist, g, segs).vertices.Keys == g.vertices.Keys + EndpointKeys(keyOf, segs)
  {
    if |segs| > 0 {
      AddAllKeys(keyOf, dist, g, segs[..|segs| - 1]);
    }
  }

  /** Every key with a stored position has an adjacency list and the other way round. */
  lemma BuildKeys(keyOf: Coord -> VertexKey, dist: Metric, fs: seq<Feature>)
    ensures Build(keyOf, dist, fs).adj.Keys == EndpointKeys(keyOf, Segments(fs))
    ensures Build(keyOf, dist, fs).vertices.Keys == EndpointKeys(keyOf, Segments(fs))
  {
    AddAllKeys(keyOf, dist, EmptyGraph, Segments(fs));
  }

  /** Every edge leads to a key of the graph and has a non-negative weight. */
  predicate WellFormed(adj: Adjacency)
  {
    forall u | u in adj :: forall e | e in adj[u] :: e.to in adj && e.weight >= 0.0
  }

  lemma AddSegmentWellFormed(keyOf: Coord -> VertexKey, dist: Metric, g: Graph, seg: Segment)
    requires WellFormed(g.adj)
    ensures WellFormed(AddSegment(keyOf, dist, g, seg).adj)
  {
    var h := AddSegment(keyOf, dist, g, seg);
    forall u | u in h.adj
      ensures forall e | e in h.adj[u] :: e.to in h.adj && e.weight >= 0.0
    {
      forall e | e in h.adj[u]
        ensures e.to in h.adj && e.weight >= 0.0
      {
        if u in g.adj && e in g.adj[u] {
        } else {
          assert e == Edge(keyOf(seg.to), dist(seg.from, seg.to)) || e == Edge(keyOf(seg.from), dist(seg.from, seg.to));
        }
      }
    }
  }

  lemma {:induction false} AddAllWellFormed(keyOf: Coord -> VertexKey, dist: Metric, g: Graph, segs: seq<Segment>)
    requires WellFormed(g.adj)
    ensures WellFormed(AddAll(keyOf, dist, g, segs).adj)
  {
    if |segs| > 0 {
      AddAllWellFormed(keyOf, dist, g, segs[..|segs| - 1]);
      AddSegmentWellFormed(keyOf, dist, AddAll(keyOf, dist, g, segs[..|segs| - 1]), segs[|segs| - 1]);
    }
  }

  /** The built graph is closed under its edges, its weights are non-negative, and its two dictionaries share their keys. */
  lemma BuildWellFormed(keyOf: Coord -> VertexKey, dist: Metric, fs: seq<Feature>)
    ensures WellFormed(Build(keyOf, dist, fs).adj)
    ensures Build(keyOf, dist, fs).adj.Keys == Build(keyOf, dist, fs).vertices.Keys
  {
    AddAllWellFormed(keyOf, dist, EmptyGraph, Segments(fs));
    BuildKeys(keyOf, dist, fs);
  }

  // ---------------------------------------------------------------------------
  // Edges: how many copies, symmetry

  /** The number of copies of `e` in the list of `u` (0 for a key without a list). */
  function Count(g: Graph, u: VertexKey, e: Edge): nat
  {
    if u in g.adj then multiset(g.adj[u])[e] else 0
  }

  /** The copies of `e` that one segment appends to the list of `u`. */
  function Contribution(keyOf: Coord -> VertexKey, dist: Metric, seg: Segment, u: VertexKey, e: Edge): nat
  {
    var from, to, w := keyOf(seg.from), keyOf(seg.to), dist(seg.from, seg.to);
    (if u == from && e == Edge(to, w) then 1 else 0) + (if u == to && e == Edge(from, w) then 1 else 0)
  }

  /** The copies of `e` that a sequence of segments appends to the list of `u`. */
  function CountIn(keyOf: Coord -> VertexKey, dist: Metric, segs: seq<Segment>, u: VertexKey, e: Edge): nat
  {
    if |segs| == 0 then 0
    else CountIn(keyOf, dist, segs[..|segs| - 1], u, e) + Contribution(keyOf, dist, segs[|segs| - 1], u, e)
  }

  /** The list of `k` with `x` appended, the list being created when missing. */
  function Append(adj: Adjacency, k: VertexKey, x: Edge): Adjacency
  {
    adj[k := (if k in adj then adj[k] else []) + [x]]
  }

  /** A step of the loop appends one entry at each end of the segment. */
  lemma AddSegmentAppends(keyOf: Coord -> VertexKey, dist: Metric, g: Graph, seg: Segment)
    ensures var from, to, w := keyOf(seg.from), keyOf(seg.to), dist(seg.from, seg.to);
            AddSegment(keyOf, dist, g, seg).adj == Append(Append(g.adj, from, Edge(to, w)), to, Edge(from, w))
  {
  }

  lemma AppendCount(adj: Adjacency, k: VertexKey, x: Edge, u: VertexKey, e: Edge)
    ensures Count(Graph(Append(adj, k, x), map[]), u, e)
         == Count(Graph(adj, map[]), u, e) + (if u == k && e == x then 1 else 0)
  {
    if u == k {
      var old_ := if k in adj then adj[k] else [];
      assert multiset(old_ + [x]) == multiset(old_) + multiset{x};
    }
  }

  lemma AppendLength(adj: Adjacency, k: VertexKey, x: Edge, u: VertexKey)
    ensures u in Append(adj, k, x) <==> u in adj || u == k
    ensures u in Append(adj, k, x) ==>
              |Append(adj, k, x)[u]| == (if u in adj then |adj[u]| else 0) + (if u == k then 1 else 0)
  {
  }

  lemma AddSegmentCount(keyOf: Coord -> VertexKey, dist: Metric, g: Graph, seg: Segment, u: VertexKey, e: Edge)
    ensures Count(AddSegment(keyOf, dist, g, seg), u, e) == Count(g, u, e) + Contribution(keyOf, dist, seg, u, e)
  {
    var from, to, w := keyOf(seg.from), keyOf(seg.to), dist(seg.from, seg.to);
    AddSegmentAppends(keyOf, dist, g, seg);
    AppendCount(g.adj, from, Edge(to, w), u, e);
    AppendCount(Append(g.adj, from, Edge(to, w)), to, Edge(from, w), u, e);
  }

  lemma {:induction false} AddAllCount(keyOf: Coord -> VertexKey, dist: Metric, g: Graph, segs: seq<Segment>, u: VertexKey, e: Edge)
    ensures Count(AddAll(keyOf, dist, g, segs), u, e) == Count(g, u, e) + CountIn(keyOf, dist, segs, u, e)
  {
    if |segs| > 0 {
      var n := |segs| - 1;
      AddAllCount(keyOf, dist, g, segs[..n], u, e);
      AddSegmentCount(keyOf, dist, AddAll(keyOf, dist, g, segs[..n]), segs[n], u, e);
    }
  }

  /**
   * Parallel edges are kept: the list of `u` holds exactly one copy of `e` per
   * segment end that has key `u` and whose other end and length `e` records.
   */
  lemma BuildCount(keyOf: Coord -> VertexKey, dist: Metric, fs: seq<Feature>, u: VertexKey, e: Edge)
    ensures Count(Build(keyOf, dist, fs), u, e) == CountIn(keyOf, dist, Segments(fs), u, e)
  {
    AddAllCount(keyOf, dist, EmptyGraph, Segments(fs), u, e);
  }

  lemma {:induction false} CountInSymmetric(keyOf: Coord -> VertexKey, dist: Metric, segs: seq<Segment>, u: VertexKey, v: VertexKey, w: real)
    ensures CountIn(keyOf, dist, segs, u, Edge(v, w)) == CountIn(keyOf, dist, segs, v, Edge(u, w))
  {
    if |segs| > 0 {
      CountInSymmetric(keyOf, dist, segs[..|segs| - 1], u, v, w);
    }
  }

  /** The adjacency is symmetric, copies included: `u` lists `v` as often as `v` lists `u`, with the same weight. */
  lemma BuildSymmetric(keyOf: Coord -> VertexKey, dist: Metric, fs: seq<Feature>, u: VertexKey, v: VertexKey, w: real)
    ensures Count(Build(keyOf, dist, fs), u, Edge(v, w)) == Count(Build(keyOf, dist, fs), v, Edge(u, w))
  {
    BuildCount(keyOf, dist, fs, u, Edge(v, w));
    BuildCount(keyOf, dist, fs, v, Edge(u, w));
    CountInSymmetric(keyOf, dist, Segments(fs), u, v, w);
  }

  lemma {:induction false} CountInAtLeast(keyOf: Coord -> VertexKey, dist: Metric, segs: seq<Segment>, i: nat, u: VertexKey, e: Edge)
    requires i < |segs|
    ensures CountIn(keyOf, dist, segs, u, e) >= Contribution(keyOf, dist, segs[i], u, e)
  {
    if i < |segs| - 1 {
      CountInAtLeast(keyOf, dist, segs[..|segs| - 1], i, u, e);
    }
  }

  /** Every segment of every LineString is present in both directions, weighted by the distance between its ends. */
  lemma SegmentEdgesPresent(keyOf: Coord -> VertexKey, dist: Metric, fs: seq<Feature>, i: nat)
    requires i < |Segments(fs)|
    ensures var g, seg := Build(keyOf, dist, fs), Segments(fs)[i];
            var from, to, w := keyOf(seg.from), keyOf(seg.to), dist(seg.from, seg.to);
            from in g.adj && Edge(to, w) in g.adj[from] &&
            to in g.adj && Edge(from, w) in g.adj[to]
  {
    var g, seg := Build(keyOf, dist, fs), Segments(fs)[i];
    var from, to, w := keyOf(seg.from), keyOf(seg.to), dist(seg.from, seg.to);
    BuildCount(keyOf, dist, fs, from, Edge(to, w));
    CountInAtLeast(keyOf, dist, Segments(fs), i, from, Edge(to, w));
    BuildCount(keyOf, dist, fs, to, Edge(from, w));
    CountInAtLeast(keyOf, dist, Segments(fs), i, to, Edge(from, w));
  }

  /** The number of segment ends with key `u`: each contributes one entry to the list of `u`. */
  function DegreeIn(keyOf: Coord -> VertexKey, segs: seq<Segment>, u: VertexKey): nat
  {
    if |segs| == 0 then 0
    else
      var seg := segs[|segs| - 1];
      DegreeIn(keyOf, segs[..|segs| - 1], u) + (if keyOf(seg.from) == u then 1 else 0) + (if keyOf(seg.to) == u then 1 else 0)
  }

  lemma {:induction false} AddAllDegree(keyOf: Coord -> VertexKey, dist: Metric, g: Graph, segs: seq<Segment>, u: VertexKey)
    ensures var h := AddAll(keyOf, dist, g, segs);
            u in h.adj ==> |h.adj[u]| == (if u in g.adj then |g.adj[u]| else 0) + DegreeIn(keyOf, segs, u)
    ensures u !in AddAll(keyOf, dist, g, segs).adj ==> u !in g.adj && DegreeIn(keyOf, segs, u) == 0
  {
    if |segs| > 0 {
      var n := |segs| - 1;
      var h := AddAll(keyOf, dist, g, segs[..n]);
      var from, to, w := keyOf(segs[n].from), keyOf(segs[n].to), dist(segs[n].from, segs[n].to);
      AddAllDegree(keyOf, dist, g, segs[..n], u);
      AddSegmentAppends(keyOf, dist, h, segs[n]);
      AppendLength(h.adj, from, Edge(to, w), u);
      AppendLength(Append(h.adj, from, Edge(to, w)), to, Edge(from, w), u);
    }
  }

  /** The list of a key holds one entry per segment end with that key. */
  lemma BuildDegree(keyOf: Coord -> VertexKey, dist: Metric, fs: seq<Feature>, u: VertexKey)
    requires u in Build(keyOf, dist, fs).adj
    ensures |Build(keyOf, dist, fs).adj[u]| == DegreeIn(keyOf, Segments(fs), u)
  {
    AddAllDegree(keyOf, dist, EmptyGraph, Segments(fs), u);
  }

  // ---------------------------------------------------------------------------
  // Stored positions

  /** The ends of the segments in the order the loop writes them. */
  function Endpoints(segs: seq<Segment>): seq<Coord>
  {
    if |segs| == 0 then [] else Endpoints(segs[..|segs| - 1]) + [segs[|segs| - 1].from, segs[|segs| - 1].to]
  }

  /** The last position in `pts` whose key is `k`. */
  function LastWithKey(keyOf: Coord -> VertexKey, pts: seq<Coord>, k: VertexKey): Option<Coord>
  {
    if |pts| == 0 then None
    else if keyOf(pts[|pts| - 1]) == k then Some(pts[|pts| - 1])
    else LastWithKey(keyOf, pts[..|pts| - 1], k)
  }

  /** Two more positions: the later one wins, then the earlier one, then what came before. */
  lemma LastWithKeyPair(keyOf: Coord -> VertexKey, pts: seq<Coord>, a: Coord, b: Coord, k: VertexKey)
    ensures LastWithKey(keyOf, pts + [a, b], k)
         == if keyOf(b) == k then Some(b) else if keyOf(a) == k then Some(a) else LastWithKey(keyOf, pts, k)
  {
    var qs := pts + [a, b];
    assert qs[..|qs| - 1] == pts + [a];
    assert qs[..|qs| - 1][..|qs| - 2] == pts;
  }

  lemma {:induction false} AddAllVertices(keyOf: Coord -> VertexKey, dist: Metric, segs: seq<Segment>, k: VertexKey)
    ensures var vs := AddAll(keyOf, dist, EmptyGraph, segs).vertices;
            (k in vs <==> LastWithKey(keyOf, Endpoints(segs), k).Some?) &&
            (k in vs ==> vs[k] == LastWithKey(keyOf, Endpoints(segs), k).value)
  {
    if |segs| > 0 {
      var n := |segs| - 1;
      AddAllVertices(keyOf, dist, segs[..n], k);
      var g := AddAll(keyOf, dist, EmptyGraph, segs[..n]);
      assert AddAll(keyOf, dist, EmptyGraph, segs) == AddSegment(keyOf, dist, g, segs[n]);
      assert Endpoints(segs) == Endpoints(segs[..n]) + [segs[n].from, segs[n].to];
      LastWithKeyPair(keyOf, Endpoints(segs[..n]), segs[n].from, segs[n].to, k);
    }
  }

  /** The position stored for a key is the one written last: later occurrences overwrite earlier ones. */
  lemma BuildVertices(keyOf: Coord -> VertexKey, dist: Metric, fs: seq<Feature>, k: VertexKey)
    ensures var vs := Build(keyOf, dist, fs).vertices;
            (k in vs <==> LastWithKey(keyOf, Endpoints(Segments(fs)), k).Some?) &&
            (k in vs ==> vs[k] == LastWithKey(keyOf, Endpoints(Segments(fs)), k).value)
  {
    AddAllVertices(keyOf, dist, Segments(fs), k);
  }
}
