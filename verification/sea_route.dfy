/**
 * The route calculator: it snaps both query points to the maritime network
 * (first to the nearest polyline, then to that polyline's nearest vertex),
 * asks the path finder for the shortest route between the snapped points and
 * wraps the answer as a GeoJSON LineString with its length in the requested
 * unit.
 *
 * Loading the embedded network is left to the caller: the calculator is
 * built from the feature collection, the key function and the two distance
 * functions (great-circle and the angular part of rhumb-line).
 */
module SeaRoute {
  import opened Models
  import opened GeoCalculator
  import opened RouteGraph
  import opened Walks
  import opened DijkstraPathFinder

  /** Polylines at least this far away (in kilometres) are never chosen by the first snapping stage. */
  const SnapSentinelKm: real := 30000.0

  /** The index of the polyline chosen so far and its distance. */
  datatype Nearest = Nearest(index: nat, dist: real)

  /** Distance in kilometres from `p` to the polyline of feature `f`, whatever its geometry type. */
  function FeatureDistance(hav: Metric, p: Coord, f: Feature): real
  {
    ConvertDistance(LineDistanceKm(hav, p, f.geometry.coordinates), "km", "kilometers")
  }

  /**
   * The first snapping stage after the first `n` features: starting from
   * index 0 at the sentinel distance, a feature replaces the choice only when
   * it is strictly closer. The result is the earliest feature of least
   * distance when that distance is below the sentinel, and index 0 otherwise.
   */
  function LineScan(hav: Metric, p: Coord, fs: seq<Feature>, n: nat): (r: Nearest)
    requires n <= |fs|
    ensures r.dist <= SnapSentinelKm
    ensures n > 0 ==> r.index < n
    ensures forall i {:trigger FeatureDistance(hav, p, fs[i])} | 0 <= i < n :: r.dist <= FeatureDistance(hav, p, fs[i])
    ensures r.dist < SnapSentinelKm ==> r.index < n && r.dist == FeatureDistance(hav, p, fs[r.index])
    ensures r.dist == SnapSentinelKm ==> r.index == 0
    ensures forall i {:trigger FeatureDistance(hav, p, fs[i])} | 0 <= i < r.index :: FeatureDistance(hav, p, fs[i]) > r.dist
  {
    if n == 0 then Nearest(0, SnapSentinelKm)
    else
      var prev := LineScan(hav, p, fs, n - 1);
      var d := FeatureDistance(hav, p, fs[n - 1]);
      if d < prev.dist then Nearest(n - 1, d) else prev
  }

  /** One more feature for the first stage: it is chosen exactly when it is strictly closer than the choice so far. */
  lemma LineScanStep(hav: Metric, p: Coord, fs: seq<Feature>, n: nat, cur: Nearest)
    requires n < |fs| && cur == LineScan(hav, p, fs, n)
    ensures FeatureDistance(hav, p, fs[n]) < cur.dist ==> LineScan(hav, p, fs, n + 1) == Nearest(n, FeatureDistance(hav, p, fs[n]))
    ensures FeatureDistance(hav, p, fs[n]) >= cur.dist ==> LineScan(hav, p, fs, n + 1) == cur
  {
  }

  /** Rhumb-line distance in kilometres from `p` to position `c`. */
  function VertexDistance(rhumb: RhumbAngle, p: Coord, c: Coord): real
  {
    RhumbDistance(rhumb, p, c, "km")
  }

  /**
   * The second snapping stage after the first `n` positions: the first
   * position replaces nothing, a later one replaces the choice only when it
   * is strictly closer. The result is the earliest position of least
   * distance, or nothing when no position has been seen.
   */
  function VertexScan(rhumb: RhumbAngle, p: Coord, cs: seq<Coord>, n: nat): (r: Option<nat>)
    requires n <= |cs|
    ensures r.None? <==> n == 0
    ensures r.Some? ==> r.value < n
    ensures r.Some? ==> forall i {:trigger VertexDistance(rhumb, p, cs[i])} | 0 <= i < n :: VertexDistance(rhumb, p, cs[r.value]) <= VertexDistance(rhumb, p, cs[i])
    ensures r.Some? ==> forall i {:trigger VertexDistance(rhumb, p, cs[i])} | 0 <= i < r.value :: VertexDistance(rhumb, p, cs[i]) > VertexDistance(rhumb, p, cs[r.value])
  {
    if n == 0 then None
    else
      var prev := VertexScan(rhumb, p, cs, n - 1);
      var d := VertexDistance(rhumb, p, cs[n - 1]);
      if prev.None? || d < VertexDistance(rhumb, p, cs[prev.value]) then Some(n - 1) else prev
  }

  /** One more position for the second stage: it is chosen exactly when nothing was, or it is strictly closer. */
  lemma VertexScanStep(rhumb: RhumbAngle, p: Coord, cs: seq<Coord>, n: nat, best: Option<nat>)
    requires n < |cs| && best == VertexScan(rhumb, p, cs, n)
    ensures best.None? || VertexDistance(rhumb, p, cs[n]) < VertexDistance(rhumb, p, cs[best.value]) ==>
      VertexScan(rhumb, p, cs, n + 1) == Some(n)
    ensures best.Some? && VertexDistance(rhumb, p, cs[n]) >= VertexDistance(rhumb, p, cs[best.value]) ==>
      VertexScan(rhumb, p, cs, n + 1) == best
  {
  }

  /** The polyline the first stage settles on, over the whole collection. */
  function NearestLine(hav: Metric, p: Coord, fs: seq<Feature>): (i: nat)
    requires |fs| > 0
    ensures i < |fs|
  {
    LineScan(hav, p, fs, |fs|).index
  }

  /**
   * Where `p` snaps to: the first position of least rhumb-line distance on
   * the chosen polyline, or `p` itself when that polyline has no positions.
   */
  function Snap(hav: Metric, rhumb: RhumbAngle, fs: seq<Feature>, p: Coord): (r: Coord)
    requires |fs| > 0
    ensures var cs := fs[NearestLine(hav, p, fs)].geometry.coordinates;
      (|cs| == 0 ==> r == p) &&
      (|cs| > 0 ==> exists k | 0 <= k < |cs| ::
         r == cs[k] &&
         (forall i {:trigger VertexDistance(rhumb, p, cs[i])} | 0 <= i < |cs| :: VertexDistance(rhumb, p, cs[k]) <= VertexDistance(rhumb, p, cs[i])) &&
         (forall i {:trigger VertexDistance(rhumb, p, cs[i])} | 0 <= i < k :: VertexDistance(rhumb, p, cs[i]) > VertexDistance(rhumb, p, cs[k])))
  {
    var cs := fs[NearestLine(hav, p, fs)].geometry.coordinates;
    match VertexScan(rhumb, p, cs, |cs|)
    case None => p
    case Some(k) => cs[k]
  }

  /**
   * The polyline chosen is the earliest one of least distance when some
   * polyline is closer than the sentinel, and the first one otherwise; every
   * feature takes part, whatever its geometry type.
   */
  lemma NearestLineChoice(hav: Metric, p: Coord, fs: seq<Feature>)
    requires |fs| > 0
    ensures var l := NearestLine(hav, p, fs);
      (exists i | 0 <= i < |fs| :: FeatureDistance(hav, p, fs[i]) < SnapSentinelKm) ==>
        (forall i {:trigger FeatureDistance(hav, p, fs[i])} | 0 <= i < |fs| :: FeatureDistance(hav, p, fs[l]) <= FeatureDistance(hav, p, fs[i])) &&
        (forall i {:trigger FeatureDistance(hav, p, fs[i])} | 0 <= i < l :: FeatureDistance(hav, p, fs[i]) > FeatureDistance(hav, p, fs[l]))
    ensures (forall i | 0 <= i < |fs| :: FeatureDistance(hav, p, fs[i]) >= SnapSentinelKm) ==> NearestLine(hav, p, fs) == 0
  {
    var r := LineScan(hav, p, fs, |fs|);
    if exists i | 0 <= i < |fs| :: FeatureDistance(hav, p, fs[i]) < SnapSentinelKm {
      var i :| 0 <= i < |fs| && FeatureDistance(hav, p, fs[i]) < SnapSentinelKm;
      assert r.dist <= FeatureDistance(hav, p, fs[i]);
    }
  }

  class SeaRouteCalculator {
    const marnet: FeatureCollection
    const hav: Metric
    const rhumb: RhumbAngle
    const pathFinder: PathFinder

    /** The path finder works on this calculator's network with its great-circle distance. */
    ghost predicate Valid()
      reads this, pathFinder
    {
      pathFinder.Valid() && pathFinder.network == marnet && pathFinder.distance == hav
    }

    /** A calculator over `marnet`, with a path finder built from it. */
    constructor(marnet: FeatureCollection, coordToKey: Coord -> VertexKey, hav: Metric, rhumb: RhumbAngle)
      ensures this.marnet == marnet && this.hav == hav && this.rhumb == rhumb
      ensures pathFinder.coordToKey == coordToKey
      ensures Graph(pathFinder.graph, pathFinder.vertices) == Build(coordToKey, hav, marnet.features)
      ensures Valid()
    {
      this.marnet := marnet;
      this.hav := hav;
      this.rhumb := rhumb;
      this.pathFinder := new PathFinder(marnet, coordToKey, hav);
    }

    /**
     * Moves `point` onto the network: the nearest polyline by the distance to
     * its segments (below the sentinel, else the first feature), then the
     * nearest position of that polyline by rhumb-line distance.
     */
    method SnapToNetwork(point: Coord) returns (r: Coord)
      requires |marnet.features| > 0
      ensures r == Snap(hav, rhumb, marnet.features, point)
    {
      var features := marnet.features;
      var nearestLineIndex := NearestLineIndex(point);
      var coords := features[nearestLineIndex].geometry.coordinates;
      var nearestCoord := NearestVertex(point, coords);
      r := if nearestCoord.Some? then nearestCoord.value else point;
    }

    /**
     * The first loop of the snapping: a feature replaces the choice so far
     * only when its polyline is strictly closer, starting from feature 0 at
     * the sentinel distance.
     */
    method NearestLineIndex(point: Coord) returns (nearestLineIndex: nat)
      requires |marnet.features| > 0
      ensures nearestLineIndex == NearestLine(hav, point, marnet.features)
    {
      var features := marnet.features;
      nearestLineIndex := 0;
      var minDistance := SnapSentinelKm;
      var i := 0;
      while i < |features|
        invariant 0 <= i <= |features|
        invariant Nearest(nearestLineIndex, minDistance) == LineScan(hav, point, features, i)
      {
        var feature := features[i];
        var dist := PointToLineDistance(hav, point, feature.geometry.coordinates, "kilometers");
        assert dist == FeatureDistance(hav, point, feature);
        LineScanStep(hav, point, features, i, Nearest(nearestLineIndex, minDistance));
        if dist < minDistance {
          minDistance := dist;
          nearestLineIndex := i;
        }
        i := i + 1;
      }
    }

    /**
     * The second loop of the snapping: the first position, or a later one
     * strictly closer by rhumb-line distance than the choice so far.
     */
    method NearestVertex(point: Coord, coords: seq<Coord>) returns (nearestCoord: Option<Coord>)
      ensures var best := VertexScan(rhumb, point, coords, |coords|);
              nearestCoord == if best.Some? then Some(coords[best.value]) else None
    {
      var nearestVertexDist: Option<real> := None;
      nearestCoord := None;
      ghost var best: Option<nat> := None;
      var j := 0;
      while j < |coords|
        invariant 0 <= j <= |coords|
        invariant best == VertexScan(rhumb, point, coords, j)
        invariant best.None? ==> nearestVertexDist.None? && nearestCoord.None?
        invariant best.Some? ==> best.value < j && nearestCoord == Some(coords[best.value]) &&
                                 nearestVertexDist == Some(VertexDistance(rhumb, point, coords[best.value]))
      {
        var coord := coords[j];
        var distToVertex := VertexDistance(rhumb, point, coord);
        VertexScanStep(rhumb, point, coords, j, best);
        if nearestVertexDist.None? || distToVertex < nearestVertexDist.value {
          nearestVertexDist := Some(distToVertex);
          nearestCoord := Some(coord);
          best := Some(j);
        }
        j := j + 1;
      }
    }

    /**
     * The route between two query points: both are snapped to the network and
     * the path finder is asked for the shortest route between the snapped
     * positions. Nothing when there is none; otherwise a LineString feature
     * with the route's positions, the requested unit and the route's length
     * in that unit.
     */
    method CalculateRoute(origin: GeoJsonPoint, destination: GeoJsonPoint, units: string) returns (r: Option<GeoJsonLineString>)
      requires Valid() && |marnet.features| > 0
      ensures var sk := pathFinder.coordToKey(Snap(hav, rhumb, marnet.features, origin.geometry.coordinates));
              var ek := pathFinder.coordToKey(Snap(hav, rhumb, marnet.features, destination.geometry.coordinates));
        r.None? <==> (sk !in pathFinder.vertices || ek !in pathFinder.vertices || !Reachable(pathFinder.graph, sk, ek))
      ensures var sk := pathFinder.coordToKey(Snap(hav, rhumb, marnet.features, origin.geometry.coordinates));
              var ek := pathFinder.coordToKey(Snap(hav, rhumb, marnet.features, destination.geometry.coordinates));
        r.Some? ==>
          r.value.kind == "Feature" && r.value.geometry.kind == "LineString" && r.value.properties.units == units &&
          r.value.properties.length == ConvertDistance(PolylineLengthKm(hav, r.value.geometry.coordinates), "km", units) &&
          exists es :: IsShortestWalk(pathFinder.graph, sk, ek, es) && Simple(sk, es) && OnVertices(pathFinder.vertices, sk, es) &&
                       r.value.geometry.coordinates == WalkCoords(pathFinder.vertices, sk, es)
    {
      var snappedOrigin := SnapToNetwork(origin.geometry.coordinates);
      var snappedDestination := SnapToNetwork(destination.geometry.coordinates);
      var route := pathFinder.FindPath(snappedOrigin, snappedDestination);
      if route.None? {
        return None;
      }
      var length := CalculateLineStringLength(hav, route.value.path, units);
      r := Some(GeoJsonLineString(
        "Feature",
        LineStringProperties(units, length),
        LineStringGeometry("LineString", route.value.path)));
    }
  }
}
