/**
 * Distance helpers of the route calculator: unit conversion, the longitude wrap
 * and unit dispatch of the rhumb-line distance, the projection of a point onto
 * a segment, the minimum distance from a point to a polyline and the length of
 * a polyline.
 *
 * The transcendental parts are parameters: `Metric` stands for the haversine
 * great-circle distance in kilometres and `RhumbAngle` for the
 * `sqrt(dLat^2 + q^2 dLon^2)` term of the rhumb-line distance. Nothing but
 * their non-negativity is assumed.
 */
module GeoCalculator {
  import opened Models

  const EarthRadiusKm: real := 6371.0
  const EarthRadiusMiles: real := 3958.8
  const EarthRadiusNauticalMiles: real := 3440.065

  /** The value of `Math.PI`: the double nearest to pi, written out exactly. */
  const Pi: real := 3.141592653589793115997963468544185161590576171875

  /**
   * The "no segment yet" sentinel `double.MaxValue`, written as the shortest
   * decimal that rounds to it (the exact value is (2 - 2^-52) * 2^1023).
   */
  const DoubleMax: real := 1.7976931348623157e308

  /** A great-circle distance in kilometres: any non-negative function of two positions. */
  type Metric = d: (Coord, Coord) -> real | forall a, b :: d(a, b) >= 0.0
    witness (a: Coord, b: Coord) => 0.0

  /**
   * The angular part of the rhumb-line distance, as a function of the two
   * latitudes and the wrapped longitude difference (all in radians).
   */
  type RhumbAngle = f: (real, real, real) -> real | forall x, y, z :: f(x, y, z) >= 0.0
    witness (x: real, y: real, z: real) => 0.0

  function Abs(x: real): real { if x < 0.0 then -x else x }

  function Min(x: real, y: real): real { if x <= y then x else y }

  /** The earth radius that a unit name stands for; every unknown name means kilometres. */
  function EarthRadius(units: string): (r: real)
    ensures r > 0.0
    ensures units != "miles" && units != "nm" ==> r == EarthRadiusKm
  {
    if units == "miles" then EarthRadiusMiles
    else if units == "nm" then EarthRadiusNauticalMiles
    else EarthRadiusKm
  }

  /**
   * Converts through kilometres: a distance in `fromUnits` becomes kilometres,
   * then `toUnits`. Conversion is scaling by the ratio of the two radii, with
   * every unknown unit name counted as kilometres.
   */
  function ConvertDistance(distance: real, fromUnits: string, toUnits: string): (r: real)
    ensures r == distance * EarthRadius(toUnits) / EarthRadius(fromUnits)
  {
    var distanceInKm :=
      match fromUnits
      case "miles" => distance / EarthRadiusMiles * EarthRadiusKm
      case "nm" => distance / EarthRadiusNauticalMiles * EarthRadiusKm
      case _ => distance;
    match toUnits
    case "miles" => distanceInKm / EarthRadiusKm * EarthRadiusMiles
    case "nm" => distanceInKm / EarthRadiusKm * EarthRadiusNauticalMiles
    case _ => distanceInKm
  }

  /** From kilometres: unchanged for "km", "kilometers" and any unknown unit, scaled otherwise. */
  lemma ConvertFromKm(distance: real, units: string)
    ensures units == "miles" ==> ConvertDistance(distance, "km", units) == distance * (3958.8 / 6371.0)
    ensures units == "nm" ==> ConvertDistance(distance, "km", units) == distance * (3440.065 / 6371.0)
    ensures units != "miles" && units != "nm" ==> ConvertDistance(distance, "km", units) == distance
  {
  }

  /** Converting to another unit and back returns the original distance, for every pair of unit names. */
  lemma ConvertRoundTrip(distance: real, u: string, v: string)
    ensures ConvertDistance(ConvertDistance(distance, u, v), v, u) == distance
  {
    var ru, rv := EarthRadius(u), EarthRadius(v);
    calc {
      ConvertDistance(ConvertDistance(distance, u, v), v, u);
      (distance * rv / ru) * ru / rv;
      { assert (distance * rv / ru) * ru == distance * rv; }
      distance * rv / rv;
      distance;
    }
  }

  /**
   * The longitude difference after the wrap of `RhumbDistance`: above pi it is
   * replaced by the (negative) way round the other side. For a difference in
   * [0, 2 pi] its magnitude ends as the shorter way round, at most pi, and the
   * branch for negative differences is never taken.
   */
  function WrapLongitudeDelta(dLon: real): (r: real)
    ensures 0.0 <= dLon ==> r == (if dLon > Pi then dLon - 2.0 * Pi else dLon)
    ensures 0.0 <= dLon <= 2.0 * Pi ==> Abs(r) == Min(dLon, 2.0 * Pi - dLon) <= Pi
  {
    if Abs(dLon) > Pi then
      (if dLon > 0.0 then -(2.0 * Pi - dLon) else 2.0 * Pi + dLon)
    else dLon
  }

  /** The longitude difference `RhumbDistance` starts from: absolute, in radians. */
  function LongitudeDelta(p1: Coord, p2: Coord): (r: real)
    ensures r >= 0.0
    ensures Abs(p2.lon - p1.lon) <= 360.0 ==> r <= 2.0 * Pi
  {
    Abs(p2.lon - p1.lon) * Pi / 180.0
  }

  /**
   * Rhumb-line distance: the angular term (uninterpreted) on the two latitudes
   * in radians and the wrapped longitude difference, times the radius of the
   * requested unit; unknown unit names use the kilometre radius.
   */
  function RhumbDistance(rhumb: RhumbAngle, point1: Coord, point2: Coord, units: string): (r: real)
    ensures r >= 0.0
  {
    var lat1 := point1.lat * Pi / 180.0;
    var lat2 := point2.lat * Pi / 180.0;
    var dLon := WrapLongitudeDelta(LongitudeDelta(point1, point2));
    var dist := rhumb(lat1, lat2, dLon);
    match units
    case "miles" => dist * EarthRadiusMiles
    case "nm" => dist * EarthRadiusNauticalMiles
    case "kilometers" | "km" => dist * EarthRadiusKm
    case _ => dist * EarthRadiusKm
  }

  /**
   * The two unit dispatches agree: a rhumb-line distance in any unit is the
   * kilometre distance converted to that unit.
   */
  lemma RhumbUnitsAgreeWithConversion(rhumb: RhumbAngle, point1: Coord, point2: Coord, units: string)
    ensures RhumbDistance(rhumb, point1, point2, units)
         == ConvertDistance(RhumbDistance(rhumb, point1, point2, "km"), "km", units)
  {
    var lat1 := point1.lat * Pi / 180.0;
    var lat2 := point2.lat * Pi / 180.0;
    var dist := rhumb(lat1, lat2, WrapLongitudeDelta(LongitudeDelta(point1, point2)));
    assert RhumbDistance(rhumb, point1, point2, "km") == dist * EarthRadiusKm;
    assert RhumbDistance(rhumb, point1, point2, units) == dist * EarthRadius(units);
    assert dist * EarthRadiusKm * EarthRadius(units) / EarthRadiusKm == dist * EarthRadius(units);
  }

  /** When the longitudes differ by at most 360 degrees, the wrapped difference is at most pi in magnitude. */
  lemma RhumbLongitudeIsShorterWay(point1: Coord, point2: Coord)
    requires Abs(point2.lon - point1.lon) <= 360.0
    ensures Abs(WrapLongitudeDelta(LongitudeDelta(point1, point2))) <= Pi
  {
  }

  // ---------------------------------------------------------------------------
  // Projection onto a segment, in the flat longitude/latitude plane.

  /** The point of the segment from `s` to `e` at parameter `t`. */
  function Lerp(s: Coord, e: Coord, t: real): Coord
  {
    Coord(s.lon + t * (e.lon - s.lon), s.lat + t * (e.lat - s.lat))
  }

  /** Squared Euclidean distance in the longitude/latitude plane. */
  function SqDist(p: Coord, q: Coord): real
  {
    (p.lon - q.lon) * (p.lon - q.lon) + (p.lat - q.lat) * (p.lat - q.lat)
  }

  /**
   * The projection parameter of the point `(a, b)` on the segment from the
   * origin to `(c, d)`: their dot product over the squared length, or -1 when
   * that length is zero.
   */
  function ProjectionParam(a: real, b: real, c: real, d: real): real
  {
    var dot := a * c + b * d;
    var lenSq := c * c + d * d;
    if lenSq != 0.0 then dot / lenSq else -1.0
  }

  /** The projection parameter of `p` on the segment from `s` to `e`. */
  function SegmentParam(p: Coord, s: Coord, e: Coord): real
  {
    ProjectionParam(p.lon - s.lon, p.lat - s.lat, e.lon - s.lon, e.lat - s.lat)
  }

  function Clamp01(t: real): (r: real)
    ensures 0.0 <= r <= 1.0
    ensures 0.0 <= t <= 1.0 ==> r == t
  {
    if t < 0.0 then 0.0 else if t > 1.0 then 1.0 else t
  }

  /**
   * The point of the segment closest to `p`: the start for a zero-length
   * segment or a parameter below 0, the end for a parameter above 1, and the
   * projection otherwise. It is the segment point at the clamped parameter.
   */
  function ClosestPointOnSegment(p: Coord, s: Coord, e: Coord): (r: Coord)
    ensures s == e ==> r == s
    ensures r == Lerp(s, e, Clamp01(SegmentParam(p, s, e)))
  {
    var x1, y1, x2, y2 := s.lon, s.lat, e.lon, e.lat;
    var param := SegmentParam(p, s, e);
    if param < 0.0 then
      s
    else if param > 1.0 then
      e
    else
      Coord(x1 + param * (x2 - x1), y1 + param * (y2 - y1))
  }

  /**
   * Real multiplication behind a name. It is not part of the source: it only
   * keeps the solver from rewriting facts about the square of a coordinate
   * difference, which it otherwise loses.
   */
  function Mul(x: real, y: real): real
  {
    x * y
  }

  lemma MulPositive(x: real, y: real)
    requires x > 0.0 && y > 0.0
    ensures Mul(x, y) > 0.0
  {
  }

  lemma SquarePositive(x: real)
    requires x != 0.0
    ensures Mul(x, x) > 0.0
  {
    if x > 0.0 {
      MulPositive(x, x);
    } else {
      MulPositive(-x, -x);
      assert Mul(-x, -x) == Mul(x, x);
    }
  }

  lemma SquareNonneg(x: real)
    ensures Mul(x, x) >= 0.0
  {
    if x != 0.0 {
      SquarePositive(x);
    }
  }

  /** A vector other than zero has a positive squared length. */
  lemma SumSquaresPositive(c: real, d: real)
    requires c != 0.0 || d != 0.0
    ensures Mul(c, c) + Mul(d, d) > 0.0
  {
    SquareNonneg(c);
    SquareNonneg(d);
    if c != 0.0 {
      SquarePositive(c);
    } else {
      SquarePositive(d);
    }
  }

  lemma ProductNonneg(x: real, y: real)
    requires x >= 0.0 && y >= 0.0
    ensures x * y >= 0.0
  {
  }

  /** Squared distance from `(a, b)` to the point `t (c, d)` of a segment from the origin. */
  function Quad(a: real, b: real, c: real, d: real, t: real): real
  {
    (a - t * c) * (a - t * c) + (b - t * d) * (b - t * d)
  }

  /** Moving along the segment changes the squared distance by a quadratic in the parameter. */
  lemma QuadDifference(a: real, b: real, c: real, d: real, dot: real, lenSq: real, t: real, k: real)
    requires dot == a * c + b * d && lenSq == c * c + d * d
    ensures Quad(a, b, c, d, t) - Quad(a, b, c, d, k)
         == (-2.0 * t * dot + t * t * lenSq) - (-2.0 * k * dot + k * k * lenSq)
  {
    assert Quad(a, b, c, d, t) == a * a + b * b - 2.0 * t * (a * c + b * d) + t * t * (c * c + d * d);
    assert Quad(a, b, c, d, k) == a * a + b * b - 2.0 * k * (a * c + b * d) + k * k * (c * c + d * d);
  }

  lemma SqDistAlongSegment(p: Coord, s: Coord, e: Coord, t: real)
    ensures SqDist(p, Lerp(s, e, t)) == Quad(p.lon - s.lon, p.lat - s.lat, e.lon - s.lon, e.lat - s.lat, t)
  {
  }

  /**
   * For a segment of positive length, the quadratic `-2 t dot + t^2 lenSq`
   * (the squared distance up to a constant) is smallest on [0, 1] at the
   * clamped projection parameter.
   */
  lemma ClampedParamMinimizes(dot: real, lenSq: real, t: real)
    requires lenSq > 0.0 && 0.0 <= t <= 1.0
    ensures var k := Clamp01(dot / lenSq);
            -2.0 * k * dot + k * k * lenSq <= -2.0 * t * dot + t * t * lenSq
  {
    var q := dot / lenSq;
    assert dot == q * lenSq;
    if q < 0.0 {
      ProductNonneg(t, t * lenSq);
      ProductNonneg(t, -dot);
    } else if q > 1.0 {
      // (1 - t) (2 dot - (t + 1) lenSq) >= 0, both factors being >= 0
      ProductNonneg(1.0 - t, lenSq);
      assert (t + 1.0) * lenSq <= 2.0 * lenSq;
      ProductNonneg(q - 1.0, lenSq);
      assert 2.0 * lenSq <= 2.0 * dot;
      ProductNonneg(1.0 - t, 2.0 * dot - (t + 1.0) * lenSq);
      assert (1.0 - t) * (2.0 * dot - (t + 1.0) * lenSq) == (-2.0 * t * dot + t * t * lenSq) - (-2.0 * dot + lenSq);
    } else {
      // the difference is (t - q)^2 lenSq
      SquareNonneg(t - q);
      ProductNonneg(Mul(t - q, t - q), lenSq);
      assert Mul(t - q, t - q) * lenSq == (-2.0 * t * dot + t * t * lenSq) - (-2.0 * q * dot + q * q * lenSq);
    }
  }

  /** On a segment from the origin of positive length, the clamped parameter minimizes `Quad`. */
  lemma QuadMinimizedAtClampedParam(a: real, b: real, c: real, d: real, t: real)
    requires c != 0.0 || d != 0.0
    requires 0.0 <= t <= 1.0
    ensures Quad(a, b, c, d, Clamp01(ProjectionParam(a, b, c, d))) <= Quad(a, b, c, d, t)
  {
    SumSquaresPositive(c, d);
    var dot, lenSq := a * c + b * d, c * c + d * d;
    assert lenSq == Mul(c, c) + Mul(d, d);
    assert ProjectionParam(a, b, c, d) == dot / lenSq;
    ClampedParamMinimizes(dot, lenSq, t);
    QuadDifference(a, b, c, d, dot, lenSq, t, Clamp01(dot / lenSq));
  }

  /** The closest point is closest: no point of the segment is nearer to `p` in the plane. */
  lemma ClosestPointMinimizes(p: Coord, s: Coord, e: Coord, t: real)
    requires 0.0 <= t <= 1.0
    ensures SqDist(p, ClosestPointOnSegment(p, s, e)) <= SqDist(p, Lerp(s, e, t))
  {
    if s == e {
      assert Lerp(s, e, t) == s;
    } else {
      QuadMinimizedAtClampedParam(p.lon - s.lon, p.lat - s.lat, e.lon - s.lon, e.lat - s.lat, t);
      SqDistAlongSegment(p, s, e, t);
      SqDistAlongSegment(p, s, e, Clamp01(SegmentParam(p, s, e)));
    }
  }

  /**
   * Great-circle distance from `p` to the closest point of the segment: it is
   * measured to the segment point at the clamped projection parameter, the
   * start when the segment has zero length (`ClosestPointMinimizes` says that
   * point is the nearest one).
   */
  function PointToSegmentDistance(hav: Metric, p: Coord, s: Coord, e: Coord): (r: real)
    ensures r >= 0.0
    ensures s == e ==> r == hav(p, s)
    ensures r == hav(p, Lerp(s, e, Clamp01(SegmentParam(p, s, e))))
  {
    hav(p, ClosestPointOnSegment(p, s, e))
  }

  // ---------------------------------------------------------------------------
  // Polylines

  /** Distance from `p` to segment `i` of the polyline `cs`. */
  function SegmentDistance(hav: Metric, p: Coord, cs: seq<Coord>, i: nat): real
    requires i + 1 < |cs|
  {
    PointToSegmentDistance(hav, p, cs[i], cs[i + 1])
  }

  /**
   * The running minimum of `PointToLineDistance` after the first `n` segments:
   * the least of the sentinel and the segment distances.
   */
  function MinSegmentDistance(hav: Metric, p: Coord, cs: seq<Coord>, n: nat): (r: real)
    requires n == 0 || n < |cs|
    ensures r <= DoubleMax
    ensures forall i: nat :: i < n ==> r <= SegmentDistance(hav, p, cs, i)
    ensures r == DoubleMax || exists i: nat :: i < n && r == SegmentDistance(hav, p, cs, i)
  {
    if n == 0 then DoubleMax
    else
      var m := MinSegmentDistance(hav, p, cs, n - 1);
      var d := SegmentDistance(hav, p, cs, n - 1);
      if d < m then d else m
  }

  /** The number of segments of a polyline. */
  function SegmentCount(cs: seq<Coord>): (n: nat)
    ensures n == 0 || n < |cs|
  {
    if |cs| < 2 then 0 else |cs| - 1
  }

  /** Distance in kilometres from a point to a polyline, before unit conversion. */
  function LineDistanceKm(hav: Metric, p: Coord, cs: seq<Coord>): real
  {
    MinSegmentDistance(hav, p, cs, SegmentCount(cs))
  }

  /**
   * Minimum over all segments of the point-to-segment distance, then converted
   * from kilometres; with fewer than two positions the sentinel is converted.
   */
  method PointToLineDistance(hav: Metric, point: Coord, lineCoords: seq<Coord>, units: string) returns (r: real)
    ensures r == ConvertDistance(LineDistanceKm(hav, point, lineCoords), "km", units)
  {
    var minDistance := DoubleMax;
    var i := 0;
    while i < |lineCoords| - 1
      invariant i == 0 || i < |lineCoords|
      invariant i <= SegmentCount(lineCoords)
      invariant minDistance == MinSegmentDistance(hav, point, lineCoords, i)
    {
      var dist := PointToSegmentDistance(hav, point, lineCoords[i], lineCoords[i + 1]);
      if dist < minDistance {
        minDistance := dist;
      }
      i := i + 1;
    }
    assert i == SegmentCount(lineCoords);
    assert minDistance == LineDistanceKm(hav, point, lineCoords);
    r := ConvertDistance(minDistance, "km", units);
  }

  /** Sum of the great-circle distances of consecutive positions, in kilometres. */
  function PolylineLengthKm(hav: Metric, cs: seq<Coord>): (r: real)
    ensures r >= 0.0
    ensures |cs| < 2 ==> r == 0.0
    decreases |cs|
  {
    if |cs| < 2 then 0.0
    else PolylineLengthKm(hav, cs[..|cs| - 1]) + hav(cs[|cs| - 2], cs[|cs| - 1])
  }

  /** Splitting a polyline at a shared position splits its length. */
  lemma {:induction false} PolylineLengthSplit(hav: Metric, cs: seq<Coord>, k: nat)
    requires 0 < k <= |cs|
    ensures PolylineLengthKm(hav, cs) == PolylineLengthKm(hav, cs[..k]) + PolylineLengthKm(hav, cs[k - 1..])
    decreases |cs|
  {
    if k < |cs| {
      var n := |cs|;
      var init := cs[..n - 1];
      PolylineLengthSplit(hav, init, k);
      assert init[..k] == cs[..k];
      assert cs[k - 1..][..|cs[k - 1..]| - 1] == init[k - 1..];
    } else {
      assert |cs[k - 1..]| == 1;
      assert cs[..k] == cs;
    }
  }

  /** Length of a polyline in the requested unit, summed in kilometres and then converted. */
  method CalculateLineStringLength(hav: Metric, coordinates: seq<Coord>, units: string) returns (r: real)
    ensures r == ConvertDistance(PolylineLengthKm(hav, coordinates), "km", units)
  {
    var totalLength := 0.0;
    var i := 0;
    while i < |coordinates| - 1
      invariant i == 0 || i < |coordinates|
      invariant totalLength == PolylineLengthKm(hav, coordinates[..if |coordinates| == 0 then 0 else i + 1])
    {
      assert coordinates[..i + 2][..i + 1] == coordinates[..i + 1];
      totalLength := totalLength + hav(coordinates[i], coordinates[i + 1]);
      i := i + 1;
    }
    assert coordinates[..if |coordinates| == 0 then 0 else i + 1] == coordinates;
    r := ConvertDistance(totalLength, "km", units);
  }
}
