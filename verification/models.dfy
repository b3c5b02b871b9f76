/**
 * The GeoJSON shapes the route calculator reads and writes, reduced to the
 * fields the routing code looks at. A position (`double[]` in the source) is a
 * longitude/latitude pair of reals.
 */
module Models {

  /** A position: longitude first, latitude second, both in degrees. */
  datatype Coord = Coord(lon: real, lat: real)

  datatype Option<+T> = None | Some(value: T)

  /** The geometry of one feature of the network: its type tag and its positions. */
  datatype Geometry = Geometry(kind: string, coordinates: seq<Coord>)

  datatype Feature = Feature(geometry: Geometry)

  datatype FeatureCollection = FeatureCollection(features: seq<Feature>)

  /** A query point, as handed to the route calculator. */
  datatype PointGeometry = PointGeometry(kind: string, coordinates: Coord)

  datatype GeoJsonPoint = GeoJsonPoint(kind: string, geometry: PointGeometry)

  /** The route produced for a query: its geometry and its length in `units`. */
  datatype LineStringProperties = LineStringProperties(units: string, length: real)

  datatype LineStringGeometry = LineStringGeometry(kind: string, coordinates: seq<Coord>)

  datatype GeoJsonLineString = GeoJsonLineString(
    kind: string,
    properties: LineStringProperties,
    geometry: LineStringGeometry)
}
