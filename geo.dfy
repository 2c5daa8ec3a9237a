/**
 * Geographic values and the geometric primitives the trail graph is built
 * on. The distance functions and the map-rectangle tests come from
 * CoreLocation and MapKit; the model takes them as parameters, bundled in
 * one `Geometry` value, and assumes of them only what their types say.
 */
module Geo {
  import Vectors

  /** A latitude/longitude pair; equal only when both fields are equal. */
  datatype Coordinate = Coordinate(latitude: real, longitude: real)

  /** A track point: a coordinate and its elevation. */
  datatype CoordinateWithElevation = CoordinateWithElevation(coordinate: Coordinate, elevation: real)

  /** A distance in metres. */
  type Distance = r: real | r >= 0.0

  /** A directed segment (source, destination) of the graph. */
  datatype Segment = Segment(source: Coordinate, destination: Coordinate)

  /**
   * The map rectangle spanned by a segment's endpoints and grown on every
   * side by `padding` map points (zero for the plain union of the two
   * endpoint rectangles).
   */
  datatype Box = Box(corner1: Coordinate, corner2: Coordinate, padding: real)

  /** The primitives the graph code takes from CoreLocation and MapKit. */
  datatype Geometry = Geometry(
    /** `Coordinate.distance(to:)` between two coordinates. */
    distance: (Coordinate, Coordinate) -> Distance,
    /** `Coordinate.distance(to:)` between a coordinate and a segment. */
    segmentDistance: (Coordinate, Segment) -> Distance,
    /** `MKMapPointsPerMeterAtLatitude`. */
    pointsPerMeter: real -> real,
    /** `box.contains(MKMapPoint(coordinate))`. */
    contains: (Box, Coordinate) -> bool,
    /** `box.intersects(rect)` where rect is the bounding map rectangle of a track's polygon. */
    intersectsTrack: (Box, seq<Coordinate>) -> bool)

  /** A coordinate as a vector: x is the longitude and y the latitude. */
  function AsVector(c: Coordinate): (v: Vectors.Vec)
    ensures v.x == c.longitude && v.y == c.latitude
  {
    Vectors.Vec(c.longitude, c.latitude)
  }

  /** The coordinate of a vector, `Coordinate(x:y:)`. */
  function FromVector(v: Vectors.Vec): (c: Coordinate)
    ensures c.latitude == v.y && c.longitude == v.x
  {
    Coordinate(v.y, v.x)
  }

  /** The two views of a coordinate are inverse to each other. */
  lemma VectorRoundTrip(c: Coordinate, v: Vectors.Vec)
    ensures FromVector(AsVector(c)) == c
    ensures AsVector(FromVector(v)) == v
  {
  }
}
