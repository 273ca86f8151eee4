/**
 * The geopy library as the services see it: a point on the globe and the
 * geodesic distance between two points. The ellipsoidal formula is not
 * modelled; every operation that measures a distance takes the distance
 * function as a parameter, and the only thing assumed about it is that it
 * never returns a negative number.
 */
module Geo {
  /** A (latitude, longitude) pair, in degrees. */
  datatype Point = Point(latitude: real, longitude: real)

  /** geodesic(a, b).km: the distance from a to b in kilometres. */
  type Geodesic = (Point, Point) -> real

  /** The assumption made about geodesic: a distance is never negative. */
  ghost predicate NonNegative(km: Geodesic) {
    forall a: Point, b: Point :: km(a, b) >= 0.0
  }

  /** geodesic(a, b).meters: the same distance in metres. */
  function Meters(km: Geodesic, a: Point, b: Point): (m: real)
    ensures NonNegative(km) ==> m >= 0.0
  {
    1000.0 * km(a, b)
  }
}
