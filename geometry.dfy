/** Points of path geometry, with exact real coordinates. */
module Geometry {

  datatype Point = Point(x: real, y: real)

  /** A subpath: the polyline of points that one subpath of a path visits, in order. */
  type Polyline = seq<Point>
}
