/** The values a path is made of, and the mutable path the reader draws into. */
module Geometry {
  import opened Wrappers

  datatype Point = Point(x: real, y: real) {
    function Plus(offset: Point): Point {
      Point(x + offset.x, y + offset.y)
    }
  }

  const ORIGIN := Point(0.0, 0.0)

  datatype Segment =
    | MoveTo(to: Point)
    | LineTo(to: Point)
    | CurveTo(control1: Point, control2: Point, to: Point)
    | QuadTo(control: Point, to: Point)
    | Close

  /** The mirror of `control` through `point`; with no control it is the point itself. */
  function Reflect(control: Option<Point>, point: Point): Point {
    match control
    case None => point
    case Some(c) => Point(2.0 * point.x - c.x, 2.0 * point.y - c.y)
  }

  /** A path under construction, shared by reference between the reader and the arc writer. */
  class MutablePath {
    var segments: seq<Segment>

    constructor ()
      ensures segments == []
    {
      segments := [];
    }

    method Add(segment: Segment)
      modifies this
      ensures segments == old(segments) + [segment]
    {
      segments := segments + [segment];
    }
  }
}
