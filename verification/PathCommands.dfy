/** What each path command draws, given where the pen is. */
module PathCommands {
  import opened Wrappers
  import opened Geometry
  import opened Analysis
  import opened Arc

  /** A command with its coordinates read. `relative` says they are offsets from the current point. */
  datatype Command =
    | Move(relative: bool, to: Point)
    | Line(relative: bool, to: Point)
    | Horizontal(relative: bool, x: real)
    | Vertical(relative: bool, y: real)
    | Cubic(relative: bool, first: Point, second: Point, to: Point)
    | SmoothCubic(relative: bool, second: Point, to: Point)
    | Quad(relative: bool, control: Point, to: Point)
    | SmoothQuad(relative: bool, to: Point)
    | Elliptic(relative: bool, radii: Point, rotation: real, largeArc: bool, sweep: bool, to: Point)
    | CloseSubpath(relative: bool)

  /** The current point, the subpath's start, and the control points a smooth curve would mirror. */
  datatype Pen = Pen(current: Point, subpathStart: Point, lastCubic: Option<Point>, lastQuad: Option<Point>)

  const START := Pen(ORIGIN, ORIGIN, None, None)

  datatype Drawn = Drawn(pen: Pen, segments: seq<Segment>)

  function Draw(f: Functions, pen: Pen, command: Command): Drawn
    requires f.Lawful()
  {
    var origin := if command.relative then pen.current else ORIGIN;
    match command
    case Move(_, to) =>
      var p := to.Plus(origin);
      Drawn(Pen(p, p, None, None), [MoveTo(p)])
    case Line(_, to) =>
      var p := to.Plus(origin);
      Drawn(Pen(p, pen.subpathStart, None, None), [LineTo(p)])
    case Horizontal(_, x) =>
      var p := Point(origin.x + x, pen.current.y);
      Drawn(Pen(p, pen.subpathStart, None, None), [LineTo(p)])
    case Vertical(_, y) =>
      var p := Point(pen.current.x, origin.y + y);
      Drawn(Pen(p, pen.subpathStart, None, None), [LineTo(p)])
    case Cubic(_, first, second, to) =>
      var p := to.Plus(origin);
      Drawn(Pen(p, pen.subpathStart, Some(second.Plus(origin)), None),
            [CurveTo(first.Plus(origin), second.Plus(origin), p)])
    case SmoothCubic(_, second, to) =>
      var p := to.Plus(origin);
      Drawn(Pen(p, pen.subpathStart, Some(second.Plus(origin)), None),
            [CurveTo(Reflect(pen.lastCubic, pen.current), second.Plus(origin), p)])
    case Quad(_, control, to) =>
      var p := to.Plus(origin);
      Drawn(Pen(p, pen.subpathStart, None, Some(control.Plus(origin))),
            [QuadTo(control.Plus(origin), p)])
    case SmoothQuad(_, to) =>
      var p := to.Plus(origin);
      var control := Reflect(pen.lastQuad, pen.current);
      Drawn(Pen(p, pen.subpathStart, None, Some(control)), [QuadTo(control, p)])
    case Elliptic(_, radii, rotation, largeArc, sweep, to) =>
      var p := to.Plus(origin);
      Drawn(Pen(p, pen.subpathStart, None, None),
            ArcSegments(f, pen.current, radii, rotation, largeArc, sweep, p))
    case CloseSubpath(_) =>
      Drawn(Pen(pen.subpathStart, pen.subpathStart, None, None), [Close])
  }

  /** A whole list of commands, one after another. */
  function DrawAll(f: Functions, pen: Pen, commands: seq<Command>): Drawn
    requires f.Lawful()
    decreases |commands|
  {
    if commands == [] then Drawn(pen, [])
    else
      var first := Draw(f, pen, commands[0]);
      var rest := DrawAll(f, first.pen, commands[1..]);
      Drawn(rest.pen, first.segments + rest.segments)
  }
}
