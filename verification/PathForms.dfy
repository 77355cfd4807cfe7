/** The two letter cases of a command list, and where a list is drawn. */
module PathForms {
  import opened Wrappers
  import opened Geometry
  import opened Analysis
  import opened Arc
  import opened PathCommands

  // ---- Relative and absolute forms ----

  function Minus(p: Point, q: Point): Point {
    Point(p.x - q.x, p.y - q.y)
  }

  /** A command's coordinates, taken from one origin and given from another. */
  function Rebased(c: Command, relative: bool, from: Point, to: Point): Command {
    match c
    case Move(_, p) => Move(relative, Minus(p.Plus(from), to))
    case Line(_, p) => Line(relative, Minus(p.Plus(from), to))
    case Horizontal(_, x) => Horizontal(relative, x + from.x - to.x)
    case Vertical(_, y) => Vertical(relative, y + from.y - to.y)
    case Cubic(_, first, second, p) =>
      Cubic(relative, Minus(first.Plus(from), to), Minus(second.Plus(from), to), Minus(p.Plus(from), to))
    case SmoothCubic(_, second, p) =>
      SmoothCubic(relative, Minus(second.Plus(from), to), Minus(p.Plus(from), to))
    case Quad(_, control, p) => Quad(relative, Minus(control.Plus(from), to), Minus(p.Plus(from), to))
    case SmoothQuad(_, p) => SmoothQuad(relative, Minus(p.Plus(from), to))
    case Elliptic(_, radii, rotation, largeArc, sweep, p) =>
      Elliptic(relative, radii, rotation, largeArc, sweep, Minus(p.Plus(from), to))
    case CloseSubpath(_) => CloseSubpath(relative)
  }

  function OriginOf(relative: bool, pen: Pen): Point {
    if relative then pen.current else ORIGIN
  }

  /** The same command in the letter case asked for. */
  function Recased(c: Command, relative: bool, pen: Pen): Command {
    Rebased(c, relative, OriginOf(c.relative, pen), OriginOf(relative, pen))
  }

  lemma RecasedDrawsTheSame(f: Functions, pen: Pen, c: Command, relative: bool)
    requires f.Lawful()
    ensures Draw(f, pen, Recased(c, relative, pen)) == Draw(f, pen, c)
    ensures Recased(c, relative, pen).relative == relative
  {
    hide ArcSegments, Functions.Lawful;
  }

  /** A whole list, each command put in the case asked for, against the point it is drawn from. */
  function RecasedAll(f: Functions, pen: Pen, commands: seq<Command>, cases: seq<bool>): seq<Command>
    requires f.Lawful() && |commands| == |cases|
    decreases |commands|
  {
    if commands == [] then []
    else
      var next := Draw(f, pen, commands[0]).pen;
      [Recased(commands[0], cases[0], pen)] + RecasedAll(f, next, commands[1..], cases[1..])
  }

  /** However the letter cases are chosen, the path is the same. */
  lemma {:induction false} CasesDrawTheSame(f: Functions, pen: Pen, commands: seq<Command>, cases: seq<bool>)
    requires f.Lawful() && |commands| == |cases|
    ensures |RecasedAll(f, pen, commands, cases)| == |commands|
    ensures forall i :: 0 <= i < |commands| ==> RecasedAll(f, pen, commands, cases)[i].relative == cases[i]
    ensures DrawAll(f, pen, RecasedAll(f, pen, commands, cases)) == DrawAll(f, pen, commands)
    decreases |commands|
  {
    hide Draw, Recased, Functions.Lawful;
    if commands != [] {
      var next := Draw(f, pen, commands[0]).pen;
      RecasedDrawsTheSame(f, pen, commands[0], cases[0]);
      CasesDrawTheSame(f, next, commands[1..], cases[1..]);
      var recased := RecasedAll(f, pen, commands, cases);
      assert recased[1..] == RecasedAll(f, next, commands[1..], cases[1..]);
    }
  }

  // ---- Translation ----

  function MovedControl(p: Option<Point>, v: Point): Option<Point> {
    match p
    case None => None
    case Some(q) => Some(q.Plus(v))
  }

  function MovedPen(pen: Pen, v: Point): Pen {
    Pen(pen.current.Plus(v), pen.subpathStart.Plus(v), MovedControl(pen.lastCubic, v), MovedControl(pen.lastQuad, v))
  }

  function MovedSegment(s: Segment, v: Point): Segment {
    match s
    case MoveTo(to) => MoveTo(to.Plus(v))
    case LineTo(to) => LineTo(to.Plus(v))
    case CurveTo(first, second, to) => CurveTo(first.Plus(v), second.Plus(v), to.Plus(v))
    case QuadTo(control, to) => QuadTo(control.Plus(v), to.Plus(v))
    case Close => Close
  }

  function MovedPath(path: seq<Segment>, v: Point): seq<Segment> {
    seq(|path|, i requires 0 <= i < |path| => MovedSegment(path[i], v))
  }

  /** Only absolute coordinates say where a path is. */
  function MovedCommand(c: Command, v: Point): Command {
    if c.relative then c else Rebased(c, false, v, ORIGIN)
  }

  function MovedCommands(commands: seq<Command>, v: Point): seq<Command> {
    seq(|commands|, i requires 0 <= i < |commands| => MovedCommand(commands[i], v))
  }

  function MovedEllipse(e: Ellipse, v: Point): Ellipse {
    e.(centre := e.centre.Plus(v))
  }

  lemma AlongMoves(from: Point, slope: Point, reach: real, v: Point)
    ensures Along(from.Plus(v), slope, reach) == Along(from, slope, reach).Plus(v)
  {
  }

  lemma TangentialMoves(e: Ellipse, c0: real, s0: real, c1: real, s1: real, handle: real, v: Point)
    ensures Tangential(MovedEllipse(e, v), c0, s0, c1, s1, handle)
         == MovedSegment(Tangential(e, c0, s0, c1, s1, handle), v)
  {
    hide PointAt, SlopeAt, Along;
    PointMoves(e, c0, s0, v);
    PointMoves(e, c1, s1, v);
    AlongMoves(PointAt(e, c0, s0), SlopeAt(e, c0, s0), handle, v);
    AlongMoves(PointAt(e, c1, s1), SlopeAt(e, c1, s1), -handle, v);
  }

  lemma PointMoves(e: Ellipse, cosine: real, sine: real, v: Point)
    ensures PointAt(MovedEllipse(e, v), cosine, sine) == PointAt(e, cosine, sine).Plus(v)
    ensures SlopeAt(MovedEllipse(e, v), cosine, sine) == SlopeAt(e, cosine, sine)
  {
  }

  lemma CubicsMove(f: Functions, swept: Swept, v: Point)
    requires f.pi > 0.0
    ensures Cubics(f, swept.(ellipse := MovedEllipse(swept.ellipse, v))) == MovedPath(Cubics(f, swept), v)
  {
    hide Tangential, StepCount, Advanced;
    var moved := swept.(ellipse := MovedEllipse(swept.ellipse, v));
    var steps := StepCount(f, swept.sweepAngle);
    forall i | 0 <= i < steps
      ensures Slice(f, moved, steps, i) == MovedSegment(Slice(f, swept, steps, i), v)
    {
      assert Step(moved, steps) == Step(swept, steps) && SliceAngle(moved, steps, i) == SliceAngle(swept, steps, i);
      var angle, step := SliceAngle(swept, steps, i), Step(swept, steps);
      TangentialMoves(swept.ellipse, f.cos(angle), f.sin(angle), f.cos(angle + step), f.sin(angle + step),
                      Handle(f, step), v);
    }
    hide Slice;
    assert |Cubics(f, moved)| == |MovedPath(Cubics(f, swept), v)|;
  }

  lemma ConversionMoves(f: Functions, fit: Fitted, start: Point, largeArc: bool, sweep: bool, end: Point, v: Point)
    requires fit.rx > 0.0 && fit.ry > 0.0 && fit.half != ORIGIN
    ensures var swept := Convert(f, fit, start, largeArc, sweep, end);
            Convert(f, fit, start.Plus(v), largeArc, sweep, end.Plus(v)) ==
            swept.(ellipse := MovedEllipse(swept.ellipse, v))
  {
    hide Coefficient, OwnCentre, Seen, AngleOf, Signed;
    assert (start.x + v.x + (end.x + v.x)) / 2.0 == (start.x + end.x) / 2.0 + v.x;
    assert (start.y + v.y + (end.y + v.y)) / 2.0 == (start.y + end.y) / 2.0 + v.y;
  }

  lemma ArcMoves(f: Functions, start: Point, radii: Point, rotation: real,
                 largeArc: bool, sweep: bool, end: Point, v: Point)
    requires f.Lawful()
    ensures ArcSegments(f, start.Plus(v), radii, rotation, largeArc, sweep, end.Plus(v))
         == MovedPath(ArcSegments(f, start, radii, rotation, largeArc, sweep, end), v)
  {
    if Drawable(start, radii, end) {
      FitMoves(f, start, radii, rotation, end, v);
      hide Fit, Convert, Cubics, MovedPath, Functions.Lawful;
      var fit := Fit(f, start, radii, rotation, end);
      ConversionMoves(f, fit, start, largeArc, sweep, end, v);
      CubicsMove(f, Convert(f, fit, start, largeArc, sweep, end), v);
    }
  }

  lemma ChordMoves(start: Point, end: Point, cosPhi: real, sinPhi: real, v: Point)
    ensures HalfChord(start.Plus(v), end.Plus(v), cosPhi, sinPhi) == HalfChord(start, end, cosPhi, sinPhi)
  {
    assert (start.x + v.x - (end.x + v.x)) / 2.0 == (start.x - end.x) / 2.0;
    assert (start.y + v.y - (end.y + v.y)) / 2.0 == (start.y - end.y) / 2.0;
  }

  lemma FitMoves(f: Functions, start: Point, radii: Point, rotation: real, end: Point, v: Point)
    requires f.Lawful() && Drawable(start, radii, end)
    ensures Drawable(start.Plus(v), radii, end.Plus(v))
    ensures Fit(f, start.Plus(v), radii, rotation, end.Plus(v)) == Fit(f, start, radii, rotation, end)
  {
    hide Grown, HalfChord, Functions.Lawful, Rotation;
    var phi := Rotation(f, rotation);
    ChordMoves(start, end, f.cos(phi), f.sin(phi), v);
  }

  ghost predicate Moves(f: Functions, pen: Pen, c: Command, v: Point)
    requires f.Lawful()
  {
    var drawn := Draw(f, pen, c);
    Draw(f, MovedPen(pen, v), MovedCommand(c, v)) == Drawn(MovedPen(drawn.pen, v), MovedPath(drawn.segments, v))
  }

  lemma StraightMoves(f: Functions, pen: Pen, c: Command, v: Point)
    requires f.Lawful() && (c.Move? || c.Line? || c.Horizontal? || c.Vertical? || c.CloseSubpath?)
    ensures Moves(f, pen, c, v)
  {
    hide ArcSegments, Functions.Lawful;
  }

  lemma CurveMoves(f: Functions, pen: Pen, c: Command, v: Point)
    requires f.Lawful() && (c.Cubic? || c.SmoothCubic? || c.Quad? || c.SmoothQuad?)
    ensures Moves(f, pen, c, v)
  {
    hide ArcSegments, Functions.Lawful;
  }

  lemma EllipticMoves(f: Functions, pen: Pen, c: Command, v: Point)
    requires f.Lawful() && c.Elliptic?
    ensures Moves(f, pen, c, v)
  {
    hide ArcSegments, MovedPath, Functions.Lawful;
    var end := c.to.Plus(OriginOf(c.relative, pen));
    ArcMoves(f, pen.current, c.radii, c.rotation, c.largeArc, c.sweep, end, v);
    assert end.Plus(v) == MovedCommand(c, v).to.Plus(OriginOf(c.relative, MovedPen(pen, v)));
  }

  lemma DrawMoves(f: Functions, pen: Pen, c: Command, v: Point)
    requires f.Lawful()
    ensures Moves(f, pen, c, v)
  {
    hide Moves, Functions.Lawful;
    if c.Elliptic? {
      EllipticMoves(f, pen, c, v);
    } else if c.Move? || c.Line? || c.Horizontal? || c.Vertical? || c.CloseSubpath? {
      StraightMoves(f, pen, c, v);
    } else {
      CurveMoves(f, pen, c, v);
    }
  }

  lemma {:induction false} DrawAllMoves(f: Functions, pen: Pen, commands: seq<Command>, v: Point)
    requires f.Lawful()
    ensures var drawn := DrawAll(f, pen, commands);
            DrawAll(f, MovedPen(pen, v), MovedCommands(commands, v)) ==
            Drawn(MovedPen(drawn.pen, v), MovedPath(drawn.segments, v))
    decreases |commands|
  {
    hide Draw, MovedPen, MovedCommand, MovedCommands, MovedPath, Functions.Lawful;
    ListsMove(commands, v);
    if commands == [] {
      PathsJoin([], [], v);
    } else {
      DrawMoves(f, pen, commands[0], v);
      var first := Draw(f, pen, commands[0]);
      DrawAllMoves(f, first.pen, commands[1..], v);
      PathsJoin(first.segments, DrawAll(f, first.pen, commands[1..]).segments, v);
    }
  }

  lemma ListsMove(commands: seq<Command>, v: Point)
    ensures |MovedCommands(commands, v)| == |commands|
    ensures commands != [] ==>
              && MovedCommands(commands, v)[0] == MovedCommand(commands[0], v)
              && MovedCommands(commands, v)[1..] == MovedCommands(commands[1..], v)
    ensures (forall i :: 0 <= i < |commands| ==> commands[i].relative) ==> MovedCommands(commands, v) == commands
  {
  }

  lemma PathsJoin(a: seq<Segment>, b: seq<Segment>, v: Point)
    ensures MovedPath(a + b, v) == MovedPath(a, v) + MovedPath(b, v)
    ensures MovedPath([], v) == []
  {
  }

  /** An absolute moveto starts afresh, wherever the pen was. */
  lemma MoveStartsAfresh(f: Functions, pen: Pen, start: Point, commands: seq<Command>)
    requires f.Lawful()
    ensures DrawAll(f, pen, [Move(false, start)] + commands) == DrawAll(f, START, [Move(false, start)] + commands)
  {
    hide Functions.Lawful;
    var whole := [Move(false, start)] + commands;
    assert Draw(f, pen, whole[0]) == Draw(f, START, whole[0]);
  }

  /** Moving a path's first moveto, and what else is absolute, moves the whole path, arcs and all. */
  lemma PathMoves(f: Functions, start: Point, commands: seq<Command>, v: Point)
    requires f.Lawful()
    ensures DrawAll(f, START, [Move(false, start.Plus(v))] + MovedCommands(commands, v)).segments
         == MovedPath(DrawAll(f, START, [Move(false, start)] + commands).segments, v)
    ensures (forall i :: 0 <= i < |commands| ==> commands[i].relative) ==> MovedCommands(commands, v) == commands
  {
    hide DrawAll, MovedPen, MovedCommands, MovedPath, Functions.Lawful;
    var whole := [Move(false, start)] + commands;
    DrawAllMoves(f, START, whole, v);
    ListsMove(whole, v);
    ListsMove(commands, v);
    assert whole[1..] == commands;
    assert MovedCommands(whole, v) == [Move(false, start.Plus(v))] + MovedCommands(commands, v);
    MoveStartsAfresh(f, MovedPen(START, v), start.Plus(v), MovedCommands(commands, v));
  }
}
