/** What every run of the reader keeps: its running point is where the drawn path stands. */
module PathRuns {
  import opened Geometry
  import opened Analysis
  import opened Arc
  import opened ArcCubics
  import opened Bytes
  import opened PathScanner
  import opened PathCommands
  import opened PathReader

  /** Where a path stands, read off its segments: its end, and the start of its open subpath. */
  datatype Trace = Trace(at: Point, start: Point)

  function Traced(t: Trace, s: Segment): Trace {
    match s
    case MoveTo(to) => Trace(to, to)
    case LineTo(to) => Trace(to, t.start)
    case CurveTo(_, _, to) => Trace(to, t.start)
    case QuadTo(_, to) => Trace(to, t.start)
    case Close => Trace(t.start, t.start)
  }

  function TracedAll(t: Trace, path: seq<Segment>): Trace {
    if path == [] then t else Traced(TracedAll(t, path[..|path| - 1]), path[|path| - 1])
  }

  lemma {:induction false} TraceJoins(t: Trace, first: seq<Segment>, second: seq<Segment>)
    ensures TracedAll(t, first + second) == TracedAll(TracedAll(t, first), second)
  {
    hide Traced;
    if second == [] {
      assert first + second == first;
    } else {
      var last := |second| - 1;
      assert (first + second)[..|first + second| - 1] == first + second[..last];
      TraceJoins(t, first, second[..last]);
    }
  }

  lemma {:induction false} StartStays(t: Trace, curves: seq<Segment>)
    requires forall i :: 0 <= i < |curves| ==> curves[i].CurveTo?
    ensures TracedAll(t, curves) == if curves == [] then t else Trace(curves[|curves| - 1].to, t.start)
  {
    if curves != [] {
      StartStays(t, curves[..|curves| - 1]);
    }
  }

  lemma OneTraced(t: Trace, s: Segment)
    ensures TracedAll(t, [s]) == Traced(t, s) && TracedAll(t, []) == t
  {
    assert [s][..0] == [];
  }

  function PenTrace(pen: Pen): Trace {
    Trace(pen.current, pen.subpathStart)
  }

  lemma ArcTraces(f: Functions, t: Trace, radii: Point, rotation: real, largeArc: bool, sweep: bool, end: Point)
    requires f.Lawful()
    ensures TracedAll(t, ArcSegments(f, t.at, radii, rotation, largeArc, sweep, end)) == Trace(end, t.start)
  {
    var curves := ArcSegments(f, t.at, radii, rotation, largeArc, sweep, end);
    if Drawable(t.at, radii, end) {
      ArcIsSmoothCubics(f, t.at, radii, rotation, largeArc, sweep, end);
      hide ArcSegments, Convert, Fit, PointOn, BezierAt, Near, Traced, TracedAll, Functions.Lawful;
      StartStays(t, curves);
    } else if t.at != end {
      OneTraced(t, LineTo(end));
    }
  }

  /** Whatever a command draws ends where it leaves the pen. */
  lemma DrawTraces(f: Functions, pen: Pen, c: Command)
    requires f.Lawful()
    ensures var drawn := Draw(f, pen, c); TracedAll(PenTrace(pen), drawn.segments) == PenTrace(drawn.pen)
  {
    hide ArcSegments, TracedAll, Functions.Lawful;
    var drawn := Draw(f, pen, c);
    if c.Elliptic? {
      ArcTraces(f, PenTrace(pen), c.radii, c.rotation, c.largeArc, c.sweep, drawn.pen.current);
    } else {
      OneTraced(PenTrace(pen), drawn.segments[0]);
    }
  }

  /** The running point and the subpath's start agree with the path drawn so far. */
  ghost predicate InStep(c: Config) {
    TracedAll(PenTrace(START), c.path) == PenTrace(c.pen)
  }

  lemma TurnKeepsInStep(f: Functions, c: Config)
    requires f.Lawful() && InStep(c) && Turn(f, c).Some?
    ensures InStep(Turn(f, c).value)
  {
    hide Draw, CommandAt, AfterNumbers, Functions.Lawful, TracedAll;
    var letter := CommandIn(c.rest);
    var l := if letter.value.Some? then letter.value.value else c.repeated.value;
    if IsCommand(l) {
      var read := CommandAt(l, letter.rest);
      DrawTraces(f, c.pen, read.value);
      TraceJoins(PenTrace(START), c.path, Draw(f, c.pen, read.value).segments);
    }
  }

  /** After any number of turns, the next command starts where the path drawn so far ends. */
  lemma {:induction false} ReaderInStep(f: Functions, c: Config, turns: nat)
    requires f.Lawful() && InStep(c)
    ensures After(f, c, turns).Some? ==> InStep(After(f, c, turns).value)
    decreases turns
  {
    hide Turn, InStep, Functions.Lawful;
    if turns > 0 && Turn(f, c).Some? {
      TurnKeepsInStep(f, c);
      ReaderInStep(f, Turn(f, c).value, turns - 1);
    }
  }

  lemma BeginsInStep(data: seq<Byte>)
    ensures InStep(Begin(data))
  {
  }

  /** On any bytes, after any number of turns, the path drawn so far ends at the running point. */
  lemma DataReadInStep(f: Functions, data: seq<Byte>, turns: nat)
    requires f.Lawful() && After(f, Begin(data), turns).Some?
    ensures var c := After(f, Begin(data), turns).value;
            TracedAll(Trace(ORIGIN, ORIGIN), c.path) == Trace(c.pen.current, c.pen.subpathStart)
  {
    BeginsInStep(data);
    ReaderInStep(f, Begin(data), turns);
  }

  // ---- Smooth joints ----

  predicate Midway(p: Point, a: Point, b: Point) {
    a.x + b.x == 2.0 * p.x && a.y + b.y == 2.0 * p.y
  }

  /** A smooth curve goes on along the tangent of a curve of its own kind, and after anything else starts from the point itself. */
  lemma SmoothGoesOn(f: Functions, pen: Pen, first: Command, second: Command)
    requires f.Lawful()
    ensures var a := Draw(f, pen, first); var b := Draw(f, a.pen, second);
            && (second.SmoothCubic? ==>
                  if first.Cubic? || first.SmoothCubic? then Midway(a.pen.current, a.segments[0].control2, b.segments[0].control1)
                  else b.segments[0].control1 == a.pen.current)
            && (second.SmoothQuad? ==>
                  if first.Quad? || first.SmoothQuad? then Midway(a.pen.current, a.segments[0].control, b.segments[0].control)
                  else b.segments[0].control == a.pen.current)
  {
    hide ArcSegments, Functions.Lawful;
  }
}
