/**
 Elliptical arcs: the endpoint-to-centre conversion of SVG 1.1 sections F.6.5 and F.6.6, and the
 cubics that stand in for the swept ellipse.
 */
module Arc {
  import opened Geometry
  import opened Analysis
  import opened Algebra

  datatype Ellipse = Ellipse(centre: Point, rx: real, ry: real, cosPhi: real, sinPhi: real)

  /** A point on the rotated ellipse at a parametric angle. */
  function PointOn(f: Functions, e: Ellipse, angle: real): Point {
    PointAt(e, f.cos(angle), f.sin(angle))
  }

  function PointAt(e: Ellipse, cosine: real, sine: real): Point {
    var x := e.rx * cosine;
    var y := e.ry * sine;
    Point(e.centre.x + e.cosPhi * x - e.sinPhi * y, e.centre.y + e.sinPhi * x + e.cosPhi * y)
  }

  /** The ellipse's derivative there, the direction the Bezier handles take. */
  function SlopeAt(e: Ellipse, cosine: real, sine: real): Point {
    var dx := -e.rx * sine;
    var dy := e.ry * cosine;
    Point(e.cosPhi * dx - e.sinPhi * dy, e.sinPhi * dx + e.cosPhi * dy)
  }

  function Ceil(x: real): int {
    -((-x).Floor)
  }

  // ---- The conversion, step by step ----

  /** Half the chord from `end` to `start`, in the ellipse's own axes. */
  function HalfChord(start: Point, end: Point, cosPhi: real, sinPhi: real): Point {
    var halfDx := (start.x - end.x) / 2.0;
    var halfDy := (start.y - end.y) / 2.0;
    Point(cosPhi * halfDx + sinPhi * halfDy, -sinPhi * halfDx + cosPhi * halfDy)
  }

  /** How far the half chord reaches past an ellipse of these radii; above 1 it does not fit. */
  function Oversize(half: Point, rx: real, ry: real): real
    requires rx > 0.0 && ry > 0.0
  {
    SquaredRatio(half.x, rx) + SquaredRatio(half.y, ry)
  }

  function SquaredRatio(h: real, r: real): real
    requires r > 0.0
  {
    (h * h) / (r * r)
  }

  function Numerator(half: Point, rx: real, ry: real): real {
    rx * rx * ry * ry - rx * rx * half.y * half.y - ry * ry * half.x * half.x
  }

  function Denominator(half: Point, rx: real, ry: real): real {
    rx * rx * half.y * half.y + ry * ry * half.x * half.x
  }

  lemma DenominatorPositive(half: Point, rx: real, ry: real)
    requires rx > 0.0 && ry > 0.0 && half != ORIGIN
    ensures Denominator(half, rx, ry) > 0.0
  {
    if half.x != 0.0 {
      ProductNonzero(ry, half.x);
    } else {
      ProductNonzero(rx, half.y);
    }
    SquaresPositive(rx * half.y, ry * half.x, Denominator(half, rx, ry));
  }

  /** Rotating the half chord back gives the chord itself, so it is zero only with it. */
  lemma RotationUndone(start: Point, end: Point, cosPhi: real, sinPhi: real)
    requires cosPhi * cosPhi + sinPhi * sinPhi == 1.0
    ensures var h := HalfChord(start, end, cosPhi, sinPhi);
            && cosPhi * h.x - sinPhi * h.y == (start.x - end.x) / 2.0
            && sinPhi * h.x + cosPhi * h.y == (start.y - end.y) / 2.0
            && (start != end ==> h != ORIGIN)
  {
    var dx, dy := (start.x - end.x) / 2.0, (start.y - end.y) / 2.0;
    var h := HalfChord(start, end, cosPhi, sinPhi);
    var one := cosPhi * cosPhi + sinPhi * sinPhi;
    assert cosPhi * h.x - sinPhi * h.y == one * dx;
    assert sinPhi * h.x + cosPhi * h.y == one * dy;
  }

  function Coefficient(f: Functions, half: Point, rx: real, ry: real, largeArc: bool, sweep: bool): real
    requires rx > 0.0 && ry > 0.0 && half != ORIGIN
  {
    DenominatorPositive(half, rx, ry);
    var numerator := Numerator(half, rx, ry);
    var clamped := if numerator > 0.0 then numerator else 0.0;
    (if largeArc == sweep then -1.0 else 1.0) * f.sqrt(clamped / Denominator(half, rx, ry))
  }

  /** The centre of the ellipse in its own axes. */
  function OwnCentre(half: Point, rx: real, ry: real, coefficient: real): Point
    requires rx > 0.0 && ry > 0.0
  {
    Point(coefficient * rx * half.y / ry, -coefficient * ry * half.x / rx)
  }

  /** A point of the ellipse's own axes, seen from the centre and divided by the radii. */
  function Seen(own: Point, rx: real, ry: real, x: real, y: real): Point
    requires rx > 0.0 && ry > 0.0
  {
    Point((x - own.x) / rx, (y - own.y) / ry)
  }

  function AngleOf(f: Functions, unit: Point): real {
    f.atan2(unit.y, unit.x)
  }

  predicate Drawable(start: Point, radii: Point, end: Point) {
    radii.x != 0.0 && radii.y != 0.0 && start != end
  }

  /** Radii too small to span the chord are scaled up, together, until they exactly do. */
  function Grown(f: Functions, half: Point, radii: Point): (grown: Point)
    requires radii.x > 0.0 && radii.y > 0.0
  {
    var oversize := Oversize(half, radii.x, radii.y);
    if oversize > 1.0 then Point(radii.x * f.sqrt(oversize), radii.y * f.sqrt(oversize)) else radii
  }

  datatype Swept = Swept(ellipse: Ellipse, startAngle: real, sweepAngle: real)

  function Rotation(f: Functions, rotation: real): real {
    rotation * f.pi / 180.0
  }

  /** The half chord and radii that span it, in axes turned by the rotation. */
  datatype Fitted = Fitted(cosPhi: real, sinPhi: real, half: Point, rx: real, ry: real)

  function Fit(f: Functions, start: Point, radii: Point, rotation: real, end: Point): (fit: Fitted)
    requires f.Lawful() && Drawable(start, radii, end)
    ensures fit.rx > 0.0 && fit.ry > 0.0 && fit.half != ORIGIN
  {
    var phi := Rotation(f, rotation);
    var cosPhi, sinPhi := f.cos(phi), f.sin(phi);
    assert f.CircleAt(phi);
    var half := HalfChord(start, end, cosPhi, sinPhi);
    RotationUndone(start, end, cosPhi, sinPhi);
    var given := Point(Abs(radii.x), Abs(radii.y));
    GrownFits(f, half, given);
    var r := Grown(f, half, given);
    Fitted(cosPhi, sinPhi, half, r.x, r.y)
  }

  /** The ellipse the arc lies on, where it starts on it, and how far it goes round. */
  function Convert(f: Functions, fit: Fitted, start: Point, largeArc: bool, sweep: bool, end: Point): Swept
    requires fit.rx > 0.0 && fit.ry > 0.0 && fit.half != ORIGIN
  {
    var k := Coefficient(f, fit.half, fit.rx, fit.ry, largeArc, sweep);
    var own := OwnCentre(fit.half, fit.rx, fit.ry, k);
    var centre := Point(
      fit.cosPhi * own.x - fit.sinPhi * own.y + (start.x + end.x) / 2.0,
      fit.sinPhi * own.x + fit.cosPhi * own.y + (start.y + end.y) / 2.0);
    var startAngle := AngleOf(f, Seen(own, fit.rx, fit.ry, fit.half.x, fit.half.y));
    var endAngle := AngleOf(f, Seen(own, fit.rx, fit.ry, -fit.half.x, -fit.half.y));
    Swept(Ellipse(centre, fit.rx, fit.ry, fit.cosPhi, fit.sinPhi), startAngle,
          Signed(f, sweep, endAngle - startAngle))
  }

  /** The difference of two angles, moved by a turn when its sign is not the sweep flag's. */
  function Signed(f: Functions, sweep: bool, difference: real): real {
    if !sweep && difference > 0.0 then difference - 2.0 * f.pi
    else if sweep && difference < 0.0 then difference + 2.0 * f.pi
    else difference
  }

  // ---- The arc as cubics ----

  /**
   A curve between two points of the ellipse, given by their cosines and sines, whose handles run
   along the slopes there.
   */
  function Tangential(e: Ellipse, c0: real, s0: real, c1: real, s1: real, handle: real): Segment {
    var begin := PointAt(e, c0, s0);
    var to := PointAt(e, c1, s1);
    var fromSlope := SlopeAt(e, c0, s0);
    var toSlope := SlopeAt(e, c1, s1);
    CurveTo(Along(begin, fromSlope, handle), Along(to, toSlope, -handle), to)
  }

  function Along(from: Point, slope: Point, reach: real): Point {
    Point(from.x + reach * slope.x, from.y + reach * slope.y)
  }

  function Cubic(f: Functions, e: Ellipse, angle: real, step: real, handle: real): (curve: Segment)
    ensures curve.CurveTo?
  {
    Tangential(e, f.cos(angle), f.sin(angle), f.cos(angle + step), f.sin(angle + step), handle)
  }

  function StepCount(f: Functions, sweepAngle: real): int
    requires f.pi > 0.0
  {
    Ceil(Abs(sweepAngle) / (f.pi / 2.0))
  }

  /** The size of each of the equal slices a sweep is cut into, and where the `i`-th begins. */
  function Step(swept: Swept, steps: int): real
    requires steps > 0
  {
    swept.sweepAngle / steps as real
  }

  function SliceAngle(swept: Swept, steps: int, i: int): real
    requires steps > 0
  {
    Advanced(swept.startAngle, Step(swept, steps), i)
  }

  function Advanced(angle: real, step: real, i: int): real {
    angle + i as real * step
  }

  /** The circular-arc Bezier number, for a slice of this size. */
  function Handle(f: Functions, step: real): real {
    4.0 / 3.0 * f.tan(step / 4.0)
  }

  function Slice(f: Functions, swept: Swept, steps: int, i: int): Segment
    requires steps > 0
  {
    Cubic(f, swept.ellipse, SliceAngle(swept, steps, i), Step(swept, steps), Handle(f, Step(swept, steps)))
  }

  function Cubics(f: Functions, swept: Swept): seq<Segment>
    requires f.pi > 0.0
  {
    var steps := StepCount(f, swept.sweepAngle);
    if steps <= 0 then [] else seq(steps, i => Slice(f, swept, steps, i))
  }

  function ArcSegments(f: Functions, start: Point, radii: Point, rotation: real,
                       largeArc: bool, sweep: bool, end: Point): seq<Segment>
    requires f.Lawful()
  {
    if Drawable(start, radii, end) then
      Cubics(f, Convert(f, Fit(f, start, radii, rotation, end), start, largeArc, sweep, end))
    else if start != end then [LineTo(end)]
    else []
  }

  /** Appends one arc to `path`, as the reader draws it. */
  method AppendArc(f: Functions, path: MutablePath, start: Point, radii: Point, rotation: real,
                   largeArc: bool, sweep: bool, end: Point)
    requires f.Lawful()
    modifies path
    ensures path.segments == old(path.segments) + ArcSegments(f, start, radii, rotation, largeArc, sweep, end)
  {
    if !Drawable(start, radii, end) {
      if start != end {
        path.Add(LineTo(end));
      }
      return;
    }
    var fit := Fit(f, start, radii, rotation, end);
    AppendCubics(f, path, Convert(f, fit, start, largeArc, sweep, end));
  }

  lemma NextSlice(swept: Swept, steps: int, i: int)
    requires steps > 0
    ensures SliceAngle(swept, steps, i + 1) == SliceAngle(swept, steps, i) + Step(swept, steps)
    ensures SliceAngle(swept, steps, 0) == swept.startAngle
  {
    var step := Step(swept, steps);
    assert (i + 1) as real * step == i as real * step + step;
  }

  method AppendCubics(f: Functions, path: MutablePath, swept: Swept)
    requires f.pi > 0.0
    modifies path
    ensures path.segments == old(path.segments) + Cubics(f, swept)
  {
    var steps := StepCount(f, swept.sweepAngle);
    if steps <= 0 { return; }
    var step := Step(swept, steps);
    var handle := Handle(f, step);
    var angle := swept.startAngle;
    NextSlice(swept, steps, 0);
    for i := 0 to steps
      invariant angle == SliceAngle(swept, steps, i)
      invariant path.segments == old(path.segments) + Cubics(f, swept)[..i]
    {
      path.Add(Cubic(f, swept.ellipse, angle, step, handle));
      NextSlice(swept, steps, i);
      assert Cubics(f, swept)[..i + 1] == Cubics(f, swept)[..i] + [Slice(f, swept, steps, i)];
      angle := angle + step;
    }
    assert Cubics(f, swept)[..steps] == Cubics(f, swept);
  }

  // ---- Section F.6.6: the radii ----

  /** The grown radii keep their ratio, are never smaller, and span the chord. */
  lemma GrownFits(f: Functions, half: Point, radii: Point)
    requires f.Lawful() && radii.x > 0.0 && radii.y > 0.0
    ensures var r := Grown(f, half, radii);
            var before := Oversize(half, radii.x, radii.y);
            && r.x >= radii.x && r.y >= radii.y
            && r.x * radii.y == r.y * radii.x
            && (before <= 1.0 ==> r == radii)
            && Oversize(half, r.x, r.y) == (if before > 1.0 then 1.0 else before)
  {
    var before := Oversize(half, radii.x, radii.y);
    if before > 1.0 {
      assert f.SqrtAt(before);
      GrowthFits(half, radii, f.sqrt(before), Grown(f, half, radii));
    }
  }

  lemma GrowthFits(half: Point, radii: Point, growth: real, grown: Point)
    requires radii.x > 0.0 && radii.y > 0.0 && growth >= 0.0
    requires Oversize(half, radii.x, radii.y) > 1.0
    requires growth * growth == Oversize(half, radii.x, radii.y)
    requires grown.x == radii.x * growth && grown.y == radii.y * growth
    ensures grown.x >= radii.x && grown.y >= radii.y
    ensures grown.x * radii.y == grown.y * radii.x
    ensures Oversize(half, grown.x, grown.y) == 1.0
  {
    var square := Oversize(half, radii.x, radii.y);
    AtLeastOne(growth, square);
    ProductMonotone(1.0, growth, radii.x);
    ProductMonotone(1.0, growth, radii.y);
    ScaledSquare(half.x, radii.x, growth, grown.x, square);
    ScaledSquare(half.y, radii.y, growth, grown.y, square);
    Shares(SquaredRatio(half.x, radii.x), SquaredRatio(half.y, radii.y), square);
  }

  lemma AtLeastOne(growth: real, square: real)
    requires growth >= 0.0 && growth * growth == square && square > 1.0
    ensures growth >= 1.0
  {
    if growth < 1.0 {
      ProductMonotone(growth, 1.0, growth);
    }
  }

  lemma Shares(p: real, q: real, whole: real)
    requires p + q == whole && whole != 0.0
    ensures p / whole + q / whole == 1.0
  {
    QuotientSum(p, q, whole);
    QuotientIs(whole, whole, 1.0);
  }

  lemma ScaledSquare(h: real, r: real, g: real, grown: real, square: real)
    requires r > 0.0 && g > 0.0 && grown == r * g && square == g * g && square > 0.0
    ensures grown > 0.0
    ensures SquaredRatio(h, grown) == SquaredRatio(h, r) / square
  {
    ProductPositive(r, g, grown);
    SquarePositive(r, r * r);
    SquareOfProduct(r, g, grown);
    QuotientTwice(h * h, r * r, square);
  }
}
