/** An arc as it is drawn, from its five arguments alone: on which ellipse, from where to where, by which curves. */
module ArcDrawn {
  import opened Geometry
  import opened Analysis
  import opened Algebra
  import opened Arc
  import opened ArcLaws
  import opened ArcCubics

  /** Half the chord from `end` to `start`, turned back by `phi`. */
  ghost predicate TurnedHalfChord(f: Functions, start: Point, end: Point, phi: real, half: Point) {
    && half.x == f.cos(phi) * ((start.x - end.x) / 2.0) + f.sin(phi) * ((start.y - end.y) / 2.0)
    && half.y == f.cos(phi) * ((start.y - end.y) / 2.0) - f.sin(phi) * ((start.x - end.x) / 2.0)
  }

  function InRadii(h: real, r: real): real
    requires r != 0.0
  {
    SquarePositive(r, r * r);
    (h * h) / (r * r)
  }

  /** How far that half chord reaches, in radii: up to 1 it fits the ellipse as asked for. */
  ghost predicate Reaches(half: Point, rx: real, ry: real, reach: real)
    requires rx != 0.0 && ry != 0.0
  {
    reach == InRadii(half.x, rx) + InRadii(half.y, ry)
  }

  lemma SizeRatio(h: real, r: real)
    requires r != 0.0
    ensures InRadii(h, r) == SquaredRatio(h, Abs(r))
  {
    SquarePositive(r, r * r);
    assert Abs(r) * Abs(r) == r * r;
  }

  lemma ReachIsOversize(half: Point, radii: Point, reach: real)
    requires radii.x != 0.0 && radii.y != 0.0 && Reaches(half, radii.x, radii.y, reach)
    ensures reach == Oversize(half, Abs(radii.x), Abs(radii.y))
  {
    hide SquaredRatio, InRadii;
    SizeRatio(half.x, radii.x);
    SizeRatio(half.y, radii.y);
  }

  lemma OversizeIsReach(half: Point, rx: real, ry: real, reach: real)
    requires rx > 0.0 && ry > 0.0 && reach == Oversize(half, rx, ry)
    ensures Reaches(half, rx, ry, reach)
  {
    hide SquaredRatio, InRadii;
    SizeRatio(half.x, rx);
    SizeRatio(half.y, ry);
  }

  /**
   The radii are the ones asked for; or, where those are too small, larger ones in the same
   proportion, on which the half chord lies exactly.
   */
  ghost predicate Spans(rx: real, ry: real, half: Point, asked: Point, reach: real) {
    && rx > 0.0 && ry > 0.0
    && (reach <= 1.0 ==> rx == asked.x && ry == asked.y)
    && (reach > 1.0 ==> rx * asked.y == ry * asked.x && Reaches(half, rx, ry, 1.0))
  }

  function Sizes(radii: Point): Point {
    Point(if radii.x < 0.0 then -radii.x else radii.x, if radii.y < 0.0 then -radii.y else radii.y)
  }

  lemma HalfIs(f: Functions, start: Point, end: Point, phi: real, half: Point)
    requires TurnedHalfChord(f, start, end, phi, half)
    ensures half == HalfChord(start, end, f.cos(phi), f.sin(phi))
  {
  }

  lemma FitIs(f: Functions, start: Point, radii: Point, rotation: real, end: Point, phi: real)
    requires f.Lawful() && Drawable(start, radii, end) && phi == Rotation(f, rotation)
    ensures var fit := Fit(f, start, radii, rotation, end);
            var half := HalfChord(start, end, f.cos(phi), f.sin(phi));
            && fit.cosPhi == f.cos(phi) && fit.sinPhi == f.sin(phi) && fit.half == half
            && Point(fit.rx, fit.ry) == Grown(f, half, Sizes(radii))
    ensures Short(f, start, radii, rotation, end) <==>
      Oversize(HalfChord(start, end, f.cos(phi), f.sin(phi)), Abs(radii.x), Abs(radii.y)) >= 1.0
  {
    hide Functions.Lawful, Oversize, Grown, HalfChord, Rotation;
  }

  lemma RotationIs(f: Functions, rotation: real, phi: real)
    requires phi == rotation * f.pi / 180.0
    ensures phi == Rotation(f, rotation)
  {
  }

  lemma GrownSpans(f: Functions, half: Point, asked: Point, reach: real)
    requires f.Lawful() && asked.x > 0.0 && asked.y > 0.0 && reach == Oversize(half, asked.x, asked.y)
    ensures var r := Grown(f, half, asked); Spans(r.x, r.y, half, asked, reach)
  {
    hide Functions.Lawful, Oversize, Grown, Reaches;
    GrownFits(f, half, asked);
    var r := Grown(f, half, asked);
    if reach > 1.0 {
      OversizeIsReach(half, r.x, r.y, 1.0);
    }
  }

  lemma FitSpans(f: Functions, start: Point, radii: Point, rotation: real, end: Point, phi: real, half: Point, reach: real)
    requires f.Lawful() && Drawable(start, radii, end) && phi == rotation * f.pi / 180.0
    requires TurnedHalfChord(f, start, end, phi, half) && Reaches(half, radii.x, radii.y, reach)
    ensures var fit := Fit(f, start, radii, rotation, end);
            && fit.cosPhi == f.cos(phi) && fit.sinPhi == f.sin(phi) && Spans(fit.rx, fit.ry, half, Sizes(radii), reach)
    ensures Short(f, start, radii, rotation, end) <==> reach >= 1.0
  {
    NonzeroRadii(start, radii, end);
    hide *;
    HalfIs(f, start, end, phi, half);
    ReachIsOversize(half, radii, reach);
    RotationIs(f, rotation, phi);
    FitIs(f, start, radii, rotation, end, phi);
    GrownSpans(f, half, Sizes(radii), reach);
  }

  lemma NonzeroRadii(start: Point, radii: Point, end: Point)
    requires Drawable(start, radii, end)
    ensures radii.x != 0.0 && radii.y != 0.0 && Sizes(radii).x == Abs(radii.x) > 0.0 && Sizes(radii).y == Abs(radii.y) > 0.0
  {
  }

  // ---- The curves ----

  lemma FewestOf(quarter: real, size: real, ratio: real, least: real, most: real)
    requires quarter > 0.0 && ratio * quarter == size && least < ratio <= most
    ensures least * quarter < size <= most * quarter
  {
    ProductPositive(ratio - least, quarter, (ratio - least) * quarter);
    NonnegativeProduct(most - ratio, quarter, (most - ratio) * quarter);
  }

  /** The fewest equal slices of at most a quarter turn. */
  lemma FewestSlices(f: Functions, sweepAngle: real, steps: int)
    requires f.pi > 0.0 && steps == StepCount(f, sweepAngle)
    ensures Fewest(f, sweepAngle, steps)
  {
    hide Abs;
    var quarter := f.pi / 2.0;
    var ratio := Abs(sweepAngle) / quarter;
    QuotientTimes(Abs(sweepAngle), quarter, ratio);
    FewestOf(quarter, Abs(sweepAngle), ratio, (steps - 1) as real, steps as real);
  }

  /** Where the `i`-th of `n` equal slices begins, and where it is halfway. */
  function Evenly(begin: real, turn: real, n: int, i: int): real
    requires n > 0
  {
    begin + i as real * (turn / n as real)
  }

  function HalfwayOn(begin: real, turn: real, n: int, i: int): real
    requires n > 0
  {
    Evenly(begin, turn, n, i) + turn / n as real / 2.0
  }

  /** Where the `i`-th curve begins and where it is halfway, on the ellipse; and it keeps to it. */
  ghost predicate TracesAt(f: Functions, e: Ellipse, begin: real, turn: real, start: Point, curves: seq<Segment>, i: int)
    requires 0 <= i < |curves| && Smooth(curves)
  {
    && Joint(start, curves, i) == PointOn(f, e, Evenly(begin, turn, |curves|, i))
    && BezierAt(Joint(start, curves, i), curves[i], 0.5) == PointOn(f, e, HalfwayOn(begin, turn, |curves|, i))
    && Near(e, Joint(start, curves, i), curves[i])
  }

  /** Curves that divide a sweep evenly, join smoothly on the ellipse, and keep to it. */
  ghost predicate Traces(f: Functions, e: Ellipse, begin: real, turn: real, start: Point, curves: seq<Segment>) {
    |curves| > 0 && Smooth(curves) && forall i :: 0 <= i < |curves| ==> TracesAt(f, e, begin, turn, start, curves, i)
  }

  lemma AdvancedBy(angle: real, step: real, other: real, i: int)
    requires step == other
    ensures Advanced(angle, step, i) == angle + i as real * other
  {
  }

  lemma EvenlyIs(swept: Swept, n: int, i: int)
    requires n > 0
    ensures SliceAngle(swept, n, i) == Evenly(swept.startAngle, swept.sweepAngle, n, i)
    ensures SliceAngle(swept, n, i) + Step(swept, n) / 2.0 == HalfwayOn(swept.startAngle, swept.sweepAngle, n, i)
  {
    hide Advanced;
    var step := swept.sweepAngle / n as real;
    AdvancedBy(swept.startAngle, Step(swept, n), step, i);
  }

  lemma FollowsAt(f: Functions, swept: Swept, start: Point, curves: seq<Segment>, end: Point, i: int)
    requires Follows(f, swept, start, curves, end) && 0 <= i < |curves|
    ensures Smooth(curves) && TracesAt(f, swept.ellipse, swept.startAngle, swept.sweepAngle, start, curves, i)
  {
    hide PointOn, Near, BezierAt, SliceAngle, Step, Evenly, HalfwayOn, Reflect;
    EvenlyIs(swept, |curves|, i);
  }

  lemma FollowsTraces(f: Functions, swept: Swept, start: Point, curves: seq<Segment>, end: Point)
    requires Follows(f, swept, start, curves, end)
    ensures Traces(f, swept.ellipse, swept.startAngle, swept.sweepAngle, start, curves)
  {
    EndsAt(f, swept, start, curves, end);
    hide Follows, TracesAt, Smooth;
    forall i | 0 <= i < |curves|
      ensures TracesAt(f, swept.ellipse, swept.startAngle, swept.sweepAngle, start, curves, i)
    {
      FollowsAt(f, swept, start, curves, end, i);
    }
  }

  lemma EndsAt(f: Functions, swept: Swept, start: Point, curves: seq<Segment>, end: Point)
    requires Follows(f, swept, start, curves, end)
    ensures |curves| > 0 && Smooth(curves) && curves[|curves| - 1].CurveTo? && curves[|curves| - 1].to == end
  {
    hide PointOn, Near, BezierAt, SliceAngle, Step;
  }

  /** A point of an ellipse, coordinate by coordinate. */
  ghost predicate At(f: Functions, e: Ellipse, angle: real, p: Point) {
    && p.x == e.centre.x + e.cosPhi * (e.rx * f.cos(angle)) - e.sinPhi * (e.ry * f.sin(angle))
    && p.y == e.centre.y + e.sinPhi * (e.rx * f.cos(angle)) + e.cosPhi * (e.ry * f.sin(angle))
  }

  lemma PointIsAt(f: Functions, e: Ellipse, angle: real)
    ensures At(f, e, angle, PointOn(f, e, angle))
  {
  }

  /** Where the flags send the sweep: `reach` tells whether the radii leave them a choice. */
  ghost predicate Sweeps(f: Functions, turn: real, reach: real, largeArc: bool, sweep: bool) {
    && (if sweep then 0.0 < turn < 2.0 * f.pi else -2.0 * f.pi < turn < 0.0)
    && (if reach < 1.0 then Abs(turn) != f.pi && (Abs(turn) > f.pi <==> largeArc) else Abs(turn) == f.pi)
  }

  lemma SweptSweeps(f: Functions, start: Point, radii: Point, rotation: real, largeArc: bool, sweep: bool, end: Point, reach: real)
    requires f.Lawful() && Drawable(start, radii, end) && (Short(f, start, radii, rotation, end) <==> reach >= 1.0)
    ensures var s := Convert(f, Fit(f, start, radii, rotation, end), start, largeArc, sweep, end);
            Sweeps(f, s.sweepAngle, reach, largeArc, sweep)
  {
    hide Functions.Lawful, Fit, Convert, Short;
    FlagsChooseTheSweep(f, start, radii, rotation, largeArc, sweep, end);
  }

  lemma SweptMeets(f: Functions, start: Point, radii: Point, rotation: real, largeArc: bool, sweep: bool, end: Point)
    requires f.Lawful() && Drawable(start, radii, end)
    ensures var s := Convert(f, Fit(f, start, radii, rotation, end), start, largeArc, sweep, end);
            At(f, s.ellipse, s.startAngle, start) && At(f, s.ellipse, s.startAngle + s.sweepAngle, end)
  {
    hide *;
    FitUsable(f, start, radii, rotation, end);
    var s := Convert(f, Fit(f, start, radii, rotation, end), start, largeArc, sweep, end);
    ArcMeetsItsEnds(f, start, radii, rotation, largeArc, sweep, end);
    PointIsAt(f, s.ellipse, s.startAngle);
    PointIsAt(f, s.ellipse, s.startAngle + s.sweepAngle);
  }

  /**
   Sections F.6.2, F.6.5 and F.6.6: an arc past its guard lies on the ellipse of its radii turned by
   its rotation in degrees, grown only where they are too small and then just enough; it runs from
   its start to its end the way the sweep flag says, by more than a half turn as the large-arc flag
   says; and it is drawn by the fewest equal slices of at most a quarter turn.
   */
  lemma ArcIsDrawn(f: Functions, start: Point, radii: Point, rotation: real, largeArc: bool, sweep: bool, end: Point,
                   phi: real, half: Point, reach: real)
    returns (e: Ellipse, begin: real, turn: real)
    requires f.Lawful() && radii.x != 0.0 && radii.y != 0.0 && start != end && phi == rotation * f.pi / 180.0
    requires TurnedHalfChord(f, start, end, phi, half) && Reaches(half, radii.x, radii.y, reach)
    ensures e.cosPhi == f.cos(phi) && e.sinPhi == f.sin(phi) && Spans(e.rx, e.ry, half, Sizes(radii), reach)
    ensures At(f, e, begin, start) && At(f, e, begin + turn, end)
    ensures Sweeps(f, turn, reach, largeArc, sweep)
    ensures Drawing(f, e, begin, turn, start, ArcSegments(f, start, radii, rotation, largeArc, sweep, end), end)
  {
    assert Drawable(start, radii, end);
    hide *;
    FitSpans(f, start, radii, rotation, end, phi, half, reach);
    FitUsable(f, start, radii, rotation, end);
    var fit := Fit(f, start, radii, rotation, end);
    var s := Convert(f, fit, start, largeArc, sweep, end);
    e, begin, turn := s.ellipse, s.startAngle, s.sweepAngle;
    ConvertKeeps(f, fit, start, largeArc, sweep, end);
    SweptMeets(f, start, radii, rotation, largeArc, sweep, end);
    SweptSweeps(f, start, radii, rotation, largeArc, sweep, end, reach);
    DrawnCurves(f, start, radii, rotation, largeArc, sweep, end);
  }

  lemma FitUsable(f: Functions, start: Point, radii: Point, rotation: real, end: Point)
    requires f.Lawful() && Drawable(start, radii, end)
    ensures var fit := Fit(f, start, radii, rotation, end); fit.rx > 0.0 && fit.ry > 0.0 && fit.half != ORIGIN
  {
    hide Fit;
  }

  lemma ConvertKeeps(f: Functions, fit: Fitted, start: Point, largeArc: bool, sweep: bool, end: Point)
    requires fit.rx > 0.0 && fit.ry > 0.0 && fit.half != ORIGIN
    ensures var e := Convert(f, fit, start, largeArc, sweep, end).ellipse;
            e.rx == fit.rx && e.ry == fit.ry && e.cosPhi == fit.cosPhi && e.sinPhi == fit.sinPhi
  {
    hide Coefficient, OwnCentre, Seen, AngleOf, Signed;
  }

  /** A sweep of an ellipse drawn by the fewest equal slices of at most a quarter turn. */
  ghost predicate Drawing(f: Functions, e: Ellipse, begin: real, turn: real, start: Point, curves: seq<Segment>, end: Point) {
    && Traces(f, e, begin, turn, start, curves)
    && curves[|curves| - 1].CurveTo? && curves[|curves| - 1].to == end
    && 1 <= |curves| <= 4 && Fewest(f, turn, |curves|)
  }

  ghost predicate Fewest(f: Functions, turn: real, n: int) {
    (n - 1) as real * (f.pi / 2.0) < Abs(turn) <= n as real * (f.pi / 2.0)
  }

  lemma DrawnCurves(f: Functions, start: Point, radii: Point, rotation: real, largeArc: bool, sweep: bool, end: Point)
    requires f.Lawful() && Drawable(start, radii, end)
    ensures var s := Convert(f, Fit(f, start, radii, rotation, end), start, largeArc, sweep, end);
            Drawing(f, s.ellipse, s.startAngle, s.sweepAngle, start,
                    ArcSegments(f, start, radii, rotation, largeArc, sweep, end), end)
  {
    hide *;
    PiAbove(f);
    FitUsable(f, start, radii, rotation, end);
    var s := Convert(f, Fit(f, start, radii, rotation, end), start, largeArc, sweep, end);
    var curves := ArcSegments(f, start, radii, rotation, largeArc, sweep, end);
    ArcIsSmoothCubics(f, start, radii, rotation, largeArc, sweep, end);
    FollowsTraces(f, s, start, curves, end);
    EndsAt(f, s, start, curves, end);
    FewestSlices(f, s.sweepAngle, StepCount(f, s.sweepAngle));
    CubicsCounted(f, s);
    SegmentsAreCubics(f, start, radii, rotation, largeArc, sweep, end);
    DrawingIs(f, s.ellipse, s.startAngle, s.sweepAngle, start, curves, end);
  }

  lemma SegmentsAreCubics(f: Functions, start: Point, radii: Point, rotation: real, largeArc: bool, sweep: bool, end: Point)
    requires f.Lawful() && f.pi > 0.0 && Drawable(start, radii, end)
    requires var fit := Fit(f, start, radii, rotation, end); fit.rx > 0.0 && fit.ry > 0.0 && fit.half != ORIGIN
    ensures ArcSegments(f, start, radii, rotation, largeArc, sweep, end) ==
      Cubics(f, Convert(f, Fit(f, start, radii, rotation, end), start, largeArc, sweep, end))
  {
    hide Functions.Lawful, Fit, Convert, Cubics;
  }

  lemma DrawingIs(f: Functions, e: Ellipse, begin: real, turn: real, start: Point, curves: seq<Segment>, end: Point)
    requires Traces(f, e, begin, turn, start, curves) && |curves| > 0 && curves[|curves| - 1].CurveTo? && curves[|curves| - 1].to == end
    requires |curves| <= 4 && Fewest(f, turn, |curves|)
    ensures Drawing(f, e, begin, turn, start, curves, end)
  {
    hide Traces, Fewest;
  }

  lemma PiAbove(f: Functions)
    requires f.Lawful()
    ensures f.pi > 0.0
  {
  }

  lemma CubicsCounted(f: Functions, swept: Swept)
    requires f.pi > 0.0
    ensures Cubics(f, swept) == [] || |Cubics(f, swept)| == StepCount(f, swept.sweepAngle)
  {
    hide StepCount, Slice;
  }

  /** No arc from a point to itself; a straight line where a radius is zero. */
  lemma DegenerateArcs(f: Functions, start: Point, radii: Point, rotation: real, largeArc: bool, sweep: bool, end: Point)
    requires f.Lawful()
    ensures start == end ==> ArcSegments(f, start, radii, rotation, largeArc, sweep, end) == []
    ensures start != end && (radii.x == 0.0 || radii.y == 0.0) ==>
      ArcSegments(f, start, radii, rotation, largeArc, sweep, end) == [LineTo(end)]
  {
  }

  /** The rotation is in degrees, turning the first axis towards the second. */
  lemma RightAngles(f: Functions)
    requires f.Lawful()
    ensures f.cos(0.0 * f.pi / 180.0) == 1.0 && f.sin(0.0 * f.pi / 180.0) == 0.0
    ensures f.cos(90.0 * f.pi / 180.0) == 0.0 && f.sin(90.0 * f.pi / 180.0) == 1.0
    ensures f.cos(-90.0 * f.pi / 180.0) == 0.0 && f.sin(-90.0 * f.pi / 180.0) == -1.0
  {
    var a, zero := f.pi / 2.0, 0.0;
    assert 0.0 * f.pi / 180.0 == zero && 90.0 * f.pi / 180.0 == a && -90.0 * f.pi / 180.0 == -a && -zero == zero;
    CosineOfQuarter(f);
    assert f.ParityAt(zero) && f.ParityAt(a) && f.SignAt(zero) && f.SignAt(a) && f.CircleAt(zero) && f.CircleAt(a);
    hide Functions.Lawful;
    UnitSquare(f.cos(zero));
    UnitSquare(f.sin(a));
  }

  lemma UnitSquare(x: real)
    ensures x > 0.0 && x * x == 1.0 ==> x == 1.0
  {
    assert (x - 1.0) * (x + 1.0) == x * x - 1.0;
  }
}
