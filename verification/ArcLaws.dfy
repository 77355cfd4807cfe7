/** What the converted arc is: section F.6.5's centre, section F.6.2's flags, and the cubics' fit. */
module ArcLaws {
  import opened Geometry
  import opened Analysis
  import opened Algebra
  import opened Arc

  // ---- The fitted radii ----

  /** The chord is too long for the radii as given, or exactly as long as they reach. */
  ghost predicate Short(f: Functions, start: Point, radii: Point, rotation: real, end: Point)
    requires radii.x != 0.0 && radii.y != 0.0
  {
    var phi := Rotation(f, rotation);
    Oversize(HalfChord(start, end, f.cos(phi), f.sin(phi)), Abs(radii.x), Abs(radii.y)) >= 1.0
  }

  ghost predicate Fits(fit: Fitted, start: Point, end: Point) {
    && fit.rx > 0.0 && fit.ry > 0.0 && fit.half != ORIGIN
    && Oversize(fit.half, fit.rx, fit.ry) <= 1.0
    && fit.cosPhi * fit.half.x - fit.sinPhi * fit.half.y == (start.x - end.x) / 2.0
    && fit.sinPhi * fit.half.x + fit.cosPhi * fit.half.y == (start.y - end.y) / 2.0
  }

  lemma FitFits(f: Functions, start: Point, radii: Point, rotation: real, end: Point)
    requires f.Lawful() && Drawable(start, radii, end)
    ensures var fit := Fit(f, start, radii, rotation, end);
            && Fits(fit, start, end)
            && (Oversize(fit.half, fit.rx, fit.ry) == 1.0 <==> Short(f, start, radii, rotation, end))
  {
    var phi := Rotation(f, rotation);
    assert f.CircleAt(phi);
    hide Functions.Lawful, Grown, Oversize, HalfChord, Rotation;
    var half := HalfChord(start, end, f.cos(phi), f.sin(phi));
    RotationUndone(start, end, f.cos(phi), f.sin(phi));
    GrownFits(f, half, Point(Abs(radii.x), Abs(radii.y)));
  }

  // ---- The coefficient ----
  // Dividing the ellipse's own axes by its radii turns the half chord into a vector (a, b) whose
  // squared length is the oversize, and the centre into k * (b, -a).

  lemma UnitChord(half: Point, rx: real, ry: real) returns (a: real, b: real)
    requires rx > 0.0 && ry > 0.0 && half != ORIGIN
    ensures half.x == a * rx && half.y == b * ry
    ensures Oversize(half, rx, ry) == a * a + b * b > 0.0
  {
    a, b := half.x / rx, half.y / ry;
    QuotientTimes(half.x, rx, a);
    QuotientTimes(half.y, ry, b);
    QuotientSquare(half.x, rx, a);
    QuotientSquare(half.y, ry, b);
    SquaresPositive(a, b, a * a + b * b);
  }

  lemma AreaPositive(rx: real, ry: real)
    requires rx > 0.0 && ry > 0.0
    ensures rx * rx * ry * ry > 0.0
  {
    ProductPositive(rx, rx, rx * rx);
    ProductPositive(rx * rx, ry, rx * rx * ry);
    ProductPositive(rx * rx * ry, ry, rx * rx * ry * ry);
  }

  lemma Scaled(half: Point, rx: real, ry: real, a: real, b: real)
    requires half.x == a * rx && half.y == b * ry
    ensures Denominator(half, rx, ry) == rx * rx * ry * ry * (a * a + b * b)
    ensures Numerator(half, rx, ry) == rx * rx * ry * ry * (1.0 - (a * a + b * b))
  {
  }

  lemma Cancelled(area: real, span: real, n: real, d: real) returns (ratio: real)
    requires area > 0.0 && d > 0.0 && 0.0 < span <= 1.0
    requires n == area * (1.0 - span) && d == area * span
    ensures n >= 0.0 && ratio == n / d >= 0.0
    ensures ratio * span == 1.0 - span
  {
    ratio := n / d;
    QuotientIs(n, d, (1.0 - span) / span);
  }

  /** The clamp at zero never bites: what it clamps is an area times one minus the oversize. */
  lemma CoefficientRatio(half: Point, rx: real, ry: real)
    requires rx > 0.0 && ry > 0.0 && half != ORIGIN && Oversize(half, rx, ry) <= 1.0
    ensures Numerator(half, rx, ry) >= 0.0 && Denominator(half, rx, ry) > 0.0
    ensures var ratio := Numerator(half, rx, ry) / Denominator(half, rx, ry);
            && ratio >= 0.0
            && ratio * Oversize(half, rx, ry) == 1.0 - Oversize(half, rx, ry)
  {
    hide Oversize, Numerator, Denominator;
    var a, b := UnitChord(half, rx, ry);
    DenominatorPositive(half, rx, ry);
    AreaPositive(rx, ry);
    Scaled(half, rx, ry, a, b);
    var ratio := Cancelled(rx * rx * ry * ry, a * a + b * b, Numerator(half, rx, ry), Denominator(half, rx, ry));
  }

  /** The size of the coefficient puts the ends on the ellipse; its sign is the flags'. */
  lemma CoefficientLaw(f: Functions, half: Point, rx: real, ry: real, largeArc: bool, sweep: bool)
    requires f.Lawful() && rx > 0.0 && ry > 0.0 && half != ORIGIN && Oversize(half, rx, ry) <= 1.0
    ensures var k, span := Coefficient(f, half, rx, ry, largeArc, sweep), Oversize(half, rx, ry);
            && k * k * span == 1.0 - span
            && (if largeArc == sweep then k <= 0.0 else k >= 0.0)
  {
    CoefficientRatio(half, rx, ry);
    var ratio := Numerator(half, rx, ry) / Denominator(half, rx, ry);
    assert f.SqrtAt(ratio);
    SignedSquare(f.sqrt(ratio), ratio);
  }

  lemma SignedSquare(root: real, ratio: real)
    requires root * root == ratio
    ensures (-1.0 * root) * (-1.0 * root) == ratio && (1.0 * root) * (1.0 * root) == ratio
  {
  }

  // ---- The ends, seen from the centre ----

  lemma UnitEnds(half: Point, rx: real, ry: real, k: real, a: real, b: real, own: Point)
    requires rx > 0.0 && ry > 0.0 && half.x == a * rx && half.y == b * ry
    requires own == OwnCentre(half, rx, ry, k)
    ensures Seen(own, rx, ry, half.x, half.y) == Point(a - k * b, b + k * a)
    ensures Seen(own, rx, ry, -half.x, -half.y) == Point(-a - k * b, -b + k * a)
  {
    QuotientIs(k * rx * half.y, ry, rx * (k * b));
    QuotientIs(-k * ry * half.x, rx, ry * (-(k * a)));
    QuotientIs(half.x - own.x, rx, a - k * b);
    QuotientIs(half.y - own.y, ry, b + k * a);
    QuotientIs(-half.x - own.x, rx, -a - k * b);
    QuotientIs(-half.y - own.y, ry, -b + k * a);
  }

  function Cross(p: Point, q: Point): real {
    p.x * q.y - p.y * q.x
  }

  predicate OnUnitCircle(p: Point) {
    p.x * p.x + p.y * p.y == 1.0
  }

  lemma UnitIdentities(a: real, b: real, k: real, span: real, p: Point, q: Point)
    requires p == Point(a - k * b, b + k * a) && q == Point(-a - k * b, -b + k * a)
    requires span == a * a + b * b && k * k * span == 1.0 - span
    ensures OnUnitCircle(p) && OnUnitCircle(q)
    ensures Cross(p, q) == 2.0 * (k * span)
  {
  }

  /** Both ends lie on the unit circle, and their cross product is twice the coefficient's share. */
  lemma EndsOnUnitCircle(half: Point, rx: real, ry: real, k: real)
    requires rx > 0.0 && ry > 0.0 && half != ORIGIN
    requires k * k * Oversize(half, rx, ry) == 1.0 - Oversize(half, rx, ry)
    ensures var own := OwnCentre(half, rx, ry, k);
            var p, q := Seen(own, rx, ry, half.x, half.y), Seen(own, rx, ry, -half.x, -half.y);
            && OnUnitCircle(p) && OnUnitCircle(q)
            && Cross(p, q) == 2.0 * (k * Oversize(half, rx, ry))
            && Oversize(half, rx, ry) > 0.0
  {
    var a, b := UnitChord(half, rx, ry);
    var own := OwnCentre(half, rx, ry, k);
    UnitEnds(half, rx, ry, k, a, b, own);
    UnitIdentities(a, b, k, Oversize(half, rx, ry),
                   Seen(own, rx, ry, half.x, half.y), Seen(own, rx, ry, -half.x, -half.y));
  }

  lemma EndsDiffer(half: Point, own: Point, rx: real, ry: real)
    requires rx > 0.0 && ry > 0.0 && half != ORIGIN
    ensures Seen(own, rx, ry, half.x, half.y) != Seen(own, rx, ry, -half.x, -half.y)
  {
    var p, q := Seen(own, rx, ry, half.x, half.y), Seen(own, rx, ry, -half.x, -half.y);
    QuotientTimes(half.x - own.x, rx, p.x);
    QuotientTimes(-half.x - own.x, rx, q.x);
    QuotientTimes(half.y - own.y, ry, p.y);
    QuotientTimes(-half.y - own.y, ry, q.y);
  }

  // ---- The conversion ----

  ghost function Own(f: Functions, fit: Fitted, largeArc: bool, sweep: bool): Point
    requires fit.rx > 0.0 && fit.ry > 0.0 && fit.half != ORIGIN
  {
    OwnCentre(fit.half, fit.rx, fit.ry, Coefficient(f, fit.half, fit.rx, fit.ry, largeArc, sweep))
  }

  /** The start and the end of an arc, as unit vectors from its centre. */
  ghost function UnitStart(f: Functions, fit: Fitted, largeArc: bool, sweep: bool): Point
    requires fit.rx > 0.0 && fit.ry > 0.0 && fit.half != ORIGIN
  {
    Seen(Own(f, fit, largeArc, sweep), fit.rx, fit.ry, fit.half.x, fit.half.y)
  }

  ghost function UnitEnd(f: Functions, fit: Fitted, largeArc: bool, sweep: bool): Point
    requires fit.rx > 0.0 && fit.ry > 0.0 && fit.half != ORIGIN
  {
    Seen(Own(f, fit, largeArc, sweep), fit.rx, fit.ry, -fit.half.x, -fit.half.y)
  }

  /** `angle` lies in one turn and stands at `p` on the unit circle. */
  ghost predicate Stands(f: Functions, angle: real, p: Point) {
    -f.pi < angle <= f.pi && f.cos(angle) == p.x && f.sin(angle) == p.y
  }

  lemma AngleStands(f: Functions, p: Point)
    requires f.Lawful() && OnUnitCircle(p)
    ensures Stands(f, AngleOf(f, p), p)
  {
    assert f.PolarAt(p.y, p.x);
  }

  /** Section F.6.5: the cross product of the unit ends has the sign of the flags' disagreement. */
  lemma UnitEndsLaw(f: Functions, fit: Fitted, start: Point, largeArc: bool, sweep: bool, end: Point)
    requires f.Lawful() && Fits(fit, start, end)
    ensures var p, q := UnitStart(f, fit, largeArc, sweep), UnitEnd(f, fit, largeArc, sweep);
            && OnUnitCircle(p) && OnUnitCircle(q) && p != q
            && (Oversize(fit.half, fit.rx, fit.ry) == 1.0 ==> Cross(p, q) == 0.0)
            && (Oversize(fit.half, fit.rx, fit.ry) < 1.0 ==>
                  Cross(p, q) != 0.0 && (Cross(p, q) > 0.0 <==> largeArc != sweep))
  {
    var k := Coefficient(f, fit.half, fit.rx, fit.ry, largeArc, sweep);
    var span := Oversize(fit.half, fit.rx, fit.ry);
    CoefficientLaw(f, fit.half, fit.rx, fit.ry, largeArc, sweep);
    EndsOnUnitCircle(fit.half, fit.rx, fit.ry, k);
    EndsDiffer(fit.half, Own(f, fit, largeArc, sweep), fit.rx, fit.ry);
    ShareSign(k, span);
  }

  lemma ShareSign(k: real, span: real)
    requires 0.0 < span <= 1.0 && k * k * span == 1.0 - span
    ensures span == 1.0 ==> k * span == 0.0
    ensures span < 1.0 ==> (k > 0.0 <==> k * span > 0.0) && (k < 0.0 <==> k * span < 0.0) && k != 0.0
  {
    if span == 1.0 && k != 0.0 {
      SquarePositive(k, k * k);
    }
    if k > 0.0 {
      ProductPositive(k, span, k * span);
    } else if k < 0.0 {
      ProductPositive(-k, span, -k * span);
    }
  }

  // ---- Both ends lie on the ellipse ----

  /** Turning a point of the ellipse's own axes back into the drawing. */
  lemma OnEllipse(f: Functions, e: Ellipse, angle: real, own: Point, x: real, y: real, mid: Point)
    requires e.rx > 0.0 && e.ry > 0.0 && Stands(f, angle, Seen(own, e.rx, e.ry, x, y))
    requires e.centre.x == e.cosPhi * own.x - e.sinPhi * own.y + mid.x
    requires e.centre.y == e.sinPhi * own.x + e.cosPhi * own.y + mid.y
    ensures PointOn(f, e, angle)
         == Point(e.cosPhi * x - e.sinPhi * y + mid.x, e.sinPhi * x + e.cosPhi * y + mid.y)
  {
    var p := Seen(own, e.rx, e.ry, x, y);
    QuotientTimes(x - own.x, e.rx, p.x);
    QuotientTimes(y - own.y, e.ry, p.y);
  }

  lemma EndsOnEllipse(f: Functions, fit: Fitted, start: Point, largeArc: bool, sweep: bool, end: Point)
    requires f.Lawful() && Fits(fit, start, end)
    ensures var e := Convert(f, fit, start, largeArc, sweep, end).ellipse;
            && PointOn(f, e, AngleOf(f, UnitStart(f, fit, largeArc, sweep))) == start
            && PointOn(f, e, AngleOf(f, UnitEnd(f, fit, largeArc, sweep))) == end
  {
    UnitEndsLaw(f, fit, start, largeArc, sweep, end);
    AngleStands(f, UnitStart(f, fit, largeArc, sweep));
    AngleStands(f, UnitEnd(f, fit, largeArc, sweep));
    StartOnEllipse(f, fit, start, largeArc, sweep, end);
    EndOnEllipse(f, fit, start, largeArc, sweep, end);
  }

  lemma StartOnEllipse(f: Functions, fit: Fitted, start: Point, largeArc: bool, sweep: bool, end: Point)
    requires Fits(fit, start, end)
    requires var p := UnitStart(f, fit, largeArc, sweep); Stands(f, AngleOf(f, p), p)
    ensures var e := Convert(f, fit, start, largeArc, sweep, end).ellipse;
            PointOn(f, e, AngleOf(f, UnitStart(f, fit, largeArc, sweep))) == start
  {
    OnEllipse(f, Convert(f, fit, start, largeArc, sweep, end).ellipse,
              AngleOf(f, UnitStart(f, fit, largeArc, sweep)), Own(f, fit, largeArc, sweep),
              fit.half.x, fit.half.y, Point((start.x + end.x) / 2.0, (start.y + end.y) / 2.0));
  }

  lemma EndOnEllipse(f: Functions, fit: Fitted, start: Point, largeArc: bool, sweep: bool, end: Point)
    requires Fits(fit, start, end)
    requires var q := UnitEnd(f, fit, largeArc, sweep); Stands(f, AngleOf(f, q), q)
    ensures var e := Convert(f, fit, start, largeArc, sweep, end).ellipse;
            PointOn(f, e, AngleOf(f, UnitEnd(f, fit, largeArc, sweep))) == end
  {
    OnEllipse(f, Convert(f, fit, start, largeArc, sweep, end).ellipse,
              AngleOf(f, UnitEnd(f, fit, largeArc, sweep)), Own(f, fit, largeArc, sweep),
              -fit.half.x, -fit.half.y, Point((start.x + end.x) / 2.0, (start.y + end.y) / 2.0));
  }

  // ---- The sweep ----

  lemma SineOfDifference(f: Functions, a: real, b: real)
    requires f.Lawful()
    ensures f.sin(b - a) == f.sin(b) * f.cos(a) - f.cos(b) * f.sin(a)
  {
    assert f.SumAt(b, -a) && f.ParityAt(a);
    assert b + (-a) == b - a;
  }

  lemma SineOfHalfTurn(f: Functions)
    requires f.Lawful()
    ensures f.sin(f.pi) == 0.0
  {
    assert f.PeriodAt(f.pi, -f.pi, 1) && f.ParityAt(f.pi);
    assert -f.pi + 2.0 * f.pi * 1 as real == f.pi;
  }

  /** Within one turn, the sine says on which side of the half turn an angle is. */
  lemma SineSide(f: Functions, d: real)
    requires f.Lawful() && 0.0 < d < 2.0 * f.pi
    ensures d < f.pi <==> f.sin(d) > 0.0
    ensures d == f.pi <==> f.sin(d) == 0.0
  {
    SineOfHalfTurn(f);
    assert f.SignAt(d);
    if d > f.pi {
      var back := 2.0 * f.pi - d;
      assert f.SignAt(back) && f.ParityAt(back) && f.PeriodAt(d, -back, 1);
      assert -back + 2.0 * f.pi * 1 as real == d;
    }
  }

  lemma OddSine(f: Functions, a: real)
    requires f.Lawful()
    ensures f.sin(-a) == -f.sin(a)
  {
    assert f.ParityAt(a);
  }

  /** The signed sweep ends where the end's own angle does, with the same sine. */
  lemma SignedTurn(f: Functions, e: Ellipse, startAngle: real, endAngle: real, sweep: bool)
    requires f.Lawful()
    ensures var d := Signed(f, sweep, endAngle - startAngle);
            && f.sin(d) == f.sin(endAngle - startAngle)
            && PointOn(f, e, startAngle + d) == PointOn(f, e, endAngle)
  {
    var difference := endAngle - startAngle;
    var d := Signed(f, sweep, difference);
    if d == difference {
      assert startAngle + d == endAngle;
    } else {
      var k := if sweep then 1 else -1;
      assert d == difference + 2.0 * f.pi * k as real;
      assert f.PeriodAt(d, difference, k) && f.PeriodAt(startAngle + d, endAngle, k);
      assert startAngle + d == endAngle + 2.0 * f.pi * k as real;
    }
  }

  /** Sections F.6.5 and F.6.6: the ellipse found passes through both ends of the arc. */
  lemma ArcMeetsItsEnds(f: Functions, start: Point, radii: Point, rotation: real,
                        largeArc: bool, sweep: bool, end: Point)
    requires f.Lawful() && Drawable(start, radii, end)
    ensures var s := Convert(f, Fit(f, start, radii, rotation, end), start, largeArc, sweep, end);
            && PointOn(f, s.ellipse, s.startAngle) == start
            && PointOn(f, s.ellipse, s.startAngle + s.sweepAngle) == end
  {
    FitFits(f, start, radii, rotation, end);
    var fit := Fit(f, start, radii, rotation, end);
    EndsOnEllipse(f, fit, start, largeArc, sweep, end);
    var s := Convert(f, fit, start, largeArc, sweep, end);
    SignedTurn(f, s.ellipse, s.startAngle, AngleOf(f, UnitEnd(f, fit, largeArc, sweep)), sweep);
  }

  /** Section F.6.2: the sweep goes the sweep flag's way, and past a half turn exactly for a large arc. */
  lemma FlagsChooseTheSweep(f: Functions, start: Point, radii: Point, rotation: real,
                            largeArc: bool, sweep: bool, end: Point)
    requires f.Lawful() && Drawable(start, radii, end)
    ensures var s := Convert(f, Fit(f, start, radii, rotation, end), start, largeArc, sweep, end);
            && (if sweep then 0.0 < s.sweepAngle < 2.0 * f.pi else -2.0 * f.pi < s.sweepAngle < 0.0)
            && (Abs(s.sweepAngle) == f.pi <==> Short(f, start, radii, rotation, end))
            && (!Short(f, start, radii, rotation, end) ==> (Abs(s.sweepAngle) > f.pi <==> largeArc))
  {
    hide Functions.Lawful, Fit, Short, Oversize, OnUnitCircle;
    FitFits(f, start, radii, rotation, end);
    var fit := Fit(f, start, radii, rotation, end);
    UnitEndsLaw(f, fit, start, largeArc, sweep, end);
    var p, q := UnitStart(f, fit, largeArc, sweep), UnitEnd(f, fit, largeArc, sweep);
    var a, b := AngleOf(f, p), AngleOf(f, q);
    AngleStands(f, p);
    AngleStands(f, q);
    SineOfDifference(f, a, b);
    var s := Convert(f, fit, start, largeArc, sweep, end);
    SignedTurn(f, s.ellipse, a, b, sweep);
    assert f.sin(s.sweepAngle) == Cross(p, q);
    OddSine(f, s.sweepAngle);
    SineSide(f, Abs(s.sweepAngle));
  }
}
