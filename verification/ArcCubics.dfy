/** The cubics that stand in for an arc: how many, where they join, and how they fit. */
module ArcCubics {
  import opened Wrappers
  import opened Geometry
  import opened Analysis
  import opened Algebra
  import opened Arc
  import opened ArcLaws

  /** A sweep within one turn is cut into one to four slices of at most a quarter turn each. */
  lemma SliceCount(f: Functions, swept: Swept)
    requires f.pi > 0.0 && 0.0 < Abs(swept.sweepAngle) < 2.0 * f.pi
    ensures 1 <= StepCount(f, swept.sweepAngle) <= 4
    ensures Abs(Step(swept, StepCount(f, swept.sweepAngle))) <= f.pi / 2.0
  {
    var quarter := f.pi / 2.0;
    var ratio := Abs(swept.sweepAngle) / quarter;
    QuotientTimes(Abs(swept.sweepAngle), quarter, ratio);
    var steps := StepCount(f, swept.sweepAngle);
    Between(ratio, quarter, Abs(swept.sweepAngle));
    var step := Step(swept, steps);
    QuotientTimes(swept.sweepAngle, steps as real, step);
    Smaller(step, steps as real, ratio, quarter, swept.sweepAngle);
  }

  lemma Between(ratio: real, quarter: real, size: real)
    requires quarter > 0.0 && 0.0 < size < 4.0 * quarter && ratio * quarter == size
    ensures 0.0 < ratio < 4.0
  {
    if ratio <= 0.0 {
      ProductMonotone(ratio, 0.0, quarter);
    } else if ratio >= 4.0 {
      ProductMonotone(4.0, ratio, quarter);
    }
  }

  lemma Smaller(step: real, steps: real, ratio: real, quarter: real, sweep: real)
    requires steps >= ratio > 0.0 && quarter > 0.0
    requires step * steps == sweep && ratio * quarter == Abs(sweep)
    ensures Abs(step) <= quarter
  {
    var size := Abs(step);
    assert size * steps == Abs(sweep) by {
      if step >= 0.0 {
        ProductMonotone(0.0, step, steps);
      } else {
        ProductMonotone(step, 0.0, steps);
      }
    }
    if size > quarter {
      ProductMonotone(ratio, steps, quarter);
      ProductPositive(size - quarter, steps, (size - quarter) * steps);
    }
  }

  lemma LastSlice(swept: Swept, steps: int)
    requires steps > 0
    ensures SliceAngle(swept, steps, 0) == swept.startAngle
    ensures SliceAngle(swept, steps, steps) == swept.startAngle + swept.sweepAngle
  {
    QuotientTimes(swept.sweepAngle, steps as real, Step(swept, steps));
  }

  // ---- The fit of one slice ----

  /** One coordinate of a cubic Bezier curve, `t` of the way along it. */
  function Blend(p0: real, p1: real, p2: real, p3: real, t: real): real {
    Weighted(p0, p1, p2, p3, W0(t), W1(t), W2(t), W3(t))
  }

  function Weighted(p0: real, p1: real, p2: real, p3: real, a: real, b: real, c: real, d: real): real {
    a * p0 + b * p1 + c * p2 + d * p3
  }

  function W0(t: real): real {
    (1.0 - t) * (1.0 - t) * (1.0 - t)
  }

  function W1(t: real): real {
    3.0 * ((1.0 - t) * (1.0 - t) * t)
  }

  function W2(t: real): real {
    3.0 * ((1.0 - t) * t * t)
  }

  function W3(t: real): real {
    t * t * t
  }

  function BezierAt(begin: Point, curve: Segment, t: real): Point
    requires curve.CurveTo?
  {
    Point(Blend(begin.x, curve.control1.x, curve.control2.x, curve.to.x, t),
          Blend(begin.y, curve.control1.y, curve.control2.y, curve.to.y, t))
  }

  /** The handle's tangent is that of half the half-slice. */
  lemma HalfAngleTangent(f: Functions, h: real)
    requires f.Lawful() && Abs(h) <= f.pi / 4.0
    ensures f.tan(h / 2.0) * f.sin(h) == 1.0 - f.cos(h)
    ensures f.tan(h / 2.0) * (1.0 + f.cos(h)) == f.sin(h)
  {
    var q := h / 2.0;
    assert f.SignAt(q) && f.TangentAt(q) && f.CircleAt(q) && f.SumAt(q, q);
    assert q + q == h;
    HalfAngleIdentity(f.tan(q), f.sin(q), f.cos(q), f.sin(h), f.cos(h));
  }

  lemma HalfAngleIdentity(t: real, s: real, c: real, s2: real, c2: real)
    requires t * c == s && c * c + s * s == 1.0
    requires s2 == s * c + c * s && c2 == c * c - s * s
    ensures t * s2 == 1.0 - c2 && t * (1.0 + c2) == s2
  {
    assert t * s2 == 2.0 * (t * c) * s;
    assert 1.0 + c2 == 2.0 * (c * c);
    assert t * (2.0 * (c * c)) == 2.0 * (t * c) * c;
  }

  // ---- A blend of affine images is the affine image of the blends ----

  lemma WeightsSum(t: real)
    ensures W0(t) + W1(t) + W2(t) + W3(t) == 1.0
  {
  }

  lemma Expanded(k: real, p: real, q: real, x: real, y: real, a: real)
    ensures a * (k + p * x + q * y) == a * k + p * (a * x) + q * (a * y)
  {
  }

  lemma Gathered(k: real, a: real, b: real, c: real, d: real)
    requires a + b + c + d == 1.0
    ensures a * k + b * k + c * k + d * k == k
  {
    assert (a + b + c + d) * k == k;
  }

  lemma Scattered(p: real, x0: real, x1: real, x2: real, x3: real, a: real, b: real, c: real, d: real)
    ensures p * Weighted(x0, x1, x2, x3, a, b, c, d) == p * (a * x0) + p * (b * x1) + p * (c * x2) + p * (d * x3)
  {
  }

  lemma WeightedAffine(k: real, p: real, q: real, x0: real, x1: real, x2: real, x3: real, y0: real, y1: real, y2: real, y3: real,
                       z0: real, z1: real, z2: real, z3: real, a: real, b: real, c: real, d: real)
    requires a + b + c + d == 1.0
    requires z0 == k + p * x0 + q * y0 && z1 == k + p * x1 + q * y1 && z2 == k + p * x2 + q * y2 && z3 == k + p * x3 + q * y3
    ensures Weighted(z0, z1, z2, z3, a, b, c, d) ==
      k + p * Weighted(x0, x1, x2, x3, a, b, c, d) + q * Weighted(y0, y1, y2, y3, a, b, c, d)
  {
    Expanded(k, p, q, x0, y0, a);
    Expanded(k, p, q, x1, y1, b);
    Expanded(k, p, q, x2, y2, c);
    Expanded(k, p, q, x3, y3, d);
    Gathered(k, a, b, c, d);
    Scattered(p, x0, x1, x2, x3, a, b, c, d);
    Scattered(q, y0, y1, y2, y3, a, b, c, d);
  }

  lemma BlendAffine(k: real, p: real, q: real, x0: real, x1: real, x2: real, x3: real, y0: real, y1: real, y2: real, y3: real,
                    z0: real, z1: real, z2: real, z3: real, t: real)
    requires z0 == k + p * x0 + q * y0 && z1 == k + p * x1 + q * y1 && z2 == k + p * x2 + q * y2 && z3 == k + p * x3 + q * y3
    ensures Blend(z0, z1, z2, z3, t) == k + p * Blend(x0, x1, x2, x3, t) + q * Blend(y0, y1, y2, y3, t)
  {
    hide Weighted, W0, W1, W2, W3;
    WeightsSum(t);
    WeightedAffine(k, p, q, x0, x1, x2, x3, y0, y1, y2, y3, z0, z1, z2, z3, W0(t), W1(t), W2(t), W3(t));
  }

  // ---- On the unit circle ----

  /** The blend of a slice symmetric about the first axis, with `u` for t (1 - t). */
  lemma MiddleBlend(ch: real, sh: real, w: real, handle: real, t: real, u: real, a1: real, b1: real, b2: real)
    requires handle == 4.0 / 3.0 * w && w * sh == 1.0 - ch && w * (1.0 + ch) == sh && u == t * (1.0 - t)
    requires a1 == ch + handle * sh && b1 == -sh + handle * ch && b2 == sh - handle * ch
    ensures Blend(ch, a1, a1, ch, t) == ch + 4.0 * (u * (1.0 - ch))
    ensures Blend(-sh, b1, b2, sh, t) == (2.0 * t - 1.0) * (sh + 2.0 * (u * (w * (1.0 - ch))))
  {
    hide Blend;
    assert handle * sh == 4.0 / 3.0 * (1.0 - ch);
    MiddleCosine(ch, a1, t, u);
    assert w * ch == sh - w;
    assert handle * ch == 4.0 / 3.0 * (sh - w);
    MiddleSine(sh, handle * ch, t, u, b1, b2);
    Leftover(sh, w, 1.0 - ch, u);
  }

  lemma MiddleCosine(ch: real, a: real, t: real, u: real)
    requires u == t * (1.0 - t) && a == ch + 4.0 / 3.0 * (1.0 - ch)
    ensures Blend(ch, a, a, ch, t) == ch + 4.0 * (u * (1.0 - ch))
  {
    WeightsSum(t);
    InnerWeights(t, u);
    hide W0, W1, W2, W3;
    var q := 1.0 - ch;
    var inner := W1(t) + W2(t);
    assert inner * q == 3.0 * (u * q);
    assert (W0(t) + W1(t) + W2(t) + W3(t)) * ch == ch;
  }

  lemma InnerWeights(t: real, u: real)
    requires u == t * (1.0 - t)
    ensures W1(t) + W2(t) == 3.0 * u
    ensures W1(t) - W2(t) == -3.0 * (u * (2.0 * t - 1.0))
    ensures W3(t) - W0(t) == (2.0 * t - 1.0) * (1.0 - u)
  {
  }

  lemma MiddleSine(sh: real, k: real, t: real, u: real, b1: real, b2: real)
    requires u == t * (1.0 - t) && b1 == -sh + k && b2 == sh - k
    ensures Blend(-sh, b1, b2, sh, t) == (2.0 * t - 1.0) * (sh + 2.0 * (u * sh) - 3.0 * (u * k))
  {
    InnerWeights(t, u);
    hide W0, W1, W2, W3;
    var d := 2.0 * t - 1.0;
    assert (W3(t) - W0(t)) * sh == d * (sh - u * sh);
    assert (W1(t) - W2(t)) * (k - sh) == d * (3.0 * (u * sh) - 3.0 * (u * k));
  }

  lemma Leftover(sh: real, w: real, q: real, u: real)
    requires w * sh == q && w * (2.0 - q) == sh
    ensures sh + 2.0 * (u * sh) - 3.0 * (u * (4.0 / 3.0 * (sh - w))) == sh + 2.0 * (u * (w * q))
  {
    assert w * q == 2.0 * w - sh;
  }

  lemma CosineSquared(x: real, ch: real, u: real, q: real)
    requires x == ch + 4.0 * (u * q)
    ensures x * x == ch * ch + 8.0 * (ch * (u * q)) + 16.0 * ((u * u) * (q * q))
  {
    SquareOfSum(ch, 4.0 * (u * q));
  }

  lemma SineSquared(v: real, sh: real, q: real, u: real, g: real)
    requires g * sh == q * q && v == sh + 2.0 * (u * g)
    ensures v * v == sh * sh + 4.0 * (u * (q * q)) + 4.0 * ((u * u) * (g * g))
  {
    SquareOfSum(sh, 2.0 * (u * g));
    assert sh * (u * g) == u * (q * q);
  }

  /** How far the blend stands outside the circle, exactly: never inside it. */
  lemma Outside(ch: real, sh: real, w: real, q: real, u: real, d: real, g: real, v: real, x: real, y: real, hump: real)
    requires q == 1.0 - ch && w * sh == q && ch * ch + sh * sh == 1.0 && d * d == 1.0 - 4.0 * u
    requires g == w * q && v == sh + 2.0 * (u * g) && x == ch + 4.0 * (u * q) && y == d * v
    requires hump == (u * u) * (1.0 - 4.0 * u)
    ensures x * x + y * y - 1.0 == 4.0 * (g * g) * hump
  {
    assert g * sh == q * q;
    CosineSquared(x, ch, u, q);
    SineSquared(v, sh, q, u, g);
    SquareOfProduct(d, v, y);
    OutsideAlgebra(ch, sh * sh, q, u, g * g, x * x, v * v, y * y, hump);
  }

  lemma OutsideAlgebra(ch: real, s2: real, q: real, u: real, g2: real, x2: real, v2: real, y2: real, hump: real)
    requires q == 1.0 - ch && s2 == 1.0 - ch * ch
    requires x2 == ch * ch + 8.0 * (ch * (u * q)) + 16.0 * ((u * u) * (q * q))
    requires v2 == s2 + 4.0 * (u * (q * q)) + 4.0 * ((u * u) * g2) && y2 == (1.0 - 4.0 * u) * v2
    requires hump == (u * u) * (1.0 - 4.0 * u)
    ensures x2 + y2 - 1.0 == 4.0 * g2 * hump
  {
    assert 4.0 * g2 * hump == (1.0 - 4.0 * u) * (4.0 * ((u * u) * g2));
    assert s2 == q * (1.0 + ch);
  }

  lemma HumpIdentity(u: real, away: real, product: real)
    requires away == (u - 1.0 / 6.0) * (u - 1.0 / 6.0) && product == away * (u + 1.0 / 12.0)
    ensures (u * u) * (1.0 - 4.0 * u) == 1.0 / 108.0 - 4.0 * product
  {
  }

  lemma HumpBounded(u: real, hump: real)
    requires 0.0 <= u <= 0.25 && hump == (u * u) * (1.0 - 4.0 * u)
    ensures 0.0 <= hump <= 1.0 / 108.0
  {
    var away := (u - 1.0 / 6.0) * (u - 1.0 / 6.0);
    var product := away * (u + 1.0 / 12.0);
    SquareNonnegative(u - 1.0 / 6.0, away);
    HumpIdentity(u, away, product);
    NonnegativeProduct(away, u + 1.0 / 12.0, product);
    SquareNonnegative(u, u * u);
    NonnegativeProduct(u * u, 1.0 - 4.0 * u, hump);
  }

  lemma CosineOfQuarter(f: Functions)
    requires f.Lawful()
    ensures f.cos(f.pi / 2.0) == 0.0
  {
    var a := f.pi / 2.0;
    SineOfHalfTurn(f);
    assert f.SumAt(a, a) && f.SignAt(a);
    assert a + a == f.pi;
    var s, c := f.sin(a), f.cos(a);
    if c != 0.0 {
      ProductNonzero(s, c);
    }
  }

  /** Half a slice is at most an eighth of a turn, so its cosine is at least the square root of a half. */
  lemma CosineOfEighth(f: Functions, h: real)
    requires f.Lawful() && Abs(h) <= f.pi / 4.0
    ensures 0.7 <= f.cos(h) <= 1.0
  {
    var a, c, s := 2.0 * h, f.cos(h), f.sin(h);
    CosineOfQuarter(f);
    assert f.SignAt(a) && f.SignAt(h) && f.SumAt(h, h) && f.CircleAt(h) && f.ParityAt(f.pi / 2.0);
    hide Functions.Lawful;
    assert h + h == a;
    assert f.cos(a) >= 0.0;
    assert c > 0.0;
    SquareNonnegative(s, s * s);
    BetweenRoots(c);
  }

  lemma BetweenRoots(c: real)
    requires c > 0.0 && 0.5 <= c * c <= 1.0
    ensures 0.7 <= c <= 1.0
  {
    if c < 0.7 {
      ProductMonotone(c, 0.7, c);
    } else if c > 1.0 {
      ProductMonotone(1.0, c, c);
    }
  }

  lemma SwellBounded(c: real, sh: real, w: real, q: real, g: real, square: real)
    requires 0.7 <= c <= 1.0 && q == 1.0 - c && w * sh == q && w * (1.0 + c) == sh && g == w * q && square == g * g
    ensures 0.0 <= square <= 0.0162
  {
    SquareNonnegative(w, w * w);
    SquareNonnegative(g, square);
    SquareOfProduct(w, q, g);
    assert w * w * (1.0 + c) == q;
    TangentBounded(w * w, c, q);
    BothBounded(w * w, q, q * q, square);
  }

  lemma TangentBounded(w2: real, c: real, q: real)
    requires w2 >= 0.0 && c >= 0.7 && w2 * (1.0 + c) == q
    ensures 1.7 * w2 <= q
  {
    ProductMonotone(1.7, 1.0 + c, w2);
  }

  lemma BothBounded(w2: real, q: real, q2: real, square: real)
    requires 0.0 <= w2 && 1.7 * w2 <= q && 0.0 <= q <= 0.3 && q2 == q * q && square == w2 * q2
    ensures square <= 0.0162
  {
    NonnegativeProduct(q, 0.3 - q, 0.3 * q - q2);
    SquareNonnegative(q, q2);
    NonnegativeProduct(0.18 - w2, q2, 0.18 * q2 - square);
  }

  // ---- A slice and its ellipse ----

  const FIT := 1.0003

  /** On the unit circle, or outside it by no more than 0.03 per cent. */
  predicate WithinFit(c: real, s: real) {
    1.0 <= c * c + s * s <= FIT * FIT
  }

  /** Between the ellipse and one 0.03 per cent larger about the same centre. */
  ghost predicate Hugs(e: Ellipse, p: Point) {
    exists c, s :: p == PointAt(e, c, s) && WithinFit(c, s)
  }

  function Affine(k: real, p: real, q: real, c: real, s: real): real {
    k + p * c + q * s
  }

  /** The columns of an ellipse's affine map. */
  function AxisXX(e: Ellipse): real {
    e.cosPhi * e.rx
  }

  function AxisXY(e: Ellipse): real {
    -(e.sinPhi * e.ry)
  }

  function AxisYX(e: Ellipse): real {
    e.sinPhi * e.rx
  }

  function AxisYY(e: Ellipse): real {
    e.cosPhi * e.ry
  }

  lemma CoordinateIs(k: real, a: real, b: real, x: real, y: real, rx: real, ry: real, c: real, s: real, p: real, q: real)
    requires p == a * rx && q == b * ry && x == rx * c && y == ry * s
    ensures k + a * x + b * y == Affine(k, p, q, c, s)
  {
  }

  lemma PointX(e: Ellipse, c: real, s: real)
    ensures PointAt(e, c, s).x == Affine(e.centre.x, AxisXX(e), AxisXY(e), c, s)
  {
    hide Affine;
    CoordinateIs(e.centre.x, e.cosPhi, -e.sinPhi, e.rx * c, e.ry * s, e.rx, e.ry, c, s, AxisXX(e), AxisXY(e));
  }

  lemma PointY(e: Ellipse, c: real, s: real)
    ensures PointAt(e, c, s).y == Affine(e.centre.y, AxisYX(e), AxisYY(e), c, s)
  {
    hide Affine;
    CoordinateIs(e.centre.y, e.sinPhi, e.cosPhi, e.rx * c, e.ry * s, e.rx, e.ry, c, s, AxisYX(e), AxisYY(e));
  }

  lemma SlopeX(e: Ellipse, c: real, s: real)
    ensures SlopeAt(e, c, s).x == Affine(0.0, AxisXX(e), AxisXY(e), -s, c)
  {
    hide Affine;
    CoordinateIs(0.0, e.cosPhi, -e.sinPhi, -e.rx * s, e.ry * c, e.rx, e.ry, -s, c, AxisXX(e), AxisXY(e));
  }

  lemma SlopeY(e: Ellipse, c: real, s: real)
    ensures SlopeAt(e, c, s).y == Affine(0.0, AxisYX(e), AxisYY(e), -s, c)
  {
    hide Affine;
    CoordinateIs(0.0, e.sinPhi, e.cosPhi, -e.rx * s, e.ry * c, e.rx, e.ry, -s, c, AxisYX(e), AxisYY(e));
  }

  lemma Coordinates(e: Ellipse, c: real, s: real)
    ensures PointAt(e, c, s) == Point(Affine(e.centre.x, AxisXX(e), AxisXY(e), c, s),
                                      Affine(e.centre.y, AxisYX(e), AxisYY(e), c, s))
    ensures SlopeAt(e, c, s) == Point(Affine(0.0, AxisXX(e), AxisXY(e), -s, c),
                                      Affine(0.0, AxisYX(e), AxisYY(e), -s, c))
  {
    hide *;
    PointX(e, c, s);
    PointY(e, c, s);
    SlopeX(e, c, s);
    SlopeY(e, c, s);
  }

  lemma Turned(k: real, p: real, q: real, c: real, s: real, reach: real, c1: real, s1: real)
    requires c1 == c - reach * s && s1 == s + reach * c
    ensures Affine(k, p, q, c, s) + reach * Affine(0.0, p, q, -s, c) == Affine(k, p, q, c1, s1)
  {
    assert reach * (p * -s + q * c) == p * (reach * -s) + q * (reach * c);
  }

  lemma AlongIs(e: Ellipse, c: real, s: real, reach: real, c1: real, s1: real)
    requires c1 == c - reach * s && s1 == s + reach * c
    ensures Along(PointAt(e, c, s), SlopeAt(e, c, s), reach) == PointAt(e, c1, s1)
  {
    hide PointAt, SlopeAt, Affine, AxisXX, AxisXY, AxisYX, AxisYY;
    Coordinates(e, c, s);
    Coordinates(e, c1, s1);
    Turned(e.centre.x, AxisXX(e), AxisXY(e), c, s, reach, c1, s1);
    Turned(e.centre.y, AxisYX(e), AxisYY(e), c, s, reach, c1, s1);
  }

  lemma TangentialIs(e: Ellipse, c0: real, s0: real, c1: real, s1: real, c2: real, s2: real, c3: real, s3: real, handle: real)
    requires c1 == c0 - handle * s0 && s1 == s0 + handle * c0
    requires c2 == c3 + handle * s3 && s2 == s3 - handle * c3
    ensures Tangential(e, c0, s0, c3, s3, handle) == CurveTo(PointAt(e, c1, s1), PointAt(e, c2, s2), PointAt(e, c3, s3))
  {
    hide PointAt, SlopeAt, Along;
    AlongIs(e, c0, s0, handle, c1, s1);
    AlongIs(e, c3, s3, -handle, c2, s2);
  }

  lemma AffineBlend(k: real, p: real, q: real, c0: real, s0: real, c1: real, s1: real, c2: real, s2: real, c3: real, s3: real, t: real)
    ensures Blend(Affine(k, p, q, c0, s0), Affine(k, p, q, c1, s1), Affine(k, p, q, c2, s2), Affine(k, p, q, c3, s3), t) ==
      Affine(k, p, q, Blend(c0, c1, c2, c3, t), Blend(s0, s1, s2, s3, t))
  {
    hide Blend;
    BlendAffine(k, p, q, c0, c1, c2, c3, s0, s1, s2, s3, Affine(k, p, q, c0, s0), Affine(k, p, q, c1, s1),
                Affine(k, p, q, c2, s2), Affine(k, p, q, c3, s3), t);
  }

  /** An ellipse is an affine image of the unit circle, so it carries a curve's points along. */
  lemma AffineBezier(e: Ellipse, c0: real, s0: real, c1: real, s1: real, c2: real, s2: real, c3: real, s3: real, t: real)
    ensures BezierAt(PointAt(e, c0, s0), CurveTo(PointAt(e, c1, s1), PointAt(e, c2, s2), PointAt(e, c3, s3)), t) ==
      PointAt(e, Blend(c0, c1, c2, c3, t), Blend(s0, s1, s2, s3, t))
  {
    hide PointAt, SlopeAt, Blend, Affine, AxisXX, AxisXY, AxisYX, AxisYY;
    Coordinates(e, c0, s0);
    Coordinates(e, c1, s1);
    Coordinates(e, c2, s2);
    Coordinates(e, c3, s3);
    Coordinates(e, Blend(c0, c1, c2, c3, t), Blend(s0, s1, s2, s3, t));
    AffineBlend(e.centre.x, AxisXX(e), AxisXY(e), c0, s0, c1, s1, c2, s2, c3, s3, t);
    AffineBlend(e.centre.y, AxisYX(e), AxisYY(e), c0, s0, c1, s1, c2, s2, c3, s3, t);
  }

  /** The ends of a slice about its middle, by the sum formulas. */
  lemma AboutMiddle(f: Functions, m: real, h: real)
    requires f.Lawful()
    ensures f.cos(m - h) == f.cos(m) * f.cos(h) + f.sin(m) * f.sin(h)
    ensures f.sin(m - h) == f.sin(m) * f.cos(h) - f.cos(m) * f.sin(h)
    ensures f.cos(m + h) == f.cos(m) * f.cos(h) - f.sin(m) * f.sin(h)
    ensures f.sin(m + h) == f.sin(m) * f.cos(h) + f.cos(m) * f.sin(h)
  {
    assert f.SumAt(m, h) && f.SumAt(m, -h) && f.ParityAt(h);
    assert m + (-h) == m - h;
  }

  /** The control points of a slice, on the unit circle's own plane, turned so that its middle is on the first axis. */
  lemma SliceTurned(cm: real, sm: real, ch: real, sh: real, handle: real, c0: real, s0: real, c3: real, s3: real,
                    a: real, b1: real, b2: real)
    requires c0 == cm * ch + sm * sh && s0 == sm * ch - cm * sh
    requires c3 == cm * ch - sm * sh && s3 == sm * ch + cm * sh
    requires a == ch + handle * sh && b1 == -sh + handle * ch && b2 == sh - handle * ch
    ensures c0 - handle * s0 == cm * a - sm * b1 && s0 + handle * c0 == sm * a + cm * b1
    ensures c3 + handle * s3 == cm * a - sm * b2 && s3 - handle * c3 == sm * a + cm * b2
  {
    assert cm * (handle * sh) == handle * (cm * sh) && sm * (handle * sh) == handle * (sm * sh);
    assert cm * (handle * ch) == handle * (cm * ch) && sm * (handle * ch) == handle * (sm * ch);
  }

  /** A blend of turned points is the turned blend, as far from the centre as before. */
  lemma BlendTurned(cm: real, sm: real, x0: real, y0: real, x1: real, y1: real, x2: real, y2: real, x3: real, y3: real, t: real,
                    c0: real, s0: real, c1: real, s1: real, c2: real, s2: real, c3: real, s3: real)
    requires c0 == cm * x0 - sm * y0 && s0 == sm * x0 + cm * y0
    requires c1 == cm * x1 - sm * y1 && s1 == sm * x1 + cm * y1
    requires c2 == cm * x2 - sm * y2 && s2 == sm * x2 + cm * y2
    requires c3 == cm * x3 - sm * y3 && s3 == sm * x3 + cm * y3
    ensures Blend(c0, c1, c2, c3, t) == cm * Blend(x0, x1, x2, x3, t) - sm * Blend(y0, y1, y2, y3, t)
    ensures Blend(s0, s1, s2, s3, t) == sm * Blend(x0, x1, x2, x3, t) + cm * Blend(y0, y1, y2, y3, t)
  {
    hide Blend;
    BlendAffine(0.0, cm, -sm, x0, x1, x2, x3, y0, y1, y2, y3, c0, c1, c2, c3, t);
    BlendAffine(0.0, sm, cm, x0, x1, x2, x3, y0, y1, y2, y3, s0, s1, s2, s3, t);
  }

  lemma TurnedAsFar(cm: real, sm: real, x: real, y: real, c: real, s: real)
    requires OnCircle(cm, sm) && c == cm * x - sm * y && s == sm * x + cm * y
    ensures c * c + s * s == x * x + y * y && (WithinFit(x, y) <==> WithinFit(c, s))
  {
    SquareOfSum(cm * x, -(sm * y));
    SquareOfSum(sm * x, cm * y);
    SquareOfProduct(cm, x, cm * x);
    SquareOfProduct(sm, y, sm * y);
    SquareOfProduct(sm, x, sm * x);
    SquareOfProduct(cm, y, cm * y);
    assert (cm * cm + sm * sm) * (x * x) == x * x && (cm * cm + sm * sm) * (y * y) == y * y;
  }

  /** A slice's own curve on the unit circle's plane, before the ellipse carries it along. */
  function UnitCosine(c0: real, s0: real, c3: real, s3: real, handle: real, t: real): real {
    Blend(c0, c0 - handle * s0, c3 + handle * s3, c3, t)
  }

  function UnitSine(c0: real, s0: real, c3: real, s3: real, handle: real, t: real): real {
    Blend(s0, s0 + handle * c0, s3 - handle * c3, s3, t)
  }

  /** The two ends of a slice, by its middle angle's cosine and sine and its half angle's. */
  predicate Ends(cm: real, sm: real, ch: real, sh: real, c0: real, s0: real, c3: real, s3: real) {
    c0 == cm * ch + sm * sh && s0 == sm * ch - cm * sh && c3 == cm * ch - sm * sh && s3 == sm * ch + cm * sh
  }

  predicate HalfTangent(w: real, ch: real, sh: real) {
    w * sh == 1.0 - ch && w * (1.0 + ch) == sh
  }

  predicate OnCircle(c: real, s: real) {
    c * c + s * s == 1.0
  }

  lemma UnitIs(c0: real, s0: real, c1: real, s1: real, c2: real, s2: real, c3: real, s3: real, handle: real, t: real)
    requires c1 == c0 - handle * s0 && s1 == s0 + handle * c0
    requires c2 == c3 + handle * s3 && s2 == s3 - handle * c3
    ensures UnitCosine(c0, s0, c3, s3, handle, t) == Blend(c0, c1, c2, c3, t)
    ensures UnitSine(c0, s0, c3, s3, handle, t) == Blend(s0, s1, s2, s3, t)
  {
    hide Blend;
  }

  lemma TurnedSame(cm: real, sm: real, x: real, y: real, dx: real, dy: real)
    requires x == dx && y == dy
    ensures cm * x - sm * y == cm * dx - sm * dy && sm * x + cm * y == sm * dx + cm * dy
  {
  }

  /** The curve's coordinates, turned back by its slice's middle angle. */
  lemma UnitUnturned(cm: real, sm: real, ch: real, sh: real, handle: real, t: real, c0: real, s0: real, c3: real, s3: real,
                     a: real, b1: real, b2: real)
    requires Ends(cm, sm, ch, sh, c0, s0, c3, s3)
    requires a == ch + handle * sh && b1 == -sh + handle * ch && b2 == sh - handle * ch
    ensures UnitCosine(c0, s0, c3, s3, handle, t) == cm * Blend(ch, a, a, ch, t) - sm * Blend(-sh, b1, b2, sh, t)
    ensures UnitSine(c0, s0, c3, s3, handle, t) == sm * Blend(ch, a, a, ch, t) + cm * Blend(-sh, b1, b2, sh, t)
  {
    hide Blend, UnitCosine, UnitSine;
    var c1, s1, c2, s2 := c0 - handle * s0, s0 + handle * c0, c3 + handle * s3, s3 - handle * c3;
    SliceTurned(cm, sm, ch, sh, handle, c0, s0, c3, s3, a, b1, b2);
    BlendTurned(cm, sm, ch, -sh, a, b1, a, b2, ch, sh, t, c0, s0, c1, s1, c2, s2, c3, s3);
    UnitIs(c0, s0, c1, s1, c2, s2, c3, s3, handle, t);
  }

  /** The curve's coordinates about its slice's middle angle. */
  function MiddleCos(ch: real, t: real): real {
    ch + 4.0 * (t * (1.0 - t) * (1.0 - ch))
  }

  function MiddleSin(ch: real, sh: real, w: real, t: real): real {
    (2.0 * t - 1.0) * (sh + 2.0 * (t * (1.0 - t) * (w * (1.0 - ch))))
  }

  lemma MiddleIs(ch: real, sh: real, w: real, handle: real, t: real, a: real, b1: real, b2: real)
    requires HalfTangent(w, ch, sh) && handle == 4.0 / 3.0 * w
    requires a == ch + handle * sh && b1 == -sh + handle * ch && b2 == sh - handle * ch
    ensures MiddleCos(ch, t) == Blend(ch, a, a, ch, t) && MiddleSin(ch, sh, w, t) == Blend(-sh, b1, b2, sh, t)
  {
    hide Blend, MiddleCos, MiddleSin;
    var u := t * (1.0 - t);
    MiddleBlend(ch, sh, w, handle, t, u, a, b1, b2);
    MiddleNamed(ch, sh, w, t, u);
  }

  lemma MiddleNamed(ch: real, sh: real, w: real, t: real, u: real)
    requires u == t * (1.0 - t)
    ensures MiddleCos(ch, t) == ch + 4.0 * (u * (1.0 - ch))
    ensures MiddleSin(ch, sh, w, t) == (2.0 * t - 1.0) * (sh + 2.0 * (u * (w * (1.0 - ch))))
  {
  }

  lemma UnitTurned(cm: real, sm: real, ch: real, sh: real, w: real, handle: real, t: real,
                   c0: real, s0: real, c3: real, s3: real)
    requires Ends(cm, sm, ch, sh, c0, s0, c3, s3) && HalfTangent(w, ch, sh) && handle == 4.0 / 3.0 * w
    ensures UnitCosine(c0, s0, c3, s3, handle, t) == cm * MiddleCos(ch, t) - sm * MiddleSin(ch, sh, w, t)
    ensures UnitSine(c0, s0, c3, s3, handle, t) == sm * MiddleCos(ch, t) + cm * MiddleSin(ch, sh, w, t)
  {
    hide *;
    var a, b1, b2 := ch + handle * sh, -sh + handle * ch, sh - handle * ch;
    UnitUnturned(cm, sm, ch, sh, handle, t, c0, s0, c3, s3, a, b1, b2);
    MiddleIs(ch, sh, w, handle, t, a, b1, b2);
    TurnedSame(cm, sm, MiddleCos(ch, t), MiddleSin(ch, sh, w, t), Blend(ch, a, a, ch, t), Blend(-sh, b1, b2, sh, t));
  }

  /** A slice's curve on the unit circle's plane stays between the circle and one 0.03 per cent larger. */
  lemma UnitFits(cm: real, sm: real, ch: real, sh: real, w: real, handle: real, t: real,
                 c0: real, s0: real, c3: real, s3: real)
    requires Ends(cm, sm, ch, sh, c0, s0, c3, s3) && HalfTangent(w, ch, sh) && handle == 4.0 / 3.0 * w
    requires OnCircle(cm, sm) && OnCircle(ch, sh) && 0.7 <= ch <= 1.0 && 0.0 <= t <= 1.0
    ensures WithinFit(UnitCosine(c0, s0, c3, s3, handle, t), UnitSine(c0, s0, c3, s3, handle, t))
  {
    hide *;
    var u, d, g := t * (1.0 - t), 2.0 * t - 1.0, w * (1.0 - ch);
    var x, y := MiddleCos(ch, t), MiddleSin(ch, sh, w, t);
    UnitTurned(cm, sm, ch, sh, w, handle, t, c0, s0, c3, s3);
    TurnedAsFar(cm, sm, x, y, UnitCosine(c0, s0, c3, s3, handle, t), UnitSine(c0, s0, c3, s3, handle, t));
    HalfDistance(t, u, d);
    MiddlePlaced(ch, sh, w, t, u, d, g);
    MiddleFits(ch, sh, w, u, d, g, x, y);
  }

  lemma MiddlePlaced(ch: real, sh: real, w: real, t: real, u: real, d: real, g: real)
    requires HalfTangent(w, ch, sh) && OnCircle(ch, sh) && d * d == 1.0 - 4.0 * u
    requires u == t * (1.0 - t) && d == 2.0 * t - 1.0 && g == w * (1.0 - ch)
    ensures Middle(ch, sh, w, u, d, g, MiddleCos(ch, t), MiddleSin(ch, sh, w, t))
  {
  }

  /** A slice's curve about its middle: `u` and `d` place it along, `g` is its swelling. */
  predicate Middle(ch: real, sh: real, w: real, u: real, d: real, g: real, x: real, y: real) {
    && w * sh == 1.0 - ch && ch * ch + sh * sh == 1.0 && d * d == 1.0 - 4.0 * u
    && g == w * (1.0 - ch) && x == ch + 4.0 * (u * (1.0 - ch)) && y == d * (sh + 2.0 * (u * g))
  }

  lemma MiddleOutside(ch: real, sh: real, w: real, u: real, d: real, g: real, x: real, y: real, hump: real)
    requires Middle(ch, sh, w, u, d, g, x, y) && hump == (u * u) * (1.0 - 4.0 * u)
    ensures x * x + y * y - 1.0 == 4.0 * (g * g) * hump
  {
    Outside(ch, sh, w, 1.0 - ch, u, d, g, sh + 2.0 * (u * g), x, y, hump);
  }

  lemma MiddleSwell(ch: real, sh: real, w: real, g: real, square: real)
    requires HalfTangent(w, ch, sh) && 0.7 <= ch <= 1.0 && g == w * (1.0 - ch) && square == g * g
    ensures 0.0 <= square <= 0.0162
  {
    SwellBounded(ch, sh, w, 1.0 - ch, g, square);
  }

  lemma MiddleFits(ch: real, sh: real, w: real, u: real, d: real, g: real, x: real, y: real)
    requires Middle(ch, sh, w, u, d, g, x, y) && HalfTangent(w, ch, sh) && g == w * (1.0 - ch)
    requires 0.7 <= ch <= 1.0 && 0.0 <= u <= 0.25
    ensures WithinFit(x, y)
  {
    hide Middle, HalfTangent;
    var hump := (u * u) * (1.0 - 4.0 * u);
    MiddleOutside(ch, sh, w, u, d, g, x, y, hump);
    MiddleSwell(ch, sh, w, g, g * g);
    HumpBounded(u, hump);
    SwollenHump(g * g, hump, x * x + y * y);
  }

  lemma HalfDistance(t: real, u: real, d: real)
    requires 0.0 <= t <= 1.0 && u == t * (1.0 - t) && d == 2.0 * t - 1.0
    ensures d * d == 1.0 - 4.0 * u && 0.0 <= u <= 0.25
  {
    NonnegativeProduct(t, 1.0 - t, u);
    SquareNonnegative(d, d * d);
  }

  lemma SwollenHump(square: real, hump: real, far: real)
    requires 0.0 <= square <= 0.0162 && 0.0 <= hump <= 1.0 / 108.0 && far - 1.0 == 4.0 * square * hump
    ensures 1.0 <= far <= FIT * FIT
  {
    NonnegativeProduct(square, hump, square * hump);
    NonnegativeProduct(0.0162 - square, hump, 0.0162 * hump - square * hump);
  }

  lemma Circle(f: Functions, a: real)
    requires f.Lawful()
    ensures OnCircle(f.cos(a), f.sin(a))
  {
    assert f.CircleAt(a);
  }

  lemma HandleIs(f: Functions, step: real, quarter: real)
    requires quarter == step / 4.0
    ensures Handle(f, step) == 4.0 / 3.0 * f.tan(quarter)
  {
  }

  lemma EndsAboutMiddle(f: Functions, m: real, h: real, begin: real, end: real)
    requires f.Lawful() && begin == m - h && end == m + h
    ensures Ends(f.cos(m), f.sin(m), f.cos(h), f.sin(h), f.cos(begin), f.sin(begin), f.cos(end), f.sin(end))
  {
    hide Functions.Lawful;
    AboutMiddle(f, m, h);
  }

  lemma TangentOfHalf(f: Functions, h: real, q: real)
    requires f.Lawful() && Abs(h) <= f.pi / 4.0 && q == h / 2.0
    ensures HalfTangent(f.tan(q), f.cos(h), f.sin(h))
  {
    hide Functions.Lawful;
    HalfAngleTangent(f, h);
  }

  lemma SliceFits(f: Functions, angle: real, step: real, t: real)
    requires f.Lawful() && Abs(step) <= f.pi / 2.0 && 0.0 <= t <= 1.0
    ensures var c0, s0, c3, s3 := f.cos(angle), f.sin(angle), f.cos(angle + step), f.sin(angle + step);
            WithinFit(UnitCosine(c0, s0, c3, s3, Handle(f, step), t), UnitSine(c0, s0, c3, s3, Handle(f, step), t))
  {
    hide UnitCosine, UnitSine, Handle, WithinFit, Ends, HalfTangent, OnCircle, Functions.Lawful;
    var h, end := step / 2.0, angle + step;
    var m, q := angle + h, h / 2.0;
    EndsAboutMiddle(f, m, h, angle, end);
    TangentOfHalf(f, h, q);
    CosineOfEighth(f, h);
    Circle(f, m);
    Circle(f, h);
    HandleIs(f, step, q);
    UnitFits(f.cos(m), f.sin(m), f.cos(h), f.sin(h), f.tan(q), Handle(f, step), t, f.cos(angle), f.sin(angle), f.cos(end), f.sin(end));
  }

  lemma UnitHalfway(cm: real, sm: real, ch: real, sh: real, w: real, handle: real, c0: real, s0: real, c3: real, s3: real)
    requires Ends(cm, sm, ch, sh, c0, s0, c3, s3) && HalfTangent(w, ch, sh) && handle == 4.0 / 3.0 * w
    ensures UnitCosine(c0, s0, c3, s3, handle, 0.5) == cm && UnitSine(c0, s0, c3, s3, handle, 0.5) == sm
  {
    hide UnitCosine, UnitSine, Ends, HalfTangent;
    UnitTurned(cm, sm, ch, sh, w, handle, 0.5, c0, s0, c3, s3);
    assert MiddleCos(ch, 0.5) == 1.0 && MiddleSin(ch, sh, w, 0.5) == 0.0;
  }

  lemma SliceHalfway(f: Functions, angle: real, step: real)
    requires f.Lawful() && Abs(step) <= f.pi / 2.0
    ensures var c0, s0, c3, s3 := f.cos(angle), f.sin(angle), f.cos(angle + step), f.sin(angle + step);
            && UnitCosine(c0, s0, c3, s3, Handle(f, step), 0.5) == f.cos(angle + step / 2.0)
            && UnitSine(c0, s0, c3, s3, Handle(f, step), 0.5) == f.sin(angle + step / 2.0)
  {
    hide UnitCosine, UnitSine, Handle, Ends, HalfTangent, Functions.Lawful;
    var h, end := step / 2.0, angle + step;
    var m, q := angle + h, h / 2.0;
    EndsAboutMiddle(f, m, h, angle, end);
    TangentOfHalf(f, h, q);
    HandleIs(f, step, q);
    UnitHalfway(f.cos(m), f.sin(m), f.cos(h), f.sin(h), f.tan(q), Handle(f, step), f.cos(angle), f.sin(angle), f.cos(end), f.sin(end));
  }

  /** A slice's cubic is the ellipse's image of its curve on the unit circle's plane. */
  lemma SliceOnPlane(f: Functions, e: Ellipse, angle: real, step: real, t: real)
    ensures var c0, s0, c3, s3 := f.cos(angle), f.sin(angle), f.cos(angle + step), f.sin(angle + step);
            BezierAt(PointOn(f, e, angle), Cubic(f, e, angle, step, Handle(f, step)), t) ==
              PointAt(e, UnitCosine(c0, s0, c3, s3, Handle(f, step), t), UnitSine(c0, s0, c3, s3, Handle(f, step), t))
  {
    hide PointAt, Tangential, Blend, Handle, BezierAt, UnitCosine, UnitSine;
    var handle := Handle(f, step);
    var c0, s0, c3, s3 := f.cos(angle), f.sin(angle), f.cos(angle + step), f.sin(angle + step);
    var c1, s1, c2, s2 := c0 - handle * s0, s0 + handle * c0, c3 + handle * s3, s3 - handle * c3;
    TangentialIs(e, c0, s0, c1, s1, c2, s2, c3, s3, handle);
    UnitIs(c0, s0, c1, s1, c2, s2, c3, s3, handle, t);
    AffineBezier(e, c0, s0, c1, s1, c2, s2, c3, s3, t);
  }

  /** All along a slice, its cubic lies between the ellipse and one 0.03 per cent larger: it never cuts inside. */
  lemma CubicHugsEllipse(f: Functions, e: Ellipse, angle: real, step: real, t: real)
    requires f.Lawful() && Abs(step) <= f.pi / 2.0 && 0.0 <= t <= 1.0
    ensures Hugs(e, BezierAt(PointOn(f, e, angle), Cubic(f, e, angle, step, Handle(f, step)), t))
  {
    hide PointAt, PointOn, BezierAt, UnitCosine, UnitSine, Handle, Cubic, WithinFit, Functions.Lawful;
    SliceFits(f, angle, step, t);
    SliceOnPlane(f, e, angle, step, t);
  }

  /** Halfway along, a slice's cubic is on the ellipse itself. */
  lemma CubicMeetsEllipse(f: Functions, e: Ellipse, angle: real, step: real)
    requires f.Lawful() && Abs(step) <= f.pi / 2.0
    ensures BezierAt(PointOn(f, e, angle), Cubic(f, e, angle, step, Handle(f, step)), 0.5) == PointOn(f, e, angle + step / 2.0)
  {
    hide PointAt, BezierAt, UnitCosine, UnitSine, Handle, Cubic, Functions.Lawful;
    SliceHalfway(f, angle, step);
    SliceOnPlane(f, e, angle, step, 0.5);
  }

  // ---- The whole arc ----

  /** Where the pen is before the `i`-th curve of a run that begins at `start`. */
  function Joint(start: Point, curves: seq<Segment>, i: int): Point
    requires 0 <= i <= |curves| && forall j :: 0 <= j < |curves| ==> curves[j].CurveTo?
  {
    if i == 0 then start else curves[i - 1].to
  }

  /** Consecutive curves share their tangent: the handles mirror each other through the joint. */
  predicate Smooth(curves: seq<Segment>) {
    && (forall j :: 0 <= j < |curves| ==> curves[j].CurveTo?)
    && (forall j :: 0 < j < |curves| ==>
          curves[j].control1 == Reflect(Some(curves[j - 1].control2), curves[j - 1].to))
  }

  lemma AlongMirrored(from: Point, slope: Point, reach: real)
    ensures Along(from, slope, reach) == Reflect(Some(Along(from, slope, -reach)), from)
  {
  }

  lemma SliceJoins(f: Functions, swept: Swept, steps: int, i: int)
    requires steps > 0
    ensures Slice(f, swept, steps, i).to == PointOn(f, swept.ellipse, SliceAngle(swept, steps, i + 1))
    ensures Slice(f, swept, steps, i + 1).control1
         == Reflect(Some(Slice(f, swept, steps, i).control2), Slice(f, swept, steps, i).to)
  {
    hide PointAt, SlopeAt, Handle, Step, SliceAngle, Along, Reflect;
    NextSlice(swept, steps, i);
    var e, angle := swept.ellipse, SliceAngle(swept, steps, i + 1);
    AlongMirrored(PointAt(e, f.cos(angle), f.sin(angle)), SlopeAt(e, f.cos(angle), f.sin(angle)), Handle(f, Step(swept, steps)));
  }

  /** `curves` runs smoothly from `start` to `end`, on the ellipse at and between the joints and close to it all along. */
  ghost predicate Follows(f: Functions, swept: Swept, start: Point, curves: seq<Segment>, end: Point) {
    && |curves| > 0
    && Smooth(curves)
    && Joint(start, curves, |curves|) == end
    && forall i :: 0 <= i < |curves| ==>
         && Joint(start, curves, i) == PointOn(f, swept.ellipse, SliceAngle(swept, |curves|, i))
         && BezierAt(Joint(start, curves, i), curves[i], 0.5) ==
              PointOn(f, swept.ellipse, SliceAngle(swept, |curves|, i) + Step(swept, |curves|) / 2.0)
         && Near(swept.ellipse, Joint(start, curves, i), curves[i])
  }

  /** Every point of a curve is close to the ellipse. */
  ghost predicate Near(e: Ellipse, begin: Point, curve: Segment)
    requires curve.CurveTo?
  {
    forall t: real :: 0.0 <= t <= 1.0 ==> Hugs(e, BezierAt(begin, curve, t))
  }

  lemma SliceNear(f: Functions, e: Ellipse, angle: real, step: real)
    requires f.Lawful() && Abs(step) <= f.pi / 2.0
    ensures Near(e, PointOn(f, e, angle), Cubic(f, e, angle, step, Handle(f, step)))
  {
    hide Hugs, BezierAt, PointOn, Cubic, Handle, Functions.Lawful;
    forall t: real | 0.0 <= t <= 1.0
      ensures Hugs(e, BezierAt(PointOn(f, e, angle), Cubic(f, e, angle, step, Handle(f, step)), t))
    {
      CubicHugsEllipse(f, e, angle, step, t);
    }
  }

  lemma CubicsFollow(f: Functions, swept: Swept)
    requires f.Lawful() && 0.0 < Abs(swept.sweepAngle) < 2.0 * f.pi
    ensures Follows(f, swept, PointOn(f, swept.ellipse, swept.startAngle), Cubics(f, swept),
                    PointOn(f, swept.ellipse, swept.startAngle + swept.sweepAngle))
  {
    hide PointOn, Cubic, SliceAngle, Step, StepCount, Handle, BezierAt, Near, Reflect, Functions.Lawful;
    var start := PointOn(f, swept.ellipse, swept.startAngle);
    var curves := Cubics(f, swept);
    var steps := StepCount(f, swept.sweepAngle);
    SliceCount(f, swept);
    LastSlice(swept, steps);
    assert |curves| == steps && forall i :: 0 <= i < steps ==> curves[i] == Slice(f, swept, steps, i);
    forall i | 0 < i <= steps
      ensures curves[i - 1].to == PointOn(f, swept.ellipse, SliceAngle(swept, steps, i))
      ensures i < steps ==> curves[i].control1 == Reflect(Some(curves[i - 1].control2), curves[i - 1].to)
    {
      SliceJoins(f, swept, steps, i - 1);
    }
    forall i | 0 <= i < steps
      ensures BezierAt(Joint(start, curves, i), curves[i], 0.5) ==
        PointOn(f, swept.ellipse, SliceAngle(swept, steps, i) + Step(swept, steps) / 2.0)
      ensures Near(swept.ellipse, Joint(start, curves, i), curves[i])
    {
      CubicMeetsEllipse(f, swept.ellipse, SliceAngle(swept, steps, i), Step(swept, steps));
      SliceNear(f, swept.ellipse, SliceAngle(swept, steps, i), Step(swept, steps));
    }
  }

  /**
   An arc is one to four cubics of at most a quarter turn each, running smoothly from its start to
   its end; each begins, ends and passes halfway on the ellipse the arc lies on, and is close to it all along.
   */
  lemma ArcIsSmoothCubics(f: Functions, start: Point, radii: Point, rotation: real,
                          largeArc: bool, sweep: bool, end: Point)
    requires f.Lawful() && Drawable(start, radii, end)
    ensures var s := Convert(f, Fit(f, start, radii, rotation, end), start, largeArc, sweep, end);
            var curves := ArcSegments(f, start, radii, rotation, largeArc, sweep, end);
            && 1 <= |curves| <= 4
            && Abs(Step(s, |curves|)) <= f.pi / 2.0
            && Follows(f, s, start, curves, end)
  {
    hide Convert, Fit, Follows, PointOn, Slice;
    var s := Convert(f, Fit(f, start, radii, rotation, end), start, largeArc, sweep, end);
    FlagsChooseTheSweep(f, start, radii, rotation, largeArc, sweep, end);
    ArcMeetsItsEnds(f, start, radii, rotation, largeArc, sweep, end);
    SliceCount(f, s);
    CubicsFollow(f, s);
  }
}
