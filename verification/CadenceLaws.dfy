/** The tempo's band: the shape of one swell, its harmonics, and what their shares add up to. */
module CadenceLaws {
  import opened Analysis
  import opened Algebra
  import opened Cadence

  function Share(wanders: seq<Wander>): real {
    if wanders == [] then 0.0 else Share(wanders[..|wanders| - 1]) + wanders[|wanders| - 1].share
  }

  predicate Declared(wanders: seq<Wander>) {
    forall i :: 0 <= i < |wanders| ==> wanders[i].period > 0.0 && wanders[i].share >= 0.0
  }

  // ---- The shape of one swell ----

  /** `sin x + sin 3x / 3 + sin 5x / 5`, written on `s = sin x`. */
  function Odd(s: real): real {
    3.0 * s - 16.0 / 3.0 * (s * s * s) + 16.0 / 5.0 * (s * s * s * s * s)
  }

  /** What is left under the crest, as a product whose factors' signs are plain. */
  lemma OddHeadroom(s: real, away: real, rest: real)
    requires away == (s - 0.5) * (s - 0.5)
    requires rest == (1.0 - s) * (12.0 * ((s + 1.0) * (s + 1.0)) + 1.0) + 1.0
    ensures SQUARED_SWELL_PEAK - Odd(s) == 4.0 / 15.0 * (away * rest)
  {
  }

  lemma OddBelow(s: real)
    requires s <= 1.0
    ensures Odd(s) <= SQUARED_SWELL_PEAK
    ensures Odd(s) == SQUARED_SWELL_PEAK <==> s == 0.5
  {
    hide Odd;
    var away := (s - 0.5) * (s - 0.5);
    var lift := (s + 1.0) * (s + 1.0);
    var drop := (1.0 - s) * (12.0 * lift + 1.0);
    SquareNonnegative(s + 1.0, lift);
    ProductMonotone(0.0, 1.0 - s, 12.0 * lift + 1.0);
    OddHeadroom(s, away, drop + 1.0);
    if s != 0.5 {
      SquarePositive(s - 0.5, away);
      ProductPositive(away, drop + 1.0, away * (drop + 1.0));
    }
  }

  lemma OddIsOdd(s: real)
    ensures Odd(-s) == -Odd(s)
  {
  }

  /** The three harmonics together stay within 14/15, and reach it where the fundamental is at half height. */
  lemma OddPeak(s: real)
    requires -1.0 <= s <= 1.0
    ensures -SQUARED_SWELL_PEAK <= Odd(s) <= SQUARED_SWELL_PEAK
    ensures Odd(s) == SQUARED_SWELL_PEAK <==> s == 0.5
    ensures Odd(s) == -SQUARED_SWELL_PEAK <==> s == -0.5
  {
    hide Odd;
    OddBelow(s);
    OddBelow(-s);
    OddIsOdd(s);
  }

  // ---- Multiples of an angle ----

  lemma TripleSine(f: Functions, x: real)
    requires f.Lawful()
    ensures f.sin(3.0 * x) == 3.0 * f.sin(x) - 4.0 * (f.sin(x) * f.sin(x) * f.sin(x))
    ensures f.cos(2.0 * x) == 1.0 - 2.0 * (f.sin(x) * f.sin(x))
    ensures f.sin(2.0 * x) == 2.0 * (f.sin(x) * f.cos(x))
    ensures f.cos(3.0 * x) == f.cos(x) * (1.0 - 4.0 * (f.sin(x) * f.sin(x)))
  {
    assert f.SumAt(x, x) && f.SumAt(2.0 * x, x) && f.CircleAt(x);
    hide Functions.Lawful;
    assert x + x == 2.0 * x && 2.0 * x + x == 3.0 * x;
    TripleAlgebra(f.sin(x), f.cos(x), f.sin(2.0 * x), f.cos(2.0 * x), f.sin(3.0 * x), f.cos(3.0 * x));
  }

  lemma TripleAlgebra(s: real, c: real, s2: real, c2: real, s3: real, c3: real)
    requires c * c + s * s == 1.0
    requires s2 == s * c + c * s && c2 == c * c - s * s
    requires s3 == s2 * c + c2 * s && c3 == c2 * c - s2 * s
    ensures c2 == 1.0 - 2.0 * (s * s) && s2 == 2.0 * (s * c)
    ensures s3 == 3.0 * s - 4.0 * (s * s * s)
    ensures c3 == c * (1.0 - 4.0 * (s * s))
  {
    assert s2 == 2.0 * (s * c);
    assert c2 == 1.0 - 2.0 * (s * s);
    assert s2 * c == 2.0 * (s * (c * c));
    assert s * (c * c) == s * (1.0 - s * s);
    assert s2 * s == 2.0 * (c * (s * s));
    assert c2 * c == c * (1.0 - 2.0 * (s * s));
  }

  lemma QuintupleAlgebra(s: real, c: real, s2: real, c2: real, s3: real, c3: real, s5: real)
    requires c * c + s * s == 1.0
    requires s2 == 2.0 * (s * c) && c2 == 1.0 - 2.0 * (s * s)
    requires s3 == 3.0 * s - 4.0 * (s * s * s) && c3 == c * (1.0 - 4.0 * (s * s))
    requires s5 == s3 * c2 + c3 * s2
    ensures s5 == 5.0 * s - 20.0 * (s * s * s) + 16.0 * (s * s * s * s * s)
  {
    var q := 1.0 - s * s;
    assert c * c == q;
    assert c3 * s2 == 2.0 * s * (1.0 - 4.0 * (s * s)) * (c * c);
    assert c3 * s2 == 2.0 * s * (1.0 - 4.0 * (s * s)) * q;
  }

  lemma OddIs(s: real, s3: real, s5: real)
    requires s3 == 3.0 * s - 4.0 * (s * s * s) && s5 == 5.0 * s - 20.0 * (s * s * s) + 16.0 * (s * s * s * s * s)
    ensures s + s3 / 3.0 + s5 / 5.0 == Odd(s)
  {
  }

  lemma QuintupleSine(f: Functions, x: real)
    requires f.Lawful()
    ensures f.sin(5.0 * x) == f.sin(3.0 * x) * f.cos(2.0 * x) + f.cos(3.0 * x) * f.sin(2.0 * x)
    ensures f.cos(x) * f.cos(x) + f.sin(x) * f.sin(x) == 1.0
  {
    assert f.SumAt(3.0 * x, 2.0 * x) && f.CircleAt(x);
    assert 3.0 * x + 2.0 * x == 5.0 * x;
  }

  lemma OddHarmonics(f: Functions, x: real)
    requires f.Lawful()
    ensures f.sin(x) + f.sin(3.0 * x) / 3.0 + f.sin(5.0 * x) / 5.0 == Odd(f.sin(x))
  {
    hide Functions.Lawful, Odd;
    TripleSine(f, x);
    QuintupleSine(f, x);
    QuintupleAlgebra(f.sin(x), f.cos(x), f.sin(2.0 * x), f.cos(2.0 * x), f.sin(3.0 * x), f.cos(3.0 * x), f.sin(5.0 * x));
    OddIs(f.sin(x), f.sin(3.0 * x), f.sin(5.0 * x));
  }

  lemma SineBounded(f: Functions, x: real)
    requires f.Lawful()
    ensures -1.0 <= f.sin(x) <= 1.0
  {
    assert f.CircleAt(x);
    hide Functions.Lawful;
    var s, c := f.sin(x), f.cos(x);
    SquareNonnegative(c, c * c);
    if s > 1.0 {
      ProductPositive(s - 1.0, s + 1.0, (s - 1.0) * (s + 1.0));
    } else if s < -1.0 {
      ProductPositive(-s - 1.0, 1.0 - s, (-s - 1.0) * (1.0 - s));
    }
  }

  // ---- Harmonics ----

  /** The place of a declared swell's fundamental in its cycle. */
  function Place(time: real, w: Wander): real {
    Turn(time, w.period) + w.turn
  }

  /** The angle of a declared swell's fundamental. */
  function Base(f: Functions, time: real, w: Wander): real {
    Radians(f, Place(time, w))
  }

  lemma Period(f: Functions, a: real, b: real, k: int)
    requires f.Lawful() && a == b + 2.0 * f.pi * k as real
    ensures f.sin(a) == f.sin(b) && f.cos(a) == f.cos(b)
  {
    assert f.PeriodAt(a, b, k);
  }

  lemma WholeTurnsHide(f: Functions, x: real, y: real, k: int)
    requires f.Lawful() && x == y + k as real
    ensures f.sin(Radians(f, x)) == f.sin(Radians(f, y)) && f.cos(Radians(f, x)) == f.cos(Radians(f, y))
  {
    hide Functions.Lawful;
    Distribute(2.0 * f.pi, x, y, k as real);
    Period(f, Radians(f, x), Radians(f, y), k);
  }

  lemma Distribute(c: real, x: real, y: real, k: real)
    requires x == y + k
    ensures c * x == c * y + c * k
  {
  }

  lemma PeriodDivided(time: real, period: real, h: real)
    requires period > 0.0 && h > 0.0
    ensures period / h > 0.0 && time / (period / h) == h * (time / period)
  {
    var p, q := period / h, time / period;
    QuotientTimes(period, h, p);
    QuotientTimes(time, period, q);
    assert p > 0.0;
    assert h * q * p == q * (p * h);
    QuotientIs(time, p, h * q);
  }

  lemma Spread(n: real, q: real, nq: real, turn: real, nturn: real, place: real, base: int, h: int)
    requires n == h as real && place == q - base as real + turn
    requires nq == n * q && nturn == turn * n
    ensures nq + nturn == n * place + (h * base) as real
  {
    assert n * place == n * q - n * base as real + turn * n;
    assert n * base as real == (h * base) as real;
  }

  lemma HarmonicFields(w: Wander, h: int)
    requires h > 0
    ensures Harmonic(w, h).period == w.period / h as real
    ensures Harmonic(w, h).turn == HarmonicTurn(w.turn, h)
  {
    hide HarmonicTurn;
  }

  lemma HarmonicTurnIs(turn: real, h: int, nturn: real)
    requires nturn == turn * h as real
    ensures HarmonicTurn(turn, h) == nturn - Truncated(nturn) as real
  {
    hide Truncated;
    RemainderOfOne(turn * h as real);
  }

  lemma TurnParts(time: real, period: real) returns (k: int)
    requires period > 0.0
    ensures Turn(time, period) == time / period - k as real
  {
    hide Turn;
    TurnIsFraction(time, period);
    k := (time / period).Floor;
  }

  lemma HarmonicTurns(time: real, w: Wander, h: int, place: real) returns (k: int)
    requires w.period > 0.0 && h > 0 && place == h as real * Place(time, w)
    ensures Turn(time, Harmonic(w, h).period) + Harmonic(w, h).turn == place + k as real
  {
    hide Truncated, Turn, Harmonic, HarmonicTurn;
    var q, p, nturn := time / w.period, Harmonic(w, h).period, w.turn * h as real;
    HarmonicFields(w, h);
    PeriodDivided(time, w.period, h as real);
    var own := TurnParts(time, p);
    var base := TurnParts(time, w.period);
    HarmonicTurnIs(w.turn, h, nturn);
    Spread(h as real, q, time / p, w.turn, nturn, Place(time, w), base, h);
    k := h * base - own - Truncated(nturn);
  }

  lemma Regroup(f: Functions, n: real, place: real, angle: real, nplace: real, nangle: real)
    requires angle == Radians(f, place)
    requires nplace == n * place && nangle == n * angle
    ensures Radians(f, nplace) == nangle
  {
  }

  /** Reduced to its own cycle or not, a harmonic stands at a whole multiple of its fundamental's angle. */
  lemma HarmonicFollows(f: Functions, time: real, w: Wander, h: int, angle: real)
    requires f.Lawful() && w.period > 0.0 && h > 0 && angle == h as real * Base(f, time, w)
    ensures f.sin(Angle(f, time, Harmonic(w, h))) == f.sin(angle)
  {
    hide Functions.Lawful, Turn, Place, Harmonic, Radians;
    var place := h as real * Place(time, w);
    var k := HarmonicTurns(time, w, h, place);
    WholeTurnsHide(f, Turn(time, Harmonic(w, h).period) + Harmonic(w, h).turn, place, k);
    Regroup(f, h as real, Place(time, w), Base(f, time, w), place, angle);
  }

  lemma SwellsOfSquared(w: Wander)
    requires w.squared
    ensures Swells(w) == [Harmonic(w, 1), Harmonic(w, 3), Harmonic(w, 5)]
  {
    hide Harmonic;
  }

  lemma SumOfThree(f: Functions, time: real, a: Swell, b: Swell, c: Swell)
    ensures Sum(f, time, [a, b, c]) == Term(f, time, a) + Term(f, time, b) + Term(f, time, c)
  {
    hide Term;
    var one, two, three := [a], [a, b], [a, b, c];
    assert three[..2] == two && two[..1] == one && one[..0] == [];
    assert Sum(f, time, one) == Term(f, time, a);
    assert Sum(f, time, two) == Sum(f, time, one) + Term(f, time, b);
    assert Sum(f, time, three) == Sum(f, time, two) + Term(f, time, c);
  }

  lemma SumOfOne(f: Functions, time: real, a: Swell)
    ensures Sum(f, time, [a]) == Term(f, time, a)
  {
    hide Term;
    assert [a][..0] == [];
  }

  lemma SumJoins(f: Functions, time: real, left: seq<Swell>, right: seq<Swell>)
    ensures Sum(f, time, left + right) == Sum(f, time, left) + Sum(f, time, right)
  {
    hide Term;
    if right == [] {
      assert left + right == left;
    } else {
      var last := |right| - 1;
      assert (left + right)[..|left + right| - 1] == left + right[..last];
      SumJoins(f, time, left, right[..last]);
    }
  }

  /** A declared swell's terms add up to its share times one bounded shape. */
  function Height(f: Functions, time: real, w: Wander): real {
    Shape(f.sin(Base(f, time, w)), w.squared)
  }

  function Shape(s: real, squared: bool): real {
    if squared then Odd(s) / SQUARED_SWELL_PEAK else s
  }

  /** The height of the fundamental at which a swell reaches its declared peak. */
  function Crest(squared: bool): real {
    if squared then 0.5 else 1.0
  }

  lemma ShapeBounded(s: real, squared: bool)
    requires -1.0 <= s <= 1.0
    ensures -1.0 <= Shape(s, squared) <= 1.0
    ensures Shape(s, squared) == 1.0 <==> s == Crest(squared)
    ensures Shape(s, squared) == -1.0 <==> s == -Crest(squared)
  {
    hide Odd;
    OddPeak(s);
    var odd := Odd(s);
    assert odd / SQUARED_SWELL_PEAK == odd * 15.0 / 14.0;
  }

  lemma {:induction false} SwellsAddUp(f: Functions, time: real, w: Wander)
    requires f.Lawful() && w.period > 0.0
    ensures Sum(f, time, Swells(w)) == w.share * Height(f, time, w)
  {
    hide Functions.Lawful, Odd, Place, Angle, Sum, Swells, Harmonic, Base;
    if w.squared {
      var x := Base(f, time, w);
      SwellsOfSquared(w);
      SumOfThree(f, time, Harmonic(w, 1), Harmonic(w, 3), Harmonic(w, 5));
      HarmonicFollows(f, time, w, 1, 1.0 * x);
      HarmonicFollows(f, time, w, 3, 3.0 * x);
      HarmonicFollows(f, time, w, 5, 5.0 * x);
      OddHarmonics(f, x);
      assert 1.0 * x == x;
      HarmonicShares(w);
      SharesAddUp(w.share, f.sin(x), f.sin(3.0 * x), f.sin(5.0 * x), Odd(f.sin(x)));
    } else {
      PlainSwell(f, time, w);
    }
  }

  lemma HarmonicShares(w: Wander)
    ensures Harmonic(w, 1).share == w.share / SQUARED_SWELL_PEAK / 1.0
    ensures Harmonic(w, 3).share == w.share / SQUARED_SWELL_PEAK / 3.0
    ensures Harmonic(w, 5).share == w.share / SQUARED_SWELL_PEAK / 5.0
  {
  }

  lemma PlainSwell(f: Functions, time: real, w: Wander)
    requires !w.squared
    ensures Sum(f, time, Swells(w)) == w.share * f.sin(Base(f, time, w))
  {
    SumOfOne(f, time, Swell(w.period, w.share, w.turn));
  }

  lemma SharesAddUp(share: real, a: real, b: real, c: real, odd: real)
    requires a + b / 3.0 + c / 5.0 == odd
    ensures share / SQUARED_SWELL_PEAK / 1.0 * a + share / SQUARED_SWELL_PEAK / 3.0 * b + share / SQUARED_SWELL_PEAK / 5.0 * c ==
      share * (odd / SQUARED_SWELL_PEAK)
  {
    var g := share / SQUARED_SWELL_PEAK;
    assert g * (a + b / 3.0 + c / 5.0) == g * odd;
  }

  // ---- The band ----

  /** No swell passes its declared peak, and only its crest or its trough reaches it. */
  lemma HeightBounded(f: Functions, time: real, w: Wander)
    requires f.Lawful()
    ensures -1.0 <= Height(f, time, w) <= 1.0
    ensures Height(f, time, w) == 1.0 <==> f.sin(Base(f, time, w)) == Crest(w.squared)
    ensures Height(f, time, w) == -1.0 <==> f.sin(Base(f, time, w)) == -Crest(w.squared)
  {
    hide Shape, Base, Crest;
    SineBounded(f, Base(f, time, w));
    ShapeBounded(f.sin(Base(f, time, w)), w.squared);
  }

  lemma OneSwellMore(f: Functions, time: real, rest: seq<Wander>, last: Wander)
    requires f.Lawful() && last.period > 0.0
    ensures Sum(f, time, AllSwells(rest + [last])) == Sum(f, time, AllSwells(rest)) + last.share * Height(f, time, last)
    ensures Share(rest + [last]) == Share(rest) + last.share
  {
    hide Functions.Lawful, Height, Swells, Term;
    assert (rest + [last])[..|rest|] == rest;
    SwellsAddUp(f, time, last);
    SumJoins(f, time, AllSwells(rest), Swells(last));
  }

  lemma DeclaredParts(rest: seq<Wander>, last: Wander)
    requires Declared(rest + [last])
    ensures Declared(rest) && last.period > 0.0 && last.share >= 0.0
  {
    var all := rest + [last];
    assert all[|rest|] == last;
    assert forall i :: 0 <= i < |rest| ==> all[i] == rest[i];
  }

  lemma NoSwells(f: Functions, time: real)
    ensures Sum(f, time, AllSwells([])) == 0.0 && Share([]) == 0.0
  {
  }

  lemma {:induction false} SumBounded(f: Functions, time: real, wanders: seq<Wander>)
    requires f.Lawful() && Declared(wanders)
    ensures -Share(wanders) <= Sum(f, time, AllSwells(wanders)) <= Share(wanders)
  {
    hide *;
    if wanders == [] {
      NoSwells(f, time);
    } else {
      var rest, last := wanders[..|wanders| - 1], wanders[|wanders| - 1];
      assert wanders == rest + [last];
      DeclaredParts(rest, last);
      SumBounded(f, time, rest);
      OneSwellMore(f, time, rest, last);
      HeightBounded(f, time, last);
      Within(last.share, Height(f, time, last), last.share * Height(f, time, last));
    }
  }

  lemma Within(share: real, height: real, product: real)
    requires share >= 0.0 && -1.0 <= height <= 1.0 && product == share * height
    ensures -share <= product <= share
  {
    ProductMonotone(-1.0, height, share);
    ProductMonotone(height, 1.0, share);
  }

  /** The band holds for whatever swells are declared, as long as their shares add up to one. */
  lemma RateInBand(f: Functions, wanders: seq<Wander>, date: real, seed: real)
    requires f.Lawful() && Declared(wanders) && Share(wanders) == 1.0
    ensures SLOW_RATE <= Rate(f, wanders, date, seed) <= QUICK_RATE
  {
    hide Functions.Lawful, Sum, AllSwells, Share, Declared;
    SumBounded(f, date + seed, wanders);
  }

  /** Every swell with something to say is at one end: `side` is 1 for the crests, -1 for the troughs. */
  ghost predicate AllAt(f: Functions, time: real, wanders: seq<Wander>, side: real) {
    forall i :: 0 <= i < |wanders| ==> wanders[i].share == 0.0 || f.sin(Base(f, time, wanders[i])) == side * Crest(wanders[i].squared)
  }

  lemma PeakExactly(share: real, height: real, product: real)
    requires share >= 0.0 && -1.0 <= height <= 1.0 && product == share * height
    ensures -share <= product <= share
    ensures product == share <==> share == 0.0 || height == 1.0
    ensures product == -share <==> share == 0.0 || height == -1.0
  {
    Within(share, height, product);
    if share > 0.0 && height < 1.0 {
      ProductPositive(share, 1.0 - height, share - product);
    }
    if share > 0.0 && height > -1.0 {
      ProductPositive(share, height + 1.0, share + product);
    }
  }

  /** The sum reaches its bound exactly when every swell stands at that end at once. */
  lemma {:induction false} SumReaches(f: Functions, time: real, wanders: seq<Wander>)
    requires f.Lawful() && Declared(wanders)
    ensures Sum(f, time, AllSwells(wanders)) == Share(wanders) <==> AllAt(f, time, wanders, 1.0)
    ensures Sum(f, time, AllSwells(wanders)) == -Share(wanders) <==> AllAt(f, time, wanders, -1.0)
  {
    hide Functions.Lawful, Height, Swells, Term, Base, Crest, Declared, Sum, AllSwells, Share;
    if wanders == [] {
      NoSwells(f, time);
    } else {
      hide *;
      var rest, last := wanders[..|wanders| - 1], wanders[|wanders| - 1];
      assert wanders == rest + [last];
      DeclaredParts(rest, last);
      SumReaches(f, time, rest);
      SumBounded(f, time, rest);
      OneSwellMore(f, time, rest, last);
      HeightBounded(f, time, last);
      PeakExactly(last.share, Height(f, time, last), last.share * Height(f, time, last));
      AllAtMore(f, time, rest, last, 1.0);
      AllAtMore(f, time, rest, last, -1.0);
    }
  }

  lemma AllAtMore(f: Functions, time: real, rest: seq<Wander>, last: Wander, side: real)
    ensures AllAt(f, time, rest + [last], side) <==>
      AllAt(f, time, rest, side) && (last.share == 0.0 || f.sin(Base(f, time, last)) == side * Crest(last.squared))
  {
    hide Base, Crest;
    var all := rest + [last];
    assert all[|rest|] == last;
    assert forall i :: 0 <= i < |rest| ==> all[i] == rest[i];
  }

  /** The tempo is at an end of its band exactly when every swell is. */
  lemma RateReachesEnds(f: Functions, wanders: seq<Wander>, date: real, seed: real)
    requires f.Lawful() && Declared(wanders) && Share(wanders) == 1.0
    ensures Rate(f, wanders, date, seed) == QUICK_RATE <==> AllAt(f, date + seed, wanders, 1.0)
    ensures Rate(f, wanders, date, seed) == SLOW_RATE <==> AllAt(f, date + seed, wanders, -1.0)
  {
    hide Functions.Lawful, AllAt, Sum, AllSwells, Share;
    SumReaches(f, date + seed, wanders);
  }
}
