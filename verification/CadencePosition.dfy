/** The mark's position is its tempo's integral, so the tempo's band bounds every stretch of its walk. */
module CadencePosition {
  import opened Analysis
  import opened Algebra
  import opened Cadence
  import opened CadenceLaws

  predicate Sound(swells: seq<Swell>) {
    forall i :: 0 <= i < |swells| ==> swells[i].period > 0.0 && swells[i].share >= 0.0
  }

  lemma {:induction false} SwellsSound(wanders: seq<Wander>)
    requires Declared(wanders)
    ensures Sound(AllSwells(wanders))
  {
    if wanders != [] {
      SwellsSound(wanders[..|wanders| - 1]);
    }
  }

  // ---- One swell ----

  lemma PiPositive(f: Functions)
    requires f.Lawful()
    ensures f.pi > 0.0
  {
  }

  /** How sharply a swell can bend the walk. */
  function Bend(f: Functions, swell: Swell): real
    requires swell.period > 0.0
  {
    RATE_SWING * swell.share * f.pi / swell.period
  }

  lemma AngleAdvances(f: Functions, time: real, h: real, swell: Swell, d: real, b: real)
    requires f.Lawful() && swell.period > 0.0 && d == 2.0 * f.pi * (h / swell.period)
    requires b == Angle(f, time, swell) + d
    ensures f.cos(Angle(f, time + h, swell)) == f.cos(b)
  {
    hide Functions.Lawful, Turn;
    var p := swell.period;
    var k := TurnParts(time, p);
    var l := TurnParts(time + h, p);
    QuotientSum(time, h, p);
    var x, y := Turn(time + h, p) + swell.turn, Turn(time, p) + swell.turn;
    Advance(f.pi, x, y + h / p, y, h / p, (k - l) as real);
    Period(f, Angle(f, time + h, swell), b, k - l);
  }

  lemma Advance(pi: real, x: real, z: real, y: real, q: real, k: real)
    requires x == z + k && z == y + q
    ensures 2.0 * pi * x == 2.0 * pi * y + 2.0 * pi * q + 2.0 * pi * k
  {
    Distribute(2.0 * pi, x, z, k);
    Distribute(2.0 * pi, z, y, q);
  }

  lemma ReachFacts(f: Functions, swell: Swell, h: real, d: real)
    requires f.pi > 0.0 && swell.period > 0.0 && swell.share >= 0.0
    requires d == 2.0 * f.pi * (h / swell.period)
    ensures Reach(f, swell) >= 0.0
    ensures Reach(f, swell) * d == RATE_SWING * swell.share * h
    ensures Reach(f, swell) * (d * d / 2.0) == Bend(f, swell) * (h * h)
  {
    var g, p, q, turn := RATE_SWING * swell.share, swell.period, h / swell.period, 2.0 * f.pi;
    var r := Reach(f, swell);
    QuotientTimes(h, p, q);
    QuotientTimes(g * p, turn, r);
    assert r * d == r * turn * q;
    assert r * d == g * (q * p);
    var b := Bend(f, swell);
    QuotientTimes(g * f.pi, p, b);
    assert r * (d * d / 2.0) == r * d * d / 2.0;
    assert d / 2.0 == f.pi * q;
    assert g * h * (f.pi * q) == g * f.pi * (h * q);
    assert b * (h * h) == b * p * (q * h);
    if r < 0.0 {
      ProductPositive(-r, turn, -r * turn);
      ProductMonotone(0.0, g, p);
    }
  }

  /** What a first-order step of a cosine leaves over. */
  function Leftover(c1: real, c0: real, s: real, d: real): real {
    c1 - c0 + d * s
  }

  function HalfSquare(d: real): real {
    d * d / 2.0
  }

  lemma Scaled(r: real, c1: real, c0: real, s: real, d: real, lead1: real, lead0: real, push: real, bound: real)
    requires r >= 0.0 && -HalfSquare(d) <= Leftover(c1, c0, s, d) <= HalfSquare(d)
    requires lead1 == r * c1 && lead0 == r * c0 && push == r * d * s && bound == r * (d * d / 2.0)
    ensures -bound <= lead1 - lead0 + push <= bound
  {
    var e := Leftover(c1, c0, s, d);
    assert r * e == lead1 - lead0 + push;
    ProductMonotone(e, d * d / 2.0, r);
    ProductMonotone(-e, d * d / 2.0, r);
  }

  lemma Taylor(f: Functions, a: real, b: real, d: real)
    requires f.Lawful() && b == a + d
    ensures -HalfSquare(d) <= Leftover(f.cos(b), f.cos(a), f.sin(a), d) <= HalfSquare(d)
  {
    assert f.TaylorAt(a, d);
  }

  lemma Regrouped(r: real, d: real, s: real, g: real, h: real, share: real, term: real, push: real)
    requires r * d == g * share * h && term == share * s && push == g * h * term
    ensures push == r * d * s
  {
    assert g * share * h * s == g * h * (share * s);
  }

  lemma LeadIs(f: Functions, time: real, swell: Swell, a: real)
    requires f.pi > 0.0 && a == Angle(f, time, swell)
    ensures Lead(f, time, swell) == Reach(f, swell) * f.cos(a)
    ensures Term(f, time, swell) == swell.share * f.sin(a)
  {
  }

  lemma LeadCosines(f: Functions, time: real, h: real, swell: Swell, d: real, b: real)
    requires f.Lawful() && f.pi > 0.0 && swell.period > 0.0 && d == 2.0 * f.pi * (h / swell.period)
    requires b == Angle(f, time, swell) + d
    ensures Lead(f, time + h, swell) == Reach(f, swell) * f.cos(b)
    ensures Lead(f, time, swell) == Reach(f, swell) * f.cos(Angle(f, time, swell))
  {
    hide *;
    AngleAdvances(f, time, h, swell, d, b);
    LeadIs(f, time, swell, Angle(f, time, swell));
    LeadIs(f, time + h, swell, Angle(f, time + h, swell));
  }

  lemma LeadPush(f: Functions, time: real, h: real, swell: Swell, d: real, push: real, bound: real)
    requires f.pi > 0.0 && swell.period > 0.0 && swell.share >= 0.0 && d == 2.0 * f.pi * (h / swell.period)
    requires push == RATE_SWING * h * Term(f, time, swell) && bound == Bend(f, swell) * (h * h)
    ensures Reach(f, swell) >= 0.0
    ensures push == Reach(f, swell) * d * f.sin(Angle(f, time, swell))
    ensures bound == Reach(f, swell) * (d * d / 2.0)
  {
    hide *;
    ReachFacts(f, swell, h, d);
    LeadIs(f, time, swell, Angle(f, time, swell));
    Regrouped(Reach(f, swell), d, f.sin(Angle(f, time, swell)), RATE_SWING, h, swell.share, Term(f, time, swell), push);
  }

  /** To first order, a swell's lead changes by the share of the tempo it takes away. */
  lemma LeadFollows(f: Functions, time: real, h: real, swell: Swell, push: real, bound: real)
    requires f.Lawful() && swell.period > 0.0 && swell.share >= 0.0
    requires push == RATE_SWING * h * Term(f, time, swell) && bound == Bend(f, swell) * (h * h)
    ensures -bound <= Lead(f, time + h, swell) - Lead(f, time, swell) + push <= bound
  {
    hide *;
    PiPositive(f);
    var d := 2.0 * f.pi * (h / swell.period);
    var a := Angle(f, time, swell);
    var b := a + d;
    LeadCosines(f, time, h, swell, d, b);
    Taylor(f, a, b, d);
    LeadPush(f, time, h, swell, d, push, bound);
    Scaled(Reach(f, swell), f.cos(b), f.cos(a), f.sin(a), d, Lead(f, time + h, swell), Lead(f, time, swell), push, bound);
  }

  // ---- The whole walk ----

  function Bends(f: Functions, swells: seq<Swell>): real
    requires Sound(swells)
  {
    if swells == [] then 0.0 else Bends(f, swells[..|swells| - 1]) + Bend(f, swells[|swells| - 1])
  }

  lemma LastSwell(f: Functions, time: real, rest: seq<Swell>, last: Swell)
    requires f.pi > 0.0 && Sound(rest + [last])
    ensures Sound(rest) && last.period > 0.0 && last.share >= 0.0
    ensures Sum(f, time, rest + [last]) == Sum(f, time, rest) + Term(f, time, last)
    ensures Leads(f, time, rest + [last]) == Leads(f, time, rest) + Lead(f, time, last)
    ensures Bends(f, rest + [last]) == Bends(f, rest) + Bend(f, last)
  {
    hide Term, Lead, Bend;
    var all := rest + [last];
    assert all[..|rest|] == rest && all[|rest|] == last;
    assert forall i :: 0 <= i < |rest| ==> all[i] == rest[i];
  }

  lemma NoLeads(f: Functions, time: real)
    requires f.pi > 0.0
    ensures Sum(f, time, []) == 0.0 && Leads(f, time, []) == 0.0 && Bends(f, []) == 0.0
  {
  }

  lemma {:induction false} LeadsFollow(f: Functions, time: real, h: real, swells: seq<Swell>, push: real, bound: real)
    requires f.Lawful() && Sound(swells)
    requires push == RATE_SWING * h * Sum(f, time, swells) && bound == Bends(f, swells) * (h * h)
    ensures -bound <= Leads(f, time + h, swells) - Leads(f, time, swells) + push <= bound
    decreases |swells|
  {
    hide *;
    PiPositive(f);
    if swells == [] {
      NoLeads(f, time);
      NoLeads(f, time + h);
    } else {
      var rest, last := swells[..|swells| - 1], swells[|swells| - 1];
      assert swells == rest + [last];
      LastSwell(f, time, rest, last);
      LastSwell(f, time + h, rest, last);
      var push1, bound1 := RATE_SWING * h * Sum(f, time, rest), Bends(f, rest) * (h * h);
      var push2, bound2 := RATE_SWING * h * Term(f, time, last), Bend(f, last) * (h * h);
      LeadsFollow(f, time, h, rest, push1, bound1);
      LeadFollows(f, time, h, last, push2, bound2);
      Join(RATE_SWING * h, Sum(f, time, rest), Term(f, time, last), Sum(f, time, swells), push);
      Join(h * h, Bends(f, rest), Bend(f, last), Bends(f, swells), bound);
    }
  }

  lemma Join(c: real, a: real, b: real, sum: real, product: real)
    requires sum == a + b && product == c * sum
    ensures product == c * a + c * b
  {
  }

  lemma RateStep(f: Functions, wanders: seq<Wander>, date: real, h: real, seed: real, push: real, step: real)
    requires step == h * Rate(f, wanders, date, seed)
    requires push == RATE_SWING * h * Sum(f, date + seed, AllSwells(wanders))
    ensures step == h * MID_RATE + push
  {
    hide Sum, AllSwells;
  }

  lemma LapsStep(f: Functions, swells: seq<Swell>, time: real, h: real)
    requires f.pi > 0.0
    ensures Laps(f, swells, time + h) - Laps(f, swells, time) ==
      h * MID_RATE - (Leads(f, time + h, swells) - Leads(f, time, swells))
  {
    hide Leads;
  }

  /** How sharply all the swells together can bend the walk. */
  function BendOf(f: Functions, wanders: seq<Wander>): real
    requires Declared(wanders)
  {
    SwellsSound(wanders);
    Bends(f, AllSwells(wanders))
  }

  lemma BendIs(f: Functions, wanders: seq<Wander>)
    requires Declared(wanders)
    ensures Sound(AllSwells(wanders)) && BendOf(f, wanders) == Bends(f, AllSwells(wanders))
  {
    hide Bends, AllSwells;
    SwellsSound(wanders);
  }

  /** The tempo is the slope of the walk. */
  lemma LapsFollowRate(f: Functions, wanders: seq<Wander>, date: real, h: real, seed: real, step: real, bound: real)
    requires f.Lawful() && Declared(wanders)
    requires step == h * Rate(f, wanders, date, seed) && bound == BendOf(f, wanders) * (h * h)
    ensures -bound <= Laps(f, AllSwells(wanders), date + seed + h) - Laps(f, AllSwells(wanders), date + seed) - step <= bound
  {
    hide *;
    PiPositive(f);
    BendIs(f, wanders);
    var time, swells := date + seed, AllSwells(wanders);
    var push := RATE_SWING * h * Sum(f, time, swells);
    LeadsFollow(f, time, h, swells, push, bound);
    RateStep(f, wanders, date, h, seed, push, step);
    LapsStep(f, swells, time, h);
  }

  // ---- From the slope to the walk ----

  /** One short step of the walk, against the band. */
  lemma StepInBand(f: Functions, wanders: seq<Wander>, date: real, h: real, seed: real, waste: real)
    requires f.Lawful() && Declared(wanders) && Share(wanders) == 1.0
    requires h > 0.0 && waste == BendOf(f, wanders) * (h * h)
    ensures h * SLOW_RATE - waste <=
      Laps(f, AllSwells(wanders), date + seed + h) - Laps(f, AllSwells(wanders), date + seed) <= h * QUICK_RATE + waste
  {
    hide *;
    PiPositive(f);
    var rate := Rate(f, wanders, date, seed);
    RateInBand(f, wanders, date, seed);
    LapsFollowRate(f, wanders, date, h, seed, h * rate, waste);
    ProductMonotone(SLOW_RATE, rate, h);
    ProductMonotone(rate, QUICK_RATE, h);
  }

  lemma {:induction false} StepsInBand(f: Functions, wanders: seq<Wander>, start: real, h: real, n: nat, waste: real,
                                       end: real, low: real, high: real)
    requires f.Lawful() && Declared(wanders) && Share(wanders) == 1.0
    requires h > 0.0 && waste == BendOf(f, wanders) * (h * h) && end == start + n as real * h
    requires low == h * SLOW_RATE - waste && high == h * QUICK_RATE + waste
    ensures n as real * low <= Laps(f, AllSwells(wanders), end) - Laps(f, AllSwells(wanders), start) <= n as real * high
    decreases n
  {
    hide *;
    PiPositive(f);
    if n == 0 {
      assert end == start;
    } else {
      var before := start + (n - 1) as real * h;
      OneMore(n, h);
      OneMore(n, low);
      OneMore(n, high);
      StepsInBand(f, wanders, start, h, n - 1, waste, before, low, high);
      StepInBand(f, wanders, before, h, 0.0, waste);
      assert before + 0.0 + h == end && before + 0.0 == before;
    }
  }

  lemma OneMore(n: nat, step: real)
    requires n > 0
    ensures n as real * step == (n - 1) as real * step + step
  {
    assert n as real == (n - 1) as real + 1.0;
  }

  /** Enough steps make the waste as small as wanted. */
  lemma Archimedes(bend: real, span: real, slack: real) returns (n: nat, h: real)
    requires span > 0.0 && slack > 0.0
    ensures n > 0 && h > 0.0 && n as real * h == span
    ensures n as real * (bend * (h * h)) < slack
  {
    var most := bend * (span * span) / slack;
    n := if most < 0.0 then 1 else most.Floor + 1;
    var m := n as real;
    assert m > most && m > 0.0;
    h := span / m;
    QuotientTimes(span, m, h);
    QuotientTimes(bend * (span * span), slack, most);
    if h <= 0.0 {
      ProductMonotone(h, 0.0, m);
    }
    var waste := m * (bend * (h * h));
    assert waste * m == bend * ((h * m) * (h * m));
    assert waste * m == most * slack;
    ProductPositive(m - most, slack, (m - most) * slack);
    if waste >= slack {
      ProductMonotone(slack, waste, m);
    }
  }

  lemma Sums(n: nat, h: real, span: real, rate: real, waste: real)
    requires n as real * h == span
    ensures n as real * (h * rate - waste) == span * rate - n as real * waste
    ensures n as real * (h * rate + waste) == span * rate + n as real * waste
  {
  }

  lemma WalkWithin(f: Functions, wanders: seq<Wander>, from: real, to: real, slack: real)
    requires f.Lawful() && Declared(wanders) && Share(wanders) == 1.0
    requires from < to && slack > 0.0
    ensures (to - from) * SLOW_RATE - slack <=
      Laps(f, AllSwells(wanders), to) - Laps(f, AllSwells(wanders), from) <= (to - from) * QUICK_RATE + slack
  {
    hide *;
    PiPositive(f);
    var n, h := Archimedes(BendOf(f, wanders), to - from, slack);
    var waste := BendOf(f, wanders) * (h * h);
    StepsInBand(f, wanders, from, h, n, waste, to, h * SLOW_RATE - waste, h * QUICK_RATE + waste);
    Sums(n, h, to - from, SLOW_RATE, waste);
    Sums(n, h, to - from, QUICK_RATE, waste);
  }

  /** Between any two instants the mark walks at least the slow tempo's laps and at most the quick one's. */
  lemma WalkInBand(f: Functions, wanders: seq<Wander>, from: real, to: real)
    requires f.Lawful() && Declared(wanders) && Share(wanders) == 1.0 && from < to
    ensures (to - from) * SLOW_RATE <=
      Laps(f, AllSwells(wanders), to) - Laps(f, AllSwells(wanders), from) <= (to - from) * QUICK_RATE
  {
    PiPositive(f);
    hide *;
    var walked := Laps(f, AllSwells(wanders), to) - Laps(f, AllSwells(wanders), from);
    var least, most := (to - from) * SLOW_RATE, (to - from) * QUICK_RATE;
    if walked < least {
      WalkWithin(f, wanders, from, to, (least - walked) / 2.0);
    } else if walked > most {
      WalkWithin(f, wanders, from, to, (walked - most) / 2.0);
    }
  }

  // ---- The shipped tempo ----

  lemma TempoDeclared()
    ensures Declared(TEMPO_WANDERS) && Share(TEMPO_WANDERS) == 1.0
  {
    var w := TEMPO_WANDERS;
    assert w[..3][..2] == w[..2] && w[..2][..1] == w[..1] && w[..3] == w && w[..1][..0] == [];
    assert Share(w[..1]) == 0.56;
    assert Share(w[..2]) == 0.87;
  }

  lemma TempoSum(f: Functions, time: real, a: real, b: real, c: real)
    requires f.Lawful()
    requires a == Height(f, time, LONG_WANDER)
    requires b == Height(f, time, MIDDLE_WANDER)
    requires c == Height(f, time, SHORT_WANDER)
    ensures Sum(f, time, AllSwells(TEMPO_WANDERS)) == 0.56 * a + 0.31 * b + 0.13 * c
  {
    hide Functions.Lawful, Height, Sum, AllSwells, Share;
    var w := TEMPO_WANDERS;
    assert w[..2] == w[..1] + [w[1]] && w == w[..2] + [w[2]] && w[..1] == [] + [w[0]];
    OneSwellMore(f, time, [], w[0]);
    OneSwellMore(f, time, w[..1], w[1]);
    OneSwellMore(f, time, w[..2], w[2]);
    NoSwells(f, time);
  }

  lemma Levels(f: Functions, turns: real, squared: bool)
    requires f.Lawful()
    ensures f.sin(Radians(f, turns)) == Crest(squared) ==>
      if squared then Whole(turns - 1.0 / 12.0) || Whole(turns - 5.0 / 12.0) else Whole(turns - 0.25)
    ensures f.sin(Radians(f, turns)) == -Crest(squared) ==>
      if squared then Whole(turns + 1.0 / 12.0) || Whole(turns + 5.0 / 12.0) else Whole(turns + 0.25)
  {
    assert f.LevelAt(turns);
  }

  /** The long swell and the middle one never crest, and never bottom out, at the same instant. */
  lemma NeverTogether(f: Functions, time: real)
    requires f.Lawful()
    ensures !(Height(f, time, LONG_WANDER) == 1.0 && Height(f, time, MIDDLE_WANDER) == 1.0)
    ensures !(Height(f, time, LONG_WANDER) == -1.0 && Height(f, time, MIDDLE_WANDER) == -1.0)
  {
    hide Functions.Lawful, Height, Place, Crest;
    var long, middle := LONG_WANDER, MIDDLE_WANDER;
    HeightBounded(f, time, long);
    HeightBounded(f, time, middle);
    Levels(f, Place(time, long), true);
    Levels(f, Place(time, middle), false);
    BaseIs(f, time, long);
    BaseIs(f, time, middle);
    OutOfStep(time, Place(time, long), Place(time, middle));
  }

  lemma BaseIs(f: Functions, time: real, w: Wander)
    ensures Base(f, time, w) == Radians(f, Place(time, w))
  {
  }

  lemma OutOfStep(time: real, long: real, middle: real)
    requires long == Place(time, LONG_WANDER) && middle == Place(time, MIDDLE_WANDER)
    ensures !((Whole(long - 1.0 / 12.0) || Whole(long - 5.0 / 12.0)) && Whole(middle - 0.25))
    ensures !((Whole(long + 1.0 / 12.0) || Whole(long + 5.0 / 12.0)) && Whole(middle + 0.25))
  {
    hide Turn;
    var k := TurnParts(time, 7.9);
    var l := TurnParts(time, 4.3);
    var p, q := time / 7.9, time / 4.3;
    assert 7.9 * p == time && 4.3 * q == time;
    NoMeeting(p, q, k, l, 1.0 / 12.0, 0.25);
    NoMeeting(p, q, k, l, 5.0 / 12.0, 0.25);
    NoMeeting(p, q, k, l, -1.0 / 12.0, -0.25);
    NoMeeting(p, q, k, l, -5.0 / 12.0, -0.25);
  }

  predicate Ends(crest: real, peak: real) {
    || (peak == 0.25 && (crest == 1.0 / 12.0 || crest == 5.0 / 12.0))
    || (peak == -0.25 && (crest == -1.0 / 12.0 || crest == -5.0 / 12.0))
  }

  lemma NeverLevel(a: int, b: int, crest: real, peak: real)
    requires Ends(crest, peak)
    ensures 7.9 * (a as real + crest) != 4.3 * (b as real + peak - 0.37)
  {
    var gap := 474 * a - 258 * b;
    assert 60.0 * (7.9 * (a as real + crest) - 4.3 * (b as real + peak - 0.37)) ==
      gap as real + 474.0 * crest - 258.0 * (peak - 0.37);
  }

  lemma NoMeeting(p: real, q: real, k: int, l: int, crest: real, peak: real)
    requires 7.9 * p == 4.3 * q && Ends(crest, peak)
    ensures !(Whole(p - k as real - crest) && Whole(q - l as real + 0.37 - peak))
  {
    NeverLevel((p - k as real - crest).Floor + k, (q - l as real + 0.37 - peak).Floor + l, crest, peak);
  }

  /** The tempo keeps strictly inside its band: it reaches neither end. */
  lemma TempoStrictlyInside(f: Functions, date: real, seed: real)
    requires f.Lawful()
    ensures SLOW_RATE < Rate(f, TEMPO_WANDERS, date, seed) < QUICK_RATE
  {
    hide *;
    var time := date + seed;
    var a, b, c := Height(f, time, LONG_WANDER), Height(f, time, MIDDLE_WANDER), Height(f, time, SHORT_WANDER);
    HeightBounded(f, time, LONG_WANDER);
    HeightBounded(f, time, MIDDLE_WANDER);
    HeightBounded(f, time, SHORT_WANDER);
    TempoSum(f, time, a, b, c);
    NeverTogether(f, time);
    RateIs(f, date, seed);
  }

  lemma RateIs(f: Functions, date: real, seed: real)
    ensures Rate(f, TEMPO_WANDERS, date, seed) == 0.625 + 0.3125 * Sum(f, date + seed, AllSwells(TEMPO_WANDERS))
    ensures SLOW_RATE == 0.3125 && QUICK_RATE == 0.9375
  {
    hide Sum, AllSwells;
  }

  /** The hole never runs backwards and never stands: a later instant is a later place, and no lap is skipped. */
  lemma NeverStallsOrReverses(f: Functions, from: real, to: real)
    requires f.Lawful() && from < to
    ensures var swells := AllSwells(TEMPO_WANDERS);
            0.3125 * (to - from) <= Laps(f, swells, to) - Laps(f, swells, from) <= 0.9375 * (to - from)
  {
    TempoDeclared();
    hide *;
    PiPositive(f);
    RateIs(f, 0.0, 0.0);
    WalkInBand(f, TEMPO_WANDERS, from, to);
  }
}
