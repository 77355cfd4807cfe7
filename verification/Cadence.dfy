/** The thinking mark's cadence: a tempo that wanders between two ends, and the position it integrates to. */
module Cadence {
  import opened Analysis
  import opened Algebra

  const HERDR_LAP_PERIOD: real := 64.0 / 60.0
  const SLOWEST_LAP_PERIOD: real := 3.2
  const QUICK_RATE: real := 1.0 / HERDR_LAP_PERIOD
  const SLOW_RATE: real := 1.0 / SLOWEST_LAP_PERIOD
  const MID_RATE: real := (QUICK_RATE + SLOW_RATE) / 2.0
  const RATE_SWING: real := (QUICK_RATE - SLOW_RATE) / 2.0
  const LAP_PERIOD: real := 1.0 / MID_RATE

  /** One sine on the mark's speed: `share` of the swing, `turn` of a cycle ahead of the epoch. */
  datatype Swell = Swell(period: real, share: real, turn: real)

  /** A swell as declared: `share` is the peak it reaches, on one sine or on three odd harmonics. */
  datatype Wander = Wander(period: real, share: real, turn: real, squared: bool)

  const SQUARED_SWELL_PEAK: real := 14.0 / 15.0
  const HARMONICS: seq<int> := [1, 3, 5]

  const LONG_WANDER := Wander(7.9, 0.56, 0.0, true)
  const MIDDLE_WANDER := Wander(4.3, 0.31, 0.37, false)
  const SHORT_WANDER := Wander(1.9, 0.13, 0.61, false)
  const TEMPO_WANDERS: seq<Wander> := [LONG_WANDER, MIDDLE_WANDER, SHORT_WANDER]

  // ---- Remainders ----

  function Truncated(x: real): int {
    if x < 0.0 then -((-x).Floor) else x.Floor
  }

  /** The remainder of a division that rounds its quotient towards zero. */
  function Remainder(x: real, y: real): real
    requires y != 0.0
  {
    x - y * Truncated(x / y) as real
  }

  /** `time` as a fraction of one cycle of `period`, also before the epoch. */
  function Turn(time: real, period: real): real {
    if period <= 0.0 then 0.0
    else
      var turn := Remainder(time, period) / period;
      if turn < 0.0 then turn + 1.0 else turn
  }

  function Fraction(x: real): real {
    x - x.Floor as real
  }

  // ---- The tempo ----

  function Harmonic(w: Wander, h: int): Swell
    requires h > 0
  {
    Swell(w.period / h as real, w.share / SQUARED_SWELL_PEAK / h as real, HarmonicTurn(w.turn, h))
  }

  function HarmonicTurn(turn: real, h: int): real {
    Remainder(turn * h as real, 1.0)
  }

  /** The sine terms a declared swell expands into. */
  function Swells(w: Wander): seq<Swell> {
    if !w.squared then [Swell(w.period, w.share, w.turn)]
    else seq(|HARMONICS|, i requires 0 <= i < |HARMONICS| => Harmonic(w, HARMONICS[i]))
  }

  function AllSwells(wanders: seq<Wander>): seq<Swell> {
    if wanders == [] then [] else AllSwells(wanders[..|wanders| - 1]) + Swells(wanders[|wanders| - 1])
  }

  function Radians(f: Functions, turns: real): real {
    2.0 * f.pi * turns
  }

  function Angle(f: Functions, time: real, swell: Swell): real {
    Radians(f, Turn(time, swell.period) + swell.turn)
  }

  function Term(f: Functions, time: real, swell: Swell): real {
    swell.share * f.sin(Angle(f, time, swell))
  }

  function Sum(f: Functions, time: real, swells: seq<Swell>): real {
    if swells == [] then 0.0 else Sum(f, time, swells[..|swells| - 1]) + Term(f, time, swells[|swells| - 1])
  }

  /** Laps a second at one instant. */
  function Rate(f: Functions, wanders: seq<Wander>, date: real, seed: real): real {
    MID_RATE + RATE_SWING * Sum(f, date + seed, AllSwells(wanders))
  }

  // ---- The position ----

  /** How far ahead of the even pace one swell can get the mark. */
  function Reach(f: Functions, swell: Swell): real
    requires f.pi > 0.0
  {
    RATE_SWING * swell.share * swell.period / (2.0 * f.pi)
  }

  function Lead(f: Functions, time: real, swell: Swell): real
    requires f.pi > 0.0
  {
    Reach(f, swell) * f.cos(Angle(f, time, swell))
  }

  function Leads(f: Functions, time: real, swells: seq<Swell>): real
    requires f.pi > 0.0
  {
    if swells == [] then 0.0
    else Leads(f, time, swells[..|swells| - 1]) + Lead(f, time, swells[|swells| - 1])
  }

  /** The laps turned since the epoch, never wrapped. */
  function Laps(f: Functions, swells: seq<Swell>, time: real): real
    requires f.pi > 0.0
  {
    time / LAP_PERIOD - Leads(f, time, swells)
  }

  // ---- Whole cycles do not show ----

  lemma FractionShifted(x: real, k: int)
    ensures Fraction(x - k as real) == Fraction(x)
  {
    assert (x - k as real).Floor == x.Floor - k;
  }

  /** Dropping the whole part towards zero, and adding one back below zero, leaves the fraction. */
  lemma FractionByTruncation(q: real)
    ensures Fraction(q) == if q - Truncated(q) as real < 0.0 then q - Truncated(q) as real + 1.0 else q - Truncated(q) as real
    ensures 0.0 <= Fraction(q) < 1.0
  {
    if q < 0.0 {
      var m := (-q).Floor;
      assert m as real <= -q < m as real + 1.0;
      if m as real == -q {
        assert q.Floor == -m;
      } else {
        assert q.Floor == -m - 1;
      }
    }
  }

  lemma RemainderInPeriods(time: real, period: real, q: real)
    requires period > 0.0 && q == time / period
    ensures Remainder(time, period) / period == q - Truncated(q) as real
  {
    hide Truncated;
    var k := Truncated(q) as real;
    QuotientTimes(time, period, q);
    assert (q - k) * period == q * period - period * k;
    QuotientIs(time - period * k, period, q - k);
  }

  /** A turn is the fraction of the time counted in periods, on either side of the epoch. */
  lemma TurnIsFraction(time: real, period: real)
    requires period > 0.0
    ensures Turn(time, period) == Fraction(time / period)
  {
    hide Truncated, Remainder, Fraction;
    RemainderInPeriods(time, period, time / period);
    FractionByTruncation(time / period);
  }

  lemma RemainderOfOne(x: real)
    ensures Remainder(x, 1.0) == x - Truncated(x) as real
  {
    assert x / 1.0 == x;
  }

  /** The mark's position in its lap: the unwrapped laps, with the whole ones taken off. */
  method Phase(f: Functions, date: real, seed: real) returns (phase: real)
    requires f.pi > 0.0
    ensures phase == Fraction(Laps(f, AllSwells(TEMPO_WANDERS), date + seed))
    ensures 0.0 <= phase < 1.0
  {
    hide Lead, Turn, Truncated, Remainder, AllSwells;
    var time := date + seed;
    var swells := AllSwells(TEMPO_WANDERS);
    var laps := Turn(time, LAP_PERIOD);
    for i := 0 to |swells|
      invariant laps == Turn(time, LAP_PERIOD) - Leads(f, time, swells[..i])
    {
      assert swells[..i + 1][..i] == swells[..i];
      laps := laps - Lead(f, time, swells[i]);
    }
    assert swells[..|swells|] == swells;
    TurnIsFraction(time, LAP_PERIOD);
    FractionShifted(Laps(f, swells, time), (time / LAP_PERIOD).Floor);
    RemainderOfOne(laps);
    FractionByTruncation(laps);
    phase := Remainder(laps, 1.0);
    if phase < 0.0 {
      phase := phase + 1.0;
    }
  }
}
