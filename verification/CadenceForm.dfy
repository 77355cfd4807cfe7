/** The tempo and the position written out in full, with nothing reduced and nothing accumulated. */
module CadenceForm {
  import opened Analysis
  import opened Algebra
  import opened Cadence
  import opened CadenceLaws
  import opened CadencePosition

  /** A sine `turn` of a cycle ahead of the epoch. */
  function Wave(f: Functions, time: real, period: real, turn: real): real
    requires period != 0.0
  {
    f.sin(Radians(f, time / period + turn))
  }

  function CoWave(f: Functions, time: real, period: real, turn: real): real
    requires period != 0.0
  {
    f.cos(Radians(f, time / period + turn))
  }

  /** A turn is two pi, and half a one is pi. */
  lemma RadiansMean(f: Functions, x: real)
    ensures Radians(f, x) == 2.0 * f.pi * x
    ensures Radians(f, x + 0.5) == Radians(f, x) + f.pi
  {
    Distribute(2.0 * f.pi, x + 0.5, x, 0.5);
  }

  /** Taking whole cycles off a swell's time changes neither its sine nor its cosine. */
  lemma CyclesHide(f: Functions, time: real, swell: Swell)
    requires f.Lawful() && swell.period > 0.0
    ensures f.sin(Angle(f, time, swell)) == Wave(f, time, swell.period, swell.turn)
    ensures f.cos(Angle(f, time, swell)) == CoWave(f, time, swell.period, swell.turn)
  {
    hide Functions.Lawful, Turn, Radians;
    var k := TurnParts(time, swell.period);
    var x := time / swell.period + swell.turn;
    WholeTurnsHide(f, Turn(time, swell.period) + swell.turn, x, -k);
  }

  // ---- The terms of the shipped tempo ----

  const FIRST := Swell(7.9, 0.6, 0.0)
  const THIRD := Swell(7.9 / 3.0, 0.2, 0.0)
  const FIFTH := Swell(7.9 / 5.0, 0.12, 0.0)
  const FOURTH := Swell(4.3, 0.31, 0.37)
  const LAST := Swell(1.9, 0.13, 0.61)

  lemma HarmonicZero(h: int)
    requires h > 0
    ensures HarmonicTurn(0.0, h) == 0.0
  {
    HarmonicTurnIs(0.0, h, 0.0);
  }

  lemma LongSwells()
    ensures Swells(LONG_WANDER) == [FIRST, THIRD, FIFTH]
  {
    SwellsOfSquared(LONG_WANDER);
    HarmonicZero(1);
    HarmonicZero(3);
    HarmonicZero(5);
    hide HarmonicTurn;
  }

  lemma TempoSwells()
    ensures AllSwells(TEMPO_WANDERS) == [FIRST, THIRD, FIFTH, FOURTH, LAST]
  {
    LongSwells();
    hide Harmonic;
    var w := TEMPO_WANDERS;
    assert w[..2] == [LONG_WANDER, MIDDLE_WANDER] && w[..1] == [LONG_WANDER];
    assert Swells(MIDDLE_WANDER) == [FOURTH] && Swells(SHORT_WANDER) == [LAST];
    assert [LONG_WANDER][..0] == [] && [LONG_WANDER, MIDDLE_WANDER][..1] == [LONG_WANDER];
    assert AllSwells([LONG_WANDER]) == AllSwells([]) + Swells(LONG_WANDER);
    assert AllSwells([LONG_WANDER, MIDDLE_WANDER]) == AllSwells([LONG_WANDER]) + Swells(MIDDLE_WANDER);
    assert AllSwells(w) == AllSwells(w[..2]) + Swells(SHORT_WANDER);
  }

  lemma TempoSum(f: Functions, time: real)
    ensures Sum(f, time, [FIRST, THIRD, FIFTH, FOURTH, LAST]) ==
      Term(f, time, FIRST) + Term(f, time, THIRD) + Term(f, time, FIFTH) + Term(f, time, FOURTH) + Term(f, time, LAST)
  {
    hide Term;
    SumOfThree(f, time, FIRST, THIRD, FIFTH);
    SumOfOne(f, time, FOURTH);
    SumOfOne(f, time, LAST);
    SumJoins(f, time, [FIRST, THIRD, FIFTH], [FOURTH]);
    SumJoins(f, time, [FIRST, THIRD, FIFTH, FOURTH], [LAST]);
    assert [FIRST, THIRD, FIFTH] + [FOURTH] == [FIRST, THIRD, FIFTH, FOURTH];
    assert [FIRST, THIRD, FIFTH, FOURTH] + [LAST] == [FIRST, THIRD, FIFTH, FOURTH, LAST];
  }

  lemma TermIs(f: Functions, time: real, swell: Swell)
    requires f.Lawful() && swell.period > 0.0
    ensures Term(f, time, swell) == swell.share * Wave(f, time, swell.period, swell.turn)
  {
    hide Functions.Lawful, Angle, Wave;
    CyclesHide(f, time, swell);
  }

  /** The shipped tempo, at the sum of the clock and the mount's own seed. */
  lemma RateWritten(f: Functions, date: real, seed: real)
    requires f.Lawful()
    ensures var t := date + seed;
            Rate(f, TEMPO_WANDERS, date, seed) == 0.625 + 0.3125 * (
              0.6 * Wave(f, t, 7.9, 0.0) + 0.2 * Wave(f, t, 7.9 / 3.0, 0.0) + 0.12 * Wave(f, t, 7.9 / 5.0, 0.0) +
              0.31 * Wave(f, t, 4.3, 0.37) + 0.13 * Wave(f, t, 1.9, 0.61))
  {
    hide Functions.Lawful, Wave, Term, Sum, AllSwells;
    var t := date + seed;
    RateIs(f, date, seed);
    TempoSwells();
    TempoSum(f, t);
    TermIs(f, t, FIRST);
    TermIs(f, t, THIRD);
    TermIs(f, t, FIFTH);
    TermIs(f, t, FOURTH);
    TermIs(f, t, LAST);
  }

  // ---- The position ----

  /** What a swell adds to the laps of the even pace. */
  function Offset(f: Functions, swells: seq<Swell>, time: real): real
    requires f.pi > 0.0
  {
    Laps(f, swells, time) - time / 1.6
  }

  lemma {:induction false} LeadsJoin(f: Functions, time: real, left: seq<Swell>, right: seq<Swell>)
    requires f.pi > 0.0
    ensures Leads(f, time, left + right) == Leads(f, time, left) + Leads(f, time, right)
    decreases |right|
  {
    hide Lead;
    if right == [] {
      assert left + right == left;
    } else {
      var last := |right| - 1;
      assert (left + right)[..|left + right| - 1] == left + right[..last];
      LeadsJoin(f, time, left, right[..last]);
    }
  }

  lemma LapsIs(f: Functions, swells: seq<Swell>, time: real)
    requires f.pi > 0.0
    ensures Laps(f, swells, time) == time / 1.6 - Leads(f, time, swells)
  {
    hide Leads;
  }

  /** With no swell the mark keeps the even pace from the epoch, and swells add up. */
  lemma OffsetsAdd(f: Functions, left: seq<Swell>, right: seq<Swell>, time: real)
    requires f.pi > 0.0
    ensures Laps(f, [], time) == time / 1.6
    ensures Offset(f, left + right, time) == Offset(f, left, time) + Offset(f, right, time)
  {
    hide Laps;
    LapsIs(f, [], time);
    LapsIs(f, left, time);
    LapsIs(f, right, time);
    LapsIs(f, left + right, time);
    LeadsJoin(f, time, left, right);
  }

  lemma OneLead(f: Functions, swell: Swell, time: real)
    requires f.pi > 0.0
    ensures Leads(f, time, [swell]) == Lead(f, time, swell)
  {
    hide Lead;
    assert [swell][..0] == [];
  }

  /** The opposite point of a cycle has the opposite cosine. */
  lemma Opposite(f: Functions, a: real, b: real)
    requires f.Lawful() && b == a + f.pi
    ensures f.cos(b) == -f.cos(a)
  {
    HalfTurn(f);
    assert f.SumAt(a, f.pi);
  }

  lemma HalfTurn(f: Functions)
    requires f.Lawful()
    ensures f.cos(f.pi) == -1.0 && f.sin(f.pi) == 0.0
  {
    var a := f.pi / 2.0;
    assert f.PeriodAt(f.pi, -f.pi, 1) && f.ParityAt(f.pi);
    assert -f.pi + 2.0 * f.pi * 1 as real == f.pi;
    assert f.SumAt(a, a) && f.CircleAt(a) && f.SignAt(a) && f.CircleAt(f.pi);
    assert a + a == f.pi;
    hide Functions.Lawful;
    Halved(f.sin(a), f.cos(a), f.sin(f.pi), f.cos(f.pi));
  }

  lemma Halved(s: real, c: real, s2: real, c2: real)
    requires s > 0.0 && s2 == s * c + c * s && c2 == c * c - s * s && c * c + s * s == 1.0 && s2 == 0.0
    ensures c2 == -1.0
  {
    if c != 0.0 {
      ProductNonzero(s, c);
    }
  }

  lemma HalfCycle(time: real, period: real)
    requires period > 0.0
    ensures (time + period / 2.0) / period == time / period + 0.5
  {
    QuotientSum(time, period / 2.0, period);
    QuotientIs(period / 2.0, period, 0.5);
  }

  lemma AngleOpposite(f: Functions, swell: Swell, time: real, later: real)
    requires f.Lawful() && swell.period > 0.0 && later == time + swell.period / 2.0
    ensures f.cos(Angle(f, later, swell)) == -f.cos(Angle(f, time, swell))
  {
    hide Functions.Lawful, Angle, Radians;
    var x := time / swell.period + swell.turn;
    CyclesHide(f, time, swell);
    CyclesHide(f, later, swell);
    HalfCycle(time, swell.period);
    RadiansMean(f, x);
    Opposite(f, Radians(f, x), Radians(f, x + 0.5));
    assert later / swell.period + swell.turn == x + 0.5;
  }

  /** Half a cycle on, a swell has the mark as far behind the even pace as it was ahead: it leads nowhere on the whole. */
  lemma OffsetOpposite(f: Functions, swell: Swell, time: real)
    requires f.Lawful() && swell.period > 0.0 && f.pi > 0.0
    ensures Offset(f, [swell], time + swell.period / 2.0) == -Offset(f, [swell], time)
  {
    hide Functions.Lawful, Angle, Leads, Laps, Lead;
    var later := time + swell.period / 2.0;
    LapsIs(f, [swell], time);
    LapsIs(f, [swell], later);
    OneLead(f, swell, time);
    OneLead(f, swell, later);
    AngleOpposite(f, swell, time, later);
    LeadOpposite(f, swell, time, later);
  }

  lemma LeadOpposite(f: Functions, swell: Swell, time: real, later: real)
    requires f.pi > 0.0 && f.cos(Angle(f, later, swell)) == -f.cos(Angle(f, time, swell))
    ensures Lead(f, later, swell) == -Lead(f, time, swell)
  {
    hide Reach, Angle;
  }

  // ---- The shipped position ----

  /** One sine of the speed, integrated: its share of the swing, over its own angular rate. */
  function Swing(f: Functions, share: real, period: real): real
    requires f.pi > 0.0
  {
    0.3125 * share * period / (2.0 * f.pi)
  }

  function Drift(f: Functions, time: real, share: real, period: real, turn: real): real
    requires f.pi > 0.0 && period != 0.0
  {
    Swing(f, share, period) * CoWave(f, time, period, turn)
  }

  lemma ReachIsSwing(f: Functions, swell: Swell, g: real)
    requires f.pi > 0.0 && g == 0.3125
    ensures RATE_SWING == g
    ensures Reach(f, swell) == Swing(f, swell.share, swell.period)
  {
  }

  lemma LeadWritten(f: Functions, time: real, swell: Swell)
    requires f.Lawful() && f.pi > 0.0 && swell.period > 0.0
    ensures Lead(f, time, swell) == Drift(f, time, swell.share, swell.period, swell.turn)
  {
    hide Functions.Lawful, Angle, CoWave, Reach, Swing;
    CyclesHide(f, time, swell);
    ReachIsSwing(f, swell, 0.3125);
  }

  lemma TempoLeads(f: Functions, time: real)
    requires f.pi > 0.0
    ensures Leads(f, time, [FIRST, THIRD, FIFTH, FOURTH, LAST]) ==
      Lead(f, time, FIRST) + Lead(f, time, THIRD) + Lead(f, time, FIFTH) + Lead(f, time, FOURTH) + Lead(f, time, LAST)
  {
    hide Lead;
    OneLead(f, FIRST, time);
    OneLead(f, THIRD, time);
    OneLead(f, FIFTH, time);
    OneLead(f, FOURTH, time);
    OneLead(f, LAST, time);
    LeadsJoin(f, time, [FIRST], [THIRD]);
    LeadsJoin(f, time, [FIRST, THIRD], [FIFTH]);
    LeadsJoin(f, time, [FIRST, THIRD, FIFTH], [FOURTH]);
    LeadsJoin(f, time, [FIRST, THIRD, FIFTH, FOURTH], [LAST]);
    assert [FIRST] + [THIRD] == [FIRST, THIRD] && [FIRST, THIRD] + [FIFTH] == [FIRST, THIRD, FIFTH];
    assert [FIRST, THIRD, FIFTH] + [FOURTH] == [FIRST, THIRD, FIFTH, FOURTH];
    assert [FIRST, THIRD, FIFTH, FOURTH] + [LAST] == [FIRST, THIRD, FIFTH, FOURTH, LAST];
  }

  /**
   The shipped mark's laps: the even pace from the epoch, less each sine's integral. What it is drawn
   at is their fraction.
   */
  lemma LapsWritten(f: Functions, t: real)
    requires f.Lawful() && f.pi > 0.0
    ensures Laps(f, AllSwells(TEMPO_WANDERS), t) == t / 1.6 - (
      Drift(f, t, 0.6, 7.9, 0.0) + Drift(f, t, 0.2, 7.9 / 3.0, 0.0) + Drift(f, t, 0.12, 7.9 / 5.0, 0.0) +
      Drift(f, t, 0.31, 4.3, 0.37) + Drift(f, t, 0.13, 1.9, 0.61))
  {
    hide Functions.Lawful, Leads, Laps, Lead, AllSwells, Drift;
    TempoSwells();
    LapsIs(f, [FIRST, THIRD, FIFTH, FOURTH, LAST], t);
    TempoLeads(f, t);
    LeadWritten(f, t, FIRST);
    LeadWritten(f, t, THIRD);
    LeadWritten(f, t, FIFTH);
    LeadWritten(f, t, FOURTH);
    LeadWritten(f, t, LAST);
  }

  lemma FractionMeans(x: real)
    ensures 0.0 <= Fraction(x) < 1.0 && Fraction(x) == x - x.Floor as real
  {
  }

  /** A turn is the part of a cycle that whole cycles leave over; a period that is none counts for nothing. */
  lemma TurnMeans(time: real, period: real)
    ensures period <= 0.0 ==> Turn(time, period) == 0.0
    ensures period > 0.0 ==> 0.0 <= Turn(time, period) < 1.0 && Turn(time, period) == time / period - (time / period).Floor as real
  {
    if period > 0.0 {
      TurnIsFraction(time, period);
      hide Turn;
    }
  }
}
