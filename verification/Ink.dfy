/** The gap that glides round the cell: how lit each dot is, and the ink the gap takes out. */
module Ink {
  import opened Analysis
  import opened Algebra
  import opened Cadence

  const DOT_COUNT := 8

  /** Distance around the cell, whichever way is shorter. */
  function Gap(offset: real): real {
    var gap := Remainder(Abs(offset), 8.0);
    if gap > 4.0 then 8.0 - gap else gap
  }

  function Clamped(x: real): real {
    if x <= 0.0 then 0.0 else if x >= 1.0 then 1.0 else x
  }

  /** How lit a dot is, for a hole of a given width whose fully dark dots keep `floor` of their ink. */
  function Lit(index: int, hole: real, width: real, floor: real): real {
    floor + (1.0 - floor) * Clamped(Gap(index as real - hole) - (width - 1.0) / 2.0)
  }

  method LitDot(index: int, hole: real, width: real, floor: real) returns (lit: real)
    ensures lit == Lit(index, hole, width, floor)
  {
    hide Remainder, Clamped;
    var gap := Remainder(Abs(index as real - hole), 8.0);
    if gap > 4.0 {
      gap := 8.0 - gap;
    }
    assert gap == Gap(index as real - hole);
    hide *;
    var shade := Clamped(gap - (width - 1.0) / 2.0);
    LitIs(index, hole, width, floor, gap, shade);
    lit := floor + (1.0 - floor) * shade;
  }

  lemma LitIs(index: int, hole: real, width: real, floor: real, gap: real, shade: real)
    requires gap == Gap(index as real - hole) && shade == Clamped(gap - (width - 1.0) / 2.0)
    ensures Lit(index, hole, width, floor) == floor + (1.0 - floor) * shade
  {
    hide Gap, Clamped;
  }

  lemma RemainderOfEight(x: real, n: int)
    requires 0.0 <= x && 8.0 * n as real <= x < 8.0 * n as real + 8.0
    ensures Remainder(x, 8.0) == x - 8.0 * n as real
  {
    assert (x / 8.0).Floor == n;
  }

  /** The distance is to the nearest of the dot's places on the endless unrolled cell. */
  lemma GapIs(offset: real, turns: int)
    requires -4.0 <= offset - 8.0 * turns as real <= 4.0
    ensures Gap(offset) == Abs(offset - 8.0 * turns as real)
  {
    hide Remainder;
    var size, n := Abs(offset), if offset < 0.0 then -turns else turns;
    if size < 8.0 * n as real {
      RemainderOfEight(size, n - 1);
    } else {
      RemainderOfEight(size, n);
    }
  }

  /** What a dot loses of its ink. */
  function Dark(index: int, hole: real, width: real): real {
    1.0 - Clamped(Gap(index as real - hole) - (width - 1.0) / 2.0)
  }

  function Darkness(hole: real, width: real, dots: nat): real {
    if dots == 0 then 0.0 else Darkness(hole, width, dots - 1) + Dark(dots - 1, hole, width)
  }

  /** All the ink taken out of the cell. */
  function InkRemoved(hole: real, width: real, floor: real, dots: nat): real {
    if dots == 0 then 0.0 else InkRemoved(hole, width, floor, dots - 1) + (1.0 - Lit(dots - 1, hole, width, floor))
  }

  lemma {:induction false} InkIsDarkness(hole: real, width: real, floor: real, dots: nat)
    ensures InkRemoved(hole, width, floor, dots) == (1.0 - floor) * Darkness(hole, width, dots)
  {
    hide Gap, Clamped;
    if dots > 0 {
      InkIsDarkness(hole, width, floor, dots - 1);
      DotIsDark(floor, Clamped(Gap((dots - 1) as real - hole) - (width - 1.0) / 2.0), Darkness(hole, width, dots - 1));
    }
  }

  lemma DotIsDark(floor: real, shade: real, rest: real)
    ensures (1.0 - floor) * rest + (1.0 - (floor + (1.0 - floor) * shade)) == (1.0 - floor) * (rest + (1.0 - shade))
  {
  }

  /** Around the hole the dots stand at whole steps from `f`, on both sides. */
  function Ring(f: real, half: real): real {
    Shade(f, half) + Shade(1.0 + f, half) + Shade(2.0 + f, half) + Shade(3.0 + f, half) +
    Shade(1.0 - f, half) + Shade(2.0 - f, half) + Shade(3.0 - f, half) + Shade(4.0 - f, half)
  }

  function Shade(gap: real, half: real): real {
    1.0 - Clamped(gap - half)
  }

  lemma DarkAt(index: int, hole: real, width: real, turns: int, gap: real)
    requires 0.0 <= gap <= 4.0
    requires index as real - hole - 8.0 * turns as real == gap || index as real - hole - 8.0 * turns as real == -gap
    ensures Dark(index, hole, width) == Shade(gap, (width - 1.0) / 2.0)
  {
    hide Gap, Clamped;
    GapIs(index as real - hole, turns);
  }

  /** The darkness of the dot that comes `ahead` steps after the hole's whole part. */
  function Around(ahead: int, f: real, half: real): real {
    if ahead == 0 then Shade(f, half)
    else if ahead <= 4 then Shade(ahead as real - f, half)
    else Shade((8 - ahead) as real + f, half)
  }

  function Ahead(index: int, place: int): int {
    (index - place) % 8
  }

  lemma DotAround(index: int, hole: real, width: real, place: int, f: real)
    requires 0 <= index < 8 && hole == place as real + f && 0.0 <= f < 1.0
    ensures Dark(index, hole, width) == Around(Ahead(index, place), f, (width - 1.0) / 2.0)
  {
    hide Shade, Dark;
    var ahead, turns := (index - place) % 8, (index - place) / 8;
    assert index - place == 8 * turns + ahead;
    assert index as real - hole == 8.0 * turns as real + ahead as real - f;
    if ahead == 0 {
      DarkAt(index, hole, width, turns, f);
    } else if ahead <= 4 {
      DarkAt(index, hole, width, turns, ahead as real - f);
    } else {
      DarkAt(index, hole, width, turns + 1, (8 - ahead) as real + f);
    }
  }

  /** The sum over the first dots, starting anywhere in the ring. */
  function Along(place: int, f: real, half: real, dots: nat): real {
    if dots == 0 then 0.0 else Along(place, f, half, dots - 1) + Around(Ahead(dots - 1, place), f, half)
  }

  lemma {:induction false} DarknessAlong(hole: real, width: real, place: int, f: real, dots: nat)
    requires dots <= 8 && hole == place as real + f && 0.0 <= f < 1.0
    ensures Darkness(hole, width, dots) == Along(place, f, (width - 1.0) / 2.0, dots)
  {
    hide Around, Dark;
    if dots > 0 {
      DarknessAlong(hole, width, place, f, dots - 1);
      DotAround(dots - 1, hole, width, place, f);
    }
  }

  lemma EightAlong(place: int, f: real, half: real)
    ensures Along(place, f, half, 8) ==
      Around(Ahead(0, place), f, half) + Around(Ahead(1, place), f, half) + Around(Ahead(2, place), f, half) +
      Around(Ahead(3, place), f, half) + Around(Ahead(4, place), f, half) + Around(Ahead(5, place), f, half) +
      Around(Ahead(6, place), f, half) + Around(Ahead(7, place), f, half)
  {
    hide Around, Ahead;
    assert Along(place, f, half, 1) == Along(place, f, half, 0) + Around(Ahead(0, place), f, half);
    assert Along(place, f, half, 2) == Along(place, f, half, 1) + Around(Ahead(1, place), f, half);
    assert Along(place, f, half, 3) == Along(place, f, half, 2) + Around(Ahead(2, place), f, half);
    assert Along(place, f, half, 4) == Along(place, f, half, 3) + Around(Ahead(3, place), f, half);
    assert Along(place, f, half, 5) == Along(place, f, half, 4) + Around(Ahead(4, place), f, half);
    assert Along(place, f, half, 6) == Along(place, f, half, 5) + Around(Ahead(5, place), f, half);
    assert Along(place, f, half, 7) == Along(place, f, half, 6) + Around(Ahead(6, place), f, half);
    assert Along(place, f, half, 8) == Along(place, f, half, 7) + Around(Ahead(7, place), f, half);
  }

  lemma RingIsAround(f: real, half: real)
    ensures Ring(f, half) ==
      Around(0, f, half) + Around(1, f, half) + Around(2, f, half) + Around(3, f, half) +
      Around(4, f, half) + Around(5, f, half) + Around(6, f, half) + Around(7, f, half)
  {
    hide Shade;
  }

  lemma DarknessIsRing(hole: real, width: real)
    ensures Darkness(hole, width, DOT_COUNT) == Ring(hole - hole.Floor as real, (width - 1.0) / 2.0)
  {
    hide Around, Darkness, Ring, Along, Ahead;
    var place, f, half := hole.Floor, hole - hole.Floor as real, (width - 1.0) / 2.0;
    DarknessAlong(hole, width, place, f, 8);
    EightAlong(place, f, half);
    RingIsAround(f, half);
    AheadIs(place);
  }

  lemma AheadIs(place: int)
    ensures forall i :: 0 <= i < 8 ==> Ahead(i, place) == if i >= place % 8 then i - place % 8 else i - place % 8 + 8
  {
  }

  /** A run of four dots takes in as much of a stretch as it holds. */
  function Held(y: real): real {
    if y <= 0.0 then 0.0 else if y >= 4.0 then 4.0 else y
  }

  lemma Staircase(y: real)
    ensures Clamped(y) + Clamped(y - 1.0) + Clamped(y - 2.0) + Clamped(y - 3.0) == Held(y)
  {
  }

  /** The ring's darkness, one run of four dots on each side of the hole. */
  lemma RingSum(f: real, half: real)
    ensures Ring(f, half) == Held(half + 1.0 - f) + Held(half + f)
  {
    Staircase(half + 1.0 - f);
    Staircase(half + f);
  }

  lemma RemovedIs(hole: real, width: real, floor: real, f: real, held: real)
    requires f == hole - hole.Floor as real
    requires held == Held((width - 1.0) / 2.0 + 1.0 - f) + Held((width - 1.0) / 2.0 + f)
    ensures InkRemoved(hole, width, floor, DOT_COUNT) == (1.0 - floor) * held
  {
    hide InkRemoved, Darkness, Ring, Held;
    InkIsDarkness(hole, width, floor, DOT_COUNT);
    DarknessIsRing(hole, width);
    RingSum(f, (width - 1.0) / 2.0);
    Times(1.0 - floor, Darkness(hole, width, DOT_COUNT), held);
  }

  lemma Times(c: real, x: real, y: real)
    requires x == y
    ensures c * x == c * y
  {
  }

  lemma HeldAcross(f: real, width: real, held: real)
    requires 0.0 <= f < 1.0 && held == Held((width - 1.0) / 2.0 + 1.0 - f) + Held((width - 1.0) / 2.0 + f)
    ensures 1.0 <= width <= 7.0 ==> held == width
    ensures width <= -1.0 ==> held == 0.0
    ensures width >= 9.0 ==> held == 8.0
  {
  }

  /** Outside those widths, a hole on a dot and a hole between two take out other amounts. */
  lemma HeldOtherwise(width: real, parked: real, between: real)
    requires parked == Held((width - 1.0) / 2.0 + 1.0 - 0.0) + Held((width - 1.0) / 2.0 + 0.0)
    requires between == Held((width - 1.0) / 2.0 + 1.0 - 0.5) + Held((width - 1.0) / 2.0 + 0.5)
    ensures !(1.0 <= width <= 7.0) ==> parked != width
    ensures -1.0 < width < 1.0 || 7.0 < width < 9.0 ==> parked != between
  {
  }

  lemma RemovedBy(hole: real, width: real, floor: real)
    ensures 1.0 <= width <= 7.0 ==> InkRemoved(hole, width, floor, DOT_COUNT) == (1.0 - floor) * width
    ensures width <= -1.0 ==> InkRemoved(hole, width, floor, DOT_COUNT) == 0.0
    ensures width >= 9.0 ==> InkRemoved(hole, width, floor, DOT_COUNT) == (1.0 - floor) * 8.0
  {
    hide InkRemoved, Held;
    var f := hole - hole.Floor as real;
    var held := Held((width - 1.0) / 2.0 + 1.0 - f) + Held((width - 1.0) / 2.0 + f);
    RemovedIs(hole, width, floor, f, held);
    HeldAcross(f, width, held);
    if 1.0 <= width <= 7.0 {
      Times(1.0 - floor, held, width);
    } else if width <= -1.0 {
      Times(1.0 - floor, held, 0.0);
    } else if width >= 9.0 {
      Times(1.0 - floor, held, 8.0);
    }
  }

  /** With a hole on a dot and then between two, those other widths show. */
  lemma RemovedOtherwise(width: real, floor: real)
    requires floor != 1.0
    ensures !(1.0 <= width <= 7.0) ==> InkRemoved(0.0, width, floor, DOT_COUNT) != (1.0 - floor) * width
    ensures -1.0 < width < 1.0 || 7.0 < width < 9.0 ==>
      InkRemoved(0.0, width, floor, DOT_COUNT) != InkRemoved(0.5, width, floor, DOT_COUNT)
  {
    hide InkRemoved, Held;
    var parked := Held((width - 1.0) / 2.0 + 1.0 - 0.0) + Held((width - 1.0) / 2.0 + 0.0);
    var between := Held((width - 1.0) / 2.0 + 1.0 - 0.5) + Held((width - 1.0) / 2.0 + 0.5);
    RemovedIs(0.0, width, floor, 0.0, parked);
    RemovedIs(0.5, width, floor, 0.5, between);
    HeldOtherwise(width, parked, between);
    if parked != width {
      Different(1.0 - floor, parked, width);
    }
    if parked != between {
      Different(1.0 - floor, parked, between);
    }
  }

  lemma Different(c: real, x: real, y: real)
    requires c != 0.0 && x != y
    ensures c * x != c * y
  {
    ProductNonzero(c, x - y);
    assert c * (x - y) == c * x - c * y;
  }

  /** A hole takes out its own width of ink, wherever it is, exactly for the widths from one dot to seven. */
  lemma InkConserved(width: real, floor: real)
    requires floor != 1.0
    ensures (forall hole: real :: InkRemoved(hole, width, floor, DOT_COUNT) == (1.0 - floor) * width) <==> 1.0 <= width <= 7.0
  {
    hide InkRemoved;
    if 1.0 <= width <= 7.0 {
      forall hole: real
        ensures InkRemoved(hole, width, floor, DOT_COUNT) == (1.0 - floor) * width
      {
        RemovedBy(hole, width, floor);
      }
    } else {
      RemovedOtherwise(width, floor);
    }
  }

  /** The ink taken out never varies as the hole moves exactly for those widths, and for the ones that take out none or all. */
  lemma InkSteady(width: real, floor: real)
    requires floor != 1.0
    ensures (forall hole: real, other: real ::
               InkRemoved(hole, width, floor, DOT_COUNT) == InkRemoved(other, width, floor, DOT_COUNT)) <==>
            (1.0 <= width <= 7.0 || width <= -1.0 || width >= 9.0)
  {
    hide InkRemoved;
    if 1.0 <= width <= 7.0 || width <= -1.0 || width >= 9.0 {
      forall hole: real, other: real
        ensures InkRemoved(hole, width, floor, DOT_COUNT) == InkRemoved(other, width, floor, DOT_COUNT)
      {
        RemovedBy(hole, width, floor);
        RemovedBy(other, width, floor);
      }
    } else {
      RemovedOtherwise(width, floor);
    }
  }

  // ---- Where the hole is ----

  /** A dot is fully out within the hole's half width of it, fully lit a whole step further off, and in between by the step. */
  lemma DotLit(index: int, hole: real, width: real, floor: real, turns: int, distance: real)
    requires distance == Abs(index as real - hole - 8.0 * turns as real) && distance <= 4.0
    ensures distance <= (width - 1.0) / 2.0 ==> Lit(index, hole, width, floor) == floor
    ensures distance >= (width + 1.0) / 2.0 ==> Lit(index, hole, width, floor) == 1.0
    ensures (width - 1.0) / 2.0 <= distance <= (width + 1.0) / 2.0 ==>
      Lit(index, hole, width, floor) == floor + (1.0 - floor) * (distance - (width - 1.0) / 2.0)
  {
    hide Gap;
    GapIs(index as real - hole, turns);
    LitIs(index, hole, width, floor, distance, Clamped(distance - (width - 1.0) / 2.0));
  }

  /** The shipped hole, parked on a dot, takes out that dot and no other. */
  lemma ParkedOnDot(index: int, other: int)
    requires 0 <= index < 8 && 0 <= other < 8
    ensures Lit(other, index as real, 1.0, 0.0) == if other == index then 0.0 else 1.0
  {
    var turns := if other - index > 4 then 1 else if other - index < -4 then -1 else 0;
    DotLit(other, index as real, 1.0, 0.0, turns, Abs(other as real - index as real - 8.0 * turns as real));
  }
}
