/**
 The library functions the drawing code calls, over the reals, with the facts about them that the
 proofs use. Each fact is a predicate at a point, so a proof names the instance it needs.
 */
module Analysis {

  function Abs(x: real): real {
    if x < 0.0 then -x else x
  }

  datatype Functions = Functions(
    pi: real,
    sqrt: real -> real,
    sin: real -> real,
    cos: real -> real,
    tan: real -> real,
    atan2: (real, real) -> real)
  {
    ghost predicate SqrtAt(x: real) {
      x >= 0.0 ==> sqrt(x) >= 0.0 && sqrt(x) * sqrt(x) == x
    }

    ghost predicate CircleAt(a: real) {
      cos(a) * cos(a) + sin(a) * sin(a) == 1.0
    }

    ghost predicate SumAt(a: real, b: real) {
      && sin(a + b) == sin(a) * cos(b) + cos(a) * sin(b)
      && cos(a + b) == cos(a) * cos(b) - sin(a) * sin(b)
    }

    ghost predicate ParityAt(a: real) {
      sin(-a) == -sin(a) && cos(-a) == cos(a)
    }

    ghost predicate PeriodAt(a: real, b: real, k: int) {
      a == b + 2.0 * pi * k as real ==> sin(a) == sin(b) && cos(a) == cos(b)
    }

    ghost predicate SignAt(a: real) {
      && (0.0 < a < pi ==> sin(a) > 0.0)
      && (-pi / 2.0 < a < pi / 2.0 ==> cos(a) > 0.0)
    }

    ghost predicate TangentAt(a: real) {
      cos(a) != 0.0 ==> tan(a) * cos(a) == sin(a)
    }

    /** `atan2` answers the angle, in a half-open turn, of a point on the unit circle. */
    ghost predicate PolarAt(y: real, x: real) {
      && -pi < atan2(y, x) <= pi
      && (x * x + y * y == 1.0 ==> cos(atan2(y, x)) == x && sin(atan2(y, x)) == y)
    }

    /** The second-order bound that makes `-sin` the derivative of `cos`. */
    ghost predicate TaylorAt(a: real, h: real) {
      Abs(cos(a + h) - cos(a) + h * sin(a)) <= h * h / 2.0
    }

    /** Where a sine, written in whole turns, stands at its crest and at half of it. */
    ghost predicate LevelAt(turns: real) {
      && (sin(2.0 * pi * turns) == 1.0 ==> Whole(turns - 0.25))
      && (sin(2.0 * pi * turns) == -1.0 ==> Whole(turns + 0.25))
      && (sin(2.0 * pi * turns) == 0.5 ==> Whole(turns - 1.0 / 12.0) || Whole(turns - 5.0 / 12.0))
      && (sin(2.0 * pi * turns) == -0.5 ==> Whole(turns + 1.0 / 12.0) || Whole(turns + 5.0 / 12.0))
    }

    ghost predicate Lawful() {
      && pi > 0.0
      && (forall x :: SqrtAt(x))
      && (forall a :: CircleAt(a))
      && (forall a, b :: SumAt(a, b))
      && (forall a :: ParityAt(a))
      && (forall a, b, k :: PeriodAt(a, b, k))
      && (forall a :: SignAt(a))
      && (forall a :: TangentAt(a))
      && (forall y, x :: PolarAt(y, x))
      && (forall a, h :: TaylorAt(a, h))
      && (forall turns :: LevelAt(turns))
    }
  }

  predicate Whole(x: real) {
    x.Floor as real == x
  }
}
