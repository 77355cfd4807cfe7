/** What each command draws, in coordinates and by the curve it is, and what each letter and byte stands for. */
module PathMeaning {
  import opened Wrappers
  import opened Geometry
  import opened Analysis
  import opened Arc
  import opened ArcCubics
  import opened Bytes
  import opened PathScanner
  import opened PathCommands
  import opened PathReader
  import opened PathText
  import opened PathJams

  // ---- Lines ----

  /** A pair of coordinates is taken from the running point, or from the origin of the plane. */
  ghost predicate Lands(pen: Pen, relative: bool, given: Point, p: Point) {
    && p.x == given.x + (if relative then pen.current.x else 0.0)
    && p.y == given.y + (if relative then pen.current.y else 0.0)
  }

  lemma MoveDraws(f: Functions, pen: Pen, c: Command, p: Point)
    requires f.Lawful() && c.Move? && Lands(pen, c.relative, c.to, p)
    ensures Draw(f, pen, c) == Drawn(Pen(p, p, None, None), [MoveTo(p)])
  {
  }

  /** A horizontal line keeps its height and a vertical one its side. */
  lemma LineDraws(f: Functions, pen: Pen, c: Command, p: Point)
    requires f.Lawful()
    requires match c
             case Line(relative, to) => Lands(pen, relative, to, p)
             case Horizontal(relative, x) => p.x == x + (if relative then pen.current.x else 0.0) && p.y == pen.current.y
             case Vertical(relative, y) => p.x == pen.current.x && p.y == y + (if relative then pen.current.y else 0.0)
             case _ => false
    ensures Draw(f, pen, c) == Drawn(Pen(p, pen.subpathStart, None, None), [LineTo(p)])
  {
  }

  lemma CloseDraws(f: Functions, pen: Pen, c: Command)
    requires f.Lawful() && c.CloseSubpath?
    ensures Draw(f, pen, c) == Drawn(Pen(pen.subpathStart, pen.subpathStart, None, None), [Close])
  {
  }

  // ---- Curves ----

  /** The Bernstein form of a cubic Bezier curve. */
  ghost predicate OnCubic(a: Point, b: Point, c: Point, d: Point, t: real, p: Point) {
    var r := 1.0 - t;
    && p.x == r * r * r * a.x + 3.0 * (r * r * t) * b.x + 3.0 * (r * t * t) * c.x + t * t * t * d.x
    && p.y == r * r * r * a.y + 3.0 * (r * r * t) * b.y + 3.0 * (r * t * t) * c.y + t * t * t * d.y
  }

  lemma BezierIsCubic(begin: Point, curve: Segment, t: real)
    requires curve.CurveTo?
    ensures OnCubic(begin, curve.control1, curve.control2, curve.to, t, BezierAt(begin, curve, t))
  {
  }

  /**
   A cubic's curve leaves the running point towards its first pair of coordinates and arrives at its
   last from its second; a smooth one that follows leaves along the line from that second pair.
   */
  lemma CubicDraws(f: Functions, pen: Pen, c: Command, first: Point, second: Point, p: Point, t: real)
    requires f.Lawful() && c.Cubic?
    requires Lands(pen, c.relative, c.first, first) && Lands(pen, c.relative, c.second, second) && Lands(pen, c.relative, c.to, p)
    ensures var drawn := Draw(f, pen, c);
            && drawn.segments == [CurveTo(first, second, p)]
            && OnCubic(pen.current, first, second, p, t, BezierAt(pen.current, drawn.segments[0], t))
            && drawn.pen.current == p && drawn.pen.subpathStart == pen.subpathStart
            && drawn.pen.lastCubic == Some(second) && drawn.pen.lastQuad == None
  {
    BezierIsCubic(pen.current, CurveTo(first, second, p), t);
    hide BezierAt;
  }

  lemma SmoothCubicDraws(f: Functions, pen: Pen, before: Command, c: Command, left: Point, second: Point, p: Point)
    requires f.Lawful() && before.Cubic? && c.SmoothCubic? && Lands(pen, before.relative, before.second, left)
    requires var pen2 := Draw(f, pen, before).pen; Lands(pen2, c.relative, c.second, second) && Lands(pen2, c.relative, c.to, p)
    ensures var pen2 := Draw(f, pen, before).pen;
            Draw(f, pen2, c) ==
              Drawn(Pen(p, pen.subpathStart, Some(second), None),
                    [CurveTo(Point(2.0 * pen2.current.x - left.x, 2.0 * pen2.current.y - left.y), second, p)])
  {
  }

  lemma SmoothCubicAlone(f: Functions, pen: Pen, c: Command, second: Point, p: Point)
    requires f.Lawful() && c.SmoothCubic? && pen.lastCubic.None?
    requires Lands(pen, c.relative, c.second, second) && Lands(pen, c.relative, c.to, p)
    ensures Draw(f, pen, c) == Drawn(Pen(p, pen.subpathStart, Some(second), None), [CurveTo(pen.current, second, p)])
  {
  }

  lemma QuadDraws(f: Functions, pen: Pen, c: Command, control: Point, p: Point)
    requires f.Lawful() && c.Quad? && Lands(pen, c.relative, c.control, control) && Lands(pen, c.relative, c.to, p)
    ensures Draw(f, pen, c) == Drawn(Pen(p, pen.subpathStart, None, Some(control)), [QuadTo(control, p)])
  {
  }

  /** A smooth quadratic mirrors the last control point, its own mirrored ones included, or takes the running point. */
  lemma SmoothQuadDraws(f: Functions, pen: Pen, c: Command, control: Point, p: Point)
    requires f.Lawful() && c.SmoothQuad? && Lands(pen, c.relative, c.to, p)
    requires match pen.lastQuad
             case None => control == pen.current
             case Some(last) => control == Point(2.0 * pen.current.x - last.x, 2.0 * pen.current.y - last.y)
    ensures Draw(f, pen, c) == Drawn(Pen(p, pen.subpathStart, None, Some(control)), [QuadTo(control, p)])
  {
  }

  /** An arc starts at the running point and leaves nothing to mirror. */
  lemma EllipticDraws(f: Functions, pen: Pen, c: Command, p: Point)
    requires f.Lawful() && c.Elliptic? && Lands(pen, c.relative, c.to, p)
    ensures Draw(f, pen, c) ==
      Drawn(Pen(p, pen.subpathStart, None, None), ArcSegments(f, pen.current, c.radii, c.rotation, c.largeArc, c.sweep, p))
  {
    hide ArcSegments;
  }

  // ---- Bytes ----

  /** The bytes of a number, and of what may stand between numbers. */
  lemma BytesMean(b: Byte)
    ensures IsDigit(b) <==> '0' as int <= b <= '9' as int
    ensures IsSign(b) <==> b == '+' as int || b == '-' as int
    ensures IsExponentMark(b) <==> b == 'e' as int || b == 'E' as int
    ensures IsSeparator(b) <==> b == ' ' as int || b == '\t' as int || b == '\n' as int || b == '\r' as int || b == ',' as int
    ensures IsLetter(b) <==> 'A' as int <= b <= 'Z' as int || 'a' as int <= b <= 'z' as int
    ensures StartsNumber(b) <==> b == '+' as int || b == '-' as int || b == '.' as int || '0' as int <= b <= '9' as int
    ensures MINUS == '-' as int && POINT == '.' as int && ONE == '1' as int && FLAG_OFF == '0' as int
  {
  }

  /** Digits count in tens, and an exponent moves them by tens. */
  lemma TensMean(digits: seq<Byte>, d: Byte, k: nat)
    ensures Natural([]) == 0 && Natural(digits + [d]) == 10 * Natural(digits) + (d as int - '0' as int)
    ensures PowerOfTen(0) == 1.0 && PowerOfTen(k + 1) == 10.0 * PowerOfTen(k) && PowerOfTen(0 - (k + 1)) * 10.0 == PowerOfTen(0 - k)
  {
    assert (digits + [d])[..|digits|] == digits;
  }

  /** Its sign, its point and its exponent give a numeral its value. */
  lemma NumeralMeans(n: Numeral, size: real, places: int)
    requires IsNumeral(n)
    requires var digits := Natural(n.whole + Digits(n.fraction)) as real; size == if n.sign == ['-' as int] then -digits else digits
    requires match n.exponent
             case None => places == 0
             case Some(e) => places == if e.sign == ['-' as int] then -Natural(e.digits) else Natural(e.digits)
    ensures Denoted(n) == size * PowerOfTen(places - |Digits(n.fraction)|)
  {
    hide Natural, PowerOfTen;
    var digits, power := Natural(n.whole + Digits(n.fraction)) as real, PowerOfTen(places - |Digits(n.fraction)|);
    assert Negative(n.sign) <==> n.sign == ['-' as int];
    assert Power(n.exponent) == places by {
      if n.exponent.Some? {
        assert Negative(n.exponent.value.sign) <==> n.exponent.value.sign == ['-' as int];
      }
    }
    Signed(digits, power, size, n.sign == ['-' as int]);
  }

  lemma Signed(digits: real, power: real, size: real, negative: bool)
    requires size == if negative then -digits else digits
    ensures size * power == if negative then -(digits * power) else digits * power
  {
  }

  /** A numeral is written in its usual order. */
  lemma NumeralLooks(sign: seq<Byte>, whole: seq<Byte>, fraction: seq<Byte>, mark: Byte, expSign: seq<Byte>, places: seq<Byte>)
    ensures NumeralText(Numeral(sign, whole, None, None)) == sign + whole
    ensures NumeralText(Numeral(sign, whole, Some(fraction), None)) == sign + whole + ['.' as int] + fraction
    ensures NumeralText(Numeral(sign, whole, Some(fraction), Some(Exponent(mark, expSign, places)))) ==
      sign + whole + ['.' as int] + fraction + [mark] + expSign + places
  {
  }

  // ---- Letters ----

  lemma LettersKnown(b: Byte)
    ensures IsCommand(b) <==>
      || b == 'M' as int || b == 'm' as int || b == 'L' as int || b == 'l' as int || b == 'H' as int || b == 'h' as int
      || b == 'V' as int || b == 'v' as int || b == 'C' as int || b == 'c' as int || b == 'S' as int || b == 's' as int
      || b == 'Q' as int || b == 'q' as int || b == 'T' as int || b == 't' as int || b == 'A' as int || b == 'a' as int
      || b == 'Z' as int || b == 'z' as int
    ensures Continuation(b) == if b == 'M' as int then 'L' as int else if b == 'm' as int then 'l' as int else b
  {
  }

  /** A letter, in the case that makes its coordinates relative or absolute. */
  function Cased(small: char, capital: char, relative: bool): int {
    if relative then small as int else capital as int
  }

  predicate Words(args: seq<Spaced>, n: nat) {
    |args| == n && forall i :: 0 <= i < n ==> args[i].token.Word?
  }

  function Pair(args: seq<Spaced>, i: nat): Point
    requires i + 1 < |args| && args[i].token.Word? && args[i + 1].token.Word?
  {
    Point(Denoted(args[i].token.numeral), Denoted(args[i + 1].token.numeral))
  }

  /** What each letter makes of the numbers written after it, in their order. */
  lemma LinesSay(letter: Byte, args: seq<Spaced>, r: bool)
    requires Shaped(letter, args)
    ensures letter == Cased('m', 'M', r) ==> Words(args, 2) && CommandOf(letter, args) == Move(r, Pair(args, 0))
    ensures letter == Cased('l', 'L', r) ==> Words(args, 2) && CommandOf(letter, args) == Line(r, Pair(args, 0))
    ensures letter == Cased('h', 'H', r) ==> Words(args, 1) && CommandOf(letter, args) == Horizontal(r, Denoted(args[0].token.numeral))
    ensures letter == Cased('v', 'V', r) ==> Words(args, 1) && CommandOf(letter, args) == Vertical(r, Denoted(args[0].token.numeral))
    ensures letter == Cased('z', 'Z', r) ==> args == [] && CommandOf(letter, args) == CloseSubpath(r)
  {
    hide Denoted;
  }

  lemma CurvesSay(letter: Byte, args: seq<Spaced>, r: bool)
    requires Shaped(letter, args)
    ensures letter == Cased('c', 'C', r) ==>
      Words(args, 6) && CommandOf(letter, args) == Cubic(r, Pair(args, 0), Pair(args, 2), Pair(args, 4))
    ensures letter == Cased('s', 'S', r) ==> Words(args, 4) && CommandOf(letter, args) == SmoothCubic(r, Pair(args, 0), Pair(args, 2))
    ensures letter == Cased('q', 'Q', r) ==> Words(args, 4) && CommandOf(letter, args) == Quad(r, Pair(args, 0), Pair(args, 2))
    ensures letter == Cased('t', 'T', r) ==> Words(args, 2) && CommandOf(letter, args) == SmoothQuad(r, Pair(args, 0))
  {
    hide Denoted;
  }

  /** An arc's radii, rotation, large-arc flag, sweep flag and end, in that order. */
  lemma ArcSays(letter: Byte, args: seq<Spaced>, r: bool)
    requires Shaped(letter, args) && letter == Cased('a', 'A', r)
    ensures |args| == 7 && args[3].token.Bit? && args[4].token.Bit?
    ensures args[0].token.Word? && args[1].token.Word? && args[2].token.Word? && args[5].token.Word? && args[6].token.Word?
    ensures CommandOf(letter, args) ==
      Elliptic(r, Pair(args, 0), Denoted(args[2].token.numeral), args[3].token.on, args[4].token.on, Pair(args, 5))
    ensures TokenText(Bit(true)) == ['1' as int] && TokenText(Bit(false)) == ['0' as int]
  {
    hide Denoted;
  }

  // ---- Where the reader stops, and what it passes over ----

  /** The loop ends just where neither a letter nor a number in force comes next. */
  lemma TurnStops(f: Functions, c: Config)
    requires f.Lawful()
    ensures var t := AfterSeparators(c.rest);
            Turn(f, c).None? <==>
              t == [] || (!IsLetter(t[0]) && (!StartsNumber(t[0]) || c.repeated.None?))
  {
    hide Perform, Functions.Lawful;
    StillSeparated(c.rest);
  }

  lemma {:induction false} StillSeparated(s: seq<Byte>)
    ensures AfterSeparators(AfterSeparators(s)) == AfterSeparators(s)
  {
    hide IsSeparator;
    var t := AfterSeparators(s);
    if t != [] {
      assert !IsSeparator(t[0]);
    }
  }

  /** An unknown letter takes with it the numbers written after it, and nothing more; it draws nothing and leaves nothing in force. */
  lemma UnknownLetterPasses(f: Functions, c: Config, letter: Byte, args: seq<Spaced>, after: seq<Byte>)
    requires f.Lawful() && !IsCommand(letter) && Packed(args, after) && Words(args, |args|) && !HasNumber(after)
    requires c.rest == ArgsText(args) + after
    ensures Perform(f, letter, c) == Config(AfterSeparators(after), None, c.pen, c.path)
  {
    hide Draw, ArgsText, Packed, HasNumber, AfterNumbers, Functions.Lawful;
    NumbersPassed(args, after);
  }

  lemma {:induction false} NumbersPassed(args: seq<Spaced>, after: seq<Byte>)
    requires Packed(args, after) && Words(args, |args|) && !HasNumber(after)
    ensures AfterNumbers(ArgsText(args) + after) == AfterSeparators(after)
    decreases |args|
  {
    hide Packed, ArgsText, NumberIn, AfterNumbers, HasNumber;
    if args == [] {
      NothingLeft(args, after);
      NumbersSkipped(after);
    } else {
      NumberArgBack(args, after);
      NumberComes(args, after);
      PackedTail(args, after);
      NumbersSkipped(ArgsText(args) + after);
      NumbersPassed(args[1..], after);
    }
  }

  lemma NumberComes(args: seq<Spaced>, after: seq<Byte>)
    requires Packed(args, after) && args != [] && args[0].token.Word?
    ensures HasNumber(ArgsText(args) + after)
  {
    hide ArgsText, IsNumeral, Stops, NumeralText, AfterSeparators;
    var n := args[0].token.numeral;
    var s := NumeralText(n) + (ArgsText(args[1..]) + after);
    ArgsFirst(args, after);
    NumeralBegins(n);
    SeparatorsPassed(args[0].gap, s);
  }

  // ---- Any bytes, as a number ----

  lemma {:induction false} DigitsTaken(s: seq<Byte>)
    ensures var rest := AfterDigits(s); AllDigits(Before(s, rest)) && s == Before(s, rest) + rest
  {
    hide IsDigit;
    if s != [] && IsDigit(s[0]) {
      DigitsTaken(s[1..]);
      var rest := AfterDigits(s[1..]);
      assert Before(s, rest) == [s[0]] + Before(s[1..], rest);
    }
  }

  lemma SignTaken(s: seq<Byte>)
    ensures var rest := AfterSign(s); OptionalSign(Before(s, rest)) && s == Before(s, rest) + rest
    ensures Negative(Before(s, AfterSign(s))) <==> Negative(s)
  {
  }

  function FractionTaken(s: seq<Byte>): Option<seq<Byte>> {
    if s != [] && s[0] == POINT then Some(Before(s[1..], AfterDigits(s[1..]))) else None
  }

  lemma FractionTakenIs(s: seq<Byte>)
    ensures s == FractionText(FractionTaken(s)) + AfterFraction(s) && AllDigits(Digits(FractionTaken(s)))
    ensures Digits(FractionTaken(s)) == if s == AfterFraction(s) then [] else Before(s, AfterFraction(s))[1..]
  {
    if s != [] && s[0] == POINT {
      var tail := s[1..];
      DigitsTaken(tail);
      PointTaken(s, tail, AfterDigits(tail));
    } else {
      assert [] + s == s;
    }
  }

  lemma PointTaken(s: seq<Byte>, tail: seq<Byte>, rest: seq<Byte>)
    requires s != [] && s[0] == POINT && tail == s[1..] && |rest| <= |tail| && tail == Before(tail, rest) + rest
    ensures s == [POINT] + Before(tail, rest) + rest && Before(s, rest)[1..] == Before(tail, rest)
  {
  }

  function ExponentTaken(s: seq<Byte>): Option<Exponent> {
    if s == [] then None else Some(Exponent(s[0], Before(s[1..], AfterSign(s[1..])), AfterSign(s[1..])))
  }

  lemma ExponentTakenIs(s: seq<Byte>)
    requires AfterExponent(s) == []
    ensures s == ExponentText(ExponentTaken(s)) && Power(ExponentTaken(s)) == ExponentValue(s)
    ensures ExponentTaken(s).Some? ==>
      var e := ExponentTaken(s).value; IsExponentMark(e.mark) && OptionalSign(e.sign) && e.digits != [] && AllDigits(e.digits)
  {
    hide Natural;
    if s != [] {
      var digits := AfterSign(s[1..]);
      SignTaken(s[1..]);
      DigitsTaken(digits);
      assert Before(digits, []) == digits;
      assert s == [s[0]] + s[1..];
    }
  }

  function NumeralTaken(text: seq<Byte>): Numeral {
    var unsigned := AfterSign(text);
    var tail := AfterDigits(unsigned);
    Numeral(Before(text, unsigned), Before(unsigned, tail), FractionTaken(tail), ExponentTaken(AfterFraction(tail)))
  }

  lemma NumeralTakenLooks(text: seq<Byte>)
    requires AfterExponent(AfterFraction(AfterDigits(AfterSign(text)))) == []
    ensures NumeralText(NumeralTaken(text)) == text
  {
    hide AfterSign, AfterDigits, AfterFraction, AfterExponent, FractionTaken, ExponentTaken, AllDigits, OptionalSign, FractionText, ExponentText;
    var unsigned := AfterSign(text);
    var tail := AfterDigits(unsigned);
    SignTaken(text);
    DigitsTaken(unsigned);
    FractionTakenIs(tail);
    ExponentTakenIs(AfterFraction(tail));
  }

  lemma NumeralTakenMeans(text: seq<Byte>)
    requires Decimal(text).Some?
    ensures Denoted(NumeralTaken(text)) == Decimal(text).value
  {
    hide AfterSign, AfterDigits, AfterFraction, AfterExponent, FractionTaken, ExponentTaken, AllDigits, OptionalSign, Scaled, Natural, Negative;
    hide ExponentValue, Power;
    var unsigned := AfterSign(text);
    var tail := AfterDigits(unsigned);
    SignTaken(text);
    FractionTakenIs(tail);
    ExponentTakenIs(AfterFraction(tail));
  }

  lemma NumeralTakenWellFormed(text: seq<Byte>)
    requires Decimal(text).Some?
    ensures IsNumeral(NumeralTaken(text))
  {
    hide AfterSign, AfterDigits, AfterFraction, AfterExponent, FractionTaken, ExponentTaken, AllDigits, OptionalSign, Scaled, Natural, Negative;
    var unsigned := AfterSign(text);
    var tail := AfterDigits(unsigned);
    SignTaken(text);
    DigitsTaken(unsigned);
    FractionTakenIs(tail);
    ExponentTakenIs(AfterFraction(tail));
  }

  /** The numeral that a whole text is, when it has a value. */
  lemma WholeNumeral(text: seq<Byte>) returns (n: Numeral)
    requires Decimal(text).Some?
    ensures IsNumeral(n) && NumeralText(n) == text && Denoted(n) == Decimal(text).value
  {
    ValueMeansWhole(text);
    hide *;
    NumeralTakenLooks(text);
    NumeralTakenMeans(text);
    NumeralTakenWellFormed(text);
    n := NumeralTaken(text);
  }

  lemma ValueMeansWhole(text: seq<Byte>)
    requires Decimal(text).Some?
    ensures AfterExponent(AfterFraction(AfterDigits(AfterSign(text)))) == []
  {
    hide AfterSign, AfterDigits, AfterFraction, AfterExponent, Scaled, Negative, ExponentValue;
  }

  /** Whatever bytes come, a number read is the value of a numeral that is there, or else zero. */
  lemma NumberIsThere(s: seq<Byte>)
    ensures var read := NumberIn(s);
            read.value == 0.0 || exists n :: IsNumeral(n) && AfterSeparators(s) == NumeralText(n) + read.rest && read.value == Denoted(n)
  {
    var t := AfterSeparators(s);
    var rest := AfterNumeral(t);
    hide Decimal, AfterSeparators, AfterNumeral, IsNumeral, NumeralText, Denoted;
    var text := Before(t, rest);
    if rest != t && Decimal(text).Some? {
      var n := WholeNumeral(text);
      NumeralSuffixIs(t, rest);
      assert t == NumeralText(n) + rest;
    }
  }

  lemma NumeralSuffixIs(t: seq<Byte>, rest: seq<Byte>)
    requires rest == AfterNumeral(t)
    ensures t == Before(t, rest) + rest
  {
    hide AfterSign, AfterDigits, AfterFraction, AfterExponent;
    NumeralSuffix(t);
  }

  /** A byte that no number begins with, where one is wanted, is passed over as zero; past the end there is only zero. */
  lemma StrayByteIsZero(s: seq<Byte>)
    requires AfterSeparators(s) == s && (s == [] || (!StartsNumber(s[0]) && !IsExponentMark(s[0])))
    ensures NumberIn(s) == Read(0.0, if s == [] then [] else s[1..])
  {
    hide Decimal;
  }
}
