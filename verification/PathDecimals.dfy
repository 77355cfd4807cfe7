/**
 Which commands can be written at all: those whose coordinates are decimals. The coordinates read
 from data are, and so are the ones a change of letter case or of place makes of them.
 */
module PathDecimals {
  import opened Wrappers
  import opened Geometry
  import opened Analysis
  import opened Arc
  import opened Bytes
  import opened PathScanner
  import opened PathCommands
  import opened PathReader
  import opened PathText
  import opened PathForms
  import opened PathTextForms

  // ---- Decimals ----

  function Tenths(n: int, k: nat): real {
    n as real * PowerOfTen(0 - k)
  }

  ghost predicate IsDecimal(x: real) {
    exists n: int, k: nat :: x == Tenths(n, k)
  }

  lemma Widened(n: int, k: nat)
    ensures Tenths(10 * n, k + 1) == Tenths(n, k)
  {
    var power := PowerOfTen(0 - k);
    assert PowerOfTen(0 - (k + 1)) == power / 10.0;
    assert (10 * n) as real == 10.0 * n as real;
  }

  /** The same decimal with more places. */
  lemma {:induction false} WidenedTo(n: int, k: nat, places: nat) returns (wide: int)
    requires k <= places
    ensures Tenths(wide, places) == Tenths(n, k)
    decreases places - k
  {
    if k == places {
      wide := n;
    } else {
      Widened(n, k);
      wide := WidenedTo(10 * n, k + 1, places);
    }
  }

  lemma TenthsAdd(m: int, n: int, k: nat)
    ensures Tenths(m, k) + Tenths(n, k) == Tenths(m + n, k)
    ensures Tenths(m, k) - Tenths(n, k) == Tenths(m - n, k)
  {
    var power := PowerOfTen(0 - k);
    assert (m + n) as real == m as real + n as real && (m - n) as real == m as real - n as real;
    assert (m as real + n as real) * power == m as real * power + n as real * power;
    assert (m as real - n as real) * power == m as real * power - n as real * power;
  }

  lemma DecimalsAdd(x: real, y: real)
    requires IsDecimal(x) && IsDecimal(y)
    ensures IsDecimal(x + y) && IsDecimal(x - y)
  {
    hide Tenths;
    var m: int, j: nat :| x == Tenths(m, j);
    var n: int, k: nat :| y == Tenths(n, k);
    var places := if j < k then k else j;
    var a := WidenedTo(m, j, places);
    var b := WidenedTo(n, k, places);
    TenthsAdd(a, b, places);
  }

  lemma ZeroDecimal()
    ensures IsDecimal(0.0)
  {
    assert Tenths(0, 0) == 0.0;
  }

  // ---- Every decimal has a numeral ----

  function DigitByte(d: int): Byte
    requires 0 <= d < 10
  {
    0x30 + d
  }

  function DigitsOf(n: nat): seq<Byte> {
    if n < 10 then [DigitByte(n)] else DigitsOf(n / 10) + [DigitByte(n % 10)]
  }

  lemma {:induction false} DigitsBack(n: nat)
    ensures AllDigits(DigitsOf(n)) && DigitsOf(n) != [] && Natural(DigitsOf(n)) == n
  {
    var digits := DigitsOf(n);
    var last := |digits| - 1;
    if n < 10 {
      assert digits[..last] == [];
    } else {
      DigitsBack(n / 10);
      assert digits[..last] == DigitsOf(n / 10);
    }
  }

  const MARK: Byte := 0x65

  function SignOf(n: int): seq<Byte> {
    if n < 0 then [MINUS] else []
  }

  function SizeOf(n: int): nat {
    if n < 0 then -n else n
  }

  function NumeralFor(n: int, k: nat): Numeral {
    Numeral(SignOf(n), DigitsOf(SizeOf(n)), None, Some(Exponent(MARK, [MINUS], DigitsOf(k))))
  }

  lemma NumeralForWellFormed(n: int, k: nat)
    ensures IsNumeral(NumeralFor(n, k))
  {
    DigitsBack(SizeOf(n));
    DigitsBack(k);
    hide DigitsOf, Natural;
  }

  lemma NumeralForIs(n: int, k: nat)
    ensures IsNumeral(NumeralFor(n, k)) && Denoted(NumeralFor(n, k)) == Tenths(n, k)
  {
    NumeralForWellFormed(n, k);
    hide DigitsOf, Natural, PowerOfTen, IsNumeral, Tenths, Scaled;
    var digits := DigitsOf(SizeOf(n));
    DigitsBack(SizeOf(n));
    DigitsBack(k);
    assert digits + [] == digits;
    assert Denoted(NumeralFor(n, k)) == Scaled(Negative(SignOf(n)), digits, 0 - k);
    ScaledIs(n, digits, k);
  }

  lemma ScaledIs(n: int, digits: seq<Byte>, k: nat)
    requires Natural(digits) == SizeOf(n)
    ensures Scaled(Negative(SignOf(n)), digits, 0 - k) == Tenths(n, k)
  {
    hide Natural, PowerOfTen;
    assert SizeOf(n) as real == if n < 0 then -(n as real) else n as real;
  }

  ghost function NumeralOf(x: real): (n: Numeral)
    requires IsDecimal(x)
    ensures IsNumeral(n) && Denoted(n) == x
  {
    var n: int, k: nat :| x == Tenths(n, k);
    NumeralForIs(n, k);
    NumeralFor(n, k)
  }

  // ---- And every numeral denotes one ----

  lemma {:induction false} PowerWhole(k: nat) returns (p: int)
    ensures PowerOfTen(k) == p as real
    decreases k
  {
    p := 1;
    if k > 0 {
      var q := PowerWhole(k - 1);
      p := 10 * q;
      assert p as real == 10.0 * q as real;
    }
  }

  lemma ScaledDecimal(negative: bool, digits: seq<Byte>, exponent: int)
    ensures IsDecimal(Scaled(negative, digits, exponent))
  {
    hide Natural;
    var n := Natural(digits);
    var m := if negative then -n else n;
    assert m as real == if negative then -(n as real) else n as real;
    if exponent <= 0 {
      assert Scaled(negative, digits, exponent) == Tenths(m, -exponent);
    } else {
      var p := PowerWhole(exponent);
      WholeProduct(m, p);
      assert Scaled(negative, digits, exponent) == Tenths(m * p, 0);
    }
  }

  lemma WholeProduct(m: int, p: int)
    ensures (m * p) as real == m as real * p as real
  {
  }

  lemma DenotedDecimal(n: Numeral)
    ensures IsDecimal(Denoted(n))
  {
    hide IsDecimal, Scaled;
    ScaledDecimal(Negative(n.sign), n.whole + Digits(n.fraction), Power(n.exponent) - |Digits(n.fraction)|);
  }

  // ---- Commands ----

  ghost predicate DecimalPoint(p: Point) {
    IsDecimal(p.x) && IsDecimal(p.y)
  }

  ghost predicate DecimalCommand(c: Command) {
    match c
    case Move(_, to) => DecimalPoint(to)
    case Line(_, to) => DecimalPoint(to)
    case Horizontal(_, x) => IsDecimal(x)
    case Vertical(_, y) => IsDecimal(y)
    case Cubic(_, first, second, to) => DecimalPoint(first) && DecimalPoint(second) && DecimalPoint(to)
    case SmoothCubic(_, second, to) => DecimalPoint(second) && DecimalPoint(to)
    case Quad(_, control, to) => DecimalPoint(control) && DecimalPoint(to)
    case SmoothQuad(_, to) => DecimalPoint(to)
    case Elliptic(_, radii, rotation, _, _, to) => DecimalPoint(radii) && IsDecimal(rotation) && DecimalPoint(to)
    case CloseSubpath(_) => true
  }

  ghost predicate AllDecimal(commands: seq<Command>) {
    forall i :: 0 <= i < |commands| ==> DecimalCommand(commands[i])
  }

  lemma CommandDecimal(letter: Byte, args: seq<Spaced>)
    requires Shaped(letter, args)
    ensures DecimalCommand(CommandOf(letter, args))
  {
    hide IsDecimal, Denoted;
    forall i | 0 <= i < |args| && args[i].token.Word?
      ensures IsDecimal(Value(args[i]))
    {
      DenotedDecimal(args[i].token.numeral);
    }
  }

  lemma MeaningDecimal(phrases: seq<Phrase>)
    requires AllShaped(phrases)
    ensures AllDecimal(Meaning(phrases))
  {
    hide DecimalCommand, CommandOf;
    forall i | 0 <= i < |phrases|
      ensures DecimalCommand(Meaning(phrases)[i])
    {
      CommandDecimal(phrases[i].letter, phrases[i].args);
    }
  }

  // ---- Every decimal command can be written ----

  const SPACE: Byte := 0x20

  ghost function ArgOf(x: real): (arg: Spaced)
    requires IsDecimal(x)
    ensures arg.token.Word? && IsNumeral(arg.token.numeral) && Denoted(arg.token.numeral) == x && arg.gap == [SPACE]
  {
    Spaced([SPACE], Word(NumeralOf(x)))
  }

  ghost function ArgsOf(p: Point): (args: seq<Spaced>)
    requires DecimalPoint(p)
    ensures |args| == 2
  {
    [ArgOf(p.x), ArgOf(p.y)]
  }

  function BitOf(on: bool): Spaced {
    Spaced([SPACE], Bit(on))
  }

  function LetterOf(c: Command): Byte {
    match c
    case Move(_, _) => LETTER_M
    case Line(_, _) => LETTER_L
    case Horizontal(_, _) => LETTER_H
    case Vertical(_, _) => LETTER_V
    case Cubic(_, _, _, _) => LETTER_C
    case SmoothCubic(_, _, _) => LETTER_S
    case Quad(_, _, _) => LETTER_Q
    case SmoothQuad(_, _) => LETTER_T
    case Elliptic(_, _, _, _, _, _) => LETTER_A
    case CloseSubpath(_) => LETTER_Z
  }

  ghost function ArgumentsOf(c: Command): seq<Spaced>
    requires DecimalCommand(c)
  {
    match c
    case Move(_, to) => ArgsOf(to)
    case Line(_, to) => ArgsOf(to)
    case Horizontal(_, x) => [ArgOf(x)]
    case Vertical(_, y) => [ArgOf(y)]
    case Cubic(_, first, second, to) => ArgsOf(first) + ArgsOf(second) + ArgsOf(to)
    case SmoothCubic(_, second, to) => ArgsOf(second) + ArgsOf(to)
    case Quad(_, control, to) => ArgsOf(control) + ArgsOf(to)
    case SmoothQuad(_, to) => ArgsOf(to)
    case Elliptic(_, radii, rotation, largeArc, sweep, to) =>
      ArgsOf(radii) + [ArgOf(rotation), BitOf(largeArc), BitOf(sweep)] + ArgsOf(to)
    case CloseSubpath(_) => []
  }

  function CasedLetter(c: Command): Byte {
    if c.relative then LetterOf(c) else Capital(LetterOf(c))
  }

  function Capital(letter: int): Byte
    requires 0x61 <= letter <= 0x7A
  {
    letter - 0x20
  }

  ghost function PhraseOf(c: Command): Phrase
    requires DecimalCommand(c)
  {
    Phrase([], CasedLetter(c), true, ArgumentsOf(c))
  }

  lemma LetterIs(c: Command)
    ensures IsCommand(CasedLetter(c)) && Lower(CasedLetter(c)) == LetterOf(c) && IsRelative(CasedLetter(c)) == c.relative
  {
  }

  /** A letter with these arguments says the command. */
  ghost predicate Says(letter: Byte, args: seq<Spaced>, c: Command) {
    Shaped(letter, args) && ArgsSpacedOut(args) && CommandOf(letter, args) == c
  }

  lemma ShortPhrase(c: Command, letter: Byte)
    requires DecimalCommand(c) && (c.Move? || c.Line? || c.Horizontal? || c.Vertical? || c.SmoothQuad? || c.CloseSubpath?)
    requires IsCommand(letter) && Lower(letter) == LetterOf(c) && IsRelative(letter) == c.relative
    ensures Says(letter, ArgumentsOf(c), c)
  {
    hide IsDecimal, IsNumeral, Denoted, Lower, IsRelative, IsCommand, ArgOf;
  }

  lemma FourArguments(c: Command, letter: Byte)
    requires DecimalCommand(c) && (c.SmoothCubic? || c.Quad?)
    requires IsCommand(letter) && Lower(letter) == LetterOf(c) && IsRelative(letter) == c.relative
    ensures Says(letter, ArgumentsOf(c), c)
  {
    hide IsDecimal, IsNumeral, Denoted, Lower, IsRelative, IsCommand, ArgOf;
  }

  lemma SixArguments(c: Command, letter: Byte)
    requires DecimalCommand(c) && c.Cubic?
    requires IsCommand(letter) && Lower(letter) == LetterOf(c) && IsRelative(letter) == c.relative
    ensures Says(letter, ArgumentsOf(c), c)
  {
    hide IsDecimal, IsNumeral, Denoted, Lower, IsRelative, IsCommand, ArgOf;
  }

  lemma ArcArguments(c: Command, letter: Byte)
    requires DecimalCommand(c) && c.Elliptic?
    requires IsCommand(letter) && Lower(letter) == LetterOf(c) && IsRelative(letter) == c.relative
    ensures Says(letter, ArgumentsOf(c), c)
  {
    hide IsDecimal, IsNumeral, Denoted, Lower, IsRelative, IsCommand, ArgOf;
  }

  /** A decimal command, written out with its letter and every gap, says itself. */
  lemma PhraseOfIs(c: Command)
    requires DecimalCommand(c)
    ensures Says(PhraseOf(c).letter, PhraseOf(c).args, c)
  {
    hide DecimalCommand, CasedLetter, Lower, IsRelative, IsCommand, ArgumentsOf, Says;
    LetterIs(c);
    if c.Elliptic? {
      ArcArguments(c, CasedLetter(c));
    } else if c.Cubic? {
      SixArguments(c, CasedLetter(c));
    } else if c.SmoothCubic? || c.Quad? {
      FourArguments(c, CasedLetter(c));
    } else {
      ShortPhrase(c, CasedLetter(c));
    }
  }

  ghost function TextOf(commands: seq<Command>): (phrases: seq<Phrase>)
    requires AllDecimal(commands)
    ensures |phrases| == |commands|
  {
    seq(|commands|, i requires 0 <= i < |commands| => PhraseOf(commands[i]))
  }

  /** Every list of decimal commands has a text that is read as it. */
  lemma TextOfIs(commands: seq<Command>)
    requires AllDecimal(commands)
    ensures AllShaped(TextOf(commands)) && Written(TextOf(commands), None, []) && Meaning(TextOf(commands)) == commands
  {
    hide PhraseOf, Shaped, ArgsSpacedOut, CommandOf, DecimalCommand, Written;
    var phrases := TextOf(commands);
    forall i | 0 <= i < |phrases|
      ensures Shaped(phrases[i].letter, phrases[i].args) && ArgsSpacedOut(phrases[i].args)
      ensures phrases[i].shown && phrases[i].gap == [] && CommandOf(phrases[i].letter, phrases[i].args) == commands[i]
    {
      PhraseOfIs(commands[i]);
      PhraseShown(commands[i]);
    }
    SpacedOutIsWritten(phrases, None, []);
  }

  lemma PhraseShown(c: Command)
    requires DecimalCommand(c)
    ensures PhraseOf(c).shown && PhraseOf(c).gap == []
  {
  }

  // ---- Recasing and moving keep to decimals ----

  lemma PlusDecimal(p: Point, q: Point)
    requires DecimalPoint(p) && DecimalPoint(q)
    ensures DecimalPoint(p.Plus(q)) && DecimalPoint(Minus(p, q))
  {
    hide IsDecimal;
    DecimalsAdd(p.x, q.x);
    DecimalsAdd(p.y, q.y);
  }

  ghost predicate DecimalPen(pen: Pen) {
    DecimalPoint(pen.current) && DecimalPoint(pen.subpathStart)
  }

  lemma OriginDecimal(relative: bool, pen: Pen)
    requires DecimalPen(pen)
    ensures DecimalPoint(OriginOf(relative, pen))
  {
    hide IsDecimal;
    ZeroDecimal();
  }

  lemma ShiftedDecimal(p: Point, from: Point, to: Point)
    requires DecimalPoint(p) && DecimalPoint(from) && DecimalPoint(to)
    ensures DecimalPoint(p.Plus(from)) && DecimalPoint(Minus(p.Plus(from), to))
  {
    hide DecimalPoint;
    PlusDecimal(p, from);
    PlusDecimal(p.Plus(from), to);
  }

  lemma RebasedDecimal(c: Command, relative: bool, from: Point, to: Point)
    requires DecimalCommand(c) && DecimalPoint(from) && DecimalPoint(to)
    ensures DecimalCommand(Rebased(c, relative, from, to))
  {
    hide IsDecimal;
    match c
    case Horizontal(_, x) =>
      DecimalsAdd(x, from.x);
      DecimalsAdd(x + from.x, to.x);
    case Vertical(_, y) =>
      DecimalsAdd(y, from.y);
      DecimalsAdd(y + from.y, to.y);
    case Cubic(_, first, second, p) =>
      ShiftedDecimal(first, from, to);
      ShiftedDecimal(second, from, to);
      ShiftedDecimal(p, from, to);
    case SmoothCubic(_, second, p) =>
      ShiftedDecimal(second, from, to);
      ShiftedDecimal(p, from, to);
    case Quad(_, control, p) =>
      ShiftedDecimal(control, from, to);
      ShiftedDecimal(p, from, to);
    case CloseSubpath(_) =>
    case _ => ShiftedDecimal(c.to, from, to);
  }

  lemma DrawDecimal(f: Functions, pen: Pen, c: Command)
    requires f.Lawful() && DecimalPen(pen) && DecimalCommand(c)
    ensures DecimalPen(Draw(f, pen, c).pen)
  {
    hide IsDecimal, ArcSegments, Functions.Lawful;
    var origin := OriginOf(c.relative, pen);
    OriginDecimal(c.relative, pen);
    match c
    case Horizontal(_, x) => DecimalsAdd(origin.x, x);
    case Vertical(_, y) => DecimalsAdd(origin.y, y);
    case CloseSubpath(_) =>
    case _ => PlusDecimal(c.to, origin);
  }

  lemma {:induction false} RecasedDecimal(f: Functions, pen: Pen, commands: seq<Command>, cases: seq<bool>)
    requires f.Lawful() && |commands| == |cases| && DecimalPen(pen) && AllDecimal(commands)
    ensures AllDecimal(RecasedAll(f, pen, commands, cases))
    decreases |commands|
  {
    hide Draw, DecimalCommand, DecimalPen, Rebased, DecimalPoint, Functions.Lawful;
    if commands != [] {
      var first := commands[0];
      OriginDecimal(first.relative, pen);
      OriginDecimal(cases[0], pen);
      RebasedDecimal(first, cases[0], OriginOf(first.relative, pen), OriginOf(cases[0], pen));
      DrawDecimal(f, pen, first);
      RecasedDecimal(f, Draw(f, pen, first).pen, commands[1..], cases[1..]);
    }
  }

  /** Whatever cases are chosen, data can be rewritten in them, and is read as the same path. */
  lemma EveryTextHasRecasings(f: Functions, phrases: seq<Phrase>, tail: seq<Byte>, cases: seq<bool>)
    returns (others: seq<Phrase>)
    requires f.Lawful() && Written(phrases, None, tail) && AllSeparators(tail) && |cases| == |phrases|
    ensures Written(others, None, []) && AllShaped(others)
    ensures |Meaning(others)| == |cases| && forall i :: 0 <= i < |cases| ==> Meaning(others)[i].relative == cases[i]
    ensures !Jams(Text(phrases) + tail, None) && !Jams(Text(others), None)
    ensures Render(f, Begin(Text(others))) == Render(f, Begin(Text(phrases) + tail))
  {
    WrittenShaped(phrases, None, tail);
    assert DecimalPen(START) by {
      ZeroDecimal();
    }
    hide Functions.Lawful, Written, Text, Jams, Render, RecasedAll, Meaning, TextOf, AllDecimal, DecimalPen;
    var commands := Meaning(phrases);
    MeaningLength(phrases);
    MeaningDecimal(phrases);
    RecasedDecimal(f, START, commands, cases);
    var recased := RecasedAll(f, START, commands, cases);
    CasesDrawTheSame(f, START, commands, cases);
    TextOfIs(recased);
    others := TextOf(recased);
    RecasedTextReadsTheSame(f, phrases, tail, others, [], cases);
    assert Text(others) + [] == Text(others);
  }

  /** Data that is relative after its first moveto can be moved anywhere a decimal says, by that moveto alone. */
  lemma EveryRelativeTextMoves(f: Functions, phrases: seq<Phrase>, tail: seq<Byte>, start: Point, commands: seq<Command>, v: Point)
    returns (others: seq<Phrase>)
    requires f.Lawful() && Written(phrases, None, tail) && AllSeparators(tail) && AllShaped(phrases)
    requires Meaning(phrases) == [Move(false, start)] + commands && DecimalPoint(v)
    requires forall i :: 0 <= i < |commands| ==> commands[i].relative
    ensures Written(others, None, []) && AllShaped(others)
    ensures Meaning(others) == [Move(false, start.Plus(v))] + commands
    ensures !Jams(Text(phrases) + tail, None) && !Jams(Text(others), None)
    ensures Render(f, Begin(Text(others))) == MovedPath(Render(f, Begin(Text(phrases) + tail)), v)
  {
    MeaningDecimal(phrases);
    var whole := [Move(false, start)] + commands;
    var moved := [Move(false, start.Plus(v))] + commands;
    assert DecimalCommand(whole[0]);
    PlusDecimal(start, v);
    assert AllDecimal(moved) by {
      assert forall i :: 0 < i < |moved| ==> moved[i] == whole[i];
    }
    hide Functions.Lawful, Written, Text, Jams, Render, Meaning, TextOf, AllDecimal, MovedPath;
    TextOfIs(moved);
    others := TextOf(moved);
    RelativeTextMoves(f, phrases, tail, others, [], start, commands, v);
    assert Text(others) + [] == Text(others);
  }

  lemma MeaningLength(phrases: seq<Phrase>)
    requires AllShaped(phrases)
    ensures |Meaning(phrases)| == |phrases|
  {
  }
}
