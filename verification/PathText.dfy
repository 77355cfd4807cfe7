/**
 Path data as it may be written (SVG 1.1 section 8.3.9): numerals and flags with any separators
 between them, or none where the next byte cannot be taken for more of the same numeral, and
 letters left out where the one in force is meant. What is written reads back.
 */
module PathText {
  import opened Wrappers
  import opened Geometry
  import opened Analysis
  import opened Bytes
  import opened PathScanner
  import opened PathCommands
  import opened PathReader

  // ---- Numerals ----

  datatype Exponent = Exponent(mark: Byte, sign: seq<Byte>, digits: seq<Byte>)

  datatype Numeral = Numeral(sign: seq<Byte>, whole: seq<Byte>, fraction: Option<seq<Byte>>, exponent: Option<Exponent>)

  predicate AllDigits(s: seq<Byte>) {
    forall i :: 0 <= i < |s| ==> IsDigit(s[i])
  }

  predicate AllSeparators(s: seq<Byte>) {
    forall i :: 0 <= i < |s| ==> IsSeparator(s[i])
  }

  predicate OptionalSign(s: seq<Byte>) {
    s == [] || (|s| == 1 && IsSign(s[0]))
  }

  function Digits(fraction: Option<seq<Byte>>): seq<Byte> {
    match fraction
    case None => []
    case Some(digits) => digits
  }

  predicate IsNumeral(n: Numeral) {
    && OptionalSign(n.sign) && AllDigits(n.whole) && AllDigits(Digits(n.fraction))
    && n.whole + Digits(n.fraction) != []
    && (n.exponent.Some? ==>
          && IsExponentMark(n.exponent.value.mark) && OptionalSign(n.exponent.value.sign)
          && n.exponent.value.digits != [] && AllDigits(n.exponent.value.digits))
  }

  function FractionText(fraction: Option<seq<Byte>>): seq<Byte> {
    match fraction
    case None => []
    case Some(digits) => [POINT] + digits
  }

  function ExponentText(exponent: Option<Exponent>): seq<Byte> {
    match exponent
    case None => []
    case Some(e) => [e.mark] + (e.sign + e.digits)
  }

  function NumeralText(n: Numeral): seq<Byte> {
    n.sign + (n.whole + (FractionText(n.fraction) + ExponentText(n.exponent)))
  }

  /** What a numeral denotes: its digits, scaled by ten to its exponent less its decimal places. */
  function Denoted(n: Numeral): real {
    Scaled(Negative(n.sign), n.whole + Digits(n.fraction), Power(n.exponent) - |Digits(n.fraction)|)
  }

  function Power(exponent: Option<Exponent>): int {
    match exponent
    case None => 0
    case Some(e) => if Negative(e.sign) then -Natural(e.digits) else Natural(e.digits)
  }

  /** The bytes that follow cannot be taken for more of the numeral. */
  predicate Stops(n: Numeral, after: seq<Byte>) {
    after != [] ==>
      && !IsDigit(after[0])
      && (n.exponent.None? ==> !IsExponentMark(after[0]))
      && (n.exponent.None? && n.fraction.None? ==> after[0] != POINT)
  }

  // ---- Reading a numeral back ----

  lemma {:induction false} SeparatorsPassed(gap: seq<Byte>, s: seq<Byte>)
    requires AllSeparators(gap) && (s != [] ==> !IsSeparator(s[0]))
    ensures AfterSeparators(gap + s) == s
  {
    if gap == [] {
      assert gap + s == s;
    } else {
      assert (gap + s)[1..] == gap[1..] + s;
      SeparatorsPassed(gap[1..], s);
    }
  }

  lemma {:induction false} DigitsPassed(digits: seq<Byte>, s: seq<Byte>)
    requires AllDigits(digits) && (s != [] ==> !IsDigit(s[0]))
    ensures AfterDigits(digits + s) == s
  {
    if digits == [] {
      assert digits + s == s;
    } else {
      assert (digits + s)[1..] == digits[1..] + s;
      DigitsPassed(digits[1..], s);
    }
  }

  lemma SignPassed(sign: seq<Byte>, s: seq<Byte>)
    requires OptionalSign(sign) && (s != [] ==> !IsSign(s[0]))
    ensures AfterSign(sign + s) == s
  {
    if sign == [] {
      assert sign + s == s;
    } else {
      assert (sign + s)[1..] == s;
    }
  }

  lemma FractionPassed(n: Numeral, s: seq<Byte>)
    requires IsNumeral(n) && (s != [] ==> !IsDigit(s[0]) && (n.fraction.None? ==> s[0] != POINT))
    ensures AfterFraction(FractionText(n.fraction) + s) == s
  {
    hide AfterDigits, AllDigits;
    match n.fraction
    case None => assert [] + s == s;
    case Some(digits) =>
      assert (([POINT] + digits) + s)[1..] == digits + s;
      DigitsPassed(digits, s);
  }

  lemma ExponentPassed(n: Numeral, s: seq<Byte>)
    requires IsNumeral(n) && Stops(n, s)
    ensures AfterExponent(ExponentText(n.exponent) + s) == s
  {
    match n.exponent
    case None => assert [] + s == s;
    case Some(e) =>
      assert (ExponentText(n.exponent) + s)[1..] == e.sign + (e.digits + s);
      SignPassed(e.sign, e.digits + s);
      DigitsPassed(e.digits, s);
  }

  /** Where each part of a numeral stops being read. */
  lemma NumeralParts(n: Numeral, after: seq<Byte>)
    requires IsNumeral(n) && Stops(n, after)
    ensures var marked := ExponentText(n.exponent) + after;
            var tail := FractionText(n.fraction) + marked;
            && AfterSign(NumeralText(n) + after) == n.whole + tail
            && AfterDigits(n.whole + tail) == tail
            && AfterFraction(tail) == marked
            && AfterExponent(marked) == after
  {
    hide AfterSign, AfterDigits, AfterFraction, AfterExponent;
    var marked := ExponentText(n.exponent) + after;
    var tail := FractionText(n.fraction) + marked;
    Leads(n, after);
    Assembled(n, after);
    SignPassed(n.sign, n.whole + tail);
    DigitsPassed(n.whole, tail);
    FractionPassed(n, marked);
    ExponentPassed(n, after);
  }

  lemma Assembled(n: Numeral, after: seq<Byte>)
    ensures NumeralText(n) + after
         == n.sign + (n.whole + (FractionText(n.fraction) + (ExponentText(n.exponent) + after)))
  {
    hide FractionText, ExponentText;
    var fraction, exponent := FractionText(n.fraction), ExponentText(n.exponent);
    assert (fraction + exponent) + after == fraction + (exponent + after);
    assert (n.whole + (fraction + exponent)) + after == n.whole + ((fraction + exponent) + after);
  }

  /** The bytes each part begins with, when it is there at all. */
  lemma Leads(n: Numeral, after: seq<Byte>)
    requires IsNumeral(n) && Stops(n, after)
    ensures var marked := ExponentText(n.exponent) + after;
            var tail := FractionText(n.fraction) + marked;
            && (marked != [] ==> !IsDigit(marked[0]) && (n.fraction.None? ==> marked[0] != POINT))
            && (tail != [] ==> !IsDigit(tail[0]))
            && (n.whole + tail != [] ==> !IsSign((n.whole + tail)[0]))
  {
    var marked := ExponentText(n.exponent) + after;
    var tail := FractionText(n.fraction) + marked;
    if n.exponent.None? {
      assert marked == after;
    }
    if n.fraction.None? {
      assert tail == marked;
    }
    if n.whole == [] {
      assert n.whole + tail == tail;
    } else {
      assert (n.whole + tail)[0] == n.whole[0];
    }
  }

  lemma NumeralEnds(n: Numeral, after: seq<Byte>)
    requires IsNumeral(n) && Stops(n, after)
    ensures AfterNumeral(NumeralText(n) + after) == after
  {
    NumeralParts(n, after);
  }

  lemma NumeralDenotes(n: Numeral)
    requires IsNumeral(n)
    ensures Decimal(NumeralText(n)) == Some(Denoted(n))
  {
    hide AfterSign, AfterDigits, AfterFraction, AfterExponent, Scaled, ExponentValue, Power, Negative;
    NumeralParts(n, []);
    var text := NumeralText(n);
    var mark := ExponentText(n.exponent);
    var tail := FractionText(n.fraction) + mark;
    assert text + [] == text && mark + [] == mark;
    assert Before(n.whole + tail, tail) == n.whole;
    assert Before(tail, mark) == FractionText(n.fraction);
    PowerRead(n);
    SignRead(n);
  }

  lemma PowerRead(n: Numeral)
    requires IsNumeral(n)
    ensures ExponentValue(ExponentText(n.exponent)) == Power(n.exponent)
  {
    if n.exponent.Some? {
      var e := n.exponent.value;
      assert ExponentText(n.exponent)[1..] == e.sign + e.digits;
      SignPassed(e.sign, e.digits);
    }
  }

  lemma SignRead(n: Numeral)
    requires IsNumeral(n)
    ensures Negative(NumeralText(n)) == Negative(n.sign)
  {
    Assembled(n, []);
    Leads(n, []);
    var tail := FractionText(n.fraction) + (ExponentText(n.exponent) + []);
    assert NumeralText(n) + [] == NumeralText(n);
    if n.sign == [] {
      assert NumeralText(n) == n.whole + tail;
    }
  }

  /** A numeral begins with a byte that no separator or letter is. */
  lemma NumeralBegins(n: Numeral)
    requires IsNumeral(n)
    ensures NumeralText(n) != [] && StartsNumber(NumeralText(n)[0])
  {
    if n.sign == [] && n.whole != [] {
      assert NumeralText(n)[0] == n.whole[0];
    }
  }

  lemma NumberBack(gap: seq<Byte>, n: Numeral, after: seq<Byte>)
    requires AllSeparators(gap) && IsNumeral(n) && Stops(n, after)
    ensures NumberIn(gap + NumeralText(n) + after) == Read(Denoted(n), after)
  {
    var s := NumeralText(n) + after;
    NumeralBegins(n);
    assert gap + NumeralText(n) + after == gap + s;
    SeparatorsPassed(gap, s);
    NumeralEnds(n, after);
    assert Before(s, after) == NumeralText(n);
    NumeralDenotes(n);
  }

  // ---- Arguments ----

  /** An argument of a command: a number, or an arc flag, which is one character. */
  datatype Token = Word(numeral: Numeral) | Bit(on: bool)

  datatype Spaced = Spaced(gap: seq<Byte>, token: Token)

  const FLAG_OFF: Byte := 0x30

  function TokenText(token: Token): seq<Byte> {
    match token
    case Word(n) => NumeralText(n)
    case Bit(on) => if on then [ONE] else [FLAG_OFF]
  }

  function ArgsText(args: seq<Spaced>): seq<Byte> {
    if args == [] then [] else args[0].gap + TokenText(args[0].token) + ArgsText(args[1..])
  }

  /** Gaps hold separators only, and are left empty only where the next byte ends the numeral. */
  predicate Packed(args: seq<Spaced>, after: seq<Byte>) {
    args == [] ||
    (&& AllSeparators(args[0].gap)
     && (args[0].token.Word? ==>
           IsNumeral(args[0].token.numeral) && Stops(args[0].token.numeral, ArgsText(args[1..]) + after))
     && Packed(args[1..], after))
  }

  function Value(arg: Spaced): real
    requires arg.token.Word?
  {
    Denoted(arg.token.numeral)
  }

  function PointOf(args: seq<Spaced>, i: nat): Point
    requires i + 1 < |args| && args[i].token.Word? && args[i + 1].token.Word?
  {
    Point(Value(args[i]), Value(args[i + 1]))
  }

  lemma Joined(gap: seq<Byte>, token: seq<Byte>, rest: seq<Byte>, after: seq<Byte>)
    ensures gap + token + rest + after == gap + (token + (rest + after))
  {
    assert token + (rest + after) == token + rest + after;
  }

  lemma ArgsFirst(args: seq<Spaced>, after: seq<Byte>)
    requires args != []
    ensures ArgsText(args) + after == args[0].gap + (TokenText(args[0].token) + (ArgsText(args[1..]) + after))
  {
    hide TokenText;
    Joined(args[0].gap, TokenText(args[0].token), ArgsText(args[1..]), after);
  }

  lemma NumberArgBack(args: seq<Spaced>, after: seq<Byte>)
    requires Packed(args, after) && args != [] && args[0].token.Word?
    ensures NumberIn(ArgsText(args) + after) == Read(Value(args[0]), ArgsText(args[1..]) + after)
  {
    hide NumberIn, ArgsText, IsNumeral, Stops, AllSeparators, Denoted, NumeralText;
    var rest := ArgsText(args[1..]) + after;
    var n := args[0].token.numeral;
    NumberBack(args[0].gap, n, rest);
    ArgsFirst(args, after);
    assert args[0].gap + NumeralText(n) + rest == args[0].gap + (NumeralText(n) + rest);
  }

  lemma FlagBack(gap: seq<Byte>, on: bool, rest: seq<Byte>)
    requires AllSeparators(gap)
    ensures FlagIn(gap + (TokenText(Bit(on)) + rest)) == Read(on, rest)
  {
    hide AfterSeparators;
    var flag := TokenText(Bit(on)) + rest;
    SeparatorsPassed(gap, flag);
    assert flag[1..] == rest;
  }

  lemma FlagArgBack(args: seq<Spaced>, after: seq<Byte>)
    requires Packed(args, after) && args != [] && args[0].token.Bit?
    ensures FlagIn(ArgsText(args) + after) == Read(args[0].token.on, ArgsText(args[1..]) + after)
  {
    hide FlagIn, ArgsText, AllSeparators, TokenText;
    ArgsFirst(args, after);
    FlagBack(args[0].gap, args[0].token.on, ArgsText(args[1..]) + after);
  }

  lemma PointArgsBack(args: seq<Spaced>, after: seq<Byte>)
    requires Packed(args, after) && |args| >= 2 && args[0].token.Word? && args[1].token.Word?
    ensures PointIn(ArgsText(args) + after) == Read(PointOf(args, 0), ArgsText(args[2..]) + after)
    ensures Packed(args[2..], after)
  {
    NumberArgBack(args, after);
    NumberArgBack(args[1..], after);
    assert args[1..][1..] == args[2..];
  }

  // ---- Commands ----

  /** The kinds of argument a letter takes, and the command they make. */
  predicate Shaped(letter: Byte, args: seq<Spaced>) {
    && IsCommand(letter)
    && |args| == Arity(letter)
    && forall i :: 0 <= i < |args| ==> (args[i].token.Bit? <==> Lower(letter) == LETTER_A && 3 <= i < 5)
  }

  function Arity(letter: Byte): nat {
    var l := Lower(letter);
    if l == LETTER_C then 6
    else if l == LETTER_S || l == LETTER_Q then 4
    else if l == LETTER_M || l == LETTER_L || l == LETTER_T then 2
    else if l == LETTER_H || l == LETTER_V then 1
    else if l == LETTER_A then 7
    else 0
  }

  function CommandOf(letter: Byte, args: seq<Spaced>): Command
    requires Shaped(letter, args)
  {
    var l := Lower(letter);
    var r := IsRelative(letter);
    if l == LETTER_M then Move(r, PointOf(args, 0))
    else if l == LETTER_L then Line(r, PointOf(args, 0))
    else if l == LETTER_H then Horizontal(r, Value(args[0]))
    else if l == LETTER_V then Vertical(r, Value(args[0]))
    else if l == LETTER_C then Cubic(r, PointOf(args, 0), PointOf(args, 2), PointOf(args, 4))
    else if l == LETTER_S then SmoothCubic(r, PointOf(args, 0), PointOf(args, 2))
    else if l == LETTER_Q then Quad(r, PointOf(args, 0), PointOf(args, 2))
    else if l == LETTER_T then SmoothQuad(r, PointOf(args, 0))
    else if l == LETTER_A then
      Elliptic(r, PointOf(args, 0), Value(args[2]), args[3].token.on, args[4].token.on, PointOf(args, 5))
    else CloseSubpath(r)
  }

  lemma ArcBack(args: seq<Spaced>, after: seq<Byte>, letter: Byte)
    requires Shaped(letter, args) && Lower(letter) == LETTER_A && Packed(args, after)
    ensures ArcIn(IsRelative(letter), ArgsText(args) + after) == Read(CommandOf(letter, args), after)
  {
    hide NumberIn, FlagIn, PointIn, Denoted, ArgsText, Packed, NumeralText;
    PointArgsBack(args, after);
    var a := args[2..];
    NumberArgBack(a, after);
    PackedTail(a, after);
    FlagArgBack(a[1..], after);
    PackedTail(a[1..], after);
    assert a[1..][1..] == args[4..] && args[4..][1..] == args[5..];
    FlagArgBack(args[4..], after);
    PackedTail(args[4..], after);
    PointArgsBack(args[5..], after);
    NothingLeft(args[5..][2..], after);
  }

  lemma PackedTail(args: seq<Spaced>, after: seq<Byte>)
    requires Packed(args, after) && args != []
    ensures Packed(args[1..], after)
  {
  }

  lemma NothingLeft(args: seq<Spaced>, after: seq<Byte>)
    requires args == []
    ensures ArgsText(args) + after == after
  {
  }

  /** A command's arguments, as written, read back as the command. */
  lemma CommandBack(letter: Byte, args: seq<Spaced>, after: seq<Byte>)
    requires Shaped(letter, args) && Packed(args, after)
    ensures CommandAt(letter, ArgsText(args) + after) == Read(CommandOf(letter, args), after)
  {
    hide NumberIn, FlagIn, PointIn, Denoted, ArgsText, Packed, NumeralText, ArcIn;
    var l := Lower(letter);
    if l == LETTER_A {
      ArcBack(args, after, letter);
    } else if |args| == 0 {
      NothingLeft(args, after);
    } else if |args| == 1 {
      NumberArgBack(args, after);
      NothingLeft(args[1..], after);
    } else {
      PointArgsBack(args, after);
      if |args| == 2 {
        NothingLeft(args[2..], after);
      } else {
        PointArgsBack(args[2..], after);
        assert args[2..][2..] == args[4..];
        if |args| == 4 {
          NothingLeft(args[4..], after);
        } else {
          PointArgsBack(args[4..], after);
          NothingLeft(args[4..][2..], after);
        }
      }
    }
  }

  // ---- Whole paths ----

  /** A command as written. Its letter is left out, gap and all, when `shown` is false. */
  datatype Phrase = Phrase(gap: seq<Byte>, letter: Byte, shown: bool, args: seq<Spaced>)

  function PhraseText(p: Phrase): seq<Byte> {
    (if p.shown then p.gap + [p.letter] else []) + ArgsText(p.args)
  }

  function Text(phrases: seq<Phrase>): seq<Byte> {
    if phrases == [] then [] else PhraseText(phrases[0]) + Text(phrases[1..])
  }

  /**
   Well-formed data, to be followed by `after`. A letter may be left out where it is the one in
   force: the last letter shown, except that after a moveto it is the lineto, and never a close.
   */
  predicate Written(phrases: seq<Phrase>, inForce: Option<Byte>, after: seq<Byte>) {
    phrases == [] ||
    var p := phrases[0];
    && Shaped(p.letter, p.args)
    && AllSeparators(p.gap)
    && (!p.shown ==> inForce == Some(p.letter) && !IsClose(p.letter))
    && Packed(p.args, Text(phrases[1..]) + after)
    && Written(phrases[1..], Some(Continuation(p.letter)), after)
  }

  function Meaning(phrases: seq<Phrase>): seq<Command>
    requires forall i :: 0 <= i < |phrases| ==> Shaped(phrases[i].letter, phrases[i].args)
  {
    seq(|phrases|, i requires 0 <= i < |phrases| => CommandOf(phrases[i].letter, phrases[i].args))
  }

  lemma {:induction false} WrittenShaped(phrases: seq<Phrase>, inForce: Option<Byte>, after: seq<Byte>)
    requires Written(phrases, inForce, after)
    ensures forall i :: 0 <= i < |phrases| ==> Shaped(phrases[i].letter, phrases[i].args)
  {
    if phrases != [] {
      WrittenShaped(phrases[1..], Some(Continuation(phrases[0].letter)), after);
    }
  }

  /** The scanner sees a shown letter, and passes over the gap before it. */
  lemma LetterBack(p: Phrase, after: seq<Byte>)
    requires p.shown && AllSeparators(p.gap) && IsCommand(p.letter)
    ensures CommandIn(PhraseText(p) + after) == Read(Some(p.letter), ArgsText(p.args) + after)
  {
    hide ArgsText, AfterSeparators;
    var rest := ArgsText(p.args) + after;
    var s := [p.letter] + rest;
    assert PhraseText(p) + after == p.gap + s;
    SeparatorsPassed(p.gap, s);
    assert s[1..] == rest;
  }

  /** No letter is seen where a number begins, past any separators. */
  lemma NoLetterSeen(gap: seq<Byte>, s: seq<Byte>)
    requires AllSeparators(gap) && s != [] && StartsNumber(s[0])
    ensures CommandIn(gap + s) == Read(None, s) && HasNumber(s)
  {
    hide AfterSeparators;
    SeparatorsPassed(gap, s);
    SeparatorsPassed([], s);
    assert [] + s == s;
  }

  /** Where a letter is left out the scanner sees a number, and passes over the gap before it. */
  lemma NoLetterBack(args: seq<Spaced>, after: seq<Byte>)
    requires Packed(args, after) && args != [] && args[0].token.Word?
    ensures var s := ArgsText(args) + after;
            && CommandIn(s) == Read(None, ArgsText(Ungapped(args)) + after)
            && HasNumber(ArgsText(Ungapped(args)) + after)
    ensures Packed(Ungapped(args), after)
  {
    hide CommandIn, HasNumber, ArgsText, IsNumeral, Stops, NumeralText, StartsNumber;
    var n := args[0].token.numeral;
    var rest := ArgsText(args[1..]) + after;
    NumeralBegins(n);
    ArgsFirst(args, after);
    ArgsFirst(Ungapped(args), after);
    assert Ungapped(args)[1..] == args[1..];
    assert [] + (NumeralText(n) + rest) == NumeralText(n) + rest;
    NoLetterSeen(args[0].gap, NumeralText(n) + rest);
  }

  /** The same arguments, once the separators before them are passed. */
  function Ungapped(args: seq<Spaced>): seq<Spaced>
    requires args != []
  {
    [Spaced([], args[0].token)] + args[1..]
  }

  /** One written command takes the reader one turn, past its text and no further. */
  lemma PhraseTurn(f: Functions, phrases: seq<Phrase>, tail: seq<Byte>, c: Config)
    requires f.Lawful() && phrases != [] && Written(phrases, c.repeated, tail)
    requires c.rest == Text(phrases) + tail
    requires c.repeated.Some? ==> Continuation(c.repeated.value) == c.repeated.value
    ensures var p := phrases[0];
            var drawn := Draw(f, c.pen, CommandOf(p.letter, p.args));
            && Turn(f, c) == Some(Config(Text(phrases[1..]) + tail, Some(Continuation(p.letter)), drawn.pen,
                                         c.path + drawn.segments))
    ensures Known(c.repeated) ==>
              Jams(c.rest, c.repeated) == Jams(Text(phrases[1..]) + tail, Some(Continuation(phrases[0].letter)))
  {
    hide Draw, CommandOf, CommandAt, ArgsText, Packed, Functions.Lawful;
    var p := phrases[0];
    var after := Text(phrases[1..]) + tail;
    assert c.rest == PhraseText(p) + after;
    if p.shown {
      LetterBack(p, after);
      CommandBack(p.letter, p.args, after);
    } else {
      assert PhraseText(p) == ArgsText(p.args);
      NoLetterBack(p.args, after);
      CommandBack(p.letter, Ungapped(p.args), after);
      UngappedMeans(p.letter, p.args);
    }
  }

  lemma UngappedMeans(letter: Byte, args: seq<Spaced>)
    requires Shaped(letter, args) && args != []
    ensures Shaped(letter, Ungapped(args)) && CommandOf(letter, Ungapped(args)) == CommandOf(letter, args)
  {
    assert forall i :: 0 <= i < |args| ==> Ungapped(args)[i].token == args[i].token;
  }

  lemma WrittenOn(phrases: seq<Phrase>, inForce: Option<Byte>, tail: seq<Byte>)
    requires phrases != [] && Written(phrases, inForce, tail)
    ensures Written(phrases[1..], Some(Continuation(phrases[0].letter)), tail)
    ensures IsCommand(phrases[0].letter) && Known(Some(Continuation(phrases[0].letter)))
    ensures Continuation(Continuation(phrases[0].letter)) == Continuation(phrases[0].letter)
  {
    hide Text, Packed, AllSeparators;
  }

  /** The reader comes to the end of well-formed data having drawn exactly the commands written. */
  lemma {:induction false} ReadsOn(f: Functions, phrases: seq<Phrase>, tail: seq<Byte>, c: Config)
    requires f.Lawful() && Written(phrases, c.repeated, tail) && AllSeparators(tail)
    requires c.rest == Text(phrases) + tail && Known(c.repeated)
    requires c.repeated.Some? ==> Continuation(c.repeated.value) == c.repeated.value
    requires forall i :: 0 <= i < |phrases| ==> Shaped(phrases[i].letter, phrases[i].args)
    ensures !Jams(c.rest, c.repeated)
    ensures Render(f, c) == c.path + DrawAll(f, c.pen, Meaning(phrases)).segments
    decreases |phrases|
  {
    hide *;
    if phrases == [] {
      NothingWritten(f, c.pen, tail);
      OnlySeparators(f, c);
      assert c.path + [] == c.path;
    } else {
      WrittenOn(phrases, c.repeated, tail);
      PhraseTurn(f, phrases, tail, c);
      var next := Turn(f, c).value;
      ReadsOn(f, phrases[1..], tail, next);
      RendersOn(f, c);
      MeaningFirst(f, c.pen, phrases);
      var first := Draw(f, c.pen, CommandOf(phrases[0].letter, phrases[0].args));
      var rest := DrawAll(f, first.pen, Meaning(phrases[1..]));
      assert c.path + (first.segments + rest.segments) == (c.path + first.segments) + rest.segments;
    }
  }

  lemma NoText(tail: seq<Byte>)
    ensures Text([]) + tail == tail
  {
  }

  lemma NothingWritten(f: Functions, pen: Pen, tail: seq<Byte>)
    requires f.Lawful()
    ensures Text([]) + tail == tail && DrawAll(f, pen, Meaning([])).segments == []
  {
    hide Draw, Functions.Lawful;
    NoText(tail);
    assert Meaning([]) == [];
  }

  lemma OnlySeparators(f: Functions, c: Config)
    requires f.Lawful() && Known(c.repeated) && AllSeparators(c.rest)
    ensures !Jams(c.rest, c.repeated) && Render(f, c) == c.path
  {
    SeparatorsPassed(c.rest, []);
    assert c.rest + [] == c.rest;
  }

  lemma RendersOn(f: Functions, c: Config)
    requires f.Lawful() && Known(c.repeated) && !Jams(c.rest, c.repeated) && Turn(f, c).Some?
    ensures var next := Turn(f, c).value;
            Known(next.repeated) && !Jams(next.rest, next.repeated) && Render(f, c) == Render(f, next)
  {
    hide Turn, Jams, Functions.Lawful;
    TurnAdvances(f, c);
  }

  lemma MeaningFirst(f: Functions, pen: Pen, phrases: seq<Phrase>)
    requires f.Lawful() && phrases != []
    requires forall i :: 0 <= i < |phrases| ==> Shaped(phrases[i].letter, phrases[i].args)
    ensures var first := Draw(f, pen, CommandOf(phrases[0].letter, phrases[0].args));
            var rest := DrawAll(f, first.pen, Meaning(phrases[1..]));
            DrawAll(f, pen, Meaning(phrases)) == Drawn(rest.pen, first.segments + rest.segments)
  {
    hide Draw, CommandOf, Functions.Lawful;
    assert Meaning(phrases)[1..] == Meaning(phrases[1..]);
  }

  /** Whatever spacing is chosen and whichever letters are left out, a path reads back as it was written. */
  lemma WrittenPathReadsBack(f: Functions, phrases: seq<Phrase>, tail: seq<Byte>)
    requires f.Lawful() && Written(phrases, None, tail) && AllSeparators(tail)
    ensures forall i :: 0 <= i < |phrases| ==> Shaped(phrases[i].letter, phrases[i].args)
    ensures !Jams(Text(phrases) + tail, None)
    ensures Render(f, Begin(Text(phrases) + tail)) == DrawAll(f, START, Meaning(phrases)).segments
  {
    WrittenShaped(phrases, None, tail);
    ReadsOn(f, phrases, tail, Begin(Text(phrases) + tail));
  }

  // ---- Spacing that always works ----

  /** Every letter is shown, and every argument stands clear of what is before it. */
  predicate SpacedOut(phrases: seq<Phrase>) {
    forall i :: 0 <= i < |phrases| ==>
      && phrases[i].shown && AllSeparators(phrases[i].gap)
      && Shaped(phrases[i].letter, phrases[i].args)
      && ArgsSpacedOut(phrases[i].args)
  }

  predicate ArgsSpacedOut(args: seq<Spaced>) {
    forall i :: 0 <= i < |args| ==>
      && args[i].gap != [] && AllSeparators(args[i].gap)
      && (args[i].token.Word? ==> IsNumeral(args[i].token.numeral))
  }

  /** A byte that ends any numeral: a separator or a command's letter. */
  predicate Ending(after: seq<Byte>) {
    after != [] ==> IsSeparator(after[0]) || IsCommand(after[0])
  }

  lemma {:induction false} ArgsPacked(args: seq<Spaced>, after: seq<Byte>)
    requires ArgsSpacedOut(args) && Ending(after)
    ensures Packed(args, after) && Ending(ArgsText(args) + after)
  {
    if args == [] {
      NothingLeft(args, after);
    } else {
      ArgsPacked(args[1..], after);
      assert (ArgsText(args) + after)[0] == args[0].gap[0];
    }
  }

  lemma {:induction false} SpacedOutIsWritten(phrases: seq<Phrase>, inForce: Option<Byte>, tail: seq<Byte>)
    requires SpacedOut(phrases) && AllSeparators(tail)
    ensures Written(phrases, inForce, tail) && Ending(Text(phrases) + tail)
  {
    if phrases == [] {
      NoText(tail);
    } else {
      var p := phrases[0];
      SpacedOutIsWritten(phrases[1..], Some(Continuation(p.letter)), tail);
      ArgsPacked(p.args, Text(phrases[1..]) + tail);
      assert (Text(phrases) + tail)[0] == (if p.gap == [] then p.letter else p.gap[0]);
    }
  }
}
