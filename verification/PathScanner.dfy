/** The one-pass reader over path data's bytes, and what each of its reads means. */
module PathScanner {
  import opened Wrappers
  import opened Bytes

  const PLUS: Byte := 0x2B
  const MINUS: Byte := 0x2D
  const POINT: Byte := 0x2E
  const ONE: Byte := 0x31

  predicate IsSeparator(b: Byte) {
    b == 0x20 || b == 0x09 || b == 0x0A || b == 0x0D || b == 0x2C
  }

  predicate IsDigit(b: Byte) {
    0x30 <= b <= 0x39
  }

  predicate IsSign(b: Byte) {
    b == PLUS || b == MINUS
  }

  predicate IsExponentMark(b: Byte) {
    b == 0x65 || b == 0x45
  }

  predicate IsLetter(b: Byte) {
    0x41 <= b <= 0x5A || 0x61 <= b <= 0x7A
  }

  predicate StartsNumber(b: Byte) {
    IsSign(b) || b == POINT || IsDigit(b)
  }

  // ---- The meaning of a read: what it answers, and what it leaves unread ----

  function AfterSeparators(s: seq<Byte>): (rest: seq<Byte>)
    ensures |rest| <= |s|
    ensures rest != [] ==> !IsSeparator(rest[0])
  {
    if s != [] && IsSeparator(s[0]) then AfterSeparators(s[1..]) else s
  }

  function AfterDigits(s: seq<Byte>): (rest: seq<Byte>)
    ensures |rest| <= |s|
    ensures rest != [] ==> !IsDigit(rest[0])
  {
    if s != [] && IsDigit(s[0]) then AfterDigits(s[1..]) else s
  }

  function AfterSign(s: seq<Byte>): (rest: seq<Byte>)
    ensures |rest| <= |s|
  {
    if s != [] && IsSign(s[0]) then s[1..] else s
  }

  function AfterFraction(s: seq<Byte>): (rest: seq<Byte>)
    ensures |rest| <= |s|
  {
    if s != [] && s[0] == POINT then AfterDigits(s[1..]) else s
  }

  /** An exponent is read only when a digit follows its mark and sign; otherwise nothing is. */
  function AfterExponent(s: seq<Byte>): (rest: seq<Byte>)
    ensures |rest| <= |s|
  {
    if s != [] && IsExponentMark(s[0]) then
      var digits := AfterSign(s[1..]);
      if digits != [] && IsDigit(digits[0]) then AfterDigits(digits) else s
    else s
  }

  function AfterNumeral(s: seq<Byte>): (rest: seq<Byte>)
    ensures |rest| <= |s|
    ensures s != [] && StartsNumber(s[0]) ==> |rest| < |s|
  {
    AfterExponent(AfterFraction(AfterDigits(AfterSign(s))))
  }

  function Before(s: seq<Byte>, rest: seq<Byte>): seq<Byte>
    requires |rest| <= |s|
  {
    s[..|s| - |rest|]
  }

  // ---- The value of a numeral ----

  function Natural(digits: seq<Byte>): int {
    if digits == [] then 0 else 10 * Natural(digits[..|digits| - 1]) + (digits[|digits| - 1] as int - 0x30)
  }

  function PowerOfTen(k: int): real
    decreases if k < 0 then -k else k
  {
    if k == 0 then 1.0
    else if k > 0 then 10.0 * PowerOfTen(k - 1)
    else PowerOfTen(k + 1) / 10.0
  }

  predicate Negative(text: seq<Byte>) {
    text != [] && text[0] == MINUS
  }

  function Scaled(negative: bool, digits: seq<Byte>, exponent: int): real {
    var magnitude := Natural(digits) as real * PowerOfTen(exponent);
    if negative then -magnitude else magnitude
  }

  /** The value of an exponent, its mark included. */
  function ExponentValue(text: seq<Byte>): int {
    if text == [] then 0
    else
      var magnitude := Natural(AfterSign(text[1..]));
      if Negative(text[1..]) then -magnitude else magnitude
  }

  /** A decimal numeral's value; none when it has no digits, or is followed by anything. */
  function Decimal(text: seq<Byte>): Option<real> {
    var unsigned := AfterSign(text);
    var tail := AfterDigits(unsigned);
    var mark := AfterFraction(tail);
    var whole := Before(unsigned, tail);
    var fraction := if tail == mark then [] else Before(tail, mark)[1..];
    if AfterExponent(mark) != [] || whole + fraction == [] then None
    else Some(Scaled(Negative(text), whole + fraction, ExponentValue(mark) - |fraction|))
  }

  datatype Read<+T> = Read(value: T, rest: seq<Byte>)

  /** Malformed data reads as zero, and a byte no number starts with is passed over. */
  function NumberIn(s: seq<Byte>): (read: Read<real>)
    ensures |read.rest| <= |s|
    ensures HasNumber(s) ==> |read.rest| < |AfterSeparators(s)|
  {
    var t := AfterSeparators(s);
    var rest := AfterNumeral(t);
    if rest == t then Read(0.0, if t == [] then [] else t[1..])
    else
      match Decimal(Before(t, rest))
      case Some(value) => Read(value, rest)
      case None => Read(0.0, rest)
  }

  predicate HasNumber(s: seq<Byte>) {
    var t := AfterSeparators(s);
    t != [] && StartsNumber(t[0])
  }

  function FlagIn(s: seq<Byte>): (read: Read<bool>)
    ensures |read.rest| <= |s|
  {
    var t := AfterSeparators(s);
    if t == [] then Read(false, []) else Read(t[0] == ONE, t[1..])
  }

  function CommandIn(s: seq<Byte>): (read: Read<Option<Byte>>)
    ensures |read.rest| <= |s|
    ensures read.value.Some? ==> IsLetter(read.value.value) && |read.rest| < |s|
  {
    var t := AfterSeparators(s);
    if t != [] && IsLetter(t[0]) then Read(Some(t[0]), t[1..]) else Read(None, t)
  }

  // ---- The scanner ----

  class Scanner {
    const bytes: seq<Byte>
    var index: nat

    constructor (bytes: seq<Byte>)
      ensures this.bytes == bytes && Rest() == bytes
    {
      this.bytes := bytes;
      index := 0;
    }

    /** What is left to read. The index may run past the end, where nothing is. */
    function Rest(): seq<Byte>
      reads this
    {
      if index <= |bytes| then bytes[index..] else []
    }

    method SkipDigits()
      modifies this
      ensures Rest() == AfterDigits(old(Rest()))
      ensures old(index) <= |bytes| ==> old(index) <= index <= |bytes|
      ensures old(index) > |bytes| ==> index == old(index)
    {
      while index < |bytes| && IsDigit(bytes[index])
        invariant AfterDigits(Rest()) == AfterDigits(old(Rest()))
        invariant old(index) <= |bytes| ==> old(index) <= index <= |bytes|
        invariant old(index) > |bytes| ==> index == old(index)
      {
        assert bytes[index..][1..] == bytes[index + 1..];
        index := index + 1;
      }
    }

    method SkipSeparators()
      modifies this
      ensures Rest() == AfterSeparators(old(Rest()))
      ensures old(index) <= index
    {
      while index < |bytes|
        invariant AfterSeparators(Rest()) == AfterSeparators(old(Rest()))
        invariant old(index) <= index
      {
        if !IsSeparator(bytes[index]) {
          break;
        }
        assert bytes[index..][1..] == bytes[index + 1..];
        index := index + 1;
      }
    }

    method Command() returns (letter: Option<Byte>)
      modifies this
      ensures Read(letter, Rest()) == CommandIn(old(Rest()))
    {
      SkipSeparators();
      if index >= |bytes| {
        return None;
      }
      var byte := bytes[index];
      var isUpper := byte >= 0x41 && byte <= 0x5A;
      var isLower := byte >= 0x61 && byte <= 0x7A;
      if !(isUpper || isLower) {
        return None;
      }
      index := index + 1;
      return Some(byte);
    }

    method NumberNext() returns (starts: bool)
      modifies this
      ensures Rest() == AfterSeparators(old(Rest()))
      ensures starts == HasNumber(old(Rest())) == HasNumber(Rest())
    {
      SkipSeparators();
      if index >= |bytes| {
        return false;
      }
      var byte := bytes[index];
      return IsSign(byte) || byte == POINT || IsDigit(byte);
    }

    method SkipSign()
      modifies this
      ensures Rest() == AfterSign(old(Rest()))
      ensures old(index) <= index
      ensures old(index) <= |bytes| ==> index <= |bytes|
      ensures old(index) > |bytes| ==> index == old(index)
    {
      if index < |bytes| && IsSign(bytes[index]) {
        assert bytes[index..][1..] == bytes[index + 1..];
        index := index + 1;
      }
    }

    method SkipFraction()
      modifies this
      ensures Rest() == AfterFraction(old(Rest()))
      ensures old(index) <= index
      ensures old(index) <= |bytes| ==> index <= |bytes|
      ensures old(index) > |bytes| ==> index == old(index)
    {
      if index < |bytes| && bytes[index] == POINT {
        assert bytes[index..][1..] == bytes[index + 1..];
        index := index + 1;
        SkipDigits();
      }
    }

    /** A trailing mark that is no exponent belongs to whatever comes next: the index goes back to it. */
    method SkipExponent()
      modifies this
      ensures Rest() == AfterExponent(old(Rest()))
      ensures old(index) <= index
      ensures old(index) <= |bytes| ==> index <= |bytes|
      ensures old(index) > |bytes| ==> index == old(index)
    {
      if index < |bytes| && IsExponentMark(bytes[index]) {
        var mark := index;
        assert bytes[index..][1..] == bytes[index + 1..];
        index := index + 1;
        SkipSign();
        if index < |bytes| && IsDigit(bytes[index]) {
          SkipDigits();
        } else {
          index := mark;
        }
      }
    }

    method Number() returns (value: real)
      modifies this
      ensures Read(value, Rest()) == NumberIn(old(Rest()))
    {
      hide Decimal, AfterSeparators, AfterSign, AfterDigits, AfterFraction, AfterExponent;
      SkipSeparators();
      var start := index;
      ghost var t := Rest();
      SkipSign();
      SkipDigits();
      SkipFraction();
      SkipExponent();
      assert Rest() == AfterNumeral(t);
      if index <= start {
        index := index + 1;
        return 0.0;
      }
      assert bytes[start..index] == Before(t, Rest());
      match Decimal(bytes[start..index])
      case Some(number) => return number;
      case None => return 0.0;
    }

    method Flag() returns (on: bool)
      modifies this
      ensures Read(on, Rest()) == FlagIn(old(Rest()))
    {
      SkipSeparators();
      if index >= |bytes| {
        return false;
      }
      var byte := bytes[index];
      index := index + 1;
      return byte == ONE;
    }
  }
}
