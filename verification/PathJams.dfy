/** Where data the reader cannot finish goes wrong: a number straight after a close. */
module PathJams {
  import opened Wrappers
  import opened Bytes
  import opened PathScanner
  import opened PathReader

  predicate Suffix(rest: seq<Byte>, s: seq<Byte>) {
    |rest| <= |s| && rest == s[|s| - |rest|..]
  }

  lemma SuffixOfSuffix(a: seq<Byte>, b: seq<Byte>, c: seq<Byte>)
    requires Suffix(a, b) && Suffix(b, c)
    ensures Suffix(a, c)
  {
    assert a == c[|c| - |b|..][|b| - |a|..];
  }

  lemma SuffixFromTail(rest: seq<Byte>, s: seq<Byte>)
    requires s != [] && Suffix(rest, s[1..])
    ensures Suffix(rest, s)
  {
    SuffixOfSuffix(rest, s[1..], s);
  }

  lemma {:induction false} SeparatorsSuffix(s: seq<Byte>)
    ensures Suffix(AfterSeparators(s), s)
  {
    if s != [] && IsSeparator(s[0]) {
      SeparatorsSuffix(s[1..]);
      SuffixFromTail(AfterSeparators(s), s);
    }
  }

  lemma {:induction false} DigitsSuffix(s: seq<Byte>)
    ensures Suffix(AfterDigits(s), s)
  {
    if s != [] && IsDigit(s[0]) {
      DigitsSuffix(s[1..]);
      SuffixFromTail(AfterDigits(s), s);
    }
  }

  lemma FractionSuffix(s: seq<Byte>)
    ensures Suffix(AfterFraction(s), s)
  {
    if s != [] && s[0] == POINT {
      DigitsSuffix(s[1..]);
      SuffixFromTail(AfterFraction(s), s);
    }
  }

  lemma ExponentSuffix(s: seq<Byte>)
    ensures Suffix(AfterExponent(s), s)
  {
    if s != [] && IsExponentMark(s[0]) {
      var digits := AfterSign(s[1..]);
      DigitsSuffix(digits);
      SuffixOfSuffix(AfterDigits(digits), digits, s[1..]);
      SuffixFromTail(AfterDigits(digits), s);
    }
  }

  lemma NumeralSuffix(s: seq<Byte>)
    ensures Suffix(AfterNumeral(s), s)
  {
    hide AfterDigits, AfterFraction, AfterExponent;
    var a := AfterSign(s);
    var b := AfterDigits(a);
    var c := AfterFraction(b);
    DigitsSuffix(a);
    FractionSuffix(b);
    ExponentSuffix(c);
    SuffixOfSuffix(b, a, s);
    SuffixOfSuffix(c, b, s);
    SuffixOfSuffix(AfterExponent(c), c, s);
  }

  lemma NumberSuffix(s: seq<Byte>)
    ensures Suffix(NumberIn(s).rest, s)
  {
    hide AfterNumeral, AfterSeparators;
    var t := AfterSeparators(s);
    SeparatorsSuffix(s);
    NumeralSuffix(t);
    SuffixOfSuffix(NumberIn(s).rest, t, s);
  }

  lemma FlagSuffix(s: seq<Byte>)
    ensures Suffix(FlagIn(s).rest, s)
  {
    hide AfterSeparators;
    SeparatorsSuffix(s);
    SuffixOfSuffix(FlagIn(s).rest, AfterSeparators(s), s);
  }

  lemma PointSuffix(s: seq<Byte>)
    ensures Suffix(PointIn(s).rest, s)
  {
    hide NumberIn;
    var x := NumberIn(s).rest;
    NumberSuffix(s);
    NumberSuffix(x);
    SuffixOfSuffix(NumberIn(x).rest, x, s);
  }

  lemma ArcSuffix(relative: bool, s: seq<Byte>)
    ensures Suffix(ArcIn(relative, s).rest, s)
  {
    hide PointIn, NumberIn, FlagIn;
    var a := PointIn(s).rest;
    var b := NumberIn(a).rest;
    var c := FlagIn(b).rest;
    var d := FlagIn(c).rest;
    PointSuffix(s);
    NumberSuffix(a);
    FlagSuffix(b);
    FlagSuffix(c);
    PointSuffix(d);
    SuffixOfSuffix(b, a, s);
    SuffixOfSuffix(c, b, s);
    SuffixOfSuffix(d, c, s);
    SuffixOfSuffix(PointIn(d).rest, d, s);
  }

  lemma {:induction false} NumbersSuffix(s: seq<Byte>)
    ensures Suffix(AfterNumbers(s), s)
    decreases |s|
  {
    hide NumberIn, AfterSeparators;
    if HasNumber(s) {
      var rest := NumberIn(s).rest;
      NumberSuffix(s);
      NumbersSuffix(rest);
      SuffixOfSuffix(AfterNumbers(s), rest, s);
    } else {
      SeparatorsSuffix(s);
    }
  }

  lemma CommandSuffix(letter: Byte, s: seq<Byte>)
    ensures Suffix(AfterCommand(letter, s), s)
  {
    hide PointIn, NumberIn, ArcIn, AfterNumbers;
    NumbersSuffix(s);
    NumberSuffix(s);
    ArcSuffix(IsRelative(letter), s);
    var a := PointIn(s).rest;
    var b := PointIn(a).rest;
    PointSuffix(s);
    PointSuffix(a);
    PointSuffix(b);
    SuffixOfSuffix(b, a, s);
    SuffixOfSuffix(PointIn(b).rest, b, s);
  }

  /** Somewhere a close is followed, separators aside, by a number. */
  ghost predicate NumberAfterClose(s: seq<Byte>) {
    exists i :: 0 <= i < |s| && IsClose(s[i]) && HasNumber(s[i + 1..])
  }

  lemma StillAfterClose(rest: seq<Byte>, s: seq<Byte>)
    requires Suffix(rest, s) && NumberAfterClose(rest)
    ensures NumberAfterClose(s)
  {
    var i :| 0 <= i < |rest| && IsClose(rest[i]) && HasNumber(rest[i + 1..]);
    var j := |s| - |rest| + i;
    assert s[j] == rest[i] && s[j + 1..] == rest[i + 1..];
  }

  /** The reader jams only on data where a number follows a close. */
  lemma {:induction false} JamNeedsNumberAfterClose(s: seq<Byte>, repeated: Option<Byte>)
    requires Known(repeated) && Jams(s, repeated)
    requires repeated.Some? && IsClose(repeated.value) ==> !HasNumber(s)
    ensures NumberAfterClose(s)
    decreases |s|
  {
    hide AfterCommand, AfterSeparators;
    var letter := CommandIn(s);
    SeparatorsSuffix(s);
    SameNumber(s);
    if letter.value.Some? {
      var l := letter.value.value;
      var t := AfterSeparators(s);
      assert letter.rest == t[1..];
      SuffixFromTail(letter.rest, t);
      SuffixOfSuffix(letter.rest, t, s);
      if IsClose(l) && HasNumber(letter.rest) {
        assert IsClose(t[0]) && HasNumber(t[0 + 1..]);
        StillAfterClose(t, s);
      } else {
        var rest := AfterCommand(l, letter.rest);
        CommandSuffix(l, letter.rest);
        SuffixOfSuffix(rest, letter.rest, s);
        CloseReadsNothing(l, letter.rest);
        JamNeedsNumberAfterClose(rest, InForce(l));
        StillAfterClose(rest, s);
      }
    } else {
      var rest := AfterCommand(repeated.value, letter.rest);
      NumberLeads(repeated.value, letter.rest);
      CommandSuffix(repeated.value, letter.rest);
      SuffixOfSuffix(rest, letter.rest, s);
      JamNeedsNumberAfterClose(rest, repeated);
      StillAfterClose(rest, s);
    }
  }

  lemma SameNumber(s: seq<Byte>)
    ensures CommandIn(s).value.None? ==> HasNumber(CommandIn(s).rest) == HasNumber(s)
  {
  }

  lemma CloseReadsNothing(letter: Byte, s: seq<Byte>)
    ensures IsClose(letter) ==> AfterCommand(letter, s) == s
    ensures InForce(letter).Some? && IsClose(InForce(letter).value) ==> IsClose(letter)
  {
  }
}
