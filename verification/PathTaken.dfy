/** What data the reader finishes says: the commands its turns take off it, and a well-formed text for them. */
module PathTaken {
  import opened Wrappers
  import opened Geometry
  import opened Analysis
  import opened Bytes
  import opened PathScanner
  import opened PathCommands
  import opened PathReader
  import opened PathText
  import opened PathTextForms
  import opened PathDecimals

  /** The commands taken off the bytes, one a turn; an unknown letter gives none. */
  function Taken(s: seq<Byte>, repeated: Option<Byte>): seq<Command>
    requires Known(repeated) && !Jams(s, repeated)
    decreases |s|
  {
    var letter := CommandIn(s);
    if letter.value.Some? then
      var l := letter.value.value;
      One(l, letter.rest) + Taken(AfterCommand(l, letter.rest), InForce(l))
    else if HasNumber(letter.rest) && repeated.Some? then
      NumberLeads(repeated.value, letter.rest);
      One(repeated.value, letter.rest) + Taken(AfterCommand(repeated.value, letter.rest), repeated)
    else []
  }

  function One(letter: Byte, s: seq<Byte>): seq<Command> {
    if IsCommand(letter) then [CommandAt(letter, s).value] else []
  }

  // ---- The path is what those commands draw ----

  /** One turn draws the one command it takes, and leaves the rest to be taken. */
  lemma TurnTakes(f: Functions, c: Config, letter: Byte, s: seq<Byte>, next: Config)
    requires f.Lawful()
    requires next == Perform(f, letter, c.(rest := s))
    ensures var drawn := DrawAll(f, c.pen, One(letter, s)); next.pen == drawn.pen && next.path == c.path + drawn.segments
    ensures next.rest == AfterCommand(letter, s)
  {
    hide CommandAt, AfterNumbers, Draw, Functions.Lawful;
    if IsCommand(letter) {
      DrawOne(f, c.pen, CommandAt(letter, s).value);
    } else {
      assert c.path + [] == c.path;
    }
  }

  lemma DrawOne(f: Functions, pen: Pen, c: Command)
    requires f.Lawful()
    ensures DrawAll(f, pen, [c]) == Draw(f, pen, c)
  {
    hide Draw, Functions.Lawful;
    assert [c][1..] == [];
    assert Draw(f, pen, c).segments + [] == Draw(f, pen, c).segments;
  }

  lemma {:induction false} DrawJoins(f: Functions, pen: Pen, first: seq<Command>, second: seq<Command>)
    requires f.Lawful()
    ensures var a := DrawAll(f, pen, first); var b := DrawAll(f, a.pen, second);
            DrawAll(f, pen, first + second) == Drawn(b.pen, a.segments + b.segments)
    decreases |first|
  {
    hide Draw, Functions.Lawful;
    if first == [] {
      assert first + second == second;
    } else {
      assert (first + second)[1..] == first[1..] + second;
      var drawn := Draw(f, pen, first[0]);
      DrawJoins(f, drawn.pen, first[1..], second);
      var a := DrawAll(f, drawn.pen, first[1..]);
      var b := DrawAll(f, a.pen, second);
      assert drawn.segments + (a.segments + b.segments) == drawn.segments + a.segments + b.segments;
    }
  }

  /** What the turn's letter is, and what it leaves in force. */
  lemma TurnIs(f: Functions, c: Config) returns (letter: Byte, s: seq<Byte>)
    requires f.Lawful() && Known(c.repeated) && !Jams(c.rest, c.repeated) && Turn(f, c).Some?
    ensures var next := Turn(f, c).value;
            && Known(next.repeated) && !Jams(next.rest, next.repeated)
            && next.(repeated := c.repeated) == Perform(f, letter, c.(rest := s)).(repeated := c.repeated)
            && Taken(c.rest, c.repeated) == One(letter, s) + Taken(next.rest, next.repeated)
  {
    hide CommandAt, AfterNumbers, Draw, CommandIn, HasNumber, Functions.Lawful;
    var read := CommandIn(c.rest);
    letter, s := if read.value.Some? then read.value.value else c.repeated.value, read.rest;
    if read.value.None? {
      NumberLeads(letter, s);
    }
  }

  lemma TurnDraws(f: Functions, c: Config) returns (one: seq<Command>)
    requires f.Lawful() && Known(c.repeated) && !Jams(c.rest, c.repeated) && Turn(f, c).Some?
    ensures var next := Turn(f, c).value; var drawn := DrawAll(f, c.pen, one);
            && Known(next.repeated) && !Jams(next.rest, next.repeated) && |next.rest| < |c.rest|
            && Render(f, c) == Render(f, next)
            && next.pen == drawn.pen && next.path == c.path + drawn.segments
            && Taken(c.rest, c.repeated) == one + Taken(next.rest, next.repeated)
  {
    hide *;
    var letter, s := TurnIs(f, c);
    TurnAdvances(f, c);
    RendersOn(f, c);
    TurnTakes(f, c, letter, s, Perform(f, letter, c.(rest := s)));
    PerformParts(f, c, letter, s, Turn(f, c).value);
    one := One(letter, s);
  }

  /** Data the reader finishes draws the commands it says, one after another. */
  lemma {:induction false} DrawsWhatItTakes(f: Functions, c: Config)
    requires f.Lawful() && Known(c.repeated) && !Jams(c.rest, c.repeated)
    ensures Render(f, c) == c.path + DrawAll(f, c.pen, Taken(c.rest, c.repeated)).segments
    decreases |c.rest|
  {
    hide *;
    if Turn(f, c).Some? {
      var next := Turn(f, c).value;
      var one := TurnDraws(f, c);
      var others := Taken(next.rest, next.repeated);
      DrawsWhatItTakes(f, next);
      DrawJoins(f, c.pen, one, others);
      Associates(c.path, DrawAll(f, c.pen, one).segments, DrawAll(f, next.pen, others).segments);
    } else {
      NothingTaken(f, c);
      assert c.path + [] == c.path;
    }
  }

  lemma Associates(a: seq<Segment>, b: seq<Segment>, c: seq<Segment>)
    ensures a + (b + c) == (a + b) + c
  {
  }

  lemma PerformParts(f: Functions, c: Config, letter: Byte, s: seq<Byte>, next: Config)
    requires f.Lawful()
    requires next.(repeated := c.repeated) == Perform(f, letter, c.(rest := s)).(repeated := c.repeated)
    ensures var done := Perform(f, letter, c.(rest := s)); next.pen == done.pen && next.path == done.path && next.rest == done.rest
  {
    hide Perform;
  }

  lemma NothingTaken(f: Functions, c: Config)
    requires f.Lawful() && Known(c.repeated) && !Jams(c.rest, c.repeated) && Turn(f, c).None?
    ensures Taken(c.rest, c.repeated) == [] && DrawAll(f, c.pen, []).segments == [] && Render(f, c) == c.path
  {
    hide CommandIn, HasNumber, Perform, Functions.Lawful;
  }

  // ---- A text's commands are taken off it ----

  /** Reading undoes writing command by command: what is taken off a text is its meaning. */
  lemma {:induction false} TextIsTaken(phrases: seq<Phrase>, inForce: Option<Byte>, tail: seq<Byte>)
    requires Written(phrases, inForce, tail) && AllSeparators(tail) && AllShaped(phrases) && Known(inForce)
    requires inForce.Some? ==> Continuation(inForce.value) == inForce.value
    ensures !Jams(Text(phrases) + tail, inForce)
    ensures Taken(Text(phrases) + tail, inForce) == Meaning(phrases)
    decreases |phrases|
  {
    hide *;
    if phrases == [] {
      OnlySeparatorsTaken(tail, inForce);
      MeaningNone();
      NoText(tail);
    } else {
      WrittenOn(phrases, inForce, tail);
      RestShaped(phrases);
      TextIsTaken(phrases[1..], Some(Continuation(phrases[0].letter)), tail);
      PhraseTaken(phrases, inForce, tail);
      MeaningOn(phrases);
    }
  }

  lemma RestShaped(phrases: seq<Phrase>)
    requires AllShaped(phrases) && phrases != []
    ensures AllShaped(phrases[1..]) && Shaped(phrases[0].letter, phrases[0].args)
  {
    hide Shaped;
  }

  lemma MeaningNone()
    ensures AllShaped([]) && Meaning([]) == []
  {
  }

  lemma MeaningOn(phrases: seq<Phrase>)
    requires AllShaped(phrases) && phrases != [] && AllShaped(phrases[1..]) && Shaped(phrases[0].letter, phrases[0].args)
    ensures Meaning(phrases) == [CommandOf(phrases[0].letter, phrases[0].args)] + Meaning(phrases[1..])
  {
    hide Shaped, CommandOf;
  }

  lemma OnlySeparatorsTaken(tail: seq<Byte>, inForce: Option<Byte>)
    requires AllSeparators(tail) && Known(inForce)
    ensures !Jams(tail, inForce) && Taken(tail, inForce) == []
  {
    SeparatorsPassed(tail, []);
    assert tail + [] == tail;
  }

  lemma PhraseTaken(phrases: seq<Phrase>, inForce: Option<Byte>, tail: seq<Byte>)
    requires phrases != [] && Written(phrases, inForce, tail) && Known(inForce) && Shaped(phrases[0].letter, phrases[0].args)
    requires inForce.Some? ==> Continuation(inForce.value) == inForce.value
    requires Known(Some(Continuation(phrases[0].letter)))
    requires !Jams(Text(phrases[1..]) + tail, Some(Continuation(phrases[0].letter)))
    ensures !Jams(Text(phrases) + tail, inForce)
    ensures Taken(Text(phrases) + tail, inForce) ==
      [CommandOf(phrases[0].letter, phrases[0].args)] + Taken(Text(phrases[1..]) + tail, Some(Continuation(phrases[0].letter)))
  {
    hide CommandOf, CommandAt, ArgsText, Packed, CommandIn, HasNumber;
    var p := phrases[0];
    var after := Text(phrases[1..]) + tail;
    assert Text(phrases) + tail == PhraseText(p) + after;
    if p.shown {
      LetterBack(p, after);
      CommandBack(p.letter, p.args, after);
    } else {
      assert PhraseText(p) == ArgsText(p.args);
      NoLetterBack(p.args, after);
      CommandBack(p.letter, Ungapped(p.args), after);
      UngappedMeans(p.letter, p.args);
    }
  }

  // ---- Every finished reading has a text ----

  lemma NumberDecimal(s: seq<Byte>)
    ensures IsDecimal(NumberIn(s).value)
  {
    hide IsDecimal, Scaled;
    ZeroDecimal();
    var t := AfterSeparators(s);
    var text := Before(t, AfterNumeral(t));
    ValueDecimal(text);
  }

  lemma ValueDecimal(text: seq<Byte>)
    ensures Decimal(text).Some? ==> IsDecimal(Decimal(text).value)
  {
    hide IsDecimal, Scaled;
    var unsigned := AfterSign(text);
    var tail := AfterDigits(unsigned);
    var mark := AfterFraction(tail);
    var fraction := if tail == mark then [] else Before(tail, mark)[1..];
    ScaledDecimal(Negative(text), Before(unsigned, tail) + fraction, ExponentValue(mark) - |fraction|);
  }

  lemma PointDecimal(s: seq<Byte>)
    ensures DecimalPoint(PointIn(s).value)
  {
    hide IsDecimal, NumberIn;
    NumberDecimal(s);
    NumberDecimal(NumberIn(s).rest);
  }

  lemma ArcDecimal(relative: bool, s: seq<Byte>)
    ensures DecimalCommand(ArcIn(relative, s).value)
  {
    hide IsDecimal, DecimalPoint, NumberIn, PointIn, FlagIn;
    var radii := PointIn(s);
    var rotation := NumberIn(radii.rest);
    var sweep := FlagIn(FlagIn(rotation.rest).rest);
    PointDecimal(s);
    NumberDecimal(radii.rest);
    PointDecimal(sweep.rest);
  }

  /** Whatever bytes are read as a command, its coordinates are decimals. */
  lemma ReadDecimal(letter: Byte, s: seq<Byte>)
    requires IsCommand(letter)
    ensures DecimalCommand(CommandAt(letter, s).value)
  {
    hide IsDecimal, DecimalPoint, NumberIn, PointIn, ArcIn;
    PointDecimal(s);
    PointDecimal(PointIn(s).rest);
    PointDecimal(PointIn(PointIn(s).rest).rest);
    NumberDecimal(s);
    ArcDecimal(IsRelative(letter), s);
  }

  lemma OneDecimal(letter: Byte, s: seq<Byte>)
    ensures AllDecimal(One(letter, s))
  {
    hide DecimalCommand, CommandAt;
    if IsCommand(letter) {
      ReadDecimal(letter, s);
    }
  }

  lemma {:induction false} TakenDecimal(s: seq<Byte>, repeated: Option<Byte>)
    requires Known(repeated) && !Jams(s, repeated)
    ensures AllDecimal(Taken(s, repeated))
    decreases |s|
  {
    hide DecimalCommand, CommandAt, One, HasNumber, AfterCommand;
    var letter := CommandIn(s);
    if letter.value.Some? {
      OneDecimal(letter.value.value, letter.rest);
      TakenDecimal(AfterCommand(letter.value.value, letter.rest), InForce(letter.value.value));
    } else if HasNumber(letter.rest) && repeated.Some? {
      NumberLeads(repeated.value, letter.rest);
      OneDecimal(repeated.value, letter.rest);
      TakenDecimal(AfterCommand(repeated.value, letter.rest), repeated);
    }
  }

  /** Whatever bytes the reader finishes, well formed or not, some well-formed text draws the same path. */
  lemma EveryReadingHasText(f: Functions, data: seq<Byte>) returns (phrases: seq<Phrase>)
    requires f.Lawful() && !Jams(data, None)
    ensures AllShaped(phrases) && Written(phrases, None, []) && Meaning(phrases) == Taken(data, None)
    ensures !Jams(Text(phrases), None)
    ensures Render(f, Begin(Text(phrases))) == Render(f, Begin(data))
  {
    hide Functions.Lawful, Written, Text, Jams, Render, Meaning, TextOf, AllDecimal, Taken, DrawAll;
    TakenDecimal(data, None);
    phrases := TextOf(Taken(data, None));
    TextOfIs(Taken(data, None));
    DrawsWhatItTakes(f, Begin(data));
    WrittenPathReadsBack(f, phrases, []);
    assert Text(phrases) + [] == Text(phrases);
    var segments := DrawAll(f, START, Taken(data, None)).segments;
    assert [] + segments == segments;
  }
}
