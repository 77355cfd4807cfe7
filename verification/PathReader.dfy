/** The reader of path data: a loop that takes one command at a time off a scanner. */
module PathReader {
  import opened Wrappers
  import opened Geometry
  import opened Analysis
  import opened Arc
  import opened Bytes
  import opened PathScanner
  import opened PathCommands

  // ---- The grammar's letters ----

  const LETTER_M: Byte := 0x6D
  const LETTER_L: Byte := 0x6C
  const LETTER_H: Byte := 0x68
  const LETTER_V: Byte := 0x76
  const LETTER_C: Byte := 0x63
  const LETTER_S: Byte := 0x73
  const LETTER_Q: Byte := 0x71
  const LETTER_T: Byte := 0x74
  const LETTER_A: Byte := 0x61
  const LETTER_Z: Byte := 0x7A

  function Lower(letter: Byte): Byte {
    if 0x41 <= letter <= 0x5A then letter + 0x20 else letter
  }

  predicate IsRelative(letter: Byte) {
    letter >= 0x61
  }

  predicate IsCommand(letter: Byte) {
    var l := Lower(letter);
    || l == LETTER_M || l == LETTER_L || l == LETTER_H || l == LETTER_V || l == LETTER_C
    || l == LETTER_S || l == LETTER_Q || l == LETTER_T || l == LETTER_A || l == LETTER_Z
  }

  predicate IsClose(letter: Byte) {
    Lower(letter) == LETTER_Z
  }

  /** A letter in force for coordinates that follow without one: a moveto goes on as a lineto. */
  function Continuation(letter: Byte): Byte {
    if letter == 0x4D then 0x4C else if letter == LETTER_M then LETTER_L else letter
  }

  // ---- One command's coordinates ----

  function PointIn(s: seq<Byte>): (read: Read<Point>)
    ensures |read.rest| <= |s|
    ensures HasNumber(s) ==> |read.rest| < |AfterSeparators(s)|
  {
    var x := NumberIn(s);
    var y := NumberIn(x.rest);
    Read(Point(x.value, y.value), y.rest)
  }

  function ArcIn(relative: bool, s: seq<Byte>): (read: Read<Command>)
    ensures |read.rest| <= |s|
    ensures HasNumber(s) ==> |read.rest| < |AfterSeparators(s)|
  {
    var radii := PointIn(s);
    var rotation := NumberIn(radii.rest);
    var largeArc := FlagIn(rotation.rest);
    var sweep := FlagIn(largeArc.rest);
    var to := PointIn(sweep.rest);
    Read(Elliptic(relative, radii.value, rotation.value, largeArc.value, sweep.value, to.value), to.rest)
  }

  function CommandAt(letter: Byte, s: seq<Byte>): (read: Read<Command>)
    requires IsCommand(letter)
    ensures |read.rest| <= |s|
    ensures HasNumber(s) && !IsClose(letter) ==> |read.rest| < |AfterSeparators(s)|
  {
    var l := Lower(letter);
    var r := IsRelative(letter);
    if l == LETTER_M then var to := PointIn(s); Read(Move(r, to.value), to.rest)
    else if l == LETTER_L then var to := PointIn(s); Read(Line(r, to.value), to.rest)
    else if l == LETTER_H then var x := NumberIn(s); Read(Horizontal(r, x.value), x.rest)
    else if l == LETTER_V then var y := NumberIn(s); Read(Vertical(r, y.value), y.rest)
    else if l == LETTER_C then
      var first := PointIn(s);
      var second := PointIn(first.rest);
      var to := PointIn(second.rest);
      Read(Cubic(r, first.value, second.value, to.value), to.rest)
    else if l == LETTER_S then
      var second := PointIn(s);
      var to := PointIn(second.rest);
      Read(SmoothCubic(r, second.value, to.value), to.rest)
    else if l == LETTER_Q then
      var control := PointIn(s);
      var to := PointIn(control.rest);
      Read(Quad(r, control.value, to.value), to.rest)
    else if l == LETTER_T then var to := PointIn(s); Read(SmoothQuad(r, to.value), to.rest)
    else if l == LETTER_A then ArcIn(r, s)
    else Read(CloseSubpath(r), s)
  }

  /** What an unknown letter drags along: every number that trails it. */
  function AfterNumbers(s: seq<Byte>): (rest: seq<Byte>)
    ensures |rest| <= |s| && !HasNumber(rest)
    decreases |s|
  {
    if HasNumber(s) then AfterNumbers(NumberIn(s).rest) else AfterSeparators(s)
  }

  // ---- One turn of the loop ----

  datatype Config = Config(rest: seq<Byte>, repeated: Option<Byte>, pen: Pen, path: seq<Segment>)

  function Begin(data: seq<Byte>): Config {
    Config(data, None, START, [])
  }

  function Perform(f: Functions, letter: Byte, c: Config): Config
    requires f.Lawful()
  {
    if IsCommand(letter) then
      var read := CommandAt(letter, c.rest);
      var drawn := Draw(f, c.pen, read.value);
      Config(read.rest, c.repeated, drawn.pen, c.path + drawn.segments)
    else Config(AfterNumbers(c.rest), None, c.pen, c.path)
  }

  /** One turn: a letter is taken, or the one in force is repeated, or the loop ends. */
  function Turn(f: Functions, c: Config): Option<Config>
    requires f.Lawful()
  {
    var letter := CommandIn(c.rest);
    if letter.value.Some? then
      Some(Perform(f, letter.value.value, c.(rest := letter.rest, repeated := Some(Continuation(letter.value.value)))))
    else if HasNumber(letter.rest) && c.repeated.Some? then
      Some(Perform(f, c.repeated.value, c.(rest := letter.rest)))
    else None
  }

  // ---- Whether the loop ends ----

  /** What is left once a letter's arguments are read. */
  function AfterCommand(letter: Byte, s: seq<Byte>): (rest: seq<Byte>)
    ensures |rest| <= |s|
  {
    if IsCommand(letter) then CommandAt(letter, s).rest else AfterNumbers(s)
  }

  /** The reader will come to a number while a close is in force: read off the bytes, without drawing. */
  predicate Jams(s: seq<Byte>, repeated: Option<Byte>)
    requires Known(repeated)
    decreases |s|
  {
    var letter := CommandIn(s);
    if letter.value.Some? then
      var l := letter.value.value;
      Jams(AfterCommand(l, letter.rest), InForce(l))
    else if HasNumber(letter.rest) && repeated.Some? then
      if IsClose(repeated.value) then true
      else
        NumberLeads(repeated.value, letter.rest);
        Jams(AfterCommand(repeated.value, letter.rest), repeated)
    else false
  }

  /** Only a letter of the grammar stays in force. */
  predicate Known(repeated: Option<Byte>) {
    repeated.Some? ==> IsCommand(repeated.value)
  }

  function InForce(letter: Byte): (repeated: Option<Byte>)
    ensures Known(repeated)
  {
    if IsCommand(letter) then Some(Continuation(letter)) else None
  }

  /** Every command but a close begins with a number, so repeating one reads something. */
  lemma NumberLeads(letter: Byte, s: seq<Byte>)
    requires IsCommand(letter) && !IsClose(letter) && HasNumber(s)
    ensures |AfterCommand(letter, s)| < |s|
  {
  }

  lemma TurnAdvances(f: Functions, c: Config)
    requires f.Lawful() && Known(c.repeated) && !Jams(c.rest, c.repeated) && Turn(f, c).Some?
    ensures var next := Turn(f, c).value;
            |next.rest| < |c.rest| && Known(next.repeated) && !Jams(next.rest, next.repeated)
  {
    var letter := CommandIn(c.rest);
    if letter.value.None? {
      NumberLeads(c.repeated.value, letter.rest);
    }
  }

  /** The path the reader draws, when it comes to an end. */
  function Render(f: Functions, c: Config): seq<Segment>
    requires f.Lawful() && Known(c.repeated) && !Jams(c.rest, c.repeated)
    decreases |c.rest|
  {
    match Turn(f, c)
    case None => c.path
    case Some(next) =>
      TurnAdvances(f, c);
      Render(f, next)
  }

  // ---- Termination, exactly ----

  /** Where the loop is after `turns` turns; none once it has ended. */
  function After(f: Functions, c: Config, turns: nat): Option<Config>
    requires f.Lawful()
    decreases turns
  {
    if turns == 0 then Some(c)
    else
      match Turn(f, c)
      case None => None
      case Some(next) => After(f, next, turns - 1)
  }

  ghost predicate Ends(f: Functions, c: Config)
    requires f.Lawful()
  {
    exists turns: nat :: After(f, c, turns).None?
  }

  /** A close in force before a number reads nothing, so the same turn comes round again. */
  lemma RepeatedCloseReadsNothing(f: Functions, c: Config)
    requires f.Lawful() && c.repeated.Some? && IsClose(c.repeated.value)
    requires CommandIn(c.rest).value.None? && HasNumber(CommandIn(c.rest).rest)
    ensures var closed := Pen(c.pen.subpathStart, c.pen.subpathStart, None, None);
            Turn(f, c) == Some(Config(AfterSeparators(c.rest), c.repeated, closed, c.path + [Close]))
    ensures Turn(f, c).value.rest == AfterSeparators(Turn(f, c).value.rest)
  {
  }

  lemma JamStays(f: Functions, c: Config)
    requires f.Lawful() && Known(c.repeated) && Jams(c.rest, c.repeated)
    ensures Turn(f, c).Some?
    ensures var next := Turn(f, c).value; Known(next.repeated) && Jams(next.rest, next.repeated)
  {
    var letter := CommandIn(c.rest);
    if letter.value.None? && IsClose(c.repeated.value) {
      RepeatedCloseReadsNothing(f, c);
    }
  }

  lemma {:induction false} JammedNeverEnds(f: Functions, c: Config, turns: nat)
    requires f.Lawful() && Known(c.repeated) && Jams(c.rest, c.repeated)
    ensures After(f, c, turns).Some?
    decreases turns
  {
    hide Turn, Jams;
    if turns > 0 {
      JamStays(f, c);
      JammedNeverEnds(f, Turn(f, c).value, turns - 1);
    }
  }

  /** One turn a byte is enough. */
  lemma {:induction false} UnjammedEnds(f: Functions, c: Config)
    requires f.Lawful() && Known(c.repeated) && !Jams(c.rest, c.repeated)
    ensures After(f, c, |c.rest| + 1).None?
    decreases |c.rest|
  {
    hide Turn, Jams;
    if Turn(f, c).Some? {
      TurnAdvances(f, c);
      var next := Turn(f, c).value;
      UnjammedEnds(f, next);
      EndedStaysEnded(f, next, |next.rest| + 1, |c.rest|);
    }
  }

  lemma {:induction false} EndedStaysEnded(f: Functions, c: Config, n: nat, m: nat)
    requires f.Lawful() && n <= m && After(f, c, n).None?
    ensures After(f, c, m).None?
    decreases n
  {
    hide Turn;
    if n > 0 && Turn(f, c).Some? {
      EndedStaysEnded(f, Turn(f, c).value, n - 1, m - 1);
    }
  }

  /** The reader's loop ends exactly on the data that does not jam. */
  lemma EndsExactlyUnlessJammed(f: Functions, data: seq<Byte>)
    requires f.Lawful()
    ensures Ends(f, Begin(data)) <==> !Jams(data, None)
  {
    if Jams(data, None) {
      forall turns: nat ensures After(f, Begin(data), turns).Some? {
        JammedNeverEnds(f, Begin(data), turns);
      }
    } else {
      UnjammedEnds(f, Begin(data));
    }
  }

  /** The shortest data the reader never comes to the end of: a close, and a number straight after it. */
  const CLOSE_THEN_NUMBER: seq<Byte> := [0x7A, 0x31]

  lemma CloseThenNumberNeverEnds(f: Functions)
    requires f.Lawful()
    ensures CLOSE_THEN_NUMBER == [LETTER_Z, ONE]
    ensures !Ends(f, Begin(CLOSE_THEN_NUMBER))
  {
    var rest: seq<Byte> := [ONE];
    assert CommandIn(CLOSE_THEN_NUMBER) == Read(Some(LETTER_Z), rest) by {
      assert AfterSeparators(CLOSE_THEN_NUMBER) == CLOSE_THEN_NUMBER;
      assert CLOSE_THEN_NUMBER[1..] == rest;
    }
    assert AfterSeparators(rest) == rest;
    assert CommandIn(rest) == Read(None, rest) && HasNumber(rest);
    assert AfterCommand(LETTER_Z, rest) == rest && InForce(LETTER_Z) == Some(LETTER_Z);
    assert Jams(rest, Some(LETTER_Z));
    assert Jams(CLOSE_THEN_NUMBER, None);
    EndsExactlyUnlessJammed(f, CLOSE_THEN_NUMBER);
  }

  // ---- The loop itself ----

  method ReadPoint(scanner: Scanner, origin: Point) returns (p: Point)
    modifies scanner
    ensures var read := PointIn(old(scanner.Rest()));
            p == read.value.Plus(origin) && scanner.Rest() == read.rest
  {
    var x := scanner.Number();
    var y := scanner.Number();
    p := Point(origin.x + x, origin.y + y);
  }

  /** Reads one command's coordinates off the scanner and draws it. */
  method Obey(f: Functions, scanner: Scanner, path: MutablePath, letter: Byte, pen: Pen) returns (next: Pen)
    requires f.Lawful() && IsCommand(letter)
    modifies scanner, path
    ensures var read := CommandAt(letter, old(scanner.Rest()));
            var drawn := Draw(f, pen, read.value);
            && scanner.Rest() == read.rest
            && next == drawn.pen
            && path.segments == old(path.segments) + drawn.segments
  {
    hide NumberIn, FlagIn, PointIn, ArcIn, ArcSegments, Functions.Lawful;
    var origin := if IsRelative(letter) then pen.current else ORIGIN;
    var l := Lower(letter);
    if l == LETTER_M {
      var current := ReadPoint(scanner, origin);
      path.Add(MoveTo(current));
      next := Pen(current, current, None, None);
    } else if l == LETTER_L {
      var current := ReadPoint(scanner, origin);
      path.Add(LineTo(current));
      next := Pen(current, pen.subpathStart, None, None);
    } else if l == LETTER_H {
      var x := scanner.Number();
      var current := Point(origin.x + x, pen.current.y);
      path.Add(LineTo(current));
      next := Pen(current, pen.subpathStart, None, None);
    } else if l == LETTER_V {
      var y := scanner.Number();
      var current := Point(pen.current.x, origin.y + y);
      path.Add(LineTo(current));
      next := Pen(current, pen.subpathStart, None, None);
    } else if l == LETTER_Z {
      path.Add(Close);
      next := Pen(pen.subpathStart, pen.subpathStart, None, None);
    } else if l == LETTER_A {
      next := ObeyArc(f, scanner, path, letter, pen);
    } else if l == LETTER_C || l == LETTER_S {
      next := ObeyCubic(f, scanner, path, letter, pen);
    } else {
      next := ObeyQuad(f, scanner, path, letter, pen);
    }
  }

  /** The cubic curves, which leave the control point that a smooth one mirrors. */
  method ObeyCubic(f: Functions, scanner: Scanner, path: MutablePath, letter: Byte, pen: Pen) returns (next: Pen)
    requires f.Lawful() && Lower(letter) in {LETTER_C, LETTER_S}
    modifies scanner, path
    ensures var read := CommandAt(letter, old(scanner.Rest()));
            var drawn := Draw(f, pen, read.value);
            && scanner.Rest() == read.rest
            && next == drawn.pen
            && path.segments == old(path.segments) + drawn.segments
  {
    hide NumberIn, FlagIn, PointIn, ArcIn, ArcSegments, Functions.Lawful;
    var origin := if IsRelative(letter) then pen.current else ORIGIN;
    if Lower(letter) == LETTER_C {
      var first := ReadPoint(scanner, origin);
      var second := ReadPoint(scanner, origin);
      var current := ReadPoint(scanner, origin);
      path.Add(CurveTo(first, second, current));
      next := Pen(current, pen.subpathStart, Some(second), None);
    } else {
      var first := Reflect(pen.lastCubic, pen.current);
      var second := ReadPoint(scanner, origin);
      var current := ReadPoint(scanner, origin);
      path.Add(CurveTo(first, second, current));
      next := Pen(current, pen.subpathStart, Some(second), None);
    }
  }

  /** The quadratic curves likewise. */
  method ObeyQuad(f: Functions, scanner: Scanner, path: MutablePath, letter: Byte, pen: Pen) returns (next: Pen)
    requires f.Lawful() && Lower(letter) in {LETTER_Q, LETTER_T}
    modifies scanner, path
    ensures var read := CommandAt(letter, old(scanner.Rest()));
            var drawn := Draw(f, pen, read.value);
            && scanner.Rest() == read.rest
            && next == drawn.pen
            && path.segments == old(path.segments) + drawn.segments
  {
    hide NumberIn, FlagIn, PointIn, ArcIn, ArcSegments, Functions.Lawful;
    var origin := if IsRelative(letter) then pen.current else ORIGIN;
    if Lower(letter) == LETTER_Q {
      var control := ReadPoint(scanner, origin);
      var current := ReadPoint(scanner, origin);
      path.Add(QuadTo(control, current));
      next := Pen(current, pen.subpathStart, None, Some(control));
    } else {
      var control := Reflect(pen.lastQuad, pen.current);
      var current := ReadPoint(scanner, origin);
      path.Add(QuadTo(control, current));
      next := Pen(current, pen.subpathStart, None, Some(control));
    }
  }

  method ObeyArc(f: Functions, scanner: Scanner, path: MutablePath, letter: Byte, pen: Pen) returns (next: Pen)
    requires f.Lawful() && Lower(letter) == LETTER_A
    modifies scanner, path
    ensures var read := CommandAt(letter, old(scanner.Rest()));
            var drawn := Draw(f, pen, read.value);
            && scanner.Rest() == read.rest
            && next == drawn.pen
            && path.segments == old(path.segments) + drawn.segments
  {
    hide NumberIn, FlagIn, PointIn, ArcSegments, Draw, Functions.Lawful;
    var origin := if IsRelative(letter) then pen.current else ORIGIN;
    var radii := ReadPoint(scanner, ORIGIN);
    var rotation := scanner.Number();
    var largeArc := scanner.Flag();
    var sweep := scanner.Flag();
    var end := ReadPoint(scanner, origin);
    AppendArc(f, path, pen.current, radii, rotation, largeArc, sweep, end);
    next := Pen(end, pen.subpathStart, None, None);
    DrawArc(f, pen, ArcIn(IsRelative(letter), old(scanner.Rest())).value);
  }

  lemma DrawArc(f: Functions, pen: Pen, c: Command)
    requires f.Lawful() && c.Elliptic?
    ensures var end := c.to.Plus(if c.relative then pen.current else ORIGIN);
            Draw(f, pen, c) == Drawn(Pen(end, pen.subpathStart, None, None),
                                     ArcSegments(f, pen.current, c.radii, c.rotation, c.largeArc, c.sweep, end))
  {
  }

  /** One turn of the loop; `more` says that it was not the last. */
  method TakeTurn(f: Functions, scanner: Scanner, path: MutablePath, pen: Pen, repeated: Option<Byte>)
    returns (more: bool, next: Pen, inForce: Option<Byte>)
    requires f.Lawful() && Known(repeated)
    modifies scanner, path
    ensures var turn := Turn(f, Config(old(scanner.Rest()), repeated, pen, old(path.segments)));
            && more == turn.Some?
            && (more ==> turn.value == Config(scanner.Rest(), inForce, next, path.segments))
            && (!more ==> path.segments == old(path.segments))
  {
    hide Draw, CommandAt, NumberIn, AfterNumbers, Functions.Lawful;
    next, inForce := pen, repeated;
    var command: Byte;
    var letter := scanner.Command();
    if letter.Some? {
      command := letter.value;
      inForce := Some(Continuation(command));
    } else {
      var another := scanner.NumberNext();
      if !another || repeated.None? {
        return false, next, inForce;
      }
      command := repeated.value;
    }
    if IsCommand(command) {
      next := Obey(f, scanner, path, command, pen);
    } else {
      inForce := None;
      SkipNumbers(scanner);
    }
    more := true;
  }

  /** The path that `data` describes, for data the reader comes to the end of. */
  method ReadPath(f: Functions, data: seq<Byte>) returns (path: MutablePath)
    requires f.Lawful() && !Jams(data, None)
    ensures fresh(path) && path.segments == Render(f, Begin(data))
  {
    hide Jams, Turn, Functions.Lawful;
    path := new MutablePath();
    var scanner := new Scanner(data);
    var pen := START;
    var repeated: Option<Byte> := None;
    var more := true;
    while more
      invariant fresh(path) && fresh(scanner)
      invariant more ==> Known(repeated) && !Jams(scanner.Rest(), repeated)
      invariant more ==> Render(f, Config(scanner.Rest(), repeated, pen, path.segments)) == Render(f, Begin(data))
      invariant !more ==> path.segments == Render(f, Begin(data))
      decreases more, |scanner.Rest()|
    {
      ghost var c := Config(scanner.Rest(), repeated, pen, path.segments);
      if Turn(f, c).Some? {
        TurnAdvances(f, c);
      }
      more, pen, repeated := TakeTurn(f, scanner, path, pen, repeated);
    }
  }

  lemma NumbersSkipped(s: seq<Byte>)
    ensures AfterNumbers(s) == if HasNumber(s) then AfterNumbers(NumberIn(s).rest) else AfterSeparators(s)
    ensures AfterNumbers(AfterSeparators(s)) == AfterNumbers(s)
  {
    hide AfterNumeral, Decimal;
    SeparatorsIdempotent(s);
  }

  lemma {:induction false} SeparatorsIdempotent(s: seq<Byte>)
    ensures AfterSeparators(AfterSeparators(s)) == AfterSeparators(s)
  {
  }

  method SkipNumbers(scanner: Scanner)
    modifies scanner
    ensures scanner.Rest() == AfterNumbers(old(scanner.Rest()))
  {
    hide NumberIn, HasNumber, AfterNumbers, AfterSeparators;
    ghost var s := scanner.Rest();
    NumbersSkipped(s);
    SeparatorsIdempotent(s);
    var more := scanner.NumberNext();
    while more
      invariant more == HasNumber(scanner.Rest())
      invariant scanner.Rest() == AfterSeparators(scanner.Rest())
      invariant AfterNumbers(scanner.Rest()) == AfterNumbers(s)
      decreases |scanner.Rest()|
    {
      NumbersSkipped(scanner.Rest());
      var ignored := scanner.Number();
      NumbersSkipped(scanner.Rest());
      SeparatorsIdempotent(scanner.Rest());
      more := scanner.NumberNext();
    }
    NumbersSkipped(scanner.Rest());
  }
}
