/** The two letter cases and the place of a path, on the data as it is read. */
module PathTextForms {
  import opened Wrappers
  import opened Geometry
  import opened Analysis
  import opened Bytes
  import opened PathCommands
  import opened PathReader
  import opened PathText
  import opened PathForms

  predicate AllShaped(phrases: seq<Phrase>) {
    forall i :: 0 <= i < |phrases| ==> Shaped(phrases[i].letter, phrases[i].args)
  }

  /** Data rewritten between letter cases, command by command and in any spacing, is read as the same path. */
  lemma RecasedTextReadsTheSame(f: Functions, phrases: seq<Phrase>, tail: seq<Byte>, others: seq<Phrase>, otherTail: seq<Byte>,
                                cases: seq<bool>)
    requires f.Lawful() && AllSeparators(tail) && AllSeparators(otherTail)
    requires Written(phrases, None, tail) && Written(others, None, otherTail)
    requires AllShaped(phrases) && AllShaped(others) && |cases| == |phrases|
    requires Meaning(others) == RecasedAll(f, START, Meaning(phrases), cases)
    ensures !Jams(Text(phrases) + tail, None) && !Jams(Text(others) + otherTail, None)
    ensures Render(f, Begin(Text(others) + otherTail)) == Render(f, Begin(Text(phrases) + tail))
  {
    hide Functions.Lawful, Written, Text, Jams, Render, DrawAll, RecasedAll, AllSeparators;
    WrittenPathReadsBack(f, phrases, tail);
    WrittenPathReadsBack(f, others, otherTail);
    CasesDrawTheSame(f, START, Meaning(phrases), cases);
  }

  /** Data whose only absolute command is its first moveto is read as the same path, moved, when that moveto is moved. */
  lemma RelativeTextMoves(f: Functions, phrases: seq<Phrase>, tail: seq<Byte>, others: seq<Phrase>, otherTail: seq<Byte>,
                          start: Point, commands: seq<Command>, v: Point)
    requires f.Lawful() && AllSeparators(tail) && AllSeparators(otherTail)
    requires Written(phrases, None, tail) && Written(others, None, otherTail)
    requires AllShaped(phrases) && AllShaped(others)
    requires forall i :: 0 <= i < |commands| ==> commands[i].relative
    requires Meaning(phrases) == [Move(false, start)] + commands
    requires Meaning(others) == [Move(false, start.Plus(v))] + commands
    ensures !Jams(Text(phrases) + tail, None) && !Jams(Text(others) + otherTail, None)
    ensures Render(f, Begin(Text(others) + otherTail)) == MovedPath(Render(f, Begin(Text(phrases) + tail)), v)
  {
    hide Functions.Lawful, Written, Text, Jams, Render, DrawAll, AllSeparators, MovedPath, MovedCommands;
    WrittenPathReadsBack(f, phrases, tail);
    WrittenPathReadsBack(f, others, otherTail);
    PathMoves(f, start, commands, v);
  }
}
