/** A title cut into runs of symbol characters and runs of ordinary ones. */
module NerdRuns {
  type Scalar = int

  /** A character is one or more scalars. */
  type Character = c: seq<Scalar> | c != [] witness [0]

  datatype Run = Run(text: seq<Character>, isSymbol: bool)

  /** A character counts as a symbol when its first scalar does. */
  predicate IsSymbol(c: Character, isPrivateUse: Scalar -> bool) {
    isPrivateUse(c[0])
  }

  function Joined(runs: seq<Run>): seq<Character> {
    if runs == [] then [] else Joined(runs[..|runs| - 1]) + runs[|runs| - 1].text
  }

  ghost predicate Uniform(run: Run, isPrivateUse: Scalar -> bool) {
    run.text != [] && forall i :: 0 <= i < |run.text| ==> IsSymbol(run.text[i], isPrivateUse) == run.isSymbol
  }

  /** Non-empty runs of one kind each, the kinds alternating, that make up the text. */
  ghost predicate Splits(runs: seq<Run>, text: seq<Character>, isPrivateUse: Scalar -> bool) {
    && Joined(runs) == text
    && (forall k :: 0 <= k < |runs| ==> Uniform(runs[k], isPrivateUse))
    && (forall k :: 0 < k < |runs| ==> runs[k - 1].isSymbol != runs[k].isSymbol)
  }

  lemma JoinedMore(runs: seq<Run>, run: Run)
    ensures Joined(runs + [run]) == Joined(runs) + run.text
  {
    assert (runs + [run])[..|runs|] == runs;
  }

  /** Whether any scalar anywhere is a symbol's, not only a character's first. */
  predicate AnyPrivate(text: seq<Character>, isPrivateUse: Scalar -> bool) {
    exists i, j :: 0 <= i < |text| && 0 <= j < |text[i]| && isPrivateUse(text[i][j])
  }

  method ContainsPrivate(text: seq<Character>, isPrivateUse: Scalar -> bool) returns (found: bool)
    ensures found == AnyPrivate(text, isPrivateUse)
  {
    for i := 0 to |text|
      invariant forall k, j :: 0 <= k < i && 0 <= j < |text[k]| ==> !isPrivateUse(text[k][j])
    {
      for j := 0 to |text[i]|
        invariant forall k :: 0 <= k < j ==> !isPrivateUse(text[i][k])
      {
        if isPrivateUse(text[i][j]) {
          return true;
        }
      }
    }
    return false;
  }

  /** The split of a text: the shortcut for a text with no symbol anywhere gives it too. */
  method Runs(text: seq<Character>, isPrivateUse: Scalar -> bool) returns (out: seq<Run>)
    ensures Splits(out, text, isPrivateUse)
  {
    var any := ContainsPrivate(text, isPrivateUse);
    if !any {
      out := if text == [] then [] else [Run(text, false)];
      JoinedMore([], Run(text, false));
      assert [] + [Run(text, false)] == [Run(text, false)];
      return out;
    }
    out := LoopRuns(text, isPrivateUse);
  }

  /** The runs closed so far, with the one being grown. */
  function Grown(out: seq<Run>, current: seq<Character>, currentIsSymbol: bool): seq<Run> {
    if current == [] then out else out + [Run(current, currentIsSymbol)]
  }

  lemma RunExtends(out: seq<Run>, run: Run, text: seq<Character>, c: Character, isPrivateUse: Scalar -> bool)
    requires Splits(out + [run], text, isPrivateUse) && IsSymbol(c, isPrivateUse) == run.isSymbol
    ensures Splits(out + [run.(text := run.text + [c])], text + [c], isPrivateUse)
  {
    hide Joined;
    var longer := run.(text := run.text + [c]);
    var was, now := out + [run], out + [longer];
    JoinedMore(out, run);
    JoinedMore(out, longer);
    assert Uniform(was[|out|], isPrivateUse);
    assert forall k :: 0 <= k < |out| ==> now[k] == was[k];
    assert forall k :: 0 <= k < |now| ==> now[k].isSymbol == was[k].isSymbol;
  }

  lemma RunBegins(runs: seq<Run>, text: seq<Character>, c: Character, isPrivateUse: Scalar -> bool)
    requires Splits(runs, text, isPrivateUse)
    requires runs != [] ==> runs[|runs| - 1].isSymbol != IsSymbol(c, isPrivateUse)
    ensures Splits(runs + [Run([c], IsSymbol(c, isPrivateUse))], text + [c], isPrivateUse)
  {
    hide Joined;
    var now := runs + [Run([c], IsSymbol(c, isPrivateUse))];
    JoinedMore(runs, Run([c], IsSymbol(c, isPrivateUse)));
    assert forall k :: 0 <= k < |runs| ==> now[k] == runs[k];
  }

  method LoopRuns(text: seq<Character>, isPrivateUse: Scalar -> bool) returns (out: seq<Run>)
    ensures Splits(out, text, isPrivateUse)
  {
    hide Joined, Uniform;
    out := [];
    var current: seq<Character> := [];
    var currentIsSymbol := false;
    NoRuns();
    for i := 0 to |text|
      invariant current == [] ==> out == []
      invariant Splits(Grown(out, current, currentIsSymbol), text[..i], isPrivateUse)
    {
      var character := text[i];
      var symbol := IsSymbol(character, isPrivateUse);
      hide Splits;
      assert text[..i + 1] == text[..i] + [character];
      assert [] + [character] == [character];
      if current != [] && symbol == currentIsSymbol {
        RunExtends(out, Run(current, currentIsSymbol), text[..i], character, isPrivateUse);
      } else {
        RunBegins(Grown(out, current, currentIsSymbol), text[..i], character, isPrivateUse);
      }
      if current == [] {
        currentIsSymbol := symbol;
      } else if symbol != currentIsSymbol {
        out := out + [Run(current, currentIsSymbol)];
        current := [];
        currentIsSymbol := symbol;
      }
      current := current + [character];
    }
    assert text[..|text|] == text;
    if current != [] {
      out := out + [Run(current, currentIsSymbol)];
    }
  }

  lemma NoRuns()
    ensures Joined([]) == []
  {
  }

  // ---- There is only one such split ----

  lemma {:induction false} JoinedFirst(first: Run, rest: seq<Run>)
    ensures Joined([first] + rest) == first.text + Joined(rest)
  {
    if rest == [] {
      assert [first] + rest == [] + [first];
      JoinedMore([], first);
    } else {
      var last := |rest| - 1;
      assert ([first] + rest)[..last + 1] == [first] + rest[..last];
      JoinedFirst(first, rest[..last]);
    }
  }

  lemma SplitsRest(runs: seq<Run>, text: seq<Character>, isPrivateUse: Scalar -> bool)
    requires Splits(runs, text, isPrivateUse) && runs != []
    ensures text == runs[0].text + Joined(runs[1..])
    ensures Splits(runs[1..], Joined(runs[1..]), isPrivateUse)
  {
    hide Joined;
    var rest := runs[1..];
    assert runs == [runs[0]] + rest;
    JoinedFirst(runs[0], rest);
    assert forall k :: 0 <= k < |rest| ==> rest[k] == runs[k + 1];
    assert forall k :: 0 < k < |rest| ==> rest[k - 1] == runs[k];
  }

  /** A first run goes on to the first character of the other kind. */
  lemma FirstRunEnds(run: Run, rest: seq<Run>, text: seq<Character>, isPrivateUse: Scalar -> bool)
    requires Splits([run] + rest, text, isPrivateUse)
    ensures |run.text| <= |text| && run.text == text[..|run.text|]
    ensures |run.text| < |text| ==> IsSymbol(text[|run.text|], isPrivateUse) != run.isSymbol
  {
    SplitsRest([run] + rest, text, isPrivateUse);
    assert ([run] + rest)[1..] == rest;
    if rest != [] {
      SplitsRest(rest, Joined(rest), isPrivateUse);
      assert Uniform(rest[0], isPrivateUse);
      assert ([run] + rest)[0].isSymbol != ([run] + rest)[1].isSymbol;
      assert text[|run.text|] == rest[0].text[0];
    }
  }

  lemma NotShorter(run: Run, other: Run, text: seq<Character>, isPrivateUse: Scalar -> bool)
    requires Uniform(other, isPrivateUse) && run.isSymbol == other.isSymbol
    requires |other.text| <= |text| && other.text == text[..|other.text|]
    requires |run.text| < |text| ==> IsSymbol(text[|run.text|], isPrivateUse) != run.isSymbol
    ensures |run.text| >= |other.text|
  {
    assert forall i :: 0 <= i < |other.text| ==> IsSymbol(text[i], isPrivateUse) == other.isSymbol;
  }

  lemma FirstRunSame(runs: seq<Run>, others: seq<Run>, text: seq<Character>, isPrivateUse: Scalar -> bool)
    requires Splits(runs, text, isPrivateUse) && Splits(others, text, isPrivateUse) && runs != [] && others != []
    ensures runs[0] == others[0]
  {
    hide Joined;
    var a, b := runs[0], others[0];
    assert runs == [a] + runs[1..] && others == [b] + others[1..];
    FirstRunEnds(a, runs[1..], text, isPrivateUse);
    FirstRunEnds(b, others[1..], text, isPrivateUse);
    assert Uniform(a, isPrivateUse) && Uniform(b, isPrivateUse);
    assert a.text[0] == text[0] && b.text[0] == text[0];
    NotShorter(a, b, text, isPrivateUse);
    NotShorter(b, a, text, isPrivateUse);
  }

  /** A text has one split: so the shortcut and the loop never disagree. */
  lemma {:induction false} SplitUnique(runs: seq<Run>, others: seq<Run>, text: seq<Character>, isPrivateUse: Scalar -> bool)
    requires Splits(runs, text, isPrivateUse) && Splits(others, text, isPrivateUse)
    ensures runs == others
    decreases |runs|
  {
    if runs == [] || others == [] {
      EmptySplit(runs, text, isPrivateUse);
      EmptySplit(others, text, isPrivateUse);
    } else {
      FirstRunSame(runs, others, text, isPrivateUse);
      SplitsRest(runs, text, isPrivateUse);
      SplitsRest(others, text, isPrivateUse);
      assert Joined(runs[1..]) == text[|runs[0].text|..] == Joined(others[1..]);
      SplitUnique(runs[1..], others[1..], Joined(runs[1..]), isPrivateUse);
      assert runs == [runs[0]] + runs[1..] && others == [others[0]] + others[1..];
    }
  }

  lemma EmptySplit(runs: seq<Run>, text: seq<Character>, isPrivateUse: Scalar -> bool)
    requires Splits(runs, text, isPrivateUse)
    ensures runs == [] <==> text == []
  {
    if runs != [] {
      SplitsRest(runs, text, isPrivateUse);
      assert Uniform(runs[0], isPrivateUse);
    }
  }

  /** It is a character's first scalar that counts, whatever combines with it. */
  lemma FirstScalarCounts(first: Scalar, others: seq<Scalar>, isPrivateUse: Scalar -> bool)
    ensures IsSymbol([first] + others, isPrivateUse) == isPrivateUse(first)
  {
  }
}
