/**
 A table of texts in one blob: each text as a four-byte big-endian length and its bytes. Which byte
 strings are texts at all is a parameter here.
 */
module Fields {
  import opened Wrappers
  import opened Bytes

  type Text = seq<Byte>

  /** One field; a text whose length does not fit the prefix is written as an empty one. */
  function Field(text: Text): (field: seq<Byte>)
    ensures |field| >= PREFIX_LENGTH
  {
    if |text| < WORD_LIMIT then BigEndian(|text|) + text else BigEndian(0)
  }

  function Encode(texts: seq<Text>): (blob: seq<Byte>)
    ensures blob == [] <==> texts == []
  {
    if texts == [] then [] else Field(texts[0]) + Encode(texts[1..])
  }

  ghost predicate Writable(texts: seq<Text>, valid: Text -> bool) {
    forall i :: 0 <= i < |texts| ==> |texts[i]| < WORD_LIMIT && valid(texts[i])
  }

  // ---- The encoding is unambiguous ----

  lemma FieldParts(text: Text, after: seq<Byte>)
    requires |text| < WORD_LIMIT
    ensures var blob := Field(text) + after;
            && |blob| >= PREFIX_LENGTH + |text| && FromBigEndian(blob[..PREFIX_LENGTH]) == |text|
            && blob[PREFIX_LENGTH..][..|text|] == text && blob[PREFIX_LENGTH + |text|..] == after
  {
    hide BigEndian, FromBigEndian;
    var blob := Field(text) + after;
    assert blob == BigEndian(|text|) + (text + after);
    assert blob[..PREFIX_LENGTH] == BigEndian(|text|);
    PrefixRoundTrip(|text|);
  }

  lemma FirstFieldUnique(text: Text, after: seq<Byte>, other: Text, rest: seq<Byte>)
    requires |text| < WORD_LIMIT && |other| < WORD_LIMIT
    requires Field(text) + after == Field(other) + rest
    ensures text == other && after == rest
  {
    FieldParts(text, after);
    FieldParts(other, rest);
  }

  lemma {:induction false} EncodeJoins(left: seq<Text>, right: seq<Text>)
    ensures Encode(left + right) == Encode(left) + Encode(right)
  {
    if left == [] {
      assert left + right == right;
    } else {
      assert (left + right)[1..] == left[1..] + right;
      EncodeJoins(left[1..], right);
    }
  }

  lemma EncodeFirst(texts: seq<Text>, tail: seq<Byte>)
    requires texts != []
    ensures Encode(texts) + tail == Field(texts[0]) + (Encode(texts[1..]) + tail)
  {
    hide Field;
  }

  /** A table that begins with the bytes of another begins with its texts. */
  lemma {:induction false} EncodePrefix(texts: seq<Text>, done: seq<Text>, tail: seq<Byte>, valid: Text -> bool)
    requires Writable(texts, valid) && Writable(done, valid)
    requires Encode(texts) == Encode(done) + tail
    ensures |done| <= |texts| && texts[..|done|] == done && Encode(texts[|done|..]) == tail
  {
    hide Field, Encode;
    if done == [] {
      assert Encode(texts) == tail;
      assert texts[0..] == texts;
    } else {
      EncodeFirst(done, tail);
      EncodeFirst(texts, []);
      assert Encode(texts) + [] == Encode(texts) && Encode(texts[1..]) + [] == Encode(texts[1..]);
      FirstFieldUnique(texts[0], Encode(texts[1..]), done[0], Encode(done[1..]) + tail);
      EncodePrefix(texts[1..], done[1..], tail, valid);
      assert texts[1..][..|done| - 1] == texts[1..|done|];
      assert texts[1..][|done| - 1..] == texts[|done|..];
      assert texts[..|done|] == [texts[0]] + texts[1..|done|];
      assert done == [done[0]] + done[1..];
    }
  }

  /** No two tables share their bytes. */
  lemma EncodingUnambiguous(texts: seq<Text>, others: seq<Text>, valid: Text -> bool)
    requires Writable(texts, valid) && Writable(others, valid)
    ensures Encode(texts) == Encode(others) <==> texts == others
  {
    if Encode(texts) == Encode(others) {
      assert Encode(texts) == Encode(others) + [];
      EncodePrefix(texts, others, [], valid);
    }
  }

  // ---- Cutting a blob ----

  /** What no table of texts can go on with. */
  ghost predicate Malformed(tail: seq<Byte>, valid: Text -> bool) {
    && tail != []
    && (|tail| >= PREFIX_LENGTH ==>
          var length := FromBigEndian(tail[..PREFIX_LENGTH]);
          PREFIX_LENGTH + length > |tail| || !valid(tail[PREFIX_LENGTH..][..length]))
  }

  lemma MalformedNeverEncodes(texts: seq<Text>, tail: seq<Byte>, valid: Text -> bool)
    requires Writable(texts, valid) && Malformed(tail, valid)
    ensures Encode(texts) != tail
  {
    if texts != [] {
      FieldParts(texts[0], Encode(texts[1..]));
    }
  }

  lemma NothingEncodes(blob: seq<Byte>, done: seq<Text>, cursor: nat, valid: Text -> bool)
    requires cursor <= |blob| && Writable(done, valid) && Encode(done) == blob[..cursor]
    requires Malformed(blob[cursor..], valid)
    ensures forall texts :: Writable(texts, valid) ==> Encode(texts) != blob
  {
    forall texts | Writable(texts, valid)
      ensures Encode(texts) != blob
    {
      if Encode(texts) == blob {
        assert blob == Encode(done) + blob[cursor..];
        EncodePrefix(texts, done, blob[cursor..], valid);
        MalformedNeverEncodes(texts[|done|..], blob[cursor..], valid);
      }
    }
  }

  lemma OneField(text: Text)
    ensures Encode([text]) == Field(text)
  {
    assert Encode([text]) == Field(text) + Encode([text][1..]);
  }

  /** One field further along the blob. */
  lemma OneFieldMore(blob: seq<Byte>, done: seq<Text>, cursor: nat, text: Text)
    requires cursor + PREFIX_LENGTH + |text| <= |blob| && |text| < WORD_LIMIT
    requires Encode(done) == blob[..cursor]
    requires FromBigEndian(blob[cursor..cursor + PREFIX_LENGTH]) == |text|
    requires text == blob[cursor + PREFIX_LENGTH..cursor + PREFIX_LENGTH + |text|]
    ensures Encode(done + [text]) == blob[..cursor + PREFIX_LENGTH + |text|]
  {
    hide BigEndian, FromBigEndian, Encode;
    EncodeJoins(done, [text]);
    OneField(text);
    PrefixReadBack(blob[cursor..cursor + PREFIX_LENGTH]);
    assert Field(text) == blob[cursor..cursor + PREFIX_LENGTH] + text;
  }

  /** Bytes shifted in one after another. */
  function Shifted(bytes: seq<Byte>): nat {
    if bytes == [] then 0
    else
      var last: int := bytes[|bytes| - 1];
      Shifted(bytes[..|bytes| - 1]) * 0x100 + last
  }

  lemma ShiftedIsBigEndian(bytes: seq<Byte>)
    requires |bytes| == PREFIX_LENGTH
    ensures Shifted(bytes) == FromBigEndian(bytes)
  {
    assert bytes[..3][..2] == bytes[..2] && bytes[..2][..1] == bytes[..1];
    var a: int, b: int, c: int, d: int := bytes[0], bytes[1], bytes[2], bytes[3];
    assert Shifted(bytes[..1]) == a;
    assert Shifted(bytes[..2]) == a * 0x100 + b;
    assert Shifted(bytes[..3]) == (a * 0x100 + b) * 0x100 + c;
  }

  method ReadPrefix(blob: seq<Byte>, cursor: nat) returns (length: nat)
    requires cursor + PREFIX_LENGTH <= |blob|
    ensures length == FromBigEndian(blob[cursor..cursor + PREFIX_LENGTH])
  {
    length := 0;
    for offset := 0 to PREFIX_LENGTH
      invariant length == Shifted(blob[cursor..cursor + offset])
    {
      var next: int := blob[cursor + offset];
      var read := blob[cursor..cursor + offset + 1];
      assert read[..|read| - 1] == blob[cursor..cursor + offset];
      length := length * 0x100 + next;
    }
    ShiftedIsBigEndian(blob[cursor..cursor + PREFIX_LENGTH]);
  }

  /** The texts of a table, or none when the blob is not one: no other table has these bytes. */
  method SplitFields(blob: seq<Byte>, valid: Text -> bool) returns (fields: Option<seq<Text>>)
    ensures fields.Some? ==> Writable(fields.value, valid) && Encode(fields.value) == blob
    ensures fields.None? ==> forall texts :: Writable(texts, valid) ==> Encode(texts) != blob
  {
    hide Malformed, FromBigEndian, Field, Encode;
    var done: seq<Text> := [];
    var cursor := 0;
    NothingYet(blob);
    while cursor + PREFIX_LENGTH <= |blob|
      invariant cursor <= |blob|
      invariant Writable(done, valid) && Encode(done) == blob[..cursor]
    {
      var length := ReadPrefix(blob, cursor);
      ghost var start := cursor;
      cursor := cursor + PREFIX_LENGTH;
      if cursor + length > |blob| {
        Overrun(blob, start, length, valid);
        NothingEncodes(blob, done, start, valid);
        return None;
      }
      var text := blob[cursor..cursor + length];
      if !valid(text) {
        NotText(blob, start, length, valid);
        NothingEncodes(blob, done, start, valid);
        return None;
      }
      OneFieldMore(blob, done, start, text);
      done := done + [text];
      cursor := cursor + length;
    }
    if cursor == |blob| {
      assert blob[..cursor] == blob;
      return Some(done);
    }
    LeftOver(blob, cursor, valid);
    NothingEncodes(blob, done, cursor, valid);
    return None;
  }

  lemma NothingYet(blob: seq<Byte>)
    ensures Encode([]) == blob[..0]
  {
  }

  lemma Overrun(blob: seq<Byte>, start: nat, length: nat, valid: Text -> bool)
    requires start + PREFIX_LENGTH <= |blob| && length == FromBigEndian(blob[start..start + PREFIX_LENGTH])
    requires start + PREFIX_LENGTH + length > |blob|
    ensures Malformed(blob[start..], valid)
  {
    hide FromBigEndian;
    assert blob[start..][..PREFIX_LENGTH] == blob[start..start + PREFIX_LENGTH];
  }

  lemma NotText(blob: seq<Byte>, start: nat, length: nat, valid: Text -> bool)
    requires start + PREFIX_LENGTH <= |blob| && length == FromBigEndian(blob[start..start + PREFIX_LENGTH])
    requires start + PREFIX_LENGTH + length <= |blob|
    requires !valid(blob[start + PREFIX_LENGTH..start + PREFIX_LENGTH + length])
    ensures Malformed(blob[start..], valid)
  {
    hide FromBigEndian;
    var tail := blob[start..];
    assert tail[..PREFIX_LENGTH] == blob[start..start + PREFIX_LENGTH];
    assert tail[PREFIX_LENGTH..][..length] == blob[start + PREFIX_LENGTH..start + PREFIX_LENGTH + length];
  }

  lemma LeftOver(blob: seq<Byte>, cursor: nat, valid: Text -> bool)
    requires cursor < |blob| < cursor + PREFIX_LENGTH
    ensures Malformed(blob[cursor..], valid)
  {
  }

  // ---- What the writer's blobs read back as ----

  /** A text too long for its prefix comes back blank. */
  function Kept(text: Text): Text {
    if |text| < WORD_LIMIT then text else []
  }

  function AllKept(texts: seq<Text>): seq<Text> {
    seq(|texts|, i requires 0 <= i < |texts| => Kept(texts[i]))
  }

  lemma KeptField(text: Text)
    ensures Field(Kept(text)) == Field(text)
  {
    hide BigEndian;
  }

  lemma {:induction false} EncodeKeeps(texts: seq<Text>)
    ensures Encode(texts) == Encode(AllKept(texts))
  {
    hide Field, Kept;
    if texts != [] {
      EncodeKeeps(texts[1..]);
      KeptField(texts[0]);
      assert AllKept(texts)[0] == Kept(texts[0]);
      assert AllKept(texts)[1..] == AllKept(texts[1..]);
    }
  }

  lemma KeptWritable(texts: seq<Text>, valid: Text -> bool)
    requires valid([]) && forall i :: 0 <= i < |texts| ==> valid(texts[i])
    ensures Writable(AllKept(texts), valid)
  {
    var kept := AllKept(texts);
    forall i | 0 <= i < |kept|
      ensures |kept[i]| < WORD_LIMIT && valid(kept[i])
    {
      assert kept[i] == Kept(texts[i]);
    }
  }

  /** What is cut out of a written table is its own texts, with only the over-long ones blank. */
  lemma WrittenTableReadsBack(texts: seq<Text>, valid: Text -> bool, fields: Option<seq<Text>>)
    requires valid([]) && forall i :: 0 <= i < |texts| ==> valid(texts[i])
    requires fields.Some? ==> Writable(fields.value, valid) && Encode(fields.value) == Encode(texts)
    requires fields.None? ==> forall others :: Writable(others, valid) ==> Encode(others) != Encode(texts)
    ensures fields == Some(AllKept(texts))
  {
    var kept := AllKept(texts);
    KeptWritable(texts, valid);
    EncodeKeeps(texts);
    hide *;
    if fields.Some? {
      EncodingUnambiguous(kept, fields.value, valid);
    }
  }

  /** A table as its bytes. */
  lemma TableLooks()
    ensures Encode([['h' as int, 'i' as int], []]) == [0, 0, 0, 2, 'h' as int, 'i' as int, 0, 0, 0, 0]
  {
    var hi: Text := ['h' as int, 'i' as int];
    assert BigEndian(2) == [0, 0, 0, 2] && BigEndian(0) == [0, 0, 0, 0];
    assert [hi, []][1..] == [[]];
    EncodeFirst([hi, []], []);
    OneField([]);
    assert Field([]) == [0, 0, 0, 0];
  }
}
