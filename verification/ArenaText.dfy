/**
 Short texts in one buffer, each named by an offset and a length. Writing saturates the pair at 32
 bits; reading is total, whatever pair it is handed.
 */
module ArenaText {
  import opened Wrappers
  import opened Bytes

  datatype Pair = Pair(offset: Word, length: Word)

  // ---- Reading ----

  /** The bytes a pair names, or none when it does not name bytes that are there. */
  function Span(arena: seq<Byte>, offset: int, length: int): seq<Byte> {
    if offset >= 0 && length > 0 && offset + length <= |arena| then arena[offset..offset + length] else []
  }

  /** How bytes decode as text, with what is malformed repaired. */
  function Text(arena: seq<Byte>, offset: int, length: int, repair: seq<Byte> -> seq<Byte>): seq<Byte> {
    repair(Span(arena, offset, length))
  }

  function OptionalText(arena: seq<Byte>, offset: int, length: int, repair: seq<Byte> -> seq<Byte>): Option<seq<Byte>> {
    if offset >= 0 && length >= 0 && offset + length <= |arena| then Some(Text(arena, offset, length, repair)) else None
  }

  function RangeOf(arena: seq<Byte>, offset: int, length: int): (range: Option<(int, int)>)
    ensures range.Some? ==> 0 <= range.value.0 < range.value.1 <= |arena|
  {
    if offset >= 0 && length > 0 && offset + length <= |arena| then Some((offset, offset + length)) else None
  }

  function BytesAt(arena: seq<Byte>, offset: int, length: int): seq<Byte> {
    match RangeOf(arena, offset, length)
    case None => []
    case Some((start, end)) => arena[start..end]
  }

  /** The readers agree on every pair; the one that can say a field is absent differs just where a pair does not fit. */
  lemma ReadersAgree(arena: seq<Byte>, offset: int, length: int, repair: seq<Byte> -> seq<Byte>)
    ensures BytesAt(arena, offset, length) == Span(arena, offset, length)
    ensures OptionalText(arena, offset, length, repair) ==
      if offset >= 0 && length >= 0 && offset + length <= |arena| then Some(repair(BytesAt(arena, offset, length))) else None
    ensures |Span(arena, offset, length)| == length || Span(arena, offset, length) == []
  {
  }

  /** What is read is what is there, byte by byte; a pair that does not fit reads nothing. */
  lemma SpanIsThere(arena: seq<Byte>, offset: int, length: int)
    ensures Span(arena, offset, length) != [] <==> offset >= 0 && length > 0 && offset + length <= |arena|
    ensures Span(arena, offset, length) != [] ==> |Span(arena, offset, length)| == length
    ensures forall i :: 0 <= i < |Span(arena, offset, length)| ==>
      0 <= offset + i < |arena| && Span(arena, offset, length)[i] == arena[offset + i]
  {
  }

  /** A read that found its bytes finds them again however the arena has grown. */
  lemma SpanStays(arena: seq<Byte>, more: seq<Byte>, offset: int, length: int)
    requires offset + length <= |arena| || length <= 0
    ensures Span(arena + more, offset, length) == Span(arena, offset, length)
  {
  }

  // ---- Writing ----

  function Named(arena: seq<Byte>, bytes: seq<Byte>): Pair {
    Pair(Saturated(|arena|), Saturated(|bytes|))
  }

  function Read(arena: seq<Byte>, pair: Pair): seq<Byte> {
    Span(arena, pair.offset, pair.length)
  }

  /** While the offset still fits its field, what is written reads back exactly when its length fits too. */
  lemma InternReadsBack(arena: seq<Byte>, bytes: seq<Byte>, more: seq<Byte>)
    requires |arena| < WORD_LIMIT
    ensures Read(arena + bytes + more, Named(arena, bytes)) == bytes <==> |bytes| < WORD_LIMIT
  {
    var all := arena + bytes + more;
    if |bytes| < WORD_LIMIT {
      assert all[|arena|..|arena| + |bytes|] == bytes;
    } else {
      assert |Read(all, Named(arena, bytes))| < WORD_LIMIT;
    }
  }

  /** A saturated length never reads back, and a saturated offset reads from the last byte a pair can name. */
  lemma SaturatedReads(arena: seq<Byte>, bytes: seq<Byte>, more: seq<Byte>)
    ensures |bytes| >= WORD_LIMIT ==> Read(arena + bytes + more, Named(arena, bytes)) != bytes
    ensures |arena| >= WORD_LIMIT && 0 < |bytes| < WORD_LIMIT ==>
      Read(arena + bytes + more, Named(arena, bytes)) == (arena + bytes + more)[LARGEST..LARGEST + |bytes|]
  {
  }

  datatype Interned = Interned(pair: Pair, bytes: seq<Byte>)

  /** A buffer that only grows. `interned` is every text written to it, with the pair it was given. */
  class Arena {
    var data: seq<Byte>
    ghost var interned: seq<Interned>

    /** Every text whose pair did not saturate still reads back as itself. */
    ghost predicate Valid()
      reads this
    {
      forall i :: 0 <= i < |interned| ==>
        var entry := interned[i];
        entry.pair.offset < LARGEST && |entry.bytes| < WORD_LIMIT ==>
          Read(data, entry.pair) == entry.bytes && entry.pair.offset + |entry.bytes| <= |data| && entry.pair.length == |entry.bytes|
    }

    constructor ()
      ensures Valid() && data == [] && interned == []
    {
      data, interned := [], [];
    }

    /** The offset is taken before the bytes are appended. */
    method Intern(bytes: seq<Byte>) returns (pair: Pair)
      requires Valid()
      modifies this
      ensures Valid() && data == old(data) + bytes && pair == Named(old(data), bytes)
      ensures interned == old(interned) + [Interned(pair, bytes)]
    {
      ghost var was := data;
      var offset := Saturated(|data|);
      data := data + bytes;
      pair := Pair(offset, Saturated(|bytes|));
      interned := interned + [Interned(pair, bytes)];
      if |was| < WORD_LIMIT {
        InternReadsBack(was, bytes, []);
        assert was + bytes + [] == data;
      }
      forall i | 0 <= i < |interned| - 1
        ensures var entry := interned[i];
          entry.pair.offset < LARGEST && |entry.bytes| < WORD_LIMIT ==> Read(data, entry.pair) == Read(was, entry.pair)
      {
        var entry := interned[i];
        if entry.pair.offset < LARGEST && |entry.bytes| < WORD_LIMIT {
          SpanStays(was, bytes, entry.pair.offset, entry.pair.length);
        }
      }
    }
  }
}
