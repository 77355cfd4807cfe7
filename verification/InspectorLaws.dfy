/** The frame format in plain bytes and numbers, and how a stream comes to its end. */
module InspectorLaws {
  import opened Bytes
  import opened InspectorFrames
  import opened InspectorStream

  /** The most significant byte comes first. */
  lemma PrefixLooks(a: Byte, b: Byte, c: Byte, d: Byte)
    ensures FromBigEndian([a, b, c, d]) as int == ((a as int * 256 + b as int) * 256 + c as int) * 256 + d as int
    ensures BigEndian(FromBigEndian([a, b, c, d])) == [a, b, c, d]
  {
    PrefixReadBack([a, b, c, d]);
    var w: int, x: int, y: int, z: int := a, b, c, d;
    assert Composed(w, x, y, z) == ((w * 256 + x) * 256 + y) * 256 + z;
  }

  /** A frame may hold sixteen mebibytes and no byte more. */
  lemma CapIs(length: Word, after: seq<Byte>)
    ensures Oversized(BigEndian(length) + after) <==> length > 16777216
    ensures Ready(BigEndian(length) + after) <==> length <= 16777216 && length <= |after|
  {
    hide BigEndian, FromBigEndian;
    var s := BigEndian(length) + after;
    assert s[..PREFIX_LENGTH] == BigEndian(length);
    PrefixRoundTrip(length);
  }

  /** Tag one is an event with the rest as its body, tag two a heartbeat; nothing else is read. */
  lemma PayloadSays(tag: Byte, body: seq<Byte>)
    ensures ReadPayload([]) == Err(Truncated)
    ensures ReadPayload([tag] + body) ==
      if tag == 1 then Ok(Event(body)) else if tag == 2 then Ok(KeepAlive) else Err(UnknownType(tag))
  {
    assert ([tag] + body)[1..] == body;
  }

  /** The verdict a refusal becomes names it again. */
  lemma RefusalNamed(error: CodecError)
    ensures var answered := Fault(error); ErrorOf(answered.verdict, answered.record.detail) == error
  {
  }

  lemma RoomIs(s: seq<Byte>)
    ensures Ready(s) ==> Claimed(s) <= Room(s) && 4096 <= Room(s) && (Room(s) == Claimed(s) || Room(s) == 4096)
  {
  }

  /** Events are passed on as their bodies, in order; heartbeats are not. */
  lemma {:induction false} BodiesJoin(left: seq<Message>, right: seq<Message>)
    ensures Bodies(left + right) == Bodies(left) + Bodies(right)
  {
    if right == [] {
      assert left + right == left;
    } else {
      var last := |right| - 1;
      assert (left + right)[..|left + right| - 1] == left + right[..last];
      BodiesJoin(left, right[..last]);
    }
  }

  lemma BodyOf(body: seq<Byte>)
    ensures Bodies([]) == [] && Bodies([Event(body)]) == [body] && Bodies([KeepAlive]) == []
  {
    assert [Event(body)][..0] == [] && [KeepAlive][..0] == [];
  }

  /**
   A stream of frames and a rest: an orderly end is clean, a transport's failure is one, and only an
   oversized prefix is a desync, whichever way the transport ends.
   */
  lemma StreamEnds(payloads: seq<seq<Byte>>, rest: seq<Byte>, fails: bool)
    requires Framable(payloads) && !Ready(rest)
    ensures var outcome := OutcomeOf(Frames(payloads) + rest, fails);
            && outcome.yielded == Messages(payloads)
            && (outcome.finish.Desynced? <==> Oversized(rest))
            && (outcome.finish.Failed? <==> fails && !Oversized(rest))
            && (outcome.finish.Clean? <==> !fails && !Oversized(rest))
  {
    hide Ready, Oversized, Claimed;
    FramesSplit(payloads, rest);
  }
}
