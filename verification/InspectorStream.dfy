/** The splitter, the decoder that grows its buffer to fit, and the loop that drains them. */
module InspectorStream {
  import opened Bytes
  import opened InspectorFrames

  const COMPACTION_THRESHOLD := 64 * 1024
  const BODY_FLOOR := 4096

  datatype Peek = NotYet | TooLarge(length: nat) | Holds(length: nat)

  datatype Split = Nothing | Overflow(length: nat) | Payload(bytes: seq<Byte>)

  /** Reassembles frames from chunks behind a cursor; the consumed head is dropped lazily. */
  class FrameSplitter {
    var buffer: seq<Byte>
    var readOffset: nat

    ghost predicate Valid()
      reads this
    {
      readOffset <= |buffer| && readOffset < COMPACTION_THRESHOLD
    }

    /** What has been received and not yet taken. */
    ghost function Unread(): seq<Byte>
      reads this
      requires Valid()
    {
      buffer[readOffset..]
    }

    constructor ()
      ensures Valid() && Unread() == []
    {
      buffer, readOffset := [], 0;
    }

    method Append(data: seq<Byte>)
      requires Valid()
      modifies this
      ensures Valid() && Unread() == old(Unread()) + data
    {
      buffer := buffer + data;
    }

    /** How long the next payload is, with nothing taken. */
    method PeekPayloadLen() returns (peek: Peek)
      requires Valid()
      ensures var s := Unread();
              peek == if Ready(s) then Holds(Claimed(s)) else if Oversized(s) then TooLarge(Claimed(s)) else NotYet
    {
      hide FromBigEndian;
      var available := |buffer| - readOffset;
      if available < PREFIX_LENGTH {
        return NotYet;
      }
      var prefix := buffer[readOffset..readOffset + PREFIX_LENGTH];
      assert Unread()[..PREFIX_LENGTH] == prefix;
      var length: nat := FromBigEndian(prefix);
      if length > MAX_FRAME_PAYLOAD {
        return TooLarge(length);
      }
      if available < PREFIX_LENGTH + length {
        return NotYet;
      }
      return Holds(length);
    }

    method Compact()
      requires readOffset <= |buffer|
      modifies this
      ensures Valid() && Unread() == old(buffer[readOffset..]) && readOffset == 0
    {
      if readOffset == 0 {
        return;
      }
      buffer := buffer[readOffset..];
      readOffset := 0;
    }

    /** Takes the next payload whole; the frame is gone before anyone reads what it says. */
    method NextPayload() returns (split: Split)
      requires Valid()
      modifies this
      ensures Valid()
      ensures var s := old(Unread());
              if Ready(s) then split == Payload(FirstPayload(s)) && Unread() == AfterFirst(s)
              else Unread() == s && split == if Oversized(s) then Overflow(Claimed(s)) else Nothing
    {
      hide Claimed;
      var peek := PeekPayloadLen();
      ghost var s := Unread();
      match peek
      case TooLarge(length) => return Overflow(length);
      case NotYet =>
        Compact();
        return Nothing;
      case Holds(length) =>
        var start := readOffset + PREFIX_LENGTH;
        var payload := buffer[start..start + length];
        assert payload == FirstPayload(s);
        readOffset := start + length;
        assert buffer[readOffset..] == AfterFirst(s);
        if readOffset >= COMPACTION_THRESHOLD {
          Compact();
        }
        return Payload(payload);
    }
  }

  // ---- The door between the splitter and its reader ----

  datatype Verdict = VerdictOk | Pending | ShortPayload | UnknownTag | PrefixTooLarge | Again

  /** One frame as it crosses: which it is, and where its body sits in the caller's buffer. */
  datatype Record = Record(bodyOffset: Word, bodyLength: Word, tag: Byte, detail: nat)

  const BLANK := Record(0, 0, 0, 0)

  datatype Answered = Answered(verdict: Verdict, record: Record)

  function Fault(error: CodecError): Answered {
    match error
    case FrameTooLarge(length) => Answered(PrefixTooLarge, BLANK.(detail := length))
    case UnknownType(tag) => Answered(UnknownTag, BLANK.(detail := tag))
    case Truncated => Answered(ShortPayload, BLANK)
  }

  function Framed(payload: seq<Byte>): Answered {
    match ReadPayload(payload)
    case Ok(Event(_)) => Answered(VerdictOk, Record(1, Saturated(|payload| - 1), TAG_EVENT, 0))
    case Ok(KeepAlive) => Answered(VerdictOk, BLANK.(tag := TAG_KEEP_ALIVE))
    case Err(error) => Fault(error)
  }

  /** What the door answers to a stream, for a buffer of a given size that may be null. */
  function DoorAnswer(s: seq<Byte>, capacity: nat, absent: bool): Answered {
    if Ready(s) then
      if Claimed(s) > capacity || absent then Answered(Again, BLANK.(detail := Claimed(s))) else Framed(FirstPayload(s))
    else if Oversized(s) then Fault(FrameTooLarge(Claimed(s)))
    else Answered(Pending, BLANK)
  }

  method Deliver(answer: seq<Byte>, out: array<Byte>)
    requires |answer| <= out.Length
    modifies out
    ensures out[..|answer|] == answer
  {
    for i := 0 to |answer|
      invariant out[..i] == answer[..i]
    {
      out[i] := answer[i];
      assert out[..i + 1] == out[..i] + [out[i]];
    }
  }

  /** The next frame copied into `body`; when it does not fit, nothing is taken and its size is told. */
  method DecoderNext(splitter: FrameSplitter, body: array<Byte>, absent: bool) returns (answered: Answered)
    requires splitter.Valid()
    modifies splitter, body
    ensures splitter.Valid()
    ensures answered == DoorAnswer(old(splitter.Unread()), body.Length, absent)
    ensures var s := old(splitter.Unread());
            if Ready(s) && answered.verdict != Again then
              splitter.Unread() == AfterFirst(s) && |FirstPayload(s)| <= body.Length && body[..|FirstPayload(s)|] == FirstPayload(s)
            else splitter.Unread() == s && body[..] == old(body[..])
  {
    hide Ready, Oversized, Claimed, FirstPayload, AfterFirst;
    var peek := splitter.PeekPayloadLen();
    if peek.Holds? && (peek.length > body.Length || absent) {
      return Answered(Again, BLANK.(detail := peek.length));
    }
    var split := splitter.NextPayload();
    match split
    case Nothing => return Answered(Pending, BLANK);
    case Overflow(length) => return Fault(FrameTooLarge(length));
    case Payload(payload) =>
      Deliver(payload, body);
      return Framed(payload);
  }

  // ---- The decoder ----

  datatype Next = NotComplete | Yielded(message: Message) | Refused(error: CodecError)

  /** What the next call answers for a stream. */
  function NextOf(s: seq<Byte>): Next {
    if Ready(s) then
      match ReadPayload(FirstPayload(s))
      case Ok(message) => Yielded(message)
      case Err(error) => Refused(error)
    else if Oversized(s) then Refused(FrameTooLarge(Claimed(s)))
    else NotComplete
  }

  function After(s: seq<Byte>): seq<Byte> {
    if Ready(s) then AfterFirst(s) else s
  }

  /** The error a verdict names. */
  function ErrorOf(verdict: Verdict, detail: nat): CodecError {
    match verdict
    case UnknownTag => UnknownType(detail % 256)
    case PrefixTooLarge => FrameTooLarge(detail)
    case _ => Truncated
  }

  function Grown(needed: nat): nat {
    if needed > BODY_FLOOR then needed else BODY_FLOOR
  }

  /** How large a buffer the frame at the front of a stream is given. */
  function Room(s: seq<Byte>): nat {
    if Ready(s) then Grown(Claimed(s)) else 0
  }

  class InspectorFrameDecoder {
    const splitter: FrameSplitter
    var body: array<Byte>

    constructor ()
      ensures fresh(splitter) && splitter.Valid() && splitter.Unread() == []
      ensures fresh(body) && body.Length == 0
    {
      splitter := new FrameSplitter();
      body := new Byte[0];
    }

    method Append(data: seq<Byte>)
      requires splitter.Valid()
      modifies splitter
      ensures splitter.Valid() && splitter.Unread() == old(splitter.Unread()) + data
    {
      if data == [] {
        return;
      }
      splitter.Append(data);
    }

    /** The next message. The buffer grows at most once a call, to what the frame needs, and never loses a frame. */
    method NextMessage() returns (next: Next, ghost grown: nat)
      requires splitter.Valid()
      modifies this, splitter, body
      ensures splitter.Valid() && splitter.Unread() == After(old(splitter.Unread()))
      ensures next == NextOf(old(splitter.Unread()))
      ensures grown <= 1
      ensures grown == 0 ==> body == old(body)
      ensures grown == 1 ==> fresh(body) && old(body.Length) < body.Length == Room(old(splitter.Unread()))
    {
      hide Ready, Oversized, Claimed, FirstPayload, AfterFirst, Room, Grown;
      grown := 0;
      ghost var s := splitter.Unread();
      while true
        invariant splitter.Valid() && splitter.Unread() == s
        invariant grown == 0 ==> body == old(body)
        invariant grown != 0 ==> grown == 1 && fresh(body) && old(body.Length) < body.Length == Room(s)
        modifies this, splitter, old(body)
        decreases 1 - grown
      {
        var absent: bool := *;
        absent := absent && body.Length == 0;
        var answered := DecoderNext(splitter, body, absent);
        AnswerMeans(s, body.Length, absent, body[..], answered);
        match answered.verdict
        case Pending => return NotComplete, grown;
        case Again =>
          var needed := answered.record.detail;
          body := new Byte[Grown(needed)];
          grown := grown + 1;
        case VerdictOk =>
          if answered.record.tag != TAG_EVENT {
            return Yielded(KeepAlive), grown;
          }
          var offset := answered.record.bodyOffset;
          return Yielded(Event(body[offset..offset + answered.record.bodyLength])), grown;
        case _ => return Refused(ErrorOf(answered.verdict, answered.record.detail)), grown;
      }
    }
  }

  /** Reading the record against the buffer gives back what the payload says. */
  lemma AnswerMeans(s: seq<Byte>, capacity: nat, absent: bool, body: seq<Byte>, answered: Answered)
    requires answered == DoorAnswer(s, capacity, absent) && |body| == capacity && (absent ==> capacity == 0)
    requires Ready(s) && answered.verdict != Again ==> |FirstPayload(s)| <= capacity && body[..|FirstPayload(s)|] == FirstPayload(s)
    ensures match answered.verdict
            case Pending => NextOf(s) == NotComplete && !Ready(s)
            case Again => capacity < Room(s) == Grown(answered.record.detail)
            case VerdictOk =>
              var r := answered.record;
              Ready(s) &&
              if r.tag == TAG_EVENT then
                r.bodyOffset + r.bodyLength <= |body| && NextOf(s) == Yielded(Event(body[r.bodyOffset..r.bodyOffset + r.bodyLength]))
              else NextOf(s) == Yielded(KeepAlive)
            case _ => NextOf(s) == Refused(ErrorOf(answered.verdict, answered.record.detail))
  {
    hide FromBigEndian;
    if Ready(s) && answered.verdict == VerdictOk && answered.record.tag == TAG_EVENT {
      var payload := FirstPayload(s);
      assert body[1..|payload|] == body[..|payload|][1..];
    }
  }

  // ---- The drain loop ----

  /** Decodes a stream as its chunks arrive; `fails` says the transport ends it with an error. */
  method DecodeStream(inbound: seq<seq<Byte>>, fails: bool) returns (outcome: Outcome)
    ensures outcome == OutcomeOf(Concat(inbound), fails)
    ensures outcome.finish.Failed? <==> fails && !Oversized(Rest(Concat(inbound)))
    ensures outcome.finish.Clean? <==> !fails && !Oversized(Rest(Concat(inbound)))
  {
    hide Ready, Oversized, Claimed, Payloads, Rest, Messages, After, NextOf;
    var decoder := new InspectorFrameDecoder();
    var yielded: seq<Message> := [];
    NothingReceived();
    for i := 0 to |inbound|
      invariant fresh(decoder) && fresh(decoder.splitter) && fresh(decoder.body) && decoder.splitter.Valid()
      invariant var all := Concat(inbound[..i]);
                yielded == Messages(Payloads(all)) && decoder.splitter.Unread() == Rest(all) && !Oversized(Rest(all))
    {
      ghost var all := Concat(inbound[..i]);
      decoder.Append(inbound[i]);
      ghost var before, s := yielded, decoder.splitter.Unread();
      MoreReceived(inbound, i, before);
      var draining := true;
      assert before == yielded + [];
      while draining
        invariant fresh(decoder) && fresh(decoder.splitter) && fresh(decoder.body) && decoder.splitter.Valid()
        invariant var u := decoder.splitter.Unread();
                  Rest(u) == Rest(s) && yielded + Messages(Payloads(u)) == before + Messages(Payloads(s))
        invariant !draining ==> decoder.splitter.Unread() == Rest(s) && !Oversized(Rest(s)) && yielded == before + Messages(Payloads(s))
        decreases |decoder.splitter.Unread()|, draining
      {
        ghost var u, got := decoder.splitter.Unread(), yielded;
        var next, _ := decoder.NextMessage();
        Drained(u, got);
        match next
        case NotComplete => draining := false;
        case Yielded(message) => yielded := yielded + [message];
        case Refused(FrameTooLarge(length)) =>
          DesyncDecides(inbound, i, fails);
          return Outcome(yielded, Desynced(length));
        case Refused(_) =>
      }
    }
    assert inbound[..|inbound|] == inbound;
    return Outcome(yielded, if fails then Failed else Clean);
  }

  lemma NothingReceived()
    ensures Concat([]) == [] && Messages(Payloads([])) == [] && Rest([]) == [] && !Oversized(Rest([]))
  {
  }

  lemma MoreReceived(inbound: seq<seq<Byte>>, i: nat, before: seq<Message>)
    requires i < |inbound|
    requires before == Messages(Payloads(Concat(inbound[..i])))
    ensures var s := Rest(Concat(inbound[..i])) + inbound[i]; var all := Concat(inbound[..i + 1]);
            Rest(all) == Rest(s) && Messages(Payloads(all)) == before + Messages(Payloads(s))
  {
    hide Rest, Payloads, Messages;
    assert inbound[..i + 1][..i] == inbound[..i];
    SplitLater(Concat(inbound[..i]), inbound[i]);
    MessagesJoin(Payloads(Concat(inbound[..i])), Payloads(Rest(Concat(inbound[..i])) + inbound[i]));
  }

  /** One answer, against what is still to be read. */
  lemma Drained(u: seq<Byte>, got: seq<Message>)
    ensures match NextOf(u)
            case NotComplete => After(u) == u && Rest(u) == u && !Oversized(u) && Messages(Payloads(u)) == []
            case Yielded(message) =>
              |After(u)| < |u| && Rest(After(u)) == Rest(u) &&
              got + Messages(Payloads(u)) == got + [message] + Messages(Payloads(After(u)))
            case Refused(FrameTooLarge(length)) =>
              Rest(u) == u && Oversized(u) && Claimed(u) == length && Messages(Payloads(u)) == []
            case Refused(_) =>
              |After(u)| < |u| && Rest(After(u)) == Rest(u) && Messages(Payloads(u)) == Messages(Payloads(After(u)))
  {
    hide Ready, ReadPayload, Payloads, Rest, Messages, FirstPayload, AfterFirst, Claimed, FromBigEndian;
    PayloadsFirst(u);
    if Ready(u) {
      var payload, tail := FirstPayload(u), Payloads(AfterFirst(u));
      MessagesFirst(payload, tail);
      ReadPayloadFails(payload);
      Prepended(got, if ReadPayload(payload).Ok? then [ReadPayload(payload).value] else [], Messages(tail));
    } else {
      NotReadyAnswers(u);
    }
  }

  lemma NotReadyAnswers(u: seq<Byte>)
    requires !Ready(u)
    ensures NextOf(u) == if Oversized(u) then Refused(FrameTooLarge(Claimed(u))) else NotComplete
    ensures After(u) == u
  {
    hide Claimed;
  }

  /** A payload's own fault is never that of its length. */
  lemma ReadPayloadFails(payload: seq<Byte>)
    ensures ReadPayload(payload).Err? ==> !ReadPayload(payload).error.FrameTooLarge?
  {
  }

  lemma Prepended(got: seq<Message>, first: seq<Message>, rest: seq<Message>)
    ensures got + (first + rest) == got + first + rest
    ensures [] + rest == rest
  {
  }

  /** The first frame of a stream, taken off. */
  lemma PayloadsFirst(u: seq<Byte>)
    ensures Ready(u) ==> Payloads(u) == [FirstPayload(u)] + Payloads(AfterFirst(u)) && Rest(AfterFirst(u)) == Rest(u)
    ensures !Ready(u) ==> Messages(Payloads(u)) == [] && Rest(u) == u
  {
    hide Ready, FirstPayload, AfterFirst;
  }

  lemma MessagesFirst(payload: seq<Byte>, tail: seq<seq<Byte>>)
    ensures Messages([payload] + tail) ==
      (if ReadPayload(payload).Ok? then [ReadPayload(payload).value] else []) + Messages(tail)
  {
    hide ReadPayload;
    assert ([payload] + tail)[1..] == tail;
  }

  lemma {:induction false} ConcatJoins(left: seq<seq<Byte>>, right: seq<seq<Byte>>)
    ensures Concat(left + right) == Concat(left) + Concat(right)
  {
    if right == [] {
      assert left + right == left;
    } else {
      var last := |right| - 1;
      assert (left + right)[..|left + right| - 1] == left + right[..last];
      ConcatJoins(left, right[..last]);
    }
  }

  lemma DesyncDecides(inbound: seq<seq<Byte>>, i: nat, fails: bool)
    requires i < |inbound| && Oversized(Rest(Concat(inbound[..i + 1])))
    ensures var all := Concat(inbound[..i + 1]);
            OutcomeOf(Concat(inbound), fails) == Outcome(Messages(Payloads(all)), Desynced(Claimed(Rest(all))))
  {
    hide Oversized, Claimed, Rest, Payloads, Messages;
    assert inbound == inbound[..i + 1] + inbound[i + 1..];
    ConcatJoins(inbound[..i + 1], inbound[i + 1..]);
    DesyncStays(Concat(inbound[..i + 1]), Concat(inbound[i + 1..]));
  }
}
