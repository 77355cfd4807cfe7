/** The inspector's frames on a byte stream, as values: where they are cut and what each one says. */
module InspectorFrames {
  import opened Bytes

  const MAX_FRAME_PAYLOAD := 16 * 1024 * 1024
  const TAG_EVENT: Byte := 1
  const TAG_KEEP_ALIVE: Byte := 2

  datatype Message = Event(body: seq<Byte>) | KeepAlive

  datatype CodecError = FrameTooLarge(length: nat) | Truncated | UnknownType(tag: Byte)

  datatype Result<+T> = Ok(value: T) | Err(error: CodecError)

  // ---- One payload ----

  /** What the client reads out of a payload: the body is whatever follows the tag, unread. */
  function ReadPayload(payload: seq<Byte>): Result<Message> {
    if payload == [] then Err(Truncated)
    else if payload[0] == TAG_EVENT then Ok(Event(payload[1..]))
    else if payload[0] == TAG_KEEP_ALIVE then Ok(KeepAlive)
    else Err(UnknownType(payload[0]))
  }

  function PayloadOf(message: Message): (payload: seq<Byte>)
    ensures ReadPayload(payload) == Ok(message)
  {
    match message
    case Event(body) => [TAG_EVENT] + body
    case KeepAlive => [TAG_KEEP_ALIVE]
  }

  // ---- Where frames are cut ----

  function Claimed(s: seq<Byte>): nat
    requires |s| >= PREFIX_LENGTH
  {
    FromBigEndian(s[..PREFIX_LENGTH])
  }

  /** The prefix claims more than any frame may hold. */
  predicate Oversized(s: seq<Byte>) {
    |s| >= PREFIX_LENGTH && Claimed(s) > MAX_FRAME_PAYLOAD
  }

  /** A whole frame is there to be taken. */
  predicate Ready(s: seq<Byte>) {
    |s| >= PREFIX_LENGTH && Claimed(s) <= MAX_FRAME_PAYLOAD && PREFIX_LENGTH + Claimed(s) <= |s|
  }

  function FirstPayload(s: seq<Byte>): (payload: seq<Byte>)
    requires Ready(s)
    ensures |payload| == Claimed(s)
  {
    s[PREFIX_LENGTH..PREFIX_LENGTH + Claimed(s)]
  }

  function AfterFirst(s: seq<Byte>): (rest: seq<Byte>)
    requires Ready(s)
    ensures |rest| < |s|
  {
    s[PREFIX_LENGTH + Claimed(s)..]
  }

  /** The payloads of the whole frames that a stream begins with. */
  function Payloads(s: seq<Byte>): seq<seq<Byte>>
    decreases |s|
  {
    if Ready(s) then [FirstPayload(s)] + Payloads(AfterFirst(s)) else []
  }

  /** What is left once every whole frame is taken. */
  function Rest(s: seq<Byte>): (rest: seq<Byte>)
    ensures !Ready(rest)
    decreases |s|
  {
    if Ready(s) then Rest(AfterFirst(s)) else s
  }

  /** The payloads that can be read, in order; the others cost only themselves. */
  function Messages(payloads: seq<seq<Byte>>): seq<Message> {
    if payloads == [] then []
    else
      match ReadPayload(payloads[0])
      case Ok(message) => [message] + Messages(payloads[1..])
      case Err(_) => Messages(payloads[1..])
  }

  // ---- The frame format ----

  predicate Framable(payloads: seq<seq<Byte>>) {
    forall i :: 0 <= i < |payloads| ==> |payloads[i]| <= MAX_FRAME_PAYLOAD
  }

  function Frame(payload: seq<Byte>): seq<Byte>
    requires |payload| <= MAX_FRAME_PAYLOAD
  {
    BigEndian(|payload|) + payload
  }

  function Frames(payloads: seq<seq<Byte>>): seq<Byte>
    requires Framable(payloads)
  {
    if payloads == [] then [] else Frame(payloads[0]) + Frames(payloads[1..])
  }

  lemma FrameReady(payload: seq<Byte>, after: seq<Byte>)
    requires |payload| <= MAX_FRAME_PAYLOAD
    ensures var s := Frame(payload) + after; Ready(s) && FirstPayload(s) == payload && AfterFirst(s) == after
  {
    hide BigEndian, FromBigEndian;
    var s := Frame(payload) + after;
    assert s == BigEndian(|payload|) + (payload + after);
    assert s[..PREFIX_LENGTH] == BigEndian(|payload|);
    PrefixRoundTrip(|payload|);
  }

  lemma ReadyIsFrame(s: seq<Byte>)
    requires Ready(s)
    ensures s == Frame(FirstPayload(s)) + AfterFirst(s)
  {
    hide BigEndian, FromBigEndian;
    PrefixReadBack(s[..PREFIX_LENGTH]);
  }

  /** Frames come back as the payloads they were made of, and what follows them is still there. */
  lemma {:induction false} FramesSplit(payloads: seq<seq<Byte>>, after: seq<Byte>)
    requires Framable(payloads) && !Ready(after)
    ensures Payloads(Frames(payloads) + after) == payloads && Rest(Frames(payloads) + after) == after
  {
    hide Frame, Ready, FirstPayload, AfterFirst;
    if payloads == [] {
      assert Frames(payloads) + after == after;
    } else {
      var tail := Frames(payloads[1..]) + after;
      assert Frames(payloads) + after == Frame(payloads[0]) + tail;
      FrameReady(payloads[0], tail);
      FramesSplit(payloads[1..], after);
    }
  }

  /** Every stream is its whole frames and a rest that is no frame, and it is so in one way only. */
  lemma {:induction false} StreamIsFrames(s: seq<Byte>)
    ensures Framable(Payloads(s)) && s == Frames(Payloads(s)) + Rest(s)
    decreases |s|
  {
    hide Frame;
    if Ready(s) {
      StreamIsFrames(AfterFirst(s));
      ReadyIsFrame(s);
      var payloads := Payloads(AfterFirst(s));
      assert Payloads(s)[0] == FirstPayload(s) && Payloads(s)[1..] == payloads;
      assert s == Frame(FirstPayload(s)) + (Frames(payloads) + Rest(s));
    }
  }

  // ---- Chunks ----

  function Concat(chunks: seq<seq<Byte>>): seq<Byte> {
    if chunks == [] then [] else Concat(chunks[..|chunks| - 1]) + chunks[|chunks| - 1]
  }

  lemma ReadyStays(s: seq<Byte>, more: seq<Byte>)
    ensures Ready(s) ==> Ready(s + more) && FirstPayload(s + more) == FirstPayload(s) && AfterFirst(s + more) == AfterFirst(s) + more
    ensures Oversized(s) ==> Oversized(s + more) && Claimed(s + more) == Claimed(s)
  {
    hide FromBigEndian;
    if |s| >= PREFIX_LENGTH {
      assert (s + more)[..PREFIX_LENGTH] == s[..PREFIX_LENGTH];
    }
  }

  /** Splitting first and receiving the rest later is splitting it all at once. */
  lemma {:induction false} SplitLater(s: seq<Byte>, more: seq<Byte>)
    ensures Payloads(s + more) == Payloads(s) + Payloads(Rest(s) + more)
    ensures Rest(s + more) == Rest(Rest(s) + more)
    decreases |s|
  {
    hide Ready, FirstPayload, AfterFirst;
    ReadyStays(s, more);
    if Ready(s) {
      SplitLater(AfterFirst(s), more);
    }
  }

  /** A desync is final: nothing received later brings another frame. */
  lemma DesyncStays(s: seq<Byte>, more: seq<Byte>)
    requires Oversized(Rest(s))
    ensures Payloads(s + more) == Payloads(s)
    ensures Oversized(Rest(s + more)) && Claimed(Rest(s + more)) == Claimed(Rest(s))
  {
    hide Claimed;
    SplitLater(s, more);
    ReadyStays(Rest(s), more);
    assert !Ready(Rest(s) + more);
  }

  lemma {:induction false} MessagesJoin(left: seq<seq<Byte>>, right: seq<seq<Byte>>)
    ensures Messages(left + right) == Messages(left) + Messages(right)
  {
    if left == [] {
      assert left + right == right;
    } else {
      assert (left + right)[1..] == left[1..] + right;
      MessagesJoin(left[1..], right);
    }
  }

  // ---- What a whole stream yields ----

  datatype Finish = Clean | Failed | Desynced(length: nat)

  datatype Outcome = Outcome(yielded: seq<Message>, finish: Finish)

  /** The one-shot reading of a whole stream; `fails` says the transport ended it with an error. */
  function OutcomeOf(s: seq<Byte>, fails: bool): Outcome {
    Outcome(Messages(Payloads(s)),
            if Oversized(Rest(s)) then Desynced(Claimed(Rest(s))) else if fails then Failed else Clean)
  }

  /** A bad frame anywhere costs its own message and no other. */
  lemma BadFrameCostsItself(before: seq<seq<Byte>>, bad: seq<Byte>, behind: seq<seq<Byte>>, rest: seq<Byte>, fails: bool)
    requires Framable(before + [bad] + behind) && Framable(before + behind) && ReadPayload(bad).Err? && !Ready(rest)
    ensures OutcomeOf(Frames(before + [bad] + behind) + rest, fails) == OutcomeOf(Frames(before + behind) + rest, fails)
  {
    hide Ready, Oversized, ReadPayload, Frames, Payloads, Rest, Messages, Claimed;
    FramesSplit(before + [bad] + behind, rest);
    FramesSplit(before + behind, rest);
    BadIsSilent(before, bad, behind);
  }

  lemma BadIsSilent(before: seq<seq<Byte>>, bad: seq<Byte>, behind: seq<seq<Byte>>)
    requires ReadPayload(bad).Err?
    ensures Messages(before + [bad] + behind) == Messages(before + behind)
  {
    hide ReadPayload;
    MessagesJoin(before + [bad], behind);
    MessagesJoin(before, [bad]);
    MessagesJoin(before, behind);
    assert [bad][1..] == [];
    assert Messages([bad]) == [];
  }

  function PayloadsOf(messages: seq<Message>): seq<seq<Byte>> {
    seq(|messages|, i requires 0 <= i < |messages| => PayloadOf(messages[i]))
  }

  lemma {:induction false} MessagesBack(messages: seq<Message>)
    ensures Messages(PayloadsOf(messages)) == messages
  {
    hide ReadPayload, PayloadOf;
    if messages != [] {
      MessagesBack(messages[1..]);
      assert PayloadsOf(messages)[1..] == PayloadsOf(messages[1..]);
      assert PayloadsOf(messages)[0] == PayloadOf(messages[0]);
    }
  }

  /** What the far end writes is what this end yields; an oversized prefix ends it there, whatever follows. */
  lemma WrittenFramesReadBack(messages: seq<Message>, rest: seq<Byte>, fails: bool)
    requires Framable(PayloadsOf(messages)) && !Ready(rest)
    ensures var outcome := OutcomeOf(Frames(PayloadsOf(messages)) + rest, fails);
            && outcome.yielded == messages
            && (outcome.finish.Desynced? <==> Oversized(rest))
            && (Oversized(rest) ==> outcome.finish.length == Claimed(rest))
  {
    hide Ready, Claimed, Messages, PayloadsOf;
    FramesSplit(PayloadsOf(messages), rest);
    MessagesBack(messages);
  }

  // ---- Event bodies ----

  function Bodies(messages: seq<Message>): seq<seq<Byte>> {
    if messages == [] then []
    else
      var last := messages[|messages| - 1];
      Bodies(messages[..|messages| - 1]) + if last.Event? then [last.body] else []
  }

  /** The stream's events with the heartbeats taken out. */
  method Events(messages: seq<Message>) returns (bodies: seq<seq<Byte>>)
    ensures bodies == Bodies(messages)
  {
    bodies := [];
    for i := 0 to |messages|
      invariant bodies == Bodies(messages[..i])
    {
      assert messages[..i + 1][..i] == messages[..i];
      if messages[i].Event? {
        bodies := bodies + [messages[i].body];
      }
    }
    assert messages[..|messages|] == messages;
  }
}
