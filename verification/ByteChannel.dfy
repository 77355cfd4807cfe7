/**
 One connection as a stream of bytes: a receive loop that arms itself again from inside an actor,
 with the connection's own state callbacks arriving as tasks in any order.
 */
module ByteChannel {
  import opened Wrappers
  import opened Bytes

  /** What a receive completes with. */
  datatype Delivery = Delivery(data: Option<seq<Byte>>, isComplete: bool, error: Option<int>)

  datatype Ending = Clean | Failed(error: int)

  /** A hop onto the actor from the connection's state handler. */
  datatype StateTask = FailInbound(error: int) | FinishInbound

  /**
   `armed` counts the receives outstanding and `handlers` holds the completions on their way to the
   actor; `received` is every completion so far, in the connection's order.
   */
  datatype State = State(
    started: bool,
    armed: nat,
    handlers: seq<Delivery>,
    tasks: multiset<StateTask>,
    received: seq<Delivery>,
    yielded: seq<seq<Byte>>,
    ended: Option<Ending>,
    peerClosed: bool,
    cancelled: bool)

  datatype Step =
    | Start
    | ReceiveCompletes(delivery: Delivery)
    | HandleReceive(which: nat)
    | ConnectionFails(error: int)
    | ConnectionCancelled
    | RunTask(task: StateTask)
    | Close
    | ConsumerStops

  const FRESH := State(false, 0, [], multiset{}, [], [], None, false, false)

  predicate Enabled(s: State, step: Step) {
    match step
    case Start => true
    case ReceiveCompletes(_) => s.armed > 0
    case HandleReceive(i) => i < |s.handlers|
    case ConnectionFails(_) => s.started
    case ConnectionCancelled => s.started && s.cancelled
    case RunTask(task) => task in s.tasks
    case Close => true
    case ConsumerStops => true
  }

  /** Finishing the stream runs its termination handler, which cancels the connection. */
  function Finish(s: State, ending: Ending): State {
    if s.ended.Some? then s else s.(ended := Some(ending), cancelled := true)
  }

  /** A finished stream drops what it is given. */
  function Yield(s: State, data: Option<seq<Byte>>): State {
    if data.Some? && data.value != [] && s.ended.None? then s.(yielded := s.yielded + [data.value]) else s
  }

  function Arm(s: State): State {
    s.(armed := s.armed + 1)
  }

  function Handle(s: State, d: Delivery): State {
    if d.error.Some? then Finish(s, Failed(d.error.value)).(cancelled := true)
    else
      var given := Yield(s, d.data);
      if d.isComplete then Finish(given, Clean).(cancelled := true, peerClosed := s.peerClosed || s.ended.None?)
      else Arm(given)
  }

  function Apply(s: State, step: Step): State
    requires Enabled(s, step)
  {
    match step
    case Start => if s.started then s else Arm(s.(started := true))
    case ReceiveCompletes(d) =>
      s.(armed := s.armed - 1, handlers := s.handlers + [d], received := s.received + [d])
    case HandleReceive(i) => Handle(s.(handlers := s.handlers[..i] + s.handlers[i + 1..]), s.handlers[i])
    case ConnectionFails(error) => s.(tasks := s.tasks + multiset{FailInbound(error)})
    case ConnectionCancelled => s.(tasks := s.tasks + multiset{FinishInbound})
    case RunTask(task) =>
      Finish(s.(tasks := s.tasks - multiset{task}), if task.FailInbound? then Failed(task.error) else Clean)
    case Close => s.(cancelled := true)
    case ConsumerStops => Finish(s, Clean)
  }

  // ---- Bytes ----

  function BytesOf(d: Delivery): seq<Byte> {
    if d.error.None? && d.data.Some? then d.data.value else []
  }

  function Arrived(received: seq<Delivery>): seq<Byte> {
    if received == [] then [] else Arrived(received[..|received| - 1]) + BytesOf(received[|received| - 1])
  }

  function Visible(yielded: seq<seq<Byte>>): seq<Byte> {
    if yielded == [] then [] else Visible(yielded[..|yielded| - 1]) + yielded[|yielded| - 1]
  }

  // ---- What every step keeps ----

  ghost predicate Inv(s: State) {
    // One receive outstanding or one completion on its way: never two.
    && s.armed + |s.handlers| <= 1
    && (s.armed + |s.handlers| > 0 ==> s.started)
    && (s.ended.Some? ==> s.cancelled)
    && (s.peerClosed ==> s.ended == Some(Clean) && s.armed == 0 && s.handlers == [] && Visible(s.yielded) == Arrived(s.received))
    && (s.peerClosed ==> s.started)
    && (s.ended.None? ==> Visible(s.yielded) + Arrived(s.handlers) == Arrived(s.received))
    && (s.ended.None? && s.started ==> s.armed + |s.handlers| == 1)
    && Visible(s.yielded) <= Arrived(s.received)
  }

  lemma ArrivedMore(received: seq<Delivery>, d: Delivery)
    ensures Arrived(received + [d]) == Arrived(received) + BytesOf(d)
  {
    assert (received + [d])[..|received|] == received;
  }

  lemma ArrivedOne(d: Delivery)
    ensures Arrived([]) == [] && Arrived([d]) == BytesOf(d)
  {
    ArrivedMore([], d);
    assert [] + [d] == [d];
  }

  lemma ReceiveKeeps(s: State, d: Delivery)
    requires Inv(s) && Enabled(s, ReceiveCompletes(d))
    ensures Inv(Apply(s, ReceiveCompletes(d)))
  {
    hide Arrived, Visible, BytesOf;
    assert s.handlers == [] && s.handlers + [d] == [d];
    ArrivedOne(d);
    ArrivedMore(s.received, d);
  }

  lemma YieldShows(s: State, d: Delivery)
    requires s.ended.None? && d.error.None?
    ensures Visible(Yield(s, d.data).yielded) == Visible(s.yielded) + BytesOf(d)
  {
    var n := Yield(s, d.data);
    if d.data.Some? && d.data.value != [] {
      assert n.yielded[..|n.yielded| - 1] == s.yielded;
    }
  }

  lemma HandleKeeps(s: State, i: nat)
    requires Inv(s) && Enabled(s, HandleReceive(i))
    ensures Inv(Apply(s, HandleReceive(i)))
  {
    hide Arrived, Visible;
    var d := s.handlers[0];
    assert i == 0 && s.handlers == [d] && s.handlers[..0] + s.handlers[1..] == [];
    ArrivedOne(d);
    if d.error.None? && s.ended.None? {
      YieldShows(s.(handlers := []), d);
    }
  }

  lemma OtherKeeps(s: State, step: Step)
    requires Inv(s) && Enabled(s, step) && !step.ReceiveCompletes? && !step.HandleReceive?
    ensures Inv(Apply(s, step))
  {
    hide Arrived, Visible;
  }

  lemma StepKeeps(s: State, step: Step)
    requires Inv(s) && Enabled(s, step)
    ensures Inv(Apply(s, step))
  {
    hide Inv, Enabled, Apply;
    match step
    case ReceiveCompletes(d) => ReceiveKeeps(s, d);
    case HandleReceive(i) => HandleKeeps(s, i);
    case _ => OtherKeeps(s, step);
  }

  // ---- Whole runs ----

  predicate CanRun(s: State, steps: seq<Step>)
    decreases |steps|
  {
    steps == [] || (Enabled(s, steps[0]) && CanRun(Apply(s, steps[0]), steps[1..]))
  }

  function After(s: State, steps: seq<Step>): State
    requires CanRun(s, steps)
    decreases |steps|
  {
    if steps == [] then s else After(Apply(s, steps[0]), steps[1..])
  }

  lemma {:induction false} RunKeeps(s: State, steps: seq<Step>)
    requires Inv(s) && CanRun(s, steps)
    ensures Inv(After(s, steps))
    decreases |steps|
  {
    if steps != [] {
      hide Inv, Apply, Enabled;
      StepKeeps(s, steps[0]);
      RunKeeps(Apply(s, steps[0]), steps[1..]);
    }
  }

  lemma Reached(steps: seq<Step>)
    requires CanRun(FRESH, steps)
    ensures Inv(After(FRESH, steps))
  {
    RunKeeps(FRESH, steps);
  }

  /** Whatever order the tasks run in, the consumer sees the front of what arrived; while its stream is open, all that was handled. */
  lemma BytesInOrder(steps: seq<Step>)
    requires CanRun(FRESH, steps)
    ensures var s := After(FRESH, steps);
            && Visible(s.yielded) <= Arrived(s.received)
            && s.armed + |s.handlers| <= 1
            && (s.ended.None? ==> Visible(s.yielded) + Arrived(s.handlers) == Arrived(s.received))
  {
    Reached(steps);
  }

  /** No way of ending the stream leaves the connection open, and a peer's close loses no byte before it. */
  lemma EndedMeansReleased(steps: seq<Step>)
    requires CanRun(FRESH, steps)
    ensures var s := After(FRESH, steps);
            && (s.ended.Some? ==> s.cancelled)
            && (s.peerClosed ==> s.ended == Some(Clean) && Visible(s.yielded) == Arrived(s.received))
  {
    Reached(steps);
  }

  /** The loop never stalls: while the stream is open a receive is outstanding, or a completion is on its way to arm the next. */
  lemma LoopStaysArmed(steps: seq<Step>)
    requires CanRun(FRESH, steps)
    ensures var s := After(FRESH, steps); s.started && s.ended.None? ==> s.armed + |s.handlers| == 1
  {
    Reached(steps);
  }

  /** An ended stream shows nothing more, and its ending stands. */
  lemma {:induction false} EndingStands(s: State, steps: seq<Step>)
    requires CanRun(s, steps) && s.ended.Some?
    ensures var n := After(s, steps); n.ended == s.ended && n.yielded == s.yielded
    decreases |steps|
  {
    if steps != [] {
      EndingStands(Apply(s, steps[0]), steps[1..]);
    }
  }

  // ---- What can happen, and what ends a stream ----

  /** What the connection, its callbacks and the consumer may do is never held back, and puts just this on its way. */
  lemma CallbacksArrive(s: State, d: Delivery, error: int)
    ensures Enabled(s, Start) && Enabled(s, Close) && Enabled(s, ConsumerStops)
    ensures Enabled(s, ReceiveCompletes(d)) <==> s.armed > 0
    ensures Enabled(s, ReceiveCompletes(d)) ==>
      Apply(s, ReceiveCompletes(d)) == s.(armed := s.armed - 1, handlers := s.handlers + [d], received := s.received + [d])
    ensures forall i: nat :: Enabled(s, HandleReceive(i)) <==> i < |s.handlers|
    ensures Enabled(s, ConnectionFails(error)) <==> s.started
    ensures s.started ==> Apply(s, ConnectionFails(error)) == s.(tasks := s.tasks + multiset{FailInbound(error)})
    ensures Enabled(s, ConnectionCancelled) <==> s.started && s.cancelled
    ensures s.started && s.cancelled ==> Apply(s, ConnectionCancelled) == s.(tasks := s.tasks + multiset{FinishInbound})
    ensures forall task :: Enabled(s, RunTask(task)) <==> task in s.tasks
    ensures Apply(s, Close) == s.(cancelled := true)
    ensures !s.started ==> Apply(s, Start) == s.(started := true, armed := s.armed + 1)
  {
  }

  /** The ending that a step brings to a stream still open: an error's own, or a clean one. */
  function Brings(s: State, step: Step): Option<Ending>
    requires Enabled(s, step)
  {
    match step
    case HandleReceive(i) =>
      var d := s.handlers[i];
      if d.error.Some? then Some(Failed(d.error.value)) else if d.isComplete then Some(Clean) else None
    case RunTask(FailInbound(error)) => Some(Failed(error))
    case RunTask(FinishInbound) => Some(Clean)
    case ConsumerStops => Some(Clean)
    case _ => None
  }

  lemma HandleBrings(s: State, d: Delivery)
    requires s.ended.None?
    ensures Handle(s, d).ended ==
      if d.error.Some? then Some(Failed(d.error.value)) else if d.isComplete then Some(Clean) else None
    ensures Handle(s, d).yielded ==
      if d.error.None? && d.data.Some? && d.data.value != [] then s.yielded + [d.data.value] else s.yielded
    ensures d.error.None? && d.isComplete ==> Handle(s, d).peerClosed
  {
  }

  /** An open stream ends just so, and shows the data of a completion without an error, the last one's included. */
  lemma StepBrings(s: State, step: Step)
    requires Enabled(s, step) && s.ended.None?
    ensures Apply(s, step).ended == Brings(s, step)
    ensures Apply(s, step).yielded ==
      if step.HandleReceive? && s.handlers[step.which].error.None? && s.handlers[step.which].data.Some? &&
        s.handlers[step.which].data.value != [] then s.yielded + [s.handlers[step.which].data.value]
      else s.yielded
    ensures step.HandleReceive? && Brings(s, step) == Some(Clean) ==> Apply(s, step).peerClosed
  {
    hide Handle;
    if step.HandleReceive? {
      var i := step.which;
      HandleBrings(s.(handlers := s.handlers[..i] + s.handlers[i + 1..]), s.handlers[i]);
    }
  }

  lemma {:induction false} RunSplits(s: State, first: seq<Step>, second: seq<Step>)
    requires CanRun(s, first + second)
    ensures CanRun(s, first) && CanRun(After(s, first), second)
    ensures After(s, first + second) == After(After(s, first), second)
    decreases |first|
  {
    hide Enabled, Apply;
    if first == [] {
      assert first + second == second;
    } else {
      assert (first + second)[1..] == first[1..] + second;
      RunSplits(Apply(s, first[0]), first[1..], second);
    }
  }

  lemma RunOne(s: State, step: Step)
    requires CanRun(s, [step])
    ensures Enabled(s, step) && After(s, [step]) == Apply(s, step)
  {
    hide Enabled, Apply;
    assert [step][1..] == [];
  }

  /**
   In every run that ends the stream, one step did, while it was open, and gave it the ending it has:
   a failure is the error of a receive or of the connection, and only a complete receive without one,
   the connection's cancelling or the consumer's stop ends it clean.
   */
  lemma {:induction false} EndingIsBrought(steps: seq<Step>) returns (i: nat)
    requires CanRun(FRESH, steps) && After(FRESH, steps).ended.Some?
    ensures i < |steps| && CanRun(FRESH, steps[..i]) && Enabled(After(FRESH, steps[..i]), steps[i])
    ensures After(FRESH, steps[..i]).ended.None?
    ensures After(FRESH, steps).ended == Brings(After(FRESH, steps[..i]), steps[i])
    decreases |steps|
  {
    i := |steps| - 1;
    var last := |steps| - 1;
    assert steps == steps[..last] + [steps[last]];
    RunSplits(FRESH, steps[..last], [steps[last]]);
    var s := After(FRESH, steps[..last]);
    RunOne(s, steps[last]);
    if s.ended.Some? {
      EndingStands(s, [steps[last]]);
      i := EndingIsBrought(steps[..last]);
      assert steps[..last][..i] == steps[..i];
    } else {
      StepBrings(s, steps[last]);
    }
  }

  // ---- Why starting twice must not arm twice ----

  /** Two completions on their way at once can be handled the other way round, so the bytes come out of order. */
  lemma TwoLoopsReorder(s: State, first: seq<Byte>, second: seq<Byte>)
    requires first != [] && second != [] && s.ended.None? && s.yielded == []
    requires s.handlers == [Delivery(Some(first), false, None), Delivery(Some(second), false, None)]
    ensures var later := Apply(s, HandleReceive(1));
            Enabled(later, HandleReceive(0)) && Apply(later, HandleReceive(0)).yielded == [second, first]
  {
    assert s.handlers[..1] + s.handlers[2..] == [s.handlers[0]];
  }
}
