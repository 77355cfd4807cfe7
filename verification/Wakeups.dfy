/**
 The output inbox and its one-slot wakeup: driver threads append and then wake, one consumer waits,
 takes and ingests, and an exit or a close ends it with a last take. Any interleaving is a run.
 */
module Wakeups {
  import opened Wrappers

  /** Where the consumer's loop stands. */
  datatype Phase<C> =
    | Waiting
    | Woken
    | Holding(batch: seq<C>)
    | Draining
    | HoldingTail(tail: seq<C>)
    | Done
    | Stopped

  /**
   `appended` is every chunk ever accepted and `ingested` every chunk the consumer has fed on.
   `owed` counts the appends whose wake is still to be raised; `slot` is the coalesced signal;
   `ended` is how much had been appended when the stream was finished.
   */
  datatype State<C> = State(
    appended: seq<C>,
    inbox: seq<C>,
    ingested: seq<C>,
    owed: nat,
    slot: bool,
    closed: bool,
    ended: Option<nat>,
    cancelled: bool,
    phase: Phase<C>)

  datatype Step<C> =
    | Append(chunk: C)
    | Wake
    | Finish
    | CancelTask
    | Resume
    | Take
    | Ingest
    | LoopEnds
    | Guard
    | IngestTail

  function Start<C>(): State<C> {
    State([], [], [], 0, false, false, None, false, Waiting)
  }

  predicate Enabled<C>(s: State<C>, step: Step<C>) {
    match step
    case Append(_) => true
    case Wake => s.owed > 0
    case Finish => true
    case CancelTask => true
    case Resume => s.phase.Waiting? && s.slot
    case Take => s.phase.Woken?
    case Ingest => s.phase.Holding?
    case LoopEnds => s.phase.Waiting? && !s.slot && s.closed
    case Guard => s.phase.Draining?
    case IngestTail => s.phase.HoldingTail?
  }

  function Apply<C>(s: State<C>, step: Step<C>): State<C>
    requires Enabled(s, step)
  {
    match step
    case Append(chunk) => s.(appended := s.appended + [chunk], inbox := s.inbox + [chunk], owed := s.owed + 1)
    case Wake => s.(owed := s.owed - 1, slot := s.slot || !s.closed)
    case Finish => s.(closed := true, ended := if s.ended.Some? then s.ended else Some(|s.appended|))
    case CancelTask => s.(closed := true, cancelled := true)
    case Resume => s.(slot := false, phase := Woken)
    case Take => s.(inbox := [], phase := Holding(s.inbox))
    case Ingest => s.(ingested := s.ingested + s.phase.batch, phase := Waiting)
    case LoopEnds => s.(phase := Draining)
    case Guard => if s.cancelled then s.(phase := Stopped) else s.(inbox := [], phase := HoldingTail(s.inbox))
    case IngestTail => s.(ingested := s.ingested + s.phase.tail, phase := Done)
  }

  // ---- What every step keeps ----

  function InHand<C>(phase: Phase<C>): seq<C> {
    match phase
    case Holding(batch) => batch
    case HoldingTail(tail) => tail
    case _ => []
  }

  ghost predicate Inv<C>(s: State<C>) {
    && s.appended == s.ingested + InHand(s.phase) + s.inbox
    // Unread output has a signal pending, one about to be raised, or a consumer on its way.
    && (s.inbox != [] ==> s.slot || s.owed > 0 || s.phase.Woken? || s.closed)
    && (s.closed ==> s.ended.Some? || s.cancelled)
    && (s.ended.Some? ==> s.closed && s.ended.value <= |s.appended|)
    && (s.phase.Draining? || s.phase.HoldingTail? || s.phase.Done? || s.phase.Stopped? ==> s.closed)
    && (s.phase.Stopped? ==> s.cancelled)
    // The last take comes after the finish, so it leaves nothing from before it behind.
    && (s.phase.HoldingTail? || s.phase.Done? ==>
          s.ended.Some? && s.ended.value <= |s.ingested| + |InHand(s.phase)|)
  }

  lemma StepKeeps<C>(s: State<C>, step: Step<C>)
    requires Inv(s) && Enabled(s, step)
    ensures Inv(Apply(s, step))
  {
    var n := Apply(s, step);
    match step
    case Append(chunk) => assert n.appended == n.ingested + InHand(n.phase) + (s.inbox + [chunk]);
    case _ =>
  }

  // ---- Whole runs ----

  predicate CanRun<C>(s: State<C>, steps: seq<Step<C>>)
    decreases |steps|
  {
    steps == [] || (Enabled(s, steps[0]) && CanRun(Apply(s, steps[0]), steps[1..]))
  }

  function After<C>(s: State<C>, steps: seq<Step<C>>): State<C>
    requires CanRun(s, steps)
    decreases |steps|
  {
    if steps == [] then s else After(Apply(s, steps[0]), steps[1..])
  }

  lemma {:induction false} RunKeeps<C>(s: State<C>, steps: seq<Step<C>>)
    requires Inv(s) && CanRun(s, steps)
    ensures Inv(After(s, steps))
    decreases |steps|
  {
    if steps != [] {
      hide Inv, Apply, Enabled;
      StepKeeps(s, steps[0]);
      RunKeeps(Apply(s, steps[0]), steps[1..]);
    }
  }

  lemma Reached<C>(steps: seq<Step<C>>)
    requires CanRun(Start(), steps)
    ensures Inv(After(Start<C>(), steps))
  {
    RunKeeps(Start(), steps);
  }

  /** What has been ingested is always the front of what was appended: nothing lost, doubled or out of order. */
  lemma IngestedInOrder<C>(steps: seq<Step<C>>)
    requires CanRun(Start(), steps)
    ensures var s := After(Start<C>(), steps); s.ingested <= s.appended && s.appended == s.ingested + InHand(s.phase) + s.inbox
  {
    Reached(steps);
  }

  /** A consumer that is parked with no signal, none about to be raised and no end to come has nothing unread. */
  lemma ParkedMeansRead<C>(steps: seq<Step<C>>)
    requires CanRun(Start(), steps)
    ensures var s := After(Start<C>(), steps);
            s.phase.Waiting? && !s.slot && s.owed == 0 && !s.closed ==> s.inbox == [] && s.ingested == s.appended
  {
    Reached(steps);
  }

  /** A loop that ran to its end has ingested everything appended before the stream was finished. */
  lemma DoneMeansDelivered<C>(steps: seq<Step<C>>)
    requires CanRun(Start(), steps)
    ensures var s := After(Start<C>(), steps);
            s.phase.Done? ==>
              && s.ended.Some? && s.ended.value <= |s.ingested| <= |s.appended|
              && s.appended[..s.ended.value] <= s.ingested <= s.appended
  {
    Reached(steps);
  }

  // ---- What the history says ----

  /** The chunks that a run's appends brought, in order. */
  function Chunks<C>(steps: seq<Step<C>>): seq<C> {
    if steps == [] then []
    else
      var last := steps[|steps| - 1];
      Chunks(steps[..|steps| - 1]) + if last.Append? then [last.chunk] else []
  }

  /** How many chunks had come when the stream was first finished. */
  function FirstFinish<C>(steps: seq<Step<C>>): Option<nat> {
    if steps == [] then None
    else
      var rest := steps[..|steps| - 1];
      if FirstFinish(rest).Some? then FirstFinish(rest)
      else if steps[|steps| - 1].Finish? then Some(|Chunks(rest)|)
      else None
  }

  lemma {:induction false} RunSplits<C>(s: State<C>, first: seq<Step<C>>, second: seq<Step<C>>)
    requires CanRun(s, first + second)
    ensures CanRun(s, first) && CanRun(After(s, first), second)
    ensures After(s, first + second) == After(After(s, first), second)
    decreases |first|
  {
    hide Enabled, Apply;
    if first == [] {
      assert first + second == second;
    } else {
      assert (first + second)[1..] == first[1..] + second;
      RunSplits(Apply(s, first[0]), first[1..], second);
    }
  }

  lemma RunOne<C>(s: State<C>, step: Step<C>)
    requires CanRun(s, [step])
    ensures Enabled(s, step) && After(s, [step]) == Apply(s, step)
  {
    hide Enabled, Apply;
    assert [step][1..] == [];
  }

  /** In every run the state's history is the run's: what its appends brought, and where its first finish fell among them. */
  lemma {:induction false} HistoryKept<C>(steps: seq<Step<C>>)
    requires CanRun(Start(), steps)
    ensures After(Start<C>(), steps).appended == Chunks(steps)
    ensures After(Start<C>(), steps).ended == FirstFinish(steps)
    decreases |steps|
  {
    if steps != [] {
      var last := |steps| - 1;
      assert steps == steps[..last] + [steps[last]];
      RunSplits(Start(), steps[..last], [steps[last]]);
      RunOne(After(Start<C>(), steps[..last]), steps[last]);
      HistoryKept(steps[..last]);
    }
  }

  /** The driver may always append, finish and cancel; each append owes one wake, and a wake fills the slot unless the stream is closed. */
  lemma DriverSteps<C>(s: State<C>, chunk: C)
    ensures Enabled(s, Append(chunk)) && Enabled(s, Finish) && Enabled(s, CancelTask)
    ensures Apply(s, Append(chunk)).owed == s.owed + 1 && Apply(s, Append(chunk)).inbox == s.inbox + [chunk]
    ensures Enabled(s, Wake) <==> s.owed > 0
    ensures s.owed > 0 ==> Apply(s, Wake).slot == (s.slot || !s.closed)
    ensures Apply(s, Finish).closed && Apply(s, CancelTask).closed && Apply(s, CancelTask).cancelled
  {
  }

  /** The consumer wakes on the slot alone, and takes all there is; a loop cancelled before its last take leaves it there. */
  lemma ConsumerSteps<C>(s: State<C>)
    ensures Enabled(s, Resume) <==> s.phase.Waiting? && s.slot
    ensures Enabled(s, Take) <==> s.phase.Woken?
    ensures s.phase.Woken? ==> Apply(s, Take).phase == Holding(s.inbox) && Apply(s, Take).inbox == []
    ensures Enabled(s, LoopEnds) <==> s.phase.Waiting? && !s.slot && s.closed
    ensures s.phase.Draining? && s.cancelled ==> Apply(s, Guard).phase == Stopped && Apply(s, Guard).inbox == s.inbox
    ensures s.phase.Draining? && !s.cancelled ==> Apply(s, Guard).phase == HoldingTail(s.inbox) && Apply(s, Guard).inbox == []
  {
  }

  // ---- Every run comes to rest ----

  /** The steps the consumer and the owed wakes take by themselves. */
  predicate Internal<C>(step: Step<C>) {
    !step.Append? && !step.Finish? && !step.CancelTask?
  }

  function Rank<C>(phase: Phase<C>): nat {
    match phase
    case Woken => 5
    case Holding(_) => 4
    case Waiting => 3
    case Draining => 2
    case HoldingTail(_) => 1
    case Done => 0
    case Stopped => 0
  }

  function Work<C>(s: State<C>): nat {
    5 * s.owed + (if s.slot then 4 else 0) + Rank(s.phase)
  }

  /** With nothing new coming in, only so many steps are left. */
  lemma WorkShrinks<C>(s: State<C>, step: Step<C>)
    requires Enabled(s, step) && Internal(step)
    ensures Work(Apply(s, step)) < Work(s)
  {
  }

  ghost predicate Resting<C(!new)>(s: State<C>) {
    forall step: Step<C> :: Internal(step) ==> !Enabled(s, step)
  }

  /** And when none is left, all has been ingested; or the loop is over, with all from before its end. */
  lemma RestMeansDelivered<C(!new)>(steps: seq<Step<C>>)
    requires CanRun(Start(), steps) && Resting(After(Start<C>(), steps))
    ensures var s := After(Start<C>(), steps);
            || (s.phase.Waiting? && !s.closed && s.ingested == s.appended)
            || (s.phase.Done? && s.ended.Some? && s.ended.value <= |s.appended| && s.appended[..s.ended.value] <= s.ingested)
            || (s.phase.Stopped? && s.cancelled)
  {
    Reached(steps);
    DoneMeansDelivered(steps);
    var s := After(Start<C>(), steps);
    var wake: Step<C> := Wake;
    var resume: Step<C> := Resume;
    var take: Step<C> := Take;
    var ingest: Step<C> := Ingest;
    var loopEnds: Step<C> := LoopEnds;
    var guard: Step<C> := Guard;
    var ingestTail: Step<C> := IngestTail;
    assert !Enabled(s, wake) && !Enabled(s, resume) && !Enabled(s, take) && !Enabled(s, ingest);
    assert !Enabled(s, loopEnds) && !Enabled(s, guard) && !Enabled(s, ingestTail);
  }

  // ---- Why the last take is needed ----

  /** An append whose wake comes after the finish: the loop has no signal left for it, and ends with it unread. */
  const LATE_TAIL: seq<Step<char>> := [Append('a'), Finish, Wake, LoopEnds]

  lemma TailNeedsTheLastTake()
    ensures CanRun(Start(), LATE_TAIL)
    ensures var s := After(Start(), LATE_TAIL);
            s.phase.Draining? && s.ended == Some(1) && s.ingested == [] && s.inbox == ['a'] && !s.slot && s.owed == 0
  {
    var s0: State<char> := Start();
    var s1 := Apply(s0, Append('a'));
    var s2 := Apply(s1, Finish);
    var s3 := Apply(s2, Wake);
    var s4 := Apply(s3, LoopEnds);
    var steps := LATE_TAIL;
    assert steps[1..][1..] == steps[2..] && steps[2..][1..] == steps[3..] && steps[3..][1..] == [];
    assert CanRun(s4, []) && After(s4, []) == s4;
    assert CanRun(s3, steps[3..]) && After(s3, steps[3..]) == s4;
    assert CanRun(s2, steps[2..]) && After(s2, steps[2..]) == s4;
    assert CanRun(s1, steps[1..]) && After(s1, steps[1..]) == s4;
  }
}
