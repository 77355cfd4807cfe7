/**
 The multicast hub, at the grain of its lock: each locked block is one step, and so is each call on
 one child's continuation outside it. Any interleaving of the steps is a run.
 */
module Broadcast {
  import opened Wrappers

  // ---- The locked roster ----

  /** Which children are live, by id, and whether the roster is closed. A child is named by its subscription. */
  datatype Roster = Roster(children: map<nat, nat>, nextID: nat, finished: bool)

  const EMPTY_ROSTER := Roster(map[], 0, false)

  function Admitted(r: Roster): Option<nat> {
    if r.finished then None else Some(r.nextID)
  }

  function Joined(r: Roster, child: nat): Roster {
    if r.finished then r else Roster(r.children[r.nextID := child], r.nextID + 1, false)
  }

  function Left(r: Roster, id: nat): Roster {
    r.(children := r.children - {id})
  }

  function Finished(r: Roster): Roster {
    if r.finished then r else Roster(map[], r.nextID, true)
  }

  // ---- The whole system ----

  /** One child stream: the id it holds in the roster, what was accepted into it, and whether it still accepts. */
  datatype Stream = Stream(id: Option<nat>, received: seq<nat>, open: bool)

  /** One call of yield: who made it, with what, to which children, and how many subscriptions there were. */
  datatype Ticket<E> = Ticket(yielder: nat, element: E, audience: set<nat>, since: nat)

  /** A yield or a finish with children still to be visited. */
  datatype Flight = Flight(ticket: nat, todo: seq<nat>)

  datatype State<E> = State(
    roster: Roster,
    streams: seq<Stream>,
    tickets: seq<Ticket<E>>,
    flights: map<nat, Flight>,
    closings: map<nat, seq<nat>>)

  datatype Step<E> =
    | Subscribe
    | YieldBegin(yielder: nat, element: E, order: seq<nat>)
    | YieldDeliver(yielder: nat)
    | YieldEnd(yielder: nat)
    | FinishBegin(finisher: nat, order: seq<nat>)
    | FinishDeliver(finisher: nat)
    | FinishEnd(finisher: nat)
    | Cancel(child: nat)
    | HandlerRuns(child: nat)

  function Start<E>(): State<E> {
    State(EMPTY_ROSTER, [], [], map[], map[])
  }

  predicate Distinct(s: seq<nat>) {
    forall i, j :: 0 <= i < j < |s| ==> s[i] != s[j]
  }

  function Members(s: seq<nat>): set<nat> {
    set x | x in s
  }

  /** A dictionary gives its values in an order of its own. */
  predicate Enumerates(order: seq<nat>, children: map<nat, nat>) {
    Distinct(order) && Members(order) == children.Values
  }

  predicate Enabled<E(==)>(s: State<E>, step: Step<E>) {
    match step
    case Subscribe => true
    case YieldBegin(y, _, order) => y !in s.flights && Enumerates(order, s.roster.children)
    case YieldDeliver(y) => y in s.flights && s.flights[y].todo != [] && s.flights[y].todo[0] < |s.streams|
    case YieldEnd(y) => y in s.flights && s.flights[y].todo == []
    case FinishBegin(f, order) =>
      f !in s.closings && if s.roster.finished then order == [] else Enumerates(order, s.roster.children)
    case FinishDeliver(f) => f in s.closings && s.closings[f] != [] && s.closings[f][0] < |s.streams|
    case FinishEnd(f) => f in s.closings && s.closings[f] == []
    case Cancel(k) => k < |s.streams| && s.streams[k].open
    case HandlerRuns(k) => k < |s.streams| && !s.streams[k].open && s.streams[k].id.Some?
  }

  /** A closed stream drops what it is given. */
  function Given(stream: Stream, ticket: nat): Stream {
    if stream.open then stream.(received := stream.received + [ticket]) else stream
  }

  function Apply<E>(s: State<E>, step: Step<E>): State<E>
    requires Enabled(s, step)
  {
    match step
    case Subscribe =>
      s.(roster := Joined(s.roster, |s.streams|),
         streams := s.streams + [Stream(Admitted(s.roster), [], !s.roster.finished)])
    case YieldBegin(y, element, order) =>
      s.(tickets := s.tickets + [Ticket(y, element, Members(order), |s.streams|)],
         flights := s.flights[y := Flight(|s.tickets|, order)])
    case YieldDeliver(y) =>
      var flight := s.flights[y];
      var k := flight.todo[0];
      s.(streams := s.streams[k := Given(s.streams[k], flight.ticket)],
         flights := s.flights[y := flight.(todo := flight.todo[1..])])
    case YieldEnd(y) => s.(flights := s.flights - {y})
    case FinishBegin(f, order) =>
      s.(roster := Finished(s.roster), closings := s.closings[f := order])
    case FinishDeliver(f) =>
      var k := s.closings[f][0];
      s.(streams := s.streams[k := s.streams[k].(open := false)],
         closings := s.closings[f := s.closings[f][1..]])
    case FinishEnd(f) => s.(closings := s.closings - {f})
    case Cancel(k) => s.(streams := s.streams[k := s.streams[k].(open := false)])
    case HandlerRuns(k) => s.(roster := Left(s.roster, s.streams[k].id.value))
  }

  // ---- What every step keeps ----

  /** The roster names streams by ids of their own, and no id is given out twice. */
  ghost predicate RosterSound<E(!new)>(s: State<E>) {
    && (forall id :: id in s.roster.children ==>
          s.roster.children[id] < |s.streams| && s.streams[s.roster.children[id]].id == Some(id))
    && (forall k :: 0 <= k < |s.streams| ==> s.streams[k].id.Some? ==> s.streams[k].id.value < s.roster.nextID)
    && (forall j, k :: 0 <= j < k < |s.streams| ==> s.streams[j].id.Some? && s.streams[k].id.Some? ==>
          s.streams[j].id.value < s.streams[k].id.value)
    && (s.roster.finished ==> s.roster.children == map[])
  }

  ghost predicate Closing<E(!new)>(s: State<E>, k: nat) {
    exists f :: f in s.closings && k in s.closings[f]
  }

  /** A stream that still accepts is in the roster, or some finish has yet to reach it. */
  ghost predicate OpenHeld<E(!new)>(s: State<E>) {
    forall k: nat :: k < |s.streams| && s.streams[k].open ==> k in s.roster.children.Values || Closing(s, k)
  }

  ghost predicate ClosingsSound<E(!new)>(s: State<E>) {
    forall f, i :: f in s.closings && 0 <= i < |s.closings[f]| ==> s.closings[f][i] < |s.streams|
  }

  ghost predicate TicketsSound<E(!new)>(s: State<E>) {
    forall t :: 0 <= t < |s.tickets| ==>
      s.tickets[t].since <= |s.streams| && forall k :: k in s.tickets[t].audience ==> k < s.tickets[t].since
  }

  ghost predicate FlightSound<E(!new)>(s: State<E>, y: nat, flight: Flight) {
    && flight.ticket < |s.tickets| && s.tickets[flight.ticket].yielder == y
    && Distinct(flight.todo)
    && (forall i :: 0 <= i < |flight.todo| ==> flight.todo[i] in s.tickets[flight.ticket].audience)
    && (forall t :: flight.ticket < t < |s.tickets| ==> s.tickets[t].yielder != y)
  }

  ghost predicate FlightsSound<E(!new)>(s: State<E>) {
    forall y :: y in s.flights ==> FlightSound(s, y, s.flights[y])
  }

  /** The yield has yet to visit this child. */
  predicate Awaits<E>(s: State<E>, t: nat, k: nat)
    requires t < |s.tickets|
  {
    var y := s.tickets[t].yielder;
    y in s.flights && s.flights[y].ticket == t && k in s.flights[y].todo
  }

  /** A child has what was meant for it, once; or it closed; or the yield has yet to reach it. */
  ghost predicate DeliveredSound<E(!new)>(s: State<E>) {
    forall t: nat, k: nat {:trigger Awaits(s, t, k)} :: t < |s.tickets| && k in s.tickets[t].audience && k < |s.streams| ==>
      if t in s.streams[k].received then !Awaits(s, t, k) else Awaits(s, t, k) || !s.streams[k].open
  }

  ghost predicate StreamSound<E(!new)>(s: State<E>, k: nat)
    requires k < |s.streams|
  {
    var received := s.streams[k].received;
    && (forall i :: 0 <= i < |received| ==> received[i] < |s.tickets| && k in s.tickets[received[i]].audience)
    && (forall i, j :: 0 <= i < j < |received| ==>
          received[i] != received[j] &&
          (s.tickets[received[i]].yielder == s.tickets[received[j]].yielder ==> received[i] < received[j]))
  }

  ghost predicate StreamsSound<E(!new)>(s: State<E>) {
    forall k: nat :: k < |s.streams| ==> StreamSound(s, k)
  }

  ghost predicate Inv<E(!new)>(s: State<E>) {
    && RosterSound(s) && OpenHeld(s) && ClosingsSound(s)
    && TicketsSound(s) && FlightsSound(s) && DeliveredSound(s) && StreamsSound(s)
  }

  /** The roster's side of the invariant rests on the streams' ids and on which of them accept. */
  lemma RosterSideStays<E(!new)>(s: State<E>, n: State<E>)
    requires RosterSound(s) && OpenHeld(s) && ClosingsSound(s)
    requires n.roster == s.roster && n.closings == s.closings && |n.streams| == |s.streams|
    requires forall k :: 0 <= k < |s.streams| ==> n.streams[k].id == s.streams[k].id && n.streams[k].open == s.streams[k].open
    ensures RosterSound(n) && OpenHeld(n) && ClosingsSound(n)
  {
    assert forall k :: Closing(s, k) ==> Closing(n, k);
  }

  lemma SubscribeNames<E(!new)>(s: State<E>)
    requires RosterSound(s)
    ensures RosterSound(Apply(s, Subscribe))
  {
    var n, born := Apply(s, Subscribe), |s.streams|;
    assert forall k :: 0 <= k < born ==> n.streams[k] == s.streams[k];
  }

  lemma SubscribeHolds<E(!new)>(s: State<E>)
    requires RosterSound(s) && OpenHeld(s)
    ensures OpenHeld(Apply(s, Subscribe))
  {
    var n, born := Apply(s, Subscribe), |s.streams|;
    forall k: nat | k < |n.streams| && n.streams[k].open
      ensures k in n.roster.children.Values || Closing(n, k)
    {
      if k < born {
        if k in s.roster.children.Values {
          var id :| id in s.roster.children && s.roster.children[id] == k;
          assert id != s.roster.nextID;
          assert n.roster.children[id] == k;
        } else {
          var f :| f in s.closings && k in s.closings[f];
          assert f in n.closings && k in n.closings[f];
        }
      } else {
        assert n.roster.children[s.roster.nextID] == born;
      }
    }
  }

  lemma SubscribeRoster<E(!new)>(s: State<E>)
    requires RosterSound(s) && OpenHeld(s) && ClosingsSound(s)
    ensures var n := Apply(s, Subscribe); RosterSound(n) && OpenHeld(n) && ClosingsSound(n)
  {
    hide RosterSound, OpenHeld;
    SubscribeNames(s);
    SubscribeHolds(s);
  }

  lemma SubscribeKeeps<E(!new)>(s: State<E>)
    requires Inv(s)
    ensures Inv(Apply(s, Subscribe))
  {
    SubscribeRoster(s);
    hide RosterSound, OpenHeld, ClosingsSound;
    var n, born := Apply(s, Subscribe), |s.streams|;
    assert forall k :: 0 <= k < born ==> n.streams[k] == s.streams[k];
    forall t: nat, k: nat | t < |n.tickets| && k in n.tickets[t].audience && k < |n.streams|
      ensures if t in n.streams[k].received then !Awaits(n, t, k) else Awaits(n, t, k) || !n.streams[k].open
    {
      assert k < s.tickets[t].since;
      assert Awaits(n, t, k) == Awaits(s, t, k);
    }
    forall k: nat | k < |n.streams|
      ensures StreamSound(n, k)
    {
      if k < born {
        assert StreamSound(s, k);
      }
    }
    forall y | y in n.flights
      ensures FlightSound(n, y, n.flights[y])
    {
      assert FlightSound(s, y, s.flights[y]);
    }
  }

  lemma NewTicketSound<E(!new)>(s: State<E>, step: Step<E>)
    requires RosterSound(s) && TicketsSound(s) && step.YieldBegin? && Enabled(s, step)
    ensures TicketsSound(Apply(s, step))
  {
    var n, born := Apply(s, step), |s.tickets|;
    assert forall t :: 0 <= t < born ==> n.tickets[t] == s.tickets[t];
    forall k | k in n.tickets[born].audience
      ensures k < |s.streams|
    {
      var id :| id in s.roster.children && s.roster.children[id] == k;
    }
  }

  lemma NewFlightSound<E(!new)>(s: State<E>, step: Step<E>)
    requires FlightsSound(s) && step.YieldBegin? && Enabled(s, step)
    ensures FlightsSound(Apply(s, step))
  {
    var n, y, born := Apply(s, step), step.yielder, |s.tickets|;
    assert forall t :: 0 <= t < born ==> n.tickets[t] == s.tickets[t];
    forall z | z in n.flights
      ensures FlightSound(n, z, n.flights[z])
    {
      if z != y {
        assert FlightSound(s, z, s.flights[z]);
      }
    }
  }

  lemma YieldBeginKeeps<E(!new)>(s: State<E>, step: Step<E>)
    requires Inv(s) && step.YieldBegin? && Enabled(s, step)
    ensures Inv(Apply(s, step))
  {
    hide RosterSound, OpenHeld, ClosingsSound, TicketsSound, FlightsSound, DeliveredSound;
    var n := Apply(s, step);
    RosterSideStays(s, n);
    NewTicketSound(s, step);
    NewFlightSound(s, step);
    NewTicketAwaited(s, step);
    forall k: nat | k < |n.streams|
      ensures StreamSound(n, k)
    {
      assert StreamSound(s, k);
    }
  }

  lemma NewTicketAwaited<E(!new)>(s: State<E>, step: Step<E>)
    requires Inv(s) && step.YieldBegin? && Enabled(s, step)
    ensures DeliveredSound(Apply(s, step))
  {
    hide RosterSound, OpenHeld, ClosingsSound, TicketsSound;
    var n, born := Apply(s, step), |s.tickets|;
    forall t: nat, k: nat | t < |n.tickets| && k in n.tickets[t].audience && k < |n.streams|
      ensures if t in n.streams[k].received then !Awaits(n, t, k) else Awaits(n, t, k) || !n.streams[k].open
    {
      assert StreamSound(s, k);
      if t < born {
        assert Awaits(n, t, k) == Awaits(s, t, k);
      } else {
        assert k in step.order;
      }
    }
  }

  lemma YieldEndKeeps<E(!new)>(s: State<E>, y: nat)
    requires Inv(s) && Enabled(s, YieldEnd(y))
    ensures Inv(Apply(s, YieldEnd(y)))
  {
    hide RosterSound, OpenHeld, ClosingsSound;
    var n := Apply(s, YieldEnd(y));
    RosterSideStays(s, n);
    forall k: nat | k < |n.streams|
      ensures StreamSound(n, k)
    {
      assert StreamSound(s, k);
    }
    forall t: nat, k: nat | t < |n.tickets| && k in n.tickets[t].audience && k < |n.streams|
      ensures if t in n.streams[k].received then !Awaits(n, t, k) else Awaits(n, t, k) || !n.streams[k].open
    {
      assert Awaits(n, t, k) == Awaits(s, t, k);
    }
    forall z | z in n.flights
      ensures FlightSound(n, z, n.flights[z])
    {
      assert FlightSound(s, z, s.flights[z]);
    }
  }

  /** The one child a delivery touches, and how. */
  lemma DeliverToOne<E(!new)>(s: State<E>, y: nat)
    requires Inv(s) && Enabled(s, YieldDeliver(y))
    ensures var n := Apply(s, YieldDeliver(y)); var k := s.flights[y].todo[0]; var t := s.flights[y].ticket;
            && |n.streams| == |s.streams| && StreamSound(n, k)
            && t !in s.streams[k].received && Awaits(s, t, k) && !Awaits(n, t, k)
            && n.streams[k].id == s.streams[k].id && n.streams[k].open == s.streams[k].open
            && (forall u :: u in n.streams[k].received <==> u in s.streams[k].received || (u == t && s.streams[k].open))
  {
    var n, k, t := Apply(s, YieldDeliver(y)), s.flights[y].todo[0], s.flights[y].ticket;
    assert FlightSound(s, y, s.flights[y]) && StreamSound(s, k);
    assert k in s.flights[y].todo;
    assert Awaits(s, t, k);
  }

  lemma DeliverFlights<E(!new)>(s: State<E>, y: nat)
    requires FlightsSound(s) && Enabled(s, YieldDeliver(y))
    ensures FlightsSound(Apply(s, YieldDeliver(y)))
  {
    var n := Apply(s, YieldDeliver(y));
    forall z | z in n.flights
      ensures FlightSound(n, z, n.flights[z])
    {
      assert FlightSound(s, z, s.flights[z]);
    }
  }

  /** A delivery ends no wait but its own. */
  lemma OtherWaitsStay<E(!new)>(s: State<E>, y: nat, t: nat, k: nat)
    requires FlightsSound(s) && Enabled(s, YieldDeliver(y)) && t < |s.tickets|
    requires t != s.flights[y].ticket || k != s.flights[y].todo[0]
    ensures Awaits(Apply(s, YieldDeliver(y)), t, k) == Awaits(s, t, k)
  {
    assert FlightSound(s, y, s.flights[y]);
    var todo := s.flights[y].todo;
    assert todo == [todo[0]] + todo[1..];
  }

  lemma DeliverDelivered<E(!new)>(s: State<E>, y: nat)
    requires Inv(s) && Enabled(s, YieldDeliver(y))
    ensures DeliveredSound(Apply(s, YieldDeliver(y)))
  {
    DeliverToOne(s, y);
    hide RosterSound, OpenHeld, ClosingsSound, TicketsSound, FlightsSound, StreamsSound;
    var n, flight := Apply(s, YieldDeliver(y)), s.flights[y];
    var c := flight.todo[0];
    assert forall k :: 0 <= k < |s.streams| && k != c ==> n.streams[k] == s.streams[k];
    forall t: nat, k: nat | t < |n.tickets| && k in n.tickets[t].audience && k < |n.streams|
      ensures if t in n.streams[k].received then !Awaits(n, t, k) else Awaits(n, t, k) || !n.streams[k].open
    {
      if t != flight.ticket || k != c {
        OtherWaitsStay(s, y, t, k);
      }
    }
  }

  lemma YieldDeliverKeeps<E(!new)>(s: State<E>, y: nat)
    requires Inv(s) && Enabled(s, YieldDeliver(y))
    ensures Inv(Apply(s, YieldDeliver(y)))
  {
    hide RosterSound, OpenHeld, ClosingsSound, FlightsSound, DeliveredSound;
    DeliverToOne(s, y);
    DeliverFlights(s, y);
    DeliverDelivered(s, y);
    var n, c := Apply(s, YieldDeliver(y)), s.flights[y].todo[0];
    assert forall k :: 0 <= k < |s.streams| && k != c ==> n.streams[k] == s.streams[k];
    RosterSideStays(s, n);
    forall k: nat | k < |n.streams|
      ensures StreamSound(n, k)
    {
      assert StreamSound(s, k);
    }
  }

  lemma FinishBeginKeeps<E(!new)>(s: State<E>, step: Step<E>)
    requires Inv(s) && step.FinishBegin? && Enabled(s, step)
    ensures Inv(Apply(s, step))
  {
    hide TicketsSound, FlightsSound, DeliveredSound, StreamsSound;
    var n, f := Apply(s, step), step.finisher;
    forall k: nat | k < |n.streams| && n.streams[k].open
      ensures k in n.roster.children.Values || Closing(n, k)
    {
      if Closing(s, k) {
        var g :| g in s.closings && k in s.closings[g];
        assert g in n.closings && k in n.closings[g];
      } else {
        assert k in Members(step.order);
        assert f in n.closings && k in n.closings[f];
      }
    }
    forall i | 0 <= i < |step.order|
      ensures step.order[i] < |s.streams|
    {
      assert step.order[i] in Members(step.order);
      var id :| id in s.roster.children && s.roster.children[id] == step.order[i];
    }
    OnlyRosterMoved(s, n);
  }

  lemma FinishDeliverKeeps<E(!new)>(s: State<E>, f: nat)
    requires Inv(s) && Enabled(s, FinishDeliver(f))
    ensures Inv(Apply(s, FinishDeliver(f)))
  {
    hide TicketsSound, FlightsSound, DeliveredSound, StreamsSound;
    var n, c := Apply(s, FinishDeliver(f)), s.closings[f][0];
    assert forall k :: 0 <= k < |s.streams| && k != c ==> n.streams[k] == s.streams[k];
    forall k: nat | k < |n.streams| && n.streams[k].open
      ensures k in n.roster.children.Values || Closing(n, k)
    {
      if Closing(s, k) {
        var g :| g in s.closings && k in s.closings[g];
        assert g in n.closings && k in n.closings[g];
      }
    }
    OneStreamClosed(s, n, c);
  }

  lemma FinishEndKeeps<E(!new)>(s: State<E>, f: nat)
    requires Inv(s) && Enabled(s, FinishEnd(f))
    ensures Inv(Apply(s, FinishEnd(f)))
  {
    hide TicketsSound, FlightsSound, DeliveredSound, StreamsSound;
    var n := Apply(s, FinishEnd(f));
    forall k: nat | k < |n.streams| && n.streams[k].open
      ensures k in n.roster.children.Values || Closing(n, k)
    {
      if Closing(s, k) {
        var g :| g in s.closings && k in s.closings[g];
        assert g in n.closings && k in n.closings[g];
      }
    }
    OnlyRosterMoved(s, n);
  }

  lemma CancelKeeps<E(!new)>(s: State<E>, c: nat)
    requires Inv(s) && Enabled(s, Cancel(c))
    ensures Inv(Apply(s, Cancel(c)))
  {
    hide TicketsSound, FlightsSound, DeliveredSound, StreamsSound;
    var n := Apply(s, Cancel(c));
    assert forall k :: Closing(s, k) ==> Closing(n, k);
    OneStreamClosed(s, n, c);
  }

  lemma HandlerHolds<E(!new)>(s: State<E>, c: nat)
    requires RosterSound(s) && OpenHeld(s) && Enabled(s, HandlerRuns(c))
    ensures OpenHeld(Apply(s, HandlerRuns(c)))
  {
    var n, gone := Apply(s, HandlerRuns(c)), s.streams[c].id.value;
    forall k: nat | k < |n.streams| && n.streams[k].open
      ensures k in n.roster.children.Values || Closing(n, k)
    {
      if k in s.roster.children.Values {
        var id :| id in s.roster.children && s.roster.children[id] == k;
        assert id != gone;
        assert n.roster.children[id] == k;
      } else {
        var g :| g in s.closings && k in s.closings[g];
        assert g in n.closings && k in n.closings[g];
      }
    }
  }

  lemma HandlerRunsKeeps<E(!new)>(s: State<E>, c: nat)
    requires Inv(s) && Enabled(s, HandlerRuns(c))
    ensures Inv(Apply(s, HandlerRuns(c)))
  {
    HandlerHolds(s, c);
    hide OpenHeld, TicketsSound, FlightsSound, DeliveredSound, StreamsSound;
    OnlyRosterMoved(s, Apply(s, HandlerRuns(c)));
  }

  /** What is delivered does not depend on the roster once the yields in flight hold their children. */
  lemma OnlyRosterMoved<E(!new)>(s: State<E>, n: State<E>)
    requires n.streams == s.streams && n.tickets == s.tickets && n.flights == s.flights
    requires TicketsSound(s) && FlightsSound(s) && DeliveredSound(s) && StreamsSound(s)
    ensures TicketsSound(n) && FlightsSound(n) && DeliveredSound(n) && StreamsSound(n)
  {
    forall k: nat | k < |n.streams|
      ensures StreamSound(n, k)
    {
      assert StreamSound(s, k);
    }
    forall z | z in n.flights
      ensures FlightSound(n, z, n.flights[z])
    {
      assert FlightSound(s, z, s.flights[z]);
    }
    forall t: nat, k: nat | t < |n.tickets| && k in n.tickets[t].audience && k < |n.streams|
      ensures if t in n.streams[k].received then !Awaits(n, t, k) else Awaits(n, t, k) || !n.streams[k].open
    {
      assert Awaits(n, t, k) == Awaits(s, t, k);
    }
  }

  lemma OneStreamClosed<E(!new)>(s: State<E>, n: State<E>, c: nat)
    requires c < |s.streams| && n.streams == s.streams[c := s.streams[c].(open := false)]
    requires n.tickets == s.tickets && n.flights == s.flights
    requires TicketsSound(s) && FlightsSound(s) && DeliveredSound(s) && StreamsSound(s)
    ensures TicketsSound(n) && FlightsSound(n) && DeliveredSound(n) && StreamsSound(n)
  {
    assert forall k :: 0 <= k < |s.streams| ==> n.streams[k].received == s.streams[k].received;
    forall k: nat | k < |n.streams|
      ensures StreamSound(n, k)
    {
      assert StreamSound(s, k);
    }
    forall z | z in n.flights
      ensures FlightSound(n, z, n.flights[z])
    {
      assert FlightSound(s, z, s.flights[z]);
    }
    forall t: nat, k: nat | t < |n.tickets| && k in n.tickets[t].audience && k < |n.streams|
      ensures if t in n.streams[k].received then !Awaits(n, t, k) else Awaits(n, t, k) || !n.streams[k].open
    {
      assert Awaits(n, t, k) == Awaits(s, t, k);
    }
  }

  lemma StepKeeps<E(!new)>(s: State<E>, step: Step<E>)
    requires Inv(s) && Enabled(s, step)
    ensures Inv(Apply(s, step))
  {
    hide Inv, Enabled, Apply;
    match step
    case Subscribe => SubscribeKeeps(s);
    case YieldBegin(_, _, _) => YieldBeginKeeps(s, step);
    case YieldDeliver(y) => YieldDeliverKeeps(s, y);
    case YieldEnd(y) => YieldEndKeeps(s, y);
    case FinishBegin(_, _) => FinishBeginKeeps(s, step);
    case FinishDeliver(f) => FinishDeliverKeeps(s, f);
    case FinishEnd(f) => FinishEndKeeps(s, f);
    case Cancel(k) => CancelKeeps(s, k);
    case HandlerRuns(k) => HandlerRunsKeeps(s, k);
  }

  // ---- Whole runs ----

  predicate CanRun<E(==)>(s: State<E>, steps: seq<Step<E>>)
    decreases |steps|
  {
    steps == [] || (Enabled(s, steps[0]) && CanRun(Apply(s, steps[0]), steps[1..]))
  }

  function After<E>(s: State<E>, steps: seq<Step<E>>): State<E>
    requires CanRun(s, steps)
    decreases |steps|
  {
    if steps == [] then s else After(Apply(s, steps[0]), steps[1..])
  }

  lemma {:induction false} RunKeeps<E(!new)>(s: State<E>, steps: seq<Step<E>>)
    requires Inv(s) && CanRun(s, steps)
    ensures Inv(After(s, steps))
    decreases |steps|
  {
    hide Inv, Enabled, Apply;
    if steps != [] {
      StepKeeps(s, steps[0]);
      RunKeeps(Apply(s, steps[0]), steps[1..]);
    }
  }

  lemma StartSound<E(!new)>()
    ensures Inv(Start<E>())
  {
  }

  lemma Reached<E(!new)>(steps: seq<Step<E>>)
    requires CanRun(Start(), steps)
    ensures Inv(After(Start(), steps))
  {
    StartSound<E>();
    RunKeeps(Start(), steps);
  }

  lemma {:induction false} CountOnce(s: seq<nat>, x: nat)
    requires Distinct(s)
    ensures multiset(s)[x] == if x in s then 1 else 0
  {
    if s != [] {
      var last := |s| - 1;
      assert s == s[..last] + [s[last]];
      CountOnce(s[..last], x);
    }
  }

  /** Between a yield's snapshot and its turn a child does not have the element; it never has it twice. */
  lemma AtMostOnce<E(!new)>(steps: seq<Step<E>>, t: nat, k: nat)
    requires CanRun(Start(), steps)
    requires var s := After(Start(), steps); t < |s.tickets| && k in s.tickets[t].audience
    ensures var s := After(Start(), steps);
            && k < |s.streams|
            && multiset(s.streams[k].received)[t] == (if t in s.streams[k].received then 1 else 0)
            && (Awaits(s, t, k) ==> t !in s.streams[k].received)
  {
    Reached(steps);
    var s := After(Start(), steps);
    assert StreamSound(s, k);
    CountOnce(s.streams[k].received, t);
    assert Awaits(s, t, k) || !Awaits(s, t, k);
  }

  /** No yield or finish is ever stuck: its next child can be visited, or it can end. */
  lemma NothingBlocks<E(!new)>(steps: seq<Step<E>>)
    requires CanRun(Start(), steps)
    ensures var s := After(Start(), steps);
            && (forall y :: y in s.flights ==> Enabled(s, YieldDeliver(y)) || Enabled(s, YieldEnd(y)))
            && (forall f :: f in s.closings ==> Enabled(s, FinishDeliver(f)) || Enabled(s, FinishEnd(f)))
  {
    Reached(steps);
    var s := After(Start(), steps);
    forall y | y in s.flights
      ensures Enabled(s, YieldDeliver(y)) || Enabled(s, YieldEnd(y))
    {
      assert FlightSound(s, y, s.flights[y]);
      if s.flights[y].todo != [] {
        assert s.flights[y].todo[0] in s.tickets[s.flights[y].ticket].audience;
      }
    }
  }

  /** In every run a child gets only elements whose snapshot it is in, so none from before it subscribed, and one yielder's in order. */
  lemma OnlyItsOwnInOrder<E(!new)>(steps: seq<Step<E>>, k: nat)
    requires CanRun(Start(), steps) && k < |After(Start(), steps).streams|
    ensures var s := After(Start(), steps);
            var received := s.streams[k].received;
            && (forall i :: 0 <= i < |received| ==>
                  received[i] < |s.tickets| && k in s.tickets[received[i]].audience && k < s.tickets[received[i]].since)
            && (forall i, j :: 0 <= i < j < |received| && s.tickets[received[i]].yielder == s.tickets[received[j]].yielder ==>
                  received[i] < received[j])
  {
    Reached(steps);
    assert StreamSound(After(Start(), steps), k);
  }

  /** A snapshot holds every child that still accepts, but for those a finish is on its way to. */
  lemma SnapshotIsTheLive<E(!new)>(steps: seq<Step<E>>, step: Step<E>, k: nat)
    requires CanRun(Start(), steps) && step.YieldBegin? && Enabled(After(Start(), steps), step)
    ensures var s := After(Start(), steps); var n := Apply(s, step);
            k < |s.streams| && s.streams[k].open && !Closing(s, k) ==> k in n.tickets[|s.tickets|].audience
  {
    Reached(steps);
  }

  /** No two subscriptions are ever given one id. */
  lemma IdsNeverReused<E(!new)>(steps: seq<Step<E>>, j: nat, k: nat)
    requires CanRun(Start(), steps) && j < k < |After(Start(), steps).streams|
    ensures var s := After(Start(), steps);
            s.streams[j].id.Some? && s.streams[k].id.Some? ==> s.streams[j].id != s.streams[k].id
  {
    Reached(steps);
  }

  lemma {:induction false} RosterStaysClosed<E(!new)>(s: State<E>, steps: seq<Step<E>>)
    requires Inv(s) && CanRun(s, steps) && s.roster.finished
    ensures After(s, steps).roster == s.roster
    decreases |steps|
  {
    if steps != [] {
      StepKeeps(s, steps[0]);
      assert Apply(s, steps[0]).roster.finished;
      RosterStaysClosed(Apply(s, steps[0]), steps[1..]);
    }
  }

  /** Once finished, the roster is empty whatever follows, and when no finish is under way no stream is left open. */
  lemma FinishedForEver<E(!new)>(steps: seq<Step<E>>, more: seq<Step<E>>)
    requires CanRun(Start(), steps) && After(Start(), steps).roster.finished
    requires CanRun(After(Start(), steps), more)
    ensures var s := After(After(Start(), steps), more);
            && s.roster.finished && s.roster.children == map[]
            && (s.closings == map[] ==> forall k :: 0 <= k < |s.streams| ==> !s.streams[k].open)
  {
    Reached(steps);
    var mid := After(Start(), steps);
    RosterStaysClosed(mid, more);
    RunKeeps(mid, more);
  }

  /** A stream that has closed takes nothing more, ever. */
  lemma {:induction false} ClosedStays<E(!new)>(s: State<E>, steps: seq<Step<E>>, k: nat)
    requires CanRun(s, steps) && k < |s.streams| && !s.streams[k].open
    ensures var n := After(s, steps); k < |n.streams| && n.streams[k] == s.streams[k]
    decreases |steps|
  {
    if steps != [] {
      ClosedStays(Apply(s, steps[0]), steps[1..], k);
    }
  }

  // ---- Exactly once ----

  /** A stream keeps what it has accepted, through closing and after it. */
  lemma {:induction false} GivenStays<E(!new)>(s: State<E>, steps: seq<Step<E>>, k: nat, t: nat)
    requires CanRun(s, steps) && k < |s.streams| && t in s.streams[k].received
    ensures var n := After(s, steps); k < |n.streams| && t in n.streams[k].received
    decreases |steps|
  {
    if steps != [] {
      GivenStays(Apply(s, steps[0]), steps[1..], k, t);
    }
  }

  lemma {:induction false} TicketsStay<E(!new)>(s: State<E>, steps: seq<Step<E>>, t: nat)
    requires CanRun(s, steps) && t < |s.tickets|
    ensures var n := After(s, steps); t < |n.tickets| && n.tickets[t] == s.tickets[t]
    decreases |steps|
  {
    if steps != [] {
      TicketsStay(Apply(s, steps[0]), steps[1..], t);
    }
  }

  lemma {:induction false} RunSplits<E(!new)>(s: State<E>, first: seq<Step<E>>, second: seq<Step<E>>)
    requires CanRun(s, first + second)
    ensures CanRun(s, first) && CanRun(After(s, first), second)
    ensures After(s, first + second) == After(After(s, first), second)
    decreases |first|
  {
    hide Enabled, Apply;
    if first == [] {
      assert first + second == second;
    } else {
      assert (first + second)[1..] == first[1..] + second;
      RunSplits(Apply(s, first[0]), first[1..], second);
    }
  }

  lemma RunOne<E(!new)>(s: State<E>, step: Step<E>)
    ensures CanRun(s, [step]) <==> Enabled(s, step)
    ensures CanRun(s, [step]) ==> After(s, [step]) == Apply(s, step)
  {
    hide Enabled, Apply;
    assert [step][1..] == [];
    if Enabled(s, step) {
      assert CanRun(Apply(s, step), []) && After(Apply(s, step), []) == Apply(s, step);
    }
  }

  /** The step that gives one child its turn in one yield. */
  predicate Turn<E(==)>(s: State<E>, step: Step<E>, t: nat, k: nat) {
    && step.YieldDeliver? && Enabled(s, step)
    && s.flights[step.yielder].ticket == t && s.flights[step.yielder].todo[0] == k
  }

  /** Whether a child was open at its turn decides, for good, whether it has the element. */
  lemma TurnDecides<E(!new)>(before: State<E>, step: Step<E>, more: seq<Step<E>>, t: nat, k: nat)
    requires Inv(before) && Turn(before, step, t, k) && CanRun(Apply(before, step), more)
    ensures var n := After(Apply(before, step), more);
            k < |n.streams| && (t in n.streams[k].received <==> before.streams[k].open)
  {
    var y := step.yielder;
    DeliverToOne(before, y);
    var after := Apply(before, step);
    if before.streams[k].open {
      GivenStays(after, more, k, t);
    } else {
      ClosedStays(after, more, k);
    }
  }

  /** A step that ends a child's wait is its turn. */
  lemma WaitEndsAtTurn<E(!new)>(s: State<E>, step: Step<E>, t: nat, k: nat)
    requires Inv(s) && Enabled(s, step) && t < |s.tickets| && Awaits(s, t, k) && !Awaits(Apply(s, step), t, k)
    ensures Turn(s, step, t, k)
  {
    var y := s.tickets[t].yielder;
    assert FlightSound(s, y, s.flights[y]);
    if step.YieldDeliver? && step.yielder == y {
      var todo := s.flights[y].todo;
      assert todo == [todo[0]] + todo[1..];
    }
  }

  /** A yield's snapshot is awaited by every child in it. */
  lemma NewTicketWaits<E(!new)>(s: State<E>, step: Step<E>, t: nat, k: nat)
    requires Enabled(s, step)
    requires var n := Apply(s, step); |s.tickets| <= t < |n.tickets| && k in n.tickets[t].audience
    ensures Awaits(Apply(s, step), t, k)
  {
  }

  /** In a run after which a child no longer waits for a yield that snapshotted it, its turn has come. */
  lemma {:induction false} TurnCame<E(!new)>(steps: seq<Step<E>>, t: nat, k: nat) returns (i: nat)
    requires CanRun(Start(), steps)
    requires var s := After(Start(), steps); t < |s.tickets| && k in s.tickets[t].audience && !Awaits(s, t, k)
    ensures i < |steps| && CanRun(Start(), steps[..i]) && Turn(After(Start(), steps[..i]), steps[i], t, k)
    decreases |steps|
  {
    i := 0;
    if steps != [] {
      i := |steps| - 1;
      var last := |steps| - 1;
      assert steps == steps[..last] + [steps[last]];
      RunSplits(Start(), steps[..last], [steps[last]]);
      var s := After(Start(), steps[..last]);
      RunOne(s, steps[last]);
      Reached(steps[..last]);
      if t < |s.tickets| {
        TicketsStay(s, [steps[last]], t);
        if Awaits(s, t, k) {
          WaitEndsAtTurn(s, steps[last], t, k);
        } else {
          i := TurnCame(steps[..last], t, k);
          assert steps[..last][..i] == steps[..i];
        }
      } else {
        NewTicketWaits(s, steps[last], t, k);
      }
    }
  }

  /**
   In every run, once a yield no longer holds a turn for a child of its snapshot, that turn came, and
   the child has the element exactly once if it was open then, and not at all if it had closed.
   */
  lemma ExactlyOnce<E(!new)>(steps: seq<Step<E>>, t: nat, k: nat)
    requires CanRun(Start(), steps)
    requires var s := After(Start(), steps); t < |s.tickets| && k in s.tickets[t].audience && !Awaits(s, t, k)
    ensures exists i: nat :: i < |steps| && CanRun(Start(), steps[..i]) && Turn(After(Start(), steps[..i]), steps[i], t, k)
    ensures k < |After(Start(), steps).streams|
    ensures forall i: nat :: i < |steps| && CanRun(Start(), steps[..i]) && Turn(After(Start(), steps[..i]), steps[i], t, k) ==>
      multiset(After(Start(), steps).streams[k].received)[t] == if After(Start(), steps[..i]).streams[k].open then 1 else 0
  {
    AtMostOnce(steps, t, k);
    var came := TurnCame(steps, t, k);
    forall i: nat | i < |steps| && CanRun(Start(), steps[..i]) && Turn(After(Start(), steps[..i]), steps[i], t, k)
      ensures t in After(Start(), steps).streams[k].received <==> After(Start(), steps[..i]).streams[k].open
    {
      DecidedAt(steps, t, k, i);
    }
  }

  lemma DecidedAt<E(!new)>(steps: seq<Step<E>>, t: nat, k: nat, i: nat)
    requires CanRun(Start(), steps) && i < |steps|
    requires CanRun(Start(), steps[..i]) && Turn(After(Start(), steps[..i]), steps[i], t, k)
    ensures var n := After(Start(), steps);
            k < |n.streams| && (t in n.streams[k].received <==> After(Start(), steps[..i]).streams[k].open)
  {
    var s := After(Start(), steps[..i]);
    assert steps == steps[..i] + [steps[i]] + steps[i + 1..];
    RunSplits(Start(), steps[..i] + [steps[i]], steps[i + 1..]);
    RunSplits(Start(), steps[..i], [steps[i]]);
    RunOne(s, steps[i]);
    Reached(steps[..i]);
    TurnDecides(s, steps[i], steps[i + 1..], t, k);
  }

  // ---- What the steps are ----

  /** The calls of yield that a run makes, in the order of their snapshots. */
  function Calls<E>(steps: seq<Step<E>>): seq<(nat, E)> {
    if steps == [] then []
    else
      var last := steps[|steps| - 1];
      Calls(steps[..|steps| - 1]) + if last.YieldBegin? then [(last.yielder, last.element)] else []
  }

  /** In every run each ticket is one call's, with its yielder and the very element it was called with. */
  lemma {:induction false} TicketsAreCalls<E(!new)>(steps: seq<Step<E>>)
    requires CanRun(Start(), steps)
    ensures var tickets := After(Start(), steps).tickets;
            && |tickets| == |Calls(steps)|
            && forall t :: 0 <= t < |tickets| ==> (tickets[t].yielder, tickets[t].element) == Calls(steps)[t]
    decreases |steps|
  {
    if steps != [] {
      var last := |steps| - 1;
      assert steps == steps[..last] + [steps[last]];
      RunSplits(Start(), steps[..last], [steps[last]]);
      RunOne(After(Start(), steps[..last]), steps[last]);
      TicketsAreCalls(steps[..last]);
    }
  }

  /** A subscription always succeeds: to a live child under a new id, or after the finish to a closed stream in no roster. */
  lemma SubscribeMeans<E(!new)>(s: State<E>)
    ensures Enabled(s, Subscribe)
    ensures var n := Apply(s, Subscribe); var born := |s.streams|;
            && n.streams[..born] == s.streams && |n.streams| == born + 1 && n.streams[born].received == []
            && n.streams[born].open == !s.roster.finished
            && (if s.roster.finished then n.streams[born].id == None && n.roster == s.roster
                else n.streams[born].id == Some(s.roster.nextID) && n.roster.children == s.roster.children[s.roster.nextID := born])
  {
  }

  /** A finish closes the roster at once and goes on to every child that was in it; one that comes later does nothing. */
  lemma FinishMeans<E(!new)>(s: State<E>, step: Step<E>)
    requires step.FinishBegin? && Enabled(s, step)
    ensures var n := Apply(s, step);
            && n.roster.finished && step.finisher in n.closings && n.streams == s.streams
            && Members(n.closings[step.finisher]) == if s.roster.finished then {} else s.roster.children.Values
  {
  }

  /** A cancelled child closes by itself, and its handler takes its own id out and no other. */
  lemma CancelMeans<E(!new)>(s: State<E>, k: nat)
    ensures Enabled(s, Cancel(k)) <==> k < |s.streams| && s.streams[k].open
    ensures Enabled(s, Cancel(k)) ==> Apply(s, Cancel(k)).streams == s.streams[k := s.streams[k].(open := false)]
    ensures Enabled(s, HandlerRuns(k)) <==> k < |s.streams| && !s.streams[k].open && s.streams[k].id.Some?
    ensures Enabled(s, HandlerRuns(k)) ==>
      var n := Apply(s, HandlerRuns(k));
      && s.streams[k].id.value !in n.roster.children && n.streams == s.streams
      && forall id :: id in s.roster.children && id != s.streams[k].id.value ==>
           id in n.roster.children && n.roster.children[id] == s.roster.children[id]
  {
  }

  lemma {:induction false} Listed(values: set<nat>) returns (order: seq<nat>)
    ensures Distinct(order) && Members(order) == values
  {
    order := [];
    if values != {} {
      var x :| x in values;
      var others := Listed(values - {x});
      order := [x] + others;
      assert x !in Members(others);
      assert forall y :: y in order <==> y == x || y in Members(others);
    }
  }

  /** A yielder that is not in a yield, and a finisher not in a finish, can always begin one. */
  lemma CanBegin<E(!new)>(s: State<E>, who: nat, element: E) returns (order: seq<nat>)
    ensures who !in s.flights ==> Enabled(s, YieldBegin(who, element, order))
    ensures who !in s.closings && !s.roster.finished ==> Enabled(s, FinishBegin(who, order))
    ensures who !in s.closings && s.roster.finished ==> Enabled(s, FinishBegin(who, []))
  {
    order := Listed(s.roster.children.Values);
  }

  /** Two yielders at once: one child has the first element first, the other has it second. */
  const CROSSING: seq<Step<char>> := [
    Subscribe, Subscribe,
    YieldBegin(0, 'a', [0, 1]), YieldBegin(1, 'b', [1, 0]),
    YieldDeliver(0), YieldDeliver(1), YieldDeliver(0), YieldDeliver(1)
  ]

  const TWO_CHILDREN: State<char> :=
    State(Roster(map[0 := 0, 1 := 1], 2, false), [Stream(Some(0), [], true), Stream(Some(1), [], true)], [], map[], map[])

  /** The two yields under way, by what each child has and whom each yield has still to visit. */
  function Crossing(first: seq<nat>, second: seq<nat>, todo: seq<nat>, otherTodo: seq<nat>): State<char> {
    State(TWO_CHILDREN.roster, [Stream(Some(0), first, true), Stream(Some(1), second, true)],
          [Ticket(0, 'a', {0, 1}, 2), Ticket(1, 'b', {0, 1}, 2)], map[0 := Flight(0, todo), 1 := Flight(1, otherTodo)], map[])
  }

  lemma TwoSubscribe()
    ensures Apply(Apply(Start<char>(), Subscribe), Subscribe) == TWO_CHILDREN
    ensures TWO_CHILDREN.roster.children.Values == {0, 1}
    ensures Members([0, 1]) == {0, 1} && Members([1, 0]) == {0, 1}
  {
    var children := TWO_CHILDREN.roster.children;
    assert children[0] == 0 && children[1] == 1;
  }

  lemma TwoBegin()
    ensures Enabled(TWO_CHILDREN, YieldBegin(0, 'a', [0, 1]))
    ensures Enabled(Apply(TWO_CHILDREN, YieldBegin(0, 'a', [0, 1])), YieldBegin(1, 'b', [1, 0]))
    ensures Apply(Apply(TWO_CHILDREN, YieldBegin(0, 'a', [0, 1])), YieldBegin(1, 'b', [1, 0])) == Crossing([], [], [0, 1], [1, 0])
  {
    hide Members;
    TwoSubscribe();
  }

  lemma FirstDelivers(first: seq<nat>, second: seq<nat>, k: nat, rest: seq<nat>, otherTodo: seq<nat>)
    requires k < 2
    ensures var s := Crossing(first, second, [k] + rest, otherTodo);
            && Enabled(s, YieldDeliver(0))
            && Apply(s, YieldDeliver(0)) ==
                 if k == 0 then Crossing(first + [0], second, rest, otherTodo) else Crossing(first, second + [0], rest, otherTodo)
  {
    assert ([k] + rest)[1..] == rest;
  }

  lemma SecondDelivers(first: seq<nat>, second: seq<nat>, k: nat, todo: seq<nat>, rest: seq<nat>)
    requires k < 2
    ensures var s := Crossing(first, second, todo, [k] + rest);
            && Enabled(s, YieldDeliver(1))
            && Apply(s, YieldDeliver(1)) ==
                 if k == 0 then Crossing(first + [1], second, todo, rest) else Crossing(first, second + [1], todo, rest)
  {
    assert ([k] + rest)[1..] == rest;
  }

  /** The four deliveries, one child from each yielder in turn. */
  lemma FourDeliveries(steps: seq<Step<char>>)
    requires steps == [YieldDeliver(0), YieldDeliver(1), YieldDeliver(0), YieldDeliver(1)]
    ensures CanRun(Crossing([], [], [0, 1], [1, 0]), steps)
    ensures After(Crossing([], [], [0, 1], [1, 0]), steps) == Crossing([0, 1], [1, 0], [], [])
  {
    hide Apply, Enabled, CanRun, After, Crossing;
    assert [0, 1] == [0] + [1] && [1, 0] == [1] + [0] && [1] == [1] + [] && [0] == [0] + [];
    assert [] + [0] == [0] && [] + [1] == [1];
    FirstDelivers([], [], 0, [1], [1, 0]);
    SecondDelivers([0], [], 1, [1], [0]);
    FirstDelivers([0], [1], 1, [], [0]);
    SecondDelivers([0], [1, 0], 0, [], []);
    Unrolled(Crossing([], [], [0, 1], [1, 0]), steps);
  }

  lemma FourBeginnings(steps: seq<Step<char>>)
    requires steps == [Subscribe, Subscribe, YieldBegin(0, 'a', [0, 1]), YieldBegin(1, 'b', [1, 0])]
    ensures CanRun(Start(), steps) && After(Start(), steps) == Crossing([], [], [0, 1], [1, 0])
  {
    hide Apply, Enabled, CanRun, After, Crossing, TWO_CHILDREN;
    TwoSubscribe();
    TwoBegin();
    SubscribeAlways(Start<char>());
    SubscribeAlways(Apply(Start<char>(), Subscribe));
    Unrolled(Start(), steps);
  }

  lemma NoOrderAcrossYielders()
    ensures CanRun(Start(), CROSSING)
    ensures After(Start(), CROSSING).streams == [Stream(Some(0), [0, 1], true), Stream(Some(1), [1, 0], true)]
  {
    hide Apply, Enabled, CanRun, After;
    var first, second := CROSSING[..4], CROSSING[4..];
    FourBeginnings(first);
    FourDeliveries(second);
    RunsOn(Start(), first, second);
    assert CROSSING == first + second;
  }

  lemma SubscribeAlways<E(!new)>(s: State<E>)
    ensures Enabled(s, Subscribe)
  {
  }

  lemma Unrolled<E(!new)>(s: State<E>, steps: seq<Step<E>>)
    requires |steps| == 4 && Enabled(s, steps[0]) && Enabled(Apply(s, steps[0]), steps[1])
    requires Enabled(Apply(Apply(s, steps[0]), steps[1]), steps[2])
    requires Enabled(Apply(Apply(Apply(s, steps[0]), steps[1]), steps[2]), steps[3])
    ensures CanRun(s, steps)
    ensures After(s, steps) == Apply(Apply(Apply(Apply(s, steps[0]), steps[1]), steps[2]), steps[3])
  {
    hide Enabled, Apply;
    var a := Apply(s, steps[0]);
    var b := Apply(a, steps[1]);
    var c := Apply(b, steps[2]);
    var d := Apply(c, steps[3]);
    assert steps[1..][1..] == steps[2..] && steps[2..][1..] == steps[3..] && steps[3..][1..] == [];
    assert CanRun(d, []) && After(d, []) == d;
    assert CanRun(c, steps[3..]) && After(c, steps[3..]) == d;
    assert CanRun(b, steps[2..]) && After(b, steps[2..]) == d;
    assert CanRun(a, steps[1..]) && After(a, steps[1..]) == d;
  }

  lemma {:induction false} RunsOn<E(!new)>(s: State<E>, first: seq<Step<E>>, second: seq<Step<E>>)
    requires CanRun(s, first) && CanRun(After(s, first), second)
    ensures CanRun(s, first + second) && After(s, first + second) == After(After(s, first), second)
    decreases |first|
  {
    hide Enabled, Apply;
    if first == [] {
      assert first + second == second;
    } else {
      assert (first + second)[1..] == first[1..] + second;
      RunsOn(Apply(s, first[0]), first[1..], second);
    }
  }
}
