/** The hub as one caller at a time sees it: each method against the protocol's roster. */
module BroadcastHub {
  import opened Wrappers
  import opened Broadcast

  /** One child's unbounded buffer. */
  class Continuation<E> {
    var elements: seq<E>
    var terminated: bool

    constructor ()
      ensures elements == [] && !terminated
    {
      elements, terminated := [], false;
    }

    method Yield(element: E)
      modifies this
      ensures terminated == old(terminated)
      ensures elements == if terminated then old(elements) else old(elements) + [element]
    {
      if !terminated {
        elements := elements + [element];
      }
    }

    method Finish()
      modifies this
      ensures terminated && elements == old(elements)
    {
      terminated := true;
    }
  }

  predicate AllDistinct<E>(conts: seq<Continuation<E>>) {
    forall i, j :: 0 <= i < j < |conts| ==> conts[i] != conts[j]
  }

  /** What a child holds once it is given one more element. */
  function Accepted<E>(elements: seq<E>, terminated: bool, element: E): seq<E> {
    if terminated then elements else elements + [element]
  }

  method YieldAll<E>(conts: seq<Continuation<E>>, element: E)
    requires AllDistinct(conts)
    modifies conts
    ensures forall c :: c in conts ==>
      c.terminated == old(c.terminated) && c.elements == Accepted(old(c.elements), c.terminated, element)
  {
    for i := 0 to |conts|
      invariant forall j :: 0 <= j < |conts| ==> conts[j].terminated == old(conts[j].terminated)
      invariant forall j :: 0 <= j < i ==> conts[j].elements == Accepted(old(conts[j].elements), conts[j].terminated, element)
      invariant forall j :: i <= j < |conts| ==> conts[j].elements == old(conts[j].elements)
    {
      conts[i].Yield(element);
    }
  }

  method FinishAll<E>(conts: seq<Continuation<E>>)
    requires AllDistinct(conts)
    modifies conts
    ensures forall c :: c in conts ==> c.terminated && c.elements == old(c.elements)
  {
    for i := 0 to |conts|
      invariant forall j :: 0 <= j < |conts| ==> conts[j].elements == old(conts[j].elements)
      invariant forall j :: 0 <= j < i ==> conts[j].terminated
    {
      conts[i].Finish();
    }
  }

  /** A dictionary's values as an array, in some order. */
  method ArrayOf<E>(children: map<nat, Continuation<E>>) returns (conts: seq<Continuation<E>>)
    requires forall i, j :: i in children && j in children && i != j ==> children[i] != children[j]
    ensures AllDistinct(conts) && forall c :: c in conts <==> c in children.Values
  {
    conts := [];
    var ids := children.Keys;
    while ids != {}
      invariant ids <= children.Keys && AllDistinct(conts)
      invariant forall c :: c in conts <==> exists id :: id in children && id !in ids && children[id] == c
      decreases |ids|
    {
      var id :| id in ids;
      assert children[id] !in conts;
      conts := conts + [children[id]];
      ids := ids - {id};
    }
  }

  /** Ids name children of their own, each with an id already given out. */
  ghost predicate Sound<E>(children: map<nat, Continuation<E>>, names: map<nat, nat>, streams: seq<Continuation<E>>, nextID: nat) {
    && names.Keys == children.Keys
    && (forall id :: id in names ==> names[id] < |streams| && children[id] == streams[names[id]])
    && AllDistinct(streams)
    && (forall i, j :: i in names && j in names && i != j ==> names[i] != names[j])
    && (forall id :: id in names ==> id < nextID)
  }

  lemma Grows<E>(children: map<nat, Continuation<E>>, names: map<nat, nat>, streams: seq<Continuation<E>>, nextID: nat,
                 child: Continuation<E>)
    requires Sound(children, names, streams, nextID) && child !in streams
    ensures Sound(children, names, streams + [child], nextID)
    ensures Sound(children[nextID := child], names[nextID := |streams|], streams + [child], nextID + 1)
  {
    assert AllDistinct(streams + [child]);
  }

  lemma Shrinks<E>(children: map<nat, Continuation<E>>, names: map<nat, nat>, streams: seq<Continuation<E>>, nextID: nat, id: nat)
    requires Sound(children, names, streams, nextID)
    ensures Sound(children - {id}, names - {id}, streams, nextID)
  {
  }

  class EventBroadcaster<E> {
    var children: map<nat, Continuation<E>>
    var nextID: nat
    var finished: bool
    /** Every child ever subscribed, and which of them each id names. */
    ghost var streams: seq<Continuation<E>>
    ghost var names: map<nat, nat>

    ghost predicate Valid()
      reads this
    {
      Sound(children, names, streams, nextID) && (finished ==> children == map[])
    }

    ghost function View(): Roster
      reads this
    {
      Roster(names, nextID, finished)
    }

    constructor ()
      ensures Valid() && View() == EMPTY_ROSTER && streams == []
    {
      children, nextID, finished := map[], 0, false;
      streams, names := [], map[];
    }

    /** A fresh child; already finished, and in no roster, once the hub is. */
    method Subscribe() returns (child: Continuation<E>, id: Option<nat>)
      requires Valid()
      modifies this
      ensures Valid() && fresh(child) && child.elements == [] && child.terminated == old(finished)
      ensures streams == old(streams) + [child]
      ensures id == Admitted(old(View())) && View() == Joined(old(View()), |old(streams)|)
    {
      hide Sound;
      child := new Continuation<E>();
      Grows(children, names, streams, nextID, child);
      streams := streams + [child];
      if finished {
        child.Finish();
        return child, None;
      }
      names := names[nextID := |streams| - 1];
      children := children[nextID := child];
      nextID := nextID + 1;
      return child, Some(nextID - 1);
    }

    /** What a child's termination handler does. */
    method Leave(id: nat)
      requires Valid()
      modifies this
      ensures Valid() && streams == old(streams) && View() == Left(old(View()), id)
    {
      Shrinks(children, names, streams, nextID, id);
      hide Sound;
      names := names - {id};
      children := children - {id};
    }

    /** The element goes once to every child in the roster that still accepts, and to no other. */
    method Yield(element: E)
      requires Valid()
      modifies children.Values
      ensures Valid() && View() == old(View()) && streams == old(streams)
      ensures forall k :: 0 <= k < |streams| ==>
        streams[k].terminated == old(streams[k].terminated) &&
        streams[k].elements ==
          if k in names.Values then Accepted(old(streams[k].elements), streams[k].terminated, element) else old(streams[k].elements)
    {
      ChildrenDistinct();
      var conts := ArrayOf(children);
      YieldAll(conts, element);
      forall k | 0 <= k < |streams|
        ensures streams[k].terminated == old(streams[k].terminated)
        ensures streams[k].elements ==
          if k in names.Values then Accepted(old(streams[k].elements), streams[k].terminated, element) else old(streams[k].elements)
      {
        NamedIsChild(k);
      }
    }

    /** Every child in the roster is finished with what it has, and the roster is closed. */
    method Finish()
      requires Valid()
      modifies this, children.Values
      ensures Valid() && View() == Finished(old(View())) && streams == old(streams)
      ensures forall k :: 0 <= k < |streams| ==>
        streams[k].elements == old(streams[k].elements) &&
        streams[k].terminated == (old(streams[k].terminated) || k in old(names).Values)
    {
      if finished {
        assert old(names) == map[];
        return;
      }
      ChildrenDistinct();
      forall k | 0 <= k < |streams|
        ensures k in names.Values <==> streams[k] in children.Values
      {
        NamedIsChild(k);
      }
      var conts := ArrayOf(children);
      finished, children, names := true, map[], map[];
      FinishAll(conts);
    }

    lemma ChildrenDistinct()
      requires Valid()
      ensures forall i, j :: i in children && j in children && i != j ==> children[i] != children[j]
    {
      forall i, j | i in children && j in children && i != j
        ensures children[i] != children[j]
      {
        assert names[i] != names[j];
      }
    }

    lemma NamedIsChild(k: nat)
      requires Valid() && k < |streams|
      ensures k in names.Values <==> streams[k] in children.Values
    {
      if k in names.Values {
        var id :| id in names && names[id] == k;
        assert children[id] == streams[k];
      }
      if streams[k] in children.Values {
        var id :| id in children && children[id] == streams[k];
        assert streams[names[id]] == streams[k];
      }
    }
  }
}
