/** Notifications: every listener is in the list of its event and in the list of its receiver. */
module Notification {
  import opened Collections

  type EventType = nat
  type Receiver = nat

  /** A registration; `id` tells equal ones apart. */
  datatype Listener = Listener(id: nat, event: EventType, receiver: Receiver)

  function OfEvent(all: seq<Listener>, event: EventType): seq<Listener> {
    if all == [] then []
    else if all[0].event == event then [all[0]] + OfEvent(all[1..], event) else OfEvent(all[1..], event)
  }

  /** What is left when a receiver stops listening to an event. */
  function Drop(all: seq<Listener>, event: EventType, receiver: Receiver): seq<Listener> {
    if all == [] then []
    else if all[0].event == event && all[0].receiver == receiver then Drop(all[1..], event, receiver)
    else [all[0]] + Drop(all[1..], event, receiver)
  }

  /** What is left when a receiver stops listening altogether. */
  function DropAll(all: seq<Listener>, receiver: Receiver): seq<Listener> {
    if all == [] then []
    else if all[0].receiver == receiver then DropAll(all[1..], receiver) else [all[0]] + DropAll(all[1..], receiver)
  }

  lemma OfEventIn(all: seq<Listener>, event: EventType)
    ensures forall l :: l in OfEvent(all, event) <==> l in all && l.event == event
  {
  }

  lemma DropIn(all: seq<Listener>, event: EventType, receiver: Receiver)
    ensures forall l :: l in Drop(all, event, receiver) <==> l in all && !(l.event == event && l.receiver == receiver)
  {
  }

  lemma DropAllIn(all: seq<Listener>, receiver: Receiver)
    ensures forall l :: l in DropAll(all, receiver) <==> l in all && l.receiver != receiver
  {
  }

  lemma OfEventWithout(all: seq<Listener>, l: Listener, event: EventType)
    ensures OfEvent(Without(all, l), event) == Without(OfEvent(all, event), l)
  {
  }

  lemma OfEventAppend(all: seq<Listener>, l: Listener, event: EventType)
    ensures OfEvent(all + [l], event) == OfEvent(all, event) + if l.event == event then [l] else []
  {
    if all == [] {
      assert all + [l] == [l];
    } else {
      assert (all + [l])[1..] == all[1..] + [l];
      OfEventAppend(all[1..], l, event);
    }
  }

  lemma DropWithout(all: seq<Listener>, l: Listener)
    ensures Drop(Without(all, l), l.event, l.receiver) == Drop(all, l.event, l.receiver)
  {
  }

  lemma DropAllWithout(all: seq<Listener>, l: Listener)
    ensures DropAll(Without(all, l), l.receiver) == DropAll(all, l.receiver)
  {
  }

  lemma DropNone(all: seq<Listener>, event: EventType, receiver: Receiver)
    requires forall l :: l in all ==> l.event != event || l.receiver != receiver
    ensures Drop(all, event, receiver) == all
  {
    if all != [] {
      assert all[0] in all && forall l :: l in all[1..] ==> l in all;
      DropNone(all[1..], event, receiver);
    }
  }

  lemma DropAllNone(all: seq<Listener>, receiver: Receiver)
    requires forall l :: l in all ==> l.receiver != receiver
    ensures DropAll(all, receiver) == all
  {
    if all != [] { assert all[0] in all && forall l :: l in all[1..] ==> l in all; DropAllNone(all[1..], receiver); }
  }

  lemma OfEventDistinct(s: seq<Listener>, event: EventType)
    requires Distinct(s)
    ensures Distinct(OfEvent(s, event))
  {
    if s != [] {
      assert Distinct(s[1..]);
      OfEventDistinct(s[1..], event);
      OfEventIn(s[1..], event);
      assert s[0] !in s[1..];
    }
  }

  /** A receiver's list holds its listeners, each once, in any order. */
  ghost predicate Owned(all: seq<Listener>, receiver: Receiver, items: seq<Listener>) {
    Distinct(items) && forall l :: l in items <==> l in all && l.receiver == receiver
  }

  lemma OwnedMore(all: seq<Listener>, receiver: Receiver, items: seq<Listener>, l: Listener)
    requires Owned(all, receiver, items) && l !in all
    ensures Owned(all + [l], receiver, if l.receiver == receiver then items + [l] else items)
  {
  }

  lemma OwnedLess(all: seq<Listener>, receiver: Receiver, items: seq<Listener>, l: Listener)
    requires Owned(all, receiver, items) && l.receiver != receiver
    ensures Owned(Without(all, l), receiver, items)
  {
    WithoutIn(all, l);
  }

  lemma OwnedSwap(all: seq<Listener>, receiver: Receiver, items: seq<Listener>, i: nat)
    requires Owned(all, receiver, items) && i < |items|
    ensures Owned(Without(all, items[i]), receiver, SwapRemove(items, i))
    ensures items[i] in all && items[i].receiver == receiver && SwapRemove(items, i)[..i] == items[..i]
  {
    WithoutIn(all, items[i]);
    SwapRemoved(items, i);
  }

  lemma OwnedTail(all: seq<Listener>, receiver: Receiver, items: seq<Listener>, i: nat)
    requires i < |items| && Owned(all, receiver, items[i..])
    ensures Owned(Without(all, items[i]), receiver, items[i + 1..]) && items[i] in all && items[i].receiver == receiver
  {
    WithoutIn(all, items[i]);
    var s := items[i..];
    assert s[0] == items[i] && s[1..] == items[i + 1..];
    assert forall l :: l in s <==> l == s[0] || l in s[1..];
    assert s[0] !in s[1..];
  }

  lemma NoneOwned(all: seq<Listener>, receiver: Receiver, items: seq<Listener>)
    requires Owned(all, receiver, items) && items == []
    ensures forall l :: l in all ==> l.receiver != receiver
  {
  }

  class Registry {
    var events: map<EventType, seq<Listener>>
    var receivers: map<Receiver, seq<Listener>>
    var nextId: nat
    /** All registrations, oldest first. */
    ghost var all: seq<Listener>

    function List(event: EventType): seq<Listener>
      reads this
    {
      if event in events then events[event] else []
    }

    ghost predicate Valid()
      reads this
    {
      && Distinct(all) && (forall l :: l in all ==> l.id < nextId)
      && (forall e :: List(e) == OfEvent(all, e))
      && (forall r :: r in receivers ==> receivers[r] != [] && Owned(all, r, receivers[r]))
      && (forall l :: l in all ==> l.receiver in receivers)
    }

    constructor ()
      ensures Valid() && all == []
    {
      events, receivers, nextId, all := map[], map[], 0, [];
    }

    method Register(event: EventType, receiver: Receiver) returns (listener: Listener)
      requires Valid()
      modifies this
      ensures Valid() && all == old(all) + [listener] && listener.event == event && listener.receiver == receiver
      ensures listener !in old(all)
    {
      hide OfEvent, Owned;
      listener := Listener(nextId, event, receiver);
      ghost var before, was := all, receivers;
      var items := if receiver in receivers then receivers[receiver] else [];
      receivers := receivers[receiver := items + [listener]];
      events := events[event := List(event) + [listener]];
      nextId := nextId + 1;
      all := all + [listener];
      forall e
        ensures List(e) == OfEvent(all, e)
      {
        OfEventAppend(before, listener, e);
      }
      OwnsNothing(before, receiver, was);
      OwnedMore(before, receiver, items, listener);
      forall r | r in was && r != receiver
        ensures Owned(all, r, receivers[r])
      {
        OwnedMore(before, r, was[r], listener);
      }
    }

    static lemma OwnsNothing(all: seq<Listener>, receiver: Receiver, receivers: map<Receiver, seq<Listener>>)
      requires forall l :: l in all ==> l.receiver in receivers
      ensures receiver !in receivers ==> Owned(all, receiver, [])
    {
    }

    /** Takes one listener out of the list of its event. */
    method Unlist(l: Listener)
      requires forall e :: List(e) == OfEvent(all, e)
      modifies this`events, this`all
      ensures all == Without(old(all), l) && forall e :: List(e) == OfEvent(all, e)
    {
      hide OfEvent, Without;
      ghost var before := all;
      if l.event in events {
        events := events[l.event := Without(events[l.event], l)];
      }
      all := Without(all, l);
      forall e
        ensures List(e) == OfEvent(all, e)
      {
        OfEventWithout(before, l, e);
        OfEventIn(before, e);
        if e != l.event { WithoutAbsent(OfEvent(before, e), l); }
        NothingWithout(l);
      }
    }

    static lemma NothingWithout(l: Listener)
      ensures Without([], l) == []
    {
    }

    /** The invariant, leaving out the list of one receiver. */
    ghost predicate ButFor(receiver: Receiver)
      reads this
    {
      && Distinct(all) && (forall l :: l in all ==> l.id < nextId)
      && (forall e :: List(e) == OfEvent(all, e))
      && (forall r :: r in receivers && r != receiver ==> receivers[r] != [] && Owned(all, r, receivers[r]))
      && (forall l :: l in all && l.receiver != receiver ==> l.receiver in receivers)
    }

    /** Takes a listener of the receiver out of everything but the receiver's list. */
    method Forget(l: Listener, receiver: Receiver)
      requires ButFor(receiver) && l in all && l.receiver == receiver
      modifies this`events, this`all
      ensures ButFor(receiver) && all == Without(old(all), l)
    {
      hide OfEvent, Without, Owned;
      ghost var before := all;
      WithoutIn(all, l);
      WithoutDistinct(all, l);
      Unlist(l);
      forall r | r in receivers && r != receiver
        ensures Owned(all, r, receivers[r])
      {
        OwnedLess(before, r, receivers[r], l);
      }
    }

    /** Removes the receiver's listeners to one event. Event lists keep their order; the receiver's list does
        not, and goes when it is empty. */
    method Unregister(event: EventType, receiver: Receiver)
      requires Valid()
      modifies this`events, this`receivers, this`all
      ensures Valid() && all == Drop(old(all), event, receiver)
      ensures forall l :: l in all <==> l in old(all) && !(l.event == event && l.receiver == receiver)
    {
      hide OfEvent, Without, Drop, Owned, Distinct;
      DropIn(all, event, receiver);
      if receiver !in receivers {
        DropNone(all, event, receiver);
        return;
      }
      var items := receivers[receiver];
      var i := 0;
      while i < |items|
        invariant ButFor(receiver) && Owned(all, receiver, items) && receivers == old(receivers)
        invariant 0 <= i <= |items| && forall j :: 0 <= j < i ==> items[j].event != event
        invariant Drop(all, event, receiver) == Drop(old(all), event, receiver)
        decreases |items| - i
      {
        var listener := items[i];
        if listener.event != event {
          i := i + 1;
          continue;
        }
        OwnedSwap(all, receiver, items, i);
        DropWithout(all, listener);
        Forget(listener, receiver);
        items := SwapRemove(items, i);
      }
      Rest(event, receiver, items);
      if |items| == 0 {
        receivers := receivers - {receiver};
      } else {
        receivers := receivers[receiver := items];
      }
    }

    lemma Rest(event: EventType, receiver: Receiver, items: seq<Listener>)
      requires Owned(all, receiver, items) && forall j :: 0 <= j < |items| ==> items[j].event != event
      ensures Drop(all, event, receiver) == all
      ensures items == [] ==> forall l :: l in all ==> l.receiver != receiver
    {
      DropNone(all, event, receiver);
    }

    method UnregisterAll(receiver: Receiver)
      requires Valid()
      modifies this`events, this`receivers, this`all
      ensures Valid() && all == DropAll(old(all), receiver)
      ensures forall l :: l in all <==> l in old(all) && l.receiver != receiver
    {
      hide OfEvent, Without, DropAll, Owned, Distinct;
      DropAllIn(all, receiver);
      if receiver !in receivers {
        DropAllNone(all, receiver);
        return;
      }
      var items := receivers[receiver];
      receivers := receivers - {receiver};
      var i := 0;
      while i < |items|
        invariant ButFor(receiver) && 0 <= i <= |items| && Owned(all, receiver, items[i..])
        invariant receivers == old(receivers) - {receiver}
        invariant DropAll(all, receiver) == DropAll(old(all), receiver)
      {
        OwnedTail(all, receiver, items, i);
        DropAllWithout(all, items[i]);
        Forget(items[i], receiver);
        i := i + 1;
      }
      NoneOwned(all, receiver, items[i..]);
      DropAllNone(all, receiver);
    }

    /** Calls the listeners of an event in order of registration. The shortcut for an empty registry skips none. */
    method Dispatch(event: EventType) returns (calls: seq<Listener>)
      requires Valid()
      ensures calls == OfEvent(all, event) && forall l :: l in calls <==> l in all && l.event == event
    {
      OfEventIn(all, event);
      calls := [];
      if |receivers| == 0 {
        return;
      }
      var list := List(event);
      var i := 0;
      while i < |list|
        invariant 0 <= i <= |list| && calls == list[..i]
      {
        calls := calls + [list[i]];
        i := i + 1;
      }
    }

    /** A listener is in its event's list exactly when it is in its receiver's, and once in each. */
    lemma BothLists(l: Listener)
      requires Valid()
      ensures l in List(l.event) <==> l.receiver in receivers && l in receivers[l.receiver]
      ensures Distinct(List(l.event)) && (l.receiver in receivers ==> Distinct(receivers[l.receiver]))
    {
      OfEventIn(all, l.event);
      OfEventDistinct(all, l.event);
    }
  }
}
