/** What a dispatch calls, told from the listeners that are registered: for callbacks that do nothing but stop their own
    event. The path is given by its targets, and which listeners hear the event by their capture flags. */
module Propagation {
  import opened Collections
  import opened Events
  import EventPath

  // ----- what is to be called

  /** A callback does nothing, stops the propagation of the event, or stops it at once. */
  predicate OnlyStops(body: Script, event: Event) {
    body == Done || body == Then(Halt(event), Done) || body == Then(Stop(event), Done)
  }

  predicate AllOnlyStop(bodies: seq<Script>, event: Event) {
    forall i :: 0 <= i < |bodies| ==> OnlyStops(bodies[i], event)
  }

  ghost predicate PlanOnlyStops(plan: Plan, event: Event) {
    && (forall v :: 0 <= v < |plan.visits| ==> AllOnlyStop(plan.visits[v].scripts, event))
    && AllOnlyStop(plan.others, event)
  }

  /** The listeners of a list with one of the capture flags, without those whose signal is aborted. */
  function Hearing(list: seq<Rec>, flags: set<bool>, aborted: set<Signal>): seq<Rec> {
    if list == [] then []
    else
      var rec := list[0];
      (if rec.capture in flags && !(rec.signal.Some? && rec.signal.value in aborted) then [rec] else [])
      + Hearing(list[1..], flags, aborted)
  }

  /** The listeners of a list that no call takes out of it. */
  function Lasting(list: seq<Rec>, aborted: set<Signal>): seq<Rec> {
    if list == [] then []
    else
      var rec := list[0];
      (if !rec.once && !(rec.signal.Some? && rec.signal.value in aborted) then [rec] else [])
      + Lasting(list[1..], aborted)
  }

  /** Those called: up to the first one that stops the event at once. */
  function UpToStop(recs: seq<Rec>, bodies: seq<Script>, next: nat, event: Event): seq<Rec> {
    if recs == [] then []
    else if next < |bodies| && bodies[next] == Then(Stop(event), Done) then [recs[0]]
    else [recs[0]] + UpToStop(recs[1..], bodies, next + 1, event)
  }

  /** Some of these callbacks stops the event. */
  ghost predicate SomeStops(bodies: seq<Script>, lo: nat, hi: nat) {
    exists n :: lo <= n < hi && n < |bodies| && bodies[n] != Done
  }

  function Ran(event: Event, recs: seq<Rec>): (log: seq<Invocation>)
    ensures |log| == |recs|
  {
    seq(|recs|, i requires 0 <= i < |recs| => Invocation(event, recs[i]))
  }

  // ----- one target

  lemma HearingWithout(list: seq<Rec>, rec: Rec, flags: set<bool>, aborted: set<Signal>)
    requires rec.capture !in flags || IsAborted(rec, aborted)
    ensures Hearing(Without(list, rec), flags, aborted) == Hearing(list, flags, aborted)
  {
    if list != [] {
      HearingWithout(list[1..], rec, flags, aborted);
      if list[0] != rec { assert Without(list, rec)[1..] == Without(list[1..], rec); }
    }
  }

  lemma LastingWithout(list: seq<Rec>, rec: Rec, aborted: set<Signal>)
    requires rec.once || IsAborted(rec, aborted)
    ensures Lasting(Without(list, rec), aborted) == Lasting(list, aborted)
  {
    if list != [] {
      LastingWithout(list[1..], rec, aborted);
      if list[0] != rec { assert Without(list, rec)[1..] == Without(list[1..], rec); }
    }
  }

  /** Only listeners of these flags at this target were taken out, and of those only such as do not last. */
  ghost predicate Spares(s: State, t: State, key: Key, flags: set<bool>) {
    && (forall k, other: set<bool> :: k != key || other !! flags ==>
          Hearing(ListOf(t, k), other, s.aborted) == Hearing(ListOf(s, k), other, s.aborted))
    && (forall k :: Lasting(ListOf(t, k), s.aborted) == Lasting(ListOf(s, k), s.aborted))
  }

  /** Nothing else changed but the log and the flags of the event. */
  ghost predicate CallsOnly(s: State, t: State, event: Event, halts: bool) {
    && t == s.(lists := t.lists, log := t.log, halted := t.halted, stopped := t.stopped)
    && t.halted == s.halted + (if halts then {event} else {})
    && (t.stopped == s.stopped || (halts && t.stopped == s.stopped + {event}))
  }

  lemma DropSpares(s: State, key: Key, rec: Rec, flags: set<bool>)
    requires rec.capture in flags || IsAborted(rec, s.aborted)
    requires rec.once || IsAborted(rec, s.aborted)
    ensures Spares(s, Drop(s, key, rec), key, flags)
    ensures forall r :: r in ListOf(s, key) && r != rec ==> r in ListOf(Drop(s, key, rec), key)
  {
    var list := ListOf(s, key);
    if key in s.lists {
      WithoutIn(list, rec);
      LastingWithout(list, rec, s.aborted);
      forall other: set<bool> | other !! flags
        ensures Hearing(Without(list, rec), other, s.aborted) == Hearing(list, other, s.aborted)
      {
        HearingWithout(list, rec, other, s.aborted);
      }
    }
  }

  lemma SparesTwice(s: State, t: State, u: State, key: Key, flags: set<bool>)
    requires Spares(s, t, key, flags) && Spares(t, u, key, flags) && t.aborted == s.aborted
    ensures Spares(s, u, key, flags)
  {
    forall k, other: set<bool> | k != key || other !! flags
      ensures Hearing(ListOf(u, k), other, s.aborted) == Hearing(ListOf(s, k), other, s.aborted)
    {
      assert Hearing(ListOf(t, k), other, s.aborted) == Hearing(ListOf(s, k), other, s.aborted);
    }
  }

  /** One listener is called. */
  lemma CalledOnce(s: State, event: Event, key: Key, rec: Rec, bodies: seq<Script>, next: nat, flags: set<bool>)
    requires AllOnlyStop(bodies, event) && rec.capture in flags && rec in ListOf(s, key)
    ensures var t := After(s, event, key, rec, bodies, next, Program);
            && t.log == s.log + [Invocation(event, rec)] && Spares(s, t, key, flags)
            && CallsOnly(s, t, event, next < |bodies| && bodies[next] != Done)
            && (event in t.stopped <==>
                event in s.stopped || (next < |bodies| && bodies[next] == Then(Stop(event), Done)))
            && forall r :: r in ListOf(s, key) && r != rec ==> r in ListOf(t, key)
  {
    hide Hearing, Lasting, Without;
    if rec.once { DropSpares(s, key, rec, flags); }
    if next < |bodies| {
      assert OnlyStops(bodies[next], event);
      RunStops(Call(s, event, key, rec), bodies[next], event);
    }
    var t := After(s, event, key, rec, bodies, next, Program);
    assert forall k :: ListOf(t, k) == ListOf(if rec.once then Drop(s, key, rec) else s, k);
  }

  lemma RunStops(s: State, body: Script, event: Event)
    requires OnlyStops(body, event)
    ensures Run(s, body, Program) == s.(halted := if body == Done then s.halted else s.halted + {event},
                                        stopped := if body == Then(Stop(event), Done) then s.stopped + {event}
                                                   else s.stopped)
  {
    if body != Done { assert Run(Exec(s, body.op, Program), Done, Program) == Exec(s, body.op, Program); }
  }

  function FlagsOf(phase: Option<bool>): set<bool> { if phase.None? then {true, false} else {phase.value} }

  /** From `s` to `t` the listeners of the clone that hear the event were called, in order, up to one that stops it at
      once. */
  ghost predicate Walked(s: State, t: State, event: Event, key: Key, flags: set<bool>, clone: seq<Rec>,
                         bodies: seq<Script>, next: nat) {
    var called := UpToStop(Hearing(clone, flags, s.aborted), bodies, next, event);
    && t.log == s.log + Ran(event, called) && Spares(s, t, key, flags)
    && CallsOnly(s, t, event, SomeStops(bodies, next, next + |called|))
  }

  lemma NoneCalled(s: State, event: Event, key: Key, flags: set<bool>, bodies: seq<Script>, next: nat)
    ensures Walked(s, s, event, key, flags, [], bodies, next)
  {
  }

  lemma Dropped(s: State, event: Event, key: Key, rec: Rec, flags: set<bool>)
    requires IsAborted(rec, s.aborted)
    ensures var t := Drop(s, key, rec);
            && t == s.(lists := t.lists) && Spares(s, t, key, flags)
            && forall r :: r in ListOf(s, key) && r != rec ==> r in ListOf(t, key)
  {
    DropSpares(s, key, rec, flags);
  }

  /** The first call and the others. */
  lemma CalledFirst(rec: Rec, rest: seq<Rec>, bodies: seq<Script>, next: nat, event: Event)
    ensures var called := UpToStop([rec] + rest, bodies, next, event);
            var last := next < |bodies| && bodies[next] == Then(Stop(event), Done);
            var others := if last then [] else UpToStop(rest, bodies, next + 1, event);
            && called == [rec] + others && Ran(event, called) == [Invocation(event, rec)] + Ran(event, others)
            && (SomeStops(bodies, next, next + |called|)
                <==> (next < |bodies| && bodies[next] != Done) || SomeStops(bodies, next + 1, next + 1 + |others|))
  {
    assert ([rec] + rest)[1..] == rest;
    var last := next < |bodies| && bodies[next] == Then(Stop(event), Done);
    var others := if last then [] else UpToStop(rest, bodies, next + 1, event);
    assert UpToStop([rec] + rest, bodies, next, event) == [rec] + others;
    assert Ran(event, [rec] + others) == [Invocation(event, rec)] + Ran(event, others);
  }

  /** A listener that does not hear the event, taken out if its signal is aborted. */
  lemma PassedOver(s: State, t: State, event: Event, key: Key, flags: set<bool>, clone: seq<Rec>, bodies: seq<Script>,
                   next: nat)
    requires clone != [] && var rec := clone[0];
             var u := if rec.capture in flags then Drop(s, key, rec) else s;
             (rec.capture !in flags || IsAborted(rec, s.aborted))
                 && Walked(u, t, event, key, flags, clone[1..], bodies, next)
    ensures Walked(s, t, event, key, flags, clone, bodies, next)
  {
    hide Spares, UpToStop, SomeStops, Drop;
    var rec := clone[0];
    assert Hearing(clone, flags, s.aborted) == Hearing(clone[1..], flags, s.aborted);
    if rec.capture in flags {
      Dropped(s, event, key, rec, flags);
      SparesTwice(s, Drop(s, key, rec), t, key, flags);
    }
  }

  /** A listener that is called, and then the others unless it stops the event at once. */
  lemma CalledThen(s: State, t: State, event: Event, key: Key, flags: set<bool>, clone: seq<Rec>, bodies: seq<Script>,
                   next: nat)
    requires clone != [] && event !in s.stopped && AllOnlyStop(bodies, event)
    requires var rec := clone[0];
             && rec.capture in flags && !IsAborted(rec, s.aborted) && rec in ListOf(s, key)
             && var after := After(s, event, key, rec, bodies, next, Program);
             if event in after.stopped then t == after
             else Walked(after, t, event, key, flags, clone[1..], bodies, next + 1)
    ensures Walked(s, t, event, key, flags, clone, bodies, next)
  {
    hide Spares, UpToStop, SomeStops, After, AllOnlyStop, ListOf;
    var rec, rest := clone[0], Hearing(clone[1..], flags, s.aborted);
    CalledOnce(s, event, key, rec, bodies, next, flags);
    assert Hearing(clone, flags, s.aborted) == [rec] + rest;
    CalledFirst(rec, rest, bodies, next, event);
    var after := After(s, event, key, rec, bodies, next, Program);
    assert Ran(event, []) == [];
    if event in after.stopped {
      assert !SomeStops(bodies, next + 1, next + 1) by { Nothing(bodies, next + 1); }
    } else {
      SparesTwice(s, after, t, key, flags);
    }
  }

  lemma Nothing(bodies: seq<Script>, n: nat)
    ensures !SomeStops(bodies, n, n)
  {
  }

  /** A walk does just that. */
  lemma {:induction false} WalkCalls(s: State, event: Event, key: Key, phase: Option<bool>, clone: seq<Rec>,
                                     bodies: seq<Script>, next: nat)
    requires Distinct(clone) && (forall r :: r in clone ==> r in ListOf(s, key)) && AllOnlyStop(bodies, event)
    requires event !in s.stopped
    ensures Walked(s, Invoke(s, event, key, phase, clone, bodies, next, Program), event, key, FlagsOf(phase), clone,
                   bodies,
                   next)
    decreases |clone|
  {
    hide Spares, After, Drop, ListOf, AllOnlyStop, Walked;
    var flags, t := FlagsOf(phase), Invoke(s, event, key, phase, clone, bodies, next, Program);
    if clone == [] {
      NoneCalled(s, event, key, flags, bodies, next);
    } else {
      var rec, rest := clone[0], clone[1..];
      assert forall r :: r in rest ==> r in clone && r != rec;
      if Skips(phase, rec) {
        WalkCalls(s, event, key, phase, rest, bodies, next);
        PassedOver(s, t, event, key, flags, clone, bodies, next);
      } else if IsAborted(rec, s.aborted) {
        Dropped(s, event, key, rec, flags);
        WalkCalls(Drop(s, key, rec), event, key, phase, rest, bodies, next);
        PassedOver(s, t, event, key, flags, clone, bodies, next);
      } else {
        var after := After(s, event, key, rec, bodies, next, Program);
        CalledOnce(s, event, key, rec, bodies, next, flags);
        if event !in after.stopped { WalkCalls(after, event, key, phase, rest, bodies, next + 1); }
        CalledThen(s, t, event, key, flags, clone, bodies, next);
      }
    }
  }

  // ----- the targets of a dispatch, one after the other

  /** Capturing listeners on the way down, listeners of both kinds at the target, the others on the way up. */
  function FlagsIn(phase: EventPath.Phase): set<bool> {
    match phase
    case Capturing => {true}
    case AtTarget => {true, false}
    case Bubbling => {false}
  }

  function Place(visit: EventPath.Visit, typ: string): Key { Key(Ident(visit.target), typ) }

  /** The listeners that a visit calls. */
  function Audience(s: State, event: Event, typ: string, visit: EventPath.Visit, bodies: seq<Script>): seq<Rec> {
    if visit.Inline? then []
    else UpToStop(Hearing(ListOf(s, Place(visit, typ)), FlagsIn(visit.phase), s.aborted), bodies, 0, event)
  }

  /** What a visit adds to the log. */
  function VisitLog(s: State, event: Event, typ: string, visit: EventPath.Visit, bodies: seq<Script>): seq<Invocation> {
    if visit.Inline? then [Handled(event, Place(visit, typ))]
    else Ran(event, Audience(s, event, typ, visit, bodies))
  }

  /** Whether it stops the event. */
  ghost predicate VisitStops(s: State, event: Event, typ: string, visit: EventPath.Visit, bodies: seq<Script>) {
    SomeStops(bodies, 0, if visit.Inline? then 1 else |Audience(s, event, typ, visit, bodies)|)
  }

  /** What the visits add, up to the first one that stops the event. */
  ghost function WayLog(s: State, event: Event, typ: string, way: seq<EventPath.Visit>, visit: nat,
                        plan: Plan): seq<Invocation> {
    if way == [] then []
    else
      VisitLog(s, event, typ, way[0], During(plan, visit))
      + if VisitStops(s, event, typ, way[0], During(plan, visit)) then []
        else WayLog(s, event, typ, way[1..], visit + 1, plan)
  }

  function FlagsOfVisit(visit: EventPath.Visit): set<bool> { if visit.Inline? then {} else FlagsIn(visit.phase) }

  /** No target is visited twice for listeners of the same kind. */
  ghost predicate NoneTwice(way: seq<EventPath.Visit>) {
    forall i, j :: 0 <= i < j < |way| ==>
      Ident(way[i].target) != Ident(way[j].target) || FlagsOfVisit(way[i]) !! FlagsOfVisit(way[j])
  }

  lemma UniqueDistinct(s: State, key: Key)
    requires Inv(s)
    ensures Distinct(ListOf(s, key))
  {
    if key in s.lists { assert GoodList(s.lists[key], key, s.nextId); }
  }

  lemma VisitCalls(s: State, event: Event, typ: string, visit: EventPath.Visit, bodies: seq<Script>)
    requires Inv(s) && AllOnlyStop(bodies, event) && event !in s.stopped
    ensures var t := Visited(s, event, typ, visit, bodies, Program);
            && t.log == s.log + VisitLog(s, event, typ, visit, bodies)
            && Spares(s, t, Place(visit, typ), FlagsOfVisit(visit))
            && CallsOnly(s, t, event, VisitStops(s, event, typ, visit, bodies))
  {
    hide Spares, Invoke, Inv, Hearing, UpToStop, AllOnlyStop, CallsOnly;
    var key := Place(visit, typ);
    match visit
    case Inline(_) => HandlerCalls(s, event, key, bodies);
    case Visit(phase, _) =>
      UniqueDistinct(s, key);
      WalkCalls(s, event, key, if phase == EventPath.AtTarget then None else Some(phase == EventPath.Capturing),
                ListOf(s, key), bodies, 0);
  }

  lemma HandlerCalls(s: State, event: Event, key: Key, bodies: seq<Script>)
    requires AllOnlyStop(bodies, event)
    ensures var called := s.(log := s.log + [Handled(event, key)]);
            var t := if bodies == [] then called else Run(called, bodies[0], Program);
            && t.log == s.log + [Handled(event, key)] && Spares(s, t, key, {})
            && CallsOnly(s, t, event, SomeStops(bodies, 0, 1))
  {
    hide Hearing, Lasting;
    var called := s.(log := s.log + [Handled(event, key)]);
    if bodies != [] {
      RunStops(called, bodies[0], event);
      assert SomeStops(bodies, 0, 1) <==> bodies[0] != Done;
    }
    var t := if bodies == [] then called else Run(called, bodies[0], Program);
    assert forall k :: ListOf(t, k) == ListOf(s, k);
  }

  /** A visit leaves the listeners that the later ones call. */
  lemma {:induction false} WaySpared(s: State, t: State, event: Event, typ: string, first: EventPath.Visit,
                                     way: seq<EventPath.Visit>, visit: nat, plan: Plan)
    requires Spares(s, t, Place(first, typ), FlagsOfVisit(first)) && t.aborted == s.aborted
    requires forall j :: 0 <= j < |way| ==>
               Ident(first.target) != Ident(way[j].target) || FlagsOfVisit(first) !! FlagsOfVisit(way[j])
    ensures WayLog(t, event, typ, way, visit, plan) == WayLog(s, event, typ, way, visit, plan)
    decreases |way|
  {
    hide Hearing, Lasting, UpToStop, SomeStops;
    if way != [] {
      assert Audience(t, event, typ, way[0], During(plan, visit))
          == Audience(s, event, typ, way[0], During(plan, visit));
      WaySpared(s, t, event, typ, first, way[1..], visit + 1, plan);
    }
  }

  /** The visits add just that to the log, and no lasting listener is taken out. */
  lemma {:induction false} VisitsCall(s: State, event: Event, typ: string, way: seq<EventPath.Visit>, visit: nat,
                                      plan: Plan)
    requires Inv(s) && PlanOnlyStops(plan, event) && NoneTwice(way) && event !in s.halted && event !in s.stopped
    ensures var t := Visits(s, event, typ, way, visit, plan, Program);
            && t.log == s.log + WayLog(s, event, typ, way, visit, plan)
            && t == s.(lists := t.lists, log := t.log, halted := t.halted, stopped := t.stopped)
            && t.halted <= s.halted + {event} && t.stopped <= s.stopped + {event}
            && s.halted <= t.halted && s.stopped <= t.stopped
            && forall k :: Lasting(ListOf(t, k), s.aborted) == Lasting(ListOf(s, k), s.aborted)
    decreases |way|
  {
    hide Inv, Visited, VisitLog, VisitStops, Lasting, AllOnlyStop, Hearing;
    if way != [] {
      var bodies := During(plan, visit);
      var t := Visited(s, event, typ, way[0], bodies, Program);
      VisitCalls(s, event, typ, way[0], bodies);
      VisitedKeeps(s, event, typ, way[0], bodies, Program);
      var u := Visits(t, event, typ, way[1..], visit + 1, plan, Program);
      if event !in t.halted {
        WaySpared(s, t, event, typ, way[0], way[1..], visit + 1, plan);
        VisitsCall(t, event, typ, way[1..], visit + 1, plan);
      }
    }
  }

  /** Along a path the event is sent to each target in turn: to the listeners that hear it there, up to one that stops
      it at once, and on to the next target unless one of those called has stopped it. Afterwards the event is as
      before, and so are the lists, but for listeners that do not last. */
  lemma DispatchCalls(s: State, event: Event, node: EventPath.Node, typ: string, composed: bool, bubbles: bool,
                      handler: bool, plan: Plan)
    requires Inv(s) && PlanOnlyStops(plan, event)
    requires event !in s.busy && event !in s.halted && event !in s.stopped
    requires NoneTwice(EventPath.Order(EventPath.Path(node, composed, typ == "load"), handler, bubbles))
    ensures var t := Exec(s, Dispatch(event, node, typ, composed, bubbles, handler, plan), Program);
            var way := EventPath.Order(EventPath.Path(node, composed, typ == "load"), handler, bubbles);
            && t.log == s.log + WayLog(s, event, typ, way, 0, plan)
            && t == s.(lists := t.lists, log := t.log, reused := t.reused)
            && forall k :: Lasting(ListOf(t, k), s.aborted) == Lasting(ListOf(s, k), s.aborted)
  {
    hide Inv, Visits, WayLog, Lasting, NoneTwice, EventPath.Order, EventPath.Path, PlanOnlyStops, Ended;
    var way := EventPath.Order(EventPath.Path(node, composed, typ == "load"), handler, bubbles);
    var begun := Begun(Noted(s, event), event);
    FlagsKeep(s, event, Program);
    VisitsCall(begun, event, typ, way, 0, plan);
    SameListeners(s, begun, event, typ, way, 0, plan);
    EndedAsBefore(s, Visits(begun, event, typ, way, 0, plan, Program), event);
  }

  lemma EndedAsBefore(s: State, t: State, event: Event)
    requires event !in s.busy && event !in s.halted && event !in s.stopped
    requires t == Begun(Noted(s, event), event).(lists := t.lists, log := t.log, halted := t.halted,
                                                 stopped := t.stopped)
    requires s.halted <= t.halted <= s.halted + {event} && s.stopped <= t.stopped <= s.stopped + {event}
    ensures Ended(t, event) == s.(lists := t.lists, log := t.log, reused := t.reused)
    ensures forall k :: ListOf(Ended(t, event), k) == ListOf(t, k)
    ensures forall k :: ListOf(Begun(Noted(s, event), event), k) == ListOf(s, k)
  {
    assert t.busy - {event} == s.busy;
    assert t.halted - {event} == s.halted && t.stopped - {event} == s.stopped;
  }

  lemma {:induction false} SameListeners(s: State, t: State, event: Event, typ: string, way: seq<EventPath.Visit>,
                                         visit: nat, plan: Plan)
    requires t.lists == s.lists && t.aborted == s.aborted
    ensures WayLog(t, event, typ, way, visit, plan) == WayLog(s, event, typ, way, visit, plan)
    decreases |way|
  {
    hide Hearing, UpToStop, SomeStops;
    if way != [] {
      assert Audience(t, event, typ, way[0], During(plan, visit))
          == Audience(s, event, typ, way[0], During(plan, visit));
      SameListeners(s, t, event, typ, way[1..], visit + 1, plan);
    }
  }

  /** Outside the tree, the listeners of both kinds hear the event, in the order of their registration. */
  lemma DirectCalls(s: State, event: Event, key: Key, bodies: seq<Script>)
    requires Inv(s) && AllOnlyStop(bodies, event) && event !in s.busy && event !in s.stopped
    ensures Exec(s, Direct(event, key, bodies), Program).log
         == s.log + Ran(event, UpToStop(Hearing(ListOf(s, key), {true, false}, s.aborted), bodies, 0, event))
  {
    hide Inv, Invoke, Hearing, UpToStop, AllOnlyStop, Spares, CallsOnly;
    var begun := Opened(Noted(s, event), event);
    UniqueDistinct(s, key);
    assert ListOf(begun, key) == ListOf(s, key);
    WalkCalls(begun, event, key, None, ListOf(s, key), bodies, 0);
  }

  /** An event that is being dispatched along a path calls nothing when it is dispatched once more meanwhile. */
  lemma BusyCallsNothing(s: State, op: Op)
    requires (op.Dispatch? || op.Direct?) && op.event in s.busy
    ensures Exec(s, op, Program) == s.(reused := Exec(s, op, Program).reused)
  {
  }

  // ----- the path spelled out

  /** A target is on the path once. */
  ghost predicate PathDistinct(path: seq<EventPath.Target>) {
    forall p, q :: 0 <= p < q < |path| ==> Ident(path[p]) != Ident(path[q])
  }

  lemma OrderNoneTwice(path: seq<EventPath.Target>, handler: bool, bubbles: bool)
    requires path != [] && PathDistinct(path)
    ensures NoneTwice(EventPath.Order(path, handler, bubbles))
  {
    var way, n, m := EventPath.Order(path, handler, bubbles), |path| - 1, if handler then 2 else 1;
    forall i, j | 0 <= i < j < |way|
      ensures Ident(way[i].target) != Ident(way[j].target) || FlagsOfVisit(way[i]) !! FlagsOfVisit(way[j])
    {
      var p := if i < n then n - i else if i < n + m then 0 else i - (n + m) + 1;
      var q := if j < n then n - j else if j < n + m then 0 else j - (n + m) + 1;
      assert way[i].target == path[p] && way[j].target == path[q];
      if p == q {
        assert i < n + m;
      } else {
        assert Ident(path[if p < q then p else q]) != Ident(path[if p < q then q else p]);
      }
    }
  }

  /** The callbacks do nothing. */
  ghost predicate Quiet(plan: Plan) {
    && (forall v, i :: 0 <= v < |plan.visits| && 0 <= i < |plan.visits[v].scripts| ==>
          plan.visits[v].scripts[i] == Done)
    && forall i :: 0 <= i < |plan.others| ==> plan.others[i] == Done
  }

  lemma QuietOnlyStops(plan: Plan, event: Event)
    requires Quiet(plan)
    ensures PlanOnlyStops(plan, event)
    ensures forall v: nat, i :: 0 <= i < |During(plan, v)| ==> During(plan, v)[i] == Done
  {
  }

  lemma {:induction false} QuietNoStop(recs: seq<Rec>, bodies: seq<Script>, next: nat, event: Event)
    requires forall i :: 0 <= i < |bodies| ==> bodies[i] == Done
    ensures UpToStop(recs, bodies, next, event) == recs
  {
    if recs != [] { QuietNoStop(recs[1..], bodies, next + 1, event); }
  }

  /** The log of some of the visits. */
  function VisitsLog(s: State, event: Event, typ: string, way: seq<EventPath.Visit>): seq<Invocation> {
    if way == [] then [] else VisitLog(s, event, typ, way[0], []) + VisitsLog(s, event, typ, way[1..])
  }

  lemma {:induction false} QuietWay(s: State, event: Event, typ: string, way: seq<EventPath.Visit>, visit: nat,
                                    plan: Plan)
    requires Quiet(plan)
    ensures WayLog(s, event, typ, way, visit, plan) == VisitsLog(s, event, typ, way)
    decreases |way|
  {
    hide Hearing;
    if way != [] {
      QuietOnlyStops(plan, event);
      if way[0].Visit? {
        var recs := Hearing(ListOf(s, Place(way[0], typ)), FlagsIn(way[0].phase), s.aborted);
        QuietNoStop(recs, During(plan, visit), 0, event);
        QuietNoStop(recs, [], 0, event);
      }
      QuietWay(s, event, typ, way[1..], visit + 1, plan);
    }
  }

  lemma {:induction false} VisitsLogConcat(s: State, event: Event, typ: string, a: seq<EventPath.Visit>,
                                           b: seq<EventPath.Visit>)
    ensures VisitsLog(s, event, typ, a + b) == VisitsLog(s, event, typ, a) + VisitsLog(s, event, typ, b)
    decreases |a|
  {
    hide VisitLog;
    if a == [] {
      assert a + b == b;
    } else {
      assert (a + b)[1..] == a[1..] + b && (a + b)[0] == a[0];
      VisitsLogConcat(s, event, typ, a[1..], b);
    }
  }

  function ListenersAt(s: State, target: EventPath.Target, typ: string): seq<Rec> { ListOf(s, Key(Ident(target), typ)) }

  /** The capturing listeners from place `n` of the path down to the one above the target. */
  function Down(s: State, event: Event, typ: string, path: seq<EventPath.Target>, n: nat): seq<Invocation>
    requires n < |path|
  {
    if n == 0 then []
    else Ran(event, Hearing(ListenersAt(s, path[n], typ), {true}, s.aborted)) + Down(s, event, typ, path, n - 1)
  }

  /** The listeners that are not capturing, from place `n` of the path to its end. */
  function Up(s: State, event: Event, typ: string, path: seq<EventPath.Target>, n: nat): seq<Invocation>
    decreases |path| - n
  {
    if n >= |path| then []
    else Ran(event, Hearing(ListenersAt(s, path[n], typ), {false}, s.aborted)) + Up(s, event, typ, path, n + 1)
  }

  lemma {:induction false} CapturesDown(s: State, event: Event, typ: string, path: seq<EventPath.Target>, k: nat)
    requires k < |path|
    ensures VisitsLog(s, event, typ, EventPath.Captures(path, |path| - 1)[k..])
         == Down(s, event, typ, path, |path| - 1 - k)
    decreases |path| - k
  {
    hide Hearing, UpToStop;
    var way := EventPath.Captures(path, |path| - 1);
    if k < |path| - 1 {
      CapturesDown(s, event, typ, path, k + 1);
      assert way[k..][0] == way[k] && way[k..][1..] == way[k + 1..];
      QuietNoStop(Hearing(ListenersAt(s, path[|path| - 1 - k], typ), {true}, s.aborted), [], 0, event);
    }
  }

  lemma {:induction false} BubblesUp(s: State, event: Event, typ: string, path: seq<EventPath.Target>, k: nat)
    requires k < |path|
    ensures VisitsLog(s, event, typ, EventPath.Bubbles(path, |path| - 1)[k..]) == Up(s, event, typ, path, k + 1)
    decreases |path| - k
  {
    hide Hearing, UpToStop;
    var way := EventPath.Bubbles(path, |path| - 1);
    if k < |path| - 1 {
      BubblesUp(s, event, typ, path, k + 1);
      assert way[k..][0] == way[k] && way[k..][1..] == way[k + 1..];
      QuietNoStop(Hearing(ListenersAt(s, path[k + 1], typ), {false}, s.aborted), [], 0, event);
    }
  }

  lemma TargetLog(s: State, event: Event, typ: string, path: seq<EventPath.Target>, handler: bool)
    requires path != []
    ensures VisitsLog(s, event, typ, EventPath.AtTheTarget(path, handler))
         == (if handler then [Handled(event, Key(Ident(path[0]), typ))] else [])
            + Ran(event, Hearing(ListenersAt(s, path[0], typ), {true, false}, s.aborted))
  {
    hide Hearing, UpToStop;
    var own := EventPath.Visit(EventPath.AtTarget, path[0]);
    QuietNoStop(Hearing(ListenersAt(s, path[0], typ), {true, false}, s.aborted), [], 0, event);
    assert [own][1..] == [];
    assert VisitsLog(s, event, typ, [own]) == VisitLog(s, event, typ, own, []);
    if handler {
      VisitsLogConcat(s, event, typ, [EventPath.Inline(path[0])], [own]);
      assert [EventPath.Inline(path[0])][1..] == [];
    } else {
      assert [] + [own] == [own];
    }
  }

  /** With callbacks that do nothing: first the capturing listeners of what is above the target, from the end of the
      path down, then the target's inline handler and all its listeners as they were registered, and then, if the event
      bubbles, the other listeners of what is above the target, going up. */
  lemma QuietDispatch(s: State, event: Event, node: EventPath.Node, typ: string, composed: bool, bubbles: bool,
                      handler: bool, plan: Plan)
    requires Inv(s) && Quiet(plan) && event !in s.busy && event !in s.halted && event !in s.stopped
    requires PathDistinct(EventPath.Path(node, composed, typ == "load"))
    ensures var path := EventPath.Path(node, composed, typ == "load");
            var key := Key(Ident(EventPath.OfNode(node)), typ);
            Exec(s, Dispatch(event, node, typ, composed, bubbles, handler, plan), Program).log
            == s.log + Down(s, event, typ, path, |path| - 1) + (if handler then [Handled(event, key)] else [])
               + Ran(event, Hearing(ListOf(s, key), {true, false}, s.aborted))
               + if bubbles then Up(s, event, typ, path, 1) else []
  {
    hide Inv, Exec, Hearing, Down, Up, VisitsLog, WayLog, PathDistinct, EventPath.Path, Quiet, Ran, NoneTwice;
    var path := EventPath.Path(node, composed, typ == "load");
    var down, own := EventPath.Captures(path, |path| - 1), EventPath.AtTheTarget(path, handler);
    var up := if bubbles then EventPath.Bubbles(path, |path| - 1) else [];
    OrderNoneTwice(path, handler, bubbles);
    QuietOnlyStops(plan, event);
    DispatchCalls(s, event, node, typ, composed, bubbles, handler, plan);
    QuietWay(s, event, typ, down + own + up, 0, plan);
    VisitsLogConcat(s, event, typ, down + own, up);
    VisitsLogConcat(s, event, typ, down, own);
    CapturesDown(s, event, typ, path, 0);
    TargetLog(s, event, typ, path, handler);
    assert down[0..] == down;
    if bubbles {
      BubblesUp(s, event, typ, path, 0);
      assert up[0..] == up;
    } else {
      NoVisits(s, event, typ);
    }
  }

  lemma NoVisits(s: State, event: Event, typ: string)
    ensures VisitsLog(s, event, typ, []) == []
  {
  }

  // ----- an example

  const PARENT := EventPath.Node(0, false, EventPath.Nothing, None)
  const CHILD := EventPath.Node(1, false, EventPath.Parent(PARENT), None)
  const ABOVE := Key(2, "load")

  /** One callback, registered at the parent for either kind, and an event at the child. */
  function AtChild(bubbles: bool): Script {
    Then(Register(ABOVE, 7, false, false, None),
         Then(Register(ABOVE, 7, true, false, None),
              Then(Dispatch(0, CHILD, "load", false, bubbles, false, Plan([], [])), Done)))
  }

  lemma PathOfChild()
    ensures EventPath.Path(CHILD, false, true) == [EventPath.OfNode(CHILD), EventPath.OfNode(PARENT)]
  {
    assert EventPath.Reach(PARENT, false) == [PARENT];
    assert EventPath.Reach(CHILD, false) == [CHILD, PARENT];
  }

  /** The parent hears the event on its way down, and again on its way up if it bubbles, although that listener was
      registered first. */
  lemma ParentHears(bubbles: bool)
    ensures var capturing, other := Rec(1, ABOVE, 7, true, false, None), Rec(0, ABOVE, 7, false, false, None);
            Run(EMPTY, AtChild(bubbles), Program).log
            == [Invocation(0, capturing)] + if bubbles then [Invocation(0, other)] else []
  {
    hide Exec, Run, Inv, Ran, EventPath.Path;
    var capturing, other := Rec(1, ABOVE, 7, true, false, None), Rec(0, ABOVE, 7, false, false, None);
    var t := EMPTY.(lists := map[ABOVE := [other]], nextId := 1);
    var u := EMPTY.(lists := map[ABOVE := [other, capturing]], nextId := 2);
    RunAtChild(t, u, bubbles);
    PathOfChild();
    EmptyKeeps();
    ExecKeeps(EMPTY, Register(ABOVE, 7, false, false, None), Program);
    ExecKeeps(t, Register(ABOVE, 7, true, false, None), Program);
    QuietDispatch(u, 0, CHILD, "load", false, bubbles, false, Plan([], []));
    HearOne(other, capturing);
    var path := EventPath.Path(CHILD, false, true);
    assert Down(u, 0, "load", path, 0) == [] && Up(u, 0, "load", path, 2) == [];
    assert ListenersAt(u, path[1], "load") == [other, capturing] && ListenersAt(u, path[0], "load") == [];
    assert Hearing([], {true, false}, {}) == [];
    RanFew(other, capturing);
  }

  lemma RanFew(a: Rec, b: Rec)
    ensures Ran(0, []) == [] && Ran(0, [a]) == [Invocation(0, a)] && Ran(0, [b]) == [Invocation(0, b)]
  {
  }

  lemma HearOne(a: Rec, b: Rec)
    requires !a.capture && b.capture && a.signal == b.signal == None
    ensures Hearing([a, b], {true}, {}) == [b] && Hearing([a, b], {false}, {}) == [a]
  {
    assert [a, b][1..] == [b] && [b][1..] == [];
    assert Hearing([b], {true}, {}) == [b] && Hearing([b], {false}, {}) == [];
  }

  lemma RunAtChild(t: State, u: State, bubbles: bool)
    requires t == EMPTY.(lists := map[ABOVE := [Rec(0, ABOVE, 7, false, false, None)]], nextId := 1)
    requires u == EMPTY.(lists := map[ABOVE := [Rec(0, ABOVE, 7, false, false, None),
                                                Rec(1, ABOVE, 7, true, false, None)]],
                         nextId := 2)
    ensures Exec(EMPTY, Register(ABOVE, 7, false, false, None), Program) == t
    ensures Exec(t, Register(ABOVE, 7, true, false, None), Program) == u
    ensures Run(EMPTY, AtChild(bubbles), Program)
         == Exec(u, Dispatch(0, CHILD, "load", false, bubbles, false, Plan([], [])), Program)
  {
    hide Visits, Way, AtTarget, Run;
    var first, second := Rec(0, ABOVE, 7, false, false, None), Rec(1, ABOVE, 7, true, false, None);
    assert [] + [first] == [first] && [first] + [second] == [first, second] && [first][1..] == [];
    assert map[ABOVE := [first]][ABOVE := [first, second]] == map[ABOVE := [first, second]];
    assert map[][ABOVE := [first]] == map[ABOVE := [first]];
    RegisterAdds(EMPTY, ABOVE, 7, false, false, None);
    RegisterAdds(t, ABOVE, 7, true, false, None);
    var dispatch := Dispatch(0, CHILD, "load", false, bubbles, false, Plan([], []));
    RunThen(EMPTY, Register(ABOVE, 7, false, false, None), AtChild(bubbles).rest);
    RunThen(t, Register(ABOVE, 7, true, false, None), AtChild(bubbles).rest.rest);
    RunThen(u, dispatch, Done);
  }

  lemma RunThen(s: State, op: Op, rest: Script)
    ensures Run(s, Then(op, rest), Program) == Run(Exec(s, op, Program), rest, Program)
    ensures Run(Exec(s, op, Program), Done, Program) == Exec(s, op, Program)
  {
    hide Exec;
  }
}
