/** What a direct dispatch leaves behind. The program ends it with the event's flags as they are, and lets the event be
    dispatched again meanwhile; section 2.9 of the DOM Standard clears the flags and refuses the event. In a run that
    dispatches no such event once more this makes no difference. */
module LeftFlags {
  import opened Collections
  import opened Events
  import EventPath

  /** The same, but for the flags of events that a direct dispatch has left halted. */
  ghost predicate SameBut(s: State, t: State) {
    && t == s.(halted := t.halted, stopped := t.stopped)
    && s.stopped <= s.halted && t.stopped <= t.halted && s.open !! s.left
    && forall e :: e !in s.left ==> (e in s.halted <==> e in t.halted) && (e in s.stopped <==> e in t.stopped)
  }

  /** Every dispatch that has begun has ended, and an event that was under way all the time was not left. */
  ghost predicate Settled(s: State, t: State) {
    && t.open == s.open && t.busy == s.busy && s.left <= t.left
    && forall e :: e in t.left && e !in s.left ==> e !in s.open && e !in s.busy
  }

  ghost predicate UnderWay(s: State, event: Event) { event !in s.left && (event in s.open || event in s.busy) }

  lemma SettledTwice(s: State, t: State, u: State)
    requires Settled(s, t) && Settled(t, u)
    ensures Settled(s, u)
  {
  }

  lemma CallSame(s: State, t: State, event: Event, key: Key, rec: Rec)
    requires SameBut(s, t)
    ensures SameBut(Call(s, event, key, rec), Call(t, event, key, rec)) && Settled(s, Call(s, event, key, rec))
  {
  }

  lemma DropSame(s: State, t: State, key: Key, rec: Rec)
    requires SameBut(s, t)
    ensures SameBut(Drop(s, key, rec), Drop(t, key, rec)) && Settled(s, Drop(s, key, rec))
  {
  }

  lemma AddSame(s: State, t: State, key: Key, callback: Callback, capture: bool, once: bool, signal: Option<Signal>)
    requires SameBut(s, t)
    ensures SameBut(AddListener(s, key, callback, capture, once, signal),
                    AddListener(t, key, callback, capture, once, signal))
    ensures Settled(s, AddListener(s, key, callback, capture, once, signal))
  {
  }

  /** A node dispatch begins and ends with the flags clear. */
  lemma BegunSame(s: State, t: State, event: Event)
    requires SameBut(s, t) && !Noted(s, event).reused && event !in s.busy
    ensures var begun, other := Begun(Noted(s, event), event), Begun(Noted(t, event), event);
            SameBut(begun, other) && UnderWay(begun, event) && !TurnedAway(Noted(t, event), event, Clearing)
  {
  }

  lemma EndedSame(s: State, event: Event, u: State, v: State)
    requires !Noted(s, event).reused && event !in s.busy
    requires SameBut(u, v) && Settled(Begun(Noted(s, event), event), u)
    ensures SameBut(Ended(u, event), Ended(v, event)) && Settled(s, Ended(u, event))
  {
    assert s.busy + {event} - {event} == s.busy;
  }

  lemma OpenedSame(s: State, t: State, event: Event)
    requires SameBut(s, t) && !Noted(s, event).reused && event !in s.busy
    ensures var begun, other := Opened(Noted(s, event), event), Opened(Noted(t, event), event);
            SameBut(begun, other) && UnderWay(begun, event) && !TurnedAway(Noted(t, event), event, Clearing)
  {
  }

  lemma ClosedSame(s: State, event: Event, u: State, v: State)
    requires !Noted(s, event).reused && event !in s.busy && s.open !! s.left
    requires SameBut(u, v) && Settled(Opened(Noted(s, event), event), u)
    ensures SameBut(Closed(u, event, Eager), Closed(v, event, Clearing)) && Settled(s, Closed(u, event, Eager))
  {
    assert s.open + {event} - {event} == s.open;
  }

  lemma {:induction false} ExecSame(s: State, t: State, op: Op)
    requires Inv(s) && SameBut(s, t) && !Exec(s, op, Eager).reused
    ensures SameBut(Exec(s, op, Eager), Exec(t, op, Clearing)) && Settled(s, Exec(s, op, Eager))
    decreases op
  {
    hide Inv, Visits, Invoke, Way, Find, Drop, AddListener, Noted, Begun, Ended, Opened, Closed;
    match op
    case Register(key, callback, capture, once, signal) => AddSame(s, t, key, callback, capture, once, signal);
    case Remove(key, callback, capture) =>
      var found := Find(ListOf(s, key), callback, capture);
      if found.Some? { DropSame(s, t, key, found.value); }
    case Abort(sig) =>
    case Halt(event) =>
    case Stop(event) =>
    case Dispatch(event, node, typ, composed, bubbles, handler, plan) =>
      SameWay(node, typ, composed, bubbles, handler);
      NotedIs(s, t, event);
      DispatchSame(s, t, event, typ, Way(node, typ, composed, bubbles, handler, Eager), plan);
    case Direct(event, key, bodies) => DirectSame(s, t, event, key, bodies);
  }

  lemma NotedIs(s: State, t: State, event: Event)
    requires SameBut(s, t)
    ensures SameBut(Noted(s, event), Noted(t, event)) && Settled(s, Noted(s, event))
    ensures TurnedAway(Noted(s, event), event, Eager) <==> event in s.busy
    ensures event in s.busy ==> TurnedAway(Noted(t, event), event, Clearing)
  {
  }

  lemma {:induction false} DispatchSame(s: State, t: State, event: Event, typ: string, way: seq<EventPath.Visit>,
                                        plan: Plan)
    requires Inv(s) && SameBut(s, t)
    requires var u := if event in s.busy then Noted(s, event)
                      else Ended(Visits(Begun(Noted(s, event), event), event, typ, way, 0, plan, Eager), event);
             !u.reused
    ensures var u := if event in s.busy then Noted(s, event)
                     else Ended(Visits(Begun(Noted(s, event), event), event, typ, way, 0, plan, Eager), event);
            var v := if TurnedAway(Noted(t, event), event, Clearing) then Noted(t, event)
                     else Ended(Visits(Begun(Noted(t, event), event), event, typ, way, 0, plan, Clearing), event);
            SameBut(u, v) && Settled(s, u)
    decreases plan, 6, 0
  {
    hide Inv, Visits, SameBut, Settled, UnderWay;
    NotedIs(s, t, event);
    if event !in s.busy {
      var begun, other := Begun(Noted(s, event), event), Begun(Noted(t, event), event);
      FlagsKeep(s, event, Eager);
      VisitsKeeps(begun, event, typ, way, 0, plan, Eager);
      BegunSame(s, t, event);
      VisitsSame(begun, other, event, typ, way, 0, plan);
      EndedSame(s, event, Visits(begun, event, typ, way, 0, plan, Eager),
                Visits(other, event, typ, way, 0, plan, Clearing));
    }
  }

  lemma {:induction false} DirectSame(s: State, t: State, event: Event, key: Key, bodies: seq<Script>)
    requires Inv(s) && SameBut(s, t) && !Exec(s, Direct(event, key, bodies), Eager).reused
    ensures var u, v := Exec(s, Direct(event, key, bodies), Eager), Exec(t, Direct(event, key, bodies), Clearing);
            SameBut(u, v) && Settled(s, u)
    decreases bodies, 5, 0
  {
    hide Inv, Invoke, Settled, UnderWay;
    NotedIs(s, t, event);
    if event !in s.busy {
      var begun, other := Opened(Noted(s, event), event), Opened(Noted(t, event), event);
      FlagsKeep(s, event, Eager);
      InvokeKeeps(begun, event, key, None, ListOf(begun, key), bodies, 0, Eager);
      OpenedSame(s, t, event);
      InvokeSame(begun, other, event, key, None, ListOf(begun, key), bodies, 0);
      ClosedSame(s, event, Invoke(begun, event, key, None, ListOf(begun, key), bodies, 0, Eager),
                 Invoke(other, event, key, None, ListOf(begun, key), bodies, 0, Clearing));
    }
  }

  lemma {:induction false} RunSame(s: State, t: State, script: Script)
    requires Inv(s) && SameBut(s, t) && !Run(s, script, Eager).reused
    ensures SameBut(Run(s, script, Eager), Run(t, script, Clearing)) && Settled(s, Run(s, script, Eager))
    decreases script
  {
    hide Inv, SameBut, Exec;
    match script
    case Done =>
    case Then(op, rest) =>
      var u := Exec(s, op, Eager);
      ExecKeeps(s, op, Eager);
      RunKeeps(u, rest, Eager);
      ExecSame(s, t, op);
      RunSame(u, Exec(t, op, Clearing), rest);
      SettledTwice(s, u, Run(u, rest, Eager));
  }

  lemma {:induction false} VisitsSame(s: State, t: State, event: Event, typ: string, way: seq<EventPath.Visit>,
                                      visit: nat, plan: Plan)
    requires Inv(s) && SameBut(s, t) && UnderWay(s, event) && !Visits(s, event, typ, way, visit, plan, Eager).reused
    ensures var u, v := Visits(s, event, typ, way, visit, plan, Eager),
        Visits(t, event, typ, way, visit, plan, Clearing);
            SameBut(u, v) && Settled(s, u)
    decreases plan, 5, |way|
  {
    hide Inv, Visited;
    if way != [] && event !in s.halted {
      var bodies := During(plan, visit);
      var u, v := Visited(s, event, typ, way[0], bodies, Eager), Visited(t, event, typ, way[0], bodies, Clearing);
      VisitedKeeps(s, event, typ, way[0], bodies, Eager);
      VisitsKeeps(u, event, typ, way[1..], visit + 1, plan, Eager);
      VisitedSame(s, t, event, typ, way[0], bodies);
      VisitsSame(u, v, event, typ, way[1..], visit + 1, plan);
      SettledTwice(s, u, Visits(u, event, typ, way[1..], visit + 1, plan, Eager));
    }
  }

  lemma {:induction false} VisitedSame(s: State, t: State, event: Event, typ: string, visit: EventPath.Visit,
                                       bodies: seq<Script>)
    requires Inv(s) && SameBut(s, t) && UnderWay(s, event) && !Visited(s, event, typ, visit, bodies, Eager).reused
    ensures var u, v := Visited(s, event, typ, visit, bodies, Eager), Visited(t, event, typ, visit, bodies, Clearing);
            SameBut(u, v) && Settled(s, u)
    decreases bodies, 4, 0
  {
    hide Inv, Invoke, Run;
    var key := Key(Ident(visit.target), typ);
    match visit
    case Inline(_) =>
      var called, later := s.(log := s.log + [Handled(event, key)]), t.(log := t.log + [Handled(event, key)]);
      OtherwiseKeeps(s, called);
      if bodies != [] {
        RunSame(called, later, bodies[0]);
        SettledTwice(s, called, Run(called, bodies[0], Eager));
      }
    case Visit(phase, _) =>
      InvokeSame(s, t, event, key, if phase == EventPath.AtTarget then None else Some(phase == EventPath.Capturing),
                 ListOf(s, key), bodies, 0);
  }

  lemma {:induction false} InvokeSame(s: State, t: State, event: Event, key: Key, phase: Option<bool>, clone: seq<Rec>,
                                      bodies: seq<Script>, next: nat)
    requires Inv(s) && SameBut(s, t) && UnderWay(s, event)
             && !Invoke(s, event, key, phase, clone, bodies, next, Eager).reused
    ensures var u := Invoke(s, event, key, phase, clone, bodies, next, Eager);
            SameBut(u, Invoke(t, event, key, phase, clone, bodies, next, Clearing)) && Settled(s, u)
    decreases bodies, 1, |clone|
  {
    hide Inv, After, Drop;
    if clone != [] {
      var rec := clone[0];
      if Skips(phase, rec) || rec !in ListOf(s, key) {
        InvokeSame(s, t, event, key, phase, clone[1..], bodies, next);
      } else if IsAborted(rec, s.aborted) {
        DropKeeps(s, key, rec);
        DropSame(s, t, key, rec);
        InvokeSame(Drop(s, key, rec), Drop(t, key, rec), event, key, phase, clone[1..], bodies, next);
        SettledTwice(s, Drop(s, key, rec), Invoke(Drop(s, key, rec), event, key, phase, clone[1..], bodies, next,
                                                  Eager));
      } else {
        var u, v := After(s, event, key, rec, bodies, next, Eager), After(t, event, key, rec, bodies, next, Clearing);
        AfterKeeps(s, event, key, rec, bodies, next, Eager);
        InvokeKeeps(u, event, key, phase, clone[1..], bodies, next + 1, Eager);
        AfterSame(s, t, event, key, rec, bodies, next);
        if event !in u.stopped {
          InvokeSame(u, v, event, key, phase, clone[1..], bodies, next + 1);
          SettledTwice(s, u, Invoke(u, event, key, phase, clone[1..], bodies, next + 1, Eager));
        }
      }
    }
  }

  lemma {:induction false} AfterSame(s: State, t: State, event: Event, key: Key, rec: Rec, bodies: seq<Script>,
                                     next: nat)
    requires Inv(s) && SameBut(s, t) && rec in ListOf(s, key) && !After(s, event, key, rec, bodies, next, Eager).reused
    ensures var u, v := After(s, event, key, rec, bodies, next, Eager),
        After(t, event, key, rec, bodies, next, Clearing);
            SameBut(u, v) && Settled(s, u)
    decreases bodies, 0, 0
  {
    hide Inv, SameBut, Settled, Call, Run;
    CallKeeps(s, event, key, rec);
    CallSame(s, t, event, key, rec);
    if next < |bodies| {
      RunSame(Call(s, event, key, rec), Call(t, event, key, rec), bodies[next]);
      SettledTwice(s, Call(s, event, key, rec), Run(Call(s, event, key, rec), bodies[next], Eager));
    }
  }

  /** A run from scratch that dispatches no event once more which a direct dispatch has left halted, or is still
      dispatching, is the same whether direct dispatches clear the flags or not, but for those flags. */
  lemma LeftAlone(script: Script)
    requires !Run(EMPTY, script, Eager).reused
    ensures SameBut(Run(EMPTY, script, Eager), Run(EMPTY, script, Clearing))
  {
    hide Run;
    EmptyKeeps();
    RunSame(EMPTY, EMPTY, script);
  }

  /** A single direct dispatch ends as in the standard exactly when its listeners leave the event's flags unset. */
  lemma ClosesAlikeExactly(s: State, event: Event)
    ensures Closed(s, event, Program) == Closed(s, event, Standard) <==> event !in s.halted && event !in s.stopped
  {
    assert event !in s.halted ==> s.halted - {event} == s.halted;
    assert event !in s.stopped ==> s.stopped - {event} == s.stopped;
  }

  /** What a flag that is left does: the next dispatch to a node calls nothing, and clears it. */
  lemma LeftCallsNothing(s: State, event: Event, node: EventPath.Node, typ: string, composed: bool, bubbles: bool,
                         handler: bool,
                         plan: Plan)
    requires event in s.halted && event !in s.busy
    ensures var t := Exec(s, Dispatch(event, node, typ, composed, bubbles, handler, plan), Program);
            t.log == s.log && event !in t.halted && event !in t.stopped
  {
    hide Way, Visited;
  }
}
