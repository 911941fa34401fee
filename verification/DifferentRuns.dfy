/** Runs on which the program and section 2.9 of the DOM Standard differ, one for each way in which they can. Events are
    sent to a node on its own, so that it is all of their path, or directly to a target outside the tree. */
module DifferentRuns {
  import opened Collections
  import opened Events
  import opened TargetPhase
  import EventPath
  import StandardPath

  const EVENT: Event := 0
  const LONE := EventPath.Node(0, false, EventPath.Nothing, None)
  const KEY := Key(2, "load")
  const OUTSIDE := Key(1, "load")

  function Add(key: Key, callback: Callback, capture: bool, once: bool): Op {
    Register(key, callback, capture, once, None)
  }

  function AtLone(bodies: seq<Script>): Op {
    Dispatch(EVENT, LONE, "load", false, true, false, Plan([Bodies(bodies)], []))
  }

  ghost function Calls(recs: seq<Rec>): (log: seq<Invocation>)
    ensures |log| == |recs|
  {
    seq(|recs|, i requires 0 <= i < |recs| => Invocation(EVENT, recs[i]))
  }

  lemma CallsMore(recs: seq<Rec>, rec: Rec)
    ensures Calls(recs + [rec]) == Calls(recs) + [Invocation(EVENT, rec)]
  {
  }

  /** The state in which these listeners are registered and some have been called. */
  ghost function With(lists: map<Key, seq<Rec>>, nextId: nat, called: seq<Rec>): State {
    EMPTY.(lists := lists, nextId := nextId, log := Calls(called))
  }

  lemma AddIs(s: State, key: Key, callback: Callback, capture: bool, once: bool, mode: Mode)
    requires Find(ListOf(s, key), callback, capture) == None
    ensures Exec(s, Add(key, callback, capture, once), mode)
         == s.(lists := s.lists[key := ListOf(s, key) + [Rec(s.nextId, key, callback, capture, once, None)]],
               nextId := s.nextId + 1)
  {
  }

  lemma AddFirst(key: Key, callback: Callback, capture: bool, once: bool, mode: Mode)
    ensures var rec := Rec(0, key, callback, capture, once, None);
            Exec(EMPTY, Add(key, callback, capture, once), mode) == With(map[key := [rec]], 1, [])
  {
    var rec := Rec(0, key, callback, capture, once, None);
    AddIs(EMPTY, key, callback, capture, once, mode);
    assert [] + [rec] == [rec];
  }

  lemma FindNone(first: Rec, callback: Callback, capture: bool)
    requires !Matches(first, callback, capture)
    ensures Find([first], callback, capture) == None
  {
    assert [first][1..] == [];
  }

  lemma AddSecond(s: State, first: Rec, callback: Callback, capture: bool, once: bool, mode: Mode)
    requires ListOf(s, first.key) == [first] && !Matches(first, callback, capture)
    ensures var second := Rec(s.nextId, first.key, callback, capture, once, None);
            Exec(s, Add(first.key, callback, capture, once), mode)
            == s.(lists := s.lists[first.key := [first, second]], nextId := s.nextId + 1)
  {
    var second := Rec(s.nextId, first.key, callback, capture, once, None);
    FindNone(first, callback, capture);
    AddIs(s, first.key, callback, capture, once, mode);
    assert [first] + [second] == [first, second];
  }

  lemma Run1(s: State, op: Op, mode: Mode)
    ensures Run(s, Then(op, Done), mode) == Exec(s, op, mode)
  {
    hide Exec;
    assert Run(Exec(s, op, mode), Done, mode) == Exec(s, op, mode);
  }

  lemma Run2(s: State, op0: Op, op1: Op, mode: Mode)
    ensures Run(s, Then(op0, Then(op1, Done)), mode) == Exec(Exec(s, op0, mode), op1, mode)
  {
    hide Exec;
    Run1(Exec(s, op0, mode), op1, mode);
  }

  lemma Run3(s: State, op0: Op, op1: Op, op2: Op, mode: Mode)
    ensures Run(s, Then(op0, Then(op1, Then(op2, Done))), mode) == Exec(Exec(Exec(s, op0, mode), op1, mode), op2, mode)
  {
    hide Exec;
    Run2(Exec(s, op0, mode), op1, op2, mode);
  }

  /** A listener is called whose callback does nothing. */
  lemma AfterNothing(s: State, key: Key, rec: Rec, bodies: seq<Script>, next: nat, mode: Mode)
    requires next >= |bodies|
    ensures After(s, EVENT, key, rec, bodies, next, mode) == Call(s, EVENT, key, rec)
  {
  }

  /** A listener is called whose callback does one thing. */
  lemma AfterOne(s: State, key: Key, rec: Rec, op: Op, mode: Mode)
    ensures After(s, EVENT, key, rec, [Then(op, Done)], 0, mode) == Exec(Call(s, EVENT, key, rec), op, mode)
  {
    hide Exec;
    Run1(Call(s, EVENT, key, rec), op, mode);
  }

  lemma InvokeFirst(s: State, key: Key, phase: Option<bool>, rec: Rec, rest: seq<Rec>, bodies: seq<Script>, next: nat,
                    mode: Mode)
    requires rec in ListOf(s, key) && rec.signal == None
    ensures Invoke(s, EVENT, key, phase, [rec] + rest, bodies, next, mode) ==
            if Skips(phase, rec) then Invoke(s, EVENT, key, phase, rest, bodies, next, mode)
            else
              var after := After(s, EVENT, key, rec, bodies, next, mode);
              if EVENT in after.stopped then after else Invoke(after, EVENT, key, phase, rest, bodies, next + 1, mode)
  {
    hide After;
    assert ([rec] + rest)[1..] == rest;
  }

  lemma TwoPassesFirst(s: State, key: Key, rec: Rec, rest: seq<Rec>, bodies: seq<Script>, next: nat)
    requires rec in ListOf(s, key) && rec.signal == None
    ensures TwoPasses(s, EVENT, key, [rec] + rest, bodies, next) ==
            if !rec.capture then TwoPasses(s, EVENT, key, rest, bodies, next)
            else
              var after := After(s, EVENT, key, rec, bodies, next, Standard);
              if EVENT in after.stopped then after else TwoPasses(after, EVENT, key, rest, bodies, next + 1)
  {
    hide After, Invoke;
    assert ([rec] + rest)[1..] == rest;
  }

  lemma TwoPassesEnd(s: State, key: Key, bodies: seq<Script>, next: nat)
    ensures TwoPasses(s, EVENT, key, [], bodies, next)
         == if EVENT in s.halted then s else Invoke(s, EVENT, key, Some(false), ListOf(s, key), bodies, next, Standard)
  {
    hide Invoke;
  }

  // ----- an event at the lone node

  lemma LoneWay(mode: Mode)
    ensures Way(LONE, "load", false, true, false, mode) == [EventPath.Visit(EventPath.AtTarget, EventPath.OfNode(LONE))]
  {
    assert EventPath.Reach(LONE, false) == [LONE] && StandardPath.Route(LONE, LONE, false) == [LONE];
    assert EventPath.Path(LONE, false, true) == [EventPath.OfNode(LONE)];
    assert StandardPath.StandardPath(LONE, false, true) == [StandardPath.Entry(EventPath.OfNode(LONE), true)];
    assert StandardPath.Ups(StandardPath.StandardPath(LONE, false, true), 1, true) == [];
  }

  /** The only visit is that of the target. */
  lemma AtLoneIs(s: State, bodies: seq<Script>, mode: Mode)
    requires EVENT !in s.busy && EVENT !in s.open && EVENT !in s.halted
    ensures Exec(s, AtLone(bodies), mode) == Ended(AtTarget(Begun(Noted(s, EVENT), EVENT), EVENT, KEY, bodies, mode),
                                                   EVENT)
    ensures EVENT !in s.left ==> Noted(s, EVENT) == s
  {
    hide AtTarget, Way, Visits;
    LoneWay(mode);
    OneVisit(Begun(Noted(s, EVENT), EVENT), bodies, mode);
  }

  lemma OneVisit(s: State, bodies: seq<Script>, mode: Mode)
    requires EVENT !in s.halted
    ensures Visits(s, EVENT, "load", [EventPath.Visit(EventPath.AtTarget, EventPath.OfNode(LONE))], 0,
                   Plan([Bodies(bodies)], []), mode)
         == AtTarget(s, EVENT, KEY, bodies, mode)
  {
    hide AtTarget;
    var way, plan := [EventPath.Visit(EventPath.AtTarget, EventPath.OfNode(LONE))], Plan([Bodies(bodies)], []);
    assert way[1..] == [] && During(plan, 0) == bodies;
    var t := AtTarget(s, EVENT, KEY, bodies, mode);
    assert Visited(s, EVENT, "load", way[0], bodies, mode) == t;
    assert Visits(t, EVENT, "load", [], 1, plan, mode) == t;
  }

  lemma AtTargetIs(s: State, key: Key, bodies: seq<Script>)
    requires EVENT !in s.halted
    ensures AtTarget(s, EVENT, key, bodies, Program) == Invoke(s, EVENT, key, None, ListOf(s, key), bodies, 0, Program)
    ensures AtTarget(s, EVENT, key, bodies, Standard) == TwoPasses(s, EVENT, key, ListOf(s, key), bodies, 0)
  {
    hide Invoke, TwoPasses;
  }

  // ----- the target in one pass

  /** A bubbling listener registered before a capturing one runs first; in the standard it runs second. */
  lemma OrderDiffers()
    ensures var script := Then(Add(KEY, 1, false, false), Then(Add(KEY, 2, true, false), Then(AtLone([]), Done)));
            var a, b := Rec(0, KEY, 1, false, false, None), Rec(1, KEY, 2, true, false, None);
            && Run(EMPTY, script, Program).log == Calls([a, b])
            && Run(EMPTY, script, Standard).log == Calls([b, a])
  {
    hide Exec, Run, Invoke, TwoPasses, After, Calls, AtTarget;
    var a, b := Rec(0, KEY, 1, false, false, None), Rec(1, KEY, 2, true, false, None);
    var s := With(map[KEY := [a, b]], 2, []);
    forall mode: Mode
      ensures Run(EMPTY, Then(Add(KEY, 1, false, false), Then(Add(KEY, 2, true, false), Then(AtLone([]), Done))), mode)
           == Ended(AtTarget(Begun(s, EVENT), EVENT, KEY, [], mode), EVENT)
    {
      Run3(EMPTY, Add(KEY, 1, false, false), Add(KEY, 2, true, false), AtLone([]), mode);
      AddFirst(KEY, 1, false, false, mode);
      AddSecond(With(map[KEY := [a]], 1, []), a, 2, true, false, mode);
      assert map[KEY := [a]][KEY := [a, b]] == map[KEY := [a, b]];
      AtLoneIs(s, [], mode);
    }
    AtTargetIs(Begun(s, EVENT), KEY, []);
    BothInOrder(Begun(s, EVENT), a, b);
    BothInTwoPasses(Begun(s, EVENT), a, b);
    LogOf2(a, b);
    LogOf2(b, a);
  }

  lemma LogOf2(a: Rec, b: Rec)
    ensures Calls([]) == [] && Calls([a]) == [Invocation(EVENT, a)]
    ensures Calls([a, b]) == [Invocation(EVENT, a)] + [Invocation(EVENT, b)]
  {
  }

  lemma BothInOrder(s: State, a: Rec, b: Rec)
    requires ListOf(s, KEY) == [a, b] && a.signal == b.signal == None && !a.once && !b.once && EVENT !in s.stopped
    ensures Invoke(s, EVENT, KEY, None, [a, b], [], 0, Program)
         == s.(log := s.log + [Invocation(EVENT, a)] + [Invocation(EVENT, b)])
  {
    hide Invoke, After;
    var t := Call(s, EVENT, KEY, a);
    var u := Call(t, EVENT, KEY, b);
    assert [a] + [b] == [a, b] && [b] + [] == [b];
    AfterNothing(s, KEY, a, [], 0, Program);
    AfterNothing(t, KEY, b, [], 1, Program);
    InvokeFirst(s, KEY, None, a, [b], [], 0, Program);
    InvokeFirst(t, KEY, None, b, [], [], 1, Program);
    InvokeNothing(u, EVENT, KEY, None, [], 2, Program);
  }

  lemma BothInTwoPasses(s: State, a: Rec, b: Rec)
    requires ListOf(s, KEY) == [a, b] && a.signal == b.signal == None && !a.once && !b.once && !a.capture && b.capture
    requires EVENT !in s.stopped && EVENT !in s.halted
    ensures TwoPasses(s, EVENT, KEY, [a, b], [], 0)
        == s.(log := s.log + [Invocation(EVENT, b)] + [Invocation(EVENT, a)])
  {
    hide Invoke, TwoPasses, After;
    var t := Call(s, EVENT, KEY, b);
    var u := Call(t, EVENT, KEY, a);
    assert [a] + [b] == [a, b] && [b] + [] == [b];
    AfterNothing(s, KEY, b, [], 0, Standard);
    AfterNothing(t, KEY, a, [], 1, Standard);
    TwoPassesFirst(s, KEY, a, [b], [], 0);
    TwoPassesFirst(s, KEY, b, [], [], 0);
    TwoPassesEnd(t, KEY, [], 1);
    InvokeFirst(t, KEY, Some(false), a, [b], [], 1, Standard);
    InvokeFirst(u, KEY, Some(false), b, [], [], 2, Standard);
    InvokeNothing(u, EVENT, KEY, Some(false), [], 2, Standard);
  }

  /** A capturing listener that registers a bubbling one at the target: in the standard that one runs too. */
  lemma NewcomerMissed()
    ensures var script := Then(Add(KEY, 1, true, false), Then(AtLone([Then(Add(KEY, 2, false, false), Done)]), Done));
            var a, b := Rec(0, KEY, 1, true, false, None), Rec(1, KEY, 2, false, false, None);
            && Run(EMPTY, script, Program).log == Calls([a])
            && Run(EMPTY, script, Standard).log == Calls([a, b])
  {
    hide Exec, Run, Invoke, TwoPasses, After, Calls, AtTarget;
    var a, b, bodies := Rec(0, KEY, 1, true, false, None), Rec(1, KEY, 2, false, false, None),
        [Then(Add(KEY, 2, false, false), Done)];
    var s := With(map[KEY := [a]], 1, []);
    forall mode: Mode
      ensures Run(EMPTY, Then(Add(KEY, 1, true, false), Then(AtLone(bodies), Done)), mode)
           == Ended(AtTarget(Begun(s, EVENT), EVENT, KEY, bodies, mode), EVENT)
    {
      Run2(EMPTY, Add(KEY, 1, true, false), AtLone(bodies), mode);
      AddFirst(KEY, 1, true, false, mode);
      AtLoneIs(s, bodies, mode);
    }
    AtTargetIs(Begun(s, EVENT), KEY, bodies);
    LogOf2(a, b);
    var t := Begun(With(map[KEY := [a, b]], 2, [a]), EVENT);
    NewcomerWaits(Begun(s, EVENT), t, a, b, bodies, Program);
    TwoPassesEnd(t, KEY, bodies, 1);
    OneMore(t, a, b, bodies);
  }

  /** One pass ends with the newcomer waiting; the second of two passes begins there. */
  lemma NewcomerWaits(s: State, t: State, a: Rec, b: Rec, bodies: seq<Script>, mode: Mode)
    requires ListOf(s, KEY) == [a] && a.capture && !a.once && a.signal == None && a.key == KEY && !Matches(a, 2, false)
    requires b == Rec(s.nextId, KEY, 2, false, b.once, None) && bodies == [Then(Add(KEY, 2, false, b.once), Done)]
    requires t == s.(lists := s.lists[KEY := [a, b]], nextId := s.nextId + 1, log := s.log + [Invocation(EVENT, a)])
    requires EVENT !in s.stopped
    ensures Invoke(s, EVENT, KEY, None, [a], bodies, 0, mode) == t
    ensures TwoPasses(s, EVENT, KEY, [a], bodies, 0) == TwoPasses(t, EVENT, KEY, [], bodies, 1)
  {
    hide Exec, Invoke, TwoPasses, After;
    assert [a] + [] == [a];
    forall m: Mode
      ensures After(s, EVENT, KEY, a, bodies, 0, m) == t
    {
      AfterOne(s, KEY, a, Add(KEY, 2, false, b.once), m);
      AddSecond(Call(s, EVENT, KEY, a), a, 2, false, b.once, m);
    }
    InvokeFirst(s, KEY, None, a, [], bodies, 0, mode);
    InvokeNothing(t, EVENT, KEY, None, bodies, 1, mode);
    TwoPassesFirst(s, KEY, a, [], bodies, 0);
  }

  /** The bubbling pass over a capturing listener and one for bubbling. */
  lemma OneMore(s: State, a: Rec, b: Rec, bodies: seq<Script>)
    requires ListOf(s, KEY) == [a, b] && a.signal == b.signal == None && a.capture && !b.capture && !b.once
             && |bodies| == 1
    requires EVENT !in s.stopped
    ensures Invoke(s, EVENT, KEY, Some(false), [a, b], bodies, 1, Standard) == s.(log := s.log + [Invocation(EVENT, b)])
  {
    hide Invoke, After;
    var t := Call(s, EVENT, KEY, b);
    assert [a] + [b] == [a, b] && [b] + [] == [b];
    InvokeFirst(s, KEY, Some(false), a, [b], bodies, 1, Standard);
    AfterNothing(s, KEY, b, bodies, 1, Standard);
    InvokeFirst(s, KEY, Some(false), b, [], bodies, 1, Standard);
    InvokeNothing(t, EVENT, KEY, Some(false), bodies, 2, Standard);
  }

  /** A capturing listener at the target that stops the propagation: in the standard the bubbling ones there do not
      run. */
  lemma HaltIgnored()
    ensures var script := Then(Add(KEY, 1, true, false),
                            Then(Add(KEY, 2, false, false), Then(AtLone([Then(Halt(EVENT), Done)]), Done)));
            var a, b := Rec(0, KEY, 1, true, false, None), Rec(1, KEY, 2, false, false, None);
            && Run(EMPTY, script, Program).log == Calls([a, b])
            && Run(EMPTY, script, Standard).log == Calls([a])
  {
    hide Exec, Run, Invoke, TwoPasses, After, Calls, AtTarget;
    var a, b := Rec(0, KEY, 1, true, false, None), Rec(1, KEY, 2, false, false, None);
    var s, bodies := With(map[KEY := [a, b]], 2, []), [Then(Halt(EVENT), Done)];
    forall mode: Mode
      ensures Run(EMPTY, Then(Add(KEY, 1, true, false), Then(Add(KEY, 2, false, false), Then(AtLone(bodies), Done))),
                  mode)
           == Ended(AtTarget(Begun(s, EVENT), EVENT, KEY, bodies, mode), EVENT)
    {
      Run3(EMPTY, Add(KEY, 1, true, false), Add(KEY, 2, false, false), AtLone(bodies), mode);
      AddFirst(KEY, 1, true, false, mode);
      AddSecond(With(map[KEY := [a]], 1, []), a, 2, false, false, mode);
      assert map[KEY := [a]][KEY := [a, b]] == map[KEY := [a, b]];
      AtLoneIs(s, bodies, mode);
    }
    AtTargetIs(Begun(s, EVENT), KEY, bodies);
    HaltedAt(Begun(s, EVENT), a, b, bodies);
    LogOf2(a, b);
  }

  lemma HaltIs(s: State, key: Key, rec: Rec, mode: Mode)
    requires !rec.once
    ensures After(s, EVENT, key, rec, [Then(Halt(EVENT), Done)], 0, mode)
         == s.(log := s.log + [Invocation(EVENT, rec)], halted := s.halted + {EVENT})
  {
    AfterOne(s, key, rec, Halt(EVENT), mode);
  }

  lemma HaltedAt(s: State, a: Rec, b: Rec, bodies: seq<Script>)
    requires ListOf(s, KEY) == [a, b] && a.signal == b.signal == None && !a.once && !b.once && a.capture && !b.capture
    requires bodies == [Then(Halt(EVENT), Done)] && EVENT !in s.stopped
    ensures Invoke(s, EVENT, KEY, None, [a, b], bodies, 0, Program).log
        == s.log + [Invocation(EVENT, a)] + [Invocation(EVENT, b)]
    ensures TwoPasses(s, EVENT, KEY, [a, b], bodies, 0).log == s.log + [Invocation(EVENT, a)]
  {
    hide Invoke, TwoPasses, After;
    var t := s.(log := s.log + [Invocation(EVENT, a)], halted := s.halted + {EVENT});
    var u := Call(t, EVENT, KEY, b);
    assert [a] + [b] == [a, b] && [b] + [] == [b];
    HaltIs(s, KEY, a, Program);
    HaltIs(s, KEY, a, Standard);
    InvokeFirst(s, KEY, None, a, [b], bodies, 0, Program);
    AfterNothing(t, KEY, b, bodies, 1, Program);
    InvokeFirst(t, KEY, None, b, [], bodies, 1, Program);
    InvokeNothing(u, EVENT, KEY, None, bodies, 2, Program);
    TwoPassesFirst(s, KEY, a, [b], bodies, 0);
    TwoPassesFirst(t, KEY, b, [], bodies, 1);
    TwoPassesEnd(t, KEY, bodies, 1);
  }

  // ----- one bubbling listener

  /** A walk over one listener that is called. */
  lemma InvokeOne(s: State, key: Key, phase: Option<bool>, rec: Rec, bodies: seq<Script>, next: nat, mode: Mode)
    requires rec in ListOf(s, key) && rec.signal == None && !Skips(phase, rec)
    ensures Invoke(s, EVENT, key, phase, [rec], bodies, next, mode) == After(s, EVENT, key, rec, bodies, next, mode)
  {
    hide After, Invoke;
    assert [rec] + [] == [rec];
    InvokeFirst(s, key, phase, rec, [], bodies, next, mode);
    InvokeNothing(After(s, EVENT, key, rec, bodies, next, mode), EVENT, key, phase, bodies, next + 1, mode);
  }

  lemma TargetOne(s: State, key: Key, rec: Rec, bodies: seq<Script>, mode: Mode)
    requires ListOf(s, key) == [rec] && rec.signal == None && !rec.capture
    ensures AtTarget(s, EVENT, key, bodies, mode)
         == if mode == Standard && EVENT in s.halted then s else After(s, EVENT, key, rec, bodies, 0, mode)
  {
    hide After, Invoke, TwoPasses;
    InvokeOne(s, key, None, rec, bodies, 0, mode);
    if mode == Standard {
      assert [rec] + [] == [rec];
      TwoPassesFirst(s, key, rec, [], bodies, 0);
      TwoPassesEnd(s, key, bodies, 0);
      InvokeOne(s, key, Some(false), rec, bodies, 0, Standard);
    }
  }

  lemma DirectIs(s: State, key: Key, bodies: seq<Script>, mode: Mode)
    requires EVENT !in s.busy && (Clears(mode) ==> EVENT !in s.open)
    ensures Exec(s, Direct(EVENT, key, bodies), mode)
         == Closed(AtTarget(Opened(Noted(s, EVENT), EVENT), EVENT, key, bodies, mode), EVENT, mode)
  {
    hide AtTarget;
  }

  // ----- direct dispatches

  /** An event that has been stopped, dispatched outside the tree: the program still calls the first listener. */
  lemma StoppedBefore()
    ensures var script := Then(Add(OUTSIDE, 1, false, false),
                               Then(Stop(EVENT), Then(Direct(EVENT, OUTSIDE, []), Done)));
            && Run(EMPTY, script, Program).log == Calls([Rec(0, OUTSIDE, 1, false, false, None)])
            && Run(EMPTY, script, Standard).log == []
  {
    hide Run, Exec, After, Calls, AtTarget;
    var a, none: seq<Script> := Rec(0, OUTSIDE, 1, false, false, None), [];
    var s := With(map[OUTSIDE := [a]], 1, []).(halted := {EVENT}, stopped := {EVENT});
    forall mode: Mode
      ensures Run(EMPTY, Then(Add(OUTSIDE, 1, false, false),
                              Then(Stop(EVENT), Then(Direct(EVENT, OUTSIDE, none), Done))), mode)
           == Closed(AtTarget(Opened(s, EVENT), EVENT, OUTSIDE, none, mode), EVENT, mode)
    {
      Run3(EMPTY, Add(OUTSIDE, 1, false, false), Stop(EVENT), Direct(EVENT, OUTSIDE, none), mode);
      AddFirst(OUTSIDE, 1, false, false, mode);
      StopIs(With(map[OUTSIDE := [a]], 1, []), mode);
      DirectIs(s, OUTSIDE, none, mode);
    }
    TargetOne(Opened(s, EVENT), OUTSIDE, a, none, Program);
    TargetOne(Opened(s, EVENT), OUTSIDE, a, none, Standard);
    AfterNothing(Opened(s, EVENT), OUTSIDE, a, none, 0, Program);
    LogOf2(a, a);
  }

  lemma StopIs(s: State, mode: Mode)
    requires s.halted == s.stopped == {}
    ensures Exec(s, Stop(EVENT), mode) == s.(halted := {EVENT}, stopped := {EVENT})
  {
    assert {} + {EVENT} == {EVENT};
  }

  /** An event that a direct dispatch leaves halted, then sent to a node: the program calls nothing there. */
  function FlagsScript(): Script {
    Then(Add(OUTSIDE, 1, false, false), Then(Add(KEY, 2, false, false),
      Then(Direct(EVENT, OUTSIDE, [Then(Halt(EVENT), Done)]), Then(AtLone([]), Done))))
  }

  lemma FlagsLeft()
    ensures var a, b := Rec(0, OUTSIDE, 1, false, false, None), Rec(1, KEY, 2, false, false, None);
            && Run(EMPTY, FlagsScript(), Program).log == Calls([a]) && Run(EMPTY, FlagsScript(), Program).reused
            && Run(EMPTY, FlagsScript(), Standard).log == Calls([a, b])
  {
    hide Run, Exec, Calls, AtTarget;
    var a, b := Rec(0, OUTSIDE, 1, false, false, None), Rec(1, KEY, 2, false, false, None);
    var s, bodies := With(map[OUTSIDE := [a], KEY := [b]], 2, []), [Then(Halt(EVENT), Done)];
    forall mode: Mode
      ensures Run(EMPTY, FlagsScript(), mode) == Exec(Exec(s, Direct(EVENT, OUTSIDE, bodies), mode), AtLone([]), mode)
    {
      var later := Then(Direct(EVENT, OUTSIDE, bodies), Then(AtLone([]), Done));
      RunNext(EMPTY, Add(OUTSIDE, 1, false, false), Then(Add(KEY, 2, false, false), later), mode);
      AddFirst(OUTSIDE, 1, false, false, mode);
      var t := With(map[OUTSIDE := [a]], 1, []);
      RunNext(t, Add(KEY, 2, false, false), later, mode);
      AddIs(t, KEY, 2, false, false, mode);
      assert [] + [b] == [b] && map[OUTSIDE := [a]][KEY := [b]] == map[OUTSIDE := [a], KEY := [b]];
      Run2(s, Direct(EVENT, OUTSIDE, bodies), AtLone([]), mode);
    }
    LogOf2(a, b);
    FlagsProgram(s, a, bodies);
    FlagsStandard(s, a, b, bodies);
  }

  lemma RunNext(s: State, op: Op, rest: Script, mode: Mode)
    ensures Run(s, Then(op, rest), mode) == Run(Exec(s, op, mode), rest, mode)
  {
    hide Exec;
  }

  /** The direct dispatch of an event that its listener halts. */
  lemma HaltedOutside(s: State, a: Rec, bodies: seq<Script>, mode: Mode)
    requires ListOf(s, OUTSIDE) == [a] && a.signal == None && !a.capture && !a.once
             && bodies == [Then(Halt(EVENT), Done)]
    requires s.busy == s.open == s.left == s.halted == s.stopped == {}
    ensures Exec(s, Direct(EVENT, OUTSIDE, bodies), mode)
         == s.(log := s.log + [Invocation(EVENT, a)], left := {EVENT}, halted := if Clears(mode) then {} else {EVENT})
  {
    hide After, AtTarget;
    DirectIs(s, OUTSIDE, bodies, mode);
    TargetOne(Opened(s, EVENT), OUTSIDE, a, bodies, mode);
    HaltIs(Opened(s, EVENT), OUTSIDE, a, mode);
    assert Noted(s, EVENT) == s && {} + {EVENT} == {EVENT} && {EVENT} - {EVENT} == {};
  }

  lemma FlagsProgram(s: State, a: Rec, bodies: seq<Script>)
    requires ListOf(s, OUTSIDE) == [a] && a.signal == None && !a.capture && !a.once
             && bodies == [Then(Halt(EVENT), Done)]
    requires s.busy == s.open == s.left == s.halted == s.stopped == {}
    ensures var t := Exec(Exec(s, Direct(EVENT, OUTSIDE, bodies), Program), AtLone([]), Program);
            t.log == s.log + [Invocation(EVENT, a)] && t.reused
  {
    hide Way;
    HaltedOutside(s, a, bodies, Program);
    HaltedNode(s.(log := s.log + [Invocation(EVENT, a)], left := {EVENT}, halted := {EVENT}));
  }

  lemma HaltedNode(s: State)
    requires EVENT in s.halted && EVENT in s.left && EVENT !in s.busy
    ensures var t := Exec(s, AtLone([]), Program); t.log == s.log && t.reused
  {
    hide Way, Visited;
  }

  lemma FlagsStandard(s: State, a: Rec, b: Rec, bodies: seq<Script>)
    requires ListOf(s, OUTSIDE) == [a] && a.signal == None && !a.capture && !a.once
             && bodies == [Then(Halt(EVENT), Done)]
    requires s.busy == s.open == s.left == s.halted == s.stopped == {}
    requires ListOf(s, KEY) == [b] && b.signal == None && !b.capture && !b.once
    ensures var t := Exec(Exec(s, Direct(EVENT, OUTSIDE, bodies), Standard), AtLone([]), Standard);
            t.log == s.log + [Invocation(EVENT, a)] + [Invocation(EVENT, b)]
  {
    hide Exec, AtTarget, After;
    HaltedOutside(s, a, bodies, Standard);
    var t := s.(log := s.log + [Invocation(EVENT, a)], left := {EVENT});
    AtLoneIs(t, [], Standard);
    var u := Begun(Noted(t, EVENT), EVENT);
    TargetOne(u, KEY, b, [], Standard);
    AfterNothing(u, KEY, b, [], 0, Standard);
  }

  /** A listener outside the tree that dispatches its event there again: the program calls it twice. */
  lemma DispatchedTwice()
    ensures var again := Then(Direct(EVENT, OUTSIDE, []), Done);
            var script := Then(Add(OUTSIDE, 1, false, false), Then(Direct(EVENT, OUTSIDE, [again]), Done));
            var a := Rec(0, OUTSIDE, 1, false, false, None);
            && Run(EMPTY, script, Program).log == Calls([a, a]) && Run(EMPTY, script, Program).reused
            && Run(EMPTY, script, Standard).log == Calls([a])
  {
    hide Run, Exec, After, Calls, AtTarget;
    var a := Rec(0, OUTSIDE, 1, false, false, None);
    var s, bodies := With(map[OUTSIDE := [a]], 1, []), [Then(Direct(EVENT, OUTSIDE, []), Done)];
    forall mode: Mode
      ensures Run(EMPTY, Then(Add(OUTSIDE, 1, false, false), Then(Direct(EVENT, OUTSIDE, bodies), Done)), mode)
           == Closed(After(Opened(s, EVENT), EVENT, OUTSIDE, a, bodies, 0, mode), EVENT, mode)
    {
      Run2(EMPTY, Add(OUTSIDE, 1, false, false), Direct(EVENT, OUTSIDE, bodies), mode);
      AddFirst(OUTSIDE, 1, false, false, mode);
      DirectIs(s, OUTSIDE, bodies, mode);
      TargetOne(Opened(s, EVENT), OUTSIDE, a, bodies, mode);
      assert Noted(s, EVENT) == s;
    }
    LogOf2(a, a);
    AgainIs(Opened(s, EVENT), a, bodies);
  }

  lemma AgainIs(s: State, a: Rec, bodies: seq<Script>)
    requires ListOf(s, OUTSIDE) == [a] && a.signal == None && !a.capture && !a.once && EVENT in s.open
             && EVENT !in s.busy
    requires bodies == [Then(Direct(EVENT, OUTSIDE, []), Done)]
    ensures After(s, EVENT, OUTSIDE, a, bodies, 0, Standard).log == s.log + [Invocation(EVENT, a)]
    ensures var t := After(s, EVENT, OUTSIDE, a, bodies, 0, Program);
            t.log == s.log + [Invocation(EVENT, a)] + [Invocation(EVENT, a)] && t.reused
  {
    hide After, AtTarget;
    var called := Call(s, EVENT, OUTSIDE, a);
    AfterOne(s, OUTSIDE, a, Direct(EVENT, OUTSIDE, []), Standard);
    AfterOne(s, OUTSIDE, a, Direct(EVENT, OUTSIDE, []), Program);
    DirectIs(called, OUTSIDE, [], Program);
    var again := Opened(Noted(called, EVENT), EVENT);
    TargetOne(again, OUTSIDE, a, [], Program);
    AfterNothing(again, OUTSIDE, a, [], 0, Program);
  }

  // ----- a registration that is lost

  function LostScript(): Script {
    Then(Register(OUTSIDE, 7, false, false, Some(1)), Then(Abort(1),
      Then(Register(OUTSIDE, 7, false, false, None), Then(Direct(EVENT, OUTSIDE, []), Done))))
  }

  /** The registration that the late notice loses: a callback registered with a signal, aborted, and registered again
      without one never runs, though in the standard it does. */
  lemma LostRegistration()
    ensures Run(EMPTY, LostScript(), Program).log == [] && Run(EMPTY, LostScript(), Program).stale
    ensures Run(EMPTY, LostScript(), Standard).log == Calls([Rec(1, OUTSIDE, 7, false, false, None)])
  {
    hide Run, Exec, Calls;
    var first, second := Rec(0, OUTSIDE, 7, false, false, Some(1)), Rec(1, OUTSIDE, 7, false, false, None);
    var op0, op1 := Register(OUTSIDE, 7, false, false, Some(1)), Abort(1);
    var op2, op3 := Register(OUTSIDE, 7, false, false, None), Direct(EVENT, OUTSIDE, []);
    forall mode: Mode
      ensures Run(EMPTY, LostScript(), mode) == Exec(LostState(first, second, mode), op3, mode)
    {
      LostSteps(first, second, mode);
      RunNext(EMPTY, op0, Then(op1, Then(op2, Then(op3, Done))), mode);
      Run3(Exec(EMPTY, op0, mode), op1, op2, op3, mode);
    }
    LogOf2(second, second);
    LostProgram(first, second);
    LostStandard(first, second);
  }

  ghost function LostState(first: Rec, second: Rec, mode: Mode): State {
    if mode == Program then With(map[OUTSIDE := [first]], 1, []).(aborted := {1}, stale := true)
    else With(map[OUTSIDE := [second]], 2, []).(aborted := {1})
  }

  lemma LostSteps(first: Rec, second: Rec, mode: Mode)
    requires first == Rec(0, OUTSIDE, 7, false, false, Some(1)) && second == Rec(1, OUTSIDE, 7, false, false, None)
    ensures var s0 := Exec(EMPTY, Register(OUTSIDE, 7, false, false, Some(1)), mode);
            Exec(Exec(s0, Abort(1), mode), Register(OUTSIDE, 7, false, false, None), mode)
                == LostState(first, second, mode)
  {
    assert [] + [first] == [first] && [] + [second] == [second] && [first][1..] == [];
    var s0 := Exec(EMPTY, Register(OUTSIDE, 7, false, false, Some(1)), mode);
    assert s0 == With(map[OUTSIDE := [first]], 1, []);
    var s1 := Exec(s0, Abort(1), mode);
    assert {} + {1} == {1} && LiveOnly([first], {1}) == [];
    assert mode != Program ==> s1.lists == map[OUTSIDE := []];
    assert s1 == s0.(aborted := {1}, lists := map[OUTSIDE := if mode == Program then [first] else []]);
    if mode == Program {
      assert Find([first], 7, false) == Some(first);
    } else {
      assert map[OUTSIDE := []][OUTSIDE := [second]] == map[OUTSIDE := [second]];
    }
  }

  lemma LostProgram(first: Rec, second: Rec)
    requires first.signal == Some(1)
    ensures var t := Exec(LostState(first, second, Program), Direct(EVENT, OUTSIDE, []), Program);
            t.log == [] && t.stale
  {
    hide Invoke, Without;
    var s := LostState(first, second, Program);
    var u := Opened(Noted(s, EVENT), EVENT);
    DirectIs(s, OUTSIDE, [], Program);
    assert ListOf(u, OUTSIDE) == [first];
    DropsOne(u, first);
  }

  lemma DropsOne(s: State, rec: Rec)
    requires ListOf(s, OUTSIDE) == [rec] && IsAborted(rec, s.aborted)
    ensures Invoke(s, EVENT, OUTSIDE, None, [rec], [], 0, Program) == Drop(s, OUTSIDE, rec)
  {
    hide Drop, After;
    assert [rec][1..] == [];
    InvokeNothing(Drop(s, OUTSIDE, rec), EVENT, OUTSIDE, None, [], 0, Program);
  }

  lemma LostStandard(first: Rec, second: Rec)
    requires !second.once && !second.capture && second.signal == None
    ensures Exec(LostState(first, second, Standard), Direct(EVENT, OUTSIDE, []), Standard).log
        == Calls([]) + [Invocation(EVENT, second)]
  {
    hide AtTarget, After, Calls;
    var s := LostState(first, second, Standard);
    var u := Opened(Noted(s, EVENT), EVENT);
    DirectIs(s, OUTSIDE, [], Standard);
    TargetOne(u, OUTSIDE, second, [], Standard);
    AfterNothing(u, OUTSIDE, second, [], 0, Standard);
  }

  // ----- differences that cancel out

  /** A capturing listener for one call that registers a bubbling one for one call, and the event sent twice: the
      program calls the newcomer the second time, the standard the first time. */
  function TwiceScript(): Script {
    Then(Add(KEY, 1, true, true), Then(AtLone([Then(Add(KEY, 2, false, true), Done)]), Then(AtLone([]), Done)))
  }

  /** The logs are the same though one pass does not do what two do. */
  lemma DifferencesCancel()
    ensures Run(EMPTY, TwiceScript(), Program).log == Run(EMPTY, TwiceScript(), Standard).log
    ensures !Plain(EMPTY, TwiceScript())
  {
    hide Run, Exec, Plain, AtTarget, Calls;
    var a, b := Rec(0, KEY, 1, true, true, None), Rec(1, KEY, 2, false, true, None);
    var s, bodies := With(map[KEY := [a]], 1, []), [Then(Add(KEY, 2, false, true), Done)];
    forall mode: Mode
      ensures Run(EMPTY, TwiceScript(), mode) == Exec(Exec(s, AtLone(bodies), mode), AtLone([]), mode)
    {
      Run3(EMPTY, Add(KEY, 1, true, true), AtLone(bodies), AtLone([]), mode);
      AddFirst(KEY, 1, true, true, mode);
    }
    TwiceProgram(s, a, b, bodies);
    TwiceStandard(s, a, b, bodies);
    NotPlain(s, a, b, bodies);
  }

  /** The newcomer waits: the capturing listener has run and is gone. */
  ghost function Waiting(s: State, a: Rec, b: Rec): State {
    s.(lists := map[KEY := [b]], nextId := 2, log := s.log + [Invocation(EVENT, a)])
  }

  /** Both have run and are gone. */
  ghost function Over(s: State, a: Rec, b: Rec): State {
    s.(lists := map[KEY := []], nextId := 2, log := s.log + [Invocation(EVENT, a)] + [Invocation(EVENT, b)])
  }

  ghost predicate Twice(s: State, a: Rec, b: Rec, bodies: seq<Script>) {
    && a == Rec(0, KEY, 1, true, true, None) && b == Rec(1, KEY, 2, false, true, None)
    && bodies == [Then(Add(KEY, 2, false, true), Done)]
    && s.lists == map[KEY := [a]] && s.nextId == 1
    && s.open == s.left == s.halted == s.stopped == {}
  }

  lemma Registers(s: State, a: Rec, b: Rec, bodies: seq<Script>, mode: Mode)
    requires Twice(s, a, b, bodies)
    ensures After(s, EVENT, KEY, a, bodies, 0, mode) == Waiting(s, a, b)
  {
    var called := Call(s, EVENT, KEY, a);
    assert Without([a], a) == [] by { assert [a][1..] == []; }
    assert map[KEY := [a]][KEY := []] == map[KEY := []];
    assert called == s.(lists := map[KEY := []], log := s.log + [Invocation(EVENT, a)]);
    AfterOne(s, KEY, a, Add(KEY, 2, false, true), mode);
    AddIs(called, KEY, 2, false, true, mode);
    assert [] + [b] == [b] && map[KEY := []][KEY := [b]] == map[KEY := [b]];
  }

  lemma CallsNewcomer(s: State, a: Rec, b: Rec, bodies: seq<Script>, next: nat, mode: Mode)
    requires b == Rec(1, KEY, 2, false, true, None) && next >= |bodies|
    ensures After(Waiting(s, a, b), EVENT, KEY, b, bodies, next, mode) == Over(s, a, b)
  {
    assert Without([b], b) == [] by { assert [b][1..] == []; }
    assert map[KEY := [b]][KEY := []] == map[KEY := []];
    AfterNothing(Waiting(s, a, b), KEY, b, bodies, next, mode);
  }

  lemma FirstTime(s: State, a: Rec, b: Rec, bodies: seq<Script>, mode: Mode)
    requires Twice(s, a, b, bodies)
    ensures Invoke(s, EVENT, KEY, None, [a], bodies, 0, mode) == Waiting(s, a, b)
    ensures TwoPasses(s, EVENT, KEY, [a], bodies, 0) == Over(s, a, b)
  {
    hide After, Invoke, TwoPasses;
    var t := Waiting(s, a, b);
    Registers(s, a, b, bodies, mode);
    Registers(s, a, b, bodies, Standard);
    InvokeOne(s, KEY, None, a, bodies, 0, mode);
    assert [a] + [] == [a];
    TwoPassesFirst(s, KEY, a, [], bodies, 0);
    TwoPassesEnd(t, KEY, bodies, 1);
    InvokeOne(t, KEY, Some(false), b, bodies, 1, Standard);
    CallsNewcomer(s, a, b, bodies, 1, Standard);
  }

  lemma TwiceProgram(s: State, a: Rec, b: Rec, bodies: seq<Script>)
    requires Twice(s, a, b, bodies) && s.busy == {}
    ensures Exec(Exec(s, AtLone(bodies), Program), AtLone([]), Program).log
         == s.log + [Invocation(EVENT, a)] + [Invocation(EVENT, b)]
  {
    hide Exec, AtTarget, After, Invoke;
    var begun := Begun(s, EVENT);
    AtLoneIs(s, bodies, Program);
    AtTargetIs(begun, KEY, bodies);
    FirstTime(begun, a, b, bodies, Program);
    var t := Ended(Waiting(begun, a, b), EVENT);
    AtLoneIs(t, [], Program);
    TargetOne(Begun(t, EVENT), KEY, b, [], Program);
    assert Begun(t, EVENT) == Waiting(begun, a, b);
    CallsNewcomer(begun, a, b, [], 0, Program);
  }

  lemma TwiceStandard(s: State, a: Rec, b: Rec, bodies: seq<Script>)
    requires Twice(s, a, b, bodies) && s.busy == {}
    ensures Exec(Exec(s, AtLone(bodies), Standard), AtLone([]), Standard).log
         == s.log + [Invocation(EVENT, a)] + [Invocation(EVENT, b)]
  {
    hide Exec, AtTarget, After, Invoke, TwoPasses;
    var begun := Begun(s, EVENT);
    AtLoneIs(s, bodies, Standard);
    AtTargetIs(begun, KEY, bodies);
    FirstTime(begun, a, b, bodies, Standard);
    var t := Ended(Over(begun, a, b), EVENT);
    AtLoneIs(t, [], Standard);
    AtTargetIs(Begun(t, EVENT), KEY, []);
    TwoPassesEnd(Begun(t, EVENT), KEY, [], 0);
    InvokeNothing(Begun(t, EVENT), EVENT, KEY, Some(false), [], 0, Standard);
  }

  lemma NotPlain(s: State, a: Rec, b: Rec, bodies: seq<Script>)
    requires Twice(s, a, b, bodies) && s == With(map[KEY := [a]], 1, [])
    ensures !Plain(EMPTY, TwiceScript())
  {
    hide Exec, AtTarget, Invoke, TwoPasses, Good, TargetAgrees, PlainWalk, PlainWay, Way, Calls;
    var rest := Then(AtLone(bodies), Then(AtLone([]), Done));
    var begun := Begun(s, EVENT);
    EmptyIsGood();
    AddFirst(KEY, 1, true, true, Standard);
    ExecIsFine(EMPTY, Add(KEY, 1, true, true), Standard);
    DispatchAllFine(s, EVENT);
    assert Noted(s, EVENT) == s;
    AtTargetIs(begun, KEY, bodies);
    FirstTime(begun, a, b, bodies, Standard);
    TargetAgreesExactly(begun, EVENT, KEY, bodies);
    assert !PlainTarget(begun, EVENT, KEY, bodies);
    LoneWay(Standard);
    var way, plan := [EventPath.Visit(EventPath.AtTarget, EventPath.OfNode(LONE))], Plan([Bodies(bodies)], []);
    assert During(plan, 0) == bodies;
    assert !PlainVisit(begun, EVENT, "load", way[0], bodies);
    assert !PlainVisits(begun, EVENT, "load", way, 0, plan);
    assert !PlainOp(s, AtLone(bodies));
    assert !Plain(s, rest);
  }
}
