/** The listeners of an event's target: the program calls those of both kinds in one pass over one clone of the list,
    section 2.9 of the DOM Standard in two passes over two clones. When the two agree, and what follows for whole
    runs. */
module TargetPhase {
  import opened Collections
  import opened Events
  import EventPath
  import LeftFlags
  import StandardPath

  // ----- what holds in every run that drops a listener as soon as its signal is aborted

  ghost predicate Sorted(list: seq<Rec>) { forall i, j :: 0 <= i < j < |list| ==> list[i].id < list[j].id }

  /** A list in the order of registration, without aborted listeners. */
  ghost predicate SettledList(list: seq<Rec>, aborted: set<Signal>) {
    Sorted(list) && forall r :: r in list ==> !IsAborted(r, aborted)
  }

  /** All lists are like that, and an event that is stopped is halted too. */
  ghost predicate Settled(s: State) {
    s.stopped <= s.halted && forall k :: k in s.lists ==> SettledList(s.lists[k], s.aborted)
  }

  /** A listener that is gone does not come back. */
  ghost predicate NoneBack(s: State, t: State) {
    s.nextId <= t.nextId && forall k, r :: r in ListOf(t, k) && r.id < s.nextId ==> r in ListOf(s, k)
  }

  ghost predicate Good(s: State) { Inv(s) && Settled(s) }

  ghost predicate Fine(s: State, t: State) { Good(t) && NoneBack(s, t) && s.log <= t.log }

  lemma EmptyIsGood()
    ensures Good(EMPTY)
  {
  }

  lemma FineTwice(s: State, t: State, u: State)
    requires Fine(s, t) && Fine(t, u)
    ensures Fine(s, u)
  {
    hide Good;
  }

  lemma {:induction false} SortedWithout(list: seq<Rec>, rec: Rec)
    requires Sorted(list)
    ensures Sorted(Without(list, rec))
  {
    if list != [] {
      assert Sorted(list[1..]);
      SortedWithout(list[1..], rec);
      WithoutIn(list[1..], rec);
      SortedCons(list[0], list[1..], Without(list[1..], rec));
    }
  }

  lemma {:induction false} SortedLive(list: seq<Rec>, aborted: set<Signal>)
    requires Sorted(list)
    ensures Sorted(LiveOnly(list, aborted))
  {
    if list != [] {
      assert Sorted(list[1..]);
      SortedLive(list[1..], aborted);
      LiveOnlyIn(list[1..], aborted);
      SortedCons(list[0], list[1..], LiveOnly(list[1..], aborted));
    }
  }

  lemma SortedCons(rec: Rec, all: seq<Rec>, some: seq<Rec>)
    requires Sorted([rec] + all) && Sorted(some) && forall x :: x in some ==> x in all
    ensures Sorted([rec] + some)
  {
    var list := [rec] + all;
    assert forall x :: x in all ==> exists i :: 1 <= i < |list| && list[i] == x by {
      forall x | x in all
        ensures exists i :: 1 <= i < |list| && list[i] == x
      {
        var i :| 0 <= i < |all| && all[i] == x;
        assert list[i + 1] == x;
      }
    }
    assert list[0] == rec;
    assert forall x :: x in some ==> rec.id < x.id;
  }

  lemma DropIsFine(s: State, key: Key, rec: Rec)
    requires Good(s)
    ensures Fine(s, Drop(s, key, rec)) && Drop(s, key, rec).log == s.log
  {
    hide Inv, Sorted;
    DropKeeps(s, key, rec);
    if key in s.lists {
      assert SettledList(s.lists[key], s.aborted);
      SortedWithout(s.lists[key], rec);
      WithoutIn(s.lists[key], rec);
    }
  }

  lemma CallIsFine(s: State, event: Event, key: Key, rec: Rec)
    requires Good(s) && rec in ListOf(s, key)
    ensures Fine(s, Call(s, event, key, rec)) && s.log + [Invocation(event, rec)] <= Call(s, event, key, rec).log
  {
    hide Inv, Sorted, Drop;
    CallKeeps(s, event, key, rec);
    var dropped := if rec.once then Drop(s, key, rec) else s;
    DropIsFine(s, key, rec);
    assert forall k :: ListOf(Call(s, event, key, rec), k) == ListOf(dropped, k);
  }

  lemma AbortIsFine(s: State, sig: Signal)
    requires Good(s)
    ensures Fine(s, Purge(s.(aborted := s.aborted + {sig})))
  {
    hide Inv, Sorted, LiveOnly;
    var t := s.(aborted := s.aborted + {sig});
    assert Inv(t) by { SameLists(s, t); }
    PurgeKeeps(t);
    forall k | k in s.lists
      ensures SettledList(LiveOnly(s.lists[k], t.aborted), t.aborted)
      ensures forall x :: x in LiveOnly(s.lists[k], t.aborted) ==> x in s.lists[k]
    {
      SortedLive(s.lists[k], t.aborted);
      LiveOnlyIn(s.lists[k], t.aborted);
    }
  }

  lemma SameLists(s: State, t: State)
    requires Inv(s) && t.lists == s.lists && t.nextId == s.nextId && t.log == s.log
    ensures Inv(t)
  {
    assert forall k :: ListOf(t, k) == ListOf(s, k);
  }

  lemma FlagsAreFine(s: State, t: State)
    requires Good(s) && t.stopped <= t.halted
    requires t == s.(halted := t.halted, stopped := t.stopped, busy := t.busy, open := t.open, left := t.left,
                     stale := t.stale, reused := t.reused)
    ensures Fine(s, t)
  {
    hide Inv;
    SameLists(s, t);
    assert forall k :: ListOf(t, k) == ListOf(s, k);
  }

  lemma HandlerIsFine(s: State, event: Event, key: Key)
    requires Good(s)
    ensures Fine(s, s.(log := s.log + [Handled(event, key)]))
  {
    hide Inv;
    var t := s.(log := s.log + [Handled(event, key)]);
    OtherwiseKeeps(s, t);
    assert forall k :: ListOf(t, k) == ListOf(s, k);
  }

  /** What a dispatch does to the flags of its event. */
  lemma DispatchIsFine(s: State, event: Event, mode: Mode)
    requires Good(s)
    ensures Fine(s, Noted(s, event)) && Fine(s, Begun(Noted(s, event), event))
            && Fine(s, Opened(Noted(s, event), event))
    ensures Fine(s, Ended(s, event)) && Fine(s, Closed(s, event, mode))
  {
    hide Fine, Inv;
    FlagsAreFine(s, Noted(s, event));
    FlagsAreFine(s, Begun(Noted(s, event), event));
    FlagsAreFine(s, Opened(Noted(s, event), event));
    FlagsAreFine(s, Ended(s, event));
    FlagsAreFine(s, Closed(s, event, mode));
  }

  lemma AppendIsFine(s: State, rec: Rec)
    requires Good(s) && rec.id == s.nextId && !IsAborted(rec, s.aborted)
    requires forall x :: x in ListOf(s, rec.key) ==> !Matches(x, rec.callback, rec.capture)
    ensures Fine(s, s.(lists := s.lists[rec.key := ListOf(s, rec.key) + [rec]], nextId := s.nextId + 1))
  {
    var t := s.(lists := s.lists[rec.key := ListOf(s, rec.key) + [rec]], nextId := s.nextId + 1);
    AppendKeeps(s, rec);
    assert SettledList(ListOf(s, rec.key) + [rec], s.aborted) by {
      assert rec.key in s.lists ==>
          GoodList(s.lists[rec.key], rec.key, s.nextId) && SettledList(s.lists[rec.key], s.aborted);
    }
    hide Inv, Sorted;
    assert forall k :: k != rec.key ==> ListOf(t, k) == ListOf(s, k);
  }

  lemma AddIsFine(s: State, key: Key, callback: Callback, capture: bool, once: bool, signal: Option<Signal>)
    requires Good(s)
    ensures Fine(s, AddListener(s, key, callback, capture, once, signal))
  {
    hide Good, NoneBack;
    var t := AddListener(s, key, callback, capture, once, signal);
    if t.nextId == s.nextId {
      StoppedHalted(s);
      FlagsAreFine(s, t);
    } else {
      AppendIsFine(s, Rec(s.nextId, key, callback, capture, once, signal));
    }
  }

  lemma StoppedHalted(s: State)
    requires Good(s)
    ensures s.stopped <= s.halted
  {
  }

  lemma {:induction false} ExecIsFine(s: State, op: Op, mode: Mode)
    requires Good(s) && mode != Program
    ensures Fine(s, Exec(s, op, mode))
    decreases op
  {
    hide Inv, Sorted, Drop, AddListener, Purge, NoneBack, AtTarget, Visits, Way, Noted, Begun, Ended, Opened, Closed;
    match op
    case Register(key, callback, capture, once, signal) => AddIsFine(s, key, callback, capture, once, signal);
    case Remove(key, callback, capture) =>
      FineSelf(s);
      var found := Find(ListOf(s, key), callback, capture);
      if found.Some? { DropIsFine(s, key, found.value); }
    case Abort(sig) => AbortIsFine(s, sig);
    case Halt(event) => FlagsAreFine(s, Exec(s, op, mode));
    case Stop(event) => FlagsAreFine(s, Exec(s, op, mode));
    case Dispatch(event, node, typ, composed, bubbles, handler, plan) =>
      NodeIsFine(s, event, typ, Way(node, typ, composed, bubbles, handler, mode), plan, mode);
    case Direct(event, key, bodies) => DirectIsFine(s, event, key, bodies, mode);
  }

  lemma {:induction false} NodeIsFine(s: State, event: Event, typ: string, way: seq<EventPath.Visit>, plan: Plan,
                                      mode: Mode)
    requires Good(s) && mode != Program
    ensures Fine(s, Noted(s, event))
    ensures Fine(s, Ended(Visits(Begun(Noted(s, event), event), event, typ, way, 0, plan, mode), event))
    decreases plan, 6, 0
  {
    hide Good, NoneBack, Visits, Noted, Begun, Ended, Opened, Closed;
    var begun := Begun(Noted(s, event), event);
    var t := Visits(begun, event, typ, way, 0, plan, mode);
    DispatchIsFine(s, event, mode);
    VisitsIsFine(begun, event, typ, way, 0, plan, mode);
    DispatchIsFine(t, event, mode);
    FineTwice(s, begun, t);
    FineTwice(s, t, Ended(t, event));
  }

  lemma {:induction false} DirectIsFine(s: State, event: Event, key: Key, bodies: seq<Script>, mode: Mode)
    requires Good(s) && mode != Program
    ensures Fine(s, Noted(s, event))
    ensures Fine(s, Closed(AtTarget(Opened(Noted(s, event), event), event, key, bodies, mode), event, mode))
    decreases bodies, 4, 0
  {
    hide Good, NoneBack, AtTarget, Noted, Begun, Ended, Opened, Closed;
    var begun := Opened(Noted(s, event), event);
    var t := AtTarget(begun, event, key, bodies, mode);
    DispatchIsFine(s, event, mode);
    AtTargetIsFine(begun, event, key, bodies, mode);
    DispatchIsFine(t, event, mode);
    FineTwice(s, begun, t);
    FineTwice(s, t, Closed(t, event, mode));
  }

  lemma {:induction false} VisitsIsFine(s: State, event: Event, typ: string, way: seq<EventPath.Visit>, visit: nat,
                                        plan: Plan, mode: Mode)
    requires Good(s) && mode != Program
    ensures Fine(s, Visits(s, event, typ, way, visit, plan, mode))
    decreases plan, 5, |way|
  {
    hide Inv, Settled, NoneBack, Visited;
    FineSelf(s);
    if way != [] && event !in s.halted {
      var t := Visited(s, event, typ, way[0], During(plan, visit), mode);
      VisitedIsFine(s, event, typ, way[0], During(plan, visit), mode);
      VisitsIsFine(t, event, typ, way[1..], visit + 1, plan, mode);
      FineTwice(s, t, Visits(t, event, typ, way[1..], visit + 1, plan, mode));
    }
  }

  lemma {:induction false} VisitedIsFine(s: State, event: Event, typ: string, visit: EventPath.Visit,
                                         bodies: seq<Script>, mode: Mode)
    requires Good(s) && mode != Program
    ensures Fine(s, Visited(s, event, typ, visit, bodies, mode))
    decreases bodies, 4, 0
  {
    hide Inv, Settled, NoneBack, AtTarget, Invoke, Run;
    var key := Key(Ident(visit.target), typ);
    match visit
    case Inline(_) =>
      var called := s.(log := s.log + [Handled(event, key)]);
      HandlerIsFine(s, event, key);
      if bodies != [] {
        RunIsFine(called, bodies[0], mode);
        FineTwice(s, called, Run(called, bodies[0], mode));
      }
    case Visit(phase, _) =>
      AtTargetIsFine(s, event, key, bodies, mode);
      InvokeIsFine(s, event, key, Some(phase == EventPath.Capturing), ListOf(s, key), bodies, 0, mode);
  }

  lemma {:induction false} RunIsFine(s: State, script: Script, mode: Mode)
    requires Good(s) && mode != Program
    ensures Fine(s, Run(s, script, mode))
    decreases script
  {
    hide Inv, Settled, NoneBack, Exec;
    match script
    case Done => FineSelf(s);
    case Then(op, rest) =>
      var t := Exec(s, op, mode);
      ExecIsFine(s, op, mode);
      RunIsFine(t, rest, mode);
      FineTwice(s, t, Run(t, rest, mode));
  }

  lemma FineSelf(s: State)
    requires Good(s)
    ensures Fine(s, s)
  {
  }

  lemma {:induction false} AtTargetIsFine(s: State, event: Event, key: Key, bodies: seq<Script>, mode: Mode)
    requires Good(s) && mode != Program
    ensures Fine(s, AtTarget(s, event, key, bodies, mode))
    decreases bodies, 3, 0
  {
    hide Inv, Settled, NoneBack, Invoke, TwoPasses;
    FineSelf(s);
    if mode != Standard {
      InvokeIsFine(s, event, key, None, ListOf(s, key), bodies, 0, mode);
    } else {
      TwoPassesIsFine(s, event, key, ListOf(s, key), bodies, 0);
    }
  }

  lemma {:induction false} AfterIsFine(s: State, event: Event, key: Key, rec: Rec, bodies: seq<Script>, next: nat,
                                       mode: Mode)
    requires Good(s) && mode != Program && rec in ListOf(s, key)
    ensures var t := After(s, event, key, rec, bodies, next, mode);
            Fine(s, t) && s.log + [Invocation(event, rec)] <= t.log
    decreases bodies, 0, 0
  {
    hide Inv, Settled, NoneBack, Call, Run;
    var called := Call(s, event, key, rec);
    CallIsFine(s, event, key, rec);
    if next < |bodies| {
      RunIsFine(called, bodies[next], mode);
      FineTwice(s, called, Run(called, bodies[next], mode));
    }
  }

  /** A visible listener has no aborted signal. */
  lemma Visible(s: State, key: Key, rec: Rec)
    requires Good(s) && rec in ListOf(s, key)
    ensures !IsAborted(rec, s.aborted) && rec.id < s.nextId
  {
    assert SettledList(s.lists[key], s.aborted) && GoodList(s.lists[key], key, s.nextId);
  }

  lemma {:induction false} InvokeIsFine(s: State, event: Event, key: Key, phase: Option<bool>, clone: seq<Rec>,
                                        bodies: seq<Script>, next: nat, mode: Mode)
    requires Good(s) && mode != Program
    ensures Fine(s, Invoke(s, event, key, phase, clone, bodies, next, mode))
    decreases bodies, 1, |clone|
  {
    hide Inv, Settled, NoneBack, After, Drop;
    if clone == [] {
      FineSelf(s);
    } else {
      var rec := clone[0];
      if Skips(phase, rec) || rec !in ListOf(s, key) {
        InvokeIsFine(s, event, key, phase, clone[1..], bodies, next, mode);
      } else {
        Visible(s, key, rec);
        var after := After(s, event, key, rec, bodies, next, mode);
        AfterIsFine(s, event, key, rec, bodies, next, mode);
        if event !in after.stopped {
          InvokeIsFine(after, event, key, phase, clone[1..], bodies, next + 1, mode);
          FineTwice(s, after, Invoke(after, event, key, phase, clone[1..], bodies, next + 1, mode));
        }
      }
    }
  }

  lemma {:induction false} TwoPassesIsFine(s: State, event: Event, key: Key, clone: seq<Rec>, bodies: seq<Script>,
                                           next: nat)
    requires Good(s)
    ensures Fine(s, TwoPasses(s, event, key, clone, bodies, next))
    decreases bodies, 2, |clone|
  {
    hide Inv, Settled, NoneBack, After, Drop, Invoke;
    if clone == [] {
      FineSelf(s);
      InvokeIsFine(s, event, key, Some(false), ListOf(s, key), bodies, next, Standard);
    } else {
      var rec := clone[0];
      if !rec.capture || rec !in ListOf(s, key) {
        TwoPassesIsFine(s, event, key, clone[1..], bodies, next);
      } else {
        Visible(s, key, rec);
        var after := After(s, event, key, rec, bodies, next, Standard);
        AfterIsFine(s, event, key, rec, bodies, next, Standard);
        if event !in after.stopped {
          TwoPassesIsFine(after, event, key, clone[1..], bodies, next + 1);
          FineTwice(s, after, TwoPasses(after, event, key, clone[1..], bodies, next + 1));
        }
      }
    }
  }

  // ----- one dispatch

  /** The event's target, from some entry of the clone on: whether one pass and two passes do the same. They do up to
      the first listener that is not a capturing one. */
  ghost predicate Agrees(s: State, event: Event, key: Key, clone: seq<Rec>, bodies: seq<Script>, next: nat)
    decreases |clone|
  {
    if clone == [] then event in s.halted || forall r :: r in ListOf(s, key) ==> r.capture
    else
      var rec := clone[0];
      if rec !in ListOf(s, key) then Agrees(s, event, key, clone[1..], bodies, next)
      else if rec.capture then
        var after := After(s, event, key, rec, bodies, next, Standard);
        event in after.stopped || Agrees(after, event, key, clone[1..], bodies, next + 1)
      else AgreesFromHere(s, event, key, clone, bodies, next)
  }

  /** At that listener: no capturing one is behind it, the event is not halted, and of the listeners the second clone
      has in addition, which the capturing ones registered, none is left when the first clone is done. */
  ghost predicate AgreesFromHere(s: State, event: Event, key: Key, clone: seq<Rec>, bodies: seq<Script>, next: nat) {
    && event !in s.halted
    && (forall c :: c in clone && c.capture ==> c !in ListOf(s, key))
    && var t := Invoke(s, event, key, None, clone, bodies, next, Standard);
       event in t.stopped || forall r :: r in ListOf(s, key) && !r.capture && r !in clone ==> r !in ListOf(t, key)
  }

  /** A clone made when ids below `bound` were given out; a bubbling listener as old as that is in it or gone. */
  ghost predicate Covers(s: State, key: Key, clone: seq<Rec>, bound: nat) {
    && bound <= s.nextId && Sorted(clone)
    && (forall r :: r in clone ==> r.id < bound)
    && (forall r :: r in ListOf(s, key) && !r.capture && r.id < bound ==> r in clone)
  }

  lemma CoversTail(s: State, t: State, key: Key, clone: seq<Rec>, bound: nat)
    requires Covers(s, key, clone, bound) && clone != [] && (clone[0].capture || clone[0] !in ListOf(t, key))
             && NoneBack(s, t)
    ensures Covers(t, key, clone[1..], bound)
  {
    assert forall r :: r in clone && r != clone[0] ==> r in clone[1..];
  }

  /** What the second clone has besides the first one, and is still there. */
  ghost predicate MoreLeft(t: State, key: Key, second: seq<Rec>, bound: nat) {
    exists r :: r in second && !r.capture && r.id >= bound && r in ListOf(t, key)
  }

  /** Two clones of which the second has the bubbling listeners of the first in the same order, and newer ones. */
  ghost predicate Alike(s: State, key: Key, first: seq<Rec>, second: seq<Rec>, bound: nat) {
    && bound <= s.nextId && Sorted(first) && Sorted(second)
    && (forall r :: r in first ==> r.id < bound)
    && (forall r :: r in second ==> r.id < s.nextId)
    && (forall c :: c in first && c.capture ==> c !in ListOf(s, key))
    && (forall r :: r in first && r in ListOf(s, key) ==> r in second)
    && (forall r :: r in second && !r.capture && r.id < bound && r in ListOf(s, key) ==> r in first)
  }

  lemma SameHead(s: State, key: Key, first: seq<Rec>, second: seq<Rec>, bound: nat)
    requires Alike(s, key, first, second, bound) && first != [] && first[0] in ListOf(s, key)
    requires second != [] ==> second[0] in ListOf(s, key) && !second[0].capture
    ensures second != [] && first[0] == second[0]
  {
    assert first[0] in second;
    assert second[0].id <= first[0].id;
    assert second[0] in first;
  }

  lemma SortedTail(list: seq<Rec>)
    requires Sorted(list) && list != []
    ensures Sorted(list[1..])
    ensures forall r :: r in list[1..] <==> r in list && r != list[0]
  {
    assert forall r :: r in list[1..] ==> r.id > list[0].id;
    assert forall r :: r in list && r != list[0] ==> r in list[1..];
  }

  lemma AlikeAfter(s: State, t: State, key: Key, first: seq<Rec>, second: seq<Rec>, bound: nat)
    requires Alike(s, key, first, second, bound) && first != [] && second != [] && first[0] == second[0]
             && NoneBack(s, t)
    ensures Alike(t, key, first[1..], second[1..], bound)
  {
    hide Sorted;
    SortedTail(first);
    SortedTail(second);
  }

  /** The walk over the first clone and the bubbling pass over the second do the same as long as both last. */
  lemma {:induction false} SecondPass(s: State, event: Event, key: Key, first: seq<Rec>, second: seq<Rec>,
                                      bodies: seq<Script>, next: nat, bound: nat)
    requires Good(s) && event !in s.stopped && Alike(s, key, first, second, bound)
    ensures var one := Invoke(s, event, key, None, first, bodies, next, Standard);
            var two := Invoke(s, event, key, Some(false), second, bodies, next, Standard);
            && (one.log == two.log <==> event in one.stopped || !MoreLeft(one, key, second, bound))
            && (one.log == two.log ==> one == two)
    decreases bodies, |first| + |second|
  {
    hide Good, After, Sorted;
    if first != [] && first[0] !in ListOf(s, key) {
      SkipFirst(s, key, first, second, bound);
      SecondPass(s, event, key, first[1..], second, bodies, next, bound);
    } else if second != [] && (second[0].capture || second[0] !in ListOf(s, key)) {
      SkipSecond(s, key, first, second, bound);
      InvokeIsFine(s, event, key, None, first, bodies, next, Standard);
      SecondPass(s, event, key, first, second[1..], bodies, next, bound);
      MoreLeftSkip(s, Invoke(s, event, key, None, first, bodies, next, Standard), key, second, bound);
    } else if first == [] {
      if second != [] { OnlySecond(s, event, key, second, bodies, next, bound); }
    } else {
      SameHead(s, key, first, second, bound);
      var rec := first[0];
      var after := After(s, event, key, rec, bodies, next, Standard);
      Visible(s, key, rec);
      AfterIsFine(s, event, key, rec, bodies, next, Standard);
      if event !in after.stopped {
        AlikeAfter(s, after, key, first, second, bound);
        SecondPass(after, event, key, first[1..], second[1..], bodies, next + 1, bound);
        MoreLeftCalled(Invoke(after, event, key, None, first[1..], bodies, next + 1, Standard), key, second, bound);
      }
    }
  }

  lemma SkipFirst(s: State, key: Key, first: seq<Rec>, second: seq<Rec>, bound: nat)
    requires Alike(s, key, first, second, bound) && first != [] && first[0] !in ListOf(s, key)
    ensures Alike(s, key, first[1..], second, bound)
  {
    assert forall r :: r in first && r != first[0] ==> r in first[1..];
  }

  lemma SkipSecond(s: State, key: Key, first: seq<Rec>, second: seq<Rec>, bound: nat)
    requires Alike(s, key, first, second, bound) && second != [] && (second[0].capture || second[0] !in ListOf(s, key))
    ensures Alike(s, key, first, second[1..], bound)
  {
    assert forall r :: r in second && r != second[0] ==> r in second[1..];
  }

  lemma MoreLeftSkip(s: State, t: State, key: Key, second: seq<Rec>, bound: nat)
    requires second != [] && NoneBack(s, t) && second[0].id < s.nextId
             && (second[0].capture || second[0] !in ListOf(s, key))
    ensures MoreLeft(t, key, second, bound) <==> MoreLeft(t, key, second[1..], bound)
  {
    if MoreLeft(t, key, second, bound) {
      var r :| r in second && !r.capture && r.id >= bound && r in ListOf(t, key);
      assert r != second[0];
      assert r in second[1..];
    }
  }

  lemma MoreLeftCalled(t: State, key: Key, second: seq<Rec>, bound: nat)
    requires second != [] && second[0].id < bound
    ensures MoreLeft(t, key, second, bound) <==> MoreLeft(t, key, second[1..], bound)
  {
    if MoreLeft(t, key, second, bound) {
      var r :| r in second && !r.capture && r.id >= bound && r in ListOf(t, key);
      assert r != second[0];
      assert r in second[1..];
    }
  }

  /** The first clone is done and the second starts with a visible bubbling listener, which is called. */
  lemma OnlySecond(s: State, event: Event, key: Key, second: seq<Rec>, bodies: seq<Script>, next: nat, bound: nat)
    requires Good(s) && Alike(s, key, [], second, bound)
    requires second != [] && !second[0].capture && second[0] in ListOf(s, key)
    ensures MoreLeft(s, key, second, bound)
    ensures |s.log| < |Invoke(s, event, key, Some(false), second, bodies, next, Standard).log|
  {
    hide Good, NoneBack, Inv;
    assert second[0].id >= bound;
    CallsFirst(s, event, key, Some(false), second, bodies, next);
  }

  /** A walk whose first entry is visible and not skipped starts with a call of it. */
  lemma CallsFirst(s: State, event: Event, key: Key, phase: Option<bool>, clone: seq<Rec>, bodies: seq<Script>,
                   next: nat)
    requires Good(s) && clone != [] && !Skips(phase, clone[0]) && clone[0] in ListOf(s, key)
    ensures s.log + [Invocation(event, clone[0])] <= Invoke(s, event, key, phase, clone, bodies, next, Standard).log
  {
    hide Good, NoneBack, After;
    var after := After(s, event, key, clone[0], bodies, next, Standard);
    Visible(s, key, clone[0]);
    AfterIsFine(s, event, key, clone[0], bodies, next, Standard);
    InvokeIsFine(after, event, key, phase, clone[1..], bodies, next + 1, Standard);
  }

  /** The first pass finds no capturing listener. */
  lemma {:induction false} NoneCapturing(s: State, event: Event, key: Key, clone: seq<Rec>, bodies: seq<Script>,
                                         next: nat)
    requires forall c :: c in clone && c.capture ==> c !in ListOf(s, key)
    ensures TwoPasses(s, event, key, clone, bodies, next)
         == if event in s.halted then s else Invoke(s, event, key, Some(false), ListOf(s, key), bodies, next, Standard)
  {
    hide Invoke, After, Drop;
    if clone != [] {
      assert clone[0] in clone;
      NoneCapturing(s, event, key, clone[1..], bodies, next);
    }
  }

  /** The first pass finds one, and calls a capturing listener first. */
  lemma {:induction false} SomeCapturing(s: State, event: Event, key: Key, clone: seq<Rec>, bodies: seq<Script>,
                                         next: nat)
    returns (c: Rec)
    requires Good(s) && exists c :: c in clone && c.capture && c in ListOf(s, key)
    ensures c.capture && s.log + [Invocation(event, c)] <= TwoPasses(s, event, key, clone, bodies, next).log
  {
    hide Good, NoneBack, After, Invoke, Drop;
    c := clone[0];
    if !c.capture || c !in ListOf(s, key) {
      c := SomeCapturing(s, event, key, clone[1..], bodies, next);
    } else {
      var after := After(s, event, key, c, bodies, next, Standard);
      Visible(s, key, c);
      AfterIsFine(s, event, key, c, bodies, next, Standard);
      TwoPassesIsFine(after, event, key, clone[1..], bodies, next + 1);
    }
  }

  lemma AlikeNow(s: State, key: Key, clone: seq<Rec>, bound: nat)
    requires Good(s) && Covers(s, key, clone, bound) && forall c :: c in clone && c.capture ==> c !in ListOf(s, key)
    ensures Alike(s, key, clone, ListOf(s, key), bound)
    ensures forall r :: r in ListOf(s, key) && !r.capture ==> (r in clone <==> r.id < bound)
  {
    assert key in s.lists ==> SettledList(s.lists[key], s.aborted) && GoodList(s.lists[key], key, s.nextId);
  }

  /** Both from the first visible listener that is not a capturing one. */
  lemma FromHere(s: State, event: Event, key: Key, clone: seq<Rec>, bodies: seq<Script>, next: nat, bound: nat)
    requires Good(s) && Covers(s, key, clone, bound) && clone != [] && clone[0] in ListOf(s, key) && !clone[0].capture
    ensures var one, two := Invoke(s, event, key, None, clone, bodies, next, Standard),
        TwoPasses(s, event, key, clone, bodies, next);
            && (one.log == two.log <==> AgreesFromHere(s, event, key, clone, bodies, next))
            && (one.log == two.log ==> one == two)
  {
    hide Invoke, TwoPasses, Covers, Alike, Inv;
    CallsFirst(s, event, key, None, clone, bodies, next);
    if exists c :: c in clone && c.capture && c in ListOf(s, key) {
      var c := SomeCapturing(s, event, key, clone, bodies, next);
      FirstDiffers(s.log, Invocation(event, clone[0]), Invocation(event, c),
                   Invoke(s, event, key, None, clone, bodies, next, Standard).log,
                   TwoPasses(s, event, key, clone, bodies, next).log);
    } else {
      NoneCapturing(s, event, key, clone, bodies, next);
      if event !in s.halted {
        AlikeNow(s, key, clone, bound);
        SecondPass(s, event, key, clone, ListOf(s, key), bodies, next, bound);
      }
    }
  }

  lemma FirstDiffers(log: seq<Invocation>, a: Invocation, b: Invocation, one: seq<Invocation>, two: seq<Invocation>)
    requires log + [a] <= one && log + [b] <= two && a != b
    ensures one != two
  {
    assert one[|log|] == (log + [a])[|log|] == a && two[|log|] == (log + [b])[|log|] == b;
  }

  /** One pass calls the listeners that two passes call, in the same order, exactly when the two agree; then they do the
      same in every respect. */
  lemma {:induction false} AgreesExactly(s: State, event: Event, key: Key, clone: seq<Rec>, bodies: seq<Script>,
                                         next: nat, bound: nat)
    requires Good(s) && Covers(s, key, clone, bound)
    ensures var one, two := Invoke(s, event, key, None, clone, bodies, next, Standard),
        TwoPasses(s, event, key, clone, bodies, next);
            && (one.log == two.log <==> Agrees(s, event, key, clone, bodies, next))
            && (one.log == two.log ==> one == two)
    decreases |clone|
  {
    hide Good, After, AgreesFromHere, Drop, Sorted;
    if clone == [] {
      NothingLeft(s, event, key, bodies, next, bound);
    } else {
      var rec := clone[0];
      if rec !in ListOf(s, key) {
        FineSelf(s);
        CoversTail(s, s, key, clone, bound);
        AgreesExactly(s, event, key, clone[1..], bodies, next, bound);
      } else if rec.capture {
        Visible(s, key, rec);
        var after := After(s, event, key, rec, bodies, next, Standard);
        AfterIsFine(s, event, key, rec, bodies, next, Standard);
        if event !in after.stopped {
          CoversTail(s, after, key, clone, bound);
          AgreesExactly(after, event, key, clone[1..], bodies, next + 1, bound);
        }
      } else {
        FromHere(s, event, key, clone, bodies, next, bound);
      }
    }
  }

  /** One pass has met no visible bubbling listener. */
  lemma NothingLeft(s: State, event: Event, key: Key, bodies: seq<Script>, next: nat, bound: nat)
    requires Good(s) && Covers(s, key, [], bound)
    ensures var two := TwoPasses(s, event, key, [], bodies, next);
            && (s.log == two.log <==> event in s.halted || forall r :: r in ListOf(s, key) ==> r.capture)
            && (s.log == two.log ==> s == two)
  {
    hide Invoke, Inv, Sorted;
    if event !in s.halted {
      AlikeNow(s, key, [], bound);
      SecondPass(s, event, key, [], ListOf(s, key), bodies, next, bound);
      InvokeNothing(s, event, key, None, bodies, next, Standard);
    }
  }

  lemma InvokeNothing(s: State, event: Event, key: Key, phase: Option<bool>, bodies: seq<Script>, next: nat, mode: Mode)
    ensures Invoke(s, event, key, phase, [], bodies, next, mode) == s
  {
  }

  /** The listeners of the target: an event that is halted calls none in the standard. */
  ghost predicate TargetAgrees(s: State, event: Event, key: Key, bodies: seq<Script>) {
    if event in s.halted then ListOf(s, key) == [] else Agrees(s, event, key, ListOf(s, key), bodies, 0)
  }

  ghost function OnePass(s: State, event: Event, key: Key, bodies: seq<Script>): State {
    Invoke(s, event, key, None, ListOf(s, key), bodies, 0, Standard)
  }

  lemma TargetAgreesExactly(s: State, event: Event, key: Key, bodies: seq<Script>)
    requires Good(s)
    ensures var one, two := OnePass(s, event, key, bodies), AtTarget(s, event, key, bodies, Standard);
            && (one.log == two.log <==> TargetAgrees(s, event, key, bodies))
            && (one.log == two.log ==> one == two)
  {
    hide Invoke, TwoPasses, Good, Agrees;
    if event in s.halted {
      if ListOf(s, key) == [] {
        InvokeNothing(s, event, key, None, bodies, 0, Standard);
      } else {
        CallsFirst(s, event, key, None, ListOf(s, key), bodies, 0);
      }
    } else {
      OwnClone(s, key);
      AgreesExactly(s, event, key, ListOf(s, key), bodies, 0, s.nextId);
    }
  }

  lemma OwnClone(s: State, key: Key)
    requires Good(s)
    ensures Covers(s, key, ListOf(s, key), s.nextId)
  {
    assert key in s.lists ==> SettledList(s.lists[key], s.aborted) && GoodList(s.lists[key], key, s.nextId);
  }

  /** A list without capturing listeners is safe, whatever the callbacks do. */
  lemma NoCapturingAgrees(s: State, event: Event, key: Key, bodies: seq<Script>)
    requires Good(s) && event !in s.halted && forall r :: r in ListOf(s, key) ==> !r.capture
    ensures AtTarget(s, event, key, bodies, Standard) == OnePass(s, event, key, bodies)
  {
    hide Invoke, Good;
    TargetAgreesExactly(s, event, key, bodies);
  }

  // ----- whole runs

  /** A run of the standard in which one pass would do the same at every target, and every event sent to a node goes the
      program's way. */
  ghost predicate Plain(s: State, script: Script)
    decreases script
  {
    match script
    case Done => true
    case Then(op, rest) => PlainOp(s, op) && Plain(Exec(s, op, Standard), rest)
  }

  ghost predicate PlainOp(s: State, op: Op)
    decreases op
  {
    match op
    case Register(_, _, _, _, _) => true
    case Remove(_, _, _) => true
    case Abort(_) => true
    case Halt(_) => true
    case Stop(_) => true
    case Dispatch(event, node, typ, composed, bubbles, handler, plan) =>
      var noted, way := Noted(s, event), Way(node, typ, composed, bubbles, handler, Standard);
      TurnedAway(noted, event, Standard) ||
      (&& PlainWay(node, typ, composed, bubbles, handler)
       && PlainVisits(Begun(noted, event), event, typ, way, 0, plan))
    case Direct(event, key, bodies) =>
      TurnedAway(Noted(s, event), event, Standard) ||
      (Outside(key) && PlainTarget(Opened(Noted(s, event), event), event, key, bodies))
  }

  /** The program's way to a node, which has no inline handler, is the standard's. */
  ghost predicate PlainWay(node: EventPath.Node, typ: string, composed: bool, bubbles: bool, handler: bool) {
    && !handler && StandardPath.Proper(node, composed)
    && StandardPath.OrdersAgree(node, composed, typ == "load", bubbles)
  }

  lemma PlainWayIs(node: EventPath.Node, typ: string, composed: bool, bubbles: bool, handler: bool)
    requires PlainWay(node, typ, composed, bubbles, handler)
    ensures Way(node, typ, composed, bubbles, handler, Standard) == Way(node, typ, composed, bubbles, handler, Clearing)
  {
    hide StandardPath.OrdersAgree, StandardPath.StandardOrder, EventPath.Order, EventPath.Path;
    StandardPath.SameOrder(node, composed, typ == "load", bubbles);
  }

  ghost predicate PlainVisits(s: State, event: Event, typ: string, way: seq<EventPath.Visit>, visit: nat, plan: Plan)
    decreases plan, 5, |way|
  {
    way == [] || event in s.halted ||
    (&& PlainVisit(s, event, typ, way[0], During(plan, visit))
     && PlainVisits(Visited(s, event, typ, way[0], During(plan, visit), Standard), event, typ, way[1..], visit + 1,
                    plan))
  }

  ghost predicate PlainVisit(s: State, event: Event, typ: string, visit: EventPath.Visit, bodies: seq<Script>)
    decreases bodies, 4, 0
  {
    var key := Key(Ident(visit.target), typ);
    match visit
    case Inline(_) => false
    case Visit(phase, _) =>
      if phase == EventPath.AtTarget then PlainTarget(s, event, key, bodies)
      else PlainWalk(s, event, key, Some(phase == EventPath.Capturing), ListOf(s, key), bodies, 0)
  }

  ghost predicate PlainTarget(s: State, event: Event, key: Key, bodies: seq<Script>)
    decreases bodies, 2, 0
  {
    TargetAgrees(s, event, key, bodies) && PlainWalk(s, event, key, None, ListOf(s, key), bodies, 0)
  }

  ghost predicate PlainWalk(s: State, event: Event, key: Key, phase: Option<bool>, clone: seq<Rec>,
                            bodies: seq<Script>, next: nat)
    decreases bodies, 1, |clone|
  {
    clone == [] ||
    var rec := clone[0];
    if Skips(phase, rec) || rec !in ListOf(s, key) then PlainWalk(s, event, key, phase, clone[1..], bodies, next)
    else
      var after := After(s, event, key, rec, bodies, next, Standard);
      && (next < |bodies| ==> Plain(Call(s, event, key, rec), bodies[next]))
      && (event in after.stopped || PlainWalk(after, event, key, phase, clone[1..], bodies, next + 1))
  }

  lemma {:induction false} PlainRun(s: State, script: Script)
    requires Good(s) && Plain(s, script)
    ensures Run(s, script, Standard) == Run(s, script, Clearing)
    decreases script
  {
    hide Exec, Good, PlainOp, NoneBack;
    match script
    case Done =>
    case Then(op, rest) =>
      ExecIsFine(s, op, Standard);
      PlainExec(s, op);
      PlainRun(Exec(s, op, Standard), rest);
  }

  lemma {:induction false} PlainExec(s: State, op: Op)
    requires Good(s) && PlainOp(s, op)
    ensures Exec(s, op, Standard) == Exec(s, op, Clearing)
    decreases op
  {
    hide Good, Visits, Way, PlainWay, PlainVisits, AtTarget, PlainTarget, Find, AddListener, Purge, Drop;
    hide Fine, Noted, Begun, Opened, Ended;
    match op
    case Register(key, callback, capture, once, signal) =>
    case Remove(key, callback, capture) =>
    case Abort(sig) =>
    case Halt(event) =>
    case Stop(event) =>
    case Dispatch(event, node, typ, composed, bubbles, handler, plan) =>
      var noted, way := Noted(s, event), Way(node, typ, composed, bubbles, handler, Standard);
      DispatchAllFine(s, event);
      if !TurnedAway(noted, event, Standard) {
        PlainWayIs(node, typ, composed, bubbles, handler);
        PlainAlong(Begun(noted, event), event, typ, way, 0, plan);
      }
    case Direct(event, key, bodies) =>
      DispatchAllFine(s, event);
      if !TurnedAway(Noted(s, event), event, Standard) {
        PlainAtTarget(Opened(Noted(s, event), event), event, key, bodies);
      }
  }

  lemma DispatchAllFine(s: State, event: Event)
    requires Good(s)
    ensures Good(Noted(s, event)) && Good(Begun(Noted(s, event), event)) && Good(Opened(Noted(s, event), event))
  {
    hide Good, NoneBack;
    DispatchIsFine(s, event, Standard);
  }

  lemma {:induction false} PlainAlong(s: State, event: Event, typ: string, way: seq<EventPath.Visit>, visit: nat,
                                      plan: Plan)
    requires Good(s) && PlainVisits(s, event, typ, way, visit, plan)
    ensures Visits(s, event, typ, way, visit, plan, Standard) == Visits(s, event, typ, way, visit, plan, Clearing)
    decreases plan, 5, |way|
  {
    hide Good, NoneBack, Visited, PlainVisit;
    if way != [] && event !in s.halted {
      PlainVisited(s, event, typ, way[0], During(plan, visit));
      VisitedIsFine(s, event, typ, way[0], During(plan, visit), Standard);
      PlainAlong(Visited(s, event, typ, way[0], During(plan, visit), Standard), event, typ, way[1..], visit + 1, plan);
    }
  }

  lemma {:induction false} PlainVisited(s: State, event: Event, typ: string, visit: EventPath.Visit,
                                        bodies: seq<Script>)
    requires Good(s) && PlainVisit(s, event, typ, visit, bodies)
    ensures Visited(s, event, typ, visit, bodies, Standard) == Visited(s, event, typ, visit, bodies, Clearing)
    decreases bodies, 4, 0
  {
    hide Good, AtTarget, Invoke, PlainTarget, PlainWalk;
    var key := Key(Ident(visit.target), typ);
    match visit
    case Visit(phase, _) =>
      if phase == EventPath.AtTarget {
        PlainAtTarget(s, event, key, bodies);
      } else {
        PlainInvoke(s, event, key, Some(phase == EventPath.Capturing), ListOf(s, key), bodies, 0);
      }
  }

  lemma {:induction false} PlainAtTarget(s: State, event: Event, key: Key, bodies: seq<Script>)
    requires Good(s) && PlainTarget(s, event, key, bodies)
    ensures AtTarget(s, event, key, bodies, Standard) == AtTarget(s, event, key, bodies, Clearing)
    decreases bodies, 2, 0
  {
    hide Good, TargetAgrees, PlainWalk, Invoke;
    TargetAgreesExactly(s, event, key, bodies);
    PlainInvoke(s, event, key, None, ListOf(s, key), bodies, 0);
  }

  lemma {:induction false} PlainInvoke(s: State, event: Event, key: Key, phase: Option<bool>, clone: seq<Rec>,
                                       bodies: seq<Script>, next: nat)
    requires Good(s) && PlainWalk(s, event, key, phase, clone, bodies, next)
    ensures Invoke(s, event, key, phase, clone, bodies, next, Standard)
         == Invoke(s, event, key, phase, clone, bodies, next, Clearing)
    decreases bodies, 1, |clone|
  {
    hide Good, NoneBack, Call, Run, Plain, Drop;
    if clone != [] {
      var rec := clone[0];
      if Skips(phase, rec) || rec !in ListOf(s, key) {
        PlainInvoke(s, event, key, phase, clone[1..], bodies, next);
      } else {
        Visible(s, key, rec);
        var after := After(s, event, key, rec, bodies, next, Standard);
        AfterIsFine(s, event, key, rec, bodies, next, Standard);
        if next < |bodies| {
          CallIsFine(s, event, key, rec);
          PlainRun(Call(s, event, key, rec), bodies[next]);
        }
        if event !in after.stopped {
          PlainInvoke(after, event, key, phase, clone[1..], bodies, next + 1);
        }
      }
    }
  }

  /** A run from scratch is a run of the standard, the same listeners called in the same order, when
      - no registration is refused because of an aborted listener,
      - no event is dispatched once more that a direct dispatch has left halted or is still dispatching,
      - and it is plain: at every target one pass does what two do, and every event at a node goes the standard's way.
      What is left differs only in aborted listeners not yet noticed, and in the flags of events left halted. */
  lemma MeetsStandard(script: Script)
    requires var t := Run(EMPTY, script, Program); !t.stale && !t.reused && Plain(EMPTY, script)
    ensures Run(EMPTY, script, Standard).log == Run(EMPTY, script, Program).log
    ensures LeftFlags.SameBut(Purge(Run(EMPTY, script, Program)), Run(EMPTY, script, Standard))
  {
    hide Run, Plain;
    EmptyIsGood();
    assert Purge(EMPTY) == EMPTY;
    AbortLater(EMPTY, script);
    LeftFlags.LeftAlone(script);
    PlainRun(EMPTY, script);
  }
}
