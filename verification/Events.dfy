/** Calling the listeners of an event target, as the program does it and as section 2.9 of the WHATWG DOM Standard
    has it: on a clone of the listener list, skipping listeners removed in the meantime. Callbacks are arbitrary
    finite trees of operations: they register, remove, abort, stop events and dispatch again. */
module Events {
  import opened Collections
  import EventPath
  import StandardPath

  /** An event target together with an event type. */
  datatype Key = Key(target: nat, typ: string)

  type Callback = nat
  type Signal = nat
  type Event = nat

  /** A registered listener; `id` tells two registrations of the same callback apart. */
  datatype Rec = Rec(id: nat, key: Key, callback: Callback, capture: bool, once: bool, signal: Option<Signal>)

  /** What a callback does. `Halt` sets an event's stop propagation flag, `Stop` its stop immediate propagation flag
      too. `Dispatch` sends an event to a node and along its path; `handler` says whether the node turns out to have an
      inline handler for it. `Direct` calls the listeners of a target outside the tree; `bodies` says what the first,
      second, ... callback run by that does, and any further one does nothing. */
  datatype Op =
    | Register(key: Key, callback: Callback, capture: bool, once: bool, signal: Option<Signal>)
    | Remove(key: Key, callback: Callback, capture: bool)
    | Abort(sig: Signal)
    | Halt(event: Event)
    | Stop(event: Event)
    | Dispatch(event: Event, node: EventPath.Node, typ: string, composed: bool, bubbles: bool, handler: bool,
               plan: Plan)
    | Direct(event: Event, key: Key, bodies: seq<Script>)

  datatype Script = Done | Then(op: Op, rest: Script)

  /** What the callbacks do that the first, second, ... visit of a dispatch runs, and those of any further one. */
  datatype Plan = Plan(visits: seq<Bodies>, others: seq<Script>)

  datatype Bodies = Bodies(scripts: seq<Script>)

  function During(plan: Plan, visit: nat): seq<Script> {
    if visit < |plan.visits| then plan.visits[visit].scripts else plan.others
  }

  /** A listener that ran, or the inline handler of a target. */
  datatype Invocation = Invocation(event: Event, rec: Rec) | Handled(event: Event, key: Key)

  /** `log` is what ran, in order. `halted` are the events whose stop propagation flag is set, `stopped` those with the
      stop immediate propagation flag; `busy` those being dispatched along a path, `open` those being dispatched
      directly, and `left` those that a direct dispatch has left halted.
      `stale` records that a registration was refused because of a listener whose signal was already aborted, `reused`
      that an event was dispatched once more which was open or left. */
  datatype State = State(lists: map<Key, seq<Rec>>, aborted: set<Signal>, halted: set<Event>, stopped: set<Event>,
                         busy: set<Event>, open: set<Event>, left: set<Event>,
                         nextId: nat, log: seq<Invocation>, stale: bool, reused: bool)

  const EMPTY := State(map[], {}, {}, {}, {}, {}, {}, 0, [], false, false)

  /** The program, and section 2.9 of the standard, in three steps. `Eager` removes a listener when its signal is
      aborted; the program notices that when a dispatch reaches the listener. `Clearing` ends a direct dispatch with the
      event's flags cleared and refuses an event that is being dispatched directly. `Standard` calls the listeners of
      the target in two passes, and takes the standard's path. */
  datatype Mode = Program | Eager | Clearing | Standard

  predicate Clears(mode: Mode) { mode.Clearing? || mode.Standard? }

  function ListOf(s: State, key: Key): seq<Rec> { if key in s.lists then s.lists[key] else [] }

  predicate IsAborted(rec: Rec, aborted: set<Signal>) { rec.signal.Some? && rec.signal.value in aborted }

  function Matches(rec: Rec, callback: Callback, capture: bool): bool {
    rec.callback == callback && rec.capture == capture
  }

  /** The first listener with this callback and capture flag. */
  function Find(list: seq<Rec>, callback: Callback, capture: bool): (r: Option<Rec>)
    ensures r.Some? ==> r.value in list && Matches(r.value, callback, capture)
    ensures r.None? ==> forall x :: x in list ==> !Matches(x, callback, capture)
  {
    if list == [] then None
    else if Matches(list[0], callback, capture) then Some(list[0])
    else Find(list[1..], callback, capture)
  }

  function Drop(s: State, key: Key, rec: Rec): State {
    if key in s.lists then s.(lists := s.lists[key := Without(s.lists[key], rec)]) else s
  }

  function AddListener(s: State, key: Key, callback: Callback, capture: bool, once: bool,
                       signal: Option<Signal>): State {
    var found := Find(ListOf(s, key), callback, capture);
    if signal.Some? && signal.value in s.aborted then s
    else if found.Some? then s.(stale := s.stale || IsAborted(found.value, s.aborted))
    else s.(lists := s.lists[key := ListOf(s, key) + [Rec(s.nextId, key, callback, capture, once, signal)]],
            nextId := s.nextId + 1)
  }

  function LiveOnly(list: seq<Rec>, aborted: set<Signal>): seq<Rec> {
    if list == [] then []
    else if IsAborted(list[0], aborted) then LiveOnly(list[1..], aborted)
    else [list[0]] + LiveOnly(list[1..], aborted)
  }

  /** The state without the listeners whose signal is aborted. */
  function Purge(s: State): State {
    s.(lists := map k | k in s.lists :: LiveOnly(s.lists[k], s.aborted))
  }

  ghost function Exec(s: State, op: Op, mode: Mode): State
    decreases op
  {
    match op
    case Register(key, callback, capture, once, signal) => AddListener(s, key, callback, capture, once, signal)
    case Remove(key, callback, capture) =>
      var found := Find(ListOf(s, key), callback, capture);
      if found.Some? then Drop(s, key, found.value) else s
    case Abort(sig) =>
      var told := s.(aborted := s.aborted + {sig});
      if mode == Program then told else Purge(told)
    case Halt(event) => s.(halted := s.halted + {event})
    case Stop(event) => s.(halted := s.halted + {event}, stopped := s.stopped + {event})
    case Dispatch(event, node, typ, composed, bubbles, handler, plan) =>
      var noted := Noted(s, event);
      if TurnedAway(noted, event, mode) then noted
      else Ended(Visits(Begun(noted, event), event, typ, Way(node, typ, composed, bubbles, handler, mode), 0, plan,
                        mode),
                 event)
    case Direct(event, key, bodies) =>
      var noted := Noted(s, event);
      if TurnedAway(noted, event, mode) then noted
      else Closed(AtTarget(Opened(noted, event), event, key, bodies, mode), event, mode)
  }

  /** An event that is being dispatched is refused; the program does not see that of one dispatched directly. */
  predicate TurnedAway(s: State, event: Event, mode: Mode) {
    event in s.busy || (Clears(mode) && event in s.open)
  }

  function Noted(s: State, event: Event): State { s.(reused := s.reused || event in s.open || event in s.left) }

  function Begun(s: State, event: Event): State { s.(busy := s.busy + {event}) }

  function Ended(s: State, event: Event): State {
    s.(busy := s.busy - {event}, halted := s.halted - {event}, stopped := s.stopped - {event})
  }

  function Opened(s: State, event: Event): State { s.(open := s.open + {event}) }

  function Closed(s: State, event: Event, mode: Mode): State {
    var t := s.(open := s.open - {event}, left := if event in s.halted then s.left + {event} else s.left);
    if Clears(mode) then t.(halted := s.halted - {event}, stopped := s.stopped - {event}) else t
  }

  /** The targets an event is sent to, in order. The standard has inline handlers among the listeners. */
  ghost function Way(node: EventPath.Node, typ: string, composed: bool, bubbles: bool, handler: bool,
                     mode: Mode): seq<EventPath.Visit> {
    if mode.Standard? then StandardPath.StandardOrder(node, composed, typ == "load", bubbles)
    else EventPath.Order(EventPath.Path(node, composed, typ == "load"), handler, bubbles)
  }

  /** Nodes have even numbers, the window has 0, and targets of other kinds have odd ones. */
  function Ident(t: EventPath.Target): nat {
    match t
    case OfNode(node) => 2 * node.id + 2
    case Window => 0
    case Other => 1
  }

  /** The listeners of a target that is no node. */
  predicate Outside(key: Key) { key.target == 0 || key.target % 2 == 1 }

  /** The visits that are left to make; a halted event passes by them. */
  ghost function Visits(s: State, event: Event, typ: string, way: seq<EventPath.Visit>, visit: nat, plan: Plan,
                        mode: Mode): State
    decreases plan, 5, |way|
  {
    if way == [] || event in s.halted then s
    else Visits(Visited(s, event, typ, way[0], During(plan, visit), mode), event, typ, way[1..], visit + 1, plan, mode)
  }

  ghost function Visited(s: State, event: Event, typ: string, visit: EventPath.Visit, bodies: seq<Script>,
                         mode: Mode): State
    decreases bodies, 4, 0
  {
    var key := Key(Ident(visit.target), typ);
    match visit
    case Inline(_) =>
      var called := s.(log := s.log + [Handled(event, key)]);
      if bodies == [] then called else Run(called, bodies[0], mode)
    case Visit(phase, _) =>
      if phase == EventPath.AtTarget then AtTarget(s, event, key, bodies, mode)
      else Invoke(s, event, key, Some(phase == EventPath.Capturing), ListOf(s, key), bodies, 0, mode)
  }

  ghost function Run(s: State, script: Script, mode: Mode): State
    decreases script
  {
    match script
    case Done => s
    case Then(op, rest) => Run(Exec(s, op, mode), rest, mode)
  }

  predicate Skips(phase: Option<bool>, rec: Rec) { phase.Some? && rec.capture != phase.value }

  /** Calls one listener: a `once` listener is removed before its callback runs. */
  function Call(s: State, event: Event, key: Key, rec: Rec): State {
    var t := if rec.once then Drop(s, key, rec) else s;
    t.(log := t.log + [Invocation(event, rec)])
  }

  /** Calls the listeners of both kinds: in one pass, or as the standard does, which looks at the stop propagation flag
      before each of its two. */
  ghost function AtTarget(s: State, event: Event, key: Key, bodies: seq<Script>, mode: Mode): State
    decreases bodies, 3, 0
  {
    if mode != Standard then Invoke(s, event, key, None, ListOf(s, key), bodies, 0, mode)
    else if event in s.halted then s
    else TwoPasses(s, event, key, ListOf(s, key), bodies, 0)
  }

  /** The capturing listeners of a clone, then the bubbling listeners of a second clone, made after these have run. */
  ghost function TwoPasses(s: State, event: Event, key: Key, clone: seq<Rec>, bodies: seq<Script>, next: nat): State
    decreases bodies, 2, |clone|
  {
    if clone == [] then
      if event in s.halted then s
      else Invoke(s, event, key, Some(false), ListOf(s, key), bodies, next, Standard)
    else
      var rec := clone[0];
      if !rec.capture || rec !in ListOf(s, key) then TwoPasses(s, event, key, clone[1..], bodies, next)
      else if IsAborted(rec, s.aborted) then TwoPasses(Drop(s, key, rec), event, key, clone[1..], bodies, next)
      else
        var after := After(s, event, key, rec, bodies, next, Standard);
        if event in after.stopped then after
        else TwoPasses(after, event, key, clone[1..], bodies, next + 1)
  }

  /** The state after a listener has been called and its callback has run. */
  ghost function After(s: State, event: Event, key: Key, rec: Rec, bodies: seq<Script>, next: nat, mode: Mode): State
    decreases bodies, 0, 0
  {
    var called := Call(s, event, key, rec);
    if next < |bodies| then Run(called, bodies[next], mode) else called
  }

  /** The walk over a clone of the list, for listeners of one kind or of both. */
  ghost function Invoke(s: State, event: Event, key: Key, phase: Option<bool>, clone: seq<Rec>,
                  bodies: seq<Script>, next: nat, mode: Mode): State
    decreases bodies, 1, |clone|
  {
    if clone == [] then s
    else
      var rec := clone[0];
      if Skips(phase, rec) || rec !in ListOf(s, key) then
        Invoke(s, event, key, phase, clone[1..], bodies, next, mode)
      else if IsAborted(rec, s.aborted) then
        Invoke(Drop(s, key, rec), event, key, phase, clone[1..], bodies, next, mode)
      else
        var after := After(s, event, key, rec, bodies, next, mode);
        if event in after.stopped then after
        else Invoke(after, event, key, phase, clone[1..], bodies, next + 1, mode)
  }

  // ----- lists

  lemma LiveOnlyIn(list: seq<Rec>, aborted: set<Signal>)
    ensures forall x :: x in LiveOnly(list, aborted) <==> x in list && !IsAborted(x, aborted)
  {
  }

  /** Filtering out one listener and filtering out aborted ones can be done in either order. */
  lemma LiveWithout(list: seq<Rec>, rec: Rec, aborted: set<Signal>)
    ensures LiveOnly(Without(list, rec), aborted) == Without(LiveOnly(list, aborted), rec)
  {
  }

  lemma LiveTwice(list: seq<Rec>, fewer: set<Signal>, more: set<Signal>)
    requires fewer <= more
    ensures LiveOnly(LiveOnly(list, fewer), more) == LiveOnly(list, more)
  {
  }

  lemma LiveAppend(list: seq<Rec>, rec: Rec, aborted: set<Signal>)
    ensures LiveOnly(list + [rec], aborted) == LiveOnly(list, aborted) + (if IsAborted(rec, aborted) then [] else [rec])
  {
    if list != [] {
      assert (list + [rec])[1..] == list[1..] + [rec];
      LiveAppend(list[1..], rec, aborted);
    } else {
      assert list + [rec] == [rec];
    }
  }

  /** No two listeners of a list have the same callback and capture flag. */
  ghost predicate Unique(list: seq<Rec>) {
    forall i, j :: 0 <= i < j < |list| ==> !Matches(list[i], list[j].callback, list[j].capture)
  }

  lemma UniqueTail(list: seq<Rec>)
    requires Unique(list) && list != []
    ensures Unique(list[1..])
    ensures forall x :: x in list[1..] ==> !Matches(x, list[0].callback, list[0].capture)
  {
  }

  lemma UniqueWithout(list: seq<Rec>, rec: Rec)
    requires Unique(list)
    ensures Unique(Without(list, rec))
  {
    if list != [] {
      UniqueTail(list);
      UniqueWithout(list[1..], rec);
      WithoutIn(list[1..], rec);
      UniqueCons(list[0], Without(list[1..], rec));
    }
  }

  lemma UniqueLive(list: seq<Rec>, aborted: set<Signal>)
    requires Unique(list)
    ensures Unique(LiveOnly(list, aborted))
  {
    if list != [] {
      UniqueTail(list);
      UniqueLive(list[1..], aborted);
      LiveOnlyIn(list[1..], aborted);
      UniqueCons(list[0], LiveOnly(list[1..], aborted));
    }
  }

  lemma UniqueCons(rec: Rec, list: seq<Rec>)
    requires Unique(list) && forall x :: x in list ==> !Matches(x, rec.callback, rec.capture)
    ensures Unique([rec] + list)
  {
    var all := [rec] + list;
    forall i, j | 0 <= i < j < |all|
      ensures !Matches(all[i], all[j].callback, all[j].capture)
    {
      if i == 0 { assert all[j] in list; }
    }
  }

  /** In such a list a search succeeds exactly when some listener matches, and finds that one. */
  lemma FindUnique(list: seq<Rec>, callback: Callback, capture: bool, rec: Rec)
    requires Unique(list) && rec in list && Matches(rec, callback, capture)
    ensures Find(list, callback, capture) == Some(rec)
  {
    if list[0] != rec {
      UniqueTail(list);
      FindUnique(list[1..], callback, capture, rec);
    }
  }

  // ----- invariants of every run

  ghost predicate GoodList(list: seq<Rec>, key: Key, nextId: nat) {
    Unique(list) && forall r :: r in list ==> r.key == key && r.id < nextId
  }

  predicate RanOnce(i: Invocation) { i.Invocation? && i.rec.once }

  /** Lists hold no duplicates, and a `once` listener that has run is in no list and ran only once. */
  ghost predicate Inv(s: State) {
    && (forall k :: k in s.lists ==> GoodList(s.lists[k], k, s.nextId))
    && (forall i :: 0 <= i < |s.log| && s.log[i].Invocation? ==> s.log[i].rec.id < s.nextId)
    && (forall i :: 0 <= i < |s.log| && RanOnce(s.log[i]) ==> s.log[i].rec !in ListOf(s, s.log[i].rec.key))
    && (forall i, j :: 0 <= i < j < |s.log| && RanOnce(s.log[i]) && s.log[j].Invocation? ==>
          s.log[i].rec != s.log[j].rec)
  }

  /** What no step takes back. */
  ghost predicate Later(s: State, t: State) {
    s.aborted <= t.aborted && s.nextId <= t.nextId && s.log <= t.log && (s.stale ==> t.stale) && (s.reused ==> t.reused)
  }

  lemma EmptyKeeps()
    ensures Inv(EMPTY)
  {
  }

  lemma DropKeeps(s: State, key: Key, rec: Rec)
    requires Inv(s)
    ensures Inv(Drop(s, key, rec)) && Later(s, Drop(s, key, rec))
    ensures rec !in ListOf(Drop(s, key, rec), key)
    ensures forall k, r :: r in ListOf(Drop(s, key, rec), k) ==> r in ListOf(s, k)
  {
    hide Unique;
    if key in s.lists {
      UniqueWithout(s.lists[key], rec);
      WithoutIn(s.lists[key], rec);
    }
  }

  lemma PurgeKeeps(s: State)
    requires Inv(s)
    ensures Inv(Purge(s)) && Later(s, Purge(s))
  {
    hide Unique;
    forall k | k in s.lists
      ensures GoodList(LiveOnly(s.lists[k], s.aborted), k, s.nextId)
      ensures forall x :: x in LiveOnly(s.lists[k], s.aborted) ==> x in s.lists[k]
    {
      UniqueLive(s.lists[k], s.aborted);
      LiveOnlyIn(s.lists[k], s.aborted);
    }
  }

  lemma UniqueAppend(list: seq<Rec>, rec: Rec)
    requires Unique(list) && forall x :: x in list ==> !Matches(x, rec.callback, rec.capture)
    ensures Unique(list + [rec])
  {
  }

  lemma AppendKeeps(s: State, rec: Rec)
    requires Inv(s) && rec.id == s.nextId
    requires forall x :: x in ListOf(s, rec.key) ==> !Matches(x, rec.callback, rec.capture)
    ensures var t := s.(lists := s.lists[rec.key := ListOf(s, rec.key) + [rec]], nextId := s.nextId + 1);
            Inv(t) && Later(s, t)
  {
    assert Unique(ListOf(s, rec.key)) by {
      assert rec.key in s.lists ==> GoodList(s.lists[rec.key], rec.key, s.nextId);
    }
    UniqueAppend(ListOf(s, rec.key), rec);
    hide Unique;
    assert rec.key in s.lists ==> GoodList(s.lists[rec.key], rec.key, s.nextId);
    assert GoodList(ListOf(s, rec.key) + [rec], rec.key, s.nextId + 1);
  }

  lemma AddKeeps(s: State, key: Key, callback: Callback, capture: bool, once: bool, signal: Option<Signal>)
    requires Inv(s)
    ensures var t := AddListener(s, key, callback, capture, once, signal); Inv(t) && Later(s, t)
  {
    hide Inv, Unique;
    var t := AddListener(s, key, callback, capture, once, signal);
    if t.nextId != s.nextId {
      AppendKeeps(s, Rec(s.nextId, key, callback, capture, once, signal));
    } else {
      StaleKeeps(s, t);
    }
  }

  lemma StaleKeeps(s: State, t: State)
    requires Inv(s) && t == s.(stale := t.stale) && (s.stale ==> t.stale)
    ensures Inv(t) && Later(s, t)
  {
    hide Unique;
    assert forall k :: ListOf(t, k) == ListOf(s, k);
  }

  lemma CallKeeps(s: State, event: Event, key: Key, rec: Rec)
    requires Inv(s) && rec in ListOf(s, key)
    ensures Inv(Call(s, event, key, rec)) && Later(s, Call(s, event, key, rec))
  {
    hide Unique, Without;
    DropKeeps(s, key, rec);
    assert GoodList(s.lists[key], key, s.nextId) && rec.key == key;
    var t, dropped := Call(s, event, key, rec), if rec.once then Drop(s, key, rec) else s;
    assert forall k :: ListOf(t, k) == ListOf(dropped, k);
    forall i | 0 <= i < |t.log| && RanOnce(t.log[i])
      ensures t.log[i].rec !in ListOf(t, t.log[i].rec.key)
    {
      if i < |s.log| { assert t.log[i] == s.log[i]; }
    }
    forall i, j | 0 <= i < j < |t.log| && RanOnce(t.log[i]) && t.log[j].Invocation?
      ensures t.log[i].rec != t.log[j].rec
    {
      assert t.log[i] == s.log[i];
      if j < |s.log| { assert t.log[j] == s.log[j]; }
    }
  }

  /** Steps that leave lists, ids and the log as they are, or note that a handler ran. */
  lemma OtherwiseKeeps(s: State, t: State)
    requires Inv(s) && t == s.(aborted := t.aborted, halted := t.halted, stopped := t.stopped, busy := t.busy,
                               open := t.open,
                               left := t.left, reused := t.reused, log := t.log)
    requires s.aborted <= t.aborted && (s.reused ==> t.reused)
    requires t.log == s.log || exists e, k :: t.log == s.log + [Handled(e, k)]
    ensures Inv(t) && Later(s, t)
  {
    hide Unique;
    assert forall k :: ListOf(t, k) == ListOf(s, k);
    forall i | 0 <= i < |t.log| && RanOnce(t.log[i])
      ensures i < |s.log| && t.log[i] == s.log[i]
    {
    }
  }

  /** What a dispatch does to the flags of its event. */
  lemma FlagsKeep(s: State, event: Event, mode: Mode)
    requires Inv(s)
    ensures Inv(Noted(s, event)) && Later(s, Noted(s, event))
    ensures Inv(Begun(Noted(s, event), event)) && Later(s, Begun(Noted(s, event), event))
    ensures Inv(Opened(Noted(s, event), event)) && Later(s, Opened(Noted(s, event), event))
    ensures Inv(Ended(s, event)) && Later(s, Ended(s, event))
    ensures Inv(Closed(s, event, mode)) && Later(s, Closed(s, event, mode))
  {
    hide Inv;
    OtherwiseKeeps(s, Noted(s, event));
    OtherwiseKeeps(s, Begun(Noted(s, event), event));
    OtherwiseKeeps(s, Opened(Noted(s, event), event));
    OtherwiseKeeps(s, Ended(s, event));
    OtherwiseKeeps(s, Closed(s, event, mode));
  }

  lemma {:induction false} ExecKeeps(s: State, op: Op, mode: Mode)
    requires Inv(s)
    ensures Inv(Exec(s, op, mode)) && Later(s, Exec(s, op, mode))
    decreases op
  {
    hide Drop, AddListener, Purge, AtTarget, Inv, Visits, Way, Noted, Begun, Ended, Opened, Closed;
    match op
    case Register(key, callback, capture, once, signal) => AddKeeps(s, key, callback, capture, once, signal);
    case Remove(key, callback, capture) =>
      OtherwiseKeeps(s, s);
      var found := Find(ListOf(s, key), callback, capture);
      if found.Some? { DropKeeps(s, key, found.value); }
    case Abort(sig) =>
      OtherwiseKeeps(s, s.(aborted := s.aborted + {sig}));
      PurgeKeeps(s.(aborted := s.aborted + {sig}));
    case Halt(event) => OtherwiseKeeps(s, Exec(s, op, mode));
    case Stop(event) => OtherwiseKeeps(s, Exec(s, op, mode));
    case Dispatch(event, node, typ, composed, bubbles, handler, plan) =>
      var begun, way := Begun(Noted(s, event), event), Way(node, typ, composed, bubbles, handler, mode);
      FlagsKeep(s, event, mode);
      VisitsKeeps(begun, event, typ, way, 0, plan, mode);
      FlagsKeep(Visits(begun, event, typ, way, 0, plan, mode), event, mode);
    case Direct(event, key, bodies) =>
      var begun := Opened(Noted(s, event), event);
      FlagsKeep(s, event, mode);
      AtTargetKeeps(begun, event, key, bodies, mode);
      FlagsKeep(AtTarget(begun, event, key, bodies, mode), event, mode);
  }

  lemma {:induction false} VisitsKeeps(s: State, event: Event, typ: string, way: seq<EventPath.Visit>, visit: nat,
                                       plan: Plan, mode: Mode)
    requires Inv(s)
    ensures var t := Visits(s, event, typ, way, visit, plan, mode); Inv(t) && Later(s, t)
    decreases plan, 5, |way|
  {
    hide Inv, Visited;
    if way != [] && event !in s.halted {
      var t := Visited(s, event, typ, way[0], During(plan, visit), mode);
      VisitedKeeps(s, event, typ, way[0], During(plan, visit), mode);
      VisitsKeeps(t, event, typ, way[1..], visit + 1, plan, mode);
    }
  }

  lemma {:induction false} VisitedKeeps(s: State, event: Event, typ: string, visit: EventPath.Visit,
                                        bodies: seq<Script>, mode: Mode)
    requires Inv(s)
    ensures var t := Visited(s, event, typ, visit, bodies, mode); Inv(t) && Later(s, t)
    decreases bodies, 4, 0
  {
    hide Inv, AtTarget, Invoke;
    var key := Key(Ident(visit.target), typ);
    match visit
    case Inline(_) =>
      var called := s.(log := s.log + [Handled(event, key)]);
      OtherwiseKeeps(s, called);
      if bodies != [] { RunKeeps(called, bodies[0], mode); }
    case Visit(phase, _) =>
      AtTargetKeeps(s, event, key, bodies, mode);
      InvokeKeeps(s, event, key, Some(phase == EventPath.Capturing), ListOf(s, key), bodies, 0, mode);
  }

  lemma {:induction false} RunKeeps(s: State, script: Script, mode: Mode)
    requires Inv(s)
    ensures Inv(Run(s, script, mode)) && Later(s, Run(s, script, mode))
    decreases script
  {
    match script
    case Done =>
    case Then(op, rest) =>
      ExecKeeps(s, op, mode);
      RunKeeps(Exec(s, op, mode), rest, mode);
  }

  lemma {:induction false} AtTargetKeeps(s: State, event: Event, key: Key, bodies: seq<Script>, mode: Mode)
    requires Inv(s)
    ensures Inv(AtTarget(s, event, key, bodies, mode)) && Later(s, AtTarget(s, event, key, bodies, mode))
    decreases bodies, 3, 0
  {
    if mode != Standard {
      InvokeKeeps(s, event, key, None, ListOf(s, key), bodies, 0, mode);
    } else {
      TwoPassesKeeps(s, event, key, ListOf(s, key), bodies, 0);
    }
  }

  lemma {:induction false} TwoPassesKeeps(s: State, event: Event, key: Key, clone: seq<Rec>, bodies: seq<Script>,
                                          next: nat)
    requires Inv(s)
    ensures var t := TwoPasses(s, event, key, clone, bodies, next); Inv(t) && Later(s, t)
    decreases bodies, 2, |clone|
  {
    hide Call;
    if clone == [] {
      InvokeKeeps(s, event, key, Some(false), ListOf(s, key), bodies, next, Standard);
    } else {
      var rec := clone[0];
      if !rec.capture || rec !in ListOf(s, key) {
        TwoPassesKeeps(s, event, key, clone[1..], bodies, next);
      } else if IsAborted(rec, s.aborted) {
        DropKeeps(s, key, rec);
        TwoPassesKeeps(Drop(s, key, rec), event, key, clone[1..], bodies, next);
      } else {
        AfterKeeps(s, event, key, rec, bodies, next, Standard);
        TwoPassesKeeps(After(s, event, key, rec, bodies, next, Standard), event, key, clone[1..], bodies, next + 1);
      }
    }
  }

  lemma {:induction false} AfterKeeps(s: State, event: Event, key: Key, rec: Rec, bodies: seq<Script>, next: nat,
                                      mode: Mode)
    requires Inv(s) && rec in ListOf(s, key)
    ensures var t := After(s, event, key, rec, bodies, next, mode); Inv(t) && Later(s, t) && |s.log| < |t.log|
    decreases bodies, 0, 0
  {
    CallKeeps(s, event, key, rec);
    if next < |bodies| { RunKeeps(Call(s, event, key, rec), bodies[next], mode); }
  }

  lemma {:induction false} InvokeKeeps(s: State, event: Event, key: Key, phase: Option<bool>, clone: seq<Rec>,
                                       bodies: seq<Script>, next: nat, mode: Mode)
    requires Inv(s)
    ensures var t := Invoke(s, event, key, phase, clone, bodies, next, mode); Inv(t) && Later(s, t)
    decreases bodies, 1, |clone|
  {
    hide Call;
    if clone != [] {
      var rec := clone[0];
      if Skips(phase, rec) || rec !in ListOf(s, key) {
        InvokeKeeps(s, event, key, phase, clone[1..], bodies, next, mode);
      } else if IsAborted(rec, s.aborted) {
        DropKeeps(s, key, rec);
        InvokeKeeps(Drop(s, key, rec), event, key, phase, clone[1..], bodies, next, mode);
      } else {
        AfterKeeps(s, event, key, rec, bodies, next, mode);
        InvokeKeeps(After(s, event, key, rec, bodies, next, mode), event, key, phase, clone[1..], bodies, next + 1,
                    mode);
      }
    }
  }

  /** A `once` listener runs at most once per registration, whatever the callbacks do. */
  lemma OnceRunsOnce(script: Script, i: nat, j: nat)
    requires i < j < |Run(EMPTY, script, Program).log|
    ensures var log := Run(EMPTY, script, Program).log; RanOnce(log[i]) ==> log[i] != log[j]
  {
    RunKeeps(EMPTY, script, Program);
  }

  // ----- which listeners count as the same

  /** A listener is added exactly when its signal is not aborted and none in the list has both its callback and its
      capture flag: the same callback can be registered once for each flag. */
  lemma RegisterAdds(s: State, key: Key, callback: Callback, capture: bool, once: bool, signal: Option<Signal>)
    ensures var t := AddListener(s, key, callback, capture, once, signal);
            var refused := (signal.Some? && signal.value in s.aborted)
                           || exists r :: r in ListOf(s, key) && r.callback == callback && r.capture == capture;
            && ListOf(t, key) == (if refused then ListOf(s, key)
                                  else ListOf(s, key) + [Rec(s.nextId, key, callback, capture, once, signal)])
            && forall k :: k != key ==> ListOf(t, k) == ListOf(s, k)
  {
    var found := Find(ListOf(s, key), callback, capture);
    if found.Some? { assert found.value in ListOf(s, key); }
  }

  /** Exactly the listener with that callback and that capture flag goes. */
  lemma RemoveTakes(s: State, key: Key, callback: Callback, capture: bool)
    requires Inv(s)
    ensures var t := Exec(s, Remove(key, callback, capture), Program);
            && (forall r :: r in ListOf(t, key)
                            <==> r in ListOf(s, key) && !(r.callback == callback && r.capture == capture))
            && forall k :: k != key ==> ListOf(t, k) == ListOf(s, k)
  {
    var list := ListOf(s, key);
    assert Unique(list) by { if key in s.lists { assert GoodList(s.lists[key], key, s.nextId); } }
    var found := Find(list, callback, capture);
    if found.Some? {
      WithoutIn(list, found.value);
      forall r | r in list && Matches(r, callback, capture)
        ensures r == found.value
      {
        FindUnique(list, callback, capture, r);
      }
    }
  }

  // ----- noticing aborts late

  lemma DropPurges(s: State, key: Key, rec: Rec)
    ensures Purge(Drop(s, key, rec)) == Drop(Purge(s), key, rec)
  {
    if key in s.lists { LiveWithout(s.lists[key], rec, s.aborted); }
  }

  lemma DropAborted(s: State, key: Key, rec: Rec)
    requires IsAborted(rec, s.aborted)
    ensures Purge(Drop(s, key, rec)) == Purge(s)
  {
    if key in s.lists {
      LiveWithout(s.lists[key], rec, s.aborted);
      LiveOnlyIn(s.lists[key], s.aborted);
      WithoutAbsent(LiveOnly(s.lists[key], s.aborted), rec);
    }
  }

  /** A refused or accepted registration agrees with the standard exactly when it is not refused because
      of a listener whose signal is aborted; the standard has removed such a listener already. */
  lemma RegisterAgrees(s: State, key: Key, callback: Callback, capture: bool, once: bool, signal: Option<Signal>)
    requires Inv(s)
    ensures SameButStale(Purge(AddListener(s, key, callback, capture, once, signal)),
                         AddListener(Purge(s), key, callback, capture, once, signal))
            <==> !(!(signal.Some? && signal.value in s.aborted) && StaleMatch(s, key, callback, capture))
  {
    if signal.Some? && signal.value in s.aborted {
    } else if Find(ListOf(s, key), callback, capture).Some? {
      FoundRefused(s, key, callback, capture, once, signal);
    } else {
      NoneFound(s, key, callback, capture, once, signal);
    }
  }

  lemma NoneFound(s: State, key: Key, callback: Callback, capture: bool, once: bool, signal: Option<Signal>)
    requires Find(ListOf(s, key), callback, capture).None? && !(signal.Some? && signal.value in s.aborted)
    ensures Purge(AddListener(s, key, callback, capture, once, signal))
        == AddListener(Purge(s), key, callback, capture, once, signal)
    ensures !StaleMatch(s, key, callback, capture)
  {
    var list := ListOf(s, key);
    LiveOnlyIn(list, s.aborted);
    LiveAppend(list, Rec(s.nextId, key, callback, capture, once, signal), s.aborted);
    assert ListOf(Purge(s), key) == LiveOnly(list, s.aborted);
  }

  /** A listener of the list matches and its signal is aborted. */
  ghost predicate StaleMatch(s: State, key: Key, callback: Callback, capture: bool) {
    exists r :: r in ListOf(s, key) && Matches(r, callback, capture) && IsAborted(r, s.aborted)
  }

  predicate SameButStale(s: State, t: State) { s.(stale := false) == t.(stale := false) }

  lemma FoundRefused(s: State, key: Key, callback: Callback, capture: bool, once: bool, signal: Option<Signal>)
    requires Inv(s) && Find(ListOf(s, key), callback, capture).Some?
    requires !(signal.Some? && signal.value in s.aborted)
    ensures AddListener(s, key, callback, capture, once, signal).lists == s.lists
    ensures SameButStale(Purge(s), AddListener(Purge(s), key, callback, capture, once, signal))
            <==> !StaleMatch(s, key, callback, capture)
  {
    var list := ListOf(s, key);
    var f := Find(list, callback, capture).value;
    LiveOnlyIn(list, s.aborted);
    assert GoodList(list, key, s.nextId);
    forall r | r in list && Matches(r, callback, capture)
      ensures r == f
    {
      FindUnique(list, callback, capture, r);
    }
    if !IsAborted(f, s.aborted) {
      UniqueLive(list, s.aborted);
      FindUnique(LiveOnly(list, s.aborted), callback, capture, f);
    }
  }

  /** A run that refuses no registration because of an aborted listener behaves as if a listener were removed the
      moment its signal is aborted: the same listeners run in the same order, and what is left differs only in
      aborted listeners not yet noticed. */
  lemma {:induction false} AbortLater(s: State, script: Script)
    requires Inv(s) && !Run(s, script, Program).stale
    ensures Run(Purge(s), script, Eager) == Purge(Run(s, script, Program))
    decreases script
  {
    match script
    case Done =>
    case Then(op, rest) =>
      ExecKeeps(s, op, Program);
      RunKeeps(Exec(s, op, Program), rest, Program);
      AbortLaterOp(s, op);
      AbortLater(Exec(s, op, Program), rest);
  }

  lemma {:induction false} AbortLaterOp(s: State, op: Op)
    requires Inv(s) && !Exec(s, op, Program).stale
    ensures Exec(Purge(s), op, Eager) == Purge(Exec(s, op, Program))
    decreases op
  {
    hide Inv, Visits, Invoke, Find, AddListener, Drop, Way, Noted, Begun, Ended, Opened, Closed, ListOf;
    ExecKeeps(s, op, Program);
    match op
    case Register(key, callback, capture, once, signal) => RegisterLater(s, key, callback, capture, once, signal);
    case Remove(key, callback, capture) => RemoveLater(s, key, callback, capture);
    case Abort(sig) => PurgeTwice(s, sig);
    case Halt(event) =>
    case Stop(event) =>
    case Dispatch(event, node, typ, composed, bubbles, handler, plan) =>
      var t, way := Begun(Noted(s, event), event), Way(node, typ, composed, bubbles, handler, Program);
      SameWay(node, typ, composed, bubbles, handler);
      FlagsPurge(s, event);
      FlagsPurge(Visits(t, event, typ, way, 0, plan, Program), event);
      FlagsKeep(s, event, Program);
      if !TurnedAway(s, event, Program) { AbortLaterVisits(t, event, typ, way, 0, plan); }
    case Direct(event, key, bodies) =>
      var t := Opened(Noted(s, event), event);
      FlagsPurge(s, event);
      FlagsPurge(Invoke(t, event, key, None, ListOf(t, key), bodies, 0, Program), event);
      FlagsKeep(s, event, Program);
      if !TurnedAway(s, event, Program) { AbortLaterDispatch(t, event, key, None, bodies); }
  }

  lemma FlagsPurge(s: State, event: Event)
    ensures Purge(s).busy == s.busy && Purge(s).halted == s.halted
    ensures Begun(Noted(Purge(s), event), event) == Purge(Begun(Noted(s, event), event))
    ensures Opened(Noted(Purge(s), event), event) == Purge(Opened(Noted(s, event), event))
    ensures Noted(Purge(s), event) == Purge(Noted(s, event)) && Noted(s, event).busy == s.busy
    ensures Ended(Purge(s), event) == Purge(Ended(s, event))
            && Closed(Purge(s), event, Eager) == Purge(Closed(s, event, Program))
    ensures (Ended(s, event).stale <==> s.stale) && (Closed(s, event, Program).stale <==> s.stale)
  {
    hide LiveOnly;
  }

  lemma SameWay(node: EventPath.Node, typ: string, composed: bool, bubbles: bool, handler: bool)
    ensures Way(node, typ, composed, bubbles, handler, Program) == Way(node, typ, composed, bubbles, handler, Eager)
    ensures Way(node, typ, composed, bubbles, handler, Program) == Way(node, typ, composed, bubbles, handler, Clearing)
  {
  }

  lemma {:induction false} AbortLaterVisits(s: State, event: Event, typ: string, way: seq<EventPath.Visit>, visit: nat,
                                            plan: Plan)
    requires Inv(s) && !Visits(s, event, typ, way, visit, plan, Program).stale
    ensures Visits(Purge(s), event, typ, way, visit, plan, Eager)
        == Purge(Visits(s, event, typ, way, visit, plan, Program))
    decreases plan, 5, |way|
  {
    hide Inv, Visited, Purge;
    SameFlags(s);
    if way != [] && event !in s.halted {
      var t := Visited(s, event, typ, way[0], During(plan, visit), Program);
      VisitedKeeps(s, event, typ, way[0], During(plan, visit), Program);
      VisitsKeeps(t, event, typ, way[1..], visit + 1, plan, Program);
      AbortLaterVisited(s, event, typ, way[0], During(plan, visit));
      AbortLaterVisits(t, event, typ, way[1..], visit + 1, plan);
    }
  }

  lemma SameFlags(s: State)
    ensures Purge(s).halted == s.halted
  {
  }

  lemma {:induction false} AbortLaterVisited(s: State, event: Event, typ: string, visit: EventPath.Visit,
                                             bodies: seq<Script>)
    requires Inv(s) && !Visited(s, event, typ, visit, bodies, Program).stale
    ensures Visited(Purge(s), event, typ, visit, bodies, Eager) == Purge(Visited(s, event, typ, visit, bodies, Program))
    decreases bodies, 4, 0
  {
    hide Inv, Invoke;
    var key := Key(Ident(visit.target), typ);
    match visit
    case Inline(_) =>
      var called := s.(log := s.log + [Handled(event, key)]);
      OtherwiseKeeps(s, called);
      assert Purge(called) == Purge(s).(log := s.log + [Handled(event, key)]);
      if bodies != [] { AbortLater(called, bodies[0]); }
    case Visit(phase, _) =>
      var kind := if phase == EventPath.AtTarget then None else Some(phase == EventPath.Capturing);
      AbortLaterDispatch(s, event, key, kind, bodies);
  }

  lemma {:induction false} AbortLaterDispatch(s: State, event: Event, key: Key, phase: Option<bool>,
                                              bodies: seq<Script>)
    requires Inv(s) && !Invoke(s, event, key, phase, ListOf(s, key), bodies, 0, Program).stale
    ensures Invoke(Purge(s), event, key, phase, ListOf(Purge(s), key), bodies, 0, Eager)
         == Purge(Invoke(s, event, key, phase, ListOf(s, key), bodies, 0, Program))
    decreases bodies, 3, 0
  {
    assert ListOf(Purge(s), key) == LiveOnly(ListOf(s, key), s.aborted);
    AbortLaterInvoke(s, event, key, phase, ListOf(s, key), bodies, 0, s.aborted);
  }

  lemma RegisterLater(s: State, key: Key, callback: Callback, capture: bool, once: bool, signal: Option<Signal>)
    requires Inv(s) && !AddListener(s, key, callback, capture, once, signal).stale
    ensures AddListener(Purge(s), key, callback, capture, once, signal)
        == Purge(AddListener(s, key, callback, capture, once, signal))
  {
    if signal.Some? && signal.value in s.aborted {
    } else if Find(ListOf(s, key), callback, capture).Some? {
      var f := Find(ListOf(s, key), callback, capture).value;
      LiveOnlyIn(ListOf(s, key), s.aborted);
      UniqueLive(ListOf(s, key), s.aborted);
      FindUnique(LiveOnly(ListOf(s, key), s.aborted), callback, capture, f);
    } else {
      NoneFound(s, key, callback, capture, once, signal);
    }
  }

  lemma RemoveLater(s: State, key: Key, callback: Callback, capture: bool)
    requires Inv(s)
    ensures Exec(Purge(s), Remove(key, callback, capture), Eager)
        == Purge(Exec(s, Remove(key, callback, capture), Program))
  {
    var list := ListOf(s, key);
    assert ListOf(Purge(s), key) == LiveOnly(list, s.aborted);
    var found := Find(list, callback, capture);
    LiveOnlyIn(list, s.aborted);
    if found.Some? {
      var f := found.value;
      assert GoodList(list, key, s.nextId);
      UniqueLive(list, s.aborted);
      if IsAborted(f, s.aborted) {
        DropAborted(s, key, f);
        forall r | r in list && Matches(r, callback, capture)
          ensures r == f
        {
          FindUnique(list, callback, capture, r);
        }
      } else {
        DropPurges(s, key, f);
        FindUnique(LiveOnly(list, s.aborted), callback, capture, f);
      }
    }
  }

  lemma PurgeTwice(s: State, sig: Signal)
    ensures Exec(Purge(s), Abort(sig), Eager) == Purge(Exec(s, Abort(sig), Program))
  {
    forall k | k in s.lists
      ensures LiveOnly(LiveOnly(s.lists[k], s.aborted), s.aborted + {sig}) == LiveOnly(s.lists[k], s.aborted + {sig})
    {
      LiveTwice(s.lists[k], s.aborted, s.aborted + {sig});
    }
  }

  /** The two walks, where one clone lacks the listeners aborted before the dispatch. */
  lemma {:induction false} AbortLaterInvoke(s: State, event: Event, key: Key, phase: Option<bool>, clone: seq<Rec>,
                                            bodies: seq<Script>, next: nat, before: set<Signal>)
    requires Inv(s) && before <= s.aborted && !Invoke(s, event, key, phase, clone, bodies, next, Program).stale
    ensures Invoke(Purge(s), event, key, phase, LiveOnly(clone, before), bodies, next, Eager)
         == Purge(Invoke(s, event, key, phase, clone, bodies, next, Program))
    decreases bodies, 1, |clone|
  {
    hide Call, Run, Unique, After;
    if clone != [] {
      var rec := clone[0];
      LiveOnlyIn(ListOf(s, key), s.aborted);
      assert ListOf(Purge(s), key) == LiveOnly(ListOf(s, key), s.aborted);
      if Skips(phase, rec) || rec !in ListOf(s, key) {
        AbortLaterInvoke(s, event, key, phase, clone[1..], bodies, next, before);
      } else if IsAborted(rec, s.aborted) {
        DropKeeps(s, key, rec);
        DropAborted(s, key, rec);
        AbortLaterInvoke(Drop(s, key, rec), event, key, phase, clone[1..], bodies, next, before);
      } else {
        var after := After(s, event, key, rec, bodies, next, Program);
        AfterKeeps(s, event, key, rec, bodies, next, Program);
        InvokeKeeps(after, event, key, phase, clone[1..], bodies, next + 1, Program);
        AbortLaterAfter(s, event, key, rec, bodies, next);
        if event !in after.stopped {
          AbortLaterInvoke(after, event, key, phase, clone[1..], bodies, next + 1, before);
        }
      }
    }
  }

  lemma {:induction false} AbortLaterAfter(s: State, event: Event, key: Key, rec: Rec, bodies: seq<Script>, next: nat)
    requires Inv(s) && rec in ListOf(s, key) && !After(s, event, key, rec, bodies, next, Program).stale
    ensures After(Purge(s), event, key, rec, bodies, next, Eager)
        == Purge(After(s, event, key, rec, bodies, next, Program))
    decreases bodies, 0, 0
  {
    hide Run, Unique;
    CallKeeps(s, event, key, rec);
    DropPurges(s, key, rec);
    assert Purge(Call(s, event, key, rec)) == Call(Purge(s), event, key, rec);
    if next < |bodies| { AbortLater(Call(s, event, key, rec), bodies[next]); }
  }
}
