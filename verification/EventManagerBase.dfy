/** The listener registry and its dispatch loop over live linked lists. While a dispatch runs, removed
    listeners are only flagged and queued; the outermost dispatch unlinks and destroys them. */
module EventManagerBase {
  import opened Collections
  import opened Events
  import opened ListenerLists
  import EventPath

  // ----- steps of the algorithm

  lemma RemoveStep(s: State, key: Key, callback: Callback, capture: bool)
    ensures var found := Find(ListOf(s, key), callback, capture);
            Exec(s, Op.Remove(key, callback, capture), Program) == if found.Some? then Drop(s, key, found.value) else s
  {
  }

  lemma InvokeNone(s: State, event: Event, key: Key, phase: Option<bool>, bodies: seq<Script>, next: nat)
    ensures Invoke(s, event, key, phase, [], bodies, next, Program) == s
  {
  }

  lemma AliveNone(gone: set<Listener>)
    ensures Alive([], gone) == []
  {
  }

  /** What the algorithm does with one entry of its clone, which lacks the listeners flagged at the start. */
  lemma InvokeStep(s: State, event: Event, key: Key, phase: Option<bool>, entry: seq<Listener>, i: nat,
                   flagged: set<Listener>,
                   bodies: seq<Script>, next: nat)
    requires i < |entry|
    ensures var rec, clone, rest := entry[i].rec, Alive(entry[i..], flagged), Alive(entry[i + 1..], flagged);
            Invoke(s, event, key, phase, clone, bodies, next, Program) == (
            if entry[i] in flagged || Skips(phase, rec) || rec !in ListOf(s, key) then
              Invoke(s, event, key, phase, rest, bodies, next, Program)
            else if IsAborted(rec, s.aborted) then
              Invoke(Drop(s, key, rec), event, key, phase, rest, bodies, next, Program)
            else
              var after := After(s, event, key, rec, bodies, next, Program);
              if event in after.stopped then after
                  else Invoke(after, event, key, phase, rest, bodies, next + 1, Program))
  {
    hide Drop, Call, Run;
    assert entry[i..][0] == entry[i] && entry[i..][1..] == entry[i + 1..];
    var others := Alive(entry[i + 1..], flagged);
    assert ([entry[i].rec] + others)[1..] == others && [] + others == others;
  }

  lemma HaltedVisits(s: State, event: Event, typ: string, way: seq<EventPath.Visit>, visit: nat, plan: Plan)
    requires event in s.halted
    ensures Visits(s, event, typ, way, visit, plan, Program) == s
  {
  }

  lemma NoVisits(s: State, event: Event, typ: string, visit: nat, plan: Plan)
    ensures Visits(s, event, typ, [], visit, plan, Program) == s
  {
  }

  lemma NextVisit(s: State, event: Event, typ: string, way: seq<EventPath.Visit>, visit: nat, plan: Plan)
    requires visit < |way| && event !in s.halted
    ensures Visits(s, event, typ, way[visit..], visit, plan, Program)
         == Visits(Visited(s, event, typ, way[visit], During(plan, visit), Program), event, typ, way[visit + 1..],
                   visit + 1, plan, Program)
  {
    hide Visited;
    assert way[visit..][1..] == way[visit + 1..];
  }

  datatype Removal = Removal(list: ListenerList, listener: Listener)

  /** The world around the registry: signals, the flags of events, and what has run. */
  datatype World = World(aborted: set<Signal>, halted: set<Event>, stopped: set<Event>, busy: set<Event>,
                         log: seq<Invocation>)

  /** What the program does not record. */
  datatype History = History(open: set<Event>, left: set<Event>, stale: bool, reused: bool)

  class Manager {
    var lookup: map<Key, ListenerList>
    var depth: nat
    var deferred: seq<Removal>

    var world: World
    var nextId: nat
    ghost var history: History

    /** The lists, the listeners not destroyed yet, and the listeners that carry the removed flag. */
    ghost var lists: set<ListenerList>
    ghost var live: set<Listener>
    ghost var gone: set<Listener>
    ghost var byId: map<nat, Listener>

    ghost predicate ListsOk()
      reads this`lookup, this`lists, this`live, lists, live`prev, live`next
    {
      && (forall k :: k in lookup ==> lookup[k] in lists && lookup[k].key == k)
      && (forall l :: l in lists ==> l.key in lookup && lookup[l.key] == l)
      && (forall l, n :: l in lists && n in l.nodes ==> n in live && n.list == l)
      && (forall l :: l in lists ==> l.Linked())
      && (forall n :: n in live ==> n.list in lists && n in n.list.nodes)
    }

    ghost predicate PoolOk()
      reads this`live, this`gone, this`byId, this`nextId, live`removed
    {
      && (forall l :: l in live ==> (l.removed <==> l in gone) && l.rec.id in byId && byId[l.rec.id] == l)
      && (forall id :: id in byId ==> id < nextId)
    }

    /** The queue holds each flagged listener once, with its list, and nothing else. */
    ghost predicate DeferredOk()
      reads this`deferred, this`live, this`gone
    {
      && (forall r :: r in deferred ==> r.listener in live && r.listener in gone && r.list == r.listener.list)
      && (forall i, j :: 0 <= i < j < |deferred| ==> deferred[i] != deferred[j])
      && (forall l :: l in live && l in gone ==> Removal(l.list, l) in deferred)
    }

    ghost predicate Valid()
      reads this`lookup, this`lists, this`live, this`gone, this`byId, this`nextId, this`deferred, this`depth
      reads lists, live`prev, live`next, live`removed
    {
      ListsOk() && PoolOk() && DeferredOk() && (depth == 0 ==> deferred == [])
    }

    ghost function Nodes(): (m: map<Key, seq<Listener>>)
      reads this`lookup, this`lists, lists`nodes
    {
      map k | k in lookup && lookup[k] in lists :: lookup[k].nodes
    }

    ghost function Abs(): State
      reads this`lookup, this`lists, this`gone, this`world, this`nextId, this`history, lists`nodes
    {
      State(View(Nodes(), gone), world.aborted, world.halted, world.stopped, world.busy, history.open, history.left,
            nextId, world.log, history.stale, history.reused)
    }

    /** During a dispatch lists only grow at the end, nothing is unlinked, and flags stay set. */
    twostate predicate Grown()
      reads this`lists, this`live, this`gone, lists`nodes
    {
      && old(live) <= live && old(gone) <= gone && old(lists) <= lists
      && forall l :: l in old(lists) ==> old(l.nodes) <= l.nodes
    }

    twostate lemma NotShrunk()
      requires lists == old(lists) && live == old(live) && gone == old(gone)
      requires forall l :: l in lists ==> l.nodes == old(l.nodes)
      ensures Grown()
    {
    }

    constructor ()
      ensures Valid() && Abs() == EMPTY && depth == 0 && live == {} && lists == {}
    {
      lookup, depth, deferred := map[], 0, [];
      world, history, nextId := World({}, {}, {}, {}, []), History({}, {}, false, false), 0;
      lists, live, gone, byId := {}, {}, {}, map[];
    }

    method RemoveListener(list: ListenerList, listener: Listener)
      requires Valid() && listener in live && listener.list == list
      modifies this`deferred, this`live, this`gone, lists, live
      ensures Valid() && live <= old(live)
      ensures Abs() == Drop(old(Abs()), list.key, listener.rec)
      ensures depth > 0 ==> Grown() && listener in gone
      ensures depth > 0 ==> forall l :: l in lists ==> l.nodes == old(l.nodes)
    {
      if listener.removed {
        AlreadyGone(list, listener);
        return;
      }
      if depth > 0 {
        Flag(list, listener);
      } else {
        Unlink(list, listener);
      }
    }

    lemma Homes(l: Listener)
      requires ListsOk() && PoolOk() && l in live
      ensures Home(Nodes(), l.list.key, l) && Told(Nodes()[l.list.key], byId)
      ensures l.rec.id in byId && byId[l.rec.id] == l
      ensures lookup[l.list.key] == l.list && l in l.list.nodes
    {
    }

    lemma HomeIs(l: Listener)
      requires ListsOk() && l in live
      ensures l.list in lists && l.list.key in Nodes() && Nodes()[l.list.key] == l.list.nodes
    {
    }

    lemma KeyOf(key: Key)
      requires ListsOk()
      ensures Nodes().Keys == lookup.Keys
      ensures key in lookup ==> lookup[key].key == key && lookup[key] in lists && Nodes()[key] == lookup[key].nodes
    {
    }

    lemma Placed(list: ListenerList)
      requires ListsOk() && list in lists
      ensures list.key in lookup && lookup[list.key] == list
      ensures list.key in Nodes() && Nodes()[list.key] == list.nodes
    {
    }

    lemma Owners()
      requires ListsOk()
      ensures forall l, n :: l in lists && n in l.nodes ==> n.list == l && n in live
      ensures forall n :: n in live ==> n.list in lists && n in n.list.nodes
      ensures forall l :: l in lists ==> l.Linked() && l.key in lookup && lookup[l.key] == l
    {
    }

    lemma AlreadyGone(list: ListenerList, listener: Listener)
      requires Valid() && listener in live && listener.list == list && listener in gone
      ensures Drop(Abs(), list.key, listener.rec) == Abs()
    {
      hide ListenerList.Linked, ListsOk, PoolOk, DeferredOk, Nodes, Alive, Home;
      Homes(listener);
      HomeIs(listener);
      AliveHas(list.nodes, gone, byId, listener);
      WithoutAbsent(Alive(list.nodes, gone), listener.rec);
    }

    method Flag(list: ListenerList, listener: Listener)
      requires Valid() && depth > 0 && listener in live && listener.list == list && listener !in gone
      modifies this`deferred, this`gone, listener`removed
      ensures Valid() && Abs() == Drop(old(Abs()), list.key, listener.rec)
      ensures gone == old(gone) + {listener}
    {
      hide ListenerList.Linked, View, Without, Alive, Home, Told, ListsOk, Nodes;
      Homes(listener);
      ViewFlag(Nodes(), gone, byId, list.key, listener);
      listener.removed := true;
      deferred := deferred + [Removal(list, listener)];
      gone := gone + {listener};
    }

    /** Relinking the nodes of one list leaves the other lists as they were. */
    twostate lemma OthersLinked(new list: ListenerList)
      requires old(ListsOk())
      requires forall l :: l in old(lists) && l != list ==> unchanged(l)
      requires forall n :: n in old(live) && n.list != list ==> unchanged(n)
      ensures forall l :: l in old(lists) && l != list ==> l.Linked() && l.nodes == old(l.nodes)
    {
      forall l | l in old(lists) && l != list
        ensures l.Linked() && l.nodes == old(l.nodes)
      {
        assert unchanged(l) && old(l.Linked());
        forall n | n in l.nodes
          ensures unchanged(n)
        {
          assert n in old(live) && n.list == l;
        }
      }
    }

    twostate lemma PoolShrinks()
      requires old(PoolOk()) && live <= old(live) && gone == old(gone) && byId == old(byId) && nextId == old(nextId)
      requires forall l :: l in live ==> l.removed == old(l.removed)
      ensures PoolOk()
    {
    }

    /** Takes a listener out of its list and out of the pool. */
    method Detach(list: ListenerList, listener: Listener)
      requires ListsOk() && listener in live && listener.list == list
      modifies this`live, list, live`prev, live`next
      ensures ListsOk() && live == old(live) - {listener}
      ensures list.key in Nodes() && Nodes() == old(Nodes())[list.key := list.nodes]
      ensures Cut(old(list.nodes), listener, list.nodes) && listener !in list.nodes
    {
      hide ListenerList.Linked, Cut, ListsOk, Nodes;
      Owners();
      list.Remove(listener);
      CutKeepsRest(old(list.nodes), listener, list.nodes);
      live := live - {listener};
      ListCut(listener);
    }

    twostate lemma ListCut(listener: Listener)
      requires old(ListsOk()) && listener in old(live)
      requires lookup == old(lookup) && lists == old(lists) && live == old(live) - {listener} && listener.list.Linked()
      requires forall m :: m in listener.list.nodes <==> m in old(listener.list.nodes) && m != listener
      requires forall l :: l in lists && l != listener.list ==> unchanged(l)
      requires forall n :: n in old(live) && n.list != listener.list ==> unchanged(n)
      ensures ListsOk() && listener.list.key in Nodes()
              && Nodes() == old(Nodes())[listener.list.key := listener.list.nodes]
    {
      hide ListenerList.Linked;
      OthersLinked(listener.list);
    }

    method Unlink(list: ListenerList, listener: Listener)
      requires Valid() && depth == 0 && listener in live && listener.list == list && listener !in gone
      modifies this`live, lists, live
      ensures Valid() && Abs() == Drop(old(Abs()), list.key, listener.rec)
      ensures live == old(live) - {listener}
    {
      hide ListenerList.Linked, View, Without, Alive, Home, Told, Cut, ListsOk, PoolOk;
      Homes(listener);
      ghost var nodes := Nodes();
      Detach(list, listener);
      PoolShrinks();
      ViewUnlink(nodes, gone, byId, list.key, listener, list.nodes);
    }

    /** The entries of the queue from `i` on are exactly the flagged listeners still alive, each once. */
    ghost predicate Pending(i: nat)
      reads this`deferred, this`live, this`gone
    {
      && i <= |deferred|
      && (forall j :: i <= j < |deferred| ==> deferred[j].listener in live && deferred[j].listener in gone)
      && (forall j :: i <= j < |deferred| ==> deferred[j].list == deferred[j].listener.list)
      && (forall j, k :: i <= j < k < |deferred| ==> deferred[j] != deferred[k])
      && (forall l :: l in live && l in gone ==> exists j :: i <= j < |deferred| && deferred[j].listener == l)
    }

    twostate lemma PendingNext(i: nat)
      requires old(Pending(i)) && i < |deferred| && deferred == old(deferred) && gone == old(gone)
      requires live == old(live) - {deferred[i].listener}
      ensures Pending(i + 1)
    {
    }

    method DestroyNext(i: nat)
      requires ListsOk() && PoolOk() && Pending(i) && i < |deferred|
      modifies this`live, lists, live`prev, live`next
      ensures ListsOk() && PoolOk() && Pending(i + 1)
      ensures Abs() == old(Abs()) && live == old(live) - {deferred[i].listener}
    {
      hide ListenerList.Linked, View, Alive, Home, Told, Cut, PoolOk, Pending;
      PendingHead(i);
      var removal := deferred[i];
      ghost var nodes := Nodes();
      assert removal.list in lists;
      Detach(removal.list, removal.listener);
      PoolShrinks();
      ViewCut(nodes, gone, removal.list.key, removal.listener, removal.list.nodes);
      PendingNext(i);
    }

    lemma PendingHead(i: nat)
      requires Pending(i) && i < |deferred|
      ensures deferred[i].listener in live && deferred[i].listener in gone
              && deferred[i].list == deferred[i].listener.list
    {
    }

    /** Unlinks and destroys every flagged listener, each once. */
    method Flush()
      requires ListsOk() && PoolOk() && DeferredOk()
      modifies this`deferred, this`live, lists, live`prev, live`next
      ensures ListsOk() && PoolOk() && Abs() == old(Abs())
      ensures DeferredOk() && deferred == [] && live == old(live) - gone
    {
      hide ListsOk, PoolOk, Abs;
      var i := 0;
      while i < |deferred|
        invariant ListsOk() && PoolOk() && Pending(i)
        invariant live <= old(live) && old(live) - gone <= live
        invariant Abs() == old(Abs())
        modifies this`live, lists, live`prev, live`next
      {
        DestroyNext(i);
        i := i + 1;
      }
      deferred := [];
    }

    // ----- registering

    /** The first listener of the list, not counting removed ones, with this callback and capture flag. */
    method FindListener(list: ListenerList, callback: Callback, capture: bool) returns (found: Listener?)
      requires ListsOk() && PoolOk() && list in lists
      ensures Find(Alive(list.nodes, gone), callback, capture) == if found == null then None else Some(found.rec)
      ensures found != null ==> found in live && found.list == list && found !in gone
    {
      var node := list.first;
      ghost var i := 0;
      while node != null
        invariant 0 <= i <= |list.nodes| && node == (if i < |list.nodes| then list.nodes[i] else null)
        invariant Find(Alive(list.nodes, gone), callback, capture)
            == Find(Alive(list.nodes[i..], gone), callback, capture)
        decreases |list.nodes| - i
      {
        var listener := node;
        node := node.next;
        FindStep(list.nodes, i, gone, callback, capture);
        if !listener.removed && Matches(listener.rec, callback, capture) {
          return listener;
        }
        i := i + 1;
      }
      found := null;
    }

    /** Makes a list for a target and type that has none. */
    method MakeList(key: Key)
      requires ListsOk() && key !in lookup
      modifies this`lookup, this`lists
      ensures ListsOk() && key in lookup && fresh(lookup[key]) && lookup[key].key == key
      ensures lists == old(lists) + {lookup[key]}
      ensures lookup == old(lookup)[key := lookup[key]]
      ensures View(Nodes(), gone) == old(View(Nodes(), gone))[key := []]
    {
      hide ListenerList.Linked, View, ListsOk, Nodes;
      ghost var nodes := Nodes();
      var list := new ListenerList(key);
      lookup, lists := lookup[key := list], lists + {list};
      ListAdded(list);
      ViewEmpty(nodes, gone, key);
    }

    twostate lemma ListAdded(new list: ListenerList)
      requires old(ListsOk()) && list.key !in old(lookup) && list !in old(lists) && list.Linked() && list.nodes == []
      requires lookup == old(lookup)[list.key := list] && lists == old(lists) + {list} && live == old(live)
      requires (forall l :: l in old(lists) ==> unchanged(l)) && forall n :: n in live ==> unchanged(n)
      ensures ListsOk() && Nodes() == old(Nodes())[list.key := []]
    {
      hide ListenerList.Linked;
      OthersLinked(list);
    }

    /** Puts a new listener at the end of a list. */
    method Attach(list: ListenerList, listener: Listener)
      requires ListsOk() && list in lists && listener !in live && listener.list == list
      modifies this`live, list, listener`prev, listener`next, live`next
      ensures ListsOk() && live == old(live) + {listener}
      ensures list.key in lookup && lookup[list.key] == list && list.nodes == old(list.nodes) + [listener]
      ensures Nodes() == old(Nodes())[list.key := list.nodes]
    {
      hide ListenerList.Linked, ListsOk, Nodes;
      Owners();
      list.Append(listener);
      live := live + {listener};
      ListGrown(listener);
    }

    twostate lemma ListGrown(listener: Listener)
      requires old(ListsOk()) && listener !in old(live) && listener.list in lists
      requires lookup == old(lookup) && lists == old(lists) && live == old(live) + {listener} && listener.list.Linked()
      requires listener.list.nodes == old(listener.list.nodes) + [listener]
      requires forall l :: l in lists && l != listener.list ==> unchanged(l)
      requires forall n :: n in old(live) && n.list != listener.list ==> unchanged(n)
      ensures ListsOk() && listener.list.key in lookup && lookup[listener.list.key] == listener.list
      ensures Nodes() == old(Nodes())[listener.list.key := listener.list.nodes]
    {
      hide ListenerList.Linked;
      OthersLinked(listener.list);
    }

    twostate lemma NewcomerTold(listener: Listener)
      requires old(PoolOk() && DeferredOk()) && !listener.removed && listener !in old(gone)
      requires live == old(live) + {listener} && gone == old(gone) && deferred == old(deferred)
      requires listener.rec.id == old(nextId) && byId == old(byId)[old(nextId) := listener] && nextId == old(nextId) + 1
      requires forall l :: l in old(live) ==> l.removed == old(l.removed)
      ensures PoolOk() && DeferredOk()
    {
    }

    /** Appends a new listener to its list. */
    method Enlist(list: ListenerList, listener: Listener)
      requires Valid() && list in lists && listener.list == list && listener !in live && listener !in gone
      requires listener.rec.key == list.key && listener.rec.id == nextId && !listener.removed
      modifies this`live, this`byId, this`nextId, list, listener`prev, listener`next, live`next
      ensures Valid() && live == old(live) + {listener} && nextId == old(nextId) + 1
      ensures list.key in lookup && list.nodes == old(list.nodes) + [listener]
      ensures var view := old(View(Nodes(), gone));
              list.key in view && View(Nodes(), gone) == view[list.key := view[list.key] + [listener.rec]]
    {
      hide ListenerList.Linked, View, Alive, ListsOk, Nodes, PoolOk, DeferredOk;
      Placed(list);
      ViewAppend(Nodes(), gone, list.key, listener);
      byId, nextId := byId[nextId := listener], nextId + 1;
      Attach(list, listener);
      NewcomerTold(listener);
    }

    /** Makes a listener and appends it. */
    method Insert(list: ListenerList, rec: Rec) returns (listener: Listener)
      requires Valid() && list in lists && rec.key == list.key && rec.id == nextId
      modifies this`live, this`byId, this`nextId, list, live`next
      ensures Valid() && fresh(listener) && live == old(live) + {listener} && nextId == old(nextId) + 1
              && listener.rec == rec
      ensures old(list.nodes) <= list.nodes && list.key in lookup
      ensures var view := old(View(Nodes(), gone));
              list.key in view && View(Nodes(), gone) == view[list.key := view[list.key] + [rec]]
    {
      hide ListenerList.Linked, View, Alive, ListsOk, Nodes, PoolOk, DeferredOk;
      listener := new Listener(rec, list);
      Enlist(list, listener);
    }

    /** Finds or makes the list of a target and type. */
    method GetOrPut(key: Key) returns (list: ListenerList)
      requires Valid()
      modifies this`lookup, this`lists
      ensures Valid() && list in lists && list.key == key
      ensures lists == old(lists) || (fresh(list) && lists == old(lists) + {list})
      ensures var view := old(View(Nodes(), gone)); View(Nodes(), gone) == if key in view then view else view[key := []]
    {
      hide ListenerList.Linked, View, Alive, ListsOk, PoolOk, DeferredOk, Nodes;
      KeyOf(key);
      if key !in lookup {
        MakeList(key);
      }
      KeyOf(key);
      list := lookup[key];
    }

    /** Appends a new listener for a target and type, which may have no list yet. */
    method Add(rec: Rec) returns (listener: Listener)
      requires Valid() && rec.id == nextId
      modifies this`lookup, this`lists, this`live, this`byId, this`nextId, lists, live`next
      ensures Valid() && Grown() && nextId == old(nextId) + 1
      ensures fresh(lists - old(lists)) && fresh(live - old(live)) && listener in live && listener.rec == rec
      ensures var view := old(View(Nodes(), gone));
              View(Nodes(), gone) == view[rec.key := (if rec.key in view then view[rec.key] else []) + [rec]]
    {
      hide View, Valid, Nodes, Alive;
      var list := GetOrPut(rec.key);
      assert rec.key in View(Nodes(), gone);
      listener := Insert(list, rec);
    }

    /** Notes that a registration met a listener that is already there. */
    method Refuse(duplicate: Listener)
      requires Valid()
      modifies this`history
      ensures Valid() && Grown()
      ensures Abs() == old(Abs()).(stale := old(Abs()).stale || IsAborted(duplicate.rec, Abs().aborted))
    {
      hide View, Valid, Nodes;
      history := history.(stale := history.stale || IsAborted(duplicate.rec, world.aborted));
    }

    lemma Refused(s: State, t: State, key: Key, callback: Callback, capture: bool, once: bool, signal: Option<Signal>)
      requires !(signal.Some? && signal.value in s.aborted) && Find(ListOf(s, key), callback, capture).Some?
      requires t == s.(stale := s.stale || IsAborted(Find(ListOf(s, key), callback, capture).value, s.aborted))
      ensures t == AddListener(s, key, callback, capture, once, signal)
    {
    }

    lemma Accepted(s: State, t: State, key: Key, callback: Callback, capture: bool, once: bool, signal: Option<Signal>)
      requires !(signal.Some? && signal.value in s.aborted) && Find(ListOf(s, key), callback, capture).None?
      requires t == s.(lists := s.lists[key := ListOf(s, key) + [Rec(s.nextId, key, callback, capture, once, signal)]],
                       nextId := s.nextId + 1)
      ensures t == AddListener(s, key, callback, capture, once, signal)
    {
    }

    /** Searches the list of a target and type, if there is one. */
    method FindDuplicate(key: Key, callback: Callback, capture: bool) returns (found: Listener?)
      requires Valid()
      ensures Find(ListOf(Abs(), key), callback, capture) == if found == null then None else Some(found.rec)
      ensures found != null ==>
                found in live && key in lookup && found.list == lookup[key] && found.list.key == key && found !in gone
    {
      hide ListenerList.Linked, Alive, ListsOk, PoolOk, DeferredOk;
      found := null;
      KeyOf(key);
      if key in lookup {
        found := FindListener(lookup[key], callback, capture);
      }
    }

    method RegisterLive(key: Key, callback: Callback, capture: bool, once: bool, signal: Option<Signal>)
      returns (listener: Listener?)
      requires Valid() && !(signal.Some? && signal.value in world.aborted)
      modifies this`lookup, this`lists, this`live, this`byId, this`nextId, this`history, lists, live`next
      ensures Valid() && Grown()
      ensures fresh(lists - old(lists)) && fresh(live - old(live))
      ensures Abs() == AddListener(old(Abs()), key, callback, capture, once, signal)
      ensures listener == null <==> Abs().nextId == old(Abs()).nextId
      ensures listener != null ==>
                listener in live && listener.rec == Rec(old(nextId), key, callback, capture, once, signal)
    {
      hide View, Valid, Find, Nodes, AddListener;
      ghost var s := Abs();
      listener := null;
      var duplicate := FindDuplicate(key, callback, capture);
      if duplicate != null {
        Refuse(duplicate);
        Refused(s, Abs(), key, callback, capture, once, signal);
      } else {
        listener := Add(Rec(nextId, key, callback, capture, once, signal));
        Accepted(s, Abs(), key, callback, capture, once, signal);
      }
    }

    /** Registers a listener unless its signal is aborted already or an equal one is in the list. */
    method Register(key: Key, callback: Callback, capture: bool, once: bool, signal: Option<Signal>)
      returns (listener: Listener?)
      requires Valid()
      modifies this`lookup, this`lists, this`live, this`byId, this`nextId, this`history, lists, live`next
      ensures Valid() && Grown()
      ensures fresh(lists - old(lists)) && fresh(live - old(live))
      ensures Abs() == AddListener(old(Abs()), key, callback, capture, once, signal)
      ensures listener == null <==> Abs().nextId == old(Abs()).nextId
      ensures listener != null ==>
                listener in live && listener.rec == Rec(old(nextId), key, callback, capture, once, signal)
    {
      hide Valid, Find, View, Nodes, Grown;
      NotShrunk();
      if signal.Some? && signal.value in world.aborted {
        Ignored(Abs(), key, callback, capture, once, signal);
        return null;
      }
      listener := RegisterLive(key, callback, capture, once, signal);
    }

    lemma Ignored(s: State, key: Key, callback: Callback, capture: bool, once: bool, signal: Option<Signal>)
      requires signal.Some? && signal.value in s.aborted
      ensures s == AddListener(s, key, callback, capture, once, signal)
    {
    }

    /** Removes the listener with this callback and capture flag, if there is one. */
    method Remove(key: Key, callback: Callback, capture: bool)
      requires Valid()
      modifies this`deferred, this`live, this`gone, lists, live
      ensures Valid() && live <= old(live) && (depth > 0 ==> Grown())
      ensures Abs() == Exec(old(Abs()), Op.Remove(key, callback, capture), Program)
    {
      hide Valid, View, Nodes, Find, Drop, Exec;
      ghost var s := Abs();
      RemoveStep(s, key, callback, capture);
      var found := FindDuplicate(key, callback, capture);
      if found != null {
        RemoveListener(lookup[key], found);
      }
    }

    // ----- dispatching

    /** Runs what a callback does. */
    method RunScript(script: Script)
      requires Valid()
      modifies this, lists, live
      ensures Valid() && depth == old(depth) && (depth > 0 ==> Grown())
      ensures fresh(lists - old(lists)) && fresh(live - old(live))
      ensures Abs() == Run(old(Abs()), script, Program)
      decreases script
    {
      hide Valid, Abs;
      match script
      case Done =>
      case Then(op, rest) =>
        RunOp(op);
        RunScript(rest);
    }

    method RunOp(op: Op)
      requires Valid()
      modifies this, lists, live
      ensures Valid() && depth == old(depth) && (depth > 0 ==> Grown())
      ensures fresh(lists - old(lists)) && fresh(live - old(live))
      ensures Abs() == Exec(old(Abs()), op, Program)
      decreases op
    {
      hide Valid, View, Nodes, Find, Drop, AddListener;
      match op
      case Register(key, callback, capture, once, signal) =>
        var _ := Register(key, callback, capture, once, signal);
      case Remove(key, callback, capture) =>
        Remove(key, callback, capture);
      case Abort(sig) =>
        world := world.(aborted := world.aborted + {sig});
      case Halt(event) =>
        world := world.(halted := world.halted + {event});
      case Stop(event) =>
        world := world.(halted := world.halted + {event}, stopped := world.stopped + {event});
      case Dispatch(event, node, typ, composed, bubbles, handler, plan) =>
        DispatchNode(event, node, typ, composed, bubbles, handler, plan);
      case Direct(event, key, bodies) =>
        DispatchDirect(event, key, bodies);
    }

    /** Notes that an event is dispatched, and says whether it is refused. */
    method Note(event: Event) returns (refused: bool)
      requires Valid()
      modifies this`history
      ensures Valid() && Grown()
      ensures Abs() == Noted(old(Abs()), event) && refused == TurnedAway(Abs(), event, Program)
    {
      hide Valid, View, Nodes;
      history := history.(reused := history.reused || event in history.open || event in history.left);
      refused := event in world.busy;
    }

    /** An event at a target outside the tree; its flags stay as they are left. */
    method DispatchDirect(event: Event, key: Key, bodies: seq<Script>)
      requires Valid()
      modifies this, lists, live
      ensures Valid() && depth == old(depth) && (depth > 0 ==> Grown())
      ensures fresh(lists - old(lists)) && fresh(live - old(live))
      ensures Abs() == Exec(old(Abs()), Op.Direct(event, key, bodies), Program)
      decreases bodies, 3, 0
    {
      hide Valid, Abs, Noted, Opened, Closed, TurnedAway, Invoke;
      var refused := Note(event);
      if !refused {
        DispatchOpen(event, key, bodies);
      }
    }

    method DispatchOpen(event: Event, key: Key, bodies: seq<Script>)
      requires Valid()
      modifies this, lists, live
      ensures Valid() && depth == old(depth) && (depth > 0 ==> Grown())
      ensures fresh(lists - old(lists)) && fresh(live - old(live))
      ensures Abs() == Closed(AtTarget(Opened(old(Abs()), event), event, key, bodies, Program), event, Program)
      decreases bodies, 2, 0
    {
      hide Valid, View, Nodes, Invoke;
      history := history.(open := history.open + {event});
      Dispatch(event, key, None, bodies);
      history := history.(open := history.open - {event},
                          left := if event in world.halted then history.left + {event} else history.left);
    }

    // ----- dispatching along a path

    /** The listeners of one target, or its inline handler. */
    method Deliver(event: Event, typ: string, visit: EventPath.Visit, bodies: seq<Script>)
      requires Valid()
      modifies this, lists, live
      ensures Valid() && depth == old(depth) && (depth > 0 ==> Grown())
      ensures fresh(lists - old(lists)) && fresh(live - old(live))
      ensures Abs() == Visited(old(Abs()), event, typ, visit, bodies, Program)
      decreases bodies, 2, 0
    {
      hide Valid, View, Nodes, Invoke;
      var key := Key(Ident(visit.target), typ);
      match visit
      case Inline(_) =>
        world := world.(log := world.log + [Handled(event, key)]);
        if bodies == [] {
          Undisturbed();
        } else {
          RunScript(bodies[0]);
        }
      case Visit(phase, _) =>
        Dispatch(event, key, if phase == EventPath.AtTarget then None else Some(phase == EventPath.Capturing), bodies);
    }

    twostate lemma Undisturbed()
      requires lists == old(lists) && live == old(live) && gone == old(gone)
      requires forall l :: l in lists ==> l.nodes == old(l.nodes)
      ensures Grown()
    {
    }

    lemma FlagsSeen()
      ensures Abs().halted == world.halted
    {
    }

    /** From the end of the path to the target, without the target. */
    method Capture(event: Event, typ: string, path: seq<EventPath.Target>, ghost way: seq<EventPath.Visit>, plan: Plan)
      requires Valid() && path != [] && |path| - 1 <= |way|
      requires forall i :: 0 <= i < |path| - 1 ==> way[i] == EventPath.Visit(EventPath.Capturing, path[|path| - 1 - i])
      modifies this, lists, live
      ensures Valid() && depth == old(depth) && (depth > 0 ==> Grown())
      ensures fresh(lists - old(lists)) && fresh(live - old(live))
      ensures Visits(Abs(), event, typ, way[|path| - 1..], |path| - 1, plan, Program)
           == Visits(old(Abs()), event, typ, way, 0, plan, Program)
      decreases plan, 6, 0
    {
      hide Valid, Abs, Visits;
      Undisturbed();
      assert way[0..] == way;
      var i := |path|;
      while i > 1
        invariant 1 <= i <= |path| && Valid() && depth == old(depth) && (depth > 0 ==> Grown())
        invariant fresh(lists - old(lists)) && fresh(live - old(live))
        invariant Visits(Abs(), event, typ, way[|path| - i..], |path| - i, plan, Program)
               == Visits(old(Abs()), event, typ, way, 0, plan, Program)
      {
        FlagsSeen();
        if event in world.halted {
          HaltedVisits(Abs(), event, typ, way[|path| - i..], |path| - i, plan);
          HaltedVisits(Abs(), event, typ, way[|path| - 1..], |path| - 1, plan);
          return;
        }
        NextVisit(Abs(), event, typ, way, |path| - i, plan);
        i := i - 1;
        Deliver(event, typ, EventPath.Visit(EventPath.Capturing, path[i]), During(plan, |path| - 1 - i));
      }
    }

    /** The target: its inline handler, then its listeners. */
    method Reached(event: Event, typ: string, target: EventPath.Target, handler: bool, ghost way: seq<EventPath.Visit>,
                   visit: nat,
                   plan: Plan)
      requires Valid() && visit + (if handler then 2 else 1) <= |way|
      requires handler ==> way[visit] == EventPath.Inline(target)
      requires way[if handler then visit + 1 else visit] == EventPath.Visit(EventPath.AtTarget, target)
      modifies this, lists, live
      ensures Valid() && depth == old(depth) && (depth > 0 ==> Grown())
      ensures fresh(lists - old(lists)) && fresh(live - old(live))
      ensures var next := visit + if handler then 2 else 1;
              Visits(Abs(), event, typ, way[next..], next, plan, Program)
              == Visits(old(Abs()), event, typ, way[visit..], visit, plan, Program)
      decreases plan, 6, 0
    {
      hide Valid, Abs, Visits;
      ghost var next := visit + if handler then 2 else 1;
      Undisturbed();
      FlagsSeen();
      if event in world.halted {
        HaltedVisits(Abs(), event, typ, way[visit..], visit, plan);
        HaltedVisits(Abs(), event, typ, way[next..], next, plan);
        return;
      }
      NextVisit(Abs(), event, typ, way, visit, plan);
      if handler {
        Deliver(event, typ, EventPath.Inline(target), During(plan, visit));
        FlagsSeen();
        if event in world.halted {
          HaltedVisits(Abs(), event, typ, way[visit + 1..], visit + 1, plan);
          HaltedVisits(Abs(), event, typ, way[next..], next, plan);
          return;
        }
        NextVisit(Abs(), event, typ, way, visit + 1, plan);
      }
      Deliver(event, typ, EventPath.Visit(EventPath.AtTarget, target),
              During(plan, if handler then visit + 1 else visit));
    }

    /** From the target to the end of the path, without the target. */
    method Bubble(event: Event, typ: string, path: seq<EventPath.Target>, ghost way: seq<EventPath.Visit>, visit: nat,
                  plan: Plan)
      requires Valid() && path != [] && |way| == visit + |path| - 1
      requires forall j :: 1 <= j < |path| ==> way[visit + j - 1] == EventPath.Visit(EventPath.Bubbling, path[j])
      modifies this, lists, live
      ensures Valid() && depth == old(depth) && (depth > 0 ==> Grown())
      ensures fresh(lists - old(lists)) && fresh(live - old(live))
      ensures Abs() == Visits(old(Abs()), event, typ, way[visit..], visit, plan, Program)
      decreases plan, 6, 0
    {
      hide Valid, Abs, Visits;
      Undisturbed();
      var j := 1;
      while j < |path|
        invariant 1 <= j <= |path| && Valid() && depth == old(depth) && (depth > 0 ==> Grown())
        invariant fresh(lists - old(lists)) && fresh(live - old(live))
        invariant Visits(Abs(), event, typ, way[visit + j - 1..], visit + j - 1, plan, Program)
               == Visits(old(Abs()), event, typ, way[visit..], visit, plan, Program)
      {
        FlagsSeen();
        if event in world.halted {
          HaltedVisits(Abs(), event, typ, way[visit + j - 1..], visit + j - 1, plan);
          return;
        }
        NextVisit(Abs(), event, typ, way, visit + j - 1, plan);
        Deliver(event, typ, EventPath.Visit(EventPath.Bubbling, path[j]), During(plan, visit + j - 1));
        j := j + 1;
      }
      assert way[visit + |path| - 1..] == [];
      NoVisits(Abs(), event, typ, visit + |path| - 1, plan);
    }

    /** The three phases along the path of a node, for an event that is not being dispatched yet. */
    method Phases(event: Event, typ: string, path: seq<EventPath.Target>, bubbles: bool, handler: bool, plan: Plan)
      requires Valid() && path != []
      modifies this, lists, live
      ensures Valid() && depth == old(depth) && (depth > 0 ==> Grown())
      ensures fresh(lists - old(lists)) && fresh(live - old(live))
      ensures Abs() == Visits(old(Abs()), event, typ, EventPath.Order(path, handler, bubbles), 0, plan, Program)
      decreases plan, 7, 0
    {
      hide Valid, Abs, Visits;
      ghost var way := EventPath.Order(path, handler, bubbles);
      Capture(event, typ, path, way, plan);
      Reached(event, typ, path[0], handler, way, |path| - 1, plan);
      var next := |path| - 1 + if handler then 2 else 1;
      if bubbles {
        Bubble(event, typ, path, way, next, plan);
      } else {
        assert way[next..] == [];
        NoVisits(Abs(), event, typ, next, plan);
      }
    }

    /** An event at a node: its path is fixed first, then its phases run; its flags are cleared on every way out. */
    method DispatchNode(event: Event, node: EventPath.Node, typ: string, composed: bool, bubbles: bool, handler: bool,
                        plan: Plan)
      requires Valid()
      modifies this, lists, live
      ensures Valid() && depth == old(depth) && (depth > 0 ==> Grown())
      ensures fresh(lists - old(lists)) && fresh(live - old(live))
      ensures Abs() == Exec(old(Abs()), Op.Dispatch(event, node, typ, composed, bubbles, handler, plan), Program)
      decreases plan, 9, 0
    {
      hide Valid, Abs, Noted, Begun, Ended, TurnedAway, Visits, EventPath.Path, EventPath.Order;
      var refused := Note(event);
      if !refused {
        var path, _ := EventPath.BuildPath(node, composed, typ == "load");
        PhasesBusy(event, typ, path, bubbles, handler, plan);
      }
    }

    method PhasesBusy(event: Event, typ: string, path: seq<EventPath.Target>, bubbles: bool, handler: bool, plan: Plan)
      requires Valid() && path != []
      modifies this, lists, live
      ensures Valid() && depth == old(depth) && (depth > 0 ==> Grown())
      ensures fresh(lists - old(lists)) && fresh(live - old(live))
      ensures Abs() == Ended(Visits(Begun(old(Abs()), event), event, typ, EventPath.Order(path, handler, bubbles), 0,
                                    plan, Program), event)
      decreases plan, 8, 0
    {
      hide Valid, View, Nodes, Visits, EventPath.Order;
      world := world.(busy := world.busy + {event});
      Phases(event, typ, path, bubbles, handler, plan);
      world := world.(busy := world.busy - {event}, halted := world.halted - {event},
                      stopped := world.stopped - {event});
    }

    /** Runs the listeners of a target and type; nothing happens when there is no list. */
    method Dispatch(event: Event, key: Key, phase: Option<bool>, bodies: seq<Script>)
      requires Valid()
      modifies this, lists, live
      ensures Valid() && depth == old(depth) && (depth > 0 ==> Grown())
      ensures fresh(lists - old(lists)) && fresh(live - old(live))
      ensures Abs() == Invoke(old(Abs()), event, key, phase, ListOf(old(Abs()), key), bodies, 0, Program)
      decreases bodies, 1, 0
    {
      hide ListsOk, PoolOk, DeferredOk, Abs, Invoke, Grown;
      Listed(key);
      if key !in lookup {
        NotShrunk();
        InvokeNone(Abs(), event, key, phase, bodies, 0);
        return;
      }
      Enter(event, lookup[key], phase, bodies);
      depth := depth - 1;
      if depth == 0 {
        Flush();
      }
    }

    lemma Listed(key: Key)
      requires ListsOk()
      ensures ListOf(Abs(), key) == if key in lookup then Alive(lookup[key].nodes, gone) else []
      ensures key in lookup ==> lookup[key].key == key && lookup[key] in lists
    {
    }

    /** A listener of a list is seen there exactly while it is not flagged. */
    lemma Present(list: ListenerList, listener: Listener)
      requires Valid() && listener in live && listener.list == list
      ensures listener.rec in ListOf(Abs(), list.key) <==> listener !in gone
    {
      Homes(listener);
      AliveHas(list.nodes, gone, byId, listener);
    }

    /** Calls a listener; a `once` listener is removed first. */
    method CallListener(event: Event, list: ListenerList, listener: Listener, bodies: seq<Script>, next: nat)
      requires Valid() && depth > 0 && listener in live && listener.list == list
      modifies this, lists, live
      ensures Valid() && depth == old(depth) && Grown()
      ensures fresh(lists - old(lists)) && fresh(live - old(live))
      ensures Abs() == After(old(Abs()), event, list.key, listener.rec, bodies, next, Program)
      decreases bodies, 0, 0
    {
      hide Valid, View, Nodes, Drop;
      if listener.rec.once {
        RemoveListener(list, listener);
      }
      world := world.(log := world.log + [Invocation(event, listener.rec)]);
      if next < |bodies| {
        RunScript(bodies[next]);
      }
    }

    /** Passes over a listener, drops one whose signal is aborted, or calls it. */
    method Visit(event: Event, list: ListenerList, listener: Listener, phase: Option<bool>, bodies: seq<Script>,
                 next: nat)
      returns (ran: bool)
      requires Valid() && depth > 0 && listener in live && listener.list == list
      modifies this, lists, live
      ensures Valid() && depth == old(depth) && Grown()
      ensures fresh(lists - old(lists)) && fresh(live - old(live))
      ensures var s, rec := old(Abs()), listener.rec;
              if Skips(phase, rec) || listener in old(gone) then !ran && Abs() == s
              else if IsAborted(rec, s.aborted) then !ran && Abs() == Drop(s, list.key, rec)
              else ran && Abs() == After(s, event, list.key, rec, bodies, next, Program)
      decreases bodies, 0, 1
    {
      hide View, Nodes, After, Drop, ListsOk, DeferredOk;
      ran := false;
      if phase.Some? && listener.rec.capture != phase.value {
        NotShrunk();
        return;
      }
      if listener.removed {
        NotShrunk();
        return;
      }
      if IsAborted(listener.rec, world.aborted) {
        RemoveListener(list, listener);
        return;
      }
      CallListener(event, list, listener, bodies, next);
      ran := true;
    }

    /** Walking a list: `node` is the entry after those visited, whatever was appended or flagged since. */
    ghost predicate At(list: ListenerList, entry: seq<Listener>, last: Listener, i: nat, node: Listener?, isDone: bool)
      reads this`lists, list`nodes
    {
      && list in lists && i <= |entry| && entry <= list.nodes
      && entry != [] && last == entry[|entry| - 1]
      && (isDone <==> i == |entry|) && (!isDone ==> node == entry[i])
    }

    lemma Start(list: ListenerList)
      requires ListsOk() && list in lists
      ensures list.last == null <==> list.nodes == []
      ensures list.last != null ==> At(list, list.nodes, list.last, 0, list.first, false)
    {
    }

    lemma Advance(list: ListenerList, entry: seq<Listener>, last: Listener, i: nat, node: Listener)
      requires ListsOk() && At(list, entry, last, i, node, false)
      ensures node in live && node.list == list
      ensures At(list, entry, last, i + 1, node.next, node == last)
    {
      var nodes := list.nodes;
      assert list.Linked() && nodes[i] == entry[i] && nodes[|entry| - 1] == last;
      if i + 1 < |entry| { assert nodes[i].next == nodes[i + 1] == entry[i + 1]; }
    }

    /** The loop of a dispatch. It stops after the listener that was last on entry. */
    method Walk(event: Event, list: ListenerList, phase: Option<bool>, bodies: seq<Script>)
      requires Valid() && depth > 0 && list in lists
      modifies this, lists, live
      ensures Valid() && depth == old(depth) && Grown()
      ensures fresh(lists - old(lists)) && fresh(live - old(live))
      ensures Abs() == Invoke(old(Abs()), event, list.key, phase, Alive(old(list.nodes), old(gone)), bodies, 0, Program)
      decreases bodies, 0, 2
    {
      hide View, Nodes, Invoke, Alive, After, ListsOk, PoolOk, DeferredOk, Drop, IsAborted;
      var last := list.last;
      Start(list);
      AliveNone(gone);
      if last == null {
        InvokeNone(Abs(), event, list.key, phase, bodies, 0);
        return;
      }
      var node, isDone, next := list.first, false, 0;
      ghost var entry, flagged, i := list.nodes, gone, 0;
      while node != null && !isDone
        invariant Valid() && depth == old(depth) && Grown() && fresh(lists - old(lists)) && fresh(live - old(live))
        invariant At(list, entry, last, i, node, isDone)
        invariant Invoke(Abs(), event, list.key, phase, Alive(entry[i..], flagged), bodies, next, Program)
               == Invoke(old(Abs()), event, list.key, phase, Alive(entry, flagged), bodies, 0, Program)
        decreases |entry| - i
      {
        var listener := node;
        Advance(list, entry, last, i, node);
        isDone := listener == last;
        node := node.next;
        Present(list, listener);
        InvokeStep(Abs(), event, list.key, phase, entry, i, flagged, bodies, next);
        i := i + 1;
        var ran := Visit(event, list, listener, phase, bodies, next);
        if ran {
          next := next + 1;
          if event in world.stopped {
            return;
          }
        }
      }
      assert entry[i..] == [];
      InvokeNone(Abs(), event, list.key, phase, bodies, next);
    }

    /** A dispatch up to its last step; removals from here on are put off. */
    method Enter(event: Event, list: ListenerList, phase: Option<bool>, bodies: seq<Script>)
      requires Valid() && list in lists
      modifies this, lists, live
      ensures Valid() && depth == old(depth) + 1 && Grown()
      ensures fresh(lists - old(lists)) && fresh(live - old(live))
      ensures Abs() == Invoke(old(Abs()), event, list.key, phase, Alive(old(list.nodes), old(gone)), bodies, 0, Program)
      decreases bodies, 0, 3
    {
      hide ListsOk, PoolOk, DeferredOk, Abs, Invoke, Alive;
      depth := depth + 1;
      Walk(event, list, phase, bodies);
    }
  }

  /** Any run from scratch, as a client sees it: what ran and what is left is what the algorithm says,
      no list holds a duplicate, nothing removed is left behind, and nothing runs on a destroyed listener. */
  method WholeRun(script: Script) returns (m: Manager)
    ensures fresh(m) && m.Valid() && m.depth == 0 && m.deferred == []
    ensures m.Abs() == Run(EMPTY, script, Program) && Inv(m.Abs())
    ensures forall l, n :: l in m.lists && n in l.nodes ==> n in m.live && n !in m.gone && !n.removed
  {
    hide Run, Inv, Manager.Abs, ListenerList.Linked;
    m := new Manager();
    m.RunScript(script);
    EmptyKeeps();
    RunKeeps(EMPTY, script, Program);
  }
}
