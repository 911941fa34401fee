/** The linked lists of listeners, and their contents seen without the listeners that are flagged as removed. */
module ListenerLists {
  import opened Collections
  import opened Events

  class Listener {
    const rec: Rec
    /** The list this listener was appended to. */
    ghost const list: ListenerList
    var removed: bool
    var prev: Listener?
    var next: Listener?

    constructor (rec: Rec, ghost list: ListenerList)
      ensures this.rec == rec && this.list == list && !removed
    {
      this.rec := rec;
      this.list := list;
      removed := false;
      prev, next := null, null;
    }
  }

  /** An intrusive doubly linked list; `nodes` is its contents from first to last. */
  class ListenerList {
    ghost const key: Key
    var first: Listener?
    var last: Listener?
    ghost var nodes: seq<Listener>

    ghost predicate Linked()
      reads this, nodes`prev, nodes`next
    {
      && (forall i, j :: 0 <= i < j < |nodes| ==> nodes[i] != nodes[j])
      && (if nodes == [] then first == null && last == null else first == nodes[0] && last == nodes[|nodes| - 1])
      && (forall i :: 0 <= i < |nodes| ==> nodes[i].list == this)
      && (nodes != [] ==> nodes[0].prev == null && nodes[|nodes| - 1].next == null)
      && (forall i {:trigger nodes[i].prev} :: 1 <= i < |nodes| ==> nodes[i].prev == nodes[i - 1])
      && (forall i {:trigger nodes[i].next} :: 0 <= i < |nodes| - 1 ==> nodes[i].next == nodes[i + 1])
    }

    constructor (ghost key: Key)
      ensures Linked() && nodes == [] && this.key == key
    {
      this.key := key;
      first, last := null, null;
      nodes := [];
    }

    method Append(n: Listener)
      requires Linked() && n !in nodes && n.list == this
      modifies this, n`prev, n`next, nodes`next
      ensures Linked() && nodes == old(nodes) + [n]
    {
      n.prev := last;
      n.next := null;
      if last == null {
        first := n;
      } else {
        last.next := n;
      }
      last := n;
      nodes := nodes + [n];
    }

    method Remove(n: Listener)
      requires Linked() && n in nodes
      modifies this, nodes`prev, nodes`next
      ensures Linked() && n !in nodes
      ensures Cut(old(nodes), n, nodes)
    {
      ghost var k :| 0 <= k < |nodes| && nodes[k] == n;
      ghost var was := nodes;
      if n.prev == null {
        first := n.next;
      } else {
        n.prev.next := n.next;
      }
      if n.next == null {
        last := n.prev;
      } else {
        n.next.prev := n.prev;
      }
      nodes := nodes[..k] + nodes[k + 1..];
      assert was[k] == n;
    }
  }

  // ----- the contents of a list, seen without the removed listeners

  ghost function Alive(nodes: seq<Listener>, gone: set<Listener>): seq<Rec> {
    if nodes == [] then []
    else (if nodes[0] in gone then [] else [nodes[0].rec]) + Alive(nodes[1..], gone)
  }

  lemma AliveConcat(a: seq<Listener>, b: seq<Listener>, gone: set<Listener>)
    ensures Alive(a + b, gone) == Alive(a, gone) + Alive(b, gone)
  {
    if a == [] {
      assert a + b == b;
    } else {
      assert (a + b)[1..] == a[1..] + b;
      AliveConcat(a[1..], b, gone);
    }
  }

  /** `byId` shows that different listeners have different records. */
  ghost predicate Told(nodes: seq<Listener>, byId: map<nat, Listener>) {
    forall n :: n in nodes ==> n.rec.id in byId && byId[n.rec.id] == n
  }

  lemma AliveHas(nodes: seq<Listener>, gone: set<Listener>, byId: map<nat, Listener>, n: Listener)
    requires Told(nodes, byId) && n.rec.id in byId && byId[n.rec.id] == n
    ensures n.rec in Alive(nodes, gone) <==> n in nodes && n !in gone
  {
    if nodes != [] {
      assert forall m :: m in nodes[1..] ==> m in nodes;
      AliveHas(nodes[1..], gone, byId, n);
    }
  }

  lemma AliveSame(nodes: seq<Listener>, gone: set<Listener>, gone': set<Listener>)
    requires forall n :: n in nodes ==> (n in gone <==> n in gone')
    ensures Alive(nodes, gone) == Alive(nodes, gone')
  {
    if nodes != [] {
      assert nodes[0] in nodes && forall m :: m in nodes[1..] ==> m in nodes;
      AliveSame(nodes[1..], gone, gone');
    }
  }

  /** Flagging a listener takes exactly its record out of the view. */
  lemma AliveFlag(nodes: seq<Listener>, gone: set<Listener>, byId: map<nat, Listener>, n: Listener)
    requires Told(nodes, byId) && n.rec.id in byId && byId[n.rec.id] == n && n !in gone
    ensures Alive(nodes, gone + {n}) == Without(Alive(nodes, gone), n.rec)
  {
    if nodes != [] {
      assert forall m :: m in nodes[1..] ==> m in nodes;
      AliveFlag(nodes[1..], gone, byId, n);
      var first, others := nodes[0], Alive(nodes[1..], gone);
      assert first in nodes && (first.rec == n.rec ==> first == n);
      assert ([first.rec] + others)[1..] == others && [] + others == others;
    }
  }

  lemma AliveSkip(a: seq<Listener>, n: Listener, b: seq<Listener>, gone: set<Listener>)
    requires n in gone
    ensures Alive(a + [n] + b, gone) == Alive(a + b, gone)
  {
    if a == [] {
      assert (a + [n] + b)[1..] == b == a + b;
    } else {
      assert (a + [n] + b)[1..] == a[1..] + [n] + b && (a + b)[1..] == a[1..] + b;
      AliveSkip(a[1..], n, b, gone);
    }
  }

  ghost predicate Cut(nodes: seq<Listener>, n: Listener, rest: seq<Listener>) {
    exists k :: 0 <= k < |nodes| && nodes[k] == n && rest == nodes[..k] + nodes[k + 1..]
  }

  lemma CutKeepsRest(nodes: seq<Listener>, n: Listener, rest: seq<Listener>)
    requires Cut(nodes, n, rest) && n !in rest
    ensures forall m :: m in rest <==> m in nodes && m != n
  {
  }

  /** Unlinking a flagged listener does not change the view. */
  lemma AliveCut(nodes: seq<Listener>, gone: set<Listener>, n: Listener, rest: seq<Listener>)
    requires n in gone && Cut(nodes, n, rest)
    ensures Alive(rest, gone) == Alive(nodes, gone)
  {
    var k :| 0 <= k < |nodes| && nodes[k] == n && rest == nodes[..k] + nodes[k + 1..];
    assert nodes == nodes[..k] + [n] + nodes[k + 1..];
    AliveSkip(nodes[..k], n, nodes[k + 1..], gone);
  }

  /** All lists at once. */
  ghost function View(nodes: map<Key, seq<Listener>>, gone: set<Listener>): (v: map<Key, seq<Rec>>)
    ensures v.Keys == nodes.Keys && forall k :: k in nodes ==> v[k] == Alive(nodes[k], gone)
  {
    map k | k in nodes :: Alive(nodes[k], gone)
  }

  /** `n` is linked in the list of `key` and in no other. */
  ghost predicate Home(nodes: map<Key, seq<Listener>>, key: Key, n: Listener) {
    key in nodes && forall k :: k in nodes && n in nodes[k] ==> k == key
  }

  lemma ViewFlag(nodes: map<Key, seq<Listener>>, gone: set<Listener>, byId: map<nat, Listener>, key: Key, n: Listener)
    requires Home(nodes, key, n) && n !in gone
    requires Told(nodes[key], byId) && n.rec.id in byId && byId[n.rec.id] == n
    ensures View(nodes, gone + {n}) == View(nodes, gone)[key := Without(Alive(nodes[key], gone), n.rec)]
  {
    AliveFlag(nodes[key], gone, byId, n);
    forall k | k in nodes && k != key
      ensures Alive(nodes[k], gone + {n}) == Alive(nodes[k], gone)
    {
      AliveSame(nodes[k], gone, gone + {n});
    }
  }

  lemma ViewAppend(nodes: map<Key, seq<Listener>>, gone: set<Listener>, key: Key, n: Listener)
    requires key in nodes && n !in gone
    ensures View(nodes[key := nodes[key] + [n]], gone) == View(nodes, gone)[key := Alive(nodes[key], gone) + [n.rec]]
  {
    AliveConcat(nodes[key], [n], gone);
    assert Alive([n], gone) == [n.rec];
  }

  lemma ViewEmpty(nodes: map<Key, seq<Listener>>, gone: set<Listener>, key: Key)
    ensures View(nodes[key := []], gone) == View(nodes, gone)[key := []]
  {
  }

  /** A search step: a removed listener is passed over. */
  lemma FindStep(nodes: seq<Listener>, i: nat, gone: set<Listener>, callback: Callback, capture: bool)
    requires i < |nodes|
    ensures Find(Alive(nodes[i..], gone), callback, capture)
         == if nodes[i] !in gone && Matches(nodes[i].rec, callback, capture) then Some(nodes[i].rec)
            else Find(Alive(nodes[i + 1..], gone), callback, capture)
  {
    assert nodes[i..][0] == nodes[i] && nodes[i..][1..] == nodes[i + 1..];
    var others := Alive(nodes[i + 1..], gone);
    assert ([nodes[i].rec] + others)[1..] == others && [] + others == others;
  }

  lemma ViewCut(nodes: map<Key, seq<Listener>>, gone: set<Listener>, key: Key, n: Listener, rest: seq<Listener>)
    requires key in nodes && n in gone && Cut(nodes[key], n, rest)
    ensures View(nodes[key := rest], gone) == View(nodes, gone)
  {
    AliveCut(nodes[key], gone, n, rest);
  }

  lemma ViewUnlink(nodes: map<Key, seq<Listener>>, gone: set<Listener>, byId: map<nat, Listener>, key: Key, n: Listener,
                   rest: seq<Listener>)
    requires Home(nodes, key, n) && n !in gone && Cut(nodes[key], n, rest) && n !in rest
    requires Told(nodes[key], byId) && n.rec.id in byId && byId[n.rec.id] == n
    ensures View(nodes[key := rest], gone) == View(nodes, gone)[key := Without(Alive(nodes[key], gone), n.rec)]
  {
    AliveFlag(nodes[key], gone, byId, n);
    AliveCut(nodes[key], gone + {n}, n, rest);
    AliveSame(rest, gone, gone + {n});
  }
}
