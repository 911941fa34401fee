/** The path of an event as section 2.9 of the DOM Standard has it, and when the program's path, and the order in which
    it visits the targets on it, are the same. */
module StandardPath {
  import opened Collections
  import opened EventPath

  /** An entry of the path. It is a target when a target is recorded with it: the event's own, and every host that the
      path comes to when it leaves the tree of the last target. */
  datatype Entry = Entry(target: Target, isTarget: bool)

  /** The parent of a node for an event that started at `first`: its slot, else what is above it. An event that is not
      composed ends at the root of the shadow tree it started in. */
  ghost function Ahead(n: Node, first: Node, composed: bool): Option<Node> {
    if n.slot.Some? then n.slot
    else if n.up.Nothing? || (n.up.Host? && !composed && n == Root(first)) then None
    else Some(n.up.node)
  }

  ghost function Route(n: Node, first: Node, composed: bool): (r: seq<Node>)
    ensures r != [] && r[0] == n
  {
    var ahead := Ahead(n, first, composed);
    [n] + if ahead.Some? then Route(ahead.value, first, composed) else []
  }

  /** The entries for the nodes of a route, where `last` is the target so far. */
  ghost function Entries(route: seq<Node>, last: Node): (e: seq<Entry>)
    ensures |e| == |route| && forall i :: 0 <= i < |e| ==> e[i].target == OfNode(route[i])
  {
    if route == [] then []
    else if Root(last) in Chain(route[0]) then [Entry(OfNode(route[0]), false)] + Entries(route[1..], last)
    else [Entry(OfNode(route[0]), true)] + Entries(route[1..], route[0])
  }

  predicate HasWindow(n: Node) { n.hasWindow && n.up.Nothing? && n.slot.None? }

  /** The window comes last when the route ends at a document that has one, unless the event is a load. */
  ghost function StandardPath(n: Node, composed: bool, isLoad: bool): (p: seq<Entry>)
    ensures p != [] && p[0] == Entry(OfNode(n), true)
  {
    var route := Route(n, n, composed);
    [Entry(OfNode(n), true)] + Entries(route[1..], n)
      + if !isLoad && HasWindow(route[|route| - 1]) then [Entry(Window, false)] else []
  }

  ghost function Targets(path: seq<Entry>): (r: seq<Target>)
    ensures |r| == |path| && forall i :: 0 <= i < |r| ==> r[i] == path[i].target
  {
    seq(|path|, i requires 0 <= i < |path| => path[i].target)
  }

  // ----- the same path

  /** A node in a slot is a child of the host of the slot's shadow tree. */
  ghost predicate Slotted(n: Node) {
    n.slot.Some? && n.up.Parent? && Root(n.slot.value).up == Host(n.up.node)
  }

  ghost predicate Proper(n: Node, composed: bool) {
    forall m :: m in Reach(n, composed) && m.slot.Some? ==> Slotted(m)
  }

  /** No slot on the way, at most 128 nodes, and, unless the event is a load, a window at the end exactly when there is
      room for one. */
  ghost predicate PathsAgree(n: Node, composed: bool, isLoad: bool) {
    var r := Reach(n, composed);
    && (forall m :: m in r ==> m.slot.None?)
    && |r| <= CAPACITY
    && (isLoad || (|r| < CAPACITY <==> HasWindow(r[|r| - 1])))
  }

  lemma SlotIsNotParent(n: Node)
    requires Slotted(n)
    ensures n.slot.value != n.up.node
  {
    RootIsAncestor(n.slot.value);
    AncestorLower(Root(n.slot.value), n.slot.value);
  }

  /** Up to a node with a slot both ways are the same, and there they part. */
  lemma {:induction false} FirstSlot(n: Node, first: Node, composed: bool, i: nat)
    requires i < |Reach(n, composed)| && Reach(n, composed)[i].slot.Some?
    requires forall j :: 0 <= j < i ==> Reach(n, composed)[j].slot.None?
    requires !composed ==> Root(n) == Root(first)
    requires Reach(n, composed)[i].up.Parent?
    ensures i + 1 < |Reach(n, composed)| && Reach(n, composed)[i + 1] == Reach(n, composed)[i].up.node
    ensures i + 1 < |Route(n, first, composed)|
    ensures Route(n, first, composed)[i + 1] == Reach(n, composed)[i].slot.value
    decreases i
  {
    if i > 0 {
      assert Reach(n, composed)[0].slot.None?;
      var m := n.up.node;
      assert Reach(n, composed) == [n] + Reach(m, composed)
             && Route(n, first, composed) == [n] + Route(m, first, composed);
      assert forall j :: 0 <= j < i - 1 ==> Reach(m, composed)[j] == Reach(n, composed)[j + 1];
      FirstSlot(m, first, composed, i - 1);
    }
  }

  lemma {:induction false} NoSlot(n: Node, first: Node, composed: bool)
    requires forall m :: m in Reach(n, composed) ==> m.slot.None?
    requires !composed ==> Root(n) == Root(first)
    ensures Route(n, first, composed) == Reach(n, composed)
    decreases n
  {
    assert n == Reach(n, composed)[0];
    var ahead := Ahead(n, first, composed);
    if ahead.Some? {
      var m := ahead.value;
      assert m == n.up.node && Reach(n, composed) == [n] + Reach(m, composed);
      assert forall k :: k in Reach(m, composed) ==> k in Reach(n, composed);
      NoSlot(m, first, composed);
    }
  }

  lemma PathIs(n: Node, composed: bool, isLoad: bool)
    ensures var route := Route(n, n, composed);
            Targets(StandardPath(n, composed, isLoad))
            == OfNodes(route) + if !isLoad && HasWindow(route[|route| - 1]) then [Window] else []
  {
  }

  /** The program's path is the standard's exactly then. */
  lemma SamePath(n: Node, composed: bool, isLoad: bool)
    requires Proper(n, composed)
    ensures Path(n, composed, isLoad) == Targets(StandardPath(n, composed, isLoad)) <==> PathsAgree(n, composed, isLoad)
  {
    hide StandardPath, Targets, Path, HasWindow;
    if exists m :: m in Reach(n, composed) && m.slot.Some? {
      SlotsPart(n, composed, isLoad);
    } else {
      NoSlot(n, n, composed);
      LengthsTell(n, composed, isLoad);
    }
  }

  lemma SlotsPart(n: Node, composed: bool, isLoad: bool)
    requires Proper(n, composed) && exists m :: m in Reach(n, composed) && m.slot.Some?
    ensures Path(n, composed, isLoad) != Targets(StandardPath(n, composed, isLoad))
  {
    hide Reach, Route, StandardPath, HasWindow, Root;
    var r, route := Reach(n, composed), Route(n, n, composed);
    PathIs(n, composed, isLoad);
    var i := FirstSlotted(r);
    assert r[i] in r;
    SlotIsNotParent(r[i]);
    FirstSlot(n, n, composed, i);
    if i + 1 < CAPACITY {
      assert Path(n, composed, isLoad)[i + 1] == OfNode(r[i + 1]);
      assert Targets(StandardPath(n, composed, isLoad))[i + 1] == OfNode(route[i + 1]);
    }
  }

  lemma {:induction false} FirstSlotted(r: seq<Node>) returns (i: nat)
    requires exists m :: m in r && m.slot.Some?
    ensures i < |r| && r[i].slot.Some? && forall j :: 0 <= j < i ==> r[j].slot.None?
  {
    if r[0].slot.Some? {
      i := 0;
    } else {
      var k := FirstSlotted(r[1..]);
      i := k + 1;
    }
  }

  lemma LengthsTell(n: Node, composed: bool, isLoad: bool)
    requires Route(n, n, composed) == Reach(n, composed)
    ensures var r := Reach(n, composed);
            Path(n, composed, isLoad) == Targets(StandardPath(n, composed, isLoad))
            <==> |r| <= CAPACITY && (isLoad || (|r| < CAPACITY <==> HasWindow(r[|r| - 1])))
  {
    PathIs(n, composed, isLoad);
    var r := Reach(n, composed);
    var path, standard := Path(n, composed, isLoad), Targets(StandardPath(n, composed, isLoad));
    if |r| <= CAPACITY {
      assert Take(r, CAPACITY) == r;
    } else {
      assert |path| <= CAPACITY < |standard|;
    }
  }

  // ----- a path that is longer

  /** The topmost node of a tree that is in no document: the program's path goes on to the window. */
  lemma DetachedWindow(n: Node)
    requires n.up.Nothing? && n.slot.None? && !n.hasWindow
    ensures Path(n, true, false) == [OfNode(n), Window] && StandardPath(n, true, false) == [Entry(OfNode(n), true)]
  {
    assert Reach(n, true) == [n] && Route(n, n, true) == [n];
  }

  /** A child of a shadow root and an event that is not composed: the program's path goes on to the window, the
      standard's ends at the shadow root. */
  lemma PastShadow(n: Node)
    requires n.slot.None? && n.up.Parent? && n.up.node.up.Host? && n.up.node.slot.None?
    ensures Path(n, false, false) == [OfNode(n), OfNode(n.up.node), Window]
    ensures Targets(StandardPath(n, false, false)) == [OfNode(n), OfNode(n.up.node)]
  {
    var root := n.up.node;
    WindowPastShadow(n);
    assert Root(n) == root && Route(root, n, false) == [root] && Route(n, n, false) == [n, root];
    PathIs(n, false, false);
  }

  /** A child of a host that is in a slot: the standard's path goes through the slot and its shadow root. */
  lemma SlotSkipped(n: Node)
    requires Slotted(n) && n.slot.value.slot.None? && n.slot.value.up.Parent?
    requires var root := n.slot.value.up.node; root.up.Host? && root.slot.None?
    requires var host := n.up.node; host.up.Nothing? && host.slot.None?
    ensures var slot, host := n.slot.value, n.up.node;
            && Path(n, true, true) == [OfNode(n), OfNode(host)]
            && Targets(StandardPath(n, true, true)) == [OfNode(n), OfNode(slot), OfNode(slot.up.node), OfNode(host)]
  {
    var slot, host := n.slot.value, n.up.node;
    var root := slot.up.node;
    assert Root(slot) == root && root.up.node == host;
    assert Reach(host, true) == [host] && Reach(n, true) == [n, host];
    assert Route(host, n, true) == [host] && Route(root, n, true) == [root, host];
    assert Route(slot, n, true) == [slot, root, host] && Route(n, n, true) == [n, slot, root, host];
    PathIs(n, true, true);
  }

  // ----- the same order of visits

  /** On the way up a target is visited in any case, another entry when the event bubbles. */
  ghost function Ups(path: seq<Entry>, j: nat, bubbles: bool): seq<Visit>
    decreases |path| - j
  {
    if j >= |path| then []
    else (if bubbles || path[j].isTarget then [Visit(Bubbling, path[j].target)] else []) + Ups(path, j + 1, bubbles)
  }

  ghost function StandardOrder(n: Node, composed: bool, isLoad: bool, bubbles: bool): seq<Visit> {
    var path := StandardPath(n, composed, isLoad);
    Captures(Targets(path), |path| - 1) + [Visit(AtTarget, OfNode(n))] + Ups(path, 1, bubbles)
  }

  /** The path leaves a shadow tree. */
  ghost predicate PassesHost(n: Node, composed: bool) {
    composed && exists i :: 0 <= i < |Reach(n, composed)| && IsShadowRoot(Reach(n, composed)[i])
  }

  /** The program visits the targets that the standard visits, in the same order, exactly when the paths agree and the
      event bubbles or passes no host. */
  ghost predicate OrdersAgree(n: Node, composed: bool, isLoad: bool, bubbles: bool) {
    PathsAgree(n, composed, isLoad) && (bubbles || !PassesHost(n, composed))
  }

  lemma {:induction false} UpsBubble(path: seq<Entry>, j: nat)
    requires 1 <= j <= |path|
    ensures Ups(path, j, true) == Bubbles(Targets(path), |path| - 1)[j - 1..]
    decreases |path| - j
  {
    if j < |path| {
      UpsBubble(path, j + 1);
      var all := Bubbles(Targets(path), |path| - 1);
      assert all[j - 1..] == [all[j - 1]] + all[j..];
    }
  }

  lemma {:induction false} UpsStay(path: seq<Entry>, j: nat)
    ensures Ups(path, j, false) == [] <==> forall k :: j <= k < |path| ==> !path[k].isTarget
    decreases |path| - j
  {
    if j < |path| { UpsStay(path, j + 1); }
  }

  /** Going up from a node in the tree of the last target leaves that tree exactly when the node is a shadow root. */
  lemma LeavesTree(last: Node, n: Node, m: Node)
    requires !n.up.Nothing? && m == n.up.node && Root(last) == Root(n)
    ensures Root(last) in Chain(m) <==> !IsShadowRoot(n)
    ensures !IsShadowRoot(n) ==> Root(last) == Root(m)
  {
    if IsShadowRoot(n) {
      if n in Chain(m) { ChainLower(n, m); }
    } else {
      RootIsAncestor(m);
      AncestorsShareRoot(Root(m), m);
    }
  }

  lemma EntriesFirst(route: seq<Node>, last: Node)
    requires route != []
    ensures var out := Root(last) !in Chain(route[0]);
            Entries(route, last) == [Entry(OfNode(route[0]), out)] + Entries(route[1..], if out then route[0] else last)
  {
  }

  /** Without slots the targets on the way are the hosts: the entries behind a shadow root. */
  lemma {:induction false} TargetsAreHosts(route: seq<Node>, last: Node, k: nat)
    requires |route| > 1 && k < |route| - 1 && Root(last) == Root(route[0])
    requires forall i :: 0 <= i < |route| - 1 ==> !route[i].up.Nothing? && route[i + 1] == route[i].up.node
    ensures Entries(route[1..], last)[k].isTarget <==> IsShadowRoot(route[k])
    decreases k
  {
    hide Root, Chain, Entries;
    var n, m, rest := route[0], route[1], route[1..];
    assert rest[0] == m;
    LeavesTree(last, n, m);
    EntriesFirst(rest, last);
    if k > 0 {
      var next := if Root(last) in Chain(m) then last else m;
      assert forall i :: 0 <= i < |rest| - 1 ==> rest[i] == route[i + 1];
      TargetsAreHosts(rest, next, k - 1);
    }
  }

  lemma {:induction false} ReachSteps(n: Node, composed: bool)
    ensures var r := Reach(n, composed); forall i :: 0 <= i < |r| - 1 ==> !r[i].up.Nothing? && r[i + 1] == r[i].up.node
    ensures var r := Reach(n, composed); composed ==> r[|r| - 1].up.Nothing?
    ensures var r := Reach(n, composed); !composed ==> forall i :: 0 <= i < |r| - 1 ==> !IsShadowRoot(r[i])
    decreases n
  {
    if !n.up.Nothing? && (composed || n.up.Parent?) {
      ReachSteps(n.up.node, composed);
      assert Reach(n, composed) == [n] + Reach(n.up.node, composed);
    }
  }

  lemma HostsOnPath(n: Node, composed: bool, isLoad: bool)
    requires forall m :: m in Reach(n, composed) ==> m.slot.None?
    ensures var path := StandardPath(n, composed, isLoad);
            (exists k :: 1 <= k < |path| && path[k].isTarget) <==> PassesHost(n, composed)
  {
    hide Reach, Route, Entries;
    var r, path := Reach(n, composed), StandardPath(n, composed, isLoad);
    NoSlot(n, n, composed);
    ReachSteps(n, composed);
    forall k | 1 <= k < |r|
      ensures path[k].isTarget <==> IsShadowRoot(r[k - 1])
    {
      TargetsAreHosts(r, n, k - 1);
      assert path[k] == Entries(r[1..], n)[k - 1];
    }
    if PassesHost(n, composed) {
      var i :| 0 <= i < |r| && IsShadowRoot(r[i]);
      assert i + 1 < |r| && path[i + 1].isTarget;
    }
  }

  lemma SameOrder(n: Node, composed: bool, isLoad: bool, bubbles: bool)
    requires Proper(n, composed)
    ensures Order(Path(n, composed, isLoad), false, bubbles) == StandardOrder(n, composed, isLoad, bubbles)
            <==> OrdersAgree(n, composed, isLoad, bubbles)
  {
    hide Path, StandardPath, PassesHost;
    SamePath(n, composed, isLoad);
    var path, standard := Path(n, composed, isLoad), StandardPath(n, composed, isLoad);
    if path == Targets(standard) {
      HostsOnPath(n, composed, isLoad);
      UpsBubble(standard, 1);
      UpsStay(standard, 1);
      SameFront(path, bubbles, Ups(standard, 1, bubbles));
    } else {
      OrdersDiffer(path, Targets(standard), bubbles, Ups(standard, 1, bubbles));
    }
  }

  lemma SameFront(path: seq<Target>, bubbles: bool, ups: seq<Visit>)
    requires path != []
    ensures Order(path, false, bubbles) == Captures(path, |path| - 1) + [Visit(AtTarget, path[0])] + ups
            <==> ups == if bubbles then Bubbles(path, |path| - 1) else []
  {
    var front := Captures(path, |path| - 1) + [Visit(AtTarget, path[0])];
    var own := if bubbles then Bubbles(path, |path| - 1) else [];
    assert Order(path, false, bubbles) == front + own;
    assert (front + own)[|front|..] == own && (front + ups)[|front|..] == ups;
  }

  /** The order tells the path: it is what comes before the target, backwards. */
  lemma OrdersDiffer(path: seq<Target>, other: seq<Target>, bubbles: bool, ups: seq<Visit>)
    requires path != [] && other != [] && path != other && path[0] == other[0]
    ensures Order(path, false, bubbles) != Captures(other, |other| - 1) + [Visit(AtTarget, other[0])] + ups
  {
    var a, b := Order(path, false, bubbles), Captures(other, |other| - 1) + [Visit(AtTarget, other[0])] + ups;
    if |path| == |other| {
      var i :| 0 <= i < |path| && path[i] != other[i];
      assert a[|path| - 1 - i] == Visit(Capturing, path[i]) && b[|path| - 1 - i] == Visit(Capturing, other[i]);
    } else {
      var k := if |path| < |other| then |path| - 1 else |other| - 1;
      assert a[k].phase != b[k].phase;
    }
  }

  /** A composed load at a child of a shadow root: it does not bubble, so the program makes the last visit at the child,
      while the standard visits the host once more. */
  lemma HostSkipped(n: Node)
    requires n.slot.None? && n.up.Parent? && n.up.node.up.Host? && n.up.node.slot.None?
    requires var host := n.up.node.up.node; host.up.Nothing? && host.slot.None?
    ensures var root, host := n.up.node, n.up.node.up.node;
            var order := [Visit(Capturing, OfNode(host)), Visit(Capturing, OfNode(root)), Visit(AtTarget, OfNode(n))];
            && Order(Path(n, true, true), false, false) == order
            && StandardOrder(n, true, true, false) == order + [Visit(Bubbling, OfNode(host))]
  {
    hide Entries, Root, Chain, Route;
    var root, host := n.up.node, n.up.node.up.node;
    assert Reach(host, true) == [host] && Reach(root, true) == [root, host] && Reach(n, true) == [n, root, host];
    assert Path(n, true, true) == [OfNode(n), OfNode(root), OfNode(host)];
    NoSlot(n, n, true);
    HostEntries(n);
    assert [n, root, host][1..] == [root, host];
    var path := [Entry(OfNode(n), true), Entry(OfNode(root), false), Entry(OfNode(host), true)];
    assert StandardPath(n, true, true) == path;
    hide Reach, Path, StandardPath;
    assert Ups(path, 3, false) == [] && Ups(path, 2, false) == [Visit(Bubbling, OfNode(host))] == Ups(path, 1, false);
  }

  lemma HostEntries(n: Node)
    requires n.up.Parent? && n.up.node.up.Host?
    ensures var root, host := n.up.node, n.up.node.up.node;
            Entries([root, host], n) == [Entry(OfNode(root), false), Entry(OfNode(host), true)]
  {
    hide Entries;
    var root, host := n.up.node, n.up.node.up.node;
    assert Root(n) == root == Root(root);
    LeavesTree(n, n, root);
    LeavesTree(n, root, host);
    assert [root, host][1..] == [host] && [host][1..] == [];
    EntriesFirst([root, host], n);
    EntriesFirst([host], n);
    NoEntries(host);
  }

  lemma NoEntries(last: Node)
    ensures Entries([], last) == []
  {
  }
}
