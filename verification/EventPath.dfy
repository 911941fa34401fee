/** How an event finds its way through a document with shadow trees: the path it takes in the program, the order in
    which the targets on it are visited, and the target each of them is shown. */
module EventPath {
  import opened Collections

  /** A node with what is above it: a parent in its own tree, the host of its shadow root, or nothing. A document shown
      in a window has that window, and a child of a host may be assigned to a slot in the host's shadow tree. */
  datatype Node = Node(id: nat, hasWindow: bool, up: Link, slot: Option<Node>)

  datatype Link = Nothing | Parent(node: Node) | Host(node: Node)

  datatype Target = OfNode(node: Node) | Window | Other

  predicate IsShadowRoot(n: Node) { n.up.Host? }

  // ----- the tree

  /** Shadow-including inclusive ancestors, from the node up. */
  ghost function Chain(n: Node): (c: seq<Node>)
    ensures c != [] && c[0] == n
  {
    match n.up
    case Nothing => [n]
    case Parent(p) => [n] + Chain(p)
    case Host(h) => [n] + Chain(h)
  }

  /** Inclusive ancestors within one tree. */
  ghost predicate IsAncestor(a: Node, n: Node) {
    a == n || (n.up.Parent? && IsAncestor(a, n.up.node))
  }

  ghost function Root(n: Node): Node { if n.up.Parent? then Root(n.up.node) else n }

  lemma {:induction false} AncestorsShareRoot(a: Node, n: Node)
    requires IsAncestor(a, n)
    ensures Root(a) == Root(n) && a in Chain(n)
    decreases n
  {
    if a != n { AncestorsShareRoot(a, n.up.node); }
  }

  lemma {:induction false} RootIsAncestor(n: Node)
    ensures IsAncestor(Root(n), n) && !Root(n).up.Parent?
    decreases n
  {
    if n.up.Parent? { RootIsAncestor(n.up.node); }
  }

  ghost function Depth(n: Node): (d: nat)
    ensures d == |Chain(n)|
  {
    match n.up
    case Nothing => 1
    case Parent(p) => 1 + Depth(p)
    case Host(h) => 1 + Depth(h)
  }

  // ----- the target that is shown

  method IsAncestorOrSelf(ancestor: Node, node: Node) returns (r: bool)
    ensures r == IsAncestor(ancestor, node)
  {
    if ancestor == node { return true; }
    var current := node;
    while current.up.Parent?
      invariant ancestor != current && IsAncestor(ancestor, node) == IsAncestor(ancestor, current)
      decreases Depth(current)
    {
      current := current.up.node;
      if current == ancestor { return true; }
    }
    r := false;
  }

  /** The lowest node of the list that has `current` as an inclusive ancestor. */
  ghost function Lowest(chain: seq<Node>, current: Node): Option<Node> {
    if chain == [] then None
    else if IsAncestor(current, chain[0]) then Some(chain[0])
    else Lowest(chain[1..], current)
  }

  method GetAdjustedTarget(original: Option<Target>, current: Target) returns (r: Option<Target>)
    ensures r == if original.Some? && original.value.OfNode? && current.OfNode? then
                   var lowest := Lowest(Chain(original.value.node), current.node);
                   if lowest.Some? then Some(OfNode(lowest.value)) else original
                 else original
  {
    if original.None? || !original.value.OfNode? || !current.OfNode? { return original; }
    var node := original.value.node;
    while true
      invariant Lowest(Chain(original.value.node), current.node) == Lowest(Chain(node), current.node)
      decreases Depth(node)
    {
      var found := IsAncestorOrSelf(current.node, node);
      if found { return Some(OfNode(node)); }
      assert Chain(node)[1..] == if node.up.Nothing? then [] else Chain(node.up.node);
      if node.up.Nothing? { break; }
      node := node.up.node;
    }
    r := original;
  }

  /** Retargeting as the DOM Standard, section 4.8, has it: out of every shadow tree that `against` is not in. */
  ghost function Retarget(a: Node, against: Target): (r: Node)
    decreases Depth(a)
  {
    var root := Root(a);
    if !IsShadowRoot(root) || (against.OfNode? && root in Chain(against.node)) then a
    else
      RootIsAncestor(a);
      AncestorLower(root, a);
      Retarget(root.up.node, against)
  }

  lemma {:induction false} AncestorLower(a: Node, n: Node)
    requires IsAncestor(a, n)
    ensures Depth(a) <= Depth(n)
    decreases n
  {
    if a != n { AncestorLower(a, n.up.node); }
  }

  lemma {:induction false} ChainLower(c: Node, n: Node)
    requires c in Chain(n)
    ensures Depth(c) <= Depth(n)
    decreases n
  {
    if c != n {
      var rest := if n.up.Nothing? then [] else Chain(n.up.node);
      assert Chain(n) == [n] + rest;
      ChainLower(c, n.up.node);
    }
  }

  /** Above the root of its tree, the chain of a node is that of the host. */
  lemma {:induction false} LowestFromRoot(n: Node, current: Node)
    requires current in Chain(n) && !IsAncestor(current, n)
    ensures IsShadowRoot(Root(n)) && current in Chain(Root(n).up.node)
    ensures Lowest(Chain(n), current) == Lowest(Chain(Root(n).up.node), current)
    decreases n
  {
    var rest := if n.up.Nothing? then [] else Chain(n.up.node);
    assert Chain(n) == [n] + rest && Chain(n)[1..] == rest;
    if n.up.Parent? { LowestFromRoot(n.up.node, current); }
  }

  /** For every node on the path, the target it is shown is the one the standard prescribes: it is the lowest
      node above the original target with the current one among its ancestors, and in the same tree. */
  lemma {:induction false} AdjustedIsRetargeted(original: Node, current: Node)
    requires current in Chain(original)
    ensures Lowest(Chain(original), current) == Some(Retarget(original, OfNode(current)))
    ensures Root(Retarget(original, OfNode(current))) == Root(current)
    decreases Depth(original)
  {
    RootIsAncestor(original);
    AncestorLower(Root(original), original);
    if IsAncestor(current, original) {
      AncestorsShareRoot(current, original);
      RootIsAncestor(current);
      AncestorsShareRoot(Root(current), current);
    } else {
      LowestFromRoot(original, current);
      var root := Root(original);
      if root in Chain(current) {
        ChainLower(root, current);
        ChainLower(current, root.up.node);
      }
      AdjustedIsRetargeted(root.up.node, current);
    }
  }

  /** The window is shown the original target; the standard shows it that only when the target is not in a
      shadow tree. */
  lemma WindowSeesOriginal(original: Node)
    ensures Retarget(original, Window) == original <==> !IsShadowRoot(Root(original))
  {
    if IsShadowRoot(Root(original)) {
      RootIsAncestor(original);
      AncestorLower(Root(original), original);
      RetargetLower(Root(original).up.node);
    }
  }

  lemma {:induction false} RetargetLower(n: Node)
    ensures Depth(Retarget(n, Window)) <= Depth(n)
    decreases Depth(n)
  {
    if IsShadowRoot(Root(n)) {
      RootIsAncestor(n);
      AncestorLower(Root(n), n);
      RetargetLower(Root(n).up.node);
    }
  }

  // ----- the path

  const CAPACITY: nat := 128

  /** The nodes an event reaches: it leaves a shadow tree only when it is composed. */
  ghost function Reach(n: Node, composed: bool): (r: seq<Node>)
    ensures r != [] && r[0] == n
  {
    match n.up
    case Nothing => [n]
    case Parent(p) => [n] + Reach(p, composed)
    case Host(h) => if composed then [n] + Reach(h, composed) else [n]
  }

  ghost function Take(nodes: seq<Node>, n: nat): seq<Node> { if |nodes| <= n then nodes else nodes[..n] }

  ghost function OfNodes(nodes: seq<Node>): (r: seq<Target>)
    ensures |r| == |nodes| && forall i :: 0 <= i < |r| ==> r[i] == OfNode(nodes[i])
  {
    seq(|nodes|, i requires 0 <= i < |nodes| => OfNode(nodes[i]))
  }

  /** The path of an event: at most 128 targets, the window last unless the event is a load or the path is
      full. The window is there even when the event stops at a shadow root. */
  ghost function Path(n: Node, composed: bool, isLoad: bool): (p: seq<Target>)
    ensures p != [] && p[0] == OfNode(n)
  {
    var nodes := Take(Reach(n, composed), CAPACITY);
    OfNodes(nodes) + if !isLoad && |nodes| < CAPACITY then [Window] else []
  }

  /** An event that is not composed and whose node is in a shadow tree. */
  ghost predicate StopsAtShadow(n: Node, composed: bool) {
    !composed && exists i :: 0 <= i < |Reach(n, composed)| && IsShadowRoot(Reach(n, composed)[i])
  }

  /** The window is on the path exactly when the event is no load and the path has room; stopping at a shadow
      root makes no difference, so the window is left off there only for those two other reasons. */
  lemma WindowOnPath(n: Node, composed: bool, isLoad: bool)
    ensures Window in Path(n, composed, isLoad) <==> !isLoad && |Reach(n, composed)| < 128
    ensures |Path(n, composed, isLoad)| <= 128
  {
    var nodes := Take(Reach(n, composed), CAPACITY);
    if !isLoad && |nodes| < CAPACITY { assert Path(n, composed, isLoad)[|nodes|] == Window; }
  }

  /** A path on which it does: that of a child of a shadow root. */
  lemma WindowPastShadow(n: Node)
    requires n.up.Parent? && IsShadowRoot(n.up.node)
    ensures StopsAtShadow(n, false) && Path(n, false, false) == [OfNode(n), OfNode(n.up.node), Window]
  {
    var r := Reach(n, false);
    assert Reach(n.up.node, false) == [n.up.node];
    assert r == [n, n.up.node] && IsShadowRoot(r[1]);
  }

  method BuildPath(target: Node, composed: bool, isLoad: bool) returns (path: seq<Target>, needsRetargeting: bool)
    ensures path == Path(target, composed, isLoad)
    ensures needsRetargeting <==> exists n :: OfNode(n) in path && IsShadowRoot(n)
  {
    var buffer := new Target[CAPACITY](i => Other);
    var pathLen := 0;
    needsRetargeting := false;
    var node := Some(target);
    ghost var nodes := Reach(target, composed);
    while node.Some?
      invariant 0 <= pathLen <= CAPACITY && pathLen <= |nodes| && nodes == Reach(target, composed)
      invariant node.Some? ==> pathLen < |nodes| && nodes[pathLen..] == Reach(node.value, composed)
      invariant node.None? ==> pathLen == |nodes|
      invariant forall i :: 0 <= i < pathLen ==> buffer[i] == OfNode(nodes[i])
      invariant needsRetargeting <==> exists i :: 0 <= i < pathLen && IsShadowRoot(nodes[i])
      decreases |nodes| - pathLen
    {
      if pathLen >= CAPACITY { break; }
      var n := node.value;
      assert nodes[pathLen] == nodes[pathLen..][0] == n;
      assert nodes[pathLen..][1..] == nodes[pathLen + 1..];
      buffer[pathLen] := OfNode(n);
      pathLen := pathLen + 1;
      match n.up
      case Host(h) =>
        needsRetargeting := true;
        node := if composed then Some(h) else None;
      case Parent(p) => node := Some(p);
      case Nothing => node := None;
    }
    assert buffer[..pathLen] == OfNodes(Take(nodes, CAPACITY));
    ghost var shadows := needsRetargeting;
    assert shadows <==> exists n :: OfNode(n) in buffer[..pathLen] && IsShadowRoot(n);
    if !isLoad && pathLen < CAPACITY {
      buffer[pathLen] := Window;
      pathLen := pathLen + 1;
    }
    path := buffer[..pathLen];
  }

  lemma {:induction false} ReachIsPrefix(n: Node, composed: bool)
    ensures Reach(n, composed) <= Chain(n)
    decreases n
  {
    match n.up
    case Nothing =>
    case Parent(p) => ReachIsPrefix(p, composed);
    case Host(h) => if composed { ReachIsPrefix(h, composed); }
  }

  lemma {:induction false} NoShadowBetween(n: Node, k: nat)
    requires k < |Chain(n)| && forall i :: 0 <= i < k ==> !IsShadowRoot(Chain(n)[i])
    ensures IsAncestor(Chain(n)[k], n)
    decreases n
  {
    if k > 0 {
      assert !IsShadowRoot(Chain(n)[0]);
      var p := n.up.node;
      assert Chain(n) == [n] + Chain(p);
      assert forall i :: 0 <= i < k - 1 ==> Chain(p)[i] == Chain(n)[i + 1];
      NoShadowBetween(p, k - 1);
    }
  }

  /** The target that a listener on `current` is shown; retargeting is skipped when no shadow root is on the path. */
  ghost function Shown(original: Node, current: Node, needsRetargeting: bool): Node {
    var lowest := Lowest(Chain(original), current);
    if needsRetargeting && lowest.Some? then lowest.value else original
  }

  /** Skipping it is sound: every node of the path is shown what the standard prescribes, in its own tree. */
  lemma ShownIsRetargeted(original: Node, composed: bool, isLoad: bool, current: Node)
    requires OfNode(current) in Path(original, composed, isLoad)
    ensures var shadows := exists n :: OfNode(n) in Path(original, composed, isLoad) && IsShadowRoot(n);
            && Shown(original, current, shadows) == Retarget(original, OfNode(current))
            && Root(Shown(original, current, shadows)) == Root(current)
  {
    hide Retarget, Root, Lowest, IsAncestor;
    var path, nodes := Path(original, composed, isLoad), Take(Reach(original, composed), CAPACITY);
    ReachIsPrefix(original, composed);
    var k :| 0 <= k < |path| && path[k] == OfNode(current);
    assert k < |nodes| && Chain(original)[k] == nodes[k] == current;
    AdjustedIsRetargeted(original, current);
    if !exists n :: OfNode(n) in path && IsShadowRoot(n) {
      assert forall i :: 0 <= i < k ==> path[i] == OfNode(Chain(original)[i]);
      assert forall i :: 0 <= i < k ==> path[i] in path && !IsShadowRoot(Chain(original)[i]);
      NoShadowBetween(original, k);
      LowestIsSelf(original, current);
    }
  }

  lemma LowestIsSelf(n: Node, current: Node)
    requires IsAncestor(current, n)
    ensures Lowest(Chain(n), current) == Some(n)
  {
  }

  // ----- the order of visits

  /** Whose listeners are called: the capturing ones of a target, both kinds, or the bubbling ones. */
  datatype Phase = Capturing | AtTarget | Bubbling

  /** A target considered in a phase, or the inline handler of the target. */
  datatype Visit = Visit(phase: Phase, target: Target) | Inline(target: Target)

  ghost function Captures(path: seq<Target>, n: nat): (v: seq<Visit>)
    requires n < |path|
    ensures |v| == n && forall i :: 0 <= i < n ==> v[i] == Visit(Capturing, path[|path| - 1 - i])
  {
    seq(n, i requires 0 <= i < n => Visit(Capturing, path[|path| - 1 - i]))
  }

  ghost function Bubbles(path: seq<Target>, n: nat): (v: seq<Visit>)
    requires n < |path|
    ensures |v| == n && forall i :: 0 <= i < n ==> v[i] == Visit(Bubbling, path[i + 1])
  {
    seq(n, i requires 0 <= i < n => Visit(Bubbling, path[i + 1]))
  }

  ghost function AtTheTarget(path: seq<Target>, inline: bool): seq<Visit>
    requires path != []
  {
    (if inline then [Inline(path[0])] else []) + [Visit(AtTarget, path[0])]
  }

  /** Down to the target, the target, and up again if the event bubbles. */
  ghost function Order(path: seq<Target>, inline: bool, bubbles: bool): seq<Visit>
    requires path != []
  {
    Captures(path, |path| - 1) + AtTheTarget(path, inline) + if bubbles then Bubbles(path, |path| - 1) else []
  }
}
