/** The walk that lists the content of a document. One path buffer is shared by the whole walk, grown on the
    way down and cut back on the way up; children are numbered per tag. Roles, names and visibility are
    given with each node. */
module SemanticTree {
  import opened Collections
  import R = Rfc3339

  /** `Root` stands for documents and fragments, `Comment` for everything that is never listed. */
  datatype Kind = Element(tag: string) | Text | Root | Comment

  /** `id` tells nodes apart that are equal otherwise. `skipped`: hidden, metadata, blank text and the like. `kept`:
      listed by the filter. `closed`: the visitor wants no children of it. */
  datatype Node = Node(id: nat, kind: Kind, skipped: bool, kept: bool, closed: bool, children: seq<Node>)

  /** The tag that children are counted under. Everything that is not an element shares one counter. */
  function Key(n: Node): string { if n.kind.Element? then n.kind.tag else "text()" }

  datatype Step = Step(key: string, index: nat)

  function Segment(n: Node, index: nat): seq<Step> {
    if n.kind.Element? || n.kind.Text? then [Step(Key(n), index)] else []
  }

  // ----- text of paths

  function Numeral(n: nat): (s: string)
    ensures s != [] && R.AllDigits(s)
  {
    if n < 10 then [R.Digit(n)] else Numeral(n / 10) + [R.Digit(n % 10)]
  }

  lemma {:induction false} NumberOfNumeral(n: nat)
    ensures R.Number(Numeral(n)) == n
  {
    if n < 10 {
      assert Numeral(n)[..0] == [];
    } else {
      NumberOfNumeral(n / 10);
      assert Numeral(n)[..|Numeral(n)| - 1] == Numeral(n / 10);
    }
  }

  function Bracketed(step: Step): string { step.key + "[" + Numeral(step.index) + "]" }

  function Render(steps: seq<Step>): string {
    if steps == [] then "" else Render(steps[..|steps| - 1]) + "/" + Bracketed(steps[|steps| - 1])
  }

  lemma {:induction false} RenderConcat(a: seq<Step>, b: seq<Step>)
    ensures Render(a + b) == Render(a) + Render(b)
    decreases |b|
  {
    hide Bracketed;
    if b == [] {
      assert a + b == a;
    } else {
      var n := |b| - 1;
      assert (a + b)[..|a + b| - 1] == a + b[..n] && (a + b)[|a + b| - 1] == b[n];
      RenderConcat(a, b[..n]);
      assert Render(a) + (Render(b[..n]) + "/" + Bracketed(b[n]))
          == (Render(a) + Render(b[..n])) + "/" + Bracketed(b[n]);
    }
  }

  // ----- the reference

  datatype Event = Visit(node: Node, steps: seq<Step>, indent: nat) | Leave

  /** Elements go by their tag, and everything else goes by one name. */
  predicate Named(kind: Kind, name: string) { name == if kind.Element? then kind.tag else "text()" }

  function Occurrences(children: seq<Node>, name: string): nat {
    if children == [] then 0
    else Occurrences(children[..|children| - 1], name) + if Named(children[|children| - 1].kind, name) then 1 else 0
  }

  ghost function Places(children: seq<Node>, name: string): set<nat> {
    set j: nat | j < |children| && Named(children[j].kind, name)
  }

  lemma PlacesGrow(children: seq<Node>, name: string)
    requires children != []
    ensures var n := |children| - 1;
            && n !in Places(children[..n], name)
            && Places(children, name)
               == Places(children[..n], name) + if Named(children[n].kind, name) then {n} else {}
  {
    hide Named;
  }

  /** That is how many of the children have the name. */
  lemma {:induction false} OccurrencesCount(children: seq<Node>, name: string)
    ensures Occurrences(children, name) == |Places(children, name)|
  {
    if children == [] {
      assert Places(children, name) == {};
    } else {
      PlacesGrow(children, name);
      OccurrencesCount(children[..|children| - 1], name);
    }
  }

  /** The number of a child among the children counted under its tag. */
  function Position(children: seq<Node>, i: nat): nat
    requires i < |children|
  {
    Occurrences(children[..i + 1], Key(children[i]))
  }

  /** The walk from a node: `steps` is the path above it, `indent` the number of listed nodes above it. */
  ghost function Trace(n: Node, steps: seq<Step>, index: nat, depth: nat, indent: nat, max: nat): seq<Event>
    decreases n, |n.children| + 1
  {
    if depth > max || n.skipped || n.kind.Comment? then []
    else
      var here := steps + Segment(n, index);
      if !n.kept then Below(n, here, 0, depth, indent, max)
      else [Visit(n, here, indent)] + (if n.closed then [] else Below(n, here, 0, depth, indent + 1, max)) + [Leave]
  }

  /** The walk through the children from the `i`th on. */
  ghost function Below(n: Node, here: seq<Step>, i: nat, depth: nat, indent: nat, max: nat): seq<Event>
    decreases n, |n.children| - i
  {
    if i >= |n.children| then []
    else
      Trace(n.children[i], here, Position(n.children, i), depth + 1, indent, max)
      + Below(n, here, i + 1, depth, indent, max)
  }

  /** What a node adds to the text of a path. */
  ghost function OwnText(kind: Kind, number: nat): string {
    match kind
    case Element(tag) => "/" + tag + "[" + Numeral(number) + "]"
    case Text => "/text()[" + Numeral(number) + "]"
    case _ => ""
  }

  // ----- the walk

  datatype Output = Open(path: string, indent: nat) | Close

  ghost function Shown(events: seq<Event>): seq<Output> {
    if events == [] then []
    else [if events[0].Leave? then Close else Open(Render(events[0].steps), events[0].indent)] + Shown(events[1..])
  }

  lemma {:induction false} ShownConcat(a: seq<Event>, b: seq<Event>)
    ensures Shown(a + b) == Shown(a) + Shown(b)
  {
    if a == [] {
      assert a + b == b;
    } else {
      assert (a + b)[1..] == a[1..] + b;
      ShownConcat(a[1..], b);
    }
  }

  class Walker {
    const max: nat
    var buffer: string
    var depth: nat
    var output: seq<Output>

    constructor (max: nat)
      ensures this.max == max && buffer == "" && depth == 0 && output == []
    {
      this.max := max;
      buffer, depth, output := "", 0, [];
    }

    method AppendSegment(n: Node, index: nat)
      modifies this`buffer
      ensures buffer == old(buffer) + Render(Segment(n, index)) == old(buffer) + OwnText(n.kind, index)
    {
      ghost var was := buffer;
      match n.kind
      case Element(tag) =>
        assert was + "/" + tag + "[" + Numeral(index) + "]" == was + ("/" + tag + "[" + Numeral(index) + "]");
        buffer := buffer + "/" + tag + "[" + Numeral(index) + "]";
        RenderOne(Step(tag, index));
      case Text =>
        assert was + "/text()[" + Numeral(index) + "]" == was + ("/text()[" + Numeral(index) + "]");
        buffer := buffer + "/text()[" + Numeral(index) + "]";
        RenderOne(Step("text()", index));
      case _ =>
        assert Render([]) == "";
    }

    lemma RenderOne(step: Step)
      ensures Render([step]) == "/" + step.key + "[" + Numeral(step.index) + "]"
    {
      assert [step][..0] == [];
    }

    method Visit()
      modifies this`output, this`depth
      ensures output == old(output) + [Open(buffer, old(depth))] && depth == old(depth) + 1
    {
      output := output + [Open(buffer, depth)];
      depth := depth + 1;
    }

    method Leave()
      modifies this`output, this`depth
      ensures output == old(output) + [Close] && depth == if old(depth) > 0 then old(depth) - 1 else 0
    {
      output := output + [Close];
      if depth > 0 { depth := depth - 1; }
    }

    /** The buffer and the indentation are on return what they were on entry, whichever way it returns. */
    method Walk(n: Node, index: nat, currentDepth: nat, ghost steps: seq<Step>)
      requires buffer == Render(steps)
      modifies this
      ensures buffer == old(buffer) && depth == old(depth)
      ensures output == old(output) + Shown(Trace(n, steps, index, currentDepth, old(depth), max))
      decreases n, |n.children| + 1
    {
      hide Trace, Below, Shown, Render, Segment;
      TraceNothing(n, steps, index, currentDepth, depth, max);
      if currentDepth > max || n.skipped || n.kind.Comment? {
        return;
      }
      var initialLen := |buffer|;
      AppendSegment(n, index);
      ghost var here, indent := steps + Segment(n, index), depth;
      RenderConcat(steps, Segment(n, index));
      TraceShown(n, steps, index, currentDepth, indent, max);
      if n.kept {
        Visit();
      }
      if !n.kept || !n.closed {
        WalkChildren(n, currentDepth, here);
      }
      if n.kept {
        Leave();
      }
      buffer := buffer[..initialLen];
    }

    /** Children are counted per tag as they come. */
    method WalkChildren(n: Node, currentDepth: nat, ghost here: seq<Step>)
      requires buffer == Render(here)
      modifies this
      ensures buffer == old(buffer) && depth == old(depth)
      ensures output == old(output) + Shown(Below(n, here, 0, currentDepth, old(depth), max))
      decreases n, |n.children|
    {
      hide Below, Shown, Trace, Render, Occurrences;
      var counts: map<string, nat> := map[];
      var i := 0;
      CountNothing(n.children);
      ghost var all := Below(n, here, 0, currentDepth, depth, max);
      while i < |n.children|
        invariant 0 <= i <= |n.children| && buffer == old(buffer) && depth == old(depth)
        invariant Counted(counts, n.children[..i])
        invariant old(output) + Shown(all) == output + Shown(Below(n, here, i, currentDepth, depth, max))
      {
        var child := n.children[i];
        var tag := Key(child);
        CountOne(counts, n.children, i);
        BelowShown(n, here, i, currentDepth, depth, max);
        if tag !in counts { counts := counts[tag := 0]; }
        counts := counts[tag := counts[tag] + 1];
        Walk(child, counts[tag], currentDepth + 1, here);
        i := i + 1;
      }
      BelowNothing(n, here, i, currentDepth, depth, max);
    }
  }

  function Count(counts: map<string, nat>, key: string): nat { if key in counts then counts[key] else 0 }

  ghost predicate Counted(counts: map<string, nat>, children: seq<Node>) {
    forall key :: Count(counts, key) == Occurrences(children, key)
  }

  lemma CountNothing(children: seq<Node>)
    ensures Counted(map[], children[..0])
  {
  }

  lemma CountOne(counts: map<string, nat>, children: seq<Node>, i: nat)
    requires i < |children| && Counted(counts, children[..i])
    ensures var tag := Key(children[i]);
            && Count(counts, tag) + 1 == Position(children, i)
            && Counted(counts[tag := Count(counts, tag) + 1], children[..i + 1])
  {
    var more, tag := children[..i + 1], Key(children[i]);
    assert more[..|more| - 1] == children[..i];
    forall key
      ensures Count(counts[tag := Count(counts, tag) + 1], key) == Occurrences(more, key)
    {
    }
  }

  lemma TraceNothing(n: Node, steps: seq<Step>, index: nat, depth: nat, indent: nat, max: nat)
    ensures depth > max || n.skipped || n.kind.Comment? ==> Shown(Trace(n, steps, index, depth, indent, max)) == []
  {
  }

  lemma TraceShown(n: Node, steps: seq<Step>, index: nat, depth: nat, indent: nat, max: nat)
    requires !(depth > max || n.skipped || n.kind.Comment?)
    ensures var here := steps + Segment(n, index);
            Shown(Trace(n, steps, index, depth, indent, max)) == (
              if !n.kept then Shown(Below(n, here, 0, depth, indent, max))
              else [Open(Render(here), indent)] + (if n.closed then []
                                                   else Shown(Below(n, here, 0, depth, indent + 1, max))) + [Close])
  {
    hide Below, Render, Segment;
    var here := steps + Segment(n, index);
    var below := if n.closed then [] else Below(n, here, 0, depth, indent + 1, max);
    ShownConcat([Visit(n, here, indent)] + below, [Leave]);
    ShownConcat([Visit(n, here, indent)], below);
    assert Shown([Visit(n, here, indent)]) == [Open(Render(here), indent)];
    assert Shown([Leave]) == [Close];
  }

  lemma BelowShown(n: Node, here: seq<Step>, i: nat, depth: nat, indent: nat, max: nat)
    requires i < |n.children|
    ensures Shown(Below(n, here, i, depth, indent, max))
         == Shown(Trace(n.children[i], here, Position(n.children, i), depth + 1, indent, max))
            + Shown(Below(n, here, i + 1, depth, indent, max))
  {
    ShownConcat(Trace(n.children[i], here, Position(n.children, i), depth + 1, indent, max),
                Below(n, here, i + 1, depth, indent, max));
  }

  lemma BelowNothing(n: Node, here: seq<Step>, i: nat, depth: nat, indent: nat, max: nat)
    requires i >= |n.children|
    ensures Shown(Below(n, here, i, depth, indent, max)) == []
  {
  }

  // ----- paths lead back

  /** The child that a step names. */
  ghost function Child(children: seq<Node>, step: Step): Option<Node> {
    if children == [] then None
    else
      var last := children[|children| - 1];
      if Named(last.kind, step.key) && Occurrences(children, step.key) == step.index then Some(last)
      else Child(children[..|children| - 1], step)
  }

  ghost function Resolve(n: Node, steps: seq<Step>): Option<Node>
    decreases |steps|
  {
    if steps == [] then Some(n)
    else
      var child := Child(n.children, steps[0]);
      if child.None? then None else Resolve(child.value, steps[1..])
  }

  /** Documents and fragments are only at the top, and tags hold no slash. */
  ghost predicate Proper(n: Node) {
    && (n.kind.Element? ==> '/' !in n.kind.tag)
    && forall i :: 0 <= i < |n.children| ==> !n.children[i].kind.Root? && Proper(n.children[i])
  }

  lemma {:induction false} OccurrencesGrow(children: seq<Node>, i: nat, j: nat, key: string)
    requires i <= j <= |children|
    ensures Occurrences(children[..i], key) <= Occurrences(children[..j], key)
    decreases j
  {
    if i < j {
      assert children[..j][..j - 1] == children[..j - 1];
      OccurrencesGrow(children, i, j - 1, key);
    }
  }

  /** A later child of the same tag has a higher number. */
  lemma PositionsDiffer(children: seq<Node>, i: nat, j: nat)
    requires i < j < |children| && Key(children[i]) == Key(children[j])
    ensures Position(children, i) < Position(children, j)
  {
    OccurrencesGrow(children, i + 1, j, Key(children[i]));
    assert children[..j + 1][..j] == children[..j];
  }

  lemma {:induction false} ChildFound(children: seq<Node>, i: nat, n: nat)
    requires i < n <= |children|
    ensures Child(children[..n], Step(Key(children[i]), Position(children, i))) == Some(children[i])
    decreases n
  {
    var most, step := children[..n], Step(Key(children[i]), Position(children, i));
    assert most[..n - 1] == children[..n - 1];
    if i < n - 1 {
      if Key(children[n - 1]) == step.key { PositionsDiffer(children, i, n - 1); }
      ChildFound(children, i, n - 1);
    }
  }

  /** Every node listed in a walk is found again by following its path from where the walk began. */
  ghost predicate Found(n: Node, here: seq<Step>, e: Event) {
    e.Visit? ==> here <= e.steps && Resolve(n, e.steps[|here|..]) == Some(e.node)
  }

  lemma {:induction false} TraceFound(n: Node, steps: seq<Step>, index: nat, depth: nat, indent: nat, max: nat,
                                      e: Event)
    requires Proper(n) && e in Trace(n, steps, index, depth, indent, max)
    ensures Found(n, steps + Segment(n, index), e)
    decreases n, |n.children| + 1
  {
    var here := steps + Segment(n, index);
    if e == Visit(n, here, indent) {
      assert here[|here|..] == [];
    } else if e.Visit? {
      BelowFound(n, here, 0, depth, if n.kept then indent + 1 else indent, max, e);
    }
  }

  lemma {:induction false} BelowFound(n: Node, here: seq<Step>, i: nat, depth: nat, indent: nat, max: nat, e: Event)
    requires Proper(n) && e in Below(n, here, i, depth, indent, max)
    ensures Found(n, here, e)
    ensures e.Visit? ==>
              && |here| < |e.steps|
              && exists j :: i <= j < |n.children|
                  && e.steps[|here|] == Step(Key(n.children[j]), Position(n.children, j))
    decreases n, |n.children| - i
  {
    var child := n.children[i];
    if e in Below(n, here, i + 1, depth, indent, max) {
      BelowFound(n, here, i + 1, depth, indent, max, e);
    } else if e.Visit? {
      var index := Position(n.children, i);
      TraceFound(child, here, index, depth + 1, indent, max, e);
      assert Segment(child, index) == [Step(Key(child), index)];
      assert n.children[..|n.children|] == n.children;
      ChildFound(n.children, i, |n.children|);
      var rest := e.steps[|here|..];
      assert rest[0] == Step(Key(child), index) && rest[1..] == e.steps[|here| + 1..];
    }
  }

  // ----- what the paths say

  /** A node below another, by the places of the children on the way. */
  ghost predicate OnTree(n: Node, route: seq<nat>)
    decreases |route|
  {
    route != [] ==> route[0] < |n.children| && OnTree(n.children[route[0]], route[1..])
  }

  ghost function At(n: Node, route: seq<nat>): Node
    requires OnTree(n, route)
    decreases |route|
  {
    if route == [] then n else At(n.children[route[0]], route[1..])
  }

  /** The number of a child among the elements of its tag, or among what is no element, from the first child to it. */
  ghost function NumberOf(children: seq<Node>, i: nat): nat
    requires i < |children|
  {
    Occurrences(children[..i + 1], if children[i].kind.Element? then children[i].kind.tag else "text()")
  }

  /** The path of a node: tag and number of each node on the way to it. */
  ghost function PathText(n: Node, number: nat, route: seq<nat>): string
    requires OnTree(n, route)
    decreases |route|
  {
    OwnText(n.kind, number)
    + if route == [] then "" else PathText(n.children[route[0]], NumberOf(n.children, route[0]), route[1..])
  }

  /** A node is listed that is kept, not too deep, and neither skipped nor below a node that is skipped or closed. */
  ghost predicate Listed(n: Node, route: seq<nat>, depth: nat, max: nat)
    requires OnTree(n, route)
    decreases |route|
  {
    && depth <= max && !n.skipped && !n.kind.Comment?
    && if route == [] then n.kept
       else !(n.kept && n.closed) && Listed(n.children[route[0]], route[1..], depth + 1, max)
  }

  /** How many of the nodes above are listed. */
  ghost function ListedAbove(n: Node, route: seq<nat>): nat
    requires OnTree(n, route)
    decreases |route|
  {
    if route == [] then 0 else (if n.kept then 1 else 0) + ListedAbove(n.children[route[0]], route[1..])
  }

  /** An event says where the node at the end of the route is. */
  ghost predicate Tells(e: Event, n: Node, number: nat, before: string, indent: nat, route: seq<nat>)
    requires OnTree(n, route)
  {
    && e.Visit? && e.node == At(n, route) && e.indent == indent + ListedAbove(n, route)
    && Render(e.steps) == before + PathText(n, number, route)
  }

  lemma SegmentText(n: Node, index: nat, steps: seq<Step>)
    ensures Render(steps + Segment(n, index)) == Render(steps) + OwnText(n.kind, index)
  {
    hide Render;
    RenderConcat(steps, Segment(n, index));
    RenderFirst(Step(Key(n), index));
    assert "/" + Key(n) + "[" + Numeral(index) + "]" == "/" + (Key(n) + "[" + Numeral(index) + "]");
  }

  lemma RenderFirst(step: Step)
    ensures Render([step]) == "/" + Bracketed(step) && Render([]) == ""
  {
    assert [step][..0] == [];
  }

  lemma PathHere(n: Node, number: nat)
    ensures PathText(n, number, []) == OwnText(n.kind, number)
  {
  }

  lemma PositionIsNumber(children: seq<Node>, i: nat)
    requires i < |children|
    ensures Position(children, i) == NumberOf(children, i)
  {
  }

  /** One node further up. */
  lemma TellsAbove(e: Event, n: Node, number: nat, before: string, indent: nat, j: nat, rest: seq<nat>)
    requires j < |n.children| && OnTree(n.children[j], rest)
    requires Tells(e, n.children[j], NumberOf(n.children, j), before + OwnText(n.kind, number),
                   if n.kept then indent + 1 else indent, rest)
    ensures OnTree(n, [j] + rest) && Tells(e, n, number, before, indent, [j] + rest)
  {
    hide Render, OwnText, NumberOf;
    var route, own, below := [j] + rest, OwnText(n.kind, number),
        PathText(n.children[j], NumberOf(n.children, j), rest);
    assert route[0] == j && route[1..] == rest;
    assert (before + own) + below == before + (own + below);
    assert PathText(n, number, route) == own + below;
  }

  lemma {:induction false} TraceTells(n: Node, steps: seq<Step>, index: nat, depth: nat, indent: nat, max: nat,
                                      e: Event) returns (route: seq<nat>)
    requires e in Trace(n, steps, index, depth, indent, max) && e.Visit?
    ensures OnTree(n, route) && Listed(n, route, depth, max) && Tells(e, n, index, Render(steps), indent, route)
    decreases n, |n.children| + 1
  {
    hide Render, PathText, Segment, OwnText, NumberOf;
    var here := steps + Segment(n, index);
    SegmentText(n, index, steps);
    if e == Visit(n, here, indent) && n.kept {
      route := [];
      PathHere(n, index);
    } else {
      var i, rest := BelowTells(n, here, 0, depth, if n.kept then indent + 1 else indent, max, e);
      route := [i] + rest;
      assert route[0] == i && route[1..] == rest;
      TellsAbove(e, n, index, Render(steps), indent, i, rest);
    }
  }

  lemma {:induction false} BelowTells(n: Node, here: seq<Step>, i: nat, depth: nat, indent: nat, max: nat, e: Event)
    returns (j: nat, route: seq<nat>)
    requires e in Below(n, here, i, depth, indent, max) && e.Visit?
    ensures j < |n.children| && OnTree(n.children[j], route) && Listed(n.children[j], route, depth + 1, max)
    ensures Tells(e, n.children[j], NumberOf(n.children, j), Render(here), indent, route)
    decreases n, |n.children| - i
  {
    hide Render, PathText, Trace, Tells;
    if e in Below(n, here, i + 1, depth, indent, max) {
      j, route := BelowTells(n, here, i + 1, depth, indent, max, e);
    } else {
      j := i;
      route := TraceTells(n.children[i], here, Position(n.children, i), depth + 1, indent, max, e);
    }
  }

  lemma {:induction false} TraceLists(n: Node, steps: seq<Step>, index: nat, depth: nat, indent: nat, max: nat,
                                      route: seq<nat>) returns (e: Event)
    requires OnTree(n, route) && Listed(n, route, depth, max)
    ensures e in Trace(n, steps, index, depth, indent, max) && Tells(e, n, index, Render(steps), indent, route)
    decreases |route|
  {
    hide Render, PathText, Segment, OwnText, NumberOf, Position, Below;
    var here := steps + Segment(n, index);
    SegmentText(n, index, steps);
    if route == [] {
      e := Visit(n, here, indent);
      PathHere(n, index);
    } else {
      var inner := if n.kept then indent + 1 else indent;
      var j := route[0];
      PositionIsNumber(n.children, j);
      assert route == [j] + route[1..];
      e := TraceLists(n.children[j], here, Position(n.children, j), depth + 1, inner, max, route[1..]);
      BelowHolds(n, here, 0, j, depth, inner, max, e);
      TellsAbove(e, n, index, Render(steps), indent, j, route[1..]);
    }
  }

  lemma {:induction false} BelowHolds(n: Node, here: seq<Step>, i: nat, j: nat, depth: nat, indent: nat, max: nat,
                                      e: Event)
    requires i <= j < |n.children|
    requires e in Trace(n.children[j], here, Position(n.children, j), depth + 1, indent, max)
    ensures e in Below(n, here, i, depth, indent, max)
    decreases j - i
  {
    hide Trace;
    if i < j { BelowHolds(n, here, i + 1, j, depth, indent, max, e); }
  }

  // ----- the order of the entries

  /** A node comes before those below it, and before the later children of a node above it and all below them. */
  predicate Before(r: seq<nat>, r': seq<nat>)
    decreases |r|
  {
    r' != [] && (r == [] || r[0] < r'[0] || (r[0] == r'[0] && Before(r[1..], r'[1..])))
  }

  ghost predicate InTurn(events: seq<Event>, a: Event, b: Event) {
    exists i, j :: 0 <= i < j < |events| && events[i] == a && events[j] == b
  }

  lemma InTurnWithin(x: seq<Event>, events: seq<Event>, z: seq<Event>, a: Event, b: Event)
    requires InTurn(events, a, b)
    ensures InTurn(x + events + z, a, b)
  {
    var i, j :| 0 <= i < j < |events| && events[i] == a && events[j] == b;
    assert (x + events + z)[|x| + i] == a && (x + events + z)[|x| + j] == b;
  }

  lemma InTurnAcross(x: seq<Event>, y: seq<Event>, a: Event, b: Event)
    requires a in x && b in y
    ensures InTurn(x + y, a, b)
  {
    var i :| 0 <= i < |x| && x[i] == a;
    var j :| 0 <= j < |y| && y[j] == b;
    assert (x + y)[i] == a && (x + y)[|x| + j] == b;
  }

  /** Two entries of one child, or of two, are in turn in what the walk through the children yields. */
  lemma {:induction false} BelowInTurn(n: Node, here: seq<Step>, i: nat, j: nat, k: nat, depth: nat, indent: nat,
                                       max: nat, a: Event, b: Event)
    requires i <= j <= k < |n.children|
    requires var first, second := Trace(n.children[j], here, Position(n.children, j), depth + 1, indent, max),
                                  Trace(n.children[k], here, Position(n.children, k), depth + 1, indent, max);
             if j == k then InTurn(first, a, b) else a in first && b in second
    ensures InTurn(Below(n, here, i, depth, indent, max), a, b)
    decreases j - i
  {
    hide Trace, Position;
    var first := Trace(n.children[i], here, Position(n.children, i), depth + 1, indent, max);
    var rest := Below(n, here, i + 1, depth, indent, max);
    if i < j {
      BelowInTurn(n, here, i + 1, j, k, depth, indent, max, a, b);
      InTurnWithin(first, rest, [], a, b);
      assert first + rest + [] == first + rest;
    } else if j < k {
      BelowHolds(n, here, i + 1, k, depth, indent, max, b);
      InTurnAcross(first, rest, a, b);
    } else {
      InTurnWithin([], first, rest, a, b);
      assert [] + first + rest == first + rest;
    }
  }

  lemma {:induction false} TraceInTurn(n: Node, steps: seq<Step>, index: nat, depth: nat, indent: nat, max: nat,
                                       r: seq<nat>, r': seq<nat>) returns (a: Event, b: Event)
    requires OnTree(n, r) && Listed(n, r, depth, max) && OnTree(n, r') && Listed(n, r', depth, max) && Before(r, r')
    ensures Tells(a, n, index, Render(steps), indent, r) && Tells(b, n, index, Render(steps), indent, r')
    ensures InTurn(Trace(n, steps, index, depth, indent, max), a, b)
    decreases |r|
  {
    hide Render, PathText, Segment, OwnText, NumberOf, Position, Below;
    var here, inner, k := steps + Segment(n, index), if n.kept then indent + 1 else indent, r'[0];
    SegmentText(n, index, steps);
    assert r' == [k] + r'[1..];
    PositionIsNumber(n.children, k);
    var below := Below(n, here, 0, depth, inner, max);
    if r == [] {
      PathHere(n, index);
      a := Visit(n, here, indent);
      b := TraceLists(n.children[k], here, Position(n.children, k), depth + 1, inner, max, r'[1..]);
      BelowHolds(n, here, 0, k, depth, inner, max, b);
      InTurnAcross([a], below + [Leave], a, b);
      assert [a] + (below + [Leave]) == [a] + below + [Leave];
    } else {
      var j := r[0];
      assert r == [j] + r[1..];
      PositionIsNumber(n.children, j);
      if j == k {
        a, b := TraceInTurn(n.children[j], here, Position(n.children, j), depth + 1, inner, max, r[1..], r'[1..]);
      } else {
        a := TraceLists(n.children[j], here, Position(n.children, j), depth + 1, inner, max, r[1..]);
        b := TraceLists(n.children[k], here, Position(n.children, k), depth + 1, inner, max, r'[1..]);
      }
      BelowInTurn(n, here, 0, j, k, depth, inner, max, a, b);
      InTurnWithin([Visit(n, here, indent)], below, [Leave], a, b);
      TellsAbove(a, n, index, Render(steps), indent, j, r[1..]);
    }
    TellsAbove(b, n, index, Render(steps), indent, k, r'[1..]);
  }

  // ----- paths tell nodes apart

  ghost predicate Apart(events: seq<Event>) {
    forall i, j :: 0 <= i < j < |events| && events[i].Visit? && events[j].Visit? ==> events[i].steps != events[j].steps
  }

  lemma ApartJoin(a: seq<Event>, b: seq<Event>)
    requires Apart(a) && Apart(b)
    requires forall x, y :: x in a && y in b && x.Visit? && y.Visit? ==> x.steps != y.steps
    ensures Apart(a + b)
  {
    var all := a + b;
    forall i, j | 0 <= i < j < |all| && all[i].Visit? && all[j].Visit?
      ensures all[i].steps != all[j].steps
    {
      if i < |a| && j >= |a| { assert all[i] in a && all[j] in b; }
    }
  }

  lemma {:induction false} TraceApart(n: Node, steps: seq<Step>, index: nat, depth: nat, indent: nat, max: nat)
    requires Proper(n)
    ensures Apart(Trace(n, steps, index, depth, indent, max))
    decreases n, |n.children| + 1
  {
    if !(depth > max || n.skipped || n.kind.Comment?) {
      var here, inner := steps + Segment(n, index), if n.kept then indent + 1 else indent;
      var below := if n.kept && n.closed then [] else Below(n, here, 0, depth, inner, max);
      BelowApart(n, here, 0, depth, inner, max);
      if n.kept {
        forall y | y in below && y.Visit?
          ensures here != y.steps
        {
          BelowFound(n, here, 0, depth, inner, max, y);
        }
        ApartJoin([Visit(n, here, indent)], below);
        ApartJoin([Visit(n, here, indent)] + below, [Leave]);
      }
    }
  }

  lemma {:induction false} BelowApart(n: Node, here: seq<Step>, i: nat, depth: nat, indent: nat, max: nat)
    requires Proper(n)
    ensures Apart(Below(n, here, i, depth, indent, max))
    decreases n, |n.children| - i
  {
    if i < |n.children| {
      var child, index := n.children[i], Position(n.children, i);
      var first, rest := Trace(child, here, index, depth + 1, indent, max), Below(n, here, i + 1, depth, indent, max);
      TraceApart(child, here, index, depth + 1, indent, max);
      BelowApart(n, here, i + 1, depth, indent, max);
      forall x, y | x in first && y in rest && x.Visit? && y.Visit?
        ensures x.steps != y.steps
      {
        TraceFound(child, here, index, depth + 1, indent, max, x);
        BelowFound(n, here, i + 1, depth, indent, max, y);
        var j :| i + 1 <= j < |n.children| && y.steps[|here|] == Step(Key(n.children[j]), Position(n.children, j));
        assert Segment(child, index) == [Step(Key(child), index)];
        assert x.steps[|here|] == Step(Key(child), index);
        if Key(child) == Key(n.children[j]) { PositionsDiffer(n.children, i, j); }
      }
      ApartJoin(first, rest);
    }
  }

  // ----- different steps are different text

  lemma Overlap(p: string, x: string, q: string, y: string, c: char)
    requires p + [c] + x == q + [c] + y && |p| < |q|
    ensures c in x
  {
    var s := p + [c] + x;
    assert s[|q|] == x[|q| - |p| - 1] && (q + [c] + y)[|q|] == c;
  }

  lemma SplitUnique(p: string, x: string, q: string, y: string, c: char)
    requires c !in x && c !in y && p + [c] + x == q + [c] + y
    ensures p == q && x == y
  {
    if |p| < |q| {
      Overlap(p, x, q, y, c);
    } else if |q| < |p| {
      Overlap(q, y, p, x, c);
    } else {
      var s, t := p + [c] + x, q + [c] + y;
      assert p == s[..|p|] && q == t[..|p|] && x == s[|p| + 1..] && y == t[|p| + 1..];
    }
  }

  predicate Clean(steps: seq<Step>) { forall i :: 0 <= i < |steps| ==> '/' !in steps[i].key }

  lemma BracketedUnique(a: Step, b: Step)
    requires Bracketed(a) == Bracketed(b)
    ensures a == b
  {
    var x, y := Numeral(a.index) + "]", Numeral(b.index) + "]";
    assert Bracketed(a) == a.key + ['['] + x && Bracketed(b) == b.key + ['['] + y;
    SplitUnique(a.key, x, b.key, y, '[');
    assert x[..|x| - 1] == Numeral(a.index) && y[..|y| - 1] == Numeral(b.index);
    NumberOfNumeral(a.index);
    NumberOfNumeral(b.index);
  }

  lemma BracketedClean(step: Step)
    requires '/' !in step.key
    ensures '/' !in Bracketed(step)
  {
  }

  lemma RenderLast(steps: seq<Step>)
    ensures Render([]) == ""
    ensures steps != [] ==> Render(steps) == Render(steps[..|steps| - 1]) + ['/'] + Bracketed(steps[|steps| - 1])
  {
    hide Bracketed;
  }

  lemma {:induction false} RenderUnique(a: seq<Step>, b: seq<Step>)
    requires Clean(a) && Clean(b) && Render(a) == Render(b)
    ensures a == b
    decreases |a|
  {
    hide Render, Bracketed;
    RenderLast(a);
    RenderLast(b);
    if a == [] || b == [] {
    } else {
      var m, n := |a| - 1, |b| - 1;
      BracketedClean(a[m]);
      BracketedClean(b[n]);
      SplitUnique(Render(a[..m]), Bracketed(a[m]), Render(b[..n]), Bracketed(b[n]), '/');
      BracketedUnique(a[m], b[n]);
      RenderUnique(a[..m], b[..n]);
      assert a == a[..m] + [a[m]] && b == b[..n] + [b[n]];
    }
  }

  lemma {:induction false} TraceClean(n: Node, steps: seq<Step>, index: nat, depth: nat, indent: nat, max: nat,
                                      e: Event)
    requires Proper(n) && Clean(steps) && e in Trace(n, steps, index, depth, indent, max) && e.Visit?
    ensures Clean(e.steps)
    decreases n, |n.children| + 1
  {
    var here := steps + Segment(n, index);
    if e != Visit(n, here, indent) { BelowClean(n, here, 0, depth, if n.kept then indent + 1 else indent, max, e); }
  }

  lemma {:induction false} BelowClean(n: Node, here: seq<Step>, i: nat, depth: nat, indent: nat, max: nat, e: Event)
    requires Proper(n) && Clean(here) && e in Below(n, here, i, depth, indent, max) && e.Visit?
    ensures Clean(e.steps)
    decreases n, |n.children| - i
  {
    if e in Below(n, here, i + 1, depth, indent, max) {
      BelowClean(n, here, i + 1, depth, indent, max, e);
    } else {
      TraceClean(n.children[i], here, Position(n.children, i), depth + 1, indent, max, e);
    }
  }

  // ----- the whole listing

  lemma {:induction false} ShownAt(events: seq<Event>, i: nat)
    requires i < |events|
    ensures |Shown(events)| == |events|
    ensures Shown(events)[i] == if events[i].Leave? then Close else Open(Render(events[i].steps), events[i].indent)
  {
    if |events| > 1 { ShownAt(events[1..], if i > 0 then i - 1 else 0); }
  }

  ghost function Listing(n: Node, max: nat): seq<Output> { Shown(Trace(n, [], 1, 0, 0, max)) }

  lemma ListingIs(n: Node, max: nat)
    ensures |Listing(n, max)| == |Trace(n, [], 1, 0, 0, max)|
  {
    var events := Trace(n, [], 1, 0, 0, max);
    if events != [] { ShownAt(events, 0); }
  }

  /** Every entry of a listing is that of a node to be listed: its path spells tag and number of each node on the way,
      and its indentation counts the listed nodes above. */
  lemma EntryIsListed(n: Node, max: nat, i: nat) returns (route: seq<nat>)
    requires i < |Listing(n, max)| && Listing(n, max)[i].Open?
    ensures OnTree(n, route) && Listed(n, route, 0, max)
    ensures Listing(n, max)[i] == Open(PathText(n, 1, route), ListedAbove(n, route))
  {
    hide Trace, PathText;
    ListingIs(n, max);
    ShownAt(Trace(n, [], 1, 0, 0, max), i);
    route := TraceTells(n, [], 1, 0, 0, max, Trace(n, [], 1, 0, 0, max)[i]);
  }

  /** Every node to be listed has an entry. */
  lemma ListedHasEntry(n: Node, max: nat, route: seq<nat>) returns (i: nat)
    requires OnTree(n, route) && Listed(n, route, 0, max)
    ensures i < |Listing(n, max)| && Listing(n, max)[i] == Open(PathText(n, 1, route), ListedAbove(n, route))
    ensures i < |Trace(n, [], 1, 0, 0, max)| && Trace(n, [], 1, 0, 0, max)[i].Visit?
            && Trace(n, [], 1, 0, 0, max)[i].node == At(n, route)
  {
    hide Trace, PathText;
    var e := TraceLists(n, [], 1, 0, 0, max, route);
    ListingIs(n, max);
    i :| 0 <= i < |Trace(n, [], 1, 0, 0, max)| && Trace(n, [], 1, 0, 0, max)[i] == e;
    ShownAt(Trace(n, [], 1, 0, 0, max), i);
  }

  /** The entries are in document order. */
  lemma ListedInOrder(n: Node, max: nat, r: seq<nat>, r': seq<nat>) returns (i: nat, j: nat)
    requires OnTree(n, r) && Listed(n, r, 0, max) && OnTree(n, r') && Listed(n, r', 0, max) && Before(r, r')
    ensures i < j < |Listing(n, max)|
    ensures Listing(n, max)[i] == Open(PathText(n, 1, r), ListedAbove(n, r))
    ensures Listing(n, max)[j] == Open(PathText(n, 1, r'), ListedAbove(n, r'))
  {
    hide Trace, PathText;
    var events := Trace(n, [], 1, 0, 0, max);
    var a, b := TraceInTurn(n, [], 1, 0, 0, max, r, r');
    ListingIs(n, max);
    i, j :| 0 <= i < j < |events| && events[i] == a && events[j] == b;
    ShownAt(events, i);
    ShownAt(events, j);
  }

  /** No two listed nodes have the same path text. */
  lemma PathsDiffer(n: Node, max: nat, i: nat, j: nat)
    requires Proper(n) && i < j < |Listing(n, max)| && Listing(n, max)[i].Open? && Listing(n, max)[j].Open?
    ensures Listing(n, max)[i].path != Listing(n, max)[j].path
  {
    hide Trace, Proper, Render;
    var events := Trace(n, [], 1, 0, 0, max);
    ListingIs(n, max);
    ShownAt(events, i);
    ShownAt(events, j);
    TraceApart(n, [], 1, 0, 0, max);
    TraceClean(n, [], 1, 0, 0, max, events[i]);
    TraceClean(n, [], 1, 0, 0, max, events[j]);
    if Render(events[i].steps) == Render(events[j].steps) { RenderUnique(events[i].steps, events[j].steps); }
  }

  /** The path text of a listed node spells steps, and only those steps, that lead to it from the start. */
  lemma PathsLeadBack(n: Node, max: nat, i: nat) returns (steps: seq<Step>)
    requires Proper(n) && i < |Listing(n, max)| && Listing(n, max)[i].Open?
    ensures Listing(n, max)[i].path == Render(Segment(n, 1) + steps)
    ensures i < |Trace(n, [], 1, 0, 0, max)| && Trace(n, [], 1, 0, 0, max)[i].Visit?
    ensures Resolve(n, steps) == Some(Trace(n, [], 1, 0, 0, max)[i].node)
    ensures forall other :: Clean(other) && Render(other) == Listing(n, max)[i].path ==> other == Segment(n, 1) + steps
  {
    hide Trace, Proper, Render;
    var events := Trace(n, [], 1, 0, 0, max);
    ListingIs(n, max);
    ShownAt(events, i);
    var e := events[i];
    TraceFound(n, [], 1, 0, 0, max, e);
    TraceClean(n, [], 1, 0, 0, max, e);
    var own := [] + Segment(n, 1);
    assert own == Segment(n, 1);
    steps := e.steps[|own|..];
    assert e.steps == own + steps;
    forall other | Clean(other) && Render(other) == Render(e.steps)
      ensures other == e.steps
    {
      RenderUnique(other, e.steps);
    }
  }

  /** Reads a listing keeping count of open entries: each must be indented by that count, and no close may
      come without an open. */
  ghost function Scan(output: seq<Output>, open: nat): Option<nat> {
    if output == [] then Some(open)
    else match output[0]
      case Open(_, indent) => if indent == open then Scan(output[1..], open + 1) else None
      case Close => if open > 0 then Scan(output[1..], open - 1) else None
  }

  lemma {:induction false} ScanConcat(a: seq<Output>, b: seq<Output>, open: nat)
    requires Scan(a, open).Some?
    ensures Scan(a + b, open) == Scan(b, Scan(a, open).value)
    decreases |a|
  {
    if a == [] {
      assert a + b == b;
    } else {
      assert (a + b)[1..] == a[1..] + b;
      ScanConcat(a[1..], b, if a[0].Open? then open + 1 else open - 1);
    }
  }

  lemma {:induction false} TraceBalanced(n: Node, steps: seq<Step>, index: nat, depth: nat, indent: nat, max: nat)
    ensures Scan(Shown(Trace(n, steps, index, depth, indent, max)), indent) == Some(indent)
    decreases n, |n.children| + 1
  {
    hide Trace, Below, Shown;
    TraceNothing(n, steps, index, depth, indent, max);
    if !(depth > max || n.skipped || n.kind.Comment?) {
      TraceShown(n, steps, index, depth, indent, max);
      var here := steps + Segment(n, index);
      BelowBalanced(n, here, 0, depth, if n.kept then indent + 1 else indent, max);
      if n.kept {
        var below := if n.closed then [] else Shown(Below(n, here, 0, depth, indent + 1, max));
        Wrapped(Open(Render(here), indent), below, indent);
      }
    }
  }

  lemma Wrapped(first: Output, below: seq<Output>, indent: nat)
    requires first.Open? && first.indent == indent && Scan(below, indent + 1) == Some(indent + 1)
    ensures Scan([first] + below + [Close], indent) == Some(indent)
  {
    assert [first][1..] == [] && [Close][1..] == [];
    assert Scan([first], indent) == Some(indent + 1);
    assert Scan([Close], indent + 1) == Some(indent);
    ScanConcat([first], below, indent);
    ScanConcat([first] + below, [Close], indent);
  }

  lemma {:induction false} BelowBalanced(n: Node, here: seq<Step>, i: nat, depth: nat, indent: nat, max: nat)
    ensures Scan(Shown(Below(n, here, i, depth, indent, max)), indent) == Some(indent)
    decreases n, |n.children| - i
  {
    hide Trace, Below, Shown;
    if i >= |n.children| {
      BelowNothing(n, here, i, depth, indent, max);
    } else {
      TraceBalanced(n.children[i], here, Position(n.children, i), depth + 1, indent, max);
      BelowBalanced(n, here, i + 1, depth, indent, max);
      BelowShown(n, here, i, depth, indent, max);
      ScanConcat(Shown(Trace(n.children[i], here, Position(n.children, i), depth + 1, indent, max)),
                 Shown(Below(n, here, i + 1, depth, indent, max)), indent);
    }
  }

  /** Opens and closes match, and every entry is indented by the number of entries open around it. */
  lemma ListingBalanced(n: Node, max: nat)
    ensures Scan(Listing(n, max), 0) == Some(0)
  {
    TraceBalanced(n, [], 1, 0, 0, max);
  }

  method List(n: Node, max: nat) returns (output: seq<Output>)
    ensures output == Listing(n, max)
  {
    var walker := new Walker(max);
    assert Render([]) == "";
    walker.Walk(n, 1, 0, []);
    output := walker.output;
  }

  // ----- an example

  function Tagged(id: nat, tag: string, children: seq<Node>): Node {
    Node(id, Element(tag), false, true, false, children)
  }

  /** The entries of an element and of one of its children. */
  lemma EntryOfChild(n: Node, j: nat, number: nat, max: nat)
    requires max > 0 && n.kept && !n.skipped && !n.kind.Comment? && !n.closed && j < |n.children|
    requires n.children[j].kept && !n.children[j].skipped && n.children[j].kind.Element?
    requires Occurrences(n.children[..j + 1], n.children[j].kind.tag) == number
    ensures Open(OwnText(n.kind, 1), 0) in Listing(n, max)
    ensures Open(OwnText(n.kind, 1) + OwnText(n.children[j].kind, number), 1) in Listing(n, max)
  {
    hide Listing, OwnText, Occurrences, Trace;
    PathHere(n, 1);
    PathHere(n.children[j], number);
    var own := ListedHasEntry(n, max, []);
    assert [j][1..] == [];
    var below := ListedHasEntry(n, max, [j]);
  }

  /** A division that holds a paragraph, a span and another paragraph, which is the second of its tag. */
  lemma PathsOfDivision(max: nat)
    requires max > 0
    ensures var division := Tagged(0, "div", [Tagged(1, "p", []), Tagged(2, "span", []), Tagged(3, "p", [])]);
            && Open("/div[1]", 0) in Listing(division, max) && Open("/div[1]/p[1]", 1) in Listing(division, max)
            && Open("/div[1]/span[1]", 1) in Listing(division, max)
            && Open("/div[1]/p[2]", 1) in Listing(division, max)
  {
    hide Listing;
    var children := [Tagged(1, "p", []), Tagged(2, "span", []), Tagged(3, "p", [])];
    var division := Tagged(0, "div", children);
    assert children[..1][..0] == [] && children[..2][..1] == children[..1] && children[..3][..2] == children[..2];
    assert Occurrences(children[..1], "p") == 1 && Occurrences(children[..1], "span") == 0;
    assert Occurrences(children[..2], "p") == 1 && Occurrences(children[..2], "span") == 1;
    assert Occurrences(children[..3], "p") == 2;
    EntryOfChild(division, 0, 1, max);
    EntryOfChild(division, 1, 1, max);
    EntryOfChild(division, 2, 2, max);
    TextsOfDivision();
  }

  lemma TextsOfDivision()
    ensures OwnText(Element("div"), 1) == "/div[1]" && OwnText(Element("div"), 1) + OwnText(Element("p"), 1)
                                                       == "/div[1]/p[1]"
    ensures OwnText(Element("div"), 1) + OwnText(Element("span"), 1) == "/div[1]/span[1]"
    ensures OwnText(Element("div"), 1) + OwnText(Element("p"), 2) == "/div[1]/p[2]"
  {
    assert Numeral(1) == "1" && Numeral(2) == "2";
    assert OwnText(Element("div"), 1) == "/div[1]";
    assert OwnText(Element("p"), 1) == "/p[1]" && OwnText(Element("p"), 2) == "/p[2]";
    assert OwnText(Element("span"), 1) == "/span[1]";
  }
}
