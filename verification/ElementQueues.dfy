/** Custom element reactions as section 4.13.6 of the HTML Standard has them, and when the flat array fires in the
    same order. There a scope holds a queue of elements and every element a queue of reactions; invoking an element
    fires all its reactions, whichever scope they were enqueued in. */
module ElementQueues {
  import opened CustomElementReactions

  type Element = nat

  /** `pending` holds the reaction queues of all elements, oldest reaction first; the queue of one element is its
      part of that. A scope is off the stack when its elements are invoked. */
  datatype Standard = Standard(stack: seq<seq<Element>>, backup: seq<Element>, pending: seq<Reaction>,
                               log: seq<Reaction>)

  /** The reaction queue of an element. */
  ghost function Queue(pending: seq<Reaction>, e: Element): seq<Reaction> {
    if pending == [] then []
    else if pending[0].element == e then [pending[0]] + Queue(pending[1..], e)
    else Queue(pending[1..], e)
  }

  /** What is pending once the first reaction of an element is taken. */
  ghost function Rest(pending: seq<Reaction>, e: Element): (r: seq<Reaction>)
    requires Queue(pending, e) != []
    ensures Weight(r) + 1 + Size(Queue(pending, e)[0].body) == Weight(pending)
  {
    if pending[0].element == e then pending[1..] else [pending[0]] + Rest(pending[1..], e)
  }

  /** Taking it shortens that element's queue by its head and no other's. */
  lemma {:induction false} RestTakesHead(pending: seq<Reaction>, e: Element, other: Element)
    requires Queue(pending, e) != []
    ensures Queue(Rest(pending, e), other) == if other == e then Queue(pending, e)[1..] else Queue(pending, other)
  {
    if pending[0].element != e {
      RestTakesHead(pending[1..], e, other);
      var rest := Rest(pending[1..], e);
      assert ([pending[0]] + rest)[1..] == rest;
    }
  }

  /** Enqueueing lengthens one element's queue and no other's. */
  lemma {:induction false} QueueConcat(a: seq<Reaction>, b: seq<Reaction>, e: Element)
    ensures Queue(a + b, e) == Queue(a, e) + Queue(b, e)
  {
    if a == [] {
      assert a + b == b;
    } else {
      assert (a + b)[1..] == a[1..] + b;
      QueueConcat(a[1..], b, e);
    }
  }

  ghost function Current(t: Standard): seq<Element> { if t.stack == [] then [] else t.stack[|t.stack| - 1] }

  ghost function Popped(t: Standard): Standard { if t.stack == [] then t else t.(stack := t.stack[..|t.stack| - 1]) }

  /** Elements join the current element queue, or the backup element queue. */
  ghost function Joined(t: Standard, elements: seq<Element>): Standard {
    if t.stack == [] then t.(backup := t.backup + elements)
    else t.(stack := t.stack[..|t.stack| - 1] + [Current(t) + elements])
  }

  /** The reaction joins its element's queue and the element the current element queue. */
  ghost function Enqueued(t: Standard, r: Reaction): Standard {
    Joined(t, [r.element]).(pending := t.pending + [r])
  }

  ghost function Steps(script: Script): nat {
    match script
    case Done => 0
    case Enqueue(_, rest) => 1 + Steps(rest)
    case Scope(_, rest) => 1 + Steps(rest)
  }

  /** Running a callback. A scope pushes an element queue, and pops and invokes it when it closes. */
  ghost function RunStandard(t: Standard, script: Script): (u: Standard)
    ensures |u.stack| == |t.stack| && t.log <= u.log
    ensures Weight(u.pending) <= Weight(t.pending) + Size(script)
    decreases Weight(t.pending) + Size(script), Steps(script)
  {
    match script
    case Done => t
    case Enqueue(r, rest) =>
      WeightConcat(t.pending, [r]);
      RunStandard(Enqueued(t, r), rest)
    case Scope(inner, rest) =>
      var body := RunStandard(t.(stack := t.stack + [[]]), inner);
      RunStandard(Invoke(Popped(body), Current(body)), rest)
  }

  /** Invokes the elements of a queue one after the other. */
  ghost function Invoke(t: Standard, elements: seq<Element>): (u: Standard)
    ensures |u.stack| == |t.stack| && t.log <= u.log && Weight(u.pending) <= Weight(t.pending)
    decreases Weight(t.pending), 1 + |elements|
  {
    if elements == [] then t else Invoke(Emptied(t, elements[0]), elements[1..])
  }

  /** Fires the reactions of an element until its queue is empty. */
  ghost function Emptied(t: Standard, e: Element): (u: Standard)
    ensures |u.stack| == |t.stack| && t.log <= u.log && Weight(u.pending) <= Weight(t.pending)
            && Queue(u.pending, e) == []
    decreases Weight(t.pending), 0
  {
    if Queue(t.pending, e) == [] then t
    else Emptied(RunStandard(TakenFrom(t, e), Queue(t.pending, e)[0].body), e)
  }

  ghost function TakenFrom(t: Standard, e: Element): Standard
    requires Queue(t.pending, e) != []
  {
    t.(pending := Rest(t.pending, e), log := t.log + [Queue(t.pending, e)[0]])
  }

  // ----- when the flat array fires in the same order

  /** What a callback adds to the current element queue: the elements of what it enqueues, and of what the callbacks do
      that fire when its scopes close. */
  ghost function Joining(script: Script): seq<Element>
    decreases Size(script), 1
  {
    match script
    case Done => []
    case Enqueue(r, rest) => [r.element] + Joining(rest)
    case Scope(inner, rest) =>
      DirectWeight(inner);
      JoiningOf(Direct(inner)) + Joining(rest)
  }

  ghost function JoiningOf(queue: seq<Reaction>): seq<Element>
    decreases Weight(queue), 0
  {
    if queue == [] then []
    else
      NextWeight(queue);
      Joining(queue[0].body) + JoiningOf(NextQueue(queue))
  }

  /** A run in which every scope that closes fires alike; `pending` is what is enqueued and not fired at the start. */
  ghost predicate Follows(script: Script, pending: seq<Reaction>)
    decreases Size(script), 1, 0
  {
    match script
    case Done => true
    case Enqueue(r, rest) => Follows(rest, pending + [r])
    case Scope(inner, rest) =>
      DirectWeight(inner);
      Follows(inner, pending) && FollowsQueue(Joining(inner), Direct(inner), pending) && Follows(rest, pending)
  }

  /** The reactions of a closing scope, in the order of the array, and its elements, in the order of the standard;
      `held` is what is pending elsewhere. The next element is that of the next reaction and has nothing pending
      elsewhere, or it has nothing pending at all; and when the reactions are done no element has any left. What a
      callback enqueues directly comes last in the array, so its element must still be to come, or to be finished, and
      come last too. */
  ghost predicate FollowsQueue(elements: seq<Element>, queue: seq<Reaction>, held: seq<Reaction>)
    decreases Weight(queue), 0, |elements|
  {
    if queue == [] then forall e :: e in elements ==> Queue(held, e) == []
    else
      NextWeight(queue);
      elements != [] &&
      if elements[0] != queue[0].element then
        Queue(held + queue, elements[0]) == [] && FollowsQueue(elements[1..], queue, held)
      else
        && Queue(held, elements[0]) == []
        && Follows(queue[0].body, held + queue[1..])
        && FollowsQueue(elements, NextQueue(queue), held)
  }

  lemma QueueFront(held: seq<Reaction>, queue: seq<Reaction>)
    requires queue != [] && Queue(held, queue[0].element) == []
    ensures var e := queue[0].element;
            && Queue(held + queue, e) != [] && Queue(held + queue, e)[0] == queue[0]
            && Rest(held + queue, e) == held + queue[1..]
  {
    var e := queue[0].element;
    QueueConcat(held, queue, e);
    RestSkips(held, queue);
  }

  lemma {:induction false} RestSkips(held: seq<Reaction>, queue: seq<Reaction>)
    requires queue != [] && Queue(held, queue[0].element) == [] && Queue(held + queue, queue[0].element) != []
    ensures Rest(held + queue, queue[0].element) == held + queue[1..]
  {
    if held == [] {
      assert held + queue == queue && held + queue[1..] == queue[1..];
    } else {
      assert (held + queue)[1..] == held[1..] + queue && (held + queue)[0] == held[0];
      RestSkips(held[1..], queue);
      assert [held[0]] + (held[1..] + queue[1..]) == held + queue[1..];
    }
  }

  lemma JoinedTwice(t: Standard, a: seq<Element>, b: seq<Element>)
    ensures Joined(Joined(t, a), b) == Joined(t, a + b)
  {
    assert (t.backup + a) + b == t.backup + (a + b);
    if t.stack != [] {
      assert (Current(t) + a) + b == Current(t) + (a + b);
      assert Joined(t, a).stack[..|t.stack| - 1] == t.stack[..|t.stack| - 1];
    }
  }

  lemma JoinedNothing(t: Standard)
    ensures Joined(t, []) == t
  {
    assert t.backup + [] == t.backup;
    if t.stack != [] {
      assert Current(t) + [] == Current(t) && t.stack == t.stack[..|t.stack| - 1] + [Current(t)];
    }
  }

  /** What a run leaves: elements that have joined, reactions that are pending, and what has fired. */
  ghost function Left(t: Standard, joining: seq<Element>, left: seq<Reaction>, fired: seq<Reaction>): Standard {
    Joined(t, joining).(pending := t.pending + left, log := t.log + fired)
  }

  lemma LeftNothing(t: Standard)
    ensures Left(t, [], [], []) == t
  {
    JoinedNothing(t);
    assert t.pending + [] == t.pending && t.log + [] == t.log;
  }

  lemma LeftTwice(t: Standard, a: seq<Element>, b: seq<Element>, left: seq<Reaction>, more: seq<Reaction>,
                  fired: seq<Reaction>, later: seq<Reaction>)
    ensures Left(Left(t, a, left, fired), b, more, later) == Left(t, a + b, left + more, fired + later)
  {
    hide Joined;
    JoinedIs(t, a);
    JoinedIs(t, a + b);
    JoinedIs(Left(t, a, left, fired), b);
    JoinedTwice(t, a, b);
    JoinedKeeps(Joined(t, a), t.pending + left, t.log + fired, b);
    assert (t.pending + left) + more == t.pending + (left + more) && (t.log + fired) + later == t.log + (fired + later);
  }

  lemma JoinedIs(t: Standard, a: seq<Element>)
    ensures Joined(t, a).pending == t.pending && Joined(t, a).log == t.log
  {
  }

  lemma JoinedKeeps(t: Standard, pending: seq<Reaction>, log: seq<Reaction>, a: seq<Element>)
    ensures Joined(t.(pending := pending, log := log), a) == Joined(t, a).(pending := pending, log := log)
  {
  }

  /** Such a run fires what the array fires, in the same order and in the same scopes, whatever the callbacks are. */
  lemma {:induction false} FollowsRun(t: Standard, script: Script)
    requires Follows(script, t.pending)
    ensures RunStandard(t, script) == Left(t, Joining(script), Direct(script), Fired(script))
    decreases Size(script), 1, 0
  {
    hide Joined, Invoke, Left, FollowsQueue, FiredOf, JoiningOf;
    match script
    case Done => LeftNothing(t);
    case Enqueue(r, rest) =>
      EnqueuedLeft(t, r);
      FollowsRun(Enqueued(t, r), rest);
      LeftTwice(t, [r.element], Joining(rest), [r], Direct(rest), [], Fired(rest));
      assert [] + Fired(rest) == Fired(rest);
    case Scope(inner, rest) => FollowsScope(t, inner, rest);
  }

  lemma EnqueuedLeft(t: Standard, r: Reaction)
    ensures Enqueued(t, r) == Left(t, [r.element], [r], []) && Enqueued(t, r).pending == t.pending + [r]
  {
    assert t.log + [] == t.log;
  }

  lemma {:induction false} FollowsScope(t: Standard, inner: Script, rest: Script)
    requires Follows(Scope(inner, rest), t.pending)
    ensures RunStandard(t, Scope(inner, rest))
         == Left(t, Joining(Scope(inner, rest)), Direct(Scope(inner, rest)), Fired(Scope(inner, rest)))
    decreases Size(Scope(inner, rest)), 0, 0
  {
    hide Joined, Invoke, Left, FollowsQueue, FiredOf, JoiningOf, Fired, Joining, Direct;
    var start, queue := t.(stack := t.stack + [[]]), Direct(inner);
    DirectWeight(inner);
    FollowsRun(start, inner);
    OpenLeft(t, Joining(inner), queue, Fired(inner));
    var popped := t.(pending := t.pending + queue, log := t.log + Fired(inner));
    FollowsInvoke(popped, Joining(inner), queue, t.pending);
    var closed := Left(t, JoiningOf(queue), [], Fired(inner) + FiredOf(queue));
    ClosedLeft(t, queue, JoiningOf(queue), Fired(inner), FiredOf(queue));
    ClosedPends(t, JoiningOf(queue), Fired(inner) + FiredOf(queue));
    FollowsRun(closed, rest);
    LeftTwice(t, JoiningOf(queue), Joining(rest), [], Direct(rest), Fired(inner) + FiredOf(queue), Fired(rest));
    ScopeParts(inner, rest);
    assert [] + Direct(rest) == Direct(rest);
  }

  lemma ScopeParts(inner: Script, rest: Script)
    ensures Joining(Scope(inner, rest)) == JoiningOf(Direct(inner)) + Joining(rest)
    ensures Direct(Scope(inner, rest)) == Direct(rest)
    ensures Fired(Scope(inner, rest)) == Fired(inner) + FiredOf(Direct(inner)) + Fired(rest)
  {
    hide FiredOf, JoiningOf;
  }

  /** The scope's own part when its body has run. */
  lemma OpenLeft(t: Standard, joining: seq<Element>, left: seq<Reaction>, fired: seq<Reaction>)
    ensures var body := Left(t.(stack := t.stack + [[]]), joining, left, fired);
            && Popped(body) == t.(pending := t.pending + left, log := t.log + fired)
            && Current(body) == joining
  {
    assert [] + joining == joining && (t.stack + [[]])[..|t.stack|] == t.stack;
  }

  lemma ClosedLeft(t: Standard, queue: seq<Reaction>, joining: seq<Element>, fired: seq<Reaction>, more: seq<Reaction>)
    ensures Joined(t.(pending := t.pending + queue, log := t.log + fired), joining)
            .(pending := t.pending, log := t.log + fired + more)
         == Left(t, joining, [], fired + more)
  {
    assert t.pending + [] == t.pending && (t.log + fired) + more == t.log + (fired + more);
  }

  lemma ClosedPends(t: Standard, joining: seq<Element>, fired: seq<Reaction>)
    ensures Left(t, joining, [], fired).pending == t.pending
  {
  }

  lemma {:induction false} FollowsInvoke(t: Standard, elements: seq<Element>, queue: seq<Reaction>, held: seq<Reaction>)
    requires t.pending == held + queue && FollowsQueue(elements, queue, held)
    ensures Invoke(t, elements) == Joined(t, JoiningOf(queue)).(pending := held, log := t.log + FiredOf(queue))
    decreases Weight(queue), 0, |elements|
  {
    hide Joined, Fired, FiredOf, Follows, Direct, Queue, Joining, JoiningOf, NextQueue, RunStandard, Weight;
    if queue == [] {
      assert held + queue == held;
      InvokeIdle(t, elements);
      JoinedNothing(t);
      NothingJoins();
      assert t.log + [] == t.log;
    } else if elements[0] != queue[0].element {
      EmptiedIdle(t, elements[0]);
      FollowsInvoke(t, elements[1..], queue, held);
    } else {
      FollowsFirst(t, elements, queue, held);
    }
  }

  lemma NothingJoins()
    ensures JoiningOf([]) == [] && FiredOf([]) == []
  {
  }

  lemma EmptiedIdle(t: Standard, e: Element)
    requires Queue(t.pending, e) == []
    ensures Emptied(t, e) == t
  {
  }

  lemma {:induction false} InvokeIdle(t: Standard, elements: seq<Element>)
    requires forall e :: e in elements ==> Queue(t.pending, e) == []
    ensures Invoke(t, elements) == t
    decreases |elements|
  {
    if elements != [] {
      assert elements[0] in elements;
      EmptiedIdle(t, elements[0]);
      InvokeIdle(t, elements[1..]);
    }
  }

  lemma {:induction false} FollowsFirst(t: Standard, elements: seq<Element>, queue: seq<Reaction>, held: seq<Reaction>)
    requires t.pending == held + queue && queue != [] && elements != [] && elements[0] == queue[0].element
    requires FollowsQueue(elements, queue, held)
    ensures Invoke(t, elements) == Joined(t, JoiningOf(queue)).(pending := held, log := t.log + FiredOf(queue))
    decreases Weight(queue), 0, 0
  {
    hide Joined, Fired, FiredOf, Follows, Direct, Joining, JoiningOf, NextQueue, Queue, Rest;
    var r := queue[0];
    var taken, next := t.(pending := held + queue[1..], log := t.log + [r]), NextQueue(queue);
    QueueFront(held, queue);
    assert TakenFrom(t, r.element) == taken;
    var u := Left(taken, Joining(r.body), Direct(r.body), Fired(r.body));
    FollowsRun(taken, r.body);
    assert Emptied(t, r.element) == Emptied(u, r.element);
    InvokeSame(t, u, elements);
    FollowedBy(t, held, queue);
    NextWeight(queue);
    FollowsInvoke(u, elements, next, held);
  }

  lemma InvokeSame(t: Standard, u: Standard, elements: seq<Element>)
    requires elements != [] && Emptied(t, elements[0]) == Emptied(u, elements[0])
    ensures Invoke(t, elements) == Invoke(u, elements)
  {
    hide Emptied;
  }

  lemma FollowedBy(t: Standard, held: seq<Reaction>, queue: seq<Reaction>)
    requires queue != []
    ensures var r := queue[0];
            var u := Left(t.(pending := held + queue[1..], log := t.log + [r]), Joining(r.body), Direct(r.body),
                          Fired(r.body));
            && u.pending == held + NextQueue(queue)
            && Joined(u, JoiningOf(NextQueue(queue))).(pending := held, log := u.log + FiredOf(NextQueue(queue)))
            == Joined(t, JoiningOf(queue)).(pending := held, log := t.log + FiredOf(queue))
  {
    hide Joined, Fired, FiredOf, Direct, Joining, JoiningOf;
    var r, next := queue[0], NextQueue(queue);
    assert (held + queue[1..]) + Direct(r.body) == held + next;
    JoinedChain(t, Joining(r.body), JoiningOf(next), held + queue[1..], t.log + [r],
                held + queue[1..] + Direct(r.body), t.log + [r] + Fired(r.body), held, t.log + FiredOf(queue));
    FiredNext(t.log, queue);
    JoinedIs(t.(pending := held + queue[1..], log := t.log + [r]), Joining(r.body));
  }

  lemma FiredNext(log: seq<Reaction>, queue: seq<Reaction>)
    requires queue != []
    ensures log + [queue[0]] + Fired(queue[0].body) + FiredOf(NextQueue(queue)) == log + FiredOf(queue)
    ensures JoiningOf(queue) == Joining(queue[0].body) + JoiningOf(NextQueue(queue))
  {
    hide Fired, Joining, NextQueue;
    var r, more := queue[0], FiredOf(NextQueue(queue));
    assert FiredOf(queue) == [r] + Fired(r.body) + more;
    assert log + [r] + Fired(r.body) + more == log + ([r] + Fired(r.body) + more);
  }

  lemma JoinedChain(t: Standard, a: seq<Element>, b: seq<Element>, p0: seq<Reaction>, l0: seq<Reaction>,
                    p1: seq<Reaction>, l1: seq<Reaction>, p2: seq<Reaction>, l2: seq<Reaction>)
    ensures var u := Joined(t.(pending := p0, log := l0), a).(pending := p1, log := l1);
            Joined(u, b).(pending := p2, log := l2) == Joined(t, a + b).(pending := p2, log := l2)
  {
    hide Joined;
    JoinedKeeps(t, p0, l0, a);
    JoinedKeeps(Joined(t, a), p1, l1, b);
    JoinedTwice(t, a, b);
  }

  /** The array and the standard fire the same reactions in the same order in every run that follows. */
  lemma FollowsAgrees(s: State, t: Standard, script: Script)
    requires s.log == t.log && Follows(script, t.pending)
    ensures Run(s, script).log == RunStandard(t, script).log
  {
    FiresInOrder(s, script);
    FollowsRun(t, script);
  }
}
