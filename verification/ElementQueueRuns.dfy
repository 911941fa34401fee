/** Runs on which the flat array and the element queues of section 4.13.6 of the HTML Standard fire in different
    orders, and runs of callbacks that enqueue outside scopes of their own on which they do not. */
module ElementQueueRuns {
  import opened CustomElementReactions
  import opened ElementQueues
  import opened OrderlyScopes

  const START := Standard([], [], [], [])

  /** Opens a scope around a callback. */
  ghost function Open(t: Standard): Standard { t.(stack := t.stack + [[]]) }

  lemma EnqueuedTop(lower: seq<seq<Element>>, top: seq<Element>, pending: seq<Reaction>, log: seq<Reaction>,
                    r: Reaction)
    ensures Enqueued(Standard(lower + [top], [], pending, log), r)
         == Standard(lower + [top + [r.element]], [], pending + [r], log)
  {
    assert (lower + [top])[..|lower|] == lower;
  }

  lemma QueueFirst(r: Reaction, others: seq<Reaction>, e: Element)
    ensures Queue([r] + others, e) == (if r.element == e then [r] else []) + Queue(others, e)
    ensures r.element == e ==> Rest([r] + others, e) == others
    ensures r.element != e && Queue(others, e) != [] ==> Rest([r] + others, e) == [r] + Rest(others, e)
  {
    assert ([r] + others)[1..] == others && [] + Queue(others, e) == Queue(others, e);
  }

  lemma Enqueued3(t: Standard, a: Reaction, b: Reaction, c: Reaction)
    ensures RunStandard(t, Enqueue(a, Enqueue(b, Enqueue(c, Done)))) == Enqueued(Enqueued(Enqueued(t, a), b), c)
  {
    var t1, t2, t3 := Enqueued(t, a), Enqueued(Enqueued(t, a), b), Enqueued(Enqueued(Enqueued(t, a), b), c);
    hide Enqueued;
    assert RunStandard(t3, Done) == t3;
    assert RunStandard(t2, Enqueue(c, Done)) == t3;
    assert RunStandard(t1, Enqueue(b, Enqueue(c, Done))) == t3;
  }

  /** One reaction of an element between two of another, in one scope. Moving a node with a child from another
      document does this: disconnected, adopted and connected of both nodes come in turn. */
  lemma Interleaved(a1: Reaction, b: Reaction, a2: Reaction)
    requires a1.body == Done && b.body == Done && a2.body == Done && a1.element == a2.element != b.element
    ensures var script := Scope(Enqueue(a1, Enqueue(b, Enqueue(a2, Done))), Done);
            && Run(State([], [], []), script).log == [a1, b, a2]
            && RunStandard(START, script).log == [a1, a2, b]
  {
    hide Invoke, Run, RunStandard, Enqueued;
    InterleavedFlat(a1, b, a2);
    InterleavedStandard(a1, b, a2);
  }

  lemma InterleavedFlat(a1: Reaction, b: Reaction, a2: Reaction)
    requires a1.body == Done && b.body == Done && a2.body == Done
    ensures Run(State([], [], []), Scope(Enqueue(a1, Enqueue(b, Enqueue(a2, Done))), Done)).log == [a1, b, a2]
  {
    hide Run, FiredOf;
    var inner := Enqueue(a1, Enqueue(b, Enqueue(a2, Done)));
    InterleavedDirect(a1, b, a2);
    FiresInOrder(State([], [], []), Scope(inner, Done));
    FiredThree(a1, b, a2);
    assert Fired(Scope(inner, Done)) == [] + [a1, b, a2] + [] == [a1, b, a2];
    assert Direct(Scope(inner, Done)) == [];
    assert [] + [a1, b, a2] == [a1, b, a2];
  }

  lemma InterleavedDirect(a1: Reaction, b: Reaction, a2: Reaction)
    requires a1.body == Done && b.body == Done && a2.body == Done
    ensures var inner := Enqueue(a1, Enqueue(b, Enqueue(a2, Done)));
            Tidy(inner) && Fired(inner) == [] && Direct(inner) == [a1, b, a2]
  {
    hide FiredOf;
    var last := Enqueue(a2, Done);
    assert Tidy(last) && Fired(last) == [] && Direct(last) == [a2];
    assert Tidy(Enqueue(b, last)) && Fired(Enqueue(b, last)) == [] && Direct(Enqueue(b, last)) == [b, a2];
  }

  lemma FiredThree(a1: Reaction, b: Reaction, a2: Reaction)
    requires a1.body == Done && b.body == Done && a2.body == Done
    ensures FiredOf([a1, b, a2]) == [a1, b, a2]
  {
    hide FiredOf;
    FiredFirstOf(a1, [b, a2]);
    FiredFirstOf(b, [a2]);
    FiredFirstOf(a2, []);
    assert [a1] + [b, a2] == [a1, b, a2] && [b] + [a2] == [b, a2] && [a2] + [] == [a2];
  }

  lemma FiredFirstOf(r: Reaction, others: seq<Reaction>)
    requires r.body == Done
    ensures FiredOf([r] + others) == [r] + FiredOf(others) && FiredOf([]) == []
  {
    assert ([r] + others)[1..] == others && Fired(Done) == [] && others + [] == others;
    assert NextQueue([r] + others) == others;
  }

  lemma InterleavedStandard(a1: Reaction, b: Reaction, a2: Reaction)
    requires a1.body == Done && b.body == Done && a2.body == Done && a1.element == a2.element != b.element
    ensures RunStandard(START, Scope(Enqueue(a1, Enqueue(b, Enqueue(a2, Done))), Done)).log == [a1, a2, b]
  {
    hide Invoke, Enqueued;
    var e, f := a1.element, b.element;
    var inner := Enqueue(a1, Enqueue(b, Enqueue(a2, Done)));
    var body := Standard([[e, f, e]], [], [a1, b, a2], []);
    InterleavedBody(a1, b, a2);
    assert Popped(body) == Standard([], [], [a1, b, a2], []) && Current(body) == [e, f, e];
    InterleavedInvoke(a1, b, a2);
    var u := Invoke(Popped(body), Current(body));
    assert RunStandard(u, Done) == u;
    assert RunStandard(START, Scope(inner, Done)) == u;
  }

  lemma InterleavedBody(a1: Reaction, b: Reaction, a2: Reaction)
    requires a1.body == Done && b.body == Done && a2.body == Done && a1.element == a2.element
    ensures RunStandard(Open(START), Enqueue(a1, Enqueue(b, Enqueue(a2, Done))))
         == Standard([[a1.element, b.element, a1.element]], [], [a1, b, a2], [])
  {
    hide Invoke, Enqueued, RunStandard;
    var e, f := a1.element, b.element;
    Enqueued3(Open(START), a1, b, a2);
    EnqueuedTop([], [], [], [], a1);
    EnqueuedTop([], [e], [a1], [], b);
    EnqueuedTop([], [e, f], [a1, b], [], a2);
    assert [] + [a1] == [a1] && [a1] + [b] == [a1, b] && [a1, b] + [a2] == [a1, b, a2];
    assert [] + [e] == [e] && [e] + [f] == [e, f] && [e, f] + [e] == [e, f, e];
    assert forall x: seq<Element> :: [] + [x] == [x];
  }

  lemma InterleavedInvoke(a1: Reaction, b: Reaction, a2: Reaction)
    requires a1.body == Done && b.body == Done && a2.body == Done && a1.element == a2.element != b.element
    ensures Invoke(Standard([], [], [a1, b, a2], []), [a1.element, b.element, a1.element]).log == [a1, a2, b]
  {
    hide Emptied, Queue, Rest;
    var e, f := a1.element, b.element;
    var t0, t1 := Standard([], [], [a1, b, a2], []), Standard([], [], [b, a2], [a1]);
    var t2, t3 := Standard([], [], [b], [a1, a2]), Standard([], [], [], [a1, a2, b]);
    assert Emptied(t0, e) == t2 by {
      QueueFirst(a1, [b, a2], e);
      assert [a1] + [b, a2] == [a1, b, a2] && [] + [a1] == [a1];
      EmptyOne(t0, e, a1, t1);
      QueueFirst(b, [a2], e);
      QueueFirst(a2, [], e);
      assert [b] + [a2] == [b, a2] && [a2] + [] == [a2] && [b] + [] == [b] && [a1] + [a2] == [a1, a2];
      QueueNothing(e);
      EmptyOne(t1, e, a2, t2);
      QueueFirst(b, [], e);
      EmptyNothing(t2, e);
    }
    assert Emptied(t2, f) == t3 by {
      QueueFirst(b, [], f);
      QueueNothing(f);
      assert [b] + [] == [b] && [a1, a2] + [b] == [a1, a2, b];
      EmptyOne(t2, f, b, t3);
      EmptyNothing(t3, f);
    }
    assert [e, f, e][1..] == [f, e] && [f, e][1..] == [e];
    InvokeNothing(t3);
    assert Invoke(t3, [e]) == t3 by { QueueNothing(e); EmptyNothing(t3, e); assert [e][1..] == []; }
    assert Invoke(t2, [f, e]) == t3;
    assert Invoke(t0, [e, f, e]) == t3;
  }

  lemma QueueNothing(e: Element)
    ensures Queue([], e) == []
  {
  }

  lemma EmptyNothing(t: Standard, e: Element)
    requires Queue(t.pending, e) == []
    ensures Emptied(t, e) == t
  {
  }

  /** One reaction of an element with a callback that does nothing. */
  lemma EmptyOne(t: Standard, e: Element, r: Reaction, u: Standard)
    requires Queue(t.pending, e) != [] && Queue(t.pending, e)[0] == r && r.body == Done && TakenFrom(t, e) == u
    ensures Emptied(t, e) == Emptied(u, e)
  {
    assert RunStandard(u, Done) == u;
  }

  /** A reaction of an element that has an older one in the scope around: here it fires first, in the standard the
      older one does. */
  lemma OlderOutside(a1: Reaction, a2: Reaction)
    requires a1.body == Done && a2.body == Done && a1.element == a2.element && a1 != a2
    ensures var script := Scope(Enqueue(a1, Scope(Enqueue(a2, Done), Done)), Done);
            Run(State([], [], []), script).log != RunStandard(START, script).log
  {
    var inner := Scope(Enqueue(a2, Done), Done);
    var script := Scope(Enqueue(a1, inner), Done);
    BothTidy(a1, a2);
    BothDifferent(a1, a2);
    assert !Orderly(script, []) by {
      hide OrderlyQueue;
      OlderHeld(a1, a2);
      var none: seq<Reaction> := [];
      assert none + [a1] == [a1];
      assert Direct(Enqueue(a2, Done)) == [a2] + Direct(Done) == [a2];
      assert !Orderly(inner, [a1]);
      assert !Orderly(Enqueue(a1, inner), none);
    }
    AgreesExactly(State([], [], []), START, script);
  }

  lemma BothTidy(a1: Reaction, a2: Reaction)
    requires a1.body == Done && a2.body == Done
    ensures Tidy(Scope(Enqueue(a1, Scope(Enqueue(a2, Done), Done)), Done))
  {
    var last := Enqueue(a2, Done);
    assert Direct(a1.body) == Direct(a2.body) == [] && Tidy(a1.body) && Tidy(a2.body);
    assert Tidy(last);
    assert Tidy(Scope(last, Done));
    assert Tidy(Enqueue(a1, Scope(last, Done)));
  }

  lemma OlderHeld(a1: Reaction, a2: Reaction)
    requires a1.element == a2.element
    ensures !OrderlyQueue([a2], [a1])
  {
    assert Queue([a1], a2.element) == [a1];
  }

  lemma BothDifferent(a1: Reaction, a2: Reaction)
    requires a1.body == Done && a2.body == Done && a1 != a2
    ensures Once(multiset([]) + All(Scope(Enqueue(a1, Scope(Enqueue(a2, Done), Done)), Done)))
  {
    assert All(a1.body) == All(a2.body) == multiset{};
    assert All(Enqueue(a2, Done)) == multiset{a2} + multiset{} + multiset{};
    assert All(Scope(Enqueue(a2, Done), Done)) == multiset{a2} + multiset{};
    assert All(Enqueue(a1, Scope(Enqueue(a2, Done), Done))) == multiset{a1} + multiset{} + (multiset{a2} + multiset{});
  }

  ghost function Over(lower: seq<seq<Reaction>>, queue: seq<Reaction>, log: seq<Reaction>): State {
    State(lower + [queue], [], log)
  }

  lemma Shapes(lower: seq<seq<Reaction>>, queue: seq<Reaction>, r: Reaction, log: seq<Reaction>)
    ensures Opened(State(lower, [], log)) == Over(lower, [], log)
    ensures Closed(Over(lower, queue, log)) == State(lower, [], log) && Top(Over(lower, queue, log)) == queue
    ensures Route(Over(lower, queue, log), r) == Over(lower, queue + [r], log)
    ensures Taken(Over(lower, [r] + queue, log)) == Over(lower, queue, log + [r])
    ensures Drain(Over(lower, [], log)) == Over(lower, [], log)
  {
    assert Lower(Over(lower, queue, log)) == lower && Top(Over(lower, queue, log)) == queue;
    assert ([r] + queue)[1..] == queue;
    assert Lower(Over(lower, [r] + queue, log)) == lower;
  }

  /** The last reaction of the innermost queue, with a callback that does nothing. */
  lemma DrainLast(lower: seq<seq<Reaction>>, r: Reaction, log: seq<Reaction>)
    requires r.body == Done
    ensures Drain(Over(lower, [r], log)) == Over(lower, [], log + [r])
  {
    Shapes(lower, [], r, log);
    Shapes(lower, [r], r, log);
    Shapes(lower, [], r, log + [r]);
    assert [r] + [] == [r];
  }

  /** A callback that enqueues without a scope of its own: here its reaction fires in the scope that is closing, in the
      standard it waits for the enclosing scope to close. */
  lemma UntidyDiffers(x: Reaction, a: Reaction, b: Reaction)
    requires x.body == Done && b.body == Done && a.body == Enqueue(b, Done)
    requires x.element != a.element && a.element != b.element
    ensures var inner := Scope(Enqueue(a, Done), Done);
            && Run(State([[x]], [], []), inner).log == [a, b]
            && RunStandard(Standard([[x.element]], [], [x], []), inner).log == [a]
  {
    UntidyFlat(x, a, b);
    UntidyStandard(x, a, b);
  }

  lemma UntidyFlat(x: Reaction, a: Reaction, b: Reaction)
    requires b.body == Done && a.body == Enqueue(b, Done)
    ensures Run(State([[x]], [], []), Scope(Enqueue(a, Done), Done)).log == [a, b]
  {
    hide Drain;
    var s, lower := Over([], [x], []), [[x]];
    assert s == State([[x]], [], []);
    assert [] + [[x]] == lower && [] + [a] == [a];
    Shapes(lower, [], a, []);
    assert Run(Opened(s), Enqueue(a, Done)) == Over(lower, [a], []);
    UntidyDrain(lower, a, b);
    Shapes(lower, [], b, [a, b]);
    assert Run(State(lower, [], [a, b]), Done) == State(lower, [], [a, b]);
  }

  lemma UntidyDrain(lower: seq<seq<Reaction>>, a: Reaction, b: Reaction)
    requires b.body == Done && a.body == Enqueue(b, Done)
    ensures Drain(Over(lower, [a], [])) == Over(lower, [], [a, b])
  {
    hide Over;
    assert [a] + [] == [a] && [] + [b] == [b] && [a] + [b] == [a, b] && [] + [a] == [a];
    Shapes(lower, [], b, [a]);
    Shapes(lower, [], a, []);
    Shapes(lower, [a], a, []);
    assert Run(Taken(Over(lower, [a], [])), a.body) == Over(lower, [b], [a]);
    OverOpen(lower, [a], []);
    assert Drain(Over(lower, [a], [])) == Drain(Over(lower, [b], [a]));
    DrainLast(lower, b, [a]);
  }

  lemma OverOpen(lower: seq<seq<Reaction>>, queue: seq<Reaction>, log: seq<Reaction>)
    ensures Over(lower, queue, log).stack != []
  {
  }

  lemma UntidyStandard(x: Reaction, a: Reaction, b: Reaction)
    requires b.body == Done && a.body == Enqueue(b, Done) && x.element != a.element && a.element != b.element
    ensures RunStandard(Standard([[x.element]], [], [x], []), Scope(Enqueue(a, Done), Done)).log == [a]
  {
    hide Emptied, Queue, Rest, Enqueued;
    var e, f := a.element, x.element;
    var t, body := Standard([[f]], [], [x], []), Standard([[f], [e]], [], [x, a], []);
    assert RunStandard(Open(t), Enqueue(a, Done)) == body by {
      EnqueuedTop([[f]], [], [x], [], a);
      assert [[f]] + [[]] == [[f], []] && [[f]] + [[e]] == [[f], [e]] && [] + [e] == [e] && [x] + [a] == [x, a];
      assert RunStandard(body, Done) == body;
    }
    var u, w := Standard([[f]], [], [x, a], []), Standard([[f, b.element]], [], [x, b], [a]);
    assert Popped(body) == u && Current(body) == [e];
    UntidyEmptied(x, a, b);
    assert Invoke(u, [e]) == w by { InvokeNothing(w); assert [e][1..] == []; }
    assert RunStandard(w, Done) == w;
  }

  lemma UntidyEmptied(x: Reaction, a: Reaction, b: Reaction)
    requires b.body == Done && a.body == Enqueue(b, Done) && x.element != a.element && a.element != b.element
    ensures Emptied(Standard([[x.element]], [], [x, a], []), a.element)
        == Standard([[x.element, b.element]], [], [x, b], [a])
  {
    hide Queue, Rest, Enqueued;
    var e, f := a.element, x.element;
    var u, v, w := Standard([[f]], [], [x, a], []), Standard([[f]], [], [x], [a]),
        Standard([[f, b.element]], [], [x, b], [a]);
    QueueNothing(e);
    QueueFirst(x, [a], e);
    QueueFirst(a, [], e);
    assert [x] + [a] == [x, a] && [a] + [] == [a] && [x] + [] == [x] && [] + [a] == [a];
    assert TakenFrom(u, e) == v;
    assert RunStandard(v, a.body) == w by {
      EnqueuedTop([], [f], [x], [a], b);
      assert [] + [[f]] == [[f]] && [] + [[f, b.element]] == [[f, b.element]] && [f] + [b.element] == [f, b.element]
             && [x] + [b] == [x, b];
      assert RunStandard(w, Done) == w;
    }
    QueueFirst(x, [b], e);
    QueueFirst(b, [], e);
    assert [b] + [] == [b] && [x] + [b] == [x, b];
    EmptyNothing(w, e);
  }

  // ----- callbacks that enqueue outside scopes of their own, and yet the orders are the same

  /** A callback that enqueues for its own element, the only one of the scope: the reaction fires in that scope. */
  lemma OwnElement(a: Reaction, b: Reaction)
    requires b.body == Done && a.body == Enqueue(b, Done) && a.element == b.element
    ensures var script := Scope(Enqueue(a, Done), Done);
            && Follows(script, [])
            && Run(State([], [], []), script).log == RunStandard(START, script).log == [a, b]
  {
    var inner := Enqueue(a, Done);
    OwnFollows(a, b);
    FollowsAgrees(State([], [], []), START, Scope(inner, Done));
    OwnFlat(a, b);
  }

  lemma OwnFollows(a: Reaction, b: Reaction)
    requires b.body == Done && a.body == Enqueue(b, Done) && a.element == b.element
    ensures Follows(Scope(Enqueue(a, Done), Done), [])
  {
    hide Queue;
    var e, inner := a.element, Enqueue(a, Done);
    QueueNothing(e);
    assert Joining(Done) == [] && Direct(Done) == [];
    assert Joining(inner) == [e] + Joining(Done) == [e] && Direct(inner) == [a] + Direct(Done) == [a];
    assert Direct(a.body) == [b] + Direct(Done) == [b] && NextQueue([a]) == [] + [b] == [b];
    assert NextQueue([b]) == [] + Direct(b.body) == [];
    assert FollowsQueue([e], [], []);
    assert FollowsQueue([e], [b], []) by { assert [] + [b][1..] == []; assert Follows(b.body, []); }
    assert FollowsQueue([e], [a], []) by { assert [] + [a][1..] == []; assert Follows(a.body, []); }
    assert Follows(inner, []) by { assert [] + [a] == [a]; }
  }

  lemma OwnFlat(a: Reaction, b: Reaction)
    requires b.body == Done && a.body == Enqueue(b, Done)
    ensures Run(State([], [], []), Scope(Enqueue(a, Done), Done)).log == [a, b]
  {
    hide Run, FiredOf;
    var inner := Enqueue(a, Done);
    FiresInOrder(State([], [], []), Scope(inner, Done));
    OwnFired(a, b);
    assert Fired(inner) == [] && Direct(inner) == [a] + Direct(Done) == [a];
    assert Fired(Scope(inner, Done)) == [] + [a, b] + [] == [a, b];
    assert Direct(Scope(inner, Done)) == [] && [] + [a, b] == [a, b];
  }

  lemma OwnFired(a: Reaction, b: Reaction)
    requires b.body == Done && a.body == Enqueue(b, Done)
    ensures FiredOf([a]) == [a, b]
  {
    hide FiredOf;
    assert Direct(a.body) == [b] + Direct(Done) == [b] && Fired(a.body) == [];
    FiredNext([], [a]);
    assert NextQueue([a]) == [] + [b] == [b];
    FiredFirstOf(b, []);
    assert [b] + [] == [b] && [] + [a] + [] + [b] == [a, b] && [] + FiredOf([a]) == FiredOf([a]);
  }

  /** Two scopes that close one after the other: the reaction fires in the outer one in the standard, and yet next. */
  lemma FiresLater(a: Reaction, b: Reaction)
    requires b.body == Done && a.body == Enqueue(b, Done) && a.element != b.element
    ensures var script := Scope(Scope(Enqueue(a, Done), Done), Done);
            && !Follows(script, [])
            && Run(State([], [], []), script).log == RunStandard(START, script).log == [a, b]
  {
    LaterFollows(a, b);
    LaterFlat(a, b);
    LaterStandard(a, b);
  }

  lemma LaterFollows(a: Reaction, b: Reaction)
    requires b.body == Done && a.body == Enqueue(b, Done) && a.element != b.element
    ensures !Follows(Scope(Scope(Enqueue(a, Done), Done), Done), [])
  {
    var e, inner := a.element, Enqueue(a, Done);
    assert Joining(Done) == [] && Direct(Done) == [];
    assert Joining(inner) == [e] + Joining(Done) == [e] && Direct(inner) == [a] + Direct(Done) == [a];
    assert Direct(a.body) == [b] + Direct(Done) == [b] && NextQueue([a]) == [] + [b] == [b];
    assert [e][1..] == [] && !FollowsQueue([], [b], []);
    assert !FollowsQueue([e], [b], []);
    assert !FollowsQueue([e], [a], []);
    assert !Follows(Scope(inner, Done), []);
  }

  lemma LaterFlat(a: Reaction, b: Reaction)
    requires b.body == Done && a.body == Enqueue(b, Done)
    ensures Run(State([], [], []), Scope(Scope(Enqueue(a, Done), Done), Done)).log == [a, b]
  {
    hide Run, FiredOf;
    var inner := Enqueue(a, Done);
    var middle := Scope(inner, Done);
    FiresInOrder(State([], [], []), Scope(middle, Done));
    OwnFired(a, b);
    assert Fired(inner) == [] && Direct(inner) == [a] + Direct(Done) == [a];
    assert Fired(middle) == [] + [a, b] + [] == [a, b] && Direct(middle) == [];
    FiredScope(middle, Done);
    assert FiredOf([]) == [] by { NothingFired(); }
    assert Fired(Scope(middle, Done)) == [a, b] + [] + [] == [a, b];
    assert Direct(Scope(middle, Done)) == [] && [] + [a, b] == [a, b];
  }

  lemma LaterStandard(a: Reaction, b: Reaction)
    requires b.body == Done && a.body == Enqueue(b, Done) && a.element != b.element
    ensures RunStandard(START, Scope(Scope(Enqueue(a, Done), Done), Done)).log == [a, b]
  {
    hide Invoke, Queue, Rest, Enqueued, Emptied;
    var e, f := a.element, b.element;
    var t, w, v := Standard([[]], [], [], []), Standard([[f]], [], [b], [a]), Standard([], [], [b], [a]);
    assert Open(START) == t;
    LaterInner(a, b);
    assert Popped(w) == v && Current(w) == [f];
    var x := Standard([], [], [], [a, b]);
    assert Emptied(v, f) == x by {
      QueueFirst(b, [], f);
      QueueNothing(f);
      assert [b] + [] == [b] && [a] + [b] == [a, b];
      EmptyOne(v, f, b, x);
      EmptyNothing(x, f);
    }
    assert Invoke(v, [f]) == x by { InvokeOnly(v, f, x); }
    assert RunStandard(x, Done) == x;
  }

  lemma InvokeOnly(t: Standard, e: Element, u: Standard)
    requires Emptied(t, e) == u
    ensures Invoke(t, [e]) == u
  {
    hide Emptied;
    InvokeNothing(u);
    assert [e][1..] == [];
  }

  lemma LaterInner(a: Reaction, b: Reaction)
    requires b.body == Done && a.body == Enqueue(b, Done) && a.element != b.element
    ensures RunStandard(Standard([[]], [], [], []), Scope(Enqueue(a, Done), Done))
        == Standard([[b.element]], [], [b], [a])
  {
    hide Invoke, Queue, Rest, Enqueued, Emptied;
    var e, f := a.element, b.element;
    var t, body := Standard([[]], [], [], []), Standard([[], [e]], [], [a], []);
    assert RunStandard(Open(t), Enqueue(a, Done)) == body by {
      EnqueuedTop([[]], [], [], [], a);
      var none: seq<Element> := [];
      assert [none] + [none] == [none, none] && [none] + [[e]] == [none, [e]] && none + [e] == [e] && [] + [a] == [a];
      assert RunStandard(body, Done) == body;
    }
    var u, w := Standard([[]], [], [a], []), Standard([[f]], [], [b], [a]);
    assert Popped(body) == u && Current(body) == [e];
    LaterEmptied(a, b);
    InvokeOnly(u, e, w);
    assert RunStandard(w, Done) == w;
  }

  lemma LaterEmptied(a: Reaction, b: Reaction)
    requires b.body == Done && a.body == Enqueue(b, Done) && a.element != b.element
    ensures Emptied(Standard([[]], [], [a], []), a.element) == Standard([[b.element]], [], [b], [a])
  {
    hide Queue, Rest, Enqueued;
    var e, f := a.element, b.element;
    var u, v, w := Standard([[]], [], [a], []), Standard([[]], [], [], [a]), Standard([[f]], [], [b], [a]);
    QueueNothing(e);
    QueueFirst(a, [], e);
    assert [a] + [] == [a] && [] + [a] == [a];
    assert TakenFrom(u, e) == v;
    assert RunStandard(v, a.body) == w by {
      EnqueuedTop([], [], [], [a], b);
      var none: seq<Element> := [];
      assert [] + [none] == [none] && [] + [[f]] == [[f]] && none + [f] == [f] && [] + [b] == [b];
      assert RunStandard(w, Done) == w;
    }
    QueueFirst(b, [], e);
    assert [b] + [] == [b];
    EmptyNothing(w, e);
  }
}
