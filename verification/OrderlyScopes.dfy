/** Callbacks that enqueue only in scopes of their own: exactly when the flat array fires in the order of section
    4.13.6 of the HTML Standard. */
module OrderlyScopes {
  import opened CustomElementReactions
  import opened ElementQueues

  /** Callbacks enqueue only inside scopes that they open themselves, as all tagged interfaces do. */
  ghost predicate Tidy(script: Script) {
    match script
    case Done => true
    case Enqueue(r, rest) => Direct(r.body) == [] && Tidy(r.body) && Tidy(rest)
    case Scope(inner, rest) => Tidy(inner) && Tidy(rest)
  }

  ghost predicate TidyQueue(queue: seq<Reaction>) {
    forall r :: r in queue ==> Direct(r.body) == [] && Tidy(r.body)
  }

  lemma {:induction false} DirectTidy(script: Script)
    requires Tidy(script)
    ensures TidyQueue(Direct(script))
  {
    match script
    case Done =>
    case Enqueue(r, rest) => DirectTidy(rest);
    case Scope(inner, rest) => DirectTidy(rest);
  }

  ghost function Elements(queue: seq<Reaction>): (r: seq<Element>)
    ensures |r| == |queue|
  {
    if queue == [] then [] else [queue[0].element] + Elements(queue[1..])
  }

  /** A run in which every scope that closes holds the reactions of each element in one piece, and holds none of an
      element that still has some pending elsewhere. `pending` is what is enqueued and not fired at the start. */
  ghost predicate Orderly(script: Script, pending: seq<Reaction>)
    decreases Size(script), 1
  {
    match script
    case Done => true
    case Enqueue(r, rest) => Orderly(rest, pending + [r])
    case Scope(inner, rest) =>
      DirectWeight(inner);
      Orderly(inner, pending) && OrderlyQueue(Direct(inner), pending) && Orderly(rest, pending)
  }

  /** The same for what a closing scope holds; `held` is what is pending elsewhere. */
  ghost predicate OrderlyQueue(queue: seq<Reaction>, held: seq<Reaction>)
    decreases Weight(queue), 0
  {
    queue == [] ||
    (&& Queue(held, queue[0].element) == []
     && Orderly(queue[0].body, held + queue[1..])
     && InOnePiece(queue)
     && OrderlyQueue(queue[1..], held))
  }

  /** When the first element is not the next one too, it does not come again. */
  ghost predicate InOnePiece(queue: seq<Reaction>)
    requires queue != []
  {
    |queue| > 1 && queue[1].element != queue[0].element ==> Queue(queue[1..], queue[0].element) == []
  }

  ghost function Result(t: Standard, left: seq<Reaction>, fired: seq<Reaction>): Standard {
    Joined(t, Elements(left)).(pending := t.pending + left, log := t.log + fired)
  }

  lemma ResultNothing(t: Standard, fired: seq<Reaction>)
    ensures Result(t, [], fired) == t.(log := t.log + fired)
  {
    assert t.pending + [] == t.pending && t.backup + [] == t.backup;
    if t.stack != [] {
      assert Current(t) + [] == Current(t) && t.stack == t.stack[..|t.stack| - 1] + [Current(t)];
    }
  }

  lemma ResultEnqueued(t: Standard, r: Reaction, left: seq<Reaction>, fired: seq<Reaction>)
    ensures Result(Enqueued(t, r), left, fired) == Result(t, [r] + left, fired)
  {
    var one := Elements(left);
    assert Elements([r] + left) == [r.element] + one by { assert ([r] + left)[1..] == left; }
    assert (t.pending + [r]) + left == t.pending + ([r] + left);
    assert (t.backup + [r.element]) + one == t.backup + ([r.element] + one);
    if t.stack != [] {
      assert (Current(t) + [r.element]) + one == Current(t) + ([r.element] + one);
      assert Enqueued(t, r).stack[..|t.stack| - 1] == t.stack[..|t.stack| - 1];
    }
  }

  lemma ResultPopped(t: Standard, left: seq<Reaction>, fired: seq<Reaction>)
    ensures var body := Result(t.(stack := t.stack + [[]]), left, fired);
            && Popped(body) == t.(pending := t.pending + left, log := t.log + fired)
            && Current(body) == Elements(left)
  {
    var one := Elements(left);
    assert [] + one == one && (t.stack + [[]])[..|t.stack|] == t.stack;
  }

  lemma ResultMore(t: Standard, a: seq<Reaction>, b: seq<Reaction>, left: seq<Reaction>)
    ensures Result(t.(log := t.log + a), left, b) == Result(t, left, a + b)
  {
    assert (t.log + a) + b == t.log + (a + b);
  }

  /** Emptying an element a second time does nothing, so a repeated entry of an element queue does nothing. */
  lemma InvokeRepeated(t: Standard, e: Element, elements: seq<Element>)
    ensures Invoke(Emptied(t, e), [e] + elements) == Invoke(t, [e] + elements)
  {
    assert ([e] + elements)[1..] == elements;
    assert Emptied(Emptied(t, e), e) == Emptied(t, e);
  }

  /** The state after the first reaction of a closing scope has fired and its callback has run. */
  ghost function FiredFirst(t: Standard, queue: seq<Reaction>, held: seq<Reaction>): Standard
    requires queue != []
  {
    t.(pending := held + queue[1..], log := t.log + [queue[0]] + Fired(queue[0].body))
  }

  lemma InvokeStep(t: Standard, queue: seq<Reaction>, held: seq<Reaction>)
    requires queue != [] && t.pending == held + queue && Queue(held, queue[0].element) == [] && InOnePiece(queue)
    requires RunStandard(Taken1(t, queue, held), queue[0].body) == FiredFirst(t, queue, held)
    ensures Invoke(t, Elements(queue)) == Invoke(FiredFirst(t, queue, held), Elements(queue[1..]))
  {
    var e, u, others := queue[0].element, FiredFirst(t, queue, held), Elements(queue[1..]);
    QueueFront(held, queue);
    assert TakenFrom(t, e) == Taken1(t, queue, held);
    assert Emptied(t, e) == Emptied(u, e);
    assert Elements(queue) == [e] + others && ([e] + others)[1..] == others;
    if |queue| > 1 && queue[1].element == e {
      assert others == [e] + Elements(queue[2..]) by { assert queue[1..][1..] == queue[2..]; }
      InvokeRepeated(u, e, Elements(queue[2..]));
    } else {
      QueueConcat(held, queue[1..], e);
      assert Emptied(u, e) == u;
    }
  }

  ghost function Taken1(t: Standard, queue: seq<Reaction>, held: seq<Reaction>): Standard
    requires queue != []
  {
    t.(pending := held + queue[1..], log := t.log + [queue[0]])
  }

  /** An orderly run fires what the flat array fires, in that order, and leaves the same pending. */
  lemma {:induction false} OrderlyRun(t: Standard, script: Script)
    requires Tidy(script) && Orderly(script, t.pending)
    ensures RunStandard(t, script) == Result(t, Direct(script), Fired(script))
    decreases Size(script), 1
  {
    hide Joined, Invoke, Result, Popped, Current, Enqueued, OrderlyQueue;
    match script
    case Done =>
      ResultNothing(t, []);
      assert t.log + [] == t.log;
    case Enqueue(r, rest) =>
      EnqueuedPends(t, r);
      OrderlyRun(Enqueued(t, r), rest);
      ResultEnqueued(t, r, Direct(rest), Fired(rest));
    case Scope(inner, rest) =>
      DirectWeight(inner);
      DirectTidy(inner);
      var left := Direct(inner);
      OrderlyRun(t.(stack := t.stack + [[]]), inner);
      ResultPopped(t, left, Fired(inner));
      var popped := t.(pending := t.pending + left, log := t.log + Fired(inner));
      OrderlyInvoke(popped, left, t.pending);
      var closed := t.(log := t.log + Fired(inner) + FiredOf(left));
      OrderlyRun(closed, rest);
      assert t.log + Fired(inner) + FiredOf(left) == t.log + (Fired(inner) + FiredOf(left));
      ResultMore(t, Fired(inner) + FiredOf(left), Fired(rest), Direct(rest));
  }

  lemma EnqueuedPends(t: Standard, r: Reaction)
    ensures Enqueued(t, r).pending == t.pending + [r] && Enqueued(t, r).log == t.log
  {
  }

  lemma {:induction false} OrderlyInvoke(t: Standard, queue: seq<Reaction>, held: seq<Reaction>)
    requires TidyQueue(queue) && t.pending == held + queue && OrderlyQueue(queue, held)
    ensures Invoke(t, Elements(queue)) == t.(pending := held, log := t.log + FiredOf(queue))
    decreases Weight(queue), 0
  {
    hide Invoke, InOnePiece, Fired, FiredOf, Orderly, Tidy, Direct, Queue;
    if queue == [] {
      InvokeNothing(t);
      assert held + queue == held && t.log + [] == t.log;
    } else {
      OrderlyFirst(t, queue, held);
      InvokeStep(t, queue, held);
      OrderlyInvoke(FiredFirst(t, queue, held), queue[1..], held);
      FiredOfFirst(t.log, queue);
    }
  }

  lemma InvokeNothing(t: Standard)
    ensures Invoke(t, []) == t && FiredOf([]) == []
  {
  }

  lemma FiredOfFirst(log: seq<Reaction>, queue: seq<Reaction>)
    requires queue != [] && Direct(queue[0].body) == []
    ensures log + [queue[0]] + Fired(queue[0].body) + FiredOf(queue[1..]) == log + FiredOf(queue)
  {
    hide Fired;
    assert NextQueue(queue) == queue[1..];
    assert FiredOf(queue) == [queue[0]] + Fired(queue[0].body) + FiredOf(queue[1..]);
  }

  /** The callback of the first reaction, when it runs orderly. */
  lemma {:induction false} OrderlyFirst(t: Standard, queue: seq<Reaction>, held: seq<Reaction>)
    requires queue != [] && TidyQueue(queue) && Orderly(queue[0].body, held + queue[1..])
    ensures RunStandard(Taken1(t, queue, held), queue[0].body) == FiredFirst(t, queue, held)
    decreases Weight(queue), 0, 0
  {
    assert queue[0] in queue;
    OrderlyRun(Taken1(t, queue, held), queue[0].body);
    ResultNothing(Taken1(t, queue, held), Fired(queue[0].body));
  }

  // ----- when it does not

  /** Two logs that differ where both have an entry. More entries do not change that. */
  ghost predicate Diverged(a: seq<Reaction>, b: seq<Reaction>) {
    exists i :: 0 <= i < |a| && i < |b| && a[i] != b[i]
  }

  lemma DivergedMore(a: seq<Reaction>, b: seq<Reaction>, longerA: seq<Reaction>, longerB: seq<Reaction>)
    requires Diverged(a, b) && a <= longerA && b <= longerB
    ensures Diverged(longerA, longerB)
  {
    var i :| 0 <= i < |a| && i < |b| && a[i] != b[i];
    assert longerA[i] == a[i] && longerB[i] == b[i];
  }

  lemma DivergedNext(log: seq<Reaction>, x: Reaction, y: Reaction, a: seq<Reaction>, b: seq<Reaction>)
    requires x != y && log + [x] <= a && log + [y] <= b
    ensures Diverged(a, b)
  {
    assert (log + [x])[|log|] == x && (log + [y])[|log|] == y;
    assert a[|log|] == x && b[|log|] == y;
  }

  /** No reaction comes twice. */
  ghost predicate Once(m: multiset<Reaction>) { forall r :: m[r] <= 1 }

  lemma {:induction false} PendingHas(queue: seq<Reaction>)
    ensures multiset(queue) <= Pending(queue)
  {
    if queue != [] {
      PendingHas(queue[1..]);
      assert queue == [queue[0]] + queue[1..];
    }
  }

  lemma {:induction false} QueueIn(pending: seq<Reaction>, e: Element)
    ensures forall r :: r in Queue(pending, e) <==> r in pending && r.element == e
  {
    if pending != [] { QueueIn(pending[1..], e); }
  }

  /** What a callback leaves is pending with all that it may lead to. */
  lemma {:induction false} AllDirect(script: Script)
    ensures Pending(Direct(script)) <= All(script)
  {
    match script
    case Done =>
    case Enqueue(r, rest) =>
      AllDirect(rest);
      assert ([r] + Direct(rest))[1..] == Direct(rest);
    case Scope(_, rest) => AllDirect(rest);
  }

  /** A run that is not orderly comes to fire another reaction than the flat array. */
  lemma {:induction false} DisorderRun(t: Standard, script: Script)
    requires Tidy(script) && Once(multiset(t.pending) + All(script)) && !Orderly(script, t.pending)
    ensures Diverged(t.log + Fired(script), RunStandard(t, script).log)
    decreases Size(script), 1
  {
    hide Joined, Invoke, Result, Popped, Current, Enqueued, OrderlyQueue, Diverged, Once, Pending;
    match script
    case Done =>
    case Enqueue(r, rest) =>
      EnqueuedPends(t, r);
      OnceEnqueued(t.pending, r, rest);
      DisorderRun(Enqueued(t, r), rest);
    case Scope(inner, rest) => DisorderScope(t, inner, rest);
  }

  lemma OnceEnqueued(pending: seq<Reaction>, r: Reaction, rest: Script)
    requires Once(multiset(pending) + All(Enqueue(r, rest)))
    ensures Once(multiset(pending + [r]) + All(rest))
  {
    var less, more := multiset(pending + [r]) + All(rest), multiset(pending) + All(Enqueue(r, rest));
    assert forall x :: less[x] <= more[x];
  }

  lemma OnceScope(pending: seq<Reaction>, inner: Script, rest: Script)
    requires Once(multiset(pending) + All(Scope(inner, rest)))
    ensures Once(multiset(pending) + All(inner)) && Once(multiset(pending) + All(rest))
    ensures Once(multiset(pending) + Pending(Direct(inner)))
  {
    AllDirect(inner);
    var more := multiset(pending) + All(Scope(inner, rest));
    assert forall x :: (multiset(pending) + All(inner))[x] <= more[x] && (multiset(pending) + All(rest))[x] <= more[x];
    assert forall x :: (multiset(pending) + Pending(Direct(inner)))[x] <= more[x];
  }

  lemma {:induction false} DisorderScope(t: Standard, inner: Script, rest: Script)
    requires Tidy(Scope(inner, rest)) && Once(multiset(t.pending) + All(Scope(inner, rest)))
    requires !Orderly(Scope(inner, rest), t.pending)
    ensures Diverged(t.log + Fired(Scope(inner, rest)), RunStandard(t, Scope(inner, rest)).log)
    decreases Size(Scope(inner, rest)), 0
  {
    hide Joined, Invoke, Result, Popped, Current, OrderlyQueue, Diverged, Once, Pending, Orderly, Fired, FiredOf, All;
    OnceScope(t.pending, inner, rest);
    DirectWeight(inner);
    DirectTidy(inner);
    OrderlyScope(inner, rest, t.pending);
    var left, start := Direct(inner), t.(stack := t.stack + [[]]);
    var fired := t.log + Fired(Scope(inner, rest));
    FiredInScope(t.log, inner, rest);
    var body := RunStandard(start, inner);
    var u := RunStandard(Invoke(Popped(body), Current(body)), rest);
    assert RunStandard(t, Scope(inner, rest)) == u;
    PoppedLog(body);
    if !Orderly(inner, t.pending) {
      DisorderRun(start, inner);
      DivergedMore(t.log + Fired(inner), body.log, fired, u.log);
    } else {
      OrderlyRun(start, inner);
      ResultPopped(t, left, Fired(inner));
      var popped := t.(pending := t.pending + left, log := t.log + Fired(inner));
      if !OrderlyQueue(left, t.pending) {
        DisorderInvoke(popped, left, t.pending);
        DivergedMore(t.log + Fired(inner) + FiredOf(left), Invoke(popped, Elements(left)).log, fired, u.log);
      } else {
        OrderlyInvoke(popped, left, t.pending);
        DisorderRun(t.(log := t.log + Fired(inner) + FiredOf(left)), rest);
      }
    }
  }

  lemma PoppedLog(t: Standard)
    ensures Popped(t).log == t.log
  {
  }

  lemma OrderlyScope(inner: Script, rest: Script, pending: seq<Reaction>)
    ensures Orderly(Scope(inner, rest), pending)
            <==> Orderly(inner, pending) && OrderlyQueue(Direct(inner), pending) && Orderly(rest, pending)
  {
  }

  lemma FiredInScope(log: seq<Reaction>, inner: Script, rest: Script)
    ensures var fired := log + Fired(Scope(inner, rest));
            && log + Fired(inner) <= fired && log + Fired(inner) + FiredOf(Direct(inner)) <= fired
            && log + Fired(inner) + FiredOf(Direct(inner)) + Fired(rest) == fired
  {
    hide Fired, FiredOf, Direct;
    FiredScope(inner, rest);
    Joins(log, Fired(inner), FiredOf(Direct(inner)), Fired(rest));
  }

  lemma Joins(log: seq<Reaction>, a: seq<Reaction>, b: seq<Reaction>, c: seq<Reaction>)
    ensures log + a <= log + (a + b + c) && log + a + b <= log + (a + b + c) && log + a + b + c == log + (a + b + c)
  {
  }

  lemma {:induction false} DisorderInvoke(t: Standard, queue: seq<Reaction>, held: seq<Reaction>)
    requires TidyQueue(queue) && t.pending == held + queue && !OrderlyQueue(queue, held)
    requires Once(multiset(held) + Pending(queue))
    ensures Diverged(t.log + FiredOf(queue), Invoke(t, Elements(queue)).log)
    decreases Weight(queue), 0
  {
    hide Invoke, InOnePiece, Fired, FiredOf, Orderly, Tidy, Direct, Queue, Diverged, Once, Pending;
    FiredOfFirst(t.log, queue);
    if Queue(held, queue[0].element) != [] {
      HeldFirst(t, queue, held);
    } else if !Orderly(queue[0].body, held + queue[1..]) {
      DisorderFirst(t, queue, held);
    } else {
      OrderlyFirst(t, queue, held);
      if !InOnePiece(queue) {
        SplitFirst(t, queue, held);
      } else {
        InvokeStep(t, queue, held);
        OnceRest(held, queue);
        DisorderInvoke(FiredFirst(t, queue, held), queue[1..], held);
      }
    }
  }

  lemma OnceRest(held: seq<Reaction>, queue: seq<Reaction>)
    requires queue != [] && Once(multiset(held) + Pending(queue))
    ensures Once(multiset(held) + Pending(queue[1..]))
    ensures Once(multiset(held + queue[1..]) + All(queue[0].body))
  {
    PendingHas(queue[1..]);
    var more := multiset(held) + Pending(queue);
    assert forall x :: (multiset(held) + Pending(queue[1..]))[x] <= more[x];
    assert multiset(held + queue[1..]) == multiset(held) + multiset(queue[1..]);
    assert forall x :: (multiset(held + queue[1..]) + All(queue[0].body))[x] <= more[x];
  }

  /** The element has an older reaction outside the scope: that one fires first. */
  lemma HeldFirst(t: Standard, queue: seq<Reaction>, held: seq<Reaction>)
    requires queue != [] && TidyQueue(queue) && t.pending == held + queue && Queue(held, queue[0].element) != []
    requires Once(multiset(held) + Pending(queue))
    ensures Diverged(t.log + FiredOf(queue), Invoke(t, Elements(queue)).log)
  {
    hide Fired, Diverged, FiredOf, Tidy;
    assert queue[0] in queue;
    var e := queue[0].element;
    QueueConcat(held, queue, e);
    var p := Queue(held + queue, e)[0];
    assert p == Queue(held, e)[0];
    QueueIn(held, e);
    PendingHas(queue);
    assert queue[0] in multiset(queue);
    assert (multiset(held) + Pending(queue))[p] <= 1;
    FiredOfFirst(t.log, queue);
    EmptiedStarts(t, e);
    InvokeStarts(t, Elements(queue));
    DivergedNext(t.log, queue[0], p, t.log + FiredOf(queue), Invoke(t, Elements(queue)).log);
  }

  lemma EmptiedStarts(t: Standard, e: Element)
    requires Queue(t.pending, e) != []
    ensures t.log + [Queue(t.pending, e)[0]] <= Emptied(t, e).log
    ensures RunStandard(TakenFrom(t, e), Queue(t.pending, e)[0].body).log <= Emptied(t, e).log
  {
  }

  lemma InvokeStarts(t: Standard, elements: seq<Element>)
    requires elements != []
    ensures Emptied(t, elements[0]).log <= Invoke(t, elements).log
  {
  }

  lemma {:induction false} DisorderFirst(t: Standard, queue: seq<Reaction>, held: seq<Reaction>)
    requires queue != [] && TidyQueue(queue) && t.pending == held + queue && Queue(held, queue[0].element) == []
    requires Once(multiset(held) + Pending(queue)) && !Orderly(queue[0].body, held + queue[1..])
    ensures Diverged(t.log + FiredOf(queue), Invoke(t, Elements(queue)).log)
    decreases Weight(queue), 0, 0
  {
    hide Fired, Diverged, FiredOf, Invoke, Queue, Orderly, Once, Pending;
    var e, u := queue[0].element, Taken1(t, queue, held);
    QueueFront(held, queue);
    OnceRest(held, queue);
    assert queue[0] in queue;
    DisorderRun(u, queue[0].body);
    EmptiedStarts(t, e);
    InvokeStarts(t, Elements(queue));
    FiredOfFirst(t.log, queue);
    DivergedMore(u.log + Fired(queue[0].body), RunStandard(u, queue[0].body).log, t.log + FiredOf(queue),
                 Invoke(t, Elements(queue)).log);
  }

  /** The element comes again behind another one: the standard fires that reaction next. */
  lemma SplitFirst(t: Standard, queue: seq<Reaction>, held: seq<Reaction>)
    requires queue != [] && TidyQueue(queue) && t.pending == held + queue && Queue(held, queue[0].element) == []
    requires !InOnePiece(queue)
    requires RunStandard(Taken1(t, queue, held), queue[0].body) == FiredFirst(t, queue, held)
    ensures Diverged(t.log + FiredOf(queue), Invoke(t, Elements(queue)).log)
  {
    hide Fired, Diverged, FiredOf, Tidy;
    assert queue[0] in queue && queue[1] in queue;
    var e, u := queue[0].element, FiredFirst(t, queue, held);
    QueueFront(held, queue);
    QueueConcat(held, queue[1..], e);
    QueueIn(queue[1..], e);
    var next := Queue(u.pending, e)[0];
    assert next in Queue(queue[1..], e) && queue[1] != next;
    EmptiedStarts(u, e);
    assert Emptied(t, e) == Emptied(u, e);
    InvokeStarts(t, Elements(queue));
    FiredOfFirst(t.log, queue);
    FiredOfFirst(u.log, queue[1..]);
    assert u.log + [queue[1]] <= u.log + FiredOf(queue[1..]) == t.log + FiredOf(queue);
    DivergedNext(u.log, queue[1], next, t.log + FiredOf(queue), Invoke(t, Elements(queue)).log);
  }

  /** For callbacks that enqueue only in scopes of their own, and reactions that are all different: the flat array
      fires in the standard's order exactly when the run is orderly. */
  lemma AgreesExactly(s: State, t: Standard, script: Script)
    requires Tidy(script) && s.log == t.log && Once(multiset(t.pending) + All(script))
    ensures Run(s, script).log == RunStandard(t, script).log <==> Orderly(script, t.pending)
  {
    FiresInOrder(s, script);
    if Orderly(script, t.pending) {
      OrderlyRun(t, script);
    } else {
      DisorderRun(t, script);
    }
  }
}
