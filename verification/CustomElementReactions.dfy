/** Custom element reactions: one flat array with checkpoints stands in for a stack of queues. Callbacks are arbitrary
    finite trees: they enqueue reactions and open scopes of their own, inside which the same may happen. */
module CustomElementReactions {

  /** A queued reaction of an element, and what its callback does. */
  datatype Reaction = Reaction(id: nat, element: nat, body: Script)

  datatype Script = Done | Enqueue(reaction: Reaction, rest: Script) | Scope(inner: Script, rest: Script)

  ghost function Size(script: Script): nat {
    match script
    case Done => 0
    case Enqueue(r, rest) => 1 + Size(r.body) + Size(rest)
    case Scope(inner, rest) => 1 + Size(inner) + Size(rest)
  }

  ghost function Weight(queue: seq<Reaction>): nat {
    if queue == [] then 0 else 1 + Size(queue[0].body) + Weight(queue[1..])
  }

  lemma WeightConcat(a: seq<Reaction>, b: seq<Reaction>)
    ensures Weight(a + b) == Weight(a) + Weight(b)
  {
    if a == [] {
      assert a + b == b;
    } else {
      assert (a + b)[1..] == a[1..] + b;
      WeightConcat(a[1..], b);
    }
  }

  // ----- the reference: an explicit stack of queues

  datatype State = State(stack: seq<seq<Reaction>>, backup: seq<Reaction>, log: seq<Reaction>)

  ghost function Top(s: State): seq<Reaction> { if s.stack == [] then [] else s.stack[|s.stack| - 1] }

  ghost function Lower(s: State): seq<seq<Reaction>> { if s.stack == [] then [] else s.stack[..|s.stack| - 1] }

  ghost function WithTop(s: State, queue: seq<Reaction>): State { s.(stack := Lower(s) + [queue]) }

  ghost function Opened(s: State): State { s.(stack := s.stack + [[]]) }

  ghost function Closed(s: State): State { s.(stack := Lower(s)) }

  /** A reaction goes to the innermost open queue, or to the backup queue when none is open. */
  ghost function Route(s: State, r: Reaction): (t: State)
    ensures |t.stack| == |s.stack| && Lower(t) == Lower(s)
    ensures Weight(Top(t)) + Weight(t.backup) == Weight(Top(s)) + Weight(s.backup) + 1 + Size(r.body)
    ensures s.stack == [] ==> Weight(Top(t)) == 0
    ensures s.stack != [] ==> t.backup == s.backup
  {
    WeightConcat(Top(s), [r]);
    WeightConcat(s.backup, [r]);
    if s.stack == [] then s.(backup := s.backup + [r]) else WithTop(s, Top(s) + [r])
  }

  /** Running a callback. A scope drains its own queue before the callback goes on. */
  ghost function Run(s: State, script: Script): (t: State)
    ensures |t.stack| == |s.stack| && Lower(t) == Lower(s)
    ensures Weight(Top(t)) + Weight(t.backup) <= Weight(Top(s)) + Weight(s.backup) + Size(script)
    ensures s.stack != [] ==> t.backup == s.backup
    decreases Size(script)
  {
    match script
    case Done => s
    case Enqueue(r, rest) => Run(Route(s, r), rest)
    case Scope(inner, rest) => Run(Closed(Drain(Run(Opened(s), inner))), rest)
  }

  /** Fires the innermost queue from the front until nothing is left, including what is enqueued meanwhile. */
  ghost function Drain(s: State): (t: State)
    requires s.stack != []
    ensures |t.stack| == |s.stack| && Lower(t) == Lower(s) && Top(t) == [] && t.backup == s.backup
    decreases Weight(Top(s))
  {
    if Top(s) == [] then s
    else Drain(Run(Taken(s), Top(s)[0].body))
  }

  ghost function Taken(s: State): State
    requires s.stack != [] && Top(s) != []
  {
    WithTop(s, Top(s)[1..]).(log := s.log + [Top(s)[0]])
  }

  /** Fires the backup queue in the same way. */
  ghost function DrainBackup(s: State): (t: State)
    ensures t.backup == []
    ensures |t.stack| == |s.stack| && Lower(t) == Lower(s)
    decreases Weight(s.backup)
  {
    if s.backup == [] then s
    else DrainBackup(Run(TakenBackup(s), s.backup[0].body))
  }

  ghost function TakenBackup(s: State): State
    requires s.backup != []
  {
    s.(backup := s.backup[1..], log := s.log + [s.backup[0]])
  }

  // ----- every reaction fires exactly once

  /** The reactions that a callback enqueues, and those that their callbacks enqueue, and so on. */
  ghost function All(script: Script): multiset<Reaction> {
    match script
    case Done => multiset{}
    case Enqueue(r, rest) => multiset{r} + All(r.body) + All(rest)
    case Scope(inner, rest) => All(inner) + All(rest)
  }

  ghost function Pending(queue: seq<Reaction>): multiset<Reaction> {
    if queue == [] then multiset{} else multiset{queue[0]} + All(queue[0].body) + Pending(queue[1..])
  }

  ghost function Held(stack: seq<seq<Reaction>>): multiset<Reaction> {
    if stack == [] then multiset{} else Held(stack[..|stack| - 1]) + Pending(stack[|stack| - 1])
  }

  /** What has fired and what still will. */
  ghost function Account(s: State): multiset<Reaction> { multiset(s.log) + Held(s.stack) + Pending(s.backup) }

  lemma PendingConcat(a: seq<Reaction>, b: seq<Reaction>)
    ensures Pending(a + b) == Pending(a) + Pending(b)
  {
    if a == [] {
      assert a + b == b;
    } else {
      assert (a + b)[1..] == a[1..] + b;
      PendingConcat(a[1..], b);
    }
  }

  lemma HeldPush(lower: seq<seq<Reaction>>, queue: seq<Reaction>)
    ensures Held(lower + [queue]) == Held(lower) + Pending(queue)
  {
    assert (lower + [queue])[..|lower|] == lower;
  }

  lemma RouteAccounts(s: State, r: Reaction)
    ensures Account(Route(s, r)) == Account(s) + (multiset{r} + All(r.body))
  {
    hide All, Held, Pending, Weight, Size;
    PendingOne(r);
    if s.stack == [] {
      PendingConcat(s.backup, [r]);
    } else {
      PendingConcat(Top(s), [r]);
      HeldPush(Lower(s), Top(s));
      HeldPush(Lower(s), Top(s) + [r]);
      assert s.stack == Lower(s) + [Top(s)];
    }
  }

  lemma PendingOne(r: Reaction)
    ensures Pending([r]) == multiset{r} + All(r.body)
  {
  }

  lemma Cancel(a: multiset<Reaction>, b: multiset<Reaction>, c: multiset<Reaction>, d: multiset<Reaction>)
    requires a + b == c + b + d
    ensures a == c + d
  {
    forall r
      ensures a[r] == (c + d)[r]
    {
      assert (a + b)[r] == (c + b + d)[r];
    }
  }

  lemma TakenAccounts(s: State)
    requires s.stack != [] && Top(s) != []
    ensures Account(Taken(s)) + All(Top(s)[0].body) == Account(s)
  {
    HeldPush(Lower(s), Top(s)[1..]);
  }

  lemma OpenedAccounts(s: State)
    ensures Account(Opened(s)) == Account(s)
  {
    HeldPush(s.stack, []);
  }

  lemma ClosedAccounts(s: State)
    requires s.stack != [] && Top(s) == []
    ensures Account(Closed(s)) == Account(s)
  {
    hide Held, Pending;
    HeldPush(Lower(s), []);
    NothingPending();
    assert s.stack == Lower(s) + [Top(s)];
    assert Held(s.stack) == Held(Lower(s));
  }

  lemma NothingPending()
    ensures Pending([]) == multiset{}
  {
  }

  lemma {:induction false} RunAccounts(s: State, script: Script)
    ensures Account(Run(s, script)) == Account(s) + All(script)
    decreases Size(script)
  {
    hide Account, Route, Drain;
    match script
    case Done =>
    case Enqueue(r, rest) =>
      RouteAccounts(s, r);
      RunAccounts(Route(s, r), rest);
    case Scope(inner, rest) =>
      OpenedAccounts(s);
      RunAccounts(Opened(s), inner);
      DrainAccounts(Run(Opened(s), inner));
      ClosedAccounts(Drain(Run(Opened(s), inner)));
      RunAccounts(Closed(Drain(Run(Opened(s), inner))), rest);
  }

  lemma {:induction false} DrainAccounts(s: State)
    requires s.stack != []
    ensures Account(Drain(s)) == Account(s)
    decreases Weight(Top(s))
  {
    hide Account, Run;
    if Top(s) != [] {
      TakenAccounts(s);
      RunAccounts(Taken(s), Top(s)[0].body);
      DrainAccounts(Run(Taken(s), Top(s)[0].body));
    }
  }

  lemma {:induction false} DrainBackupAccounts(s: State)
    ensures Account(DrainBackup(s)) == Account(s)
    decreases Weight(s.backup)
  {
    if s.backup != [] {
      RunAccounts(TakenBackup(s), s.backup[0].body);
      DrainBackupAccounts(Run(TakenBackup(s), s.backup[0].body));
    }
  }

  /** Closing a scope fires what was enqueued in it, directly or by callbacks, each exactly once, and
      leaves the other queues alone. */
  lemma ScopeFiresAll(s: State, inner: Script)
    ensures var t := Run(s, Scope(inner, Done));
            t.stack == s.stack && t.backup == s.backup && multiset(t.log) == multiset(s.log) + All(inner)
  {
    hide Run, Drain, Held, Pending;
    ScopeRestores(s, inner);
    RunAccounts(s, Scope(inner, Done));
    assert All(Scope(inner, Done)) == All(inner);
    var t := Run(s, Scope(inner, Done));
    assert Account(t) == multiset(t.log) + (Held(s.stack) + Pending(s.backup));
    assert Account(s) + All(inner) == multiset(s.log) + (Held(s.stack) + Pending(s.backup)) + All(inner);
    Cancel(multiset(t.log), Held(s.stack) + Pending(s.backup), multiset(s.log), All(inner));
  }

  lemma ScopeRestores(s: State, inner: Script)
    ensures Run(s, Scope(inner, Done)) == Closed(Drain(Run(Opened(s), inner)))
    ensures var t := Closed(Drain(Run(Opened(s), inner))); t.stack == s.stack && t.backup == s.backup
  {
    hide Drain;
    assert Lower(Opened(s)) == s.stack;
    var t := Closed(Drain(Run(Opened(s), inner)));
    assert Run(t, Done) == t;
  }

  /** Whatever is enqueued outside every scope fires exactly once in the backup drain. */
  lemma BackupFiresAll(script: Script)
    ensures multiset(DrainBackup(Run(State([], [], []), script)).log) == All(script)
  {
    hide Run, DrainBackup, Weight;
    var empty := State([], [], []);
    RunAccounts(empty, script);
    DrainBackupAccounts(Run(empty, script));
    assert Account(empty) == multiset{};
    var t := DrainBackup(Run(empty, script));
    assert t.stack == [] && t.backup == [];
    assert Account(t) == multiset(t.log);
  }

  /** The reactions that a callback leaves in the queue that was open when it started. */
  ghost function Direct(script: Script): seq<Reaction> {
    match script
    case Done => []
    case Enqueue(r, rest) => [r] + Direct(rest)
    case Scope(_, rest) => Direct(rest)
  }

  lemma RouteAppends(s: State, r: Reaction)
    ensures s.stack != [] ==> Top(Route(s, r)) == Top(s) + [r] && Route(s, r).stack != []
    ensures s.stack == [] ==> Route(s, r).backup == s.backup + [r] && Route(s, r).stack == []
  {
  }

  /** They are appended in order; nested scopes leave nothing behind. */
  lemma {:induction false} RunAppends(s: State, script: Script)
    ensures s.stack != [] ==> Top(Run(s, script)) == Top(s) + Direct(script)
    ensures s.stack == [] ==> Run(s, script).backup == s.backup + Direct(script)
    decreases Size(script)
  {
    hide Drain, Weight, Route, Lower;
    match script
    case Done =>
    case Enqueue(r, rest) =>
      RouteAppends(s, r);
      RunAppends(Route(s, r), rest);
      assert (Top(s) + [r]) + Direct(rest) == Top(s) + ([r] + Direct(rest));
      assert (s.backup + [r]) + Direct(rest) == s.backup + ([r] + Direct(rest));
    case Scope(inner, rest) =>
      ScopeRestores(s, inner);
      RunAppends(Closed(Drain(Run(Opened(s), inner))), rest);
  }

  // ----- the order in which reactions fire

  lemma {:induction false} DirectWeight(script: Script)
    ensures Weight(Direct(script)) <= Size(script)
  {
    match script
    case Done =>
    case Enqueue(r, rest) => DirectWeight(rest);
    case Scope(inner, rest) => DirectWeight(rest);
  }

  /** What fires while a callback runs: each scope's own reactions as it closes. */
  ghost function Fired(script: Script): seq<Reaction>
    decreases Size(script), 1
  {
    match script
    case Done => []
    case Enqueue(_, rest) => Fired(rest)
    case Scope(inner, rest) =>
      DirectWeight(inner);
      Fired(inner) + FiredOf(Direct(inner)) + Fired(rest)
  }

  /** What fires when a queue is drained: a callback adds to the end of the queue what it enqueues directly. */
  ghost function FiredOf(queue: seq<Reaction>): seq<Reaction>
    decreases Weight(queue), 0
  {
    if queue == [] then []
    else
      NextWeight(queue);
      [queue[0]] + Fired(queue[0].body) + FiredOf(NextQueue(queue))
  }

  /** The queue when its first reaction has fired and the callback has run. */
  ghost function NextQueue(queue: seq<Reaction>): seq<Reaction>
    requires queue != []
  {
    queue[1..] + Direct(queue[0].body)
  }

  lemma NextWeight(queue: seq<Reaction>)
    requires queue != []
    ensures Weight(NextQueue(queue)) < Weight(queue)
  {
    DirectWeight(queue[0].body);
    WeightConcat(queue[1..], Direct(queue[0].body));
  }

  ghost function Appended(s: State, queue: seq<Reaction>): State {
    if s.stack == [] then s.(backup := s.backup + queue) else WithTop(s, Top(s) + queue)
  }

  ghost function Logged(s: State, more: seq<Reaction>): State { s.(log := s.log + more) }

  /** A run leaves what it enqueued directly and fires the rest. */
  ghost function After(s: State, script: Script): State { Logged(Appended(s, Direct(script)), Fired(script)) }

  lemma AppendedNothing(s: State)
    ensures Appended(s, []) == s && Logged(s, []) == s
  {
    assert s.backup + [] == s.backup && Top(s) + [] == Top(s) && s.log + [] == s.log;
    if s.stack != [] { assert s.stack == Lower(s) + [Top(s)]; }
  }

  lemma AfterEnqueue(s: State, r: Reaction, rest: Script)
    ensures After(Route(s, r), rest) == After(s, Enqueue(r, rest))
  {
    hide Fired;
    RouteAppends(s, r);
    var more := Direct(rest);
    assert (s.backup + [r]) + more == s.backup + ([r] + more);
    assert (Top(s) + [r]) + more == Top(s) + ([r] + more);
    FiredEnqueue(r, rest);
  }

  lemma FiredEnqueue(r: Reaction, rest: Script)
    ensures Fired(Enqueue(r, rest)) == Fired(rest)
  {
  }

  lemma AfterScope(s: State, inner: Script, rest: Script)
    ensures After(Logged(s, Fired(inner) + FiredOf(Direct(inner))), rest) == After(s, Scope(inner, rest))
  {
    hide Fired, FiredOf, Weight, Size, Direct;
    FiredScope(inner, rest);
    DirectScope(inner, rest);
    var a := Fired(inner) + FiredOf(Direct(inner));
    assert (s.log + a) + Fired(rest) == s.log + (a + Fired(rest));
  }

  lemma FiredScope(inner: Script, rest: Script)
    ensures Fired(Scope(inner, rest)) == Fired(inner) + FiredOf(Direct(inner)) + Fired(rest)
  {
  }

  lemma DirectScope(inner: Script, rest: Script)
    ensures Direct(Scope(inner, rest)) == Direct(rest)
  {
  }

  /** The scope's queue when its body has run. */
  lemma ScopeBody(s: State, inner: Script)
    ensures var body := After(Opened(s), inner);
            body.stack != [] && Top(body) == Direct(inner) && Closed(body) == Logged(s, Fired(inner))
    ensures After(Opened(s), inner).(stack := s.stack + [[]]) == Opened(Logged(s, Fired(inner)))
  {
    assert Lower(Opened(s)) == s.stack && Top(Opened(s)) == [] && [] + Direct(inner) == Direct(inner);
    assert Appended(Opened(s), Direct(inner)).stack == s.stack + [Direct(inner)];
  }

  /** The order in which everything fires, for every callback tree. */
  lemma {:induction false} FiresInOrder(s: State, script: Script)
    ensures Run(s, script) == After(s, script)
    decreases Size(script)
  {
    hide Route, Drain, After, Fired, FiredOf, Weight, Closed, Top, Lower, WithTop, Logged, Opened, Direct;
    match script
    case Done => AfterDone(s);
    case Enqueue(r, rest) =>
      FiresInOrder(Route(s, r), rest);
      AfterEnqueue(s, r, rest);
    case Scope(inner, rest) =>
      FiresInOrder(Opened(s), inner);
      ScopeBody(s, inner);
      DirectWeight(inner);
      DrainFires(After(Opened(s), inner), Size(inner));
      ScopeDrained(s, inner);
      FiresInOrder(Logged(s, Fired(inner) + FiredOf(Direct(inner))), rest);
      AfterScope(s, inner, rest);
  }

  lemma AfterDone(s: State)
    ensures After(s, Done) == s
  {
    AppendedNothing(s);
  }

  lemma ScopeDrained(s: State, inner: Script)
    ensures var body := After(Opened(s), inner);
            body.stack != []
            && Closed(Logged(WithTop(body, []), FiredOf(Top(body)))) == Logged(s, Fired(inner) + FiredOf(Direct(inner)))
  {
    hide Fired, FiredOf;
    ScopeBody(s, inner);
    var body := After(Opened(s), inner);
    assert (s.log + Fired(inner)) + FiredOf(Direct(inner)) == s.log + (Fired(inner) + FiredOf(Direct(inner)));
    assert Lower(body) == s.stack;
  }

  /** The order in which a closing scope fires. */
  lemma {:induction false} DrainFires(s: State, bound: nat)
    requires s.stack != [] && Weight(Top(s)) <= bound
    ensures Drain(s) == Logged(WithTop(s, []), FiredOf(Top(s)))
    decreases bound, Weight(Top(s))
  {
    hide Run, After, Fired, FiredOf, NextQueue;
    if Top(s) == [] {
      AppendedNothing(s);
      assert WithTop(s, []) == s && FiredOf([]) == [] by { NothingFired(); }
    } else {
      var t := Taken(s);
      FiresInOrder(t, Top(s)[0].body);
      NextWeight(Top(s));
      DrainedOne(s);
      DrainFires(After(t, Top(s)[0].body), bound);
    }
  }

  lemma NothingFired()
    ensures FiredOf([]) == []
  {
  }

  lemma DrainedOne(s: State)
    requires s.stack != [] && Top(s) != []
    ensures var u := After(Taken(s), Top(s)[0].body);
            && u.stack != [] && Top(u) == NextQueue(Top(s))
            && Logged(WithTop(u, []), FiredOf(Top(u))) == Logged(WithTop(s, []), FiredOf(Top(s)))
  {
    hide Fired;
    var r, more := Top(s)[0], FiredOf(NextQueue(Top(s)));
    assert ((s.log + [r]) + Fired(r.body)) + more == s.log + ([r] + Fired(r.body) + more);
  }

  // ----- the flat array

  lemma GrownSlice(s: seq<Reaction>, r: Reaction, a: nat)
    requires a <= |s|
    ensures (s + [r])[a..|s| + 1] == s[a..|s|] + [r]
  {
  }

  lemma CutSlice(s: seq<Reaction>, n: nat, a: nat, b: nat)
    requires a <= b <= n <= |s|
    ensures s[..n][a..b] == s[a..b]
  {
  }

  /** An open scope: where its part of the array starts and how far it has been fired. */
  datatype Open = Open(start: nat, fired: nat)

  /** The open scopes below the innermost one, and the innermost one. */
  datatype Mark = Mark(lower: seq<Open>, checkpoint: nat, fired: nat)

  class Reactions {
    var queue: seq<Reaction>
    var backup: seq<Reaction>
    var activeScopes: nat
    var backupScheduled: bool
    /** Drains waiting in the microtask queue, and what has fired. */
    var microtasks: nat
    var log: seq<Reaction>
    ghost var scopes: seq<Open>
    /** How far a running drain of the backup queue has come. */
    ghost var backupFired: nat
    ghost var draining: bool

    ghost function End(k: nat): nat
      reads this
    {
      if k + 1 < |scopes| then scopes[k + 1].start else |queue|
    }

    /** A reaction waits in the backup queue only while a drain is scheduled or running, and at most one is. */
    ghost predicate Valid()
      reads this
    {
      && |scopes| == activeScopes
      && (forall k :: 0 <= k < |scopes| ==> scopes[k].start <= scopes[k].fired <= |queue|)
      && (forall j, k :: 0 <= j < k < |scopes| ==> scopes[j].fired <= scopes[k].start)
      && (if scopes == [] then queue == [] else scopes[0].start == 0)
      && backupFired <= |backup| && (!draining ==> backupFired == 0)
      && (backup != [] ==> backupScheduled)
      && microtasks == (if backupScheduled && !draining then 1 else 0)
      && (draining ==> backupScheduled)
    }

    ghost function Abs(): State
      requires Valid()
      reads this
    {
      State(seq(|scopes|, k requires 0 <= k < |scopes| reads this requires Valid() => queue[scopes[k].fired..End(k)]),
            backup[backupFired..], log)
    }

    twostate predicate SameBackup()
      reads this
    {
      && backup == old(backup) && backupScheduled == old(backupScheduled) && microtasks == old(microtasks)
      && backupFired == old(backupFired) && draining == old(draining)
    }

    constructor ()
      ensures Valid() && Abs() == State([], [], []) && microtasks == 0 && !draining
    {
      queue, backup, activeScopes, backupScheduled, microtasks, log := [], [], 0, false, 0, [];
      scopes, backupFired, draining := [], 0, false;
    }

    method Push() returns (checkpoint: nat)
      requires Valid()
      modifies this
      ensures Valid() && Abs() == Opened(old(Abs()))
      ensures checkpoint == |queue| && queue == old(queue) && activeScopes == old(activeScopes) + 1
      ensures scopes == old(scopes) + [Open(checkpoint, checkpoint)]
      ensures SameBackup()
    {
      activeScopes := activeScopes + 1;
      checkpoint := |queue|;
      scopes := scopes + [Open(checkpoint, checkpoint)];
    }

    method RouteTo(reaction: Reaction)
      requires Valid()
      modifies this`queue, this`backup, this`backupScheduled, this`microtasks
      ensures Valid() && Abs() == Route(old(Abs()), reaction)
      ensures old(queue) <= queue && old(backup) <= backup
      ensures activeScopes > 0 ==> backup == old(backup)
    {
      hide Weight, Size, Route, Abs;
      if activeScopes > 0 {
        queue := queue + [reaction];
        ToQueue(reaction);
        return;
      }
      backup := backup + [reaction];
      if !backupScheduled {
        microtasks := microtasks + 1;
        backupScheduled := true;
      }
      ToBackup(reaction);
    }

    twostate lemma ToQueue(reaction: Reaction)
      requires old(Valid()) && Valid() && activeScopes > 0 && queue == old(queue) + [reaction]
      requires scopes == old(scopes) && backup == old(backup) && backupFired == old(backupFired) && log == old(log)
      ensures Abs() == Route(old(Abs()), reaction)
    {
      hide Weight, Size, Route;
      var was := old(Abs());
      RouteTop(was, reaction);
      LowerKept(reaction);
      TopGrown(reaction);
      assert Abs().stack == Lower(was) + [Top(was) + [reaction]];
    }

    twostate lemma LowerKept(reaction: Reaction)
      requires old(Valid()) && Valid() && activeScopes > 0 && queue == old(queue) + [reaction] && scopes == old(scopes)
      ensures |Abs().stack| == |old(Abs()).stack| == |scopes|
      ensures forall k :: 0 <= k < |scopes| - 1 ==> Abs().stack[k] == old(Abs()).stack[k]
    {
      forall k | 0 <= k < |scopes| - 1
        ensures Abs().stack[k] == old(Abs()).stack[k]
      {
        assert End(k) == old(End(k)) <= |old(queue)|;
      }
    }

    twostate lemma TopGrown(reaction: Reaction)
      requires old(Valid()) && Valid() && activeScopes > 0 && queue == old(queue) + [reaction] && scopes == old(scopes)
      ensures Top(Abs()) == Top(old(Abs())) + [reaction]
    {
      GrownSlice(old(queue), reaction, scopes[|scopes| - 1].fired);
    }

    lemma RouteTop(s: State, r: Reaction)
      requires s.stack != []
      ensures Route(s, r) == WithTop(s, Top(s) + [r])
    {
    }

    twostate lemma ToBackup(reaction: Reaction)
      requires old(Valid()) && Valid() && activeScopes == 0 && backup == old(backup) + [reaction]
      requires scopes == old(scopes) && queue == old(queue) && backupFired == old(backupFired) && log == old(log)
      ensures Abs() == Route(old(Abs()), reaction)
    {
      hide Weight, Size;
      assert Abs().backup == old(Abs()).backup + [reaction];
    }

    /** Runs a callback; scopes are opened and closed in pairs. */
    method RunScript(script: Script)
      requires Valid()
      modifies this
      ensures Valid() && Abs() == Run(old(Abs()), script)
      ensures scopes == old(scopes) && draining == old(draining) && backupFired == old(backupFired)
      ensures old(queue) <= queue && old(backup) <= backup
      ensures activeScopes == old(activeScopes) && (activeScopes > 0 ==> backup == old(backup))
      decreases Size(script), 0
    {
      hide Abs, Route, Drain, Opened, Closed, Weight, Valid, Top, Lower;
      match script
      case Done =>
      case Enqueue(reaction, rest) =>
        RouteTo(reaction);
        RunScript(rest);
      case Scope(inner, rest) =>
        var checkpoint := Push();
        OpenedTop(old(Abs()));
        RunScript(inner);
        PopAndInvoke(checkpoint);
        RunScript(rest);
    }

    lemma OpenedTop(s: State)
      ensures Top(Opened(s)) == [] && Weight(Top(Opened(s))) == 0 && Opened(s).stack != []
              && Opened(s).backup == s.backup
    {
    }

    /** The innermost scope has fired up to `m.fired`. */
    ghost predicate At(m: Mark)
      reads this
    {
      Valid() && scopes == m.lower + [Open(m.checkpoint, m.fired)]
    }

    lemma TopIs(m: Mark)
      requires At(m)
      ensures m.checkpoint <= m.fired <= |queue| && Abs().stack != [] && Top(Abs()) == queue[m.fired..]
      ensures m.fired < |queue| ==> Top(Abs()) != [] && Top(Abs())[0] == queue[m.fired]
    {
      assert scopes[|m.lower|] == Open(m.checkpoint, m.fired);
    }

    twostate lemma Advances(m: Mark)
      requires old(At(m)) && m.fired < |queue| && scopes == m.lower + [Open(m.checkpoint, m.fired + 1)]
      requires queue == old(queue) && activeScopes == old(activeScopes) && SameBackup()
      ensures At(m.(fired := m.fired + 1))
    {
      assert old(scopes)[|m.lower|] == Open(m.checkpoint, m.fired);
      assert forall k :: 0 <= k < |m.lower| ==> scopes[k] == old(scopes)[k];
    }

    /** Moving the mark past one reaction and logging it takes it from the innermost queue. */
    twostate lemma TopTaken(m: Mark)
      requires old(At(m)) && m.fired < |queue| && At(m.(fired := m.fired + 1))
      requires queue == old(queue) && backup == old(backup) && backupFired == old(backupFired)
               && log == old(log) + [queue[m.fired]]
      ensures old(Top(Abs())) != [] && Abs() == Taken(old(Abs()))
    {
      var was := old(Abs());
      assert forall k :: 0 <= k < |m.lower| ==> Abs().stack[k] == was.stack[k];
      assert Lower(Abs()) == Lower(was);
      assert Abs().stack == Lower(was) + [Top(was)[1..]];
    }

    lemma Takes(s: State)
      requires s.stack != [] && Top(s) != []
      ensures Drain(Run(Taken(s), Top(s)[0].body)) == Drain(s)
      ensures Weight(Top(Run(Taken(s), Top(s)[0].body))) < Weight(Top(s)) && Size(Top(s)[0].body) < Weight(Top(s))
    {
    }

    method FireNext(i: nat, ghost m: Mark)
      requires At(m) && m.fired == i < |queue|
      modifies this
      ensures At(m.(fired := i + 1)) && old(queue) <= queue && activeScopes == old(activeScopes)
      ensures backup == old(backup) && draining == old(draining) && backupFired == old(backupFired)
      ensures old(Top(Abs())) != [] && Abs() == Run(Taken(old(Abs())), old(Top(Abs()))[0].body)
      decreases Weight(Top(Abs())), 0
    {
      hide Abs, Run, Weight, Taken;
      TopIs(m);
      Takes(Abs());
      log := log + [queue[i]];
      scopes := m.lower + [Open(m.checkpoint, i + 1)];
      Advances(m);
      TopTaken(m);
      RunScript(queue[i].body);
    }

    twostate lemma Closing(m: Mark)
      requires old(At(m)) && m.checkpoint <= m.fired == |old(queue)| && queue == old(queue)[..m.checkpoint]
      requires scopes == m.lower && activeScopes == old(activeScopes) - 1 && SameBackup() && log == old(log)
      ensures Valid() && Abs() == Closed(old(Abs()))
    {
      var was := old(Abs());
      assert old(scopes)[|m.lower|] == Open(m.checkpoint, m.fired);
      assert forall k :: 0 <= k < |m.lower| ==> scopes[k] == old(scopes)[k];
      assert Valid();
      forall k | 0 <= k < |m.lower|
        ensures Abs().stack[k] == was.stack[k]
      {
        assert End(k) == old(End(k)) && End(k) <= m.checkpoint;
        CutSlice(old(queue), m.checkpoint, scopes[k].fired, End(k));
      }
      assert Abs().stack == Lower(was);
    }

    lemma ActiveIs()
      requires Valid()
      ensures activeScopes == |scopes|
    {
    }

    /** Fires what was queued since the checkpoint, then cuts the array back to it. */
    method PopAndInvoke(checkpoint: nat)
      requires Valid() && scopes != [] && scopes[|scopes| - 1] == Open(checkpoint, checkpoint)
      modifies this
      ensures Valid() && Abs() == Closed(Drain(old(Abs())))
      ensures queue == old(queue)[..checkpoint] && activeScopes == old(activeScopes) - 1
      ensures scopes == old(scopes)[..|old(scopes)| - 1]
      ensures backup == old(backup) && draining == old(draining) && backupFired == old(backupFired)
      decreases Weight(Top(Abs())), 1
    {
      hide Abs, Run, Weight, Closed, Drain, Valid, Top, Size, Taken;
      var i: nat := checkpoint;
      ghost var m := Mark(scopes[..|scopes| - 1], checkpoint, i);
      assert At(m);
      TopIs(m);
      ActiveIs();
      while i < |queue|
        invariant At(m) && m.fired == i && m.checkpoint == checkpoint && m.lower == old(scopes)[..|old(scopes)| - 1]
        invariant old(queue) <= queue && checkpoint <= i && activeScopes == old(activeScopes)
        invariant backup == old(backup) && draining == old(draining) && backupFired == old(backupFired)
        invariant Abs().stack != [] && Drain(Abs()) == Drain(old(Abs()))
                  && Weight(Top(Abs())) <= Weight(Top(old(Abs())))
        decreases Weight(Top(Abs()))
      {
        TopIs(m);
        Takes(Abs());
        FireNext(i, m);
        i := i + 1;
        m := m.(fired := i);
      }
      TopIs(m);
      Drained(Abs());
      label Over:
      queue := queue[..checkpoint];
      scopes := m.lower;
      activeScopes := activeScopes - 1;
      Closing@Over(m);
    }

    lemma Drained(s: State)
      requires s.stack != [] && Top(s) == []
      ensures Drain(s) == s
    {
    }

    // ----- the backup queue

    twostate lemma BackupTaken(i: nat)
      requires old(Valid()) && Valid() && i < |backup| && old(backupFired) == i && backupFired == i + 1
      requires queue == old(queue) && scopes == old(scopes) && backup == old(backup) && log == old(log) + [backup[i]]
      ensures old(Abs()).backup != [] && Abs() == TakenBackup(old(Abs())) && old(Abs()).backup[0] == backup[i]
    {
      assert backup[i..][1..] == backup[i + 1..];
    }

    lemma BackupTakes(s: State)
      requires s.backup != []
      ensures DrainBackup(Run(TakenBackup(s), s.backup[0].body)) == DrainBackup(s)
      ensures Weight(Run(TakenBackup(s), s.backup[0].body).backup) < Weight(s.backup)
    {
    }

    method FireBackup(i: nat)
      requires Valid() && draining && backupFired == i < |backup|
      modifies this
      ensures Valid() && draining && backupFired == i + 1 && scopes == old(scopes)
      ensures old(Abs()).backup != [] && Abs() == Run(TakenBackup(old(Abs())), old(Abs()).backup[0].body)
    {
      hide Abs, Run, TakenBackup;
      BackupIs();
      log := log + [backup[i]];
      backupFired := i + 1;
      BackupTaken(i);
      RunScript(backup[i].body);
    }

    /** The scheduled microtask. New reactions join the queue that is being drained. */
    method DrainAll()
      requires Valid() && microtasks > 0
      modifies this
      ensures Valid() && Abs() == DrainBackup(old(Abs()))
      ensures microtasks == 0 && !draining && backup == [] && scopes == old(scopes)
    {
      hide Abs, Run, Weight, DrainBackup, TakenBackup;
      microtasks := microtasks - 1;
      draining := true;
      StackSame();
      var i: nat := 0;
      while i < |backup|
        invariant Valid() && draining && backupFired == i <= |backup| && scopes == old(scopes)
        invariant DrainBackup(Abs()) == DrainBackup(old(Abs()))
        decreases Weight(Abs().backup)
      {
        BackupIs();
        BackupTakes(Abs());
        FireBackup(i);
        i := i + 1;
      }
      BackupIs();
      BackupDrained(Abs());
      EndDrain();
    }

    method EndDrain()
      requires Valid() && draining && backupFired == |backup|
      modifies this`backup, this`backupScheduled, this`draining, this`backupFired
      ensures Valid() && Abs() == old(Abs()) && microtasks == 0 && !draining && backup == []
    {
      hide Abs;
      backup := [];
      backupScheduled := false;
      draining, backupFired := false, 0;
      StackSame();
    }

    lemma BackupIs()
      requires Valid()
      ensures Abs().backup == backup[backupFired..] && Abs().log == log
    {
    }

    twostate lemma StackSame()
      requires old(Valid()) && Valid() && scopes == old(scopes) && queue == old(queue)
      requires backup[backupFired..] == old(backup[backupFired..]) && log == old(log)
      ensures Abs() == old(Abs())
    {
      assert forall k :: 0 <= k < |scopes| ==> Abs().stack[k] == old(Abs()).stack[k];
      assert Abs().stack == old(Abs()).stack;
    }

    lemma BackupDrained(s: State)
      requires s.backup == []
      ensures DrainBackup(s) == s
    {
    }
  }

  /** A whole run: whatever a script and its callbacks enqueue, in scopes or outside, has fired exactly once
      when the microtask has run, and nothing is left in either queue. */
  method WholeRun(script: Script) returns (r: Reactions)
    ensures fresh(r) && r.queue == [] && r.backup == [] && r.activeScopes == 0 && r.microtasks == 0
    ensures multiset(r.log) == All(script)
  {
    r := new Reactions();
    r.RunScript(script);
    BackupFiresAll(script);
    if r.microtasks > 0 {
      r.DrainAll();
    } else {
      r.BackupDrained(r.Abs());
    }
  }
}
