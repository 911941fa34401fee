/** Why things happen in a run of the server, told by the moments of the run: why a handler tears its connection down,
    why a socket gets no handler, which steps of the teardown are taken, and that connections do get served. */
module ServerRuns {
  import opened Collections
  import opened Server

  // ----- the moments of a run

  ghost function Moment(s: State, actions: seq<Action>, n: nat): State
    requires Run(s, actions).Some? && n <= |actions|
    decreases n
  {
    if n == 0 then s else Moment(Next(s, actions[0]).value, actions[1..], n - 1)
  }

  lemma {:induction false} MomentNext(s: State, actions: seq<Action>, n: nat)
    requires Run(s, actions).Some? && n < |actions|
    ensures Next(Moment(s, actions, n), actions[n]) == Some(Moment(s, actions, n + 1))
    decreases n
  {
    hide Next;
    if n > 0 { MomentNext(Next(s, actions[0]).value, actions[1..], n - 1); }
  }

  lemma {:induction false} MomentLast(s: State, actions: seq<Action>)
    requires Run(s, actions).Some?
    ensures Moment(s, actions, |actions|) == Run(s, actions).value
    decreases |actions|
  {
    hide Next;
    if actions != [] { MomentLast(Next(s, actions[0]).value, actions[1..]); }
  }

  lemma {:induction false} MomentKeeps(s: State, actions: seq<Action>, n: nat)
    requires Inv(s) && Run(s, actions).Some? && n <= |actions|
    ensures Inv(Moment(s, actions, n))
    decreases n
  {
    hide Next, Inv;
    if n > 0 {
      StepKeeps(s, actions[0]);
      MomentKeeps(Next(s, actions[0]).value, actions[1..], n - 1);
    }
  }

  lemma InitKeeps(max: nat)
    ensures Inv(Init(max))
  {
    assert Running(Init(max).conns) == {};
  }

  // ----- the way of a handler

  /** The places of a handler in the order of the program. */
  function Stage(pc: HandlerPc): nat {
    match pc
    case Spawned => 0 case Creating => 1 case Created => 2 case Initialised => 3 case Tracking => 4 case Tracked => 5
    case Upgraded => 6 case GoingLive => 7 case Live => 8 case Registered => 9 case Ticking => 10
    case Unregistering => 11 case ToUntrack => 12 case Untracking => 13 case ToDeinit => 14 case ToDestroy => 15
    case Destroying => 16 case ToClose => 17 case ToLeave => 18 case Done => 19
  }

  /** One place on, but for the three early ends and the tick loop. */
  predicate Goes(s: State, id: nat, ok: bool, t: State) {
    && id in s.conns && id in t.conns
    && var pc := s.conns[id].pc;
    Stage(t.conns[id].pc) == if pc.Created? && !ok then 15 else if pc.Tracked? && !ok then 12
                             else if pc.Registered? && s.flag then 11 else if pc.Ticking? && ok then 10
                             else Stage(pc) + 1
  }

  lemma HandlerGoesOn(s: State, id: nat, ok: bool)
    requires id in s.conns && Handle(s, id, ok).Some?
    ensures var t := Handle(s, id, ok).value;
            && t.conns.Keys == s.conns.Keys && t.flag == s.flag && Goes(s, id, ok, t)
            && t.conns[id].live == (s.conns[id].live || s.conns[id].pc.GoingLive?)
            && forall x :: x in s.conns && x != id ==> t.conns[x] == s.conns[x]
  {
    hide Handle, Goes;
    HandleMoves(s, id, ok);
    OwnPlace(s, id, ok);
  }

  /** `t` has the handler at the place. */
  predicate Put(t: Option<State>, id: nat, pc: HandlerPc) {
    t.Some? ==> id in t.value.conns && t.value.conns[id].pc == pc
  }

  lemma Puts(id: nat)
    ensures forall u: State, pc :: id in u.conns ==> Put(To(u, id, pc), id, pc)
    ensures forall u: State, pc :: id in u.conns ==> Put(Enter(u, id, pc), id, pc)
    ensures forall u: State, pc :: id in u.conns ==> Put(Leave(u, id, pc), id, pc)
  {
  }

  lemma OwnPlace(s: State, id: nat, ok: bool)
    requires id in s.conns && Handle(s, id, ok).Some?
    ensures Goes(s, id, ok, Handle(s, id, ok).value)
  {
    hide Handle, Goes;
    if Stage(s.conns[id].pc) < 9 { EarlyPlace(s, id, ok); } else { LatePlace(s, id, ok); }
  }

  lemma EarlyPlace(s: State, id: nat, ok: bool)
    requires id in s.conns && Handle(s, id, ok).Some? && Stage(s.conns[id].pc) < 9
    ensures Goes(s, id, ok, Handle(s, id, ok).value)
  {
    hide Untrack, Close, To, Enter, Leave;
    Puts(id);
  }

  lemma LatePlace(s: State, id: nat, ok: bool)
    requires id in s.conns && Handle(s, id, ok).Some? && Stage(s.conns[id].pc) >= 9
    ensures Goes(s, id, ok, Handle(s, id, ok).value)
  {
    hide Untrack, Close, To, Enter, Leave;
    Puts(id);
  }

  // ----- why a handler tears down

  /** From the first deferred step on. */
  predicate TornDown(pc: HandlerPc) { Stage(pc) >= 11 }

  predicate HasTornDown(s: State, id: nat) { id in s.conns && TornDown(s.conns[id].pc) }

  /** Initialising or upgrading the connection fails, the flag is seen before the first tick, or a tick ends the
      loop. */
  predicate GivesUp(s: State, a: Action, id: nat) {
    && id in s.conns && a.HandlerStep? && a.id == id
    && var pc := s.conns[id].pc;
    (pc.Created? && !a.ok) || (pc.Tracked? && !a.ok) || (pc.Registered? && s.flag) || (pc.Ticking? && !a.ok)
  }

  predicate IsLive(s: State, id: nat) { id in s.conns && s.conns[id].live }

  /** A handler starts tearing down for one of these reasons, and what is live then stays live. */
  lemma StepTearsDown(s: State, a: Action, id: nat)
    requires Inv(s) && Next(s, a).Some? && HasTornDown(Next(s, a).value, id)
    ensures if HasTornDown(s, id) then IsLive(s, id) == IsLive(Next(s, a).value, id) else GivesUp(s, a, id)
    ensures GivesUp(s, a, id) ==> IsLive(s, id) == IsLive(Next(s, a).value, id)
  {
    hide Counted, ClosedOnce, Registry, LiveFirst, Disturbed, FreedLast, Handle, StopNext, Admit;
    match a
    case Acceptance(ok) => AdmitMoves(s, ok);
    case HandlerStep(h, ok) => HandlerGoesOn(s, h, ok);
    case StopperStep(k) => StopMoves(s, k);
    case _ =>
  }

  lemma {:induction false} TearsDownAt(s: State, actions: seq<Action>, id: nat, k: nat) returns (n: nat)
    requires Inv(s) && Run(s, actions).Some? && k <= |actions|
    requires !HasTornDown(s, id) && HasTornDown(Moment(s, actions, k), id)
    ensures n < k && GivesUp(Moment(s, actions, n), actions[n], id)
    ensures IsLive(Moment(s, actions, n), id) == IsLive(Moment(s, actions, k), id)
    decreases k
  {
    hide Next, Inv, Run, HasTornDown, GivesUp, IsLive;
    assert Moment(s, actions, 0) == s;
    MomentNext(s, actions, k - 1);
    MomentKeeps(s, actions, k - 1);
    StepTearsDown(Moment(s, actions, k - 1), actions[k - 1], id);
    if HasTornDown(Moment(s, actions, k - 1), id) {
      n := TearsDownAt(s, actions, id, k - 1);
    } else {
      n := k - 1;
    }
  }

  /** No handler goes live before it is upgraded. */
  ghost predicate LiveLate(s: State) {
    forall id :: id in s.conns && s.conns[id].live ==> Stage(s.conns[id].pc) >= 8
  }

  lemma StepLiveLate(s: State, a: Action)
    requires Inv(s) && LiveLate(s) && Next(s, a).Some?
    ensures LiveLate(Next(s, a).value)
  {
    hide Counted, ClosedOnce, Registry, LiveFirst, Disturbed, FreedLast, Handle, StopNext, Admit;
    match a
    case Acceptance(ok) => AdmitMoves(s, ok);
    case HandlerStep(h, ok) => HandlerGoesOn(s, h, ok);
    case StopperStep(k) => StopMoves(s, k);
    case _ =>
  }

  lemma {:induction false} MomentLiveLate(s: State, actions: seq<Action>, n: nat)
    requires Inv(s) && LiveLate(s) && Run(s, actions).Some? && n <= |actions|
    ensures LiveLate(Moment(s, actions, n))
    decreases n
  {
    hide Next, Inv, LiveLate;
    if n > 0 {
      StepKeeps(s, actions[0]);
      StepLiveLate(s, actions[0]);
      MomentLiveLate(Next(s, actions[0]).value, actions[1..], n - 1);
    }
  }

  /** Every handler that is tearing down or done had a reason to give up. */
  lemma TornDownForReason(max: nat, actions: seq<Action>, id: nat) returns (n: nat)
    requires Run(Init(max), actions).Some? && HasTornDown(Run(Init(max), actions).value, id)
    ensures n < |actions| && GivesUp(Moment(Init(max), actions, n), actions[n], id)
    ensures IsLive(Moment(Init(max), actions, n), id) == IsLive(Run(Init(max), actions).value, id)
  {
    hide Next, Run, GivesUp;
    InitKeeps(max);
    MomentLast(Init(max), actions);
    n := TearsDownAt(Init(max), actions, id, |actions|);
  }

  /** A connection that went live has been ticked, unless its handler saw the flag before the first tick. */
  lemma ServedUnlessWarned(max: nat, actions: seq<Action>, id: nat) returns (n: nat)
    requires Run(Init(max), actions).Some? && HasTornDown(Run(Init(max), actions).value, id)
    requires Run(Init(max), actions).value.conns[id].live
    ensures n < |actions| && var s := Moment(Init(max), actions, n);
                             id in s.conns && (s.conns[id].pc.Ticking? || (s.conns[id].pc.Registered? && s.flag))
  {
    hide Next, Run;
    InitKeeps(max);
    n := TornDownForReason(max, actions, id);
    MomentLiveLate(Init(max), actions, n);
  }

  // ----- the steps of the teardown

  /** What a handler that has come to `now` may not leave out: destroying, closing and counting down in any case,
      untracking and deinitialising once the connection is initialised, unregistering once it is upgraded. */
  predicate Due(now: HandlerPc, stage: nat) {
    stage >= 15 || (stage >= 12 && Stage(now) >= 3) || (stage == 11 && Stage(now) >= 6)
  }

  lemma StepTakesDue(s: State, a: Action, id: nat, stage: nat)
    requires Inv(s) && Next(s, a).Some? && id in s.conns && Due(s.conns[id].pc, stage)
    requires Stage(s.conns[id].pc) < stage <= 19
    ensures var t := Next(s, a).value;
            id in t.conns && Stage(s.conns[id].pc) <= Stage(t.conns[id].pc) <= stage && Due(t.conns[id].pc, stage)
  {
    hide Counted, Registry, LiveFirst, Disturbed, FreedLast, Handle, StopNext, Admit;
    match a
    case Acceptance(ok) => AdmitMoves(s, ok);
    case HandlerStep(h, ok) => HandlerGoesOn(s, h, ok);
    case StopperStep(k) => StopMoves(s, k);
    case _ =>
  }

  /** What is due is done before the handler is past it. */
  lemma {:induction false} DueIsDone(s: State, actions: seq<Action>, id: nat, stage: nat) returns (n: nat)
    requires Inv(s) && Run(s, actions).Some? && id in s.conns && Due(s.conns[id].pc, stage)
    requires Stage(s.conns[id].pc) <= stage <= 19
    requires id in Run(s, actions).value.conns && stage <= Stage(Run(s, actions).value.conns[id].pc)
    ensures n <= |actions|
    ensures id in Moment(s, actions, n).conns && Stage(Moment(s, actions, n).conns[id].pc) == stage
    decreases |actions|
  {
    hide Next, Inv, Due, Stage;
    n := 0;
    if Stage(s.conns[id].pc) < stage {
      StepKeeps(s, actions[0]);
      StepTakesDue(s, actions[0], id, stage);
      n := DueIsDone(Next(s, actions[0]).value, actions[1..], id, stage);
      n := n + 1;
    }
  }

  // ----- why a socket gets no handler

  /** The acceptor has given up on the socket. */
  predicate Refused(s: State, id: nat) {
    && id in s.closes && id !in s.conns
    && (Holds(s.acceptor, id) ==> s.acceptor.Rejecting? || s.acceptor.Uncounting?)
  }

  /** The socket cannot be configured, the flag is seen, the counter that was read is at the limit, or no thread can be
      spawned. */
  predicate Rejects(s: State, a: Action, id: nat) {
    && a.Acceptance? && Holds(s.acceptor, id)
    && ((s.acceptor.Accepted? && !a.ok) || (s.acceptor.Checking? && s.flag)
        || (s.acceptor.Trying? && s.acceptor.current >= s.max) || (s.acceptor.Spawning? && !a.ok))
  }

  lemma AdmitRefuses(s: State, ok: bool, id: nat)
    requires ClosedOnce(s) && Admit(s, ok).Some? && Refused(Admit(s, ok).value, id) && !Refused(s, id)
    ensures Rejects(s, Acceptance(ok), id)
  {
  }

  lemma StepRefuses(s: State, a: Action, id: nat)
    requires Inv(s) && Next(s, a).Some? && Refused(Next(s, a).value, id) && !Refused(s, id)
    ensures Rejects(s, a, id)
  {
    hide Locked, Counted, Registry, LiveFirst, Disturbed, FreedLast, Handle, StopNext, Admit, Untrack, Rejects;
    match a
    case Acceptance(ok) => AdmitRefuses(s, ok, id);
    case HandlerStep(h, ok) => HandleMoves(s, h, ok);
    case StopperStep(k) => StopMoves(s, k);
    case _ =>
  }

  lemma {:induction false} RefusedAt(s: State, actions: seq<Action>, id: nat, k: nat) returns (n: nat)
    requires Inv(s) && Run(s, actions).Some? && k <= |actions|
    requires !Refused(s, id) && Refused(Moment(s, actions, k), id)
    ensures n < k && Rejects(Moment(s, actions, n), actions[n], id)
    decreases k
  {
    hide Next, Inv, Run, Refused, Rejects;
    assert Moment(s, actions, 0) == s;
    MomentNext(s, actions, k - 1);
    MomentKeeps(s, actions, k - 1);
    if Refused(Moment(s, actions, k - 1), id) {
      n := RefusedAt(s, actions, id, k - 1);
    } else {
      StepRefuses(Moment(s, actions, k - 1), actions[k - 1], id);
      n := k - 1;
    }
  }

  lemma StepReads(s: State, a: Action)
    requires Inv(s) && Next(s, a).Some? && Next(s, a).value.acceptor.Trying?
    ensures var now := Next(s, a).value.acceptor;
            (a.Acceptance? && Holds(s.acceptor, now.id) && now.current == s.active) || s.acceptor == now
    ensures Next(s, a).value.max == s.max
  {
    hide Counted, ClosedOnce, Registry, LiveFirst, Disturbed, FreedLast, Handle, StopNext, Admit, Untrack;
    match a
    case Acceptance(ok) => AdmitMoves(s, ok);
    case HandlerStep(h, ok) => HandleMoves(s, h, ok);
    case StopperStep(k) => StopMoves(s, k);
    case _ =>
  }

  /** The counter that the acceptor compares with the limit is one it had since the socket was accepted. */
  lemma {:induction false} CurrentWasRead(s: State, actions: seq<Action>, k: nat) returns (n: nat)
    requires Inv(s) && s.acceptor.Idle? && Run(s, actions).Some? && k <= |actions|
    requires Moment(s, actions, k).acceptor.Trying?
    ensures n < k && var now := Moment(s, actions, k).acceptor;
                     && Holds(Moment(s, actions, n).acceptor, now.id) && Moment(s, actions, n).active == now.current
                     && Moment(s, actions, n).max == Moment(s, actions, k).max
    decreases k
  {
    hide Next, Inv, Run;
    assert Moment(s, actions, 0) == s;
    n := k - 1;
    MomentNext(s, actions, n);
    MomentKeeps(s, actions, n);
    StepReads(Moment(s, actions, n), actions[n]);
    if Moment(s, actions, n).acceptor == Moment(s, actions, k).acceptor { n := CurrentWasRead(s, actions, n); }
  }

  /** A socket that was accepted gets no handler only if configuring it failed, the flag was seen, the counter was at
      the limit at some moment since, or no thread could be spawned. */
  lemma RefusedForReason(max: nat, actions: seq<Action>, id: nat) returns (n: nat)
    requires Run(Init(max), actions).Some? && Refused(Run(Init(max), actions).value, id)
    ensures n < |actions| && Holds(Moment(Init(max), actions, n).acceptor, id)
    ensures var s := Moment(Init(max), actions, n);
            || (s.acceptor.Accepted? && actions[n] == Acceptance(false))
            || (s.acceptor.Checking? && s.flag)
            || s.active == s.max
            || (s.acceptor.Spawning? && actions[n] == Acceptance(false))
  {
    hide Next, Run;
    InitKeeps(max);
    MomentLast(Init(max), actions);
    n := RefusedAt(Init(max), actions, id, |actions|);
    if Moment(Init(max), actions, n).acceptor.Trying? {
      n := CurrentWasRead(Init(max), actions, n);
      MomentKeeps(Init(max), actions, n);
    }
  }

  // ----- who is terminated

  /** Scripts are terminated only in connections that are live, and only once the flag is set. */
  ghost predicate TerminatedLate(s: State) {
    forall id :: id in s.conns && s.conns[id].terminated ==> s.conns[id].live && s.flag
  }

  lemma SweepTerminates(s: State, k: nat)
    requires Inv(s) && TerminatedLate(s) && k in s.stops && StopNext(s, k).Some?
    ensures TerminatedLate(StopNext(s, k).value)
  {
    hide Counted, ClosedOnce, Registry, LiveFirst, FreedLast, Locked;
    assert s.stops[k].pc.Begin? || Warned(s);
  }

  lemma StepTerminates(s: State, a: Action)
    requires Inv(s) && TerminatedLate(s) && Next(s, a).Some?
    ensures TerminatedLate(Next(s, a).value)
  {
    hide Counted, ClosedOnce, Registry, LiveFirst, Disturbed, FreedLast, Handle, StopNext, Admit, Untrack;
    match a
    case Acceptance(ok) => AdmitMoves(s, ok);
    case HandlerStep(h, ok) => HandleMoves(s, h, ok);
    case StopperStep(k) => SweepTerminates(s, k);
    case _ =>
  }

  lemma {:induction false} RunTerminates(s: State, actions: seq<Action>)
    requires Inv(s) && TerminatedLate(s) && Run(s, actions).Some?
    ensures TerminatedLate(Run(s, actions).value)
    decreases |actions|
  {
    hide Next, Inv, TerminatedLate;
    if actions != [] {
      StepKeeps(s, actions[0]);
      StepTerminates(s, actions[0]);
      RunTerminates(Next(s, actions[0]).value, actions[1..]);
    }
  }

  /** No script is terminated before the flag is set, and none in a connection that has not gone live. */
  lemma OnlyLiveTerminated(max: nat, actions: seq<Action>, id: nat)
    requires Run(Init(max), actions).Some?
    requires id in Run(Init(max), actions).value.conns && Run(Init(max), actions).value.conns[id].terminated
    ensures Run(Init(max), actions).value.conns[id].live && Run(Init(max), actions).value.flag
  {
    hide Next, Run;
    InitKeeps(max);
    RunTerminates(Init(max), actions);
  }

  // ----- connections are served

  /** A handler is kept from its next step only by a lock that another thread holds. */
  lemma HandlerWaitsForLock(s: State, id: nat, ok: bool)
    requires id in s.conns
    ensures Handle(s, id, ok).None? <==>
            var pc := s.conns[id].pc;
            || pc.Done?
            || (s.lock.Some? && (pc.Spawned? || pc.Initialised? || pc.Upgraded? || pc.ToUntrack? || pc.ToDestroy?))
  {
    hide Untrack, Close;
  }

  function Steps(id: nat, n: nat): seq<Action> {
    if n == 0 then [] else [HandlerStep(id, true)] + Steps(id, n - 1)
  }

  /** With nobody else in a critical section and the flag unset, the handler goes on into its tick loop. */
  lemma {:induction false} GoesOn(s: State, id: nat, n: nat)
    requires Inv(s) && id in s.conns && !s.flag && Stage(s.conns[id].pc) + n <= 10
    requires s.lock.None? || InSection(s.conns[id].pc)
    ensures Run(s, Steps(id, n)).Some?
    ensures var t := Run(s, Steps(id, n)).value;
            id in t.conns && Stage(t.conns[id].pc) == Stage(s.conns[id].pc) + n && Inv(t) && t.flag == s.flag
    decreases n
  {
    hide Next, Inv, Handle, Run, HandlerMoves, Stage;
    if n == 0 {
      RunFirst(s, HandlerStep(id, true), []);
    } else {
      OneOn(s, id);
      GoesOn(Handle(s, id, true).value, id, n - 1);
      RunFirst(s, HandlerStep(id, true), Steps(id, n - 1));
    }
  }

  lemma OneOn(s: State, id: nat)
    requires Inv(s) && id in s.conns && !s.flag && Stage(s.conns[id].pc) < 10
    requires s.lock.None? || InSection(s.conns[id].pc)
    ensures Handle(s, id, true).Some? && Next(s, HandlerStep(id, true)) == Handle(s, id, true)
    ensures var t := Handle(s, id, true).value;
            && id in t.conns && Stage(t.conns[id].pc) == Stage(s.conns[id].pc) + 1 && Inv(t) && t.flag == s.flag
            && (t.lock.None? || InSection(t.conns[id].pc))
  {
    hide Inv, Handle;
    HandlerWaitsForLock(s, id, true);
    HandlerGoesOn(s, id, true);
    HandleMoves(s, id, true);
    HandleKeeps(s, id, true);
  }

  function Admission(id: nat): seq<Action> {
    [Accept(id), Acceptance(true), Acceptance(true), Acceptance(true), Acceptance(true), Acceptance(true)]
  }

  /** An accepted socket gets a handler when nothing speaks against it. */
  lemma GetsHandler(s: State, id: nat)
    requires s.acceptor.Idle? && !s.deiniting && !s.flag && s.active < s.max && id !in s.closes && id !in s.conns
    ensures Run(s, Admission(id))
         == Some(s.(closes := s.closes[id := 0], active := s.active + 1,
                    conns := s.conns[id := Conn(Spawned, false, false)]))
  {
    hide Run, Close;
    var ok := Acceptance(true);
    var s1 := s.(acceptor := Accepted(id), closes := s.closes[id := 0]);
    var s2, s3 := s1.(acceptor := Checking(id)), s1.(acceptor := Loading(id));
    var s4, s5 := s1.(acceptor := Trying(id, s.active)), s1.(acceptor := Spawning(id), active := s.active + 1);
    RunFirst(s, Accept(id), [ok, ok, ok, ok, ok]);
    RunFirst(s1, ok, [ok, ok, ok, ok]);
    RunFirst(s2, ok, [ok, ok, ok]);
    RunFirst(s3, ok, [ok, ok]);
    RunFirst(s4, ok, [ok]);
    RunFirst(s5, ok, []);
    RunFirst(s5.(acceptor := Idle, conns := s.conns[id := Conn(Spawned, false, false)]), ok, []);
    assert [Accept(id)] + [ok, ok, ok, ok, ok] == Admission(id) && [ok] + [ok, ok, ok, ok] == [ok, ok, ok, ok, ok];
    assert [ok] + [ok, ok, ok] == [ok, ok, ok, ok] && [ok] + [ok, ok] == [ok, ok, ok] && [ok] + [ok] == [ok, ok]
        && [ok] + [] == [ok];
  }

  lemma {:induction false} RunConcat(s: State, a: seq<Action>, b: seq<Action>)
    requires Run(s, a).Some?
    ensures Run(s, a + b) == Run(Run(s, a).value, b)
    decreases |a|
  {
    hide Next;
    if a == [] {
      assert a + b == b;
    } else {
      assert (a + b)[1..] == a[1..] + b;
      RunConcat(Next(s, a[0]).value, a[1..], b);
    }
  }

  /** Below the limit, with the flag unset and nobody in a critical section, a new connection can come to be live and
      ticked, whatever happened before. */
  lemma NewcomerServed(max: nat, actions: seq<Action>, id: nat)
    requires Run(Init(max), actions).Some?
    requires var s := Run(Init(max), actions).value;
             && s.acceptor.Idle? && !s.deiniting && !s.flag && s.lock.None? && s.active < s.max
             && id !in s.closes
    ensures var run := Run(Init(max), actions + Admission(id) + Steps(id, 10));
            run.Some? && id in run.value.conns && run.value.conns[id].pc.Ticking? && run.value.conns[id].live
  {
    hide Run, Next, Locked, Counted, Registry, Disturbed, FreedLast, Admission, Steps;
    var s := Run(Init(max), actions).value;
    InitKeeps(max);
    RunKeeps(Init(max), actions);
    assert id !in s.conns;
    GetsHandler(s, id);
    RunKeeps(s, Admission(id));
    var t := Run(s, Admission(id)).value;
    GoesOn(t, id, 10);
    var u := Run(t, Steps(id, 10)).value;
    assert u.conns[id].pc.Ticking?;
    assert LiveFirst(u);
    assert u.conns[id].live;
    RunConcat(Init(max), actions, Admission(id));
    RunConcat(Init(max), actions + Admission(id), Steps(id, 10));
    assert Run(Init(max), actions + Admission(id) + Steps(id, 10)) == Some(u);
  }
}
