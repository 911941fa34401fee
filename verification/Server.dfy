/** Connections of the debugging server: the acceptor, one handler thread a connection, and any number of
    threads running a shutdown, interleaved step by step and sequentially consistent. */
module Server {
  import opened Collections

  /** Where a handler thread is. `Creating`, `Tracking`, `GoingLive`, `Untracking` and `Destroying` are its
      critical sections; the deferred steps run in the order from `Unregistering` on. */
  datatype HandlerPc =
    | Spawned | Creating | Created | Initialised | Tracking | Tracked | Upgraded | GoingLive | Live | Registered
    | Ticking | Unregistering | ToUntrack | Untracking | ToDeinit | ToDestroy | Destroying | ToClose | ToLeave | Done

  /** `live` is the state of the connection, `terminated` whether a shutdown has terminated it. */
  datatype Conn = Conn(pc: HandlerPc, live: bool, terminated: bool)

  /** The acceptor between accepting a socket and handing it to a thread or closing it. */
  datatype Acceptor =
    | Idle | Accepted(id: nat) | Checking(id: nat) | Loading(id: nat) | Trying(id: nat, current: int)
    | Spawning(id: nat) | Uncounting(id: nat) | Rejecting(id: nat)

  datatype StopPc = Begin | Wanting | Sweeping(next: nat) | Swept | Freed

  /** A thread running a shutdown, as part of `deinit` or not. */
  datatype Stop = Stop(pc: StopPc, deinit: bool)

  datatype Owner = Handler(id: nat) | Stopper(k: nat)

  /** `closes` counts how often each accepted socket was closed. */
  datatype State = State(flag: bool, lock: Option<Owner>, active: int, max: nat, cdps: seq<nat>, conns: map<nat, Conn>,
                         closes: map<nat, nat>, acceptor: Acceptor, stops: map<nat, Stop>, deiniting: bool)

  datatype Action =
    | Accept(id: nat) | Acceptance(ok: bool) | StartShutdown(k: nat) | StartDeinit(k: nat)
    | HandlerStep(id: nat, ok: bool) | StopperStep(k: nat)

  function Init(max: nat): State { State(false, None, 0, max, [], map[], map[], Idle, map[], false) }

  function To(s: State, id: nat, pc: HandlerPc): Option<State>
    requires id in s.conns
  {
    Some(s.(conns := s.conns[id := s.conns[id].(pc := pc)]))
  }

  /** Entering a critical section waits for the lock. */
  function Enter(s: State, id: nat, pc: HandlerPc): Option<State>
    requires id in s.conns
  {
    if s.lock.None? then To(s.(lock := Some(Handler(id))), id, pc) else None
  }

  function Leave(s: State, id: nat, pc: HandlerPc): Option<State>
    requires id in s.conns
  {
    To(s.(lock := None), id, pc)
  }

  /** Looks for the connection and removes it. */
  function Untrack(list: seq<nat>, id: nat): seq<nat> {
    if id in list then SwapRemove(list, IndexOf(list, id)) else list
  }

  function Close(s: State, id: nat): (t: State)
    ensures t == s.(closes := t.closes)
  {
    s.(closes := s.closes[id := (if id in s.closes then s.closes[id] else 0) + 1])
  }

  function Handle(s: State, id: nat, ok: bool): Option<State>
    requires id in s.conns
  {
    match s.conns[id].pc
    case Spawned => Enter(s, id, Creating)
    case Creating => Leave(s, id, Created)
    case Created => To(s, id, if ok then Initialised else ToDestroy)
    case Initialised => Enter(s, id, Tracking)
    case Tracking => Leave(s.(cdps := s.cdps + [id]), id, Tracked)
    case Tracked => To(s, id, if ok then Upgraded else ToUntrack)
    case Upgraded => Enter(s, id, GoingLive)
    case GoingLive => Some(s.(lock := None, conns := s.conns[id := s.conns[id].(pc := Live, live := true)]))
    case Live => To(s, id, Registered)
    case Registered => To(s, id, if s.flag then Unregistering else Ticking)
    case Ticking => To(s, id, if ok then Ticking else Unregistering)
    case Unregistering => To(s, id, ToUntrack)
    case ToUntrack => Enter(s, id, Untracking)
    case Untracking => Leave(s.(cdps := Untrack(s.cdps, id)), id, ToDeinit)
    case ToDeinit => To(s, id, ToDestroy)
    case ToDestroy => Enter(s, id, Destroying)
    case Destroying => Leave(s, id, ToClose)
    case ToClose => To(Close(s, id), id, ToLeave)
    case ToLeave => To(s.(active := s.active - 1), id, Done)
    case Done => None
  }

  /** `ok` is whether the socket could be configured, the compare-and-swap did not fail spuriously, or the
      thread could be spawned. */
  function Admit(s: State, ok: bool): Option<State> {
    match s.acceptor
    case Idle => None
    case Accepted(id) => if ok then Some(s.(acceptor := Checking(id))) else Some(s.(acceptor := Rejecting(id)))
    case Checking(id) => Some(s.(acceptor := if s.flag then Rejecting(id) else Loading(id)))
    case Loading(id) => Some(s.(acceptor := Trying(id, s.active)))
    case Trying(id, current) =>
      if current >= s.max then Some(s.(acceptor := Rejecting(id)))
      else if ok && s.active == current then Some(s.(active := current + 1, acceptor := Spawning(id)))
      else Some(s.(acceptor := Trying(id, s.active)))
    case Spawning(id) =>
      if ok then Some(s.(conns := s.conns[id := Conn(Spawned, false, false)], acceptor := Idle))
      else Some(s.(acceptor := Uncounting(id)))
    case Uncounting(id) => Some(s.(active := s.active - 1, acceptor := Rejecting(id)))
    case Rejecting(id) => Some(Close(s, id).(acceptor := Idle))
  }

  /** Terminates one tracked connection that is live. */
  function Terminate(s: State, id: nat): State {
    if id in s.conns && s.conns[id].live then s.(conns := s.conns[id := s.conns[id].(terminated := true)]) else s
  }

  function AtStop(s: State, k: nat, pc: StopPc): State
    requires k in s.stops
  {
    s.(stops := s.stops[k := s.stops[k].(pc := pc)])
  }

  function StopNext(s: State, k: nat): Option<State>
    requires k in s.stops
  {
    var stop := s.stops[k];
    match stop.pc
    case Begin => Some(AtStop(s.(flag := true), k, Wanting))
    case Wanting =>
      if s.lock.None? then
        Some(s.(lock := Some(Stopper(k)), stops := s.stops[k := Stop(Sweeping(0), stop.deinit)]))
      else None
    case Sweeping(i) =>
      if i < |s.cdps| then Some(AtStop(Terminate(s, s.cdps[i]), k, Sweeping(i + 1)))
      else Some(AtStop(s.(lock := None), k, Swept))
    case Swept => if stop.deinit && s.active <= 0 then Some(AtStop(s, k, Freed)) else None
    case Freed => None
  }

  /** One step of one thread, if it can be taken. A signal sets the flag before its shutdown. `deinit` starts on
      the accepting thread when the accept loop is over, which it leaves only with the flag set, or when that
      never began and so nothing was ever accepted. */
  function Next(s: State, a: Action): Option<State> {
    match a
    case Accept(id) =>
      if s.acceptor == Idle && !s.deiniting && id !in s.closes && id !in s.conns then
        Some(s.(acceptor := Accepted(id), closes := s.closes[id := 0]))
      else None
    case Acceptance(ok) => Admit(s, ok)
    case StartShutdown(k) => if k in s.stops then None else Some(s.(stops := s.stops[k := Stop(Begin, false)]))
    case StartDeinit(k) =>
      if k in s.stops || s.deiniting || s.acceptor != Idle || !(s.flag || s.closes == map[]) then None
      else Some(s.(stops := s.stops[k := Stop(Wanting, true)], deiniting := true))
    case HandlerStep(id, ok) => if id in s.conns then Handle(s, id, ok) else None
    case StopperStep(k) => if k in s.stops then StopNext(s, k) else None
  }

  // ----- what every step keeps

  predicate InSection(pc: HandlerPc) {
    pc.Creating? || pc.Tracking? || pc.GoingLive? || pc.Untracking? || pc.Destroying?
  }

  /** Between `cdps.append` and `swapRemove`. */
  predicate IsTracked(pc: HandlerPc) {
    pc.Tracked? || pc.Upgraded? || pc.GoingLive? || pc.Live? || pc.Registered? || pc.Ticking?
    || pc.Unregistering? || pc.ToUntrack? || pc.Untracking?
  }

  /** Between `cdp.init` and `cdp.deinit`. */
  predicate IsUsable(pc: HandlerPc) { IsTracked(pc) || pc.Initialised? || pc.Tracking? || pc.ToDeinit? }

  /** The lock is held by whoever is in a critical section. */
  ghost predicate Locked(s: State) {
    && (forall id :: id in s.conns && InSection(s.conns[id].pc) ==> s.lock == Some(Handler(id)))
    && (forall k :: k in s.stops && s.stops[k].pc.Sweeping? ==> s.lock == Some(Stopper(k)))
  }

  ghost function Running(conns: map<nat, Conn>): set<nat> {
    set id | id in conns && !conns[id].pc.Done?
  }

  /** A spawn that has been counted and has not become a thread. */
  function InFlight(a: Acceptor): int { if a.Spawning? || a.Uncounting? then 1 else 0 }

  ghost predicate Counted(s: State) {
    && s.active == |Running(s.conns)| + InFlight(s.acceptor)
    && s.active <= s.max
    && (s.acceptor.Trying? ==> 0 <= s.acceptor.current)
  }

  predicate Holds(a: Acceptor, id: nat) { !a.Idle? && a.id == id }

  ghost predicate ClosedOnce(s: State) {
    && (forall id :: id in s.conns ==> id in s.closes && !Holds(s.acceptor, id))
    && (!s.acceptor.Idle? ==> s.acceptor.id in s.closes)
    && (forall id :: id in s.closes ==>
          s.closes[id] == if id in s.conns then (if s.conns[id].pc.ToLeave? || s.conns[id].pc.Done? then 1 else 0)
                          else if Holds(s.acceptor, id) then 0 else 1)
  }

  ghost predicate Registry(s: State) {
    && Distinct(s.cdps)
    && (forall id :: id in s.cdps ==> id in s.conns && IsTracked(s.conns[id].pc))
    && (forall id :: id in s.conns && IsTracked(s.conns[id].pc) ==> id in s.cdps)
  }

  /** A handler that reached the tick loop went live before. */
  ghost predicate LiveFirst(s: State) {
    forall id :: id in s.conns && (s.conns[id].pc.Live? || s.conns[id].pc.Registered? || s.conns[id].pc.Ticking?)
        ==> s.conns[id].live
  }

  predicate TerminatedIfLive(s: State, id: nat) { id in s.conns && s.conns[id].live ==> s.conns[id].terminated }

  /** The flag is set, or there is nobody to see it and never will be. */
  predicate Warned(s: State) { s.flag || (s.deiniting && s.conns == map[]) }

  /** No sweep begins unwarned, and what a sweep has achieved so far. */
  ghost predicate Disturbed(s: State) {
    && (forall k :: k in s.stops && !s.stops[k].pc.Begin? ==> Warned(s))
    && (forall k, i :: k in s.stops && s.stops[k].pc.Sweeping? && 0 <= i < s.stops[k].pc.next && i < |s.cdps| ==>
          TerminatedIfLive(s, s.cdps[i]))
    && (forall k, id :: k in s.stops && IsOver(s.stops[k]) && id in s.conns && s.conns[id].pc.Ticking? ==>
          s.conns[id].terminated)
  }

  /** The sweep is over. */
  predicate IsOver(stop: Stop) { stop.pc.Swept? || stop.pc.Freed? }

  ghost predicate FreedLast(s: State) {
    && (s.deiniting ==> s.acceptor.Idle?)
    && (forall k :: k in s.stops && s.stops[k].deinit ==> s.deiniting)
    && (forall k, id :: k in s.stops && s.stops[k].pc.Freed? && id in s.conns ==> s.conns[id].pc.Done?)
    && (forall k :: k in s.stops && s.stops[k].pc.Freed? ==> s.stops[k].deinit)
  }

  ghost predicate Inv(s: State) {
    Locked(s) && Counted(s) && ClosedOnce(s) && Registry(s) && LiveFirst(s) && Disturbed(s) && FreedLast(s)
  }

  // ----- steps of the acceptor

  lemma Spawns(conns: map<nat, Conn>, id: nat, c: Conn)
    requires id !in conns && !c.pc.Done?
    ensures |Running(conns[id := c])| == |Running(conns)| + 1
  {
    assert Running(conns[id := c]) == Running(conns) + {id};
  }

  lemma Moves(conns: map<nat, Conn>, id: nat, c: Conn)
    requires id in conns && (conns[id].pc.Done? <==> c.pc.Done?)
    ensures Running(conns[id := c]) == Running(conns)
  {
  }

  lemma Ends(conns: map<nat, Conn>, id: nat, c: Conn)
    requires id in conns && !conns[id].pc.Done? && c.pc.Done?
    ensures |Running(conns[id := c])| == |Running(conns)| - 1
  {
    assert Running(conns[id := c]) == Running(conns) - {id};
    assert id in Running(conns);
  }

  /** What a step of the acceptor changes. */
  ghost predicate AcceptorMoves(s: State, t: State) {
    && !s.acceptor.Idle?
    && t == State(s.flag, s.lock, t.active, s.max, s.cdps, t.conns, t.closes, t.acceptor, s.stops, s.deiniting)
    && (t.acceptor.Idle? || t.acceptor.id == s.acceptor.id)
    && t.conns == (if s.acceptor.Spawning? && t.acceptor.Idle?
                   then s.conns[s.acceptor.id := Conn(Spawned, false, false)] else s.conns)
    && t.closes == (if s.acceptor.Rejecting? then Close(s, s.acceptor.id).closes else s.closes)
    && (t.acceptor.Idle? ==> s.acceptor.Spawning? || s.acceptor.Rejecting?)
        && (s.acceptor.Rejecting? ==> t.acceptor.Idle?)
    && t.active == (if t.acceptor.Spawning? then s.active + 1 else if s.acceptor.Uncounting? then s.active - 1
                    else s.active)
    && (t.acceptor.Spawning? ==> s.acceptor.Trying? && s.active < s.max)
    && (t.acceptor.Uncounting? ==> s.acceptor.Spawning?)
        && (s.acceptor.Spawning? ==> t.acceptor.Uncounting? || t.acceptor.Idle?)
    && (t.acceptor.Trying? ==> t.acceptor.current == s.active)
  }

  lemma AdmitMoves(s: State, ok: bool)
    requires Admit(s, ok).Some?
    ensures AcceptorMoves(s, Admit(s, ok).value)
  {
    if s.acceptor.Spawning? || s.acceptor.Uncounting? || s.acceptor.Rejecting? {
      AfterCounting(s, ok);
    } else {
      BeforeCounting(s, ok);
    }
  }

  lemma BeforeCounting(s: State, ok: bool)
    requires s.acceptor.Accepted? || s.acceptor.Checking? || s.acceptor.Loading? || s.acceptor.Trying?
    ensures Admit(s, ok).Some? && AcceptorMoves(s, Admit(s, ok).value)
  {
    hide Close;
  }

  lemma AfterCounting(s: State, ok: bool)
    requires s.acceptor.Spawning? || s.acceptor.Uncounting? || s.acceptor.Rejecting?
    ensures Admit(s, ok).Some? && AcceptorMoves(s, Admit(s, ok).value)
  {
    hide Close;
  }

  lemma AdmitLocked(s: State, t: State)
    requires Locked(s) && AcceptorMoves(s, t)
    ensures Locked(t)
  {
  }

  lemma AdmitCounted(s: State, t: State)
    requires Counted(s) && ClosedOnce(s) && AcceptorMoves(s, t)
    ensures Counted(t)
  {
    if s.acceptor.Spawning? && t.acceptor.Idle? { Spawns(s.conns, s.acceptor.id, Conn(Spawned, false, false)); }
  }

  lemma AdmitClosedOnce(s: State, t: State)
    requires ClosedOnce(s) && AcceptorMoves(s, t)
    ensures ClosedOnce(t)
  {
  }

  lemma AdmitRegistry(s: State, t: State)
    requires Registry(s) && ClosedOnce(s) && AcceptorMoves(s, t)
    ensures Registry(t)
  {
  }

  lemma AdmitLiveFirst(s: State, t: State)
    requires LiveFirst(s) && AcceptorMoves(s, t)
    ensures LiveFirst(t)
  {
  }

  lemma AdmitDisturbed(s: State, t: State)
    requires Disturbed(s) && Registry(s) && ClosedOnce(s) && FreedLast(s) && AcceptorMoves(s, t)
    ensures Disturbed(t)
  {
  }

  lemma AdmitFreedLast(s: State, t: State)
    requires FreedLast(s) && AcceptorMoves(s, t)
    ensures FreedLast(t)
  {
  }

  lemma AdmitKeeps(s: State, ok: bool)
    requires Inv(s) && Admit(s, ok).Some?
    ensures Inv(Admit(s, ok).value)
  {
    hide Locked, Counted, ClosedOnce, Registry, LiveFirst, Disturbed, FreedLast, Admit, AcceptorMoves;
    AdmitMoves(s, ok);
    var t := Admit(s, ok).value;
    AdmitLocked(s, t);
    AdmitCounted(s, t);
    AdmitClosedOnce(s, t);
    AdmitRegistry(s, t);
    AdmitLiveFirst(s, t);
    AdmitDisturbed(s, t);
    AdmitFreedLast(s, t);
  }

  lemma AcceptKeeps(s: State, id: nat)
    requires Inv(s) && Next(s, Accept(id)).Some?
    ensures Inv(Next(s, Accept(id)).value)
  {
  }

  // ----- steps of a shutdown

  /** A new shutdown only waits. */
  ghost predicate StopperStarts(s: State, k: nat, t: State) {
    && k !in s.stops && k in t.stops && t == s.(stops := s.stops[k := t.stops[k]], deiniting := t.deiniting)
    && (t.stops[k].pc.Begin? || t.stops[k].pc.Wanting?)
    && (s.deiniting ==> t.deiniting) && (t.deiniting ==> s.deiniting || s.acceptor.Idle?)
        && (t.stops[k].deinit ==> t.deiniting)
    && (t.stops[k].pc.Begin? || s.flag || (t.deiniting && s.closes == map[]))
  }

  lemma StartLocked(s: State, k: nat, t: State)
    requires Locked(s) && StopperStarts(s, k, t)
    ensures Locked(t)
  {
  }

  lemma StartDisturbed(s: State, k: nat, t: State)
    requires Disturbed(s) && ClosedOnce(s) && StopperStarts(s, k, t)
    ensures Disturbed(t)
  {
    assert s.closes == map[] ==> s.conns == map[];
    assert forall id :: TerminatedIfLive(t, id) == TerminatedIfLive(s, id);
  }

  lemma StartFreedLast(s: State, k: nat, t: State)
    requires FreedLast(s) && StopperStarts(s, k, t)
    ensures FreedLast(t)
  {
  }

  lemma StartOthers(s: State, k: nat, t: State)
    requires Counted(s) && ClosedOnce(s) && Registry(s) && LiveFirst(s) && StopperStarts(s, k, t)
    ensures Counted(t) && ClosedOnce(t) && Registry(t) && LiveFirst(t)
  {
  }

  lemma StartKeeps(s: State, a: Action, k: nat)
    requires Inv(s) && (a == StartShutdown(k) || a == StartDeinit(k)) && Next(s, a).Some?
    ensures Inv(Next(s, a).value)
  {
    hide Locked, Counted, ClosedOnce, Registry, LiveFirst, Disturbed, FreedLast;
    var t := Next(s, a).value;
    assert StopperStarts(s, k, t);
    StartLocked(s, k, t);
    StartDisturbed(s, k, t);
    StartFreedLast(s, k, t);
    StartOthers(s, k, t);
  }

  /** A shutdown changes no handler's place, and takes nothing back. */
  ghost predicate StopperMoves(s: State, k: nat, t: State) {
    && k in s.stops && k in t.stops
    && t == State(t.flag, t.lock, s.active, s.max, s.cdps, t.conns, s.closes, s.acceptor, s.stops[k := t.stops[k]],
                  s.deiniting)
    && t.conns.Keys == s.conns.Keys
    && (forall id :: id in s.conns ==> t.conns[id].pc == s.conns[id].pc && t.conns[id].live == s.conns[id].live)
    && t.stops[k].deinit == s.stops[k].deinit
    && t.lock == (if t.stops[k].pc.Sweeping? then Some(Stopper(k)) else if s.stops[k].pc.Sweeping? then None
                  else s.lock)
    && (t.stops[k].pc.Sweeping? ==> s.stops[k].pc.Sweeping? || s.lock.None?)
    && (t.stops[k].pc.Freed? ==> s.stops[k].deinit && s.active <= 0)
  }

  lemma StopMoves(s: State, k: nat)
    requires k in s.stops && StopNext(s, k).Some? && Locked(s)
    ensures StopperMoves(s, k, StopNext(s, k).value)
  {
    hide Locked, Terminate;
    SweeperHolds(s, k);
    match s.stops[k].pc
    case Sweeping(i) => if i < |s.cdps| { TerminateOnly(s, s.cdps[i]); }
    case _ =>
  }

  lemma SweeperHolds(s: State, k: nat)
    requires k in s.stops && Locked(s)
    ensures s.stops[k].pc.Sweeping? ==> s.lock == Some(Stopper(k))
  {
  }

  lemma TerminateOnly(s: State, id: nat)
    ensures var t := Terminate(s, id);
            && t == s.(conns := t.conns) && t.conns.Keys == s.conns.Keys && TerminatedIfLive(t, id)
            && (forall x :: x in s.conns ==> t.conns[x].pc == s.conns[x].pc && t.conns[x].live == s.conns[x].live)
            && (forall x :: x in s.conns && s.conns[x].terminated ==> t.conns[x].terminated)
            && (forall x :: TerminatedIfLive(s, x) ==> TerminatedIfLive(t, x))
  {
  }

  lemma StopLocked(s: State, k: nat, t: State)
    requires Locked(s) && StopperMoves(s, k, t)
    ensures Locked(t)
  {
  }

  lemma StopCounted(s: State, k: nat, t: State)
    requires Counted(s) && StopperMoves(s, k, t)
    ensures Counted(t)
  {
    assert Running(t.conns) == Running(s.conns);
  }

  lemma StopClosedOnce(s: State, k: nat, t: State)
    requires ClosedOnce(s) && StopperMoves(s, k, t)
    ensures ClosedOnce(t)
  {
  }

  lemma StopRegistry(s: State, k: nat, t: State)
    requires Registry(s) && StopperMoves(s, k, t)
    ensures Registry(t)
  {
  }

  lemma StopLiveFirst(s: State, k: nat, t: State)
    requires LiveFirst(s) && StopperMoves(s, k, t)
    ensures LiveFirst(t)
  {
  }

  /** One connection of the sweep. */
  lemma SweepStep(s: State, k: nat, i: nat)
    requires Disturbed(s) && k in s.stops && s.stops[k].pc == Sweeping(i) && i < |s.cdps|
    ensures Disturbed(AtStop(Terminate(s, s.cdps[i]), k, Sweeping(i + 1)))
  {
    var t := AtStop(Terminate(s, s.cdps[i]), k, Sweeping(i + 1));
    TerminateOnly(s, s.cdps[i]);
    hide Terminate, TerminatedIfLive;
    assert TerminatedIfLive(t, s.cdps[i]);
  }

  /** A sweep that is over has terminated every handler in its tick loop. */
  lemma SweepEnd(s: State, k: nat, i: nat)
    requires Disturbed(s) && Registry(s) && LiveFirst(s) && k in s.stops && s.stops[k].pc == Sweeping(i)
             && i >= |s.cdps|
    ensures Disturbed(AtStop(s.(lock := None), k, Swept))
  {
    forall id | id in s.conns && s.conns[id].pc.Ticking?
      ensures s.conns[id].terminated
    {
      var j :| 0 <= j < |s.cdps| && s.cdps[j] == id;
      assert TerminatedIfLive(s, s.cdps[j]);
    }
    assert forall id :: TerminatedIfLive(AtStop(s.(lock := None), k, Swept), id) == TerminatedIfLive(s, id);
  }

  lemma BeginDisturbed(s: State, k: nat)
    requires Disturbed(s) && k in s.stops && s.stops[k].pc.Begin?
    ensures Disturbed(AtStop(s.(flag := true), k, Wanting))
  {
    assert forall id :: TerminatedIfLive(AtStop(s.(flag := true), k, Wanting), id) == TerminatedIfLive(s, id);
  }

  lemma WantingDisturbed(s: State, k: nat)
    requires Disturbed(s) && k in s.stops && s.stops[k].pc.Wanting? && StopNext(s, k).Some?
    ensures Disturbed(StopNext(s, k).value)
  {
    assert forall id :: TerminatedIfLive(StopNext(s, k).value, id) == TerminatedIfLive(s, id);
  }

  lemma FreeDisturbed(s: State, k: nat)
    requires Disturbed(s) && k in s.stops && s.stops[k].pc.Swept?
    ensures Disturbed(AtStop(s, k, Freed))
  {
    assert forall id :: TerminatedIfLive(AtStop(s, k, Freed), id) == TerminatedIfLive(s, id);
  }

  lemma StopDisturbed(s: State, k: nat)
    requires Disturbed(s) && Registry(s) && LiveFirst(s) && Locked(s) && k in s.stops && StopNext(s, k).Some?
    ensures Disturbed(StopNext(s, k).value)
  {
    hide Locked, Registry, LiveFirst, Disturbed, Terminate;
    match s.stops[k].pc
    case Sweeping(i) =>
      if i < |s.cdps| { SweepStep(s, k, i); } else { SweepEnd(s, k, i); }
    case Begin => BeginDisturbed(s, k);
    case Wanting => WantingDisturbed(s, k);
    case Swept => FreeDisturbed(s, k);
    case Freed =>
  }

  lemma StopFreedLast(s: State, k: nat, t: State)
    requires FreedLast(s) && Counted(s) && StopperMoves(s, k, t)
    ensures FreedLast(t)
  {
    if s.active <= 0 {
      assert Running(s.conns) == {};
      assert forall id :: id in s.conns && !s.conns[id].pc.Done? ==> id in Running(s.conns);
    }
  }

  lemma StopKeeps(s: State, k: nat)
    requires Inv(s) && k in s.stops && StopNext(s, k).Some?
    ensures Inv(StopNext(s, k).value)
  {
    hide Locked, Counted, ClosedOnce, Registry, LiveFirst, Disturbed, FreedLast, StopNext, StopperMoves;
    StopMoves(s, k);
    var t := StopNext(s, k).value;
    StopLocked(s, k, t);
    StopCounted(s, k, t);
    StopClosedOnce(s, k, t);
    StopRegistry(s, k, t);
    StopLiveFirst(s, k, t);
    StopDisturbed(s, k);
    StopFreedLast(s, k, t);
  }

  // ----- steps of a handler

  /** What a step of a handler changes, in terms of where it was and where it goes. */
  ghost predicate HandlerMoves(s: State, id: nat, t: State) {
    && id in s.conns && id in t.conns
    && var c, d := s.conns[id], t.conns[id];
    && t == State(s.flag, t.lock, t.active, s.max, t.cdps, s.conns[id := d], t.closes, s.acceptor, s.stops, s.deiniting)
    && d.terminated == c.terminated && d.live == (c.live || c.pc.GoingLive?) && !c.pc.Done?
    && t.lock == (if InSection(d.pc) then Some(Handler(id)) else if InSection(c.pc) then None else s.lock)
    && (InSection(d.pc) ==> s.lock.None?)
    && t.active == (if d.pc.Done? then s.active - 1 else s.active)
    && t.cdps == (if c.pc.Tracking? then s.cdps + [id] else if c.pc.Untracking? then Untrack(s.cdps, id) else s.cdps)
    && (IsTracked(d.pc) <==> (IsTracked(c.pc) || c.pc.Tracking?) && !c.pc.Untracking?)
    && t.closes == (if c.pc.ToClose? then Close(s, id).closes else s.closes)
    && (d.pc.ToLeave? <==> c.pc.ToClose?) && (d.pc.Done? <==> c.pc.ToLeave?)
    && (d.pc.Live? ==> c.pc.GoingLive?) && (d.pc.Registered? ==> c.pc.Live?)
    && (d.pc.Ticking? ==> c.pc.Ticking? || (c.pc.Registered? && !s.flag))
  }

  lemma HandleMoves(s: State, id: nat, ok: bool)
    requires id in s.conns && Handle(s, id, ok).Some?
    ensures HandlerMoves(s, id, Handle(s, id, ok).value)
  {
    var pc := s.conns[id].pc;
    if IsTracked(pc) {
      WhileTracked(s, id, ok);
    } else if pc.Spawned? || pc.Creating? || pc.Created? || pc.Initialised? || pc.Tracking? {
      BeforeTracked(s, id, ok);
    } else {
      AfterTracked(s, id, ok);
    }
  }

  lemma WhileTracked(s: State, id: nat, ok: bool)
    requires id in s.conns && Handle(s, id, ok).Some? && IsTracked(s.conns[id].pc)
    ensures HandlerMoves(s, id, Handle(s, id, ok).value)
  {
    var pc := s.conns[id].pc;
    if pc.Tracked? || pc.Upgraded? || pc.GoingLive? || pc.Live? {
      BeforeTicking(s, id, ok);
    } else {
      FromTicking(s, id, ok);
    }
  }

  lemma BeforeTicking(s: State, id: nat, ok: bool)
    requires id in s.conns && Handle(s, id, ok).Some?
    requires var pc := s.conns[id].pc; pc.Tracked? || pc.Upgraded? || pc.GoingLive? || pc.Live?
    ensures HandlerMoves(s, id, Handle(s, id, ok).value)
  {
    hide Untrack, Close;
  }

  lemma FromTicking(s: State, id: nat, ok: bool)
    requires id in s.conns && Handle(s, id, ok).Some?
    requires var pc := s.conns[id].pc;
             pc.Registered? || pc.Ticking? || pc.Unregistering? || pc.ToUntrack? || pc.Untracking?
    ensures HandlerMoves(s, id, Handle(s, id, ok).value)
  {
    hide Untrack, Close;
  }

  lemma BeforeTracked(s: State, id: nat, ok: bool)
    requires id in s.conns && Handle(s, id, ok).Some?
    requires var pc := s.conns[id].pc; pc.Spawned? || pc.Creating? || pc.Created? || pc.Initialised? || pc.Tracking?
    ensures HandlerMoves(s, id, Handle(s, id, ok).value)
  {
    hide Untrack, Close;
  }

  lemma AfterTracked(s: State, id: nat, ok: bool)
    requires id in s.conns && Handle(s, id, ok).Some?
    requires var pc := s.conns[id].pc;
             pc.ToDeinit? || pc.ToDestroy? || pc.Destroying? || pc.ToClose? || pc.ToLeave? || pc.Done?
    ensures HandlerMoves(s, id, Handle(s, id, ok).value)
  {
    hide Untrack, Close;
  }

  /** Exactly one entry goes, and none comes twice. */
  lemma Untracked(list: seq<nat>, id: nat)
    requires Distinct(list)
    ensures Distinct(Untrack(list, id)) && forall x :: x in Untrack(list, id) <==> x in list && x != id
  {
    if id in list { SwapRemoved(list, IndexOf(list, id)); }
  }

  lemma HandleLocked(s: State, id: nat, t: State)
    requires Locked(s) && HandlerMoves(s, id, t)
    ensures Locked(t)
  {
  }

  lemma HandleCounted(s: State, id: nat, t: State)
    requires Counted(s) && HandlerMoves(s, id, t)
    ensures Counted(t)
  {
    if s.conns[id].pc.ToLeave? {
      Ends(s.conns, id, t.conns[id]);
    } else {
      Moves(s.conns, id, t.conns[id]);
    }
  }

  lemma HandleClosedOnce(s: State, id: nat, t: State)
    requires ClosedOnce(s) && HandlerMoves(s, id, t)
    ensures ClosedOnce(t)
  {
  }

  lemma HandleRegistry(s: State, id: nat, t: State)
    requires Registry(s) && HandlerMoves(s, id, t)
    ensures Registry(t)
  {
    if s.conns[id].pc.Untracking? { Untracked(s.cdps, id); }
  }

  lemma HandleLiveFirst(s: State, id: nat, t: State)
    requires LiveFirst(s) && HandlerMoves(s, id, t)
    ensures LiveFirst(t)
  {
  }

  lemma HandleDisturbed(s: State, id: nat, t: State)
    requires Disturbed(s) && Locked(s) && HandlerMoves(s, id, t)
    ensures Disturbed(t)
  {
  }

  lemma HandleFreedLast(s: State, id: nat, t: State)
    requires FreedLast(s) && HandlerMoves(s, id, t)
    ensures FreedLast(t)
  {
  }

  lemma HandleKeeps(s: State, id: nat, ok: bool)
    requires Inv(s) && id in s.conns && Handle(s, id, ok).Some?
    ensures Inv(Handle(s, id, ok).value)
  {
    hide Locked, Counted, ClosedOnce, Registry, LiveFirst, Disturbed, FreedLast, Handle, HandlerMoves;
    HandleMoves(s, id, ok);
    var t := Handle(s, id, ok).value;
    HandleLocked(s, id, t);
    HandleCounted(s, id, t);
    HandleClosedOnce(s, id, t);
    HandleRegistry(s, id, t);
    HandleLiveFirst(s, id, t);
    HandleDisturbed(s, id, t);
    HandleFreedLast(s, id, t);
  }

  // ----- every run

  /** Any interleaving: the state after the actions, if each of them can be taken when its turn comes. */
  function Run(s: State, actions: seq<Action>): Option<State>
    decreases |actions|
  {
    if actions == [] then Some(s)
    else
      var t := Next(s, actions[0]);
      if t.None? then None else Run(t.value, actions[1..])
  }

  lemma StepKeeps(s: State, a: Action)
    requires Inv(s) && Next(s, a).Some?
    ensures Inv(Next(s, a).value)
  {
    hide Inv, Handle, StopNext, Admit;
    match a
    case Accept(id) => AcceptKeeps(s, id);
    case Acceptance(ok) => AdmitKeeps(s, ok);
    case StartShutdown(k) => StartKeeps(s, a, k);
    case StartDeinit(k) => StartKeeps(s, a, k);
    case HandlerStep(id, ok) => HandleKeeps(s, id, ok);
    case StopperStep(k) => StopKeeps(s, k);
  }

  lemma {:induction false} RunKeeps(s: State, actions: seq<Action>)
    requires Inv(s) && Run(s, actions).Some?
    ensures Inv(Run(s, actions).value)
    decreases |actions|
  {
    hide Inv, Next;
    if actions != [] {
      StepKeeps(s, actions[0]);
      RunKeeps(Next(s, actions[0]).value, actions[1..]);
    }
  }

  lemma Reachable(max: nat, actions: seq<Action>)
    requires Run(Init(max), actions).Some?
    ensures Inv(Run(Init(max), actions).value)
  {
    hide Next, Run;
    assert Running(Init(max).conns) == {};
    RunKeeps(Init(max), actions);
  }

  /** The counter is the number of unfinished handlers and spawns in flight, and never passes the limit. */
  lemma NeverTooMany(max: nat, actions: seq<Action>)
    requires Run(Init(max), actions).Some?
    ensures var s := Run(Init(max), actions).value;
            s.active == |Running(s.conns)| + InFlight(s.acceptor) && 0 <= s.active <= s.max
  {
    hide Run;
    Reachable(max, actions);
  }

  /** No socket is closed twice, a handler's is closed exactly when it has only its count left to give back,
      and one that got no handler is closed once the acceptor has let go of it. */
  lemma EachSocketClosedOnce(max: nat, actions: seq<Action>, id: nat)
    requires Run(Init(max), actions).Some? && id in Run(Init(max), actions).value.closes
    ensures var s := Run(Init(max), actions).value;
            && s.closes[id] <= 1
            && (id in s.conns ==> (s.closes[id] == 1 <==> s.conns[id].pc.ToLeave? || s.conns[id].pc.Done?))
            && (id !in s.conns ==> (s.closes[id] == 1 <==> !Holds(s.acceptor, id)))
  {
    hide Run;
    Reachable(max, actions);
  }

  /** Whatever a shutdown finds in the registry is initialised and not torn down, and stays so while it looks. */
  lemma SweepSeesUsable(max: nat, actions: seq<Action>, k: nat, i: nat)
    requires Run(Init(max), actions).Some?
    requires var s := Run(Init(max), actions).value; k in s.stops && s.stops[k].pc.Sweeping? && i < |s.cdps|
    ensures var s := Run(Init(max), actions).value;
            && s.cdps[i] in s.conns && IsUsable(s.conns[s.cdps[i]].pc)
            && forall id, ok :: id in s.conns && Handle(s, id, ok).Some? ==> Handle(s, id, ok).value.cdps == s.cdps
  {
    hide Run;
    Reachable(max, actions);
    var s := Run(Init(max), actions).value;
    forall id, ok | id in s.conns && Handle(s, id, ok).Some?
      ensures Handle(s, id, ok).value.cdps == s.cdps
    {
      HandleMoves(s, id, ok);
    }
  }

  /** Once a shutdown has swept, every handler in its tick loop has been terminated, from then on and whatever
      happens next. */
  lemma NoneLeftTicking(max: nat, actions: seq<Action>, k: nat, id: nat)
    requires Run(Init(max), actions).Some?
    requires var s := Run(Init(max), actions).value;
             k in s.stops && IsOver(s.stops[k]) && id in s.conns && s.conns[id].pc.Ticking?
    ensures Run(Init(max), actions).value.conns[id].terminated
  {
    hide Run;
    Reachable(max, actions);
  }

  /** The pool is freed only after the last handler is done, and no new one comes. */
  lemma FreedAfterLast(max: nat, actions: seq<Action>, k: nat, id: nat)
    requires Run(Init(max), actions).Some?
    requires var s := Run(Init(max), actions).value; k in s.stops && s.stops[k].pc.Freed? && id in s.conns
    ensures Run(Init(max), actions).value.conns[id].pc.Done?
  {
    hide Run;
    Reachable(max, actions);
  }

  /** No sweep begins before the flag is set, unless nothing was or ever will be accepted. */
  lemma NoUnwarnedSweep(max: nat, actions: seq<Action>, k: nat)
    requires Run(Init(max), actions).Some?
    requires var s := Run(Init(max), actions).value; k in s.stops && !s.stops[k].pc.Begin?
    ensures var s := Run(Init(max), actions).value; s.flag || (s.deiniting && s.conns == map[])
  {
    hide Run;
    Reachable(max, actions);
  }

  predicate BeginsSection(s: State, a: Action) {
    s.lock.None? && Next(s, a).Some? && Next(s, a).value.lock.Some?
  }

  /** After the pool is freed a critical section begins exactly when another shutdown, that of a signal, is
      waiting for the lock: handlers and the acceptor enter none. */
  lemma SectionsAfterFree(max: nat, actions: seq<Action>, k0: nat)
    requires Run(Init(max), actions).Some?
    requires var s := Run(Init(max), actions).value; k0 in s.stops && s.stops[k0].pc.Freed?
    ensures var s := Run(Init(max), actions).value;
            (exists a :: BeginsSection(s, a)) <==> s.lock.None? && exists k :: k in s.stops && s.stops[k].pc.Wanting?
  {
    hide Run;
    Reachable(max, actions);
    var s := Run(Init(max), actions).value;
    if a :| BeginsSection(s, a) {
      OnlyShutdowns(s, k0, a);
    }
    if k :| k in s.stops && s.stops[k].pc.Wanting? && s.lock.None? {
      assert BeginsSection(s, StopperStep(k));
    }
  }

  lemma OnlyShutdowns(s: State, k0: nat, a: Action)
    requires Inv(s) && k0 in s.stops && s.stops[k0].pc.Freed? && BeginsSection(s, a)
    ensures a.StopperStep? && a.k in s.stops && s.stops[a.k].pc.Wanting?
  {
    hide Untrack;
  }

  /** A signal whose shutdown has set the flag and then waits until the server is freed; nobody has connected. */
  const LATE_SIGNAL: seq<Action> := [StartShutdown(0), StopperStep(0), StartDeinit(1), StopperStep(1), StopperStep(1),
                                     StopperStep(1)]

  /** The state it comes to. */
  function Late(max: nat): State {
    var s1 := Init(max).(stops := map[][0 := Stop(Begin, false)]);
    var s2 := AtStop(s1.(flag := true), 0, Wanting);
    var s3 := s2.(stops := s2.stops[1 := Stop(Wanting, true)], deiniting := true);
    AtStop(AtStop(AtStop(s3, 1, Sweeping(0)), 1, Swept), 1, Freed)
  }

  /** Its sweep begins on a freed server. */
  lemma SweepsFreed(max: nat)
    ensures var run := Run(Init(max), LATE_SIGNAL);
            && run.Some? && 1 in run.value.stops && run.value.stops[1].pc.Freed?
            && BeginsSection(run.value, StopperStep(0))
  {
    hide Run;
    LateRun(max);
  }

  lemma LateRun(max: nat)
    ensures Run(Init(max), LATE_SIGNAL) == Some(Late(max))
  {
    var s0 := Init(max);
    var s1 := s0.(stops := map[][0 := Stop(Begin, false)]);
    var s2 := AtStop(s1.(flag := true), 0, Wanting);
    RunFirst(s0, StartShutdown(0), LATE_SIGNAL[1..]);
    RunFirst(s1, StopperStep(0), LATE_SIGNAL[2..]);
    RunFirst(s2, StartDeinit(1), LATE_SIGNAL[3..]);
    LateSweep(s2.(stops := s2.stops[1 := Stop(Wanting, true)], deiniting := true));
    assert [StartShutdown(0)] + LATE_SIGNAL[1..] == LATE_SIGNAL
           && [StopperStep(0)] + LATE_SIGNAL[2..] == LATE_SIGNAL[1..];
    assert [StartDeinit(1)] + LATE_SIGNAL[3..] == LATE_SIGNAL[2..];
    assert LATE_SIGNAL[3..] == [StopperStep(1), StopperStep(1), StopperStep(1)];
  }

  lemma LateSweep(s: State)
    requires s.lock.None? && s.cdps == [] && s.active == 0 && 1 in s.stops && s.stops[1] == Stop(Wanting, true)
    ensures Run(s, [StopperStep(1), StopperStep(1), StopperStep(1)])
         == Some(AtStop(AtStop(AtStop(s, 1, Sweeping(0)), 1, Swept), 1, Freed))
  {
    var t := AtStop(s.(lock := Some(Stopper(1))), 1, Sweeping(0));
    var u := AtStop(t.(lock := None), 1, Swept);
    RunFirst(s, StopperStep(1), [StopperStep(1), StopperStep(1)]);
    RunFirst(t, StopperStep(1), [StopperStep(1)]);
    RunFirst(u, StopperStep(1), []);
    assert [StopperStep(1)] + [StopperStep(1), StopperStep(1)] == [StopperStep(1), StopperStep(1), StopperStep(1)];
    assert [StopperStep(1)] + [StopperStep(1)] == [StopperStep(1), StopperStep(1)]
           && [StopperStep(1)] + [] == [StopperStep(1)];
  }

  lemma RunFirst(s: State, a: Action, rest: seq<Action>)
    ensures Run(s, [a] + rest) == if Next(s, a).Some? then Run(Next(s, a).value, rest) else None
    ensures Run(s, []) == Some(s)
  {
    hide Next;
    assert ([a] + rest)[1..] == rest;
  }
}
