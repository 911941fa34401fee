/** Signals and the listeners that clean up. Every operation runs under the handler's mutex, so histories are
    sequences of registrations and signals. */
module Sighandler {

  datatype Event = Register | Terminate | Alarm | OtherSignal

  /** `fired` lists the listeners called, by their place in the order of registration. */
  datatype State = State(attempt: nat, listeners: nat, fired: seq<nat>, exited: bool)

  const START := State(0, 0, [], false)

  /** 0, 1, ..., n - 1. */
  ghost function UpTo(n: nat): (r: seq<nat>)
    ensures |r| == n && forall i :: 0 <= i < n ==> r[i] == i
  {
    seq(n, i => i)
  }

  /** What the handler is meant to do: all listeners run in order of registration at every signal, a late one
      runs at once if a termination signal has been seen, and the third termination signal exits. */
  ghost function Step(s: State, e: Event): State {
    if s.exited then s else
    match e
    case Register =>
      s.(listeners := s.listeners + 1, fired := s.fired + if s.attempt > 0 then [s.listeners] else [])
    case Terminate =>
      if s.attempt > 1 then s.(exited := true)
      else s.(attempt := s.attempt + 1, fired := s.fired + UpTo(s.listeners))
    case Alarm => s.(fired := s.fired + UpTo(s.listeners))
    case OtherSignal => s
  }

  ghost function Run(events: seq<Event>): State {
    if events == [] then START else Step(Run(events[..|events| - 1]), events[|events| - 1])
  }

  class SigHandler {
    var attempt: nat
    var listeners: seq<nat>
    var fired: seq<nat>
    var exited: bool

    /** Listeners are told apart by their place. */
    ghost predicate Valid()
      reads this
    {
      forall i :: 0 <= i < |listeners| ==> listeners[i] == i
    }

    ghost function Abs(): State
      reads this
    {
      State(attempt, |listeners|, fired, exited)
    }

    constructor ()
      ensures Valid() && Abs() == START
    {
      attempt, listeners, fired, exited := 0, [], [], false;
    }

    method On()
      requires Valid() && !exited
      modifies this
      ensures Valid() && Abs() == Step(old(Abs()), Register)
    {
      listeners := listeners + [|listeners|];
      if attempt > 0 {
        var item := listeners[|listeners| - 1];
        fired := fired + [item];
      }
    }

    method FireAll()
      requires Valid()
      modifies this`fired
      ensures fired == old(fired) + UpTo(|listeners|)
    {
      var i := 0;
      while i < |listeners|
        invariant 0 <= i <= |listeners| && fired == old(fired) + UpTo(i)
      {
        fired := fired + [listeners[i]];
        i := i + 1;
        assert UpTo(i) == UpTo(i - 1) + [i - 1];
      }
    }

    method Handle(signal: Event)
      requires Valid() && !exited && !signal.Register?
      modifies this
      ensures Valid() && Abs() == Step(old(Abs()), signal)
    {
      match signal
      case Terminate =>
        if attempt > 1 {
          exited := true;
          return;
        }
        attempt := attempt + 1;
        FireAll();
      case Alarm => FireAll();
      case _ =>
    }
  }

  // ----- no shutdown is lost

  /** Where the `n`th listener was registered. */
  ghost predicate RegisteredAt(events: seq<Event>, n: nat, p: nat) {
    p < |events| && events[p].Register? && Run(events[..p]).listeners == n && !Run(events[..p]).exited
  }

  lemma PrefixOf(events: seq<Event>, p: nat)
    requires p < |events|
    ensures events[..|events| - 1][..p] == events[..p]
    ensures p < |events| - 1 ==> events[..|events| - 1][p] == events[p]
  {
  }

  /** A listener has run exactly when a termination signal came before it was registered, or a termination
      signal or an alarm after; an alarm before is lost to it. */
  lemma {:induction false} RanExactlyWhen(events: seq<Event>, n: nat, p: nat)
    requires !Run(events).exited && RegisteredAt(events, n, p)
    ensures n in Run(events).fired <==>
            Terminate in events[..p] || exists q :: p < q < |events| && (events[q].Terminate? || events[q].Alarm?)
    ensures n < Run(events).listeners
    decreases |events|
  {
    var m := |events| - 1;
    var before, e := Run(events[..m]), events[m];
    PrefixOf(events, p);
    if p == m {
      AttemptCounts(events[..p]);
      FiredBound(events[..p]);
    } else {
      RanExactlyWhen(events[..m], n, p);
      assert forall q :: p < q < m ==> events[..m][q] == events[q];
      if e.Terminate? || e.Alarm? { assert UpTo(before.listeners)[n] == n; }
      if e.Register? { assert before.listeners != n; }
    }
  }

  /** The third termination signal exits, and no other event does. */
  lemma {:induction false} ThirdExits(events: seq<Event>)
    ensures Run(events).exited <==> multiset(events)[Terminate] >= 3
    ensures Run(events).attempt == if multiset(events)[Terminate] < 2 then multiset(events)[Terminate] else 2
    decreases |events|
  {
    if events != [] {
      var m := |events| - 1;
      ThirdExits(events[..m]);
      assert events == events[..m] + [events[m]];
    }
  }

  /** How often a listener runs: once at every termination signal and alarm after it was registered, and once more when
      it is registered after a termination signal. */
  lemma {:induction false} RunsHowOften(events: seq<Event>, n: nat, p: nat)
    requires !Run(events).exited && RegisteredAt(events, n, p)
    ensures var later := multiset(events[p + 1..]);
            multiset(Run(events).fired)[n]
            == later[Terminate] + later[Alarm] + if Terminate in events[..p] then 1 else 0
    ensures n < Run(events).listeners
    decreases |events|
  {
    hide Step, UpTo;
    var m := |events| - 1;
    var before, e := Run(events[..m]), events[m];
    PrefixOf(events, p);
    ExitIsFinal(before, e);
    if p == m {
      AttemptCounts(events[..p]);
      FiredBound(events[..p]);
      StepRuns(before, e, n);
      assert n !in before.fired && events[p + 1..] == [];
    } else {
      RunsHowOften(events[..m], n, p);
      StepRuns(before, e, n);
      assert events[p + 1..] == events[..m][p + 1..] + [e];
    }
  }

  lemma ExitIsFinal(s: State, e: Event)
    ensures s.exited ==> Step(s, e) == s
  {
  }

  /** What one event adds to the runs of a listener. */
  lemma StepRuns(s: State, e: Event, n: nat)
    requires !s.exited && (n < s.listeners || (n == s.listeners && e.Register?))
    ensures n < Step(s, e).listeners
    ensures !Step(s, e).exited ==>
              multiset(Step(s, e).fired)[n] == multiset(s.fired)[n]
                + if if e.Register? then n == s.listeners && s.attempt > 0 else e.Terminate? || e.Alarm? then 1 else 0
  {
    UpToOnce(s.listeners, n);
  }

  lemma {:induction false} UpToOnce(n: nat, i: nat)
    ensures multiset(UpTo(n))[i] == if i < n then 1 else 0
  {
    if n > 0 {
      UpToOnce(n - 1, i);
      assert UpTo(n) == UpTo(n - 1) + [n - 1];
    } else {
      assert UpTo(n) == [];
    }
  }

  lemma {:induction false} AttemptCounts(events: seq<Event>)
    requires !Run(events).exited
    ensures Run(events).attempt > 0 <==> Terminate in events
    decreases |events|
  {
    if events != [] {
      var m := |events| - 1;
      AttemptCounts(events[..m]);
      assert events == events[..m] + [events[m]];
      assert Terminate in events <==> Terminate in events[..m] || events[m] == Terminate;
    }
  }

  lemma {:induction false} FiredBound(events: seq<Event>)
    ensures forall n :: n in Run(events).fired ==> n < Run(events).listeners
    decreases |events|
  {
    if events != [] { FiredBound(events[..|events| - 1]); }
  }

  /** Once a termination signal has come, every listener has run, however late it was registered. */
  lemma {:induction false} AllRan(events: seq<Event>)
    requires Run(events).attempt > 0
    ensures forall n :: 0 <= n < Run(events).listeners ==> n in Run(events).fired
    decreases |events|
  {
    var m := |events| - 1;
    var before, e := Run(events[..m]), events[m];
    if before.attempt > 0 {
      AllRan(events[..m]);
    } else {
      assert e.Terminate?;
      forall n | 0 <= n < before.listeners
        ensures n in before.fired + UpTo(before.listeners)
      {
        assert UpTo(before.listeners)[n] == n;
      }
    }
  }

  ghost predicate Ordered(fired: seq<nat>) {
    forall p, i :: 0 <= p < |fired| && 0 <= i < fired[p] ==> i in fired[..p]
  }

  /** Before a listener runs, every one registered earlier has run: the stop flag of the network, registered
      first, is set before a server shutdown begins. */
  lemma {:induction false} EarlierFirst(events: seq<Event>)
    ensures Ordered(Run(events).fired)
    decreases |events|
  {
    if events != [] {
      var m := |events| - 1;
      var before, e, after := Run(events[..m]), events[m], Run(events);
      EarlierFirst(events[..m]);
      assert before.fired + [] == before.fired;
      if e.Register? && before.attempt > 0 {
        AllRan(events[..m]);
        OrderedMore(before.fired, [before.listeners]);
      } else if !e.Register? && after.fired != before.fired {
        var all := UpTo(before.listeners);
        forall p, i | 0 <= p < |all| && 0 <= i < all[p]
          ensures i in before.fired + all[..p]
        {
          assert all[..p][i] == i;
        }
        OrderedMore(before.fired, all);
      }
    }
  }

  lemma OrderedMore(fired: seq<nat>, more: seq<nat>)
    requires Ordered(fired)
    requires forall p, i :: 0 <= p < |more| && 0 <= i < more[p] ==> i in fired + more[..p]
    ensures Ordered(fired + more)
  {
    var all := fired + more;
    forall p, i | 0 <= p < |all| && 0 <= i < all[p]
      ensures i in all[..p]
    {
      if p < |fired| {
        assert all[..p] == fired[..p];
      } else {
        assert all[..p] == fired + more[..p - |fired|];
      }
    }
  }

  /** An alarm alone does not reach a listener registered after it. The program arms its deadline when the last listener
      is registered, so only an alarm sent from outside comes that early. */
  lemma AlarmLost()
    ensures var s := Run([Alarm, Register]); s.listeners == 1 && s.fired == [] && !s.exited
  {
    var one, two := [Alarm], [Alarm, Register];
    assert one[..0] == [] && two[..1] == one;
    assert Run(one) == START.(fired := [] + UpTo(0));
    assert Run(two) == Step(Run(one), Register);
  }
}
