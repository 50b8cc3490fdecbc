/** Waiting for a client and a simulator, and stopping whichever is left. Time is not modelled:
    a process may exit between any two looks at it, and a wait may run out or not. */
module Supervisor {
  import opened Options

  datatype Signal = INT | TERM | KILL

  /** What the supervisor did to one process, and saw: a poll, a signal that reached a running
      process, a bounded wait and its result. */
  datatype Event = Seen(rc: Option<int>) | Sent(sig: Signal) | Waited(seconds: nat, rc: Option<int>)

  const STOP_TIMEOUT := 10
  const SIM_EXIT_GRACE := 1
  const ORDER: seq<Signal> := [INT, TERM, KILL]

  function Signals(es: seq<Event>): seq<Signal> {
    if es == [] then []
    else Signals(es[..|es| - 1]) + (if es[|es| - 1].Sent? then [es[|es| - 1].sig] else [])
  }

  /** A signal stronger than the first directly follows a wait of 10 seconds that ran out and a poll
      that still saw the process running. */
  ghost predicate Patient(es: seq<Event>) {
    es == []
    || (var n := |es| - 1;
        && Patient(es[..n])
        && (es[n].Sent? && es[n].sig != INT ==>
              n >= 2 && es[n - 1] == Seen(None) && es[n - 2] == Waited(10, None)))
  }

  /** The signals sent are the first few of INT, TERM, KILL, each after patience with the last. */
  ghost predicate Escalates(es: seq<Event>) {
    Patient(es) && Signals(es) <= [INT, TERM, KILL]
  }

  function Strength(k: nat): Signal {
    if k == 0 then INT else if k == 1 then TERM else KILL
  }

  /** The first `k` signals, each sent to a running process and waited for 10 seconds in vain. */
  function InVain(k: nat): seq<Event> {
    if k == 0 then [] else InVain(k - 1) + [Seen(None), Sent(Strength(k - 1)), Waited(10, None)]
  }

  /** After `k` signals in vain the process, which ends with `rc`, is seen to have exited, or exits
      before the next signal reaches it, or exits on that signal. */
  ghost predicate EndsIn(es: seq<Event>, rc: int, k: nat) {
    || es == InVain(k) + [Seen(Some(rc))]
    || es == InVain(k) + [Seen(None), Waited(10, Some(rc))]
    || es == InVain(k) + [Seen(None), Sent(Strength(k)), Waited(10, Some(rc))]
  }

  /** The whole of what `_stop` does to a process: it ends during one of the three rounds, or all
      three are in vain and the wait without a bound follows. */
  ghost predicate Stopped(es: seq<Event>, rc: int) {
    es == InVain(3) || exists k: nat :: k < 3 && EndsIn(es, rc, k)
  }

  class Proc {
    var rc: Option<int>
    /** If set, the process exits by itself within this many looks at it. */
    var life: Option<nat>
    ghost var history: seq<Event>

    /** Looks left until the process is sure to have been seen exited. */
    function Rank(): nat
      reads this
    {
      (if rc == None then 1 else 0) + if life.Some? then life.value else 0
    }

    /** A process just started. */
    constructor (life: Option<nat>)
      ensures rc == None && this.life == life && history == []
    {
      rc, this.life, history := None, life, [];
    }

    /** The process goes on for a while, and may exit. */
    method PassTime()
      modifies this`rc, this`life
      ensures old(rc).Some? ==> rc == old(rc)
      ensures life.Some? <==> old(life).Some?
      ensures Rank() <= old(Rank())
      ensures old(rc) == None && (rc.Some? || life.Some?) ==> Rank() < old(Rank())
    {
      var exits: bool := *;
      var code: int := *;
      if rc == None {
        if exits || life == Some(0) {
          rc := Some(code);
        } else if life.Some? {
          life := Some(life.value - 1);
        }
      }
    }

    method Poll() returns (r: Option<int>)
      modifies this
      ensures r == rc && history == old(history) + [Seen(rc)]
      ensures old(rc).Some? ==> rc == old(rc)
      ensures life.Some? <==> old(life).Some?
      ensures Rank() <= old(Rank())
      ensures old(rc) == None && (rc.Some? || life.Some?) ==> Rank() < old(Rank())
    {
      PassTime();
      history := history + [Seen(rc)];
      r := rc;
    }

    /** Nothing is sent to a process that has exited. */
    method SendSignal(sig: Signal)
      modifies this
      ensures old(rc).Some? ==> rc == old(rc)
      ensures history == if rc == None then old(history) + [Sent(sig)] else old(history)
    {
      PassTime();
      if rc == None { history := history + [Sent(sig)]; }
    }

    /** `wait` with a timeout: `None` stands for `TimeoutExpired`. */
    method WaitFor(seconds: nat) returns (r: Option<int>)
      modifies this
      ensures r == rc && history == old(history) + [Waited(seconds, rc)]
      ensures old(rc).Some? ==> rc == old(rc)
      ensures life.Some? <==> old(life).Some?
      ensures old(rc) == None && rc.Some? ==> Rank() < old(Rank())
    {
      PassTime();
      history := history + [Waited(seconds, rc)];
      r := rc;
    }

    /** `wait` without one: it returns because KILL cannot be ignored. */
    method WaitKilled()
      requires rc.Some? || Sent(KILL) in history
      modifies this`rc
      ensures rc.Some? && (old(rc).Some? ==> rc == old(rc))
    {
      var code: int := *;
      if rc == None { rc := Some(code); }
    }

    /** `_stop`. */
    method Stop()
      modifies this
      ensures rc.Some? && (old(rc).Some? ==> rc == old(rc))
      ensures old(history) <= history && Stopped(history[|old(history)|..], rc.value)
      ensures Escalates(history[|old(history)|..])
      ensures old(rc).Some? ==> history == old(history) + [Seen(old(rc))]
      ensures Waited(1, None) in history <==> Waited(1, None) in old(history)
    {
      hide Patient, Signals, InVain, Escalates, EndsIn, Stopped;
      ghost var before := history;
      var i := 0;
      assert history[|before|..] == [];
      NothingYet();
      while i < |ORDER|
        invariant 0 <= i <= |ORDER| && before <= history
        invariant old(rc).Some? ==> rc == old(rc) && i == 0
        invariant history[|before|..] == InVain(i)
        invariant i == |ORDER| ==> Sent(KILL) in history
        invariant Waited(1, None) in history <==> Waited(1, None) in before
      {
        ghost var es := history[|before|..];
        var seen := Poll();
        assert history[|before|..] == es + [Seen(rc)];
        if seen.Some? {
          RoundEnds(es + [Seen(rc)], rc.value, i);
          assert i == 0 ==> history == before + [Seen(rc)];
          return;
        }
        SendSignal(ORDER[i]);
        ghost var sent := if rc == None then [Sent(ORDER[i])] else [];
        var ended := WaitFor(STOP_TIMEOUT);
        assert history[|before|..] == es + ([Seen(None)] + sent + [Waited(10, rc)]);
        if rc == None { assert history[|history| - 2] == Sent(ORDER[i]); }
        if ended.Some? {
          RoundEnds(history[|before|..], rc.value, i);
          return;
        }
        RoundInVain(i);
        i := i + 1;
      }
      WaitKilled();
      AllInVain(rc.value);
    }
  }

  lemma NothingYet()
    ensures InVain(0) == []
  {
  }

  lemma RoundInVain(k: nat)
    ensures InVain(k + 1) == InVain(k) + [Seen(None), Sent(Strength(k)), Waited(10, None)]
  {
  }

  /** A process that ends in round `k` has been stopped as it should. */
  lemma RoundEnds(es: seq<Event>, rc: int, k: nat)
    requires k < 3
    requires es == InVain(k) + [Seen(Some(rc))]
      || es == InVain(k) + [Seen(None), Waited(10, Some(rc))]
      || es == InVain(k) + [Seen(None), Sent(Strength(k)), Waited(10, Some(rc))]
    ensures Stopped(es, rc) && Escalates(es)
  {
    hide Patient, Signals, InVain;
    assert EndsIn(es, rc, k);
    InVainEscalates(k);
    var p := InVain(k);
    MoreEvents(p, Seen(Some(rc)));
    MoreEvents(p, Seen(None));
    var q := p + [Seen(None)];
    if es == p + [Seen(None), Waited(10, Some(rc))] {
      assert es == q + [Waited(10, Some(rc))];
      MoreEvents(q, Waited(10, Some(rc)));
    } else if es == p + [Seen(None), Sent(Strength(k)), Waited(10, Some(rc))] {
      SignalSent(k);
      assert es == q + [Sent(Strength(k))] + [Waited(10, Some(rc))];
      MoreEvents(q + [Sent(Strength(k))], Waited(10, Some(rc)));
    }
  }

  lemma {:induction false} InVainEscalates(k: nat)
    requires k <= 3
    ensures Patient(InVain(k)) && Signals(InVain(k)) == [INT, TERM, KILL][..k]
    ensures Escalates(InVain(k))
    ensures k > 0 ==> InVain(k) != [] && InVain(k)[|InVain(k)| - 1] == Waited(10, None)
    decreases k, 0
  {
    hide Patient, Signals;
    if k == 0 {
      NoSignals([]);
      NoEventsPatient();
    } else {
      SignalSent(k - 1);
      var q := InVain(k - 1) + [Seen(None)] + [Sent(Strength(k - 1))];
      MoreEvents(q, Waited(10, None));
      assert InVain(k) == q + [Waited(10, None)];
    }
  }

  lemma AllInVain(rc: int)
    ensures Stopped(InVain(3), rc) && Escalates(InVain(3))
  {
    hide InVain;
    InVainEscalates(3);
  }

  lemma NoEventsPatient()
    ensures Patient([])
  {
  }

  /** The next signal, sent after those in vain, escalates. */
  lemma {:induction false} SignalSent(k: nat)
    requires k < 3
    ensures var es := InVain(k) + [Seen(None)] + [Sent(Strength(k))];
      Patient(es) && Signals(es) == [INT, TERM, KILL][..k + 1]
    decreases k, 1
  {
    hide InVain;
    InVainEscalates(k);
    MoreEvents(InVain(k), Seen(None));
    var polled := InVain(k) + [Seen(None)];
    var es := polled + [Sent(Strength(k))];
    assert es[..|polled|] == polled;
    assert k > 0 ==> es[|es| - 3] == InVain(k)[|InVain(k)| - 1];
  }

  lemma MoreEvents(es: seq<Event>, e: Event)
    requires Patient(es) && !e.Sent?
    ensures Patient(es + [e]) && Signals(es + [e]) == Signals(es)
  {
    assert (es + [e])[..|es|] == es;
  }

  datatype Stage = Sim | Client

  datatype Outcome = Normal | Failed(stage: Stage, returncode: int)

  /** The client was still running when the grace period of a second after the simulator's exit ran out. */
  ghost predicate Outlived(client: Proc)
    reads client
  {
    Waited(1, None) in client.history
  }

  /** `_wait`, for processes of which one eventually exits by itself. */
  method Wait(sim: Proc, client: Proc) returns (r: Outcome)
    requires sim != client && sim.rc == None && client.rc == None
    requires sim.history == [] && client.history == []
    requires sim.life.Some? || client.life.Some?
    modifies sim, client
    // neither is left running, and each was stopped gently first
    ensures sim.rc.Some? && client.rc.Some?
    ensures Escalates(sim.history) && Escalates(client.history)
    // the client's own exit decides, unless it outlived the simulator's by the grace period
    ensures r == Normal <==> !Outlived(client) && client.rc == Some(0)
    ensures forall code :: r == Failed(Client, code) <==> !Outlived(client) && client.rc == Some(code) && code != 0
    ensures forall code :: r == Failed(Sim, code) <==> Outlived(client) && sim.rc == Some(code)
    // whoever ended the run was not signalled
    ensures !Outlived(client) ==> Signals(client.history) == []
    ensures Outlived(client) ==> Signals(sim.history) == []
  {
    hide Signals, Patient, Escalates, Stopped, EndsIn, InVain, Unsignalled;
    NothingSeen();
    while true
      invariant sim.life.Some? || client.life.Some?
      invariant Unsignalled(sim.history) && Unsignalled(client.history) && !Outlived(client)
      decreases sim.Rank() + client.Rank()
    {
      ghost var c0, s0 := client.history, sim.history;
      var clientRc := client.Poll();
      LookedAgain(c0, Seen(client.rc));
      if clientRc.Some? {
        sim.Stop();
        ThenStopped(s0, sim.history);
        NeverSignalled(client.history);
        if clientRc.value != 0 {
          return Failed(Client, clientRc.value);
        }
        return Normal;
      }
      var simRc := sim.Poll();
      LookedAgain(s0, Seen(sim.rc));
      if simRc.Some? {
        ghost var c1 := client.history;
        var graceRc := client.WaitFor(SIM_EXIT_GRACE);
        LookedAgain(c1, Waited(SIM_EXIT_GRACE, client.rc));
        if graceRc == None {
          ghost var c2 := client.history;
          assert c2[|c2| - 1] == Waited(1, None);
          client.Stop();
          ThenStopped(c2, client.history);
          NeverSignalled(sim.history);
          return Failed(Sim, simRc.value);
        }
      }
    }
  }

  ghost predicate Unsignalled(es: seq<Event>) {
    forall e :: e in es ==> !e.Sent?
  }

  lemma NothingSeen()
    ensures Unsignalled([])
  {
  }

  lemma LookedAgain(es: seq<Event>, e: Event)
    requires Unsignalled(es) && !e.Sent?
    ensures Unsignalled(es + [e])
  {
  }

  lemma NeverSignalled(es: seq<Event>)
    requires Unsignalled(es)
    ensures Escalates(es) && Signals(es) == []
  {
    hide Unsignalled, Patient, Signals;
    NoSignals(es);
    UnsignalledPatient(es);
  }

  lemma ThenStopped(before: seq<Event>, es: seq<Event>)
    requires Unsignalled(before) && before <= es && Escalates(es[|before|..])
    ensures Escalates(es)
  {
    hide Unsignalled, Patient, Signals;
    UnsignalledThen(before, es);
  }

  lemma {:induction false} NoSignals(es: seq<Event>)
    requires Unsignalled(es)
    ensures Signals(es) == []
  {
    if es != [] { NoSignals(es[..|es| - 1]); }
  }

  /** Looking without signalling, and then a proper escalation. */
  lemma {:induction false} UnsignalledThen(before: seq<Event>, es: seq<Event>)
    requires Unsignalled(before) && before <= es && Patient(es[|before|..])
    ensures Signals(es) == Signals(es[|before|..]) && Patient(es)
    decreases |es|
  {
    if |es| == |before| {
      NoSignals(es);
      UnsignalledPatient(es);
    } else {
      var last := |es| - 1;
      var later := es[|before|..];
      assert later[..last - |before|] == es[..last][|before|..];
      UnsignalledThen(before, es[..last]);
      assert es[last] == later[|later| - 1];
      assert |later| >= 3 ==> es[last - 1] == later[|later| - 2] && es[last - 2] == later[|later| - 3];
    }
  }

  lemma {:induction false} UnsignalledPatient(es: seq<Event>)
    requires Unsignalled(es)
    ensures Patient(es)
  {
    if es != [] {
      UnsignalledPatient(es[..|es| - 1]);
      assert es[|es| - 1] in es;
    }
  }
}
