/** A chain of bounded first-in first-out queues with ready/valid hand-over between stages: the
    queue file, the adapter's 8-deep buffers, and whatever other buffering lies on a channel.
    Stage 0 is where messages enter. */
module Chain {

  type Queues<T> = seq<seq<T>>

  /** A queue holds at least one message. */
  type Depth = n: nat | n >= 1 witness 1

  ghost predicate Sized<T>(qs: Queues<T>, caps: seq<Depth>) {
    && |qs| == |caps| >= 1
    && forall i :: 0 <= i < |qs| ==> |qs[i]| <= caps[i]
  }

  predicate CanPush<T>(qs: Queues<T>, caps: seq<Depth>)
    requires |qs| == |caps| >= 1
  {
    |qs[0]| < caps[0]
  }

  predicate CanMove<T>(qs: Queues<T>, caps: seq<Depth>, i: nat)
    requires |qs| == |caps|
  {
    i + 1 < |qs| && qs[i] != [] && |qs[i + 1]| < caps[i + 1]
  }

  predicate CanPop<T>(qs: Queues<T>)
    requires |qs| >= 1
  {
    qs[|qs| - 1] != []
  }

  function Push<T>(qs: Queues<T>, x: T): (r: Queues<T>)
    requires |qs| >= 1
    ensures |r| == |qs|
  {
    qs[0 := qs[0] + [x]]
  }

  function Move<T>(qs: Queues<T>, i: nat): (r: Queues<T>)
    requires i + 1 < |qs| && qs[i] != []
    ensures |r| == |qs|
  {
    qs[i := qs[i][1..]][i + 1 := qs[i + 1] + [qs[i][0]]]
  }

  function Head<T>(qs: Queues<T>): T
    requires |qs| >= 1 && CanPop(qs)
  {
    qs[|qs| - 1][0]
  }

  function Pop<T>(qs: Queues<T>): (r: Queues<T>)
    requires |qs| >= 1 && CanPop(qs)
    ensures |r| == |qs|
  {
    qs[|qs| - 1 := qs[|qs| - 1][1..]]
  }

  /** Everything in flight, oldest first. */
  function InFlight<T>(qs: Queues<T>): seq<T> {
    if qs == [] then [] else InFlight(qs[1..]) + qs[0]
  }

  /** `n * k`, zero for negative `n`. */
  function Times(n: int, k: nat): nat
    decreases n
  {
    if n <= 0 then 0 else k + Times(n - 1, k)
  }

  lemma TimesStep(n: int, k: nat)
    requires n > 0
    ensures Times(n, k) == k + Times(n - 1, k)
  {
  }

  lemma {:induction false} TimesIsProduct(n: nat, k: nat)
    ensures Times(n, k) == n * k
  {
    if n > 0 {
      TimesIsProduct(n - 1, k);
      assert n * k == (n - 1) * k + k;
    }
  }

  /** Hops left until everything in flight has been taken out: each message leaves its own stage
      and every one after it. */
  function Hops<T>(qs: Queues<T>): nat {
    if qs == [] then 0 else Times(|qs[0]|, |qs|) + Hops(qs[1..])
  }

  lemma PushEffect<T>(qs: Queues<T>, x: T)
    requires |qs| >= 1
    ensures InFlight(Push(qs, x)) == InFlight(qs) + [x]
    ensures Hops(Push(qs, x)) == Hops(qs) + |qs|
  {
    var r := Push(qs, x);
    PushShape(qs, x);
    UnfoldFirst(qs);
    UnfoldFirst(r);
    hide Push, InFlight, Hops, Times;
    TimesStep(|r[0]|, |qs|);
    assert InFlight(qs[1..]) + (qs[0] + [x]) == InFlight(qs[1..]) + qs[0] + [x];
  }

  lemma PushShape<T>(qs: Queues<T>, x: T)
    requires |qs| >= 1
    ensures Push(qs, x)[0] == qs[0] + [x] && Push(qs, x)[1..] == qs[1..]
  {
  }

  lemma UnfoldFirst<T>(qs: Queues<T>)
    requires |qs| >= 1
    ensures InFlight(qs) == InFlight(qs[1..]) + qs[0] && Hops(qs) == Times(|qs[0]|, |qs|) + Hops(qs[1..])
  {
  }

  lemma {:induction false} MoveEffect<T>(qs: Queues<T>, i: nat)
    requires i + 1 < |qs| && qs[i] != []
    ensures InFlight(Move(qs, i)) == InFlight(qs)
    ensures Hops(Move(qs, i)) == Hops(qs) - 1
    decreases i
  {
    var r := Move(qs, i);
    if i > 0 {
      assert r[1..] == Move(qs[1..], i - 1);
      MoveEffect(qs[1..], i - 1);
    } else {
      var x := qs[0][0];
      assert qs[0] == [x] + qs[0][1..];
      assert r[1..] == Push(qs[1..], x);
      PushEffect(qs[1..], x);
      TimesStep(|qs[0]|, |qs|);
      assert InFlight(qs[1..]) + [x] + qs[0][1..] == InFlight(qs[1..]) + qs[0];
    }
  }

  lemma {:induction false} PopEffect<T>(qs: Queues<T>)
    requires |qs| >= 1 && CanPop(qs)
    ensures InFlight(qs) == [Head(qs)] + InFlight(Pop(qs))
    ensures Hops(Pop(qs)) == Hops(qs) - 1
    decreases |qs|
  {
    if |qs| > 1 {
      assert Pop(qs)[1..] == Pop(qs[1..]);
      PopEffect(qs[1..]);
    } else {
      assert qs[1..] == [] && Pop(qs)[1..] == [];
    }
  }

  /** Something in flight can always advance: out of the last stage, or into a stage with room. */
  lemma {:induction false} NeverStuck<T>(qs: Queues<T>, caps: seq<Depth>)
    requires Sized(qs, caps) && InFlight(qs) != []
    ensures CanPop(qs) || exists i: nat :: CanMove(qs, caps, i)
    decreases |qs|
  {
    if |qs| > 1 {
      if InFlight(qs[1..]) != [] {
        NeverStuck(qs[1..], caps[1..]);
        if i: nat :| CanMove(qs[1..], caps[1..], i) {
          assert CanMove(qs, caps, i + 1);
        }
      } else {
        EmptyStages(qs[1..], 0);
        assert CanMove(qs, caps, 0);
      }
    }
  }

  lemma {:induction false} EmptyStages<T>(qs: Queues<T>, i: nat)
    requires InFlight(qs) == [] && i < |qs|
    ensures qs[i] == []
    decreases i
  {
    if i > 0 { EmptyStages(qs[1..], i - 1); }
  }

  lemma RoomIfEmpty<T>(qs: Queues<T>, caps: seq<Depth>)
    requires |qs| == |caps| >= 1
    ensures InFlight(qs) == [] ==> CanPush(qs, caps)
  {
    if InFlight(qs) == [] { EmptyStages(qs, 0); }
  }

  function Total(caps: seq<Depth>): nat {
    if caps == [] then 0 else caps[0] + Total(caps[1..])
  }

  lemma {:induction false} InFlightBound<T>(qs: Queues<T>, caps: seq<Depth>)
    requires |qs| == |caps| && forall i :: 0 <= i < |qs| ==> |qs[i]| <= caps[i]
    ensures |InFlight(qs)| <= Total(caps)
    decreases |qs|
  {
    if qs != [] { InFlightBound(qs[1..], caps[1..]); }
  }

  // ---- the chain is one bounded queue ----

  /** A chain with the history of what entered and what left it. */
  datatype State<T> = State(qs: Queues<T>, sent: seq<T>, received: seq<T>)

  datatype Step<T> = Enter(x: T) | Hop(i: nat) | Leave

  predicate Enabled<T>(s: State<T>, caps: seq<Depth>, step: Step<T>)
    requires |s.qs| == |caps| >= 1
  {
    match step
    case Enter(x) => CanPush(s.qs, caps)
    case Hop(i) => CanMove(s.qs, caps, i)
    case Leave => CanPop(s.qs)
  }

  function Do<T>(s: State<T>, caps: seq<Depth>, step: Step<T>): (r: State<T>)
    requires |s.qs| == |caps| >= 1 && Enabled(s, caps, step)
    ensures |r.qs| == |s.qs|
  {
    match step
    case Enter(x) => s.(qs := Push(s.qs, x), sent := s.sent + [x])
    case Hop(i) => s.(qs := Move(s.qs, i))
    case Leave => s.(qs := Pop(s.qs), received := s.received + [Head(s.qs)])
  }

  function Run<T>(s: State<T>, caps: seq<Depth>, steps: seq<Step<T>>): (r: State<T>)
    requires |s.qs| == |caps| >= 1 && Possible(s, caps, steps)
    ensures |r.qs| == |s.qs|
    decreases |steps|
  {
    if steps == [] then s else Run(Do(s, caps, steps[0]), caps, steps[1..])
  }

  /** Every step of the run is enabled where it is taken. */
  predicate Possible<T>(s: State<T>, caps: seq<Depth>, steps: seq<Step<T>>)
    requires |s.qs| == |caps| >= 1
    decreases |steps|
  {
    steps == [] || (Enabled(s, caps, steps[0]) && Possible(Do(s, caps, steps[0]), caps, steps[1..]))
  }

  ghost predicate Conserves<T>(s: State<T>, caps: seq<Depth>) {
    Sized(s.qs, caps) && s.sent == s.received + InFlight(s.qs)
  }

  /** One step keeps `sent = received ++ in flight`, and is a step of, or invisible to, a single
      bounded queue of the total capacity. */
  lemma StepRefinesFifo<T>(s: State<T>, caps: seq<Depth>, step: Step<T>)
    requires Conserves(s, caps) && Enabled(s, caps, step)
    ensures var r := Do(s, caps, step);
      && Conserves(r, caps)
      && (step.Enter? ==> InFlight(r.qs) == InFlight(s.qs) + [step.x] && |InFlight(s.qs)| < Total(caps))
      && (step.Hop? ==> InFlight(r.qs) == InFlight(s.qs))
      && (step.Leave? ==> InFlight(s.qs) == r.received[|s.received|..] + InFlight(r.qs))
  {
    var r := Do(s, caps, step);
    match step
    case Enter(x) =>
      PushEffect(s.qs, x);
      InFlightBound(r.qs, caps);
    case Hop(i) =>
      MoveEffect(s.qs, i);
    case Leave =>
      PopEffect(s.qs);
  }

  /** Over every run: in order, nothing lost, duplicated or invented, never more in flight than
      the stages hold together. */
  lemma {:induction false} RunConserves<T>(s: State<T>, caps: seq<Depth>, steps: seq<Step<T>>)
    requires Conserves(s, caps) && Possible(s, caps, steps)
    ensures var r := Run(s, caps, steps); Conserves(r, caps) && |InFlight(r.qs)| <= Total(caps)
    decreases |steps|
  {
    if steps == [] {
      InFlightBound(s.qs, caps);
    } else {
      StepRefinesFifo(s, caps, steps[0]);
      RunConserves(Do(s, caps, steps[0]), caps, steps[1..]);
    }
  }
}
