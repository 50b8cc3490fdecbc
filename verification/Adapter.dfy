/** The loopback adapter: one client port and one manager port joined back to back, each with an
    8-deep buffer per channel, clocked. All handshakes of a cycle are decided on the state before
    the clock edge. */
module Adapter {
  import opened Options
  import opened Bits
  import opened Messages
  import opened Wire
  import opened Narrowing
  import opened Chain

  const DEPTH: Depth := 8
  const CAPS: seq<Depth> := [DEPTH, DEPTH]

  // ---- one clock edge of two buffers in a row ----

  /** What fires in a cycle: entering if offered and the first buffer has room, the hand-over if
      the first has something and the second room, leaving if the second has something and the
      far side is ready. As atomic steps, downstream first. */
  function Fired<T>(first: seq<T>, second: seq<T>, offer: Option<T>, ready: bool): seq<Step<T>> {
    (if ready && second != [] then [Leave] else [])
    + (if first != [] && |second| < DEPTH then [Hop(0)] else [])
    + (if offer.Some? && |first| < DEPTH then [Enter(offer.value)] else [])
  }

  /** The two buffers after the edge, both computed from their contents before it. */
  function NextFirst<T>(first: seq<T>, second: seq<T>, offer: Option<T>): seq<T> {
    (if first != [] && |second| < DEPTH then first[1..] else first)
    + (if offer.Some? && |first| < DEPTH then [offer.value] else [])
  }

  function NextSecond<T>(first: seq<T>, second: seq<T>, ready: bool): seq<T> {
    (if ready && second != [] then second[1..] else second)
    + (if first != [] && |second| < DEPTH then [first[0]] else [])
  }

  // the three parts of a cycle, as at most one step each

  function LeaveSteps<T>(second: seq<T>, ready: bool): seq<Step<T>> {
    if ready && second != [] then [Leave] else []
  }

  function HopSteps<T>(first: seq<T>, second: seq<T>): seq<Step<T>> {
    if first != [] && |second| < DEPTH then [Hop(0)] else []
  }

  function EnterSteps<T>(first: seq<T>, offer: Option<T>): seq<Step<T>> {
    if offer.Some? && |first| < DEPTH then [Enter(offer.value)] else []
  }

  function AfterLeave<T>(second: seq<T>, ready: bool): seq<T> {
    if ready && second != [] then second[1..] else second
  }

  lemma LeavePart<T>(s: State<T>, a: seq<T>, b: seq<T>, ready: bool)
    requires s.qs == [a, b]
    ensures Possible(s, CAPS, LeaveSteps(b, ready))
    ensures var r := Run(s, CAPS, LeaveSteps(b, ready));
      && r.qs == [a, AfterLeave(b, ready)] && r.sent == s.sent
      && r.received == s.received + if ready && b != [] then [b[0]] else []
  {
    hide InFlight;
    AtMostOne(s, CAPS, LeaveSteps(b, ready));
  }

  /** The hand-over was decided on `b`, the second buffer before anything left it. */
  lemma HopPart<T>(s: State<T>, a: seq<T>, b: seq<T>, ready: bool)
    requires s.qs == [a, AfterLeave(b, ready)]
    ensures Possible(s, CAPS, HopSteps(a, b))
    ensures var r := Run(s, CAPS, HopSteps(a, b));
      && r.qs == [if a != [] && |b| < DEPTH then a[1..] else a, NextSecond(a, b, ready)]
      && r.sent == s.sent && r.received == s.received
  {
    hide InFlight;
    AtMostOne(s, CAPS, HopSteps(a, b));
    var b' := AfterLeave(b, ready);
    assert b' + [] == b';
  }

  lemma EnterPart<T>(s: State<T>, a: seq<T>, second: seq<T>, b: seq<T>, offer: Option<T>)
    requires s.qs == [if a != [] && |b| < DEPTH then a[1..] else a, second]
    ensures Possible(s, CAPS, EnterSteps(a, offer))
    ensures var r := Run(s, CAPS, EnterSteps(a, offer));
      && r.qs == [NextFirst(a, b, offer), second] && r.received == s.received
      && r.sent == s.sent + if offer.Some? && |a| < 8 then [offer.value] else []
  {
    hide InFlight;
    AtMostOne(s, CAPS, EnterSteps(a, offer));
    var a' := if a != [] && |b| < DEPTH then a[1..] else a;
    assert a' + [] == a';
  }

  lemma FiredInParts<T>(a: seq<T>, b: seq<T>, offer: Option<T>, ready: bool)
    ensures Fired(a, b, offer, ready) == LeaveSteps(b, ready) + (HopSteps(a, b) + EnterSteps(a, offer))
  {
  }

  /** One clock edge as the ports of two 8-deep buffers in a row see it: the first takes the offer
      if it held fewer than 8, the second gives its oldest if the far side is ready, and the oldest of
      the first moves on if the second held fewer than 8. */
  ghost predicate PortCycle<T>(s: State<T>, r: State<T>, offer: Option<T>, enqReady: bool, deqReady: bool)
    requires |s.qs| == 2 && |r.qs| == 2
  {
    var first, second := s.qs[0], s.qs[1];
    var enters := if offer.Some? && enqReady then [offer.value] else [];
    var leaves := if deqReady && second != [] then [second[0]] else [];
    var moves := if first != [] && |second| < 8 then [first[0]] else [];
    && enqReady == (|first| < 8)
    && r.sent == s.sent + enters && r.received == s.received + leaves
    && moves + r.qs[0] == first + enters
    && leaves + r.qs[1] == second + moves
  }

  lemma CycleAtPorts<T>(s: State<T>, r: State<T>, offer: Option<T>, ready: bool)
    requires |s.qs| == 2
    requires r.qs == [NextFirst(s.qs[0], s.qs[1], offer), NextSecond(s.qs[0], s.qs[1], ready)]
    requires r.sent == s.sent + if offer.Some? && |s.qs[0]| < 8 then [offer.value] else []
    requires r.received == s.received + if ready && s.qs[1] != [] then [s.qs[1][0]] else []
    ensures PortCycle(s, r, offer, |s.qs[0]| < 8, ready)
  {
    var first, second := s.qs[0], s.qs[1];
    assert first != [] ==> first == [first[0]] + first[1..];
    assert second != [] ==> second == [second[0]] + second[1..];
  }

  /** A synchronous cycle is a run of atomic steps of the chain, and what the ports see. */
  lemma CycleIsRun<T>(s: State<T>, offer: Option<T>, ready: bool)
    requires |s.qs| == 2 && Sized(s.qs, CAPS)
    ensures var steps := Fired(s.qs[0], s.qs[1], offer, ready);
      && Possible(s, CAPS, steps)
      && Run(s, CAPS, steps).qs == [NextFirst(s.qs[0], s.qs[1], offer), NextSecond(s.qs[0], s.qs[1], ready)]
      && PortCycle(s, Run(s, CAPS, steps), offer, |s.qs[0]| < 8, ready)
  {
    hide InFlight, Possible, Run, Fired, LeaveSteps, HopSteps, EnterSteps, AfterLeave, NextFirst, NextSecond, PortCycle;
    var a, b := s.qs[0], s.qs[1];
    assert s.qs == [a, b];
    LeavePart(s, a, b, ready);
    var s1 := Run(s, CAPS, LeaveSteps(b, ready));
    HopPart(s1, a, b, ready);
    var s2 := Run(s1, CAPS, HopSteps(a, b));
    EnterPart(s2, a, NextSecond(a, b, ready), b, offer);
    RunAppend(s1, CAPS, HopSteps(a, b), EnterSteps(a, offer));
    RunAppend(s, CAPS, LeaveSteps(b, ready), HopSteps(a, b) + EnterSteps(a, offer));
    FiredInParts(a, b, offer, ready);
    CycleAtPorts(s, Run(s, CAPS, Fired(a, b, offer, ready)), offer, ready);
  }

  lemma AtMostOne<T>(s: State<T>, caps: seq<Depth>, steps: seq<Step<T>>)
    requires |s.qs| == |caps| >= 1 && |steps| <= 1
    ensures Possible(s, caps, steps) <==> (steps == [] || Enabled(s, caps, steps[0]))
    ensures Possible(s, caps, steps) ==> Run(s, caps, steps) == if steps == [] then s else Do(s, caps, steps[0])
  {
    if steps != [] { assert steps[1..] == []; }
  }

  lemma {:induction false} RunAppend<T>(s: State<T>, caps: seq<Depth>, x: seq<Step<T>>, y: seq<Step<T>>)
    requires |s.qs| == |caps| >= 1 && Possible(s, caps, x) && Possible(Run(s, caps, x), caps, y)
    ensures Possible(s, caps, x + y) && Run(s, caps, x + y) == Run(Run(s, caps, x), caps, y)
    decreases |x|
  {
    if x == [] {
      assert x + y == y;
    } else {
      assert (x + y)[1..] == x[1..] + y;
      RunAppend(Do(s, caps, x[0]), caps, x[1..], y);
    }
  }

  // ---- the adapter ----

  /** What the adapter buffers for an arriving word, and the word it presents for a buffered beat. */
  function EnterA(w: LinkWidths, word: nat): TLBundleA { ConnectA(w, ToTLA(UnpackA(word))) }
  function LeaveA(x: TLBundleA): nat { PackA(FromTLA(x)) }
  function EnterD(w: LinkWidths, word: nat): TLBundleD { ConnectD(w, ToTLD(UnpackD(word))) }
  function LeaveD(x: TLBundleD): nat { PackD(FromTLD(x)) }

  /** The beat offered to a buffer, if a word is valid. */
  function OfferedA(w: LinkWidths, word: Option<nat>): Option<TLBundleA> {
    if word.Some? then Some(EnterA(w, word.value)) else None
  }

  function OfferedD(w: LinkWidths, word: Option<nat>): Option<TLBundleD> {
    if word.Some? then Some(EnterD(w, word.value)) else None
  }

  class TLLoopback {
    const w: LinkWidths
    var clientABuf: seq<TLBundleA>
    var managerABuf: seq<TLBundleA>
    var managerDBuf: seq<TLBundleD>
    var clientDBuf: seq<TLBundleD>
    /** The two channels as chains, with everything that entered and left so far. */
    ghost var a: State<TLBundleA>
    ghost var d: State<TLBundleD>

    ghost predicate Valid()
      reads this
    {
      && w.Accepted()
      && a.qs == [clientABuf, managerABuf] && Conserves(a, CAPS)
      && d.qs == [managerDBuf, clientDBuf] && Conserves(d, CAPS)
    }

    constructor (widths: LinkWidths)
      requires widths.Accepted()
      ensures Valid() && w == widths
      ensures a.sent == [] && d.sent == []
    {
      w := widths;
      clientABuf, managerABuf, managerDBuf, clientDBuf := [], [], [], [];
      a, d := State([[], []], [], []), State([[], []], [], []);
    }

    /** One clock cycle. `clientA` and `managerD` are the words offered from the queues (if valid);
        the booleans are the readiness of the queues that take words out. Returns the readiness
        and the words presented back. */
    method Tick(clientA: Option<nat>, clientDReady: bool, managerD: Option<nat>, managerAReady: bool)
      returns (clientAReady: bool, clientD: Option<nat>, managerDReady: bool, managerA: Option<nat>)
      requires Valid()
      modifies this
      ensures Valid()
      ensures PortCycle(old(a), a, OfferedA(w, clientA), clientAReady, managerAReady)
      ensures PortCycle(old(d), d, OfferedD(w, managerD), managerDReady, clientDReady)
      ensures managerA == if old(managerABuf) == [] then None else Some(LeaveA(old(managerABuf)[0]))
      ensures clientD == if old(clientDBuf) == [] then None else Some(LeaveD(old(clientDBuf)[0]))
    {
      hide LeaveA, LeaveD, InFlight, NextFirst, NextSecond, Fired, PortCycle, Chain.Possible, Chain.Run, OfferedA,
        OfferedD;
      clientAReady, managerDReady := |clientABuf| < DEPTH, |managerDBuf| < DEPTH;
      managerA := if managerABuf == [] then None else Some(LeaveA(managerABuf[0]));
      clientD := if clientDBuf == [] then None else Some(LeaveD(clientDBuf[0]));
      var offerA, offerD := OfferedA(w, clientA), OfferedD(w, managerD);
      ghost var stepsA := Fired(clientABuf, managerABuf, offerA, managerAReady);
      ghost var stepsD := Fired(managerDBuf, clientDBuf, offerD, clientDReady);
      CycleIsRun(a, offerA, managerAReady);
      CycleIsRun(d, offerD, clientDReady);
      RunConserves(a, CAPS, stepsA);
      RunConserves(d, CAPS, stepsD);
      clientABuf, managerABuf :=
        NextFirst(clientABuf, managerABuf, offerA), NextSecond(clientABuf, managerABuf, managerAReady);
      managerDBuf, clientDBuf :=
        NextFirst(managerDBuf, clientDBuf, offerD), NextSecond(managerDBuf, clientDBuf, clientDReady);
      a, d := Run(a, CAPS, stepsA), Run(d, CAPS, stepsD);
    }
  }

  // ---- end to end, in messages ----

  function EnteredA(w: LinkWidths, ms: seq<MsgA>): seq<TLBundleA> {
    seq(|ms|, i requires 0 <= i < |ms| => EnterA(w, LeNum(StructA(ms[i]))))
  }

  /** `stale[i]` is what the reserved bytes of the struct sent for `ms[i]` happened to hold. */
  function EnteredD(w: LinkWidths, ms: seq<MsgD>, stale: seq<seq<byte>>): seq<TLBundleD>
    requires |stale| == |ms|
  {
    seq(|ms|, i requires 0 <= i < |ms| => EnterD(w, LeNum(StructD(ms[i], stale[i]))))
  }

  /** If the client side has sent the messages `ms`, what has come out at the manager side is the
      first few of them, in order, each as the link carries it, and at most 16 are on the way. */
  lemma LoopbackDeliversA(w: LinkWidths, s: State<TLBundleA>, ms: seq<MsgA>)
    requires w.Accepted() && Conserves(s, CAPS) && s.sent == EnteredA(w, ms)
    requires forall i :: 0 <= i < |ms| ==> WfA(ms[i])
    ensures |s.received| <= |ms| <= |s.received| + 16
    ensures forall i :: 0 <= i < |s.received| ==> ArrivesA(w, s.received[i], ms[i])
  {
    InFlightBound(s.qs, CAPS);
    TotalTwo(DEPTH, DEPTH);
    forall i | 0 <= i < |s.received| ensures ArrivesA(w, s.received[i], ms[i]) {
      assert s.received[i] == s.sent[i];
      TripIsLinkA(w, ms[i]);
    }
  }

  /** The beat leaves the adapter as bytes that are `m` as a link of widths `w` carries it. */
  ghost predicate ArrivesA(w: LinkWidths, x: TLBundleA, m: MsgA) {
    w.Accepted() && WfA(m) && ParseA(LeBytes(LeaveA(x), WORD_BYTES)) == OnLinkA(w, m)
  }

  /** The same for responses, from the manager side to the client side. */
  lemma LoopbackDeliversD(w: LinkWidths, s: State<TLBundleD>, ms: seq<MsgD>, stale: seq<seq<byte>>)
    requires |stale| == |ms| && forall i :: 0 <= i < |ms| ==> WfD(ms[i]) && |stale[i]| == RESERVED
    requires w.Accepted() && Conserves(s, CAPS) && s.sent == EnteredD(w, ms, stale)
    ensures |s.received| <= |ms| <= |s.received| + 16
    ensures forall i :: 0 <= i < |s.received| ==> ArrivesD(w, s.received[i], ms[i])
  {
    InFlightBound(s.qs, CAPS);
    TotalTwo(DEPTH, DEPTH);
    forall i | 0 <= i < |s.received| ensures ArrivesD(w, s.received[i], ms[i]) {
      assert s.received[i] == s.sent[i];
      TripIsLinkD(w, ms[i], stale[i]);
    }
  }

  /** The beat leaves the adapter as bytes that are `m` as a link of widths `w` carries it. */
  ghost predicate ArrivesD(w: LinkWidths, x: TLBundleD, m: MsgD) {
    w.Accepted() && WfD(m) && ParseD(LeBytes(LeaveD(x), WORD_BYTES)) == OnLinkD(w, m)
  }

  lemma TotalTwo(x: Depth, y: Depth)
    ensures Total([x, y]) == x + y
  {
    assert [x, y][1..] == [y] && [y][1..] == [];
    assert Total([y]) == y;
  }
}
