/** The composed system: a client running one transaction, the A and D queue chains, and the
    manager, every part moving on its own. Whatever the interleaving, a transaction can always go
    on, takes a fixed number of steps, and ends with the queues empty and memory as if the access
    had been made to a flat byte array. */
module Transport {
  import opened Bits
  import opened Messages
  import opened Lanes
  import opened Narrowing
  import opened Chain
  import opened Protocol

  datatype Net = Net(aq: Queues<MsgA>, dq: Queues<MsgD>, node: Node)

  /** `start` records the memory when the transaction began; nothing reads it. */
  datatype Client = Idle | Busy(x: Xact, start: seq<byte>, sent: nat, got: seq<MsgD>)

  datatype Sys = Sys(net: Net, client: Client)

  datatype Move =
    | SendA                       // client: next request beat into the A chain
    | HopA(i: nat) | HopD(i: nat) // a queue hands over to the next
    | TakeA                       // manager: take a request beat
    | GiveD                       // manager: put a response beat into the D chain
    | RecvD                       // client: take a response beat

  ghost predicate ClientOk(c: Cfg, s: Sys) {
    |s.net.aq| == |c.capsA| && |s.net.dq| == |c.capsD|
    && (s.client.Busy? ==> XactOk(c, s.client.x, |s.client.start|))
  }

  predicate EnvEnabled(c: Cfg, n: Net, m: Move)
    requires |n.aq| == |c.capsA| && |n.dq| == |c.capsD|
  {
    match m
    case HopA(i) => CanMove(n.aq, c.capsA, i)
    case HopD(i) => CanMove(n.dq, c.capsD, i)
    case TakeA => CanPop(n.aq) && Accepts(n.node, Head(n.aq))
    case GiveD => Owes(n.node) && CanPush(n.dq, c.capsD)
    case _ => false
  }

  function EnvDo(c: Cfg, n: Net, m: Move): (r: Net)
    requires |n.aq| == |c.capsA| && |n.dq| == |c.capsD| && EnvEnabled(c, n, m)
    ensures |r.aq| == |n.aq| && |r.dq| == |n.dq|
  {
    match m
    case HopA(i) => n.(aq := Chain.Move(n.aq, i))
    case HopD(i) => n.(dq := Chain.Move(n.dq, i))
    case TakeA => n.(aq := Pop(n.aq), node := Accept(c, n.node, Head(n.aq)))
    case GiveD => var (beat, node) := Reply(c, n.node); n.(dq := Push(n.dq, beat), node := node)
  }

  ghost predicate Enabled(c: Cfg, s: Sys, m: Move)
    requires ClientOk(c, s)
  {
    match m
    case SendA => s.client.Busy? && s.client.sent < NumA(c, s.client.x) && CanPush(s.net.aq, c.capsA)
    case RecvD =>
      && s.client.Busy? && s.client.sent == NumA(c, s.client.x)
      && |s.client.got| < NumD(c, s.client.x) && CanPop(s.net.dq)
    case _ => EnvEnabled(c, s.net, m)
  }

  ghost function Do(c: Cfg, s: Sys, m: Move): (r: Sys)
    requires ClientOk(c, s) && Enabled(c, s, m)
    ensures ClientOk(c, r)
  {
    match m
    case SendA =>
      var Busy(x, start, sent, got) := s.client;
      Sys(s.net.(aq := Push(s.net.aq, Request(c, x, |start|, sent))), Busy(x, start, sent + 1, got))
    case RecvD =>
      var Busy(x, start, sent, got) := s.client;
      Sys(s.net.(dq := Pop(s.net.dq)), Busy(x, start, sent, got + [Head(s.net.dq)]))
    case _ => s.(net := EnvDo(c, s.net, m))
  }

  /** No part waits for another but for room and messages: every schedule of these moves is covered. */
  lemma Unhindered(c: Cfg, s: Sys, i: nat)
    requires ClientOk(c, s)
    ensures i + 1 < |s.net.aq| && s.net.aq[i] != [] && |s.net.aq[i + 1]| < c.capsA[i + 1] ==> Enabled(c, s, HopA(i))
    ensures i + 1 < |s.net.dq| && s.net.dq[i] != [] && |s.net.dq[i + 1]| < c.capsD[i + 1] ==> Enabled(c, s, HopD(i))
    ensures CanPop(s.net.aq) && Accepts(s.net.node, Head(s.net.aq)) ==> Enabled(c, s, TakeA)
    ensures Owes(s.net.node) && |s.net.dq[0]| < c.capsD[0] ==> Enabled(c, s, GiveD)
    ensures s.client.Busy? && s.client.sent < NumA(c, s.client.x) && |s.net.aq[0]| < c.capsA[0] ==> Enabled(c, s, SendA)
    ensures (s.client.Busy? && s.client.sent == NumA(c, s.client.x) && |s.client.got| < NumD(c, s.client.x)
             && CanPop(s.net.dq)) ==> Enabled(c, s, RecvD)
  {
    hide XactOk, Accepts, NumA, NumD;
  }

  // ---- the invariant ----

  /** Nothing in the queues, the manager idle. */
  ghost predicate Quiet(n: Net) {
    InFlight(n.aq) == [] && InFlight(n.dq) == [] && n.node.phase.Ready?
  }

  /** Request beats the manager has taken, response beats it has given. */
  function Taken(s: Sys): int
    requires s.client.Busy?
  {
    s.client.sent - |InFlight(s.net.aq)|
  }

  function Given(s: Sys): nat
    requires s.client.Busy?
  {
    |s.client.got| + |InFlight(s.net.dq)|
  }

  /** The A chain holds exactly the request beats sent and not yet taken, the D chain the response
      beats given and not yet received, and the manager is where those counts say. */
  ghost predicate Inv(c: Cfg, s: Sys) {
    && ClientOk(c, s)
    && Sized(s.net.aq, c.capsA) && Sized(s.net.dq, c.capsD)
    && (s.client.Idle? ==> Quiet(s.net))
    && (s.client.Busy? ==>
        Midway(c, s.client, InFlight(s.net.aq), InFlight(s.net.dq), s.net.node))
  }

  ghost predicate Midway(c: Cfg, cl: Client, a: seq<MsgA>, d: seq<MsgD>, node: Node)
    requires cl.Busy? && XactOk(c, cl.x, |cl.start|)
  {
    var x, start := cl.x, cl.start;
    var j, k := cl.sent - |a|, |cl.got| + |d|;
    && 0 <= j <= cl.sent <= NumA(c, x) && k <= NumD(c, x)
    && (k > 0 ==> j == NumA(c, x))
    && a == Requests(c, x, |start|)[j..cl.sent]
    && cl.got + d == Responses(c, x, start)[..k]
    && node == NodeAfter(c, x, start, j, k)
  }

  ghost predicate Done(c: Cfg, s: Sys)
    requires ClientOk(c, s)
  {
    s.client.Busy? && s.client.sent == NumA(c, s.client.x) && |s.client.got| == NumD(c, s.client.x)
  }

  /** Steps left in the transaction: a beat still to be sent enters its chain and then leaves
      every stage of it; one in flight leaves the stages ahead of it. */
  ghost function StepsLeft(c: Cfg, s: Sys): nat
    requires ClientOk(c, s) && s.client.Busy?
  {
    Times(NumA(c, s.client.x) - s.client.sent, |c.capsA| + 1) + Hops(s.net.aq)
    + Times(NumD(c, s.client.x) - Given(s), |c.capsD| + 1) + Hops(s.net.dq)
  }

  function Begin(n: Net, x: Xact): Sys {
    Sys(n, Busy(x, n.node.mem, 0, []))
  }

  lemma BeginInv(c: Cfg, n: Net, x: Xact)
    requires Inv(c, Sys(n, Idle)) && XactOk(c, x, |n.node.mem|)
    ensures Inv(c, Begin(n, x))
    ensures StepsLeft(c, Begin(n, x))
         == Times(NumA(c, x), |c.capsA| + 1) + Hops(n.aq) + Times(NumD(c, x), |c.capsD| + 1) + Hops(n.dq)
  {
    hide XactOk, Midway, Hops, Times, NumA, NumD, Config.Ok, Beats, Pow2;
    var s := Begin(n, x);
    BeginMidway(c, x, s.client, InFlight(n.aq), InFlight(n.dq), n.node);
  }

  /** A transaction that has sent and received nothing, with nothing in the queues. */
  lemma BeginMidway(c: Cfg, x: Xact, cl: Client, a: seq<MsgA>, d: seq<MsgD>, node: Node)
    requires cl.Busy? && cl.x == x && cl.sent == 0 && cl.got == [] && a == [] && d == []
    requires XactOk(c, x, |cl.start|) && node == Node(cl.start, Ready)
    ensures Midway(c, cl, a, d, node)
  {
    hide Config.Ok, XactOk, Requests, Responses, NodeAfter, NumA, NumD, Beats, Pow2;
    NothingSent(c, x, cl.start);
    NothingReceived(c, x, cl.start);
    NothingTaken(c, x, cl.start);
    assert cl.got + d == [];
  }

  lemma NothingSent(c: Cfg, x: Xact, mem: seq<byte>)
    requires XactOk(c, x, |mem|)
    ensures Requests(c, x, |mem|)[0..0] == []
  {
    hide Config.Ok, XactOk, Requests, NumA, Beats, Pow2;
  }

  lemma NothingReceived(c: Cfg, x: Xact, mem: seq<byte>)
    requires XactOk(c, x, |mem|)
    ensures Responses(c, x, mem)[..0] == []
  {
    hide Config.Ok, XactOk, Responses, NumD, Beats, Pow2;
  }

  lemma NothingTaken(c: Cfg, x: Xact, mem: seq<byte>)
    requires XactOk(c, x, |mem|)
    ensures NodeAfter(c, x, mem, 0, 0) == Node(mem, Ready)
  {
    hide Config.Ok, XactOk, Final, NumA, NumD, Beats, Pow2;
  }

  /** One step of anyone keeps the invariant and uses up exactly one step. */
  lemma StepInv(c: Cfg, s: Sys, m: Move)
    requires Inv(c, s) && s.client.Busy? && Enabled(c, s, m)
    ensures Inv(c, Do(c, s, m)) && Do(c, s, m).client.Busy?
    ensures StepsLeft(c, Do(c, s, m)) == StepsLeft(c, s) - 1
  {
    hide Config.Ok, Beats, Pow2;
    match m
    case SendA =>
      SendInv(c, s);
      SendSteps(c, s);
    case HopA(i) => HopAInv(c, s, i);
    case HopD(i) => HopDInv(c, s, i);
    case TakeA =>
      TakeInv(c, s);
      TakeSteps(c, s);
    case GiveD => GiveInv(c, s);
    case RecvD => RecvInv(c, s);
  }

  lemma HopAInv(c: Cfg, s: Sys, i: nat)
    requires Inv(c, s) && s.client.Busy? && Enabled(c, s, HopA(i))
    ensures Inv(c, Do(c, s, HopA(i))) && StepsLeft(c, Do(c, s, HopA(i))) == StepsLeft(c, s) - 1
  {
    hide Midway, XactOk, Hops, InFlight, Times, Chain.Move, Config.Ok, Beats, Pow2;
    MoveEffect(s.net.aq, i);
    MoveSized(s.net.aq, c.capsA, i);
  }

  lemma MoveSized<T>(qs: Queues<T>, caps: seq<Depth>, i: nat)
    requires Sized(qs, caps) && CanMove(qs, caps, i)
    ensures Sized(Chain.Move(qs, i), caps)
  {
  }

  lemma HopDInv(c: Cfg, s: Sys, i: nat)
    requires Inv(c, s) && s.client.Busy? && Enabled(c, s, HopD(i))
    ensures Inv(c, Do(c, s, HopD(i))) && StepsLeft(c, Do(c, s, HopD(i))) == StepsLeft(c, s) - 1
  {
    hide Midway, XactOk, Hops, InFlight, Times, Chain.Move, Config.Ok, Beats, Pow2;
    MoveEffect(s.net.dq, i);
    MoveSized(s.net.dq, c.capsD, i);
  }

  lemma SliceSnoc<T>(rs: seq<T>, j: nat, k: nat)
    requires j <= k < |rs|
    ensures rs[j..k + 1] == rs[j..k] + [rs[k]]
  {
  }

  lemma SliceTail<T>(rs: seq<T>, j: nat, k: nat)
    requires j < k <= |rs|
    ensures rs[j..k][0] == rs[j] && rs[j..k][1..] == rs[j + 1..k]
  {
  }

  lemma SendInv(c: Cfg, s: Sys)
    requires Inv(c, s) && s.client.Busy? && Enabled(c, s, SendA)
    ensures Inv(c, Do(c, s, SendA))
  {
    hide Midway, XactOk, Request, Config.Ok, Beats, Pow2;
    var m := Request(c, s.client.x, |s.client.start|, s.client.sent);
    PushEffect(s.net.aq, m);
    SendMidway(c, s.client, InFlight(s.net.aq), InFlight(s.net.dq), s.net.node);
  }

  lemma SendSteps(c: Cfg, s: Sys)
    requires ClientOk(c, s) && s.client.Busy? && Enabled(c, s, SendA)
    ensures StepsLeft(c, Do(c, s, SendA)) == StepsLeft(c, s) - 1
  {
    ConfigBasics(c);
    hide Config.Ok, XactOk, Request, Hops, InFlight, Times, NumA, NumD;
    PushEffect(s.net.aq, Request(c, s.client.x, |s.client.start|, s.client.sent));
    TimesStep(NumA(c, s.client.x) - s.client.sent, |c.capsA| + 1);
  }

  lemma SendMidway(c: Cfg, cl: Client, a: seq<MsgA>, d: seq<MsgD>, node: Node)
    requires cl.Busy? && XactOk(c, cl.x, |cl.start|) && cl.sent < NumA(c, cl.x)
    requires Midway(c, cl, a, d, node)
    ensures Midway(c, cl.(sent := cl.sent + 1), a + [Request(c, cl.x, |cl.start|, cl.sent)], d, node)
  {
    hide Request, Response, NodeAfter, XactOk, Responses, Config.Ok, Beats, Pow2;
    var j := cl.sent - |a|;
    var rs := Requests(c, cl.x, |cl.start|);
    SliceSnoc(rs, j, cl.sent);
    assert rs[cl.sent] == Request(c, cl.x, |cl.start|, cl.sent);
  }

  lemma TakeInv(c: Cfg, s: Sys)
    requires Inv(c, s) && s.client.Busy? && Enabled(c, s, TakeA)
    ensures Inv(c, Do(c, s, TakeA))
  {
    hide Midway, XactOk, Accept, Config.Ok, Beats, Pow2;
    var aq := Pop(s.net.aq);
    PopEffect(s.net.aq);
    assert Sized(aq, c.capsA);
    TakeMidway(c, s.client, InFlight(s.net.aq), InFlight(s.net.dq), s.net.node);
    assert InFlight(s.net.aq)[1..] == InFlight(aq);
    var r := Do(c, s, TakeA);
    assert r == Sys(Net(aq, s.net.dq, Accept(c, s.net.node, Head(s.net.aq))), s.client);
    assert Inv(c, r);
  }

  lemma TakeSteps(c: Cfg, s: Sys)
    requires ClientOk(c, s) && s.client.Busy? && Enabled(c, s, TakeA)
    ensures StepsLeft(c, Do(c, s, TakeA)) == StepsLeft(c, s) - 1
  {
    ConfigBasics(c);
    hide Config.Ok, XactOk, Accept, Hops, InFlight, Times, NumA, NumD;
    PopEffect(s.net.aq);
  }

  lemma TakeMidway(c: Cfg, cl: Client, a: seq<MsgA>, d: seq<MsgD>, node: Node)
    requires cl.Busy? && XactOk(c, cl.x, |cl.start|) && a != []
    requires Midway(c, cl, a, d, node)
    ensures Accepts(node, a[0]) && Midway(c, cl, a[1..], d, Accept(c, node, a[0]))
  {
    hide Accept, Accepts, Request, Response, NodeAfter, Config.Ok, Beats, Pow2;
    SliceTail(Requests(c, cl.x, |cl.start|), cl.sent - |a|, cl.sent);
    AcceptStep(c, cl.x, cl.start, cl.sent - |a|);
  }

  lemma GiveInv(c: Cfg, s: Sys)
    requires Inv(c, s) && s.client.Busy? && Enabled(c, s, GiveD)
    ensures Inv(c, Do(c, s, GiveD)) && StepsLeft(c, Do(c, s, GiveD)) == StepsLeft(c, s) - 1
  {
    hide Midway, XactOk, Reply, Config.Ok, Beats, Pow2;
    GiveMidway(c, s.client, InFlight(s.net.aq), InFlight(s.net.dq), s.net.node);
    PushEffect(s.net.dq, Reply(c, s.net.node).0);
    TimesStep(NumD(c, s.client.x) - Given(s), |c.capsD| + 1);
  }

  lemma GiveMidway(c: Cfg, cl: Client, a: seq<MsgA>, d: seq<MsgD>, node: Node)
    requires cl.Busy? && XactOk(c, cl.x, |cl.start|) && Owes(node)
    requires Midway(c, cl, a, d, node)
    ensures |cl.got| + |d| < NumD(c, cl.x)
    ensures Midway(c, cl, a, d + [Reply(c, node).0], Reply(c, node).1)
  {
    hide Reply, Request, Response, Config.Ok, Beats, Pow2;
    var rs, k := Responses(c, cl.x, cl.start), |cl.got| + |d|;
    ReplyStep(c, cl.x, cl.start, k);
    SliceSnoc(rs, 0, k);
    assert cl.got + (d + [rs[k]]) == cl.got + d + [rs[k]];
  }

  lemma RecvInv(c: Cfg, s: Sys)
    requires Inv(c, s) && s.client.Busy? && Enabled(c, s, RecvD)
    ensures Inv(c, Do(c, s, RecvD)) && StepsLeft(c, Do(c, s, RecvD)) == StepsLeft(c, s) - 1
  {
    hide Midway, XactOk, Config.Ok, Beats, Pow2;
    PopEffect(s.net.dq);
    RecvMidway(c, s.client, InFlight(s.net.aq), InFlight(s.net.dq), s.net.node);
    assert InFlight(s.net.dq)[1..] == InFlight(Pop(s.net.dq));
  }

  lemma RecvMidway(c: Cfg, cl: Client, a: seq<MsgA>, d: seq<MsgD>, node: Node)
    requires cl.Busy? && XactOk(c, cl.x, |cl.start|) && d != []
    requires Midway(c, cl, a, d, node)
    ensures Midway(c, cl.(got := cl.got + [d[0]]), a, d[1..], node)
  {
    hide XactOk, Requests, Responses, NodeAfter, Config.Ok, Beats, Pow2;
    assert cl.got + [d[0]] + d[1..] == cl.got + d;
  }

  /** The beat at the head of the D chain is the next one of the answer. */
  lemma NextResponse(c: Cfg, s: Sys)
    requires Inv(c, s) && s.client.Busy? && CanPop(s.net.dq)
    ensures |s.client.got| < NumD(c, s.client.x)
    ensures Head(s.net.dq) == Response(c, s.client.x, s.client.start, |s.client.got|)
  {
    hide Response, NodeAfter, Request, Config.Ok, Beats, Pow2;
    PopEffect(s.net.dq);
    var d := InFlight(s.net.dq);
    assert (s.client.got + d)[|s.client.got|] == d[0];
  }

  lemma InvShape(c: Cfg, s: Sys)
    requires Inv(c, s)
    ensures ClientOk(c, s) && |s.net.aq| == |c.capsA| && |s.net.dq| == |c.capsD|
  {
    hide Midway, XactOk, Config.Ok, Beats, Pow2;
  }

  /** A move of a queue or the manager is a step whatever the client is doing. */
  lemma EnvIsStep(c: Cfg, s: Sys, m: Move)
    requires ClientOk(c, s) && EnvEnabled(c, s.net, m)
    ensures Enabled(c, s, m) && Do(c, s, m) == Sys(EnvDo(c, s.net, m), s.client)
  {
  }

  // ---- progress ----

  /** An unfinished transaction is never stuck; and if the client itself has to wait, something
      else can move. */
  lemma Progress(c: Cfg, s: Sys) returns (m: Move)
    requires Inv(c, s) && s.client.Busy? && !Done(c, s)
    ensures Enabled(c, s, m)
    ensures !Enabled(c, s, SendA) && !Enabled(c, s, RecvD) ==> EnvEnabled(c, s.net, m)
  {
    hide Config.Ok, Beats, Pow2;
    if Enabled(c, s, SendA) {
      m := SendA;
    } else if Enabled(c, s, RecvD) {
      m := RecvD;
    } else if InFlight(s.net.dq) != [] {
      NeverStuck(s.net.dq, c.capsD);
      var i: nat :| CanMove(s.net.dq, c.capsD, i);
      m := HopD(i);
    } else if Taken(s) == NumA(c, s.client.x) {
      ReplyStep(c, s.client.x, s.client.start, Given(s));
      RoomIfEmpty(s.net.dq, c.capsD);
      m := GiveD;
    } else {
      RoomIfEmpty(s.net.aq, c.capsA);
      m := RequestsMove(c, s);
    }
  }

  /** Request beats in flight can advance, or the manager can take one. */
  lemma RequestsMove(c: Cfg, s: Sys) returns (m: Move)
    requires Inv(c, s) && s.client.Busy? && InFlight(s.net.aq) != []
    ensures EnvEnabled(c, s.net, m)
    ensures m.HopA? || m.TakeA?
  {
    hide Config.Ok, Beats, Pow2;
    NeverStuck(s.net.aq, c.capsA);
    if CanPop(s.net.aq) {
      PopEffect(s.net.aq);
      TakeMidway(c, s.client, InFlight(s.net.aq), InFlight(s.net.dq), s.net.node);
      m := TakeA;
    } else {
      var i: nat :| CanMove(s.net.aq, c.capsA, i);
      m := HopA(i);
    }
  }

  /** A finished transaction has left nothing behind, and memory and answer are those of one
      access to a flat byte array. */
  lemma DoneMeans(c: Cfg, s: Sys)
    requires Inv(c, s) && Done(c, s)
    ensures Quiet(s.net) && s.net.node.mem == Final(c, s.client.x, s.client.start)
    ensures s.client.got == Responses(c, s.client.x, s.client.start)
    ensures Inv(c, Sys(s.net, Idle))
  {
    hide Config.Ok, Beats, Pow2;
    assert s.client.got + InFlight(s.net.dq) == Responses(c, s.client.x, s.client.start);
  }

  /** With nothing outstanding nothing moves. */
  lemma QuietIsStill(c: Cfg, n: Net, m: Move)
    requires Inv(c, Sys(n, Idle))
    ensures !EnvEnabled(c, n, m)
  {
    hide Config.Ok, Beats, Pow2;
    match m
    case HopA(i) => if i < |n.aq| { EmptyStages(n.aq, i); }
    case HopD(i) => if i < |n.dq| { EmptyStages(n.dq, i); }
    case TakeA => EmptyStages(n.aq, |n.aq| - 1);
    case GiveD =>
    case _ =>
  }

  // ---- whole runs ----

  ghost predicate Possible(c: Cfg, s: Sys, ms: seq<Move>)
    requires ClientOk(c, s)
    decreases |ms|
  {
    ms == [] || (Enabled(c, s, ms[0]) && Possible(c, Do(c, s, ms[0]), ms[1..]))
  }

  ghost function Run(c: Cfg, s: Sys, ms: seq<Move>): (r: Sys)
    requires ClientOk(c, s) && Possible(c, s, ms)
    ensures ClientOk(c, r)
    decreases |ms|
  {
    if ms == [] then s else Run(c, Do(c, s, ms[0]), ms[1..])
  }

  lemma {:induction false} RunInv(c: Cfg, s: Sys, ms: seq<Move>)
    requires Inv(c, s) && s.client.Busy? && Possible(c, s, ms)
    ensures var r := Run(c, s, ms);
      Inv(c, r) && r.client.Busy? && r.client.x == s.client.x && r.client.start == s.client.start
    ensures StepsLeft(c, Run(c, s, ms)) == StepsLeft(c, s) - |ms|
    decreases |ms|
  {
    hide Config.Ok, Beats, Pow2;
    if ms != [] {
      StepInv(c, s, ms[0]);
      RunInv(c, Do(c, s, ms[0]), ms[1..]);
    }
  }

  lemma DoneIsOver(c: Cfg, s: Sys)
    requires Inv(c, s) && Done(c, s)
    ensures StepsLeft(c, s) == 0
  {
    hide Config.Ok, Beats, Pow2;
    DoneMeans(c, s);
    NoHops(s.net.aq);
    NoHops(s.net.dq);
  }

  lemma {:induction false} NoHops<T>(qs: Queues<T>)
    requires InFlight(qs) == []
    ensures Hops(qs) == 0
  {
    hide Config.Ok, Beats, Pow2;
    if qs != [] { NoHops(qs[1..]); }
  }

  /** The exact number of steps of a transaction started on a quiet net. */
  function TotalSteps(c: Cfg, x: Xact): nat {
    Times(NumA(c, x), |c.capsA| + 1) + Times(NumD(c, x), |c.capsD| + 1)
  }

  /** A state of a transaction from which nothing can be done is a finished one, and a finished
      one has used every step. */
  lemma StuckIffOver(c: Cfg, r: Sys)
    requires Inv(c, r) && r.client.Busy?
    ensures Done(c, r) <==> StepsLeft(c, r) == 0
    ensures Done(c, r) <==> Stuck(c, r)
  {
    hide Config.Ok, Beats, Pow2;
    if Done(c, r) {
      DoneMeans(c, r);
      DoneIsOver(c, r);
      forall m ensures !Enabled(c, r, m) { DoneIsStuck(c, r, m); }
    } else {
      var m := Progress(c, r);
      StepInv(c, r, m);
    }
  }

  lemma DoneIsStuck(c: Cfg, r: Sys, m: Move)
    requires Inv(c, r) && Done(c, r)
    ensures !Enabled(c, r, m)
  {
    hide Config.Ok, Beats, Pow2;
    DoneMeans(c, r);
    QuietIsStill(c, r.net, m);
    EmptyStages(r.net.dq, |r.net.dq| - 1);
  }

  ghost predicate Stuck(c: Cfg, s: Sys)
    requires ClientOk(c, s)
  {
    forall m :: !Enabled(c, s, m)
  }

  lemma RunFromBegin(c: Cfg, n: Net, x: Xact, ms: seq<Move>)
    requires Inv(c, Sys(n, Idle)) && XactOk(c, x, |n.node.mem|)
    requires Possible(c, Begin(n, x), ms)
    ensures var r := Run(c, Begin(n, x), ms);
      && Inv(c, r) && r.client.Busy? && r.client.x == x && r.client.start == n.node.mem
      && StepsLeft(c, r) == TotalSteps(c, x) - |ms|
  {
    hide Config.Ok, Midway, XactOk, Beats, Pow2, Times, NumA, NumD, Possible, Run, StepsLeft;
    BeginInv(c, n, x);
    NoHops(n.aq);
    NoHops(n.dq);
    RunInv(c, Begin(n, x), ms);
  }

  /** The client of a finished transaction holds the whole answer. */
  lemma DoneClient(c: Cfg, r: Sys)
    requires Inv(c, r) && Done(c, r)
    ensures r.client == Busy(r.client.x, r.client.start, NumA(c, r.client.x), Responses(c, r.client.x, r.client.start))
  {
    hide Inv, Config.Ok, XactOk, Responses, NumA, NumD, Beats, Pow2;
    DoneMeans(c, r);
  }

  /** Every run of a transaction, whatever the interleaving and the queue depths, is at most
      `TotalSteps` long; a run that cannot be continued has exactly that length, and ends done:
      queues empty, manager idle, memory and answer those of the flat array. */
  lemma EveryRun(c: Cfg, n: Net, x: Xact, ms: seq<Move>)
    requires Inv(c, Sys(n, Idle)) && XactOk(c, x, |n.node.mem|)
    requires Possible(c, Begin(n, x), ms)
    ensures |ms| <= TotalSteps(c, x)
    ensures Stuck(c, Run(c, Begin(n, x), ms)) <==> |ms| == TotalSteps(c, x)
    ensures var r := Run(c, Begin(n, x), ms);
      |ms| == TotalSteps(c, x) ==>
        && Quiet(r.net)
        && r.net.node.mem == Final(c, x, n.node.mem)
        && r.client == Busy(x, n.node.mem, NumA(c, x), Responses(c, x, n.node.mem))
  {
    hide Config.Ok, Inv, XactOk, Responses, Final, TotalSteps, Possible, Run, StepsLeft, Stuck, Quiet, Done, Begin;
    BeginInv(c, n, x);
    InvShape(c, Begin(n, x));
    RunFromBegin(c, n, x, ms);
    var r := Run(c, Begin(n, x), ms);
    InvShape(c, r);
    StuckIffOver(c, r);
    if Done(c, r) {
      DoneMeans(c, r);
      DoneClient(c, r);
    }
  }
}
