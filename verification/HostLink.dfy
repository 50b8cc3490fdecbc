/** The queues and the manager as seen from host code: blocking send and receive, during which
    everything else moves as it likes. */
module HostLink {
  import opened Bits
  import opened Messages
  import opened Wire
  import opened Narrowing
  import opened Chain
  import opened Protocol
  import opened Transport

  class Link {
    const c: Cfg
    var net: Net
    /** The transaction the host is in the middle of. */
    ghost var client: Client

    ghost predicate Valid()
      reads this
    {
      Inv(c, Sys(net, client))
    }

    ghost function Left(): nat
      requires Valid() && client.Busy?
      reads this
    {
      StepsLeft(c, Sys(net, client))
    }

    /** Fresh queues in front of a manager that serves `mem`. */
    constructor (cfg: Cfg, mem: seq<byte>)
      ensures Valid() && c == cfg && client.Idle? && net.node.mem == mem
    {
      c := cfg;
      net := Net(Empty(|cfg.capsA|), Empty(|cfg.capsD|), Node(mem, Ready));
      client := Idle;
      new;
      EmptyHoldsNothing<MsgA>(|cfg.capsA|);
      EmptyHoldsNothing<MsgD>(|cfg.capsD|);
    }

    /** Start of a transaction; no code runs. */
    ghost method Begin(x: Xact)
      requires Valid() && client.Idle? && XactOk(c, x, |net.node.mem|)
      modifies this`client
      ensures Valid() && client == Busy(x, net.node.mem, 0, [])
    {
      BeginInv(c, net, x);
      client := Busy(x, net.node.mem, 0, []);
    }

    ghost method End()
      requires Valid() && client.Busy?
      requires client.sent == NumA(c, client.x) && |client.got| == NumD(c, client.x)
      modifies this`client
      ensures Valid() && client.Idle?
      ensures XactOk(c, old(client).x, |old(client).start|)
        && net.node.mem == Final(c, old(client).x, old(client).start)
    {
      DoneMeans(c, Sys(net, client));
      client := Idle;
    }

    /** A queue or the manager makes one move, any of those possible. */
    method Step()
      requires Valid() && client.Busy? && exists m :: EnvEnabled(c, net, m)
      modifies this`net
      ensures Valid() && Left() == old(Left()) - 1
    {
      hide Inv, StepsLeft, EnvEnabled, EnvDo, EnvMoves, Transport.Do, Transport.Enabled, ClientOk;
      InvShape(c, Sys(net, client));
      EnabledIsListed(c, net);
      var m :| m in EnvMoves(c, net);
      EnvIsStep(c, Sys(net, client), m);
      StepInv(c, Sys(net, client), m);
      net := EnvDo(c, net, m);
    }

    /** The queues and the manager make any number of moves. */
    method Drift()
      requires Valid() && client.Busy?
      modifies this`net
      ensures Valid() && Left() <= old(Left())
    {
      hide Inv, StepsLeft, EnvEnabled, EnvMoves;
      InvShape(c, Sys(net, client));
      var more: bool := *;
      while more && EnvMoves(c, net) != {}
        invariant Valid() && Left() <= old(Left())
        invariant |net.aq| == |c.capsA| && |net.dq| == |c.capsD|
        decreases Left()
      {
        EnabledIsListed(c, net);
        Step();
        InvShape(c, Sys(net, client));
        more := *;
      }
    }

    /** `send_blocking`: wait until the first queue has room, then put the message in. What the
        manager will take out is the message after its trip through the adapter. */
    method SendA(m: MsgA)
      requires Valid() && client.Busy? && client.sent < NumA(c, client.x)
      requires WfA(m) && OnLinkA(c.w, m) == Request(c, client.x, |client.start|, client.sent)
      modifies this
      ensures Valid() && client == old(client).(sent := old(client).sent + 1)
    {
      hide Midway, Request, Response, OnLinkA, TripA, WfA, StepsLeft;
      Drift();
      while !CanPush(net.aq, c.capsA)
        invariant Valid() && client == old(client)
        decreases Left()
      {
        ghost var move := Progress(c, Sys(net, client));
        Step();
      }
      TripIsLinkA(c.w, m);
      StepInv(c, Sys(net, client), Move.SendA);
      net := net.(aq := Push(net.aq, TripA(c.w, m)));
      client := client.(sent := client.sent + 1);
    }

    /** `recv_blocking`: wait until a message has reached the last queue, then take it. */
    method RecvD() returns (d: MsgD)
      requires Valid() && client.Busy? && client.sent == NumA(c, client.x)
      requires |client.got| < NumD(c, client.x)
      modifies this
      ensures Valid() && client == old(client).(got := old(client).got + [d])
      ensures d == Response(c, client.x, client.start, |old(client).got|)
    {
      hide Midway, Request, Response, StepsLeft;
      Drift();
      while !CanPop(net.dq)
        invariant Valid() && client == old(client)
        decreases Left()
      {
        ghost var move := Progress(c, Sys(net, client));
        Step();
      }
      d := Head(net.dq);
      PopEffect(net.dq);
      StepInv(c, Sys(net, client), Move.RecvD);
      NextResponse(c, Sys(net, client));
      net := net.(dq := Pop(net.dq));
      client := client.(got := client.got + [d]);
    }
  }

  function Empty<T>(n: nat): (q: Queues<T>) {
    seq(n, _ => [])
  }

  lemma {:induction false} EmptyHoldsNothing<T>(n: nat)
    ensures InFlight(Empty<T>(n)) == []
  {
    hide Config.Ok, Beats, Pow2;
    if n > 0 {
      assert Empty<T>(n)[1..] == Empty<T>(n - 1);
      EmptyHoldsNothing<T>(n - 1);
    }
  }

  /** The moves queues and manager can make, as a finite set. */
  function EnvMoves(c: Cfg, n: Net): set<Move>
    requires |n.aq| == |c.capsA| && |n.dq| == |c.capsD|
  {
    (set i: nat | i < |n.aq| && EnvEnabled(c, n, HopA(i)) :: HopA(i))
    + (set i: nat | i < |n.dq| && EnvEnabled(c, n, HopD(i)) :: HopD(i))
    + (if EnvEnabled(c, n, TakeA) then {TakeA} else {})
    + (if EnvEnabled(c, n, GiveD) then {GiveD} else {})
  }

  lemma EnabledIsListed(c: Cfg, n: Net)
    requires |n.aq| == |c.capsA| && |n.dq| == |c.capsD|
    ensures forall m :: m in EnvMoves(c, n) <==> EnvEnabled(c, n, m)
  {
  }
}
