/** Whole runs of threads sharing one memory interface: every run is a serial history that keeps
    each thread's program order, none gets stuck, all take the same number of steps; and clearing
    is atomic exactly up to the largest transfer. */
module Interleaving {
  import opened Options
  import opened Bits
  import opened Messages
  import opened Splitter
  import Chain
  import opened Protocol
  import Transport
  import HostLink
  import opened FlatMemory
  import opened Concurrent

  // ---- runs ----

  ghost predicate Possible(c: Cfg, w: World, steps: seq<Step>)
    requires Shaped(c, w)
    decreases |steps|
  {
    steps == [] || (Enabled(c, w, steps[0]) && Possible(c, Do(c, w, steps[0]), steps[1..]))
  }

  ghost function Run(c: Cfg, w: World, steps: seq<Step>): (r: World)
    requires Shaped(c, w) && Possible(c, w, steps)
    ensures Shaped(c, r) && |r.threads| == |w.threads|
    decreases |steps|
  {
    if steps == [] then w else Run(c, Do(c, w, steps[0]), steps[1..])
  }

  lemma {:induction false} RunAppend(c: Cfg, w: World, a: seq<Step>, b: seq<Step>)
    requires Shaped(c, w) && Possible(c, w, a) && Possible(c, Run(c, w, a), b)
    ensures Possible(c, w, a + b) && Run(c, w, a + b) == Run(c, Run(c, w, a), b)
    decreases |a|
  {
    hide Enabled, Do, Config.Ok, Beats, Pow2;
    if a == [] {
      assert a + b == b;
    } else {
      assert (a + b)[1..] == a[1..] + b;
      RunAppend(c, Do(c, w, a[0]), a[1..], b);
    }
  }

  /** Threads about to run `progs` against an idle memory `init`. */
  ghost predicate Fresh(c: Cfg, init: seq<byte>, progs: seq<seq<Op>>, w: World) {
    && Transport.Inv(c, Transport.Sys(w.net, Transport.Idle)) && w.net.node.mem == init
    && w.lock == None && w.log == [] && |w.threads| == |progs|
    && forall i :: 0 <= i < |progs| ==> w.threads[i] == Thread(progs[i], Outside) && ProgOk(c, progs[i], |init|)
  }

  /** Fresh queues in front of an idle manager, and threads with any programs of legal operations. */
  lemma StartsFresh(c: Cfg, init: seq<byte>, progs: seq<seq<Op>>)
    requires forall i :: 0 <= i < |progs| ==> ProgOk(c, progs[i], |init|)
    ensures Fresh(c, init, progs, World(
      Transport.Net(HostLink.Empty(|c.capsA|), HostLink.Empty(|c.capsD|), Node(init, Ready)), None,
      seq(|progs|, i requires 0 <= i < |progs| => Thread(progs[i], Outside)), []))
  {
    hide ProgOk;
    HostLink.EmptyHoldsNothing<MsgA>(|c.capsA|);
    HostLink.EmptyHoldsNothing<MsgD>(|c.capsD|);
  }

  lemma FreshInv(c: Cfg, init: seq<byte>, progs: seq<seq<Op>>, w: World)
    requires Fresh(c, init, progs, w)
    ensures Inv(c, init, w)
  {
    hide Transport.Midway, Transport.Quiet, ProgOk, Config.Ok, Beats, Pow2;
  }

  lemma {:induction false} RunKeeps(c: Cfg, init: seq<byte>, w: World, steps: seq<Step>)
    requires Inv(c, init, w) && Possible(c, w, steps)
    ensures Inv(c, init, Run(c, w, steps))
    decreases |steps|
  {
    hide Inv, Do, Enabled, Config.Ok, Beats, Pow2;
    InvShaped(c, init, w);
    if steps != [] {
      StepKeeps(c, init, w, steps[0]);
      RunKeeps(c, init, Do(c, w, steps[0]), steps[1..]);
    }
  }

  lemma InvShaped(c: Cfg, init: seq<byte>, w: World)
    requires Inv(c, init, w)
    ensures Shaped(c, w)
  {
  }

  // ---- one transaction at a time ----

  /** Only the holder of the mutex can have a burst outstanding, and without one the queues are
      empty and the manager idle. */
  lemma OneOutstanding(c: Cfg, init: seq<byte>, w: World, t: nat, u: nat)
    requires Inv(c, init, w) && t < |w.threads| && u < |w.threads|
    ensures w.threads[t].stage.Holding? <==> w.lock == Some(t)
    ensures w.threads[t].stage.Holding? && w.threads[u].stage.Holding? ==> t == u
    ensures !Transport.Quiet(w.net) ==> w.lock.Some? && HolderClient(w).Busy?
  {
    hide Transport.Quiet, Legal, Replay, LogInRange, ThreadOk, CallOk, MemAt, AccAt, Burst, Transport.Midway, Config.Ok,
      Beats, Pow2;
  }

  /** A thread that takes a response beat takes the next beat of its own burst: all beats carry
      source 0, and none reaches another thread. */
  lemma ReceivesOwn(c: Cfg, init: seq<byte>, w: World, t: nat)
    requires Inv(c, init, w) && Enabled(c, w, Act(t, Transport.RecvD))
    ensures w.lock == Some(t)
    ensures var cl := w.threads[t].stage.client;
      && cl.Busy? && XactOk(c, cl.x, |cl.start|) && |cl.got| < NumD(c, cl.x) && Chain.CanPop(w.net.dq)
      && Chain.Head(w.net.dq) == Response(c, cl.x, cl.start, |cl.got|)
  {
    hide Legal, Replay, LogInRange, ThreadOk, CallOk, MemAt, AccAt, Burst, Response, NodeAfter, Config.Ok, Beats, Pow2;
    var s := Transport.Sys(w.net, w.threads[t].stage.client);
    Transport.NextResponse(c, s);
  }

  // ---- program order ----

  /** The calls of one thread, in log order. */
  function CallsOf(log: seq<Entry>, t: nat): seq<Call> {
    if log == [] then []
    else
      var e := log[|log| - 1];
      CallsOf(log[..|log| - 1], t) + (if e.tid == t then [e.call] else [])
  }

  /** The chunk calls an operation makes: a clear writes zeros, one largest transfer at a time. */
  function ClearCalls(c: Cfg, addr: nat, n: nat): seq<Call>
    decreases n
  {
    if n == 0 then []
    else
      var len := if n < c.maxBytes then n else c.maxBytes;
      [WriteCall(addr, Zeros(len))] + ClearCalls(c, addr + len, n - len)
  }

  function CallsOfOp(c: Cfg, op: Op): seq<Call> {
    if op.ClearOp? then ClearCalls(c, op.addr, op.n) else [Meaning(op)]
  }

  function Expand(c: Cfg, prog: seq<Op>): seq<Call> {
    if prog == [] then [] else CallsOfOp(c, prog[0]) + Expand(c, prog[1..])
  }

  /** What a thread still has to return from. */
  function Todo(c: Cfg, th: Thread): seq<Call> {
    (if th.stage.Outside? then [] else [th.stage.call]) + Expand(c, th.prog)
  }

  function History(c: Cfg, w: World, t: nat): seq<Call>
    requires t < |w.threads|
  {
    CallsOf(w.log, t) + Todo(c, w.threads[t])
  }

  lemma NextCallExpands(c: Cfg, prog: seq<Op>)
    requires prog != []
    ensures var (call, rest) := NextCall(c, prog);
      Expand(c, prog) == (if call.Some? then [call.value] else []) + Expand(c, rest)
  {
    hide Expand, ClearCalls, Zeros, Config.Ok, Beats, Pow2;
    ExpandHead(c, prog);
    if prog[0].ClearOp? { ClearExpands(c, prog[0].addr, prog[0].n, prog[1..]); }
  }

  lemma ClearExpands(c: Cfg, addr: nat, n: nat, prog: seq<Op>)
    ensures n == 0 ==> ClearCalls(c, addr, n) + Expand(c, prog) == [] + Expand(c, prog)
    ensures var len := if n < c.maxBytes then n else c.maxBytes;
      n > 0 ==>
        ClearCalls(c, addr, n) + Expand(c, prog)
        == [WriteCall(addr, Zeros(len))] + Expand(c, [ClearOp(addr + len, n - len)] + prog)
  {
    hide Expand, ClearCalls, Zeros, Config.Ok, Beats, Pow2;
    ClearCallsHead(c, addr, n);
    if n > 0 {
      var len := if n < c.maxBytes then n else c.maxBytes;
      ExpandClear(c, addr + len, n - len, prog);
      AssocCalls([WriteCall(addr, Zeros(len))], ClearCalls(c, addr + len, n - len), Expand(c, prog));
    }
  }

  lemma ExpandClear(c: Cfg, addr: nat, n: nat, prog: seq<Op>)
    ensures Expand(c, [ClearOp(addr, n)] + prog) == ClearCalls(c, addr, n) + Expand(c, prog)
  {
    hide Expand, ClearCalls, Config.Ok, Beats, Pow2;
    ExpandHead(c, [ClearOp(addr, n)] + prog);
    assert ([ClearOp(addr, n)] + prog)[1..] == prog;
  }

  lemma AssocCalls(a: seq<Call>, b: seq<Call>, d: seq<Call>)
    ensures a + b + d == a + (b + d)
  {
  }

  lemma ExpandHead(c: Cfg, prog: seq<Op>)
    requires prog != []
    ensures Expand(c, prog) == CallsOfOp(c, prog[0]) + Expand(c, prog[1..])
  {
  }

  lemma ClearCallsHead(c: Cfg, addr: nat, n: nat)
    ensures n == 0 ==> ClearCalls(c, addr, n) == []
    ensures var len := if n < c.maxBytes then n else c.maxBytes;
      n > 0 ==> ClearCalls(c, addr, n) == [WriteCall(addr, Zeros(len))] + ClearCalls(c, addr + len, n - len)
  {
  }

  /** No step changes what a thread has done and has to do, taken together. */
  lemma StepHistory(c: Cfg, w: World, s: Step, t: nat)
    requires Shaped(c, w) && Enabled(c, w, s) && t < |w.threads|
    ensures History(c, Do(c, w, s), t) == History(c, w, t)
  {
    hide NextCall, Expand, Transport.Do, Transport.Enabled, Transport.EnvDo, Burst, Collected, Transport.Done,
      Config.Ok, Beats, Pow2;
    if s.Invoke? {
      NextCallExpands(c, w.threads[s.t].prog);
    }
    if s.Release? {
      var r := Do(c, w, s);
      assert r.log[..|w.log|] == w.log;
    }
  }

  lemma {:induction false} RunHistory(c: Cfg, w: World, steps: seq<Step>, t: nat)
    requires Shaped(c, w) && Possible(c, w, steps) && t < |w.threads|
    ensures History(c, Run(c, w, steps), t) == History(c, w, t)
    decreases |steps|
  {
    hide Enabled, Do, History, Config.Ok, Beats, Pow2;
    if steps != [] {
      StepHistory(c, w, steps[0], t);
      RunHistory(c, Do(c, w, steps[0]), steps[1..], t);
    }
  }

  // ---- progress ----

  ghost predicate Finished(w: World) {
    forall i :: 0 <= i < |w.threads| ==> w.threads[i].stage.Outside? && w.threads[i].prog == []
  }

  ghost predicate Stuck(c: Cfg, w: World)
    requires Shaped(c, w)
  {
    forall s :: !Enabled(c, w, s)
  }

  /** The holder of the mutex, or a queue or the manager working for it, can move. */
  lemma HolderMoves(c: Cfg, init: seq<byte>, w: World) returns (s: Step)
    requires Inv(c, init, w) && w.lock.Some?
    ensures Enabled(c, w, s) && ForHolder(w, s)
  {
    hide Legal, Replay, LogInRange, ThreadOk, CallOk, MemAt, AccAt, Burst, Transport.Midway, Transport.Quiet, XactOk,
      Config.Ok, Beats, Pow2;
    var t := w.lock.value;
    var st := w.threads[t].stage;
    var sys := Transport.Sys(w.net, st.client);
    if st.client.Idle? {
      s := if st.pos == st.call.End() then Release(t) else Start(t, Zeros(PAYLOAD));
    } else if Transport.Done(c, sys) {
      s := Finish(t);
    } else {
      var m := Transport.Progress(c, sys);
      if m.SendA? || m.RecvD? {
        s := Act(t, m);
      } else {
        IsEnv(c, sys, m);
        s := Env(m);
      }
    }
  }

  lemma IsEnv(c: Cfg, s: Transport.Sys, m: Transport.Move)
    requires Transport.ClientOk(c, s) && Transport.Enabled(c, s, m) && !m.SendA? && !m.RecvD?
    ensures Transport.EnvEnabled(c, s.net, m)
  {
  }

  ghost predicate ForHolder(w: World, s: Step) {
    match s
    case Invoke(_) => false
    case Acquire(_) => false
    case Start(t, _) => w.lock == Some(t)
    case Act(t, _) => w.lock == Some(t)
    case Finish(t) => w.lock == Some(t)
    case Release(t) => w.lock == Some(t)
    case Env(_) => w.lock.Some?
  }

  /** No deadlock: something can move exactly as long as some thread has not finished. */
  lemma StuckIffFinished(c: Cfg, init: seq<byte>, w: World)
    requires Inv(c, init, w)
    ensures Stuck(c, w) <==> Finished(w)
  {
    hide Legal, Replay, LogInRange, ThreadOk, HolderOk, Transport.Inv, Config.Ok, Beats, Pow2;
    if w.lock.Some? {
      var s := HolderMoves(c, init, w);
      HolderBusy(c, init, w);
    } else if !Finished(w) {
      var i :| 0 <= i < |w.threads| && !(w.threads[i].stage.Outside? && w.threads[i].prog == []);
      var s := if w.threads[i].stage.Outside? then Invoke(i) else Acquire(i);
      assert Enabled(c, w, s);
    } else {
      forall s ensures !Enabled(c, w, s) {
        if s.Env? { Transport.QuietIsStill(c, w.net, s.m); }
      }
    }
  }

  lemma HolderBusy(c: Cfg, init: seq<byte>, w: World)
    requires Inv(c, init, w) && w.lock.Some?
    ensures w.lock.value < |w.threads| && w.threads[w.lock.value].stage.Holding?
  {
  }

  // ---- how many steps ----

  /** Steps of a call from `pos` with `n` bytes to go: each burst is begun, carried out and ended. */
  function CallSteps(c: Cfg, read: bool, pos: nat, n: nat): nat
    decreases n
  {
    if n == 0 then 0
    else
      var k := ChunkLg(pos, n);
      BurstSteps(c, read, k) + 2 + CallSteps(c, read, pos + Pow2(k), n - Pow2(k))
  }

  function BurstSteps(c: Cfg, read: bool, lg: nat): nat {
    Transport.TotalSteps(c, if read then Get(0, lg, []) else Put(0, lg, []))
  }

  /** Steps of a call from `pos` to its end. */
  function RestSteps(c: Cfg, call: Call, pos: nat): nat {
    if pos <= call.End() then CallSteps(c, call.ReadCall?, pos, call.End() - pos) else 0
  }

  function StageSteps(c: Cfg, st: Stage): nat {
    match st
    case Outside => 0
    case Waiting(call) => 2 + RestSteps(c, call, call.addr)
    case Holding(call, pos, acc, client) =>
      1 + if client.Idle? then RestSteps(c, call, pos) else 1 + RestSteps(c, call, pos + Pow2(client.x.lg))
  }

  function CallsSteps(c: Cfg, calls: seq<Call>): nat {
    if calls == [] then 0 else 3 + RestSteps(c, calls[0], calls[0].addr) + CallsSteps(c, calls[1..])
  }

  /** A clear also takes a step to find that nothing is left. */
  function Clears(prog: seq<Op>): nat {
    if prog == [] then 0 else (if prog[0].ClearOp? then 1 else 0) + Clears(prog[1..])
  }

  function ThreadSteps(c: Cfg, th: Thread): nat {
    StageSteps(c, th.stage) + CallsSteps(c, Expand(c, th.prog)) + Clears(th.prog)
  }

  function AllSteps(c: Cfg, ths: seq<Thread>): nat {
    if ths == [] then 0 else ThreadSteps(c, ths[0]) + AllSteps(c, ths[1..])
  }

  /** Steps of everyone until all threads have finished. */
  ghost function StepsToGo(c: Cfg, init: seq<byte>, w: World): nat
    requires Inv(c, init, w)
  {
    HolderInv(c, init, w);
    var sys := Transport.Sys(w.net, HolderClient(w));
    AllSteps(c, w.threads) + if sys.client.Busy? then Transport.StepsLeft(c, sys) else 0
  }

  lemma HolderInv(c: Cfg, init: seq<byte>, w: World)
    requires Inv(c, init, w)
    ensures Transport.Inv(c, Transport.Sys(w.net, HolderClient(w)))
    ensures Transport.ClientOk(c, Transport.Sys(w.net, HolderClient(w)))
  {
    hide Transport.Midway, Transport.Quiet, Legal, Replay, LogInRange, ThreadOk, CallOk, MemAt, AccAt, Burst, XactOk,
      Config.Ok, Beats, Pow2;
  }

  lemma {:induction false} AllUpdate(c: Cfg, ths: seq<Thread>, t: nat, th: Thread)
    requires t < |ths|
    ensures AllSteps(c, ths[t := th]) == AllSteps(c, ths) - ThreadSteps(c, ths[t]) + ThreadSteps(c, th)
    decreases |ths|
  {
    hide ThreadSteps, Config.Ok, Beats, Pow2;
    var r := ths[t := th];
    if t == 0 {
      assert r[1..] == ths[1..];
    } else {
      assert r[1..] == ths[1..][t - 1 := th];
      AllUpdate(c, ths[1..], t - 1, th);
    }
  }

  lemma InvokeSteps(c: Cfg, prog: seq<Op>)
    requires prog != []
    ensures var (call, rest) := NextCall(c, prog);
      ThreadSteps(c, Thread(rest, if call.Some? then Waiting(call.value) else Outside))
        == ThreadSteps(c, Thread(prog, Outside)) - 1
  {
    hide NextCall, Expand, RestSteps, Config.Ok, Beats, Pow2;
    var (call, rest) := NextCall(c, prog);
    NextCallExpands(c, prog);
    ClearsLeft(c, prog);
    if call.Some? { assert ([call.value] + Expand(c, rest))[1..] == Expand(c, rest); }
    assert [] + Expand(c, rest) == Expand(c, rest);
  }

  lemma ClearsLeft(c: Cfg, prog: seq<Op>)
    requires prog != []
    ensures var (call, rest) := NextCall(c, prog);
      Clears(prog) == Clears(rest) + if call.Some? then 0 else 1
  {
    hide Config.Ok, Beats, Pow2;
    var (call, rest) := NextCall(c, prog);
    if prog[0].ClearOp? && prog[0].n > 0 { assert rest[1..] == prog[1..]; }
  }

  lemma StartSteps(c: Cfg, net: Transport.Net, call: Call, pos: nat, junk: seq<byte>)
    requires Transport.Inv(c, Transport.Sys(net, Transport.Idle)) && call.addr <= pos < call.End()
    requires XactOk(c, Burst(call, pos, junk), |net.node.mem|)
    ensures var sys := Transport.Begin(net, Burst(call, pos, junk));
      && Transport.ClientOk(c, sys)
      && RestSteps(c, call, pos) == Transport.StepsLeft(c, sys) + 2 + RestSteps(c, call, pos + Pow2(sys.client.x.lg))
  {
    hide Transport.Midway, XactOk, ChunkLg, Transport.StepsLeft, Config.Ok, Beats, Pow2;
    var x := Burst(call, pos, junk);
    Transport.BeginInv(c, net, x);
    Transport.NoHops(net.aq);
    Transport.NoHops(net.dq);
  }

  lemma ThreadStepUses(c: Cfg, init: seq<byte>, w: World, s: Step)
    requires Inv(c, init, w) && Enabled(c, w, s) && (s.Invoke? || s.Acquire? || s.Release?)
    ensures Inv(c, init, Do(c, w, s)) && StepsToGo(c, init, Do(c, w, s)) == StepsToGo(c, init, w) - 1
  {
    hide Inv, NextCall, Expand, Clears, CallsSteps, Config.Ok, Beats, Pow2;
    InvShaped(c, init, w);
    StepKeeps(c, init, w, s);
    var r := Do(c, w, s);
    AllUpdate(c, w.threads, s.t, r.threads[s.t]);
    LockedIsHolding(c, init, w);
    LockedIsHolding(c, init, r);
    if s.Invoke? { InvokeSteps(c, w.threads[s.t].prog); }
  }

  lemma LockedIsHolding(c: Cfg, init: seq<byte>, w: World)
    requires Inv(c, init, w)
    ensures forall i :: 0 <= i < |w.threads| ==> (w.threads[i].stage.Holding? <==> w.lock == Some(i))
    ensures w.lock.Some? ==> w.lock.value < |w.threads|
  {
    hide HolderOk, Legal, Replay, LogInRange, ThreadOk, Config.Ok, Beats, Pow2;
    if w.lock.Some? { HolderBusy(c, init, w); }
  }

  /** Steps of the holder's call, those of the burst under way included. */
  ghost function HolderSteps(c: Cfg, net: Transport.Net, st: Stage): nat
    requires st.Holding? && Transport.ClientOk(c, Transport.Sys(net, st.client))
  {
    StageSteps(c, st)
    + if st.client.Busy? then Transport.StepsLeft(c, Transport.Sys(net, st.client)) else 0
  }

  /** When only the holder's stage changes, the steps to go change by its steps. */
  lemma HolderChange(c: Cfg, init: seq<byte>, w: World, r: World, t: nat)
    requires Inv(c, init, w) && Inv(c, init, r) && w.lock == r.lock == Some(t)
    requires t < |w.threads| && w.threads[t].stage.Holding?
    requires |r.threads| == |w.threads| && r.threads[t].stage.Holding?
    requires r.threads == w.threads[t := w.threads[t].(stage := r.threads[t].stage)]
    ensures Transport.ClientOk(c, Transport.Sys(w.net, w.threads[t].stage.client))
    ensures Transport.ClientOk(c, Transport.Sys(r.net, r.threads[t].stage.client))
    ensures StepsToGo(c, init, r) + HolderSteps(c, w.net, w.threads[t].stage)
         == StepsToGo(c, init, w) + HolderSteps(c, r.net, r.threads[t].stage)
  {
    hide Inv, AllSteps, StageSteps, Expand, Clears, CallsSteps, Transport.ClientOk, Transport.StepsLeft, Config.Ok,
      Beats, Pow2;
    HolderInv(c, init, w);
    HolderInv(c, init, r);
    AllUpdate(c, w.threads, t, r.threads[t]);
  }

  lemma BurstStepUses(c: Cfg, init: seq<byte>, w: World, s: Step)
    requires Inv(c, init, w) && Enabled(c, w, s) && (s.Start? || s.Act? || s.Finish?)
    ensures Inv(c, init, Do(c, w, s)) && StepsToGo(c, init, Do(c, w, s)) == StepsToGo(c, init, w) - 1
  {
    hide Inv, StepsToGo, HolderSteps, Transport.ClientOk, Transport.Enabled, Transport.Do, Transport.Done,
      Transport.StepsLeft, Collected, Burst, Config.Ok, Beats, Pow2;
    InvShaped(c, init, w);
    StepKeeps(c, init, w, s);
    LockedIsHolding(c, init, w);
    var r := Do(c, w, s);
    HolderChange(c, init, w, r, s.t);
    HolderInv(c, init, w);
    match s
    case Start(t, junk) => StartUses(c, init, w, t, junk);
    case Act(t, m) => ActUses(c, w, t, m);
    case Finish(t) => FinishUses(c, w, t);
  }

  lemma StartUses(c: Cfg, init: seq<byte>, w: World, t: nat, junk: seq<byte>)
    requires Inv(c, init, w) && Enabled(c, w, Start(t, junk)) && w.lock == Some(t)
    requires Transport.Inv(c, Transport.Sys(w.net, w.threads[t].stage.client))
    ensures var r := Do(c, w, Start(t, junk));
      && Transport.ClientOk(c, Transport.Sys(r.net, r.threads[t].stage.client))
      && HolderSteps(c, r.net, r.threads[t].stage) == HolderSteps(c, w.net, w.threads[t].stage) - 1
  {
    hide Inv, RestSteps, Transport.Inv, Transport.StepsLeft, Transport.ClientOk, Burst, Config.Ok, Beats, Pow2;
    InvShaped(c, init, w);
    var st := w.threads[t].stage;
    StartIsOk(c, init, w, t, junk);
    StartSteps(c, w.net, st.call, st.pos, junk);
  }

  lemma ActUses(c: Cfg, w: World, t: nat, m: Transport.Move)
    requires Shaped(c, w) && Enabled(c, w, Act(t, m))
    requires Transport.Inv(c, Transport.Sys(w.net, w.threads[t].stage.client))
    ensures var r := Do(c, w, Act(t, m));
      && Transport.ClientOk(c, Transport.Sys(r.net, r.threads[t].stage.client))
      && HolderSteps(c, r.net, r.threads[t].stage) == HolderSteps(c, w.net, w.threads[t].stage) - 1
  {
    hide RestSteps, Transport.Inv, Transport.StepsLeft, Transport.ClientOk, Transport.Enabled, Transport.Do, Config.Ok,
      Beats, Pow2;
    var sys := Transport.Sys(w.net, w.threads[t].stage.client);
    ActIsBusy(c, sys, m);
    Transport.StepInv(c, sys, m);
  }

  lemma FinishUses(c: Cfg, w: World, t: nat)
    requires Shaped(c, w) && Enabled(c, w, Finish(t))
    requires Transport.Inv(c, Transport.Sys(w.net, w.threads[t].stage.client))
    ensures var r := Do(c, w, Finish(t));
      && Transport.ClientOk(c, Transport.Sys(r.net, r.threads[t].stage.client))
      && HolderSteps(c, r.net, r.threads[t].stage) == HolderSteps(c, w.net, w.threads[t].stage) - 1
  {
    hide RestSteps, Transport.Inv, Transport.StepsLeft, Collected, Config.Ok, Beats, Pow2;
    Transport.DoneIsOver(c, Transport.Sys(w.net, w.threads[t].stage.client));
  }

  lemma ActIsBusy(c: Cfg, sys: Transport.Sys, m: Transport.Move)
    requires Transport.ClientOk(c, sys) && Transport.Enabled(c, sys, m) && (m.SendA? || m.RecvD?)
    ensures sys.client.Busy? && Transport.Do(c, sys, m).client.Busy?
    ensures Transport.Do(c, sys, m).client.x == sys.client.x
  {
  }

  lemma StartIsOk(c: Cfg, init: seq<byte>, w: World, t: nat, junk: seq<byte>)
    requires Inv(c, init, w) && Enabled(c, w, Start(t, junk))
    ensures XactOk(c, Burst(w.threads[t].stage.call, w.threads[t].stage.pos, junk), |w.net.node.mem|)
  {
    hide Transport.Inv, Legal, Replay, LogInRange, ThreadOk, CallOk, XactOk, Burst, Config.Ok, Beats, Pow2;
    var st := w.threads[t].stage;
    BurstIsOk(c, st.call, st.pos, junk, |init|);
  }

  lemma EnvStepUses(c: Cfg, init: seq<byte>, w: World, m: Transport.Move)
    requires Inv(c, init, w) && Enabled(c, w, Env(m))
    ensures Inv(c, init, Do(c, w, Env(m)))
    ensures StepsToGo(c, init, Do(c, w, Env(m))) == StepsToGo(c, init, w) - 1
  {
    hide Inv, AllSteps, Transport.Inv, Transport.StepsLeft, Transport.ClientOk, Transport.EnvEnabled, Transport.EnvDo,
      Config.Ok, Beats, Pow2;
    StepKeeps(c, init, w, Env(m));
    HolderInv(c, init, w);
    var sys := Transport.Sys(w.net, HolderClient(w));
    if sys.client.Idle? {
      Transport.QuietIsStill(c, w.net, m);
    } else {
      Transport.EnvIsStep(c, sys, m);
      Transport.StepInv(c, sys, m);
    }
  }

  /** Whoever moves uses up exactly one step. */
  lemma StepUses(c: Cfg, init: seq<byte>, w: World, s: Step)
    requires Inv(c, init, w) && Enabled(c, w, s)
    ensures Inv(c, init, Do(c, w, s)) && StepsToGo(c, init, Do(c, w, s)) == StepsToGo(c, init, w) - 1
  {
    hide Inv, StepsToGo, Enabled, Do, Config.Ok, Beats, Pow2;
    match s
    case Start(_, _) => BurstStepUses(c, init, w, s);
    case Act(_, _) => BurstStepUses(c, init, w, s);
    case Finish(_) => BurstStepUses(c, init, w, s);
    case Env(m) => EnvStepUses(c, init, w, m);
    case _ => ThreadStepUses(c, init, w, s);
  }

  lemma {:induction false} RunUses(c: Cfg, init: seq<byte>, w: World, steps: seq<Step>)
    requires Inv(c, init, w) && Possible(c, w, steps)
    ensures Inv(c, init, Run(c, w, steps))
    ensures StepsToGo(c, init, Run(c, w, steps)) == StepsToGo(c, init, w) - |steps|
    decreases |steps|
  {
    hide Inv, Do, Enabled, StepsToGo, Config.Ok, Beats, Pow2;
    InvShaped(c, init, w);
    if steps != [] {
      StepUses(c, init, w, steps[0]);
      RunUses(c, init, Do(c, w, steps[0]), steps[1..]);
    }
  }

  lemma {:induction false} NothingLeft(c: Cfg, ths: seq<Thread>)
    requires forall i :: 0 <= i < |ths| ==> ths[i].stage.Outside? && ths[i].prog == []
    ensures AllSteps(c, ths) == 0
  {
    hide Config.Ok, Beats, Pow2;
    if ths != [] { NothingLeft(c, ths[1..]); }
  }

  lemma FinishedIsZero(c: Cfg, init: seq<byte>, w: World)
    requires Inv(c, init, w)
    ensures Finished(w) <==> StepsToGo(c, init, w) == 0
  {
    hide Inv, AllSteps, Config.Ok, Beats, Pow2;
    InvShaped(c, init, w);
    if Finished(w) {
      NothingLeft(c, w.threads);
      LockedIsHolding(c, init, w);
    } else {
      StuckIffFinished(c, init, w);
      var s :| Enabled(c, w, s);
      StepUses(c, init, w, s);
    }
  }

  // ---- real time ----

  /** A step only adds to the end of the log. */
  lemma StepLog(c: Cfg, w: World, s: Step)
    requires Shaped(c, w) && Enabled(c, w, s)
    ensures w.log <= Do(c, w, s).log
  {
    hide Transport.Do, Transport.Enabled, Transport.EnvDo, Transport.Done, Burst, Collected, NextCall, Config.Ok, Beats,
      Pow2;
  }

  lemma {:induction false} LogGrows(c: Cfg, w: World, steps: seq<Step>)
    requires Shaped(c, w) && Possible(c, w, steps)
    ensures w.log <= Run(c, w, steps).log
    decreases |steps|
  {
    hide Enabled, Do, Config.Ok, Beats, Pow2;
    if steps != [] {
      StepLog(c, w, steps[0]);
      LogGrows(c, Do(c, w, steps[0]), steps[1..]);
    }
  }

  lemma {:induction false} CallsOfAppend(log: seq<Entry>, more: seq<Entry>, t: nat)
    ensures CallsOf(log + more, t) == CallsOf(log, t) + CallsOf(more, t)
    decreases |more|
  {
    hide Config.Ok, Beats, Pow2;
    if more == [] {
      assert log + more == log;
    } else {
      var last := |more| - 1;
      assert (log + more)[..|log| + last] == log + more[..last];
      CallsOfAppend(log, more[..last], t);
    }
  }

  /** Position `p` of the log is the `m`-th call of thread `t`. */
  ghost predicate IsCall(log: seq<Entry>, p: nat, t: nat, m: nat) {
    p < |log| && log[p].tid == t && |CallsOf(log[..p], t)| == m
  }

  /** By this point thread `t` has returned from its `m`-th call. */
  ghost predicate Returned(w: World, t: nat, m: nat) {
    m < |CallsOf(w.log, t)|
  }

  /** By this point thread `t` has invoked its `m`-th call: it has returned from it, or is in it. */
  ghost predicate Invoked(w: World, t: nat, m: nat)
    requires t < |w.threads|
  {
    m < |CallsOf(w.log, t)| + if w.threads[t].stage.Outside? then 0 else 1
  }

  /** Of two calls of any threads in the log of `r`, one that had returned by `v` before the other
      was invoked comes first. */
  ghost predicate InRealTime(v: World, r: World) {
    forall p: nat, q: nat, t: nat, m: nat, u: nat, n: nat ::
      (IsCall(r.log, p, t, m) && IsCall(r.log, q, u, n)
       && Returned(v, t, m) && u < |v.threads| && !Invoked(v, u, n)) ==> p < q
  }

  /** What follows a point of a run in the log are calls the threads had not returned from. */
  ghost predicate LogExtends(c: Cfg, v: World, r: World) {
    && v.log <= r.log && |v.threads| == |r.threads|
    && forall t :: 0 <= t < |v.threads| ==> CallsOf(r.log[|v.log|..], t) + Todo(c, r.threads[t]) == Todo(c, v.threads[t])
  }

  lemma {:induction false} PrefixCounts(log: seq<Entry>, k: nat, p: nat, t: nat)
    requires p <= k <= |log|
    ensures |CallsOf(log[..p], t)| <= |CallsOf(log[..k], t)|
    ensures p < k && log[p].tid == t ==> |CallsOf(log[..p], t)| < |CallsOf(log[..k], t)|
    decreases k
  {
    hide Config.Ok, Beats, Pow2;
    if p < k {
      assert log[..k][..k - 1] == log[..k - 1];
      PrefixCounts(log, k - 1, p, t);
    }
  }

  lemma PrefixOrder(v: World, r: World)
    requires v.log <= r.log
    ensures InRealTime(v, r)
  {
    hide CallsOf, Config.Ok, Beats, Pow2;
    forall p: nat, q: nat, t: nat, m: nat, u: nat, n: nat |
      IsCall(r.log, p, t, m) && IsCall(r.log, q, u, n)
      && Returned(v, t, m) && u < |v.threads| && !Invoked(v, u, n)
      ensures p < q
    {
      var k := |v.log|;
      assert r.log[..k] == v.log;
      if p >= k { PrefixCounts(r.log, p, k, t); }
      if q < k { PrefixCounts(r.log, k, q, u); }
    }
  }

  lemma SplitExtends(c: Cfg, w: World, steps: seq<Step>, k: nat)
    requires Shaped(c, w) && Possible(c, w, steps) && k <= |steps|
    ensures Possible(c, w, steps[..k])
    ensures LogExtends(c, Run(c, w, steps[..k]), Run(c, w, steps))
    ensures InRealTime(Run(c, w, steps[..k]), Run(c, w, steps))
  {
    hide Possible, Run, Expand, CallsOf, InRealTime, Todo, Config.Ok, Beats, Pow2;
    RunSplit(c, w, steps, k);
    var v, r := Run(c, w, steps[..k]), Run(c, w, steps);
    LogGrows(c, v, steps[k..]);
    PrefixOrder(v, r);
    forall t | 0 <= t < |v.threads|
      ensures CallsOf(r.log[|v.log|..], t) + Todo(c, r.threads[t]) == Todo(c, v.threads[t])
    {
      RunHistory(c, v, steps[k..], t);
      assert v.log + r.log[|v.log|..] == r.log;
      CallsOfAppend(v.log, r.log[|v.log|..], t);
      CancelFront(CallsOf(v.log, t), CallsOf(r.log[|v.log|..], t), Todo(c, r.threads[t]), Todo(c, v.threads[t]));
    }
  }

  lemma CancelFront(a: seq<Call>, b: seq<Call>, d: seq<Call>, e: seq<Call>)
    requires a + b + d == a + e
    ensures b + d == e
  {
    hide Config.Ok, Beats, Pow2;
    assert (a + b + d)[|a|..] == b + d && (a + e)[|a|..] == e;
  }

  lemma {:induction false} RunSplit(c: Cfg, w: World, steps: seq<Step>, k: nat)
    requires Shaped(c, w) && Possible(c, w, steps) && k <= |steps|
    ensures Possible(c, w, steps[..k]) && Possible(c, Run(c, w, steps[..k]), steps[k..])
    ensures Run(c, Run(c, w, steps[..k]), steps[k..]) == Run(c, w, steps)
    decreases k
  {
    hide Enabled, Do, Config.Ok, Beats, Pow2;
    if k == 0 {
      assert steps[0..] == steps;
    } else {
      RunSplit(c, Do(c, w, steps[0]), steps[1..], k - 1);
      assert steps[..k][1..] == steps[1..][..k - 1] && steps[k..] == steps[1..][k - 1..];
    }
  }

  /** Every point of the run orders the calls of its log in real time. */
  ghost predicate Linear(c: Cfg, w: World, steps: seq<Step>)
    requires Shaped(c, w) && Possible(c, w, steps)
  {
    forall k :: 0 <= k <= |steps| ==>
      && Possible(c, w, steps[..k])
      && LogExtends(c, Run(c, w, steps[..k]), Run(c, w, steps))
      && InRealTime(Run(c, w, steps[..k]), Run(c, w, steps))
  }

  lemma EveryRunLinear(c: Cfg, w: World, steps: seq<Step>)
    requires Shaped(c, w) && Possible(c, w, steps)
    ensures Linear(c, w, steps)
  {
    hide InRealTime, LogExtends, Possible, Run, Config.Ok, Beats, Pow2;
    forall k | 0 <= k <= |steps|
      ensures Possible(c, w, steps[..k])
        && LogExtends(c, Run(c, w, steps[..k]), Run(c, w, steps))
        && InRealTime(Run(c, w, steps[..k]), Run(c, w, steps))
    {
      SplitExtends(c, w, steps, k);
    }
  }

  /** Every run of any number of threads, from an idle memory: it is no longer than `StepsToGo`, it
      can go on until exactly then, and then every thread has finished. Whenever the mutex is free
      the memory and every answer so far are those of the logged calls made one after the other on
      a flat byte array. Each thread's logged calls are its own, in program order, and a call that
      returned before another was invoked, by whichever thread, is logged before it. */
  lemma EveryRun(c: Cfg, init: seq<byte>, progs: seq<seq<Op>>, w: World, steps: seq<Step>)
    requires Fresh(c, init, progs, w) && Possible(c, w, steps)
    ensures Inv(c, init, w) && |steps| <= StepsToGo(c, init, w)
    ensures var r := Run(c, w, steps);
      && (Finished(r) <==> |steps| == StepsToGo(c, init, w)) && (Finished(r) <==> Stuck(c, r))
      && LogInRange(r.log, |init|) && Legal(init, r.log)
      && (r.lock == None ==> r.net.node.mem == Replay(init, r.log) && Transport.Quiet(r.net))
      && forall t :: 0 <= t < |progs| ==> CallsOf(r.log, t) + Todo(c, r.threads[t]) == Expand(c, progs[t])
    ensures Linear(c, w, steps)
  {
    hide StepsToGo, Transport.Inv, ThreadOk, HolderOk, Legal, Replay, LogInRange, Finished, Stuck, Enabled, Expand,
      CallsOf, Transport.Quiet, Linear, Config.Ok, Beats, Pow2;
    FreshInv(c, init, progs, w);
    EveryRunLinear(c, w, steps);
    RunUses(c, init, w, steps);
    var r := Run(c, w, steps);
    FinishedIsZero(c, init, r);
    StuckIffFinished(c, init, r);
    if r.lock == None { IdleIsQuiet(c, r.net); }
    forall t | 0 <= t < |progs|
      ensures CallsOf(r.log, t) + Todo(c, r.threads[t]) == Expand(c, progs[t])
    {
      RunHistory(c, w, steps, t);
      NoCallsYet(c, progs[t], t);
    }
  }

  lemma NoCallsYet(c: Cfg, prog: seq<Op>, t: nat)
    ensures CallsOf([], t) + Todo(c, Thread(prog, Outside)) == Expand(c, prog)
  {
  }

  lemma IdleIsQuiet(c: Cfg, n: Transport.Net)
    requires Transport.Inv(c, Transport.Sys(n, Transport.Idle))
    ensures Transport.Quiet(n)
  {
  }
}
