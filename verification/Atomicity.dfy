/** How much of `clear_chunk` is one step for other threads: all of it exactly when it fits the
    largest transfer, since the mutex is taken per `write_chunk` and not across the loop. */
module Atomicity {
  import opened Options
  import opened Bits
  import opened Messages
  import opened Protocol
  import opened FlatMemory
  import opened Concurrent
  import opened Interleaving
  import Transport

  lemma RunOne(c: Cfg, w: World, s: Step)
    requires Shaped(c, w) && Enabled(c, w, s)
    ensures Possible(c, w, [s]) && Run(c, w, [s]) == Do(c, w, s)
  {
    hide Enabled, Do, Config.Ok, Beats, Pow2;
    assert [s][1..] == [];
  }

  // ---- a call carried out without interruption ----

  ghost predicate SameCall(w: World, r: World, t: nat)
    requires t < |w.threads| && w.threads[t].stage.Holding?
  {
    && r.lock == Some(t) && r.log == w.log && |r.threads| == |w.threads|
    && (forall i :: 0 <= i < |w.threads| && i != t ==> r.threads[i] == w.threads[i])
    && r.threads[t].prog == w.threads[t].prog
    && r.threads[t].stage.Holding? && r.threads[t].stage.call == w.threads[t].stage.call
  }

  lemma HolderStep(c: Cfg, w: World, s: Step, t: nat)
    requires Shaped(c, w) && Enabled(c, w, s) && ForHolder(w, s) && !s.Release?
    requires w.lock == Some(t) && t < |w.threads| && w.threads[t].stage.Holding?
    ensures SameCall(w, Do(c, w, s), t)
  {
    hide Transport.Do, Transport.Enabled, Transport.EnvDo, Burst, Collected, Transport.Done, Config.Ok, Beats, Pow2;
  }

  /** `t` returned from `call`, and nothing else happened. */
  ghost predicate Returned(w: World, r: World, t: nat, call: Call, prog: seq<Op>, a: seq<byte>)
    requires t < |w.threads|
  {
    r.lock == None && r.log == w.log + [Entry(t, call, a)] && r.threads == w.threads[t := Thread(prog, Outside)]
  }

  lemma {:induction false} HolderFinishes(c: Cfg, init: seq<byte>, w: World, t: nat) returns (steps: seq<Step>, a: seq<byte>)
    requires Inv(c, init, w) && w.lock == Some(t) && t < |w.threads| && w.threads[t].stage.Holding?
    ensures Possible(c, w, steps)
    ensures Returned(w, Run(c, w, steps), t, w.threads[t].stage.call, w.threads[t].prog, a)
    decreases StepsToGo(c, init, w)
  {
    hide Inv, Enabled, Do, StepsToGo, Possible, Run, Config.Ok, Beats, Pow2;
    InvShaped(c, init, w);
    var s := HolderMoves(c, init, w);
    StepUses(c, init, w, s);
    RunOne(c, w, s);
    if s.Release? {
      steps, a := [s], w.threads[t].stage.acc;
      ReleaseReturns(c, w, t);
    } else {
      HolderStep(c, w, s, t);
      var r := Do(c, w, s);
      steps, a := HolderFinishes(c, init, r, t);
      RunAppend(c, w, [s], steps);
      steps := [s] + steps;
      assert r.threads[t := Thread(w.threads[t].prog, Outside)] == w.threads[t := Thread(w.threads[t].prog, Outside)];
    }
  }

  lemma ReleaseReturns(c: Cfg, w: World, t: nat)
    requires Shaped(c, w) && Enabled(c, w, Release(t))
    ensures t < |w.threads| && w.threads[t].stage.Holding?
    ensures Returned(w, Do(c, w, Release(t)), t, w.threads[t].stage.call, w.threads[t].prog, w.threads[t].stage.acc)
  {
  }

  /** From an idle interface any thread can make its next call to the end, and the memory is then
      that of the call on a flat array. */
  lemma CallRuns(c: Cfg, init: seq<byte>, w: World, t: nat) returns (steps: seq<Step>)
    requires Inv(c, init, w) && w.lock == None
    requires t < |w.threads| && w.threads[t].stage.Outside? && w.threads[t].prog != []
    requires NextCall(c, w.threads[t].prog).0.Some?
    ensures Possible(c, w, steps)
    ensures var r := Run(c, w, steps);
      && Inv(c, init, r) && r.lock == None
      && r.threads == w.threads[t := Thread(NextCall(c, w.threads[t].prog).1, Outside)]
      && NextCall(c, w.threads[t].prog).0.value.End() <= |w.net.node.mem|
      && r.net.node.mem == After(w.net.node.mem, NextCall(c, w.threads[t].prog).0.value)
  {
    hide Inv, StepsToGo, Possible, Run, NextCall, Replay, Legal, LogInRange, Config.Ok, Beats, Pow2;
    InvShaped(c, init, w);
    var (call, prog) := NextCall(c, w.threads[t].prog);
    StepKeeps(c, init, w, Invoke(t));
    var v := Do(c, w, Invoke(t));
    StepKeeps(c, init, v, Acquire(t));
    var u := Do(c, v, Acquire(t));
    RunOne(c, w, Invoke(t));
    RunOne(c, v, Acquire(t));
    RunAppend(c, w, [Invoke(t)], [Acquire(t)]);
    var rest, a := HolderFinishes(c, init, u, t);
    RunAppend(c, w, [Invoke(t)] + [Acquire(t)], rest);
    steps := [Invoke(t)] + [Acquire(t)] + rest;
    RunKeeps(c, init, w, steps);
    var r := Run(c, w, steps);
    FreeMemory(c, init, w);
    FreeMemory(c, init, r);
    ReplaySnoc(init, w.log, Entry(t, call.value, a));
    assert r.threads == w.threads[t := Thread(prog, Outside)];
  }

  lemma FreeMemory(c: Cfg, init: seq<byte>, w: World)
    requires Inv(c, init, w) && w.lock == None
    ensures LogInRange(w.log, |init|) && w.net.node.mem == Replay(init, w.log)
  {
  }

  lemma ReplaySnoc(init: seq<byte>, log: seq<Entry>, e: Entry)
    requires LogInRange(log + [e], |init|) && LogInRange(log, |init|)
    ensures e.call.End() <= |init| && Replay(init, log + [e]) == After(Replay(init, log), e.call)
  {
    hide Config.Ok, Beats, Pow2;
    assert (log + [e])[..|log|] == log;
    assert (log + [e])[|log|] == e;
  }

  /** One chunk of a clear, carried out without interruption. */
  lemma ClearChunkRuns(c: Cfg, init: seq<byte>, w: World, t: nat, addr: nat, n: nat, len: nat) returns (steps: seq<Step>)
    requires Inv(c, init, w) && w.lock == None && t < |w.threads| && n > 0
    requires w.threads[t] == Thread([ClearOp(addr, n)], Outside)
    requires len == if n < c.maxBytes then n else c.maxBytes
    ensures Possible(c, w, steps)
    ensures var r := Run(c, w, steps);
      && Inv(c, init, r) && r.lock == None
      && r.threads == w.threads[t := Thread([ClearOp(addr + len, n - len)], Outside)]
      && addr + len <= |w.net.node.mem| && r.net.node.mem == Store(w.net.node.mem, addr, Zeros(len))
  {
    hide Config.Ok, Inv, Possible, Run, Store, Zeros;
    InvShaped(c, init, w);
    steps := CallRuns(c, init, w, t);
    assert [ClearOp(addr + len, n - len)] + [ClearOp(addr, n)][1..] == [ClearOp(addr + len, n - len)];
  }

  /** A clear left alone finishes. */
  lemma {:induction false} ClearRuns(c: Cfg, init: seq<byte>, w: World, t: nat, addr: nat, n: nat) returns (steps: seq<Step>)
    requires Inv(c, init, w) && w.lock == None && t < |w.threads|
    requires w.threads[t] == Thread([ClearOp(addr, n)], Outside)
    ensures Possible(c, w, steps)
    ensures var r := Run(c, w, steps);
      && Inv(c, init, r) && r.lock == None && r.threads == w.threads[t := Thread([], Outside)]
      && addr + n <= |w.net.node.mem| && r.net.node.mem == Store(w.net.node.mem, addr, Zeros(n))
    decreases n
  {
    ConfigBasics(c);
    hide Config.Ok, Inv, Possible, Run, Store, Zeros;
    InvShaped(c, init, w);
    if n == 0 {
      ClearEnds(c, init, w, t, addr);
      steps := [Invoke(t)];
    } else {
      var len := if n < c.maxBytes then n else c.maxBytes;
      var first := ClearChunkRuns(c, init, w, t, addr, n, len);
      var v := Run(c, w, first);
      var rest := ClearRuns(c, init, v, t, addr + len, n - len);
      RunAppend(c, w, first, rest);
      steps := first + rest;
      ZerosJoin(w.net.node.mem, addr, len, n - len);
      assert v.threads[t := Thread([], Outside)] == w.threads[t := Thread([], Outside)];
    }
  }

  lemma ZerosJoin(mem: seq<byte>, addr: nat, i: nat, j: nat)
    requires addr + i + j <= |mem|
    ensures Store(Store(mem, addr, Zeros(i)), addr + i, Zeros(j)) == Store(mem, addr, Zeros(i + j))
  {
    hide Store, Config.Ok, Beats, Pow2;
    StoreAppend(mem, addr, Zeros(i), Zeros(j));
    assert Zeros(i) + Zeros(j) == Zeros(i + j);
  }

  lemma ClearEnds(c: Cfg, init: seq<byte>, w: World, t: nat, addr: nat)
    requires Inv(c, init, w) && w.lock == None && t < |w.threads|
    requires w.threads[t] == Thread([ClearOp(addr, 0)], Outside)
    ensures Possible(c, w, [Invoke(t)])
    ensures var r := Run(c, w, [Invoke(t)]);
      && Inv(c, init, r) && r.lock == None && r.threads == w.threads[t := Thread([], Outside)]
      && addr <= |w.net.node.mem| && r.net.node.mem == Store(w.net.node.mem, addr, Zeros(0))
  {
    hide Transport.Inv, Replay, Legal, LogInRange, Config.Ok, Beats, Pow2;
    StepKeeps(c, init, w, Invoke(t));
    RunOne(c, w, Invoke(t));
    assert [ClearOp(addr, 0)][1..] == [];
    assert ThreadOk(c, w.threads[t], |init|) && OpOk(c, w.threads[t].prog[0], |init|);
    assert Store(w.net.node.mem, addr, Zeros(0)) == w.net.node.mem;
  }

  // ---- clearing against two writes ----

  function Ones(n: nat): (s: seq<byte>)
    ensures |s| == n
  {
    seq(n, _ => 1)
  }

  /** One thread clears the range while another writes its first and then its last beat. */
  function Clearer(addr: nat, n: nat): seq<Op> { [ClearOp(addr, n)] }

  function Writer(c: Cfg, addr: nat, n: nat): seq<Op>
    requires c.Beat() <= n
  {
    [WriteOp(addr, Ones(c.Beat())), WriteOp(addr + n - c.Beat(), Ones(c.Beat()))]
  }

  /** The memory of none of the three orders in which the clear is a single call. */
  ghost predicate Torn(c: Cfg, init: seq<byte>, addr: nat, n: nat, mem: seq<byte>)
    requires c.Beat() <= n && addr + n <= |init|
  {
    var w := Writer(c, addr, n);
    var x := Clearer(addr, n)[0];
    mem != MemAfter3(init, x, w[0], w[1]) && mem != MemAfter3(init, w[0], x, w[1])
    && mem != MemAfter3(init, w[0], w[1], x)
  }

  function MemAfter3(mem: seq<byte>, x: Op, y: Op, z: Op): seq<byte>
    requires Meaning(x).End() <= |mem| && Meaning(y).End() <= |mem| && Meaning(z).End() <= |mem|
  {
    After(After(After(mem, Meaning(x)), Meaning(y)), Meaning(z))
  }

  /** First byte written, last byte cleared: no order with the clear as one call ends like that. */
  lemma FirstNotLast(c: Cfg, init: seq<byte>, addr: nat, n: nat, mem: seq<byte>)
    requires c.Beat() <= n && addr + n <= |mem| == |init|
    requires mem[addr] == 1 && mem[addr + n - 1] == 0
    ensures Torn(c, init, addr, n, mem)
  {
  }

  /** The writer left alone finishes. */
  lemma WriterRuns(c: Cfg, init: seq<byte>, w: World, t: nat, addr: nat, n: nat) returns (steps: seq<Step>)
    requires Inv(c, init, w) && w.lock == None && t < |w.threads|
    requires c.Beat() <= n && w.threads[t] == Thread(Writer(c, addr, n), Outside)
    ensures Possible(c, w, steps)
    ensures var r := Run(c, w, steps);
      && Inv(c, init, r) && r.lock == None && r.threads == w.threads[t := Thread([], Outside)]
      && addr + n <= |w.net.node.mem| && r.net.node.mem == Written(c, w.net.node.mem, addr, n)
  {
    hide Inv, Possible, Run, NextCall, After, Config.Ok, Beats, Pow2;
    InvShaped(c, init, w);
    NextOfWriter(c, addr, n);
    var a := CallRuns(c, init, w, t);
    var v := Run(c, w, a);
    assert v.threads[t] == Thread(Writer(c, addr, n)[1..], Outside);
    var b := CallRuns(c, init, v, t);
    RunAppend(c, w, a, b);
    steps := a + b;
    assert v.threads[t := Thread([], Outside)] == w.threads[t := Thread([], Outside)];
  }

  function Written(c: Cfg, mem: seq<byte>, addr: nat, n: nat): (r: seq<byte>)
    requires c.Beat() <= n && addr + n <= |mem|
    ensures |r| == |mem|
  {
    After(After(mem, Meaning(Writer(c, addr, n)[0])), Meaning(Writer(c, addr, n)[1]))
  }

  /** Above the largest transfer the two writes can fall between two chunks of the clear. */
  lemma ClearTears(c: Cfg, init: seq<byte>, addr: nat, n: nat, w: World) returns (steps: seq<Step>)
    requires c.maxBytes < n && c.Beat() <= n && addr + n <= |init|
    requires Fresh(c, init, [Clearer(addr, n), Writer(c, addr, n)], w)
    ensures Possible(c, w, steps)
    ensures Finished(Run(c, w, steps)) && Torn(c, init, addr, n, Run(c, w, steps).net.node.mem)
  {
    hide Fresh, Inv, Possible, Run, NextCall, Writer, Written, Torn, Store, Zeros, Config.Ok, Beats, Pow2;
    FreshStart(c, init, Clearer(addr, n), Writer(c, addr, n), w);
    NextOfClear(c, addr, n);
    var a := CallRuns(c, init, w, 0);
    var w1 := Run(c, w, a);
    var b := WriterRuns(c, init, w1, 1, addr, n);
    RunAppend(c, w, a, b);
    var w2 := Run(c, w1, b);
    var e := ClearRuns(c, init, w2, 0, addr + c.maxBytes, n - c.maxBytes);
    RunAppend(c, w, a + b, e);
    steps := a + b + e;
    TornMemory(c, init, addr, n);
  }

  lemma FreshStart(c: Cfg, init: seq<byte>, p: seq<Op>, q: seq<Op>, w: World)
    requires Fresh(c, init, [p, q], w)
    ensures Inv(c, init, w) && Shaped(c, w) && w.lock == None && w.net.node.mem == init
    ensures w.threads == [Thread(p, Outside), Thread(q, Outside)]
  {
    hide Transport.Inv, ProgOk, Inv, Config.Ok, Beats, Pow2;
    FreshInv(c, init, [p, q], w);
    InvShaped(c, init, w);
  }

  lemma NextOfClear(c: Cfg, addr: nat, n: nat)
    requires c.maxBytes < n
    ensures NextCall(c, Clearer(addr, n))
         == (Some(WriteCall(addr, Zeros(c.maxBytes))), [ClearOp(addr + c.maxBytes, n - c.maxBytes)])
  {
    hide Config.Ok, Beats, Pow2;
    var rest := ClearOp(addr + c.maxBytes, n - c.maxBytes);
    assert [rest] + Clearer(addr, n)[1..] == [rest];
  }

  lemma NextOfWriter(c: Cfg, addr: nat, n: nat)
    requires c.Beat() <= n
    ensures var wr := Writer(c, addr, n);
      && NextCall(c, wr) == (Some(Meaning(wr[0])), wr[1..]) && NextCall(c, wr[1..]) == (Some(Meaning(wr[1])), [])
  {
    hide Config.Ok, Beats, Pow2;
    assert Writer(c, addr, n)[1..][1..] == [];
  }

  lemma TornMemory(c: Cfg, init: seq<byte>, addr: nat, n: nat)
    requires c.maxBytes < n && c.Beat() <= n && addr + n <= |init|
    ensures var first := Store(init, addr, Zeros(c.maxBytes));
      Torn(c, init, addr, n, Store(Written(c, first, addr, n), addr + c.maxBytes, Zeros(n - c.maxBytes)))
  {
    var first := Store(init, addr, Zeros(c.maxBytes));
    FirstNotLast(c, init, addr, n, Store(Written(c, first, addr, n), addr + c.maxBytes, Zeros(n - c.maxBytes)));
  }

  // ---- clears of at most the largest transfer ----

  /** A clear that fits is one call, of the same meaning. */
  lemma SmallClear(c: Cfg, addr: nat, n: nat)
    requires n > 0
    ensures CallsOfOp(c, ClearOp(addr, n)) == [Meaning(ClearOp(addr, n))] <==> n <= c.maxBytes
  {
    hide Config.Ok, Beats, Pow2;
    var len := if n < c.maxBytes then n else c.maxBytes;
    ClearCallsHead(c, addr, n);
    ClearCallsHead(c, addr + len, n - len);
    if n > c.maxBytes { assert ClearCalls(c, addr, n)[0].Len() == c.maxBytes; }
  }

  /** A clear of a beat-aligned range of whole beats makes only calls that meet what `write_chunk`
      asserts exactly when it fits the largest transfer or that is itself a multiple of the beat. */
  lemma ClearAssertsIff(c: Cfg, addr: nat, n: nat)
    requires And(addr, c.Beat() - 1) == 0 && n % c.Beat() == 0
    ensures (forall call :: call in ClearCalls(c, addr, n) ==> CallAsserts(c, call))
       <==> n <= c.maxBytes || c.maxBytes % c.Beat() == 0
  {
    hide And, Zeros, CallAsserts, ClearCalls, Config.Ok, Beats, Pow2;
    if n <= c.maxBytes || c.maxBytes % c.Beat() == 0 {
      ClearCallsAssert(c, addr, n);
    } else {
      FirstFails(c, addr, n);
    }
  }

  lemma FirstFails(c: Cfg, addr: nat, n: nat)
    requires c.maxBytes < n && c.maxBytes % c.Beat() != 0
    ensures exists call :: call in ClearCalls(c, addr, n) && !CallAsserts(c, call)
  {
    hide And, ClearCalls, Config.Ok, Beats, Pow2;
    ClearCallsHead(c, addr, n);
    var first := WriteCall(addr, Zeros(c.maxBytes));
    assert first in ClearCalls(c, addr, n) && !CallAsserts(c, first);
  }

  lemma {:induction false} ClearCallsAssert(c: Cfg, addr: nat, n: nat)
    requires OpAsserts(c, ClearOp(addr, n))
    ensures forall call :: call in ClearCalls(c, addr, n) ==> CallAsserts(c, call)
    decreases n
  {
    hide And, Zeros, CallAsserts, ClearCalls, Config.Ok, Beats, Pow2;
    ClearCallsHead(c, addr, n);
    if n > 0 {
      var len := if n < c.maxBytes then n else c.maxBytes;
      ClearSplits(c, addr, n);
      ClearCallsAssert(c, addr + len, n - len);
    }
  }

  ghost predicate Tids(w: World) {
    forall i :: 0 <= i < |w.log| ==> w.log[i].tid < |w.threads|
  }

  lemma {:induction false} RunTids(c: Cfg, w: World, steps: seq<Step>)
    requires Shaped(c, w) && Possible(c, w, steps) && Tids(w)
    ensures Tids(Run(c, w, steps))
    decreases |steps|
  {
    hide Enabled, Do, Tids, Config.Ok, Beats, Pow2;
    if steps != [] {
      StepTids(c, w, steps[0]);
      RunTids(c, Do(c, w, steps[0]), steps[1..]);
    }
  }

  lemma StepTids(c: Cfg, w: World, s: Step)
    requires Shaped(c, w) && Enabled(c, w, s) && Tids(w)
    ensures Tids(Do(c, w, s))
  {
    hide Transport.Do, Transport.Enabled, Transport.EnvDo, Burst, Collected, Transport.Done, NextCall, Config.Ok, Beats,
      Pow2;
  }

  /** A log of one thread's calls. */
  lemma {:induction false} OneThread(init: seq<byte>, log: seq<Entry>, t: nat)
    requires LogInRange(log, |init|)
    requires forall i :: 0 <= i < |log| ==> log[i].tid < 2
    requires t < 2 && CallsOf(log, 1 - t) == []
    ensures |CallsOf(log, t)| == |log| && forall i :: 0 <= i < |log| ==> log[i].call == CallsOf(log, t)[i]
    decreases |log|
  {
    hide Config.Ok, Beats, Pow2;
    if log != [] {
      OneThread(init, log[..|log| - 1], t);
    }
  }

  /** One call of one thread among two calls of another: three orders. */
  lemma {:induction false} ThreeOrders(init: seq<byte>, log: seq<Entry>, x: Call, y: Call, z: Call)
    requires LogInRange(log, |init|)
    requires forall i :: 0 <= i < |log| ==> log[i].tid < 2
    requires CallsOf(log, 0) == [x] && CallsOf(log, 1) == [y, z]
    ensures |log| == 3
    ensures var order := (log[0].call, log[1].call, log[2].call);
      order == (x, y, z) || order == (y, x, z) || order == (y, z, x)
  {
    hide CallsOf, Config.Ok, Beats, Pow2;
    CallsOfLast(log);
    var pre, e := log[..|log| - 1], log[|log| - 1];
    if e.tid == 0 {
      SnocSplit(CallsOf(pre, 0), e.call, [], x);
      OneThread(init, pre, 1);
      assert pre[0] == log[0] && pre[1] == log[1];
    } else {
      SnocSplit(CallsOf(pre, 1), e.call, [y], z);
      CallsOfLast(pre);
      var pre2, f := pre[..|pre| - 1], pre[|pre| - 1];
      if f.tid == 0 {
        SnocSplit(CallsOf(pre2, 0), f.call, [], x);
        OneThread(init, pre2, 1);
      } else {
        SnocSplit(CallsOf(pre2, 1), f.call, [], y);
        OneThread(init, pre2, 0);
      }
      assert pre2[0] == log[0] && f == log[1];
    }
  }

  lemma CallsOfLast(log: seq<Entry>)
    requires CallsOf(log, 0) != [] || CallsOf(log, 1) != []
    requires forall i :: 0 <= i < |log| ==> log[i].tid < 2
    ensures log != []
    ensures var pre, e := log[..|log| - 1], log[|log| - 1];
      && e.tid < 2 && CallsOf(log, e.tid) == CallsOf(pre, e.tid) + [e.call]
      && CallsOf(log, 1 - e.tid) == CallsOf(pre, 1 - e.tid)
  {
  }

  lemma SnocSplit(a: seq<Call>, x: Call, b: seq<Call>, y: Call)
    requires a + [x] == b + [y]
    ensures a == b && x == y
  {
    hide Config.Ok, Beats, Pow2;
    assert (a + [x])[..|a|] == a && (b + [y])[..|b|] == b;
    assert (a + [x])[|a|] == x && (b + [y])[|b|] == y;
  }

  lemma Replay3(init: seq<byte>, log: seq<Entry>)
    requires LogInRange(log, |init|) && |log| == 3
    ensures log[0].call.End() <= |init| && log[1].call.End() <= |init| && log[2].call.End() <= |init|
    ensures Replay(init, log) == After(After(After(init, log[0].call), log[1].call), log[2].call)
  {
    hide Config.Ok, Beats, Pow2;
    var l2 := log[..2];
    var l1 := l2[..1];
    assert l1[..0] == [];
    assert Replay(init, l1) == After(init, log[0].call);
    assert Replay(init, l2) == After(Replay(init, l1), log[1].call);
  }

  /** Up to the largest transfer no run tears the clear. */
  lemma ClearWhole(c: Cfg, init: seq<byte>, addr: nat, n: nat, w: World, steps: seq<Step>)
    requires c.Beat() <= n <= c.maxBytes && addr + n <= |init|
    requires Fresh(c, init, [Clearer(addr, n), Writer(c, addr, n)], w)
    requires Possible(c, w, steps) && Finished(Run(c, w, steps))
    ensures !Torn(c, init, addr, n, Run(c, w, steps).net.node.mem)
  {
    hide Fresh, Possible, Run, Replay, Legal, Inv, CallsOf, Expand, Transport.Quiet, After, StepsToGo, Config.Ok, Beats,
      Pow2;
    FreshShaped(c, init, [Clearer(addr, n), Writer(c, addr, n)], w);
    EveryRunOf(c, init, [Clearer(addr, n), Writer(c, addr, n)], w, steps);
    var r := Run(c, w, steps);
    ExpandTwo(c, addr, n);
    var x, y, z := Meaning(Clearer(addr, n)[0]), Meaning(Writer(c, addr, n)[0]), Meaning(Writer(c, addr, n)[1]);
    ThreeOrders(init, r.log, x, y, z);
    Replay3(init, r.log);
  }

  lemma FreshShaped(c: Cfg, init: seq<byte>, progs: seq<seq<Op>>, w: World)
    requires Fresh(c, init, progs, w)
    ensures Shaped(c, w)
  {
  }

  lemma ExpandTwo(c: Cfg, addr: nat, n: nat)
    requires c.Beat() <= n <= c.maxBytes
    ensures Expand(c, Clearer(addr, n)) == [Meaning(Clearer(addr, n)[0])]
    ensures Expand(c, Writer(c, addr, n)) == [Meaning(Writer(c, addr, n)[0]), Meaning(Writer(c, addr, n)[1])]
  {
    hide Expand, Config.Ok, Beats, Pow2;
    SmallClear(c, addr, n);
    ExpandHead(c, Clearer(addr, n));
    ExpandHead(c, Writer(c, addr, n));
    ExpandHead(c, Writer(c, addr, n)[1..]);
    assert Clearer(addr, n)[1..] == [] && Writer(c, addr, n)[1..][1..] == [];
    ExpandNil(c);
  }

  lemma ExpandNil(c: Cfg)
    ensures Expand(c, []) == []
  {
  }

  /** A finished run of two threads: its log holds exactly their calls. */
  lemma EveryRunOf(c: Cfg, init: seq<byte>, progs: seq<seq<Op>>, w: World, steps: seq<Step>)
    requires |progs| == 2 && Fresh(c, init, progs, w) && Possible(c, w, steps) && Finished(Run(c, w, steps))
    ensures var r := Run(c, w, steps);
      && LogInRange(r.log, |init|) && r.net.node.mem == Replay(init, r.log)
      && (forall i :: 0 <= i < |r.log| ==> r.log[i].tid < 2)
      && CallsOf(r.log, 0) == Expand(c, progs[0]) && CallsOf(r.log, 1) == Expand(c, progs[1])
  {
    hide Possible, Run, Replay, Legal, Transport.Quiet, Transport.Inv, HolderOk, StepsToGo, CallsOf, Expand, ProgOk,
      Stuck, Config.Ok, Beats, Pow2;
    EveryRun(c, init, progs, w, steps);
    RunTids(c, w, steps);
    var r := Run(c, w, steps);
    RunKeeps(c, init, w, steps);
    LockedIsHolding(c, init, r);
    ExpandNil(c);
    forall t | 0 <= t < 2 ensures CallsOf(r.log, t) == Expand(c, progs[t]) {
      assert Todo(c, r.threads[t]) == [];
    }
  }

  /** A clear of `n` bytes can be seen half done by another thread exactly when `n` is more than
      the largest transfer. */
  lemma ClearTornIff(c: Cfg, init: seq<byte>, addr: nat, n: nat, w: World)
    requires c.Beat() <= n && addr + n <= |init|
    requires Fresh(c, init, [Clearer(addr, n), Writer(c, addr, n)], w)
    ensures c.maxBytes < n <==> exists steps ::
      Possible(c, w, steps) && Finished(Run(c, w, steps)) && Torn(c, init, addr, n, Run(c, w, steps).net.node.mem)
  {
    hide Fresh, Possible, Run, Torn, Finished, Config.Ok, Beats, Pow2;
    FreshShaped(c, init, [Clearer(addr, n), Writer(c, addr, n)], w);
    if c.maxBytes < n {
      var steps := ClearTears(c, init, addr, n, w);
    } else {
      forall steps | Possible(c, w, steps) && Finished(Run(c, w, steps))
        ensures !Torn(c, init, addr, n, Run(c, w, steps).net.node.mem)
      {
        ClearWhole(c, init, addr, n, w, steps);
      }
    }
  }
}
