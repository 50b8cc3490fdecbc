/** Any number of threads sharing one memory interface. Every step of every thread, of the queues
    and of the manager may interleave; the only coordination is the interface's mutex, taken per
    `read_chunk` and `write_chunk` call. */
module Concurrent {
  import opened Options
  import opened Bits
  import opened Messages
  import opened Lanes
  import opened Splitter
  import opened Chain
  import opened Protocol
  import opened Transport
  import opened FlatMemory

  /** Where a thread is: outside any call, waiting for the mutex, or inside a chunk call, at
      address `pos` of it, possibly in the middle of a burst. */
  datatype Stage =
    | Outside
    | Waiting(call: Call)
    | Holding(call: Call, pos: nat, acc: seq<byte>, client: Client)

  datatype Thread = Thread(prog: seq<Op>, stage: Stage)

  /** A finished call, with what it returned. */
  datatype Entry = Entry(tid: nat, call: Call, answer: seq<byte>)

  datatype World = World(net: Net, lock: Option<nat>, threads: seq<Thread>, log: seq<Entry>)

  datatype Step =
    | Invoke(t: nat)                   // call the next chunk operation of the program
    | Acquire(t: nat)                  // take the mutex
    | Start(t: nat, junk: seq<byte>)   // begin the burst at `pos`
    | Act(t: nat, m: Move)             // send or receive a beat
    | Finish(t: nat)                   // the burst is complete
    | Release(t: nat)                  // drop the mutex and return
    | Env(m: Move)                     // a queue or the manager moves

  // ---- one thread's code ----

  /** The chunk call a program makes next, and the program after it. `clear_chunk` is a loop of
      `write_chunk` calls of at most the largest transfer. */
  function NextCall(c: Cfg, prog: seq<Op>): (r: (Option<Call>, seq<Op>))
    requires prog != []
  {
    match prog[0]
    case ReadOp(addr, n) => (Some(ReadCall(addr, n)), prog[1..])
    case WriteOp(addr, data) => (Some(WriteCall(addr, data)), prog[1..])
    case ClearOp(addr, n) =>
      if n == 0 then (None, prog[1..])
      else
        var len := if n < c.maxBytes then n else c.maxBytes;
        (Some(WriteCall(addr, Zeros(len))), [ClearOp(addr + len, n - len)] + prog[1..])
  }

  /** The burst of a call at `pos`: the splitter's next piece of what is left. */
  function Burst(call: Call, pos: nat, junk: seq<byte>): Xact
    requires call.addr <= pos < call.End()
  {
    var k := ChunkLg(pos, call.End() - pos);
    if call.ReadCall? then Get(pos, k, junk)
    else Put(pos, k, call.data[pos - call.addr..pos - call.addr + Pow2(k)])
  }

  /** The bytes the beats of an answer carry. */
  function Collected(c: Cfg, got: seq<MsgD>): seq<byte> {
    if got == [] then []
    else Collected(c, got[..|got| - 1]) + (var d := got[|got| - 1].data; d[..if c.Beat() < |d| then c.Beat() else |d|])
  }

  ghost predicate ProgOk(c: Cfg, prog: seq<Op>, size: nat) {
    forall i :: 0 <= i < |prog| ==> OpOk(c, prog[i], size)
  }

  // ---- steps ----

  ghost predicate Shaped(c: Cfg, w: World) {
    |w.net.aq| == |c.capsA| && |w.net.dq| == |c.capsD|
  }

  ghost predicate Enabled(c: Cfg, w: World, s: Step)
    requires Shaped(c, w)
  {
    match s
    case Env(m) => EnvEnabled(c, w.net, m)
    case Invoke(t) => t < |w.threads| && w.threads[t].stage.Outside? && w.threads[t].prog != []
    case Acquire(t) => t < |w.threads| && w.threads[t].stage.Waiting? && w.lock == None
    case Start(t, junk) =>
      && t < |w.threads| && w.threads[t].stage.Holding? && w.threads[t].stage.client.Idle?
      && w.threads[t].stage.call.addr <= w.threads[t].stage.pos < w.threads[t].stage.call.End()
      && |junk| == PAYLOAD
    case Act(t, m) =>
      && t < |w.threads| && w.threads[t].stage.Holding? && (m.SendA? || m.RecvD?)
      && var sys := Sys(w.net, w.threads[t].stage.client);
        ClientOk(c, sys) && Transport.Enabled(c, sys, m)
    case Finish(t) =>
      && t < |w.threads| && w.threads[t].stage.Holding?
      && var sys := Sys(w.net, w.threads[t].stage.client);
        ClientOk(c, sys) && Done(c, sys)
    case Release(t) =>
      && t < |w.threads| && w.threads[t].stage.Holding? && w.threads[t].stage.client.Idle?
      && w.threads[t].stage.pos == w.threads[t].stage.call.End()
  }

  ghost function Do(c: Cfg, w: World, s: Step): (r: World)
    requires Shaped(c, w) && Enabled(c, w, s)
    ensures Shaped(c, r) && |r.threads| == |w.threads|
  {
    match s
    case Env(m) => w.(net := EnvDo(c, w.net, m))
    case Invoke(t) =>
      var (call, prog) := NextCall(c, w.threads[t].prog);
      SetThread(w, t, Thread(prog, if call.Some? then Waiting(call.value) else Outside))
    case Acquire(t) =>
      var call := w.threads[t].stage.call;
      SetStage(w, t, Holding(call, call.addr, [], Idle)).(lock := Some(t))
    case Start(t, junk) =>
      var st := w.threads[t].stage;
      SetStage(w, t, st.(client := Begin(w.net, Burst(st.call, st.pos, junk)).client))
    case Act(t, m) =>
      var st := w.threads[t].stage;
      var r := Transport.Do(c, Sys(w.net, st.client), m);
      SetStage(w, t, st.(client := r.client)).(net := r.net)
    case Finish(t) =>
      var st := w.threads[t].stage;
      SetStage(w, t, Holding(st.call, st.pos + Pow2(st.client.x.lg),
        if st.call.ReadCall? then st.acc + Collected(c, st.client.got) else st.acc, Idle))
    case Release(t) =>
      var st := w.threads[t].stage;
      SetStage(w, t, Outside).(lock := None, log := w.log + [Entry(t, st.call, st.acc)])
  }

  function SetThread(w: World, t: nat, th: Thread): World
    requires t < |w.threads|
  {
    w.(threads := w.threads[t := th])
  }

  function SetStage(w: World, t: nat, stage: Stage): World
    requires t < |w.threads|
  {
    SetThread(w, t, w.threads[t].(stage := stage))
  }

  /** Threads wait for the mutex and for nothing else: whenever it is free any waiting thread may take
      it, a thread outside a call may make its next one at any time, a burst may begin with anything
      left in the struct, and queues and manager move when they can. */
  lemma AnyoneMayMove(c: Cfg, w: World, t: nat, m: Move, junk: seq<byte>)
    requires Shaped(c, w) && t < |w.threads| && |junk| == PAYLOAD
    ensures w.threads[t].stage.Outside? && w.threads[t].prog != [] ==> Enabled(c, w, Invoke(t))
    ensures w.threads[t].stage.Waiting? && w.lock == None ==> Enabled(c, w, Acquire(t))
    ensures var st := w.threads[t].stage;
      (st.Holding? && st.client.Idle? && st.call.addr <= st.pos < st.call.End()) ==> Enabled(c, w, Start(t, junk))
    ensures EnvEnabled(c, w.net, m) ==> Enabled(c, w, Env(m))
  {
    hide EnvEnabled;
  }

  // ---- the serial history ----

  /** Memory after the logged calls, one at a time in log order. */
  ghost predicate LogInRange(log: seq<Entry>, size: nat) {
    forall i :: 0 <= i < |log| ==> log[i].call.End() <= size
  }

  function Replay(init: seq<byte>, log: seq<Entry>): (r: seq<byte>)
    requires LogInRange(log, |init|)
    ensures |r| == |init|
  {
    if log == [] then init
    else After(Replay(init, log[..|log| - 1]), log[|log| - 1].call)
  }

  /** Every logged answer is what the flat array held at that point of the log. */
  ghost predicate Legal(init: seq<byte>, log: seq<Entry>)
    requires LogInRange(log, |init|)
  {
    log == []
    || (Legal(init, log[..|log| - 1])
        && log[|log| - 1].answer == Answer(Replay(init, log[..|log| - 1]), log[|log| - 1].call))
  }

  // ---- the invariant ----

  /** Memory and bytes collected when a call has reached `pos`. */
  function MemAt(mem: seq<byte>, call: Call, pos: nat): (r: seq<byte>)
    requires call.addr <= pos <= call.End() <= |mem|
    ensures |r| == |mem|
  {
    if call.ReadCall? then mem else Store(mem, call.addr, call.data[..pos - call.addr])
  }

  function AccAt(mem: seq<byte>, call: Call, pos: nat): seq<byte>
    requires call.addr <= pos <= call.End() <= |mem|
  {
    if call.ReadCall? then mem[call.addr..pos] else []
  }

  /** The holder of the mutex, part-way through its call on memory `mem`. */
  ghost predicate HolderOk(c: Cfg, mem: seq<byte>, net: Net, st: Stage) {
    && st.Holding? && CallOk(c, st.call, |mem|)
    && st.call.addr <= st.pos <= st.call.End() && Aligned(st.pos, c.w.lgBeat)
    && st.acc == AccAt(mem, st.call, st.pos)
    && Transport.Inv(c, Sys(net, st.client))
    && (st.client.Idle? ==> net.node.mem == MemAt(mem, st.call, st.pos))
    && (st.client.Busy? ==>
          && st.pos < st.call.End() && st.client.start == MemAt(mem, st.call, st.pos)
          && st.client.x == Burst(st.call, st.pos, if st.client.x.Get? then st.client.x.junk else []))
  }

  ghost predicate ThreadOk(c: Cfg, th: Thread, size: nat) {
    ProgOk(c, th.prog, size) && (th.stage.Waiting? ==> CallOk(c, th.stage.call, size))
  }

  ghost predicate Inv(c: Cfg, init: seq<byte>, w: World) {
    && Shaped(c, w)
    && LogInRange(w.log, |init|) && Legal(init, w.log)
    && (forall i :: 0 <= i < |w.threads| ==> ThreadOk(c, w.threads[i], |init|))
    && (w.lock == None ==>
          && (forall i :: 0 <= i < |w.threads| ==> !w.threads[i].stage.Holding?)
          && Transport.Inv(c, Sys(w.net, Idle)) && w.net.node.mem == Replay(init, w.log))
    && (w.lock.Some? ==>
          && w.lock.value < |w.threads|
          && (forall i :: 0 <= i < |w.threads| && i != w.lock.value ==> !w.threads[i].stage.Holding?)
          && HolderOk(c, Replay(init, w.log), w.net, w.threads[w.lock.value].stage))
  }

  // ---- every step keeps it ----

  lemma NextCallOk(c: Cfg, prog: seq<Op>, size: nat)
    requires prog != [] && ProgOk(c, prog, size)
    ensures ProgOk(c, NextCall(c, prog).1, size)
    ensures NextCall(c, prog).0.Some? ==> CallOk(c, NextCall(c, prog).0.value, size)
  {
    hide Aligned, Zeros, Pow2, And, CallAsserts, Config.Ok, Beats;
    assert OpOk(c, prog[0], size);
    if prog[0].ClearOp? && prog[0].n > 0 {
      var ClearOp(addr, n) := prog[0];
      var len := if n < c.maxBytes then n else c.maxBytes;
      ClearSplits(c, addr, n);
      assert OpOk(c, ClearOp(addr + len, n - len), size);
    }
  }

  /** A clear that meets its demands makes a chunk call that does, and leaves a clear that does. */
  lemma ClearSplits(c: Cfg, addr: nat, n: nat)
    requires n > 0 && OpAsserts(c, ClearOp(addr, n))
    ensures var len := if n < c.maxBytes then n else c.maxBytes;
      CallAsserts(c, WriteCall(addr, Zeros(len))) && OpAsserts(c, ClearOp(addr + len, n - len))
  {
    hide Zeros, Pow2, And, Aligned;
    var len := if n < c.maxBytes then n else c.maxBytes;
    AlignedIsMask(c, addr);
    AlignedMod(n, c.w.lgBeat);
    AlignedMod(len, c.w.lgBeat);
    AlignedAtLeast(len, c.w.lgBeat);
    AlignedSum(addr, len, c.w.lgBeat);
    AlignedSum(n, len, c.w.lgBeat);
    AlignedIsMask(c, addr + len);
    AlignedMod(n - len, c.w.lgBeat);
  }

  lemma AlignedIsMask(c: Cfg, addr: nat)
    ensures And(addr, c.Beat() - 1) == 0 <==> Aligned(addr, c.w.lgBeat)
  {
    hide Config.Ok, Beats, Pow2;
    MaskTestsAlignment(addr, c.w.lgBeat);
  }

  lemma CallAligned(c: Cfg, call: Call)
    requires CallAsserts(c, call)
    ensures Aligned(call.addr, c.w.lgBeat) && Aligned(call.Len(), c.w.lgBeat) && call.Len() > 0
  {
    hide Aligned, And, Config.Ok, Beats, Pow2;
    AlignedIsMask(c, call.addr);
    AlignedMod(call.Len(), c.w.lgBeat);
  }

  lemma InvokeKeeps(c: Cfg, init: seq<byte>, w: World, t: nat)
    requires Inv(c, init, w) && Enabled(c, w, Invoke(t))
    ensures Inv(c, init, Do(c, w, Invoke(t)))
  {
    hide NextCall, ProgOk, CallOk, Transport.Inv, LogInRange, Legal, Replay, MemAt, AccAt, Burst, Aligned, Config.Ok,
      Beats, Pow2;
    assert ThreadOk(c, w.threads[t], |init|);
    NextCallOk(c, w.threads[t].prog, |init|);
  }

  lemma AcquireKeeps(c: Cfg, init: seq<byte>, w: World, t: nat)
    requires Inv(c, init, w) && Enabled(c, w, Acquire(t))
    ensures Inv(c, init, Do(c, w, Acquire(t)))
  {
    hide ProgOk, CallOk, Transport.Inv, LogInRange, Legal, Replay, Config.Ok, Beats, Pow2;
    assert ThreadOk(c, w.threads[t], |init|);
    var call, mem := w.threads[t].stage.call, Replay(init, w.log);
    AtStart(c, mem, call);
  }

  lemma AtStart(c: Cfg, mem: seq<byte>, call: Call)
    requires CallOk(c, call, |mem|)
    ensures Aligned(call.addr, c.w.lgBeat) && call.End() <= |mem|
    ensures MemAt(mem, call, call.addr) == mem && AccAt(mem, call, call.addr) == []
  {
    hide Config.Ok, Beats, Pow2;
    CallAligned(c, call);
  }

  /** The next piece of a call is a power of two from the beat up, aligned, and inside the call. */
  lemma NextPieceFits(c: Cfg, call: Call, pos: nat)
    requires CallAsserts(c, call) && call.addr <= pos < call.End() && Aligned(pos, c.w.lgBeat)
    ensures var k := ChunkLg(pos, call.End() - pos);
      && c.w.lgBeat <= k && Pow2(k) <= c.maxBytes && pos + Pow2(k) <= call.End()
      && Aligned(pos, k) && Aligned(pos + Pow2(k), c.w.lgBeat)
  {
    hide Config.Ok, Aligned, ChunkLg, And, Pow2;
    CallAligned(c, call);
    var left := call.End() - pos;
    var k := ChunkLg(pos, left);
    AlignedSum(call.addr, call.Len(), c.w.lgBeat);
    AlignedSum(call.End(), pos, c.w.lgBeat);
    AlignedAtLeast(left, c.w.lgBeat);
    NextChunkIsLargest(pos, left, c.w.lgBeat);
    NextChunk(pos, left);
    AlignedPow2(c.w.lgBeat, k);
    AlignedSum(pos, Pow2(k), c.w.lgBeat);
  }

  /** The burst at `pos` is one the transport may run. */
  lemma BurstIsOk(c: Cfg, call: Call, pos: nat, junk: seq<byte>, size: nat)
    requires CallOk(c, call, size) && call.addr <= pos < call.End()
    requires Aligned(pos, c.w.lgBeat) && |junk| == PAYLOAD
    ensures var x := Burst(call, pos, junk);
      XactOk(c, x, size) && x.addr == pos && pos + Pow2(x.lg) <= call.End() && Aligned(pos + Pow2(x.lg), c.w.lgBeat)
  {
    hide Config.Ok, Aligned, ChunkLg, CallAsserts, Pow2;
    NextPieceFits(c, call, pos);
  }

  lemma StartKeeps(c: Cfg, init: seq<byte>, w: World, t: nat, junk: seq<byte>)
    requires Inv(c, init, w) && Enabled(c, w, Start(t, junk))
    ensures Inv(c, init, Do(c, w, Start(t, junk)))
  {
    hide ProgOk, CallOk, Transport.Inv, LogInRange, Legal, Replay, MemAt, AccAt, XactOk, ChunkLg, Config.Ok, Beats,
      Pow2;
    var mem, st := Replay(init, w.log), w.threads[t].stage;
    assert w.lock == Some(t) && HolderOk(c, mem, w.net, st);
    BurstIsOk(c, st.call, st.pos, junk, |mem|);
    BeginInv(c, w.net, Burst(st.call, st.pos, junk));
    assert HolderOk(c, mem, w.net, Do(c, w, Start(t, junk)).threads[t].stage);
  }

  lemma ActKeeps(c: Cfg, init: seq<byte>, w: World, t: nat, m: Move)
    requires Inv(c, init, w) && Enabled(c, w, Act(t, m))
    ensures Inv(c, init, Do(c, w, Act(t, m)))
  {
    hide ProgOk, CallOk, Transport.Inv, LogInRange, Legal, Replay, MemAt, AccAt, XactOk, Burst, Config.Ok, Beats, Pow2;
    var mem, st := Replay(init, w.log), w.threads[t].stage;
    assert w.lock == Some(t) && HolderOk(c, mem, w.net, st);
    StepInv(c, Sys(w.net, st.client), m);
    var r := Do(c, w, Act(t, m));
    assert HolderOk(c, mem, r.net, r.threads[t].stage);
  }

  lemma EnvKeeps(c: Cfg, init: seq<byte>, w: World, m: Move)
    requires Inv(c, init, w) && Enabled(c, w, Env(m))
    ensures Inv(c, init, Do(c, w, Env(m)))
  {
    hide ProgOk, CallOk, Transport.Inv, LogInRange, Legal, Replay, MemAt, AccAt, XactOk, Burst, EnvEnabled, Config.Ok,
      Beats, Pow2;
    var client := HolderClient(w);
    assert Transport.Inv(c, Sys(w.net, client));
    if client.Idle? {
      QuietIsStill(c, w.net, m);
    } else {
      InvShape(c, Sys(w.net, client));
      EnvIsStep(c, Sys(w.net, client), m);
      StepInv(c, Sys(w.net, client), m);
    }
  }

  /** The burst under way, if any. */
  function HolderClient(w: World): Client {
    if w.lock.Some? && w.lock.value < |w.threads| && w.threads[w.lock.value].stage.Holding?
    then w.threads[w.lock.value].stage.client else Idle
  }

  /** The beats of an answer carry the bytes of the memory it was taken from. */
  lemma {:induction false} CollectedAnswer(c: Cfg, x: Xact, mem: seq<byte>, k: nat)
    requires XactOk(c, x, |mem|) && x.Get? && k <= NumD(c, x)
    ensures x.addr + Off(c, k) <= |mem|
    ensures Collected(c, Responses(c, x, mem)[..k]) == mem[x.addr..x.addr + Off(c, k)]
    decreases k
  {
    hide Response, XactOk, Off, NumD, Collected, Responses, Config.Ok, Beats, Pow2;
    if k == 0 {
      NothingCollected(c, x, mem);
    } else {
      CollectedAnswer(c, x, mem, k - 1);
      GetResponse(c, x, mem, k - 1);
      CollectOne(c, x, mem, k - 1);
      Adjacent(mem, x.addr, Off(c, k - 1), Off(c, k));
    }
  }

  lemma NothingCollected(c: Cfg, x: Xact, mem: seq<byte>)
    requires XactOk(c, x, |mem|) && x.Get?
    ensures Off(c, 0) == 0 && x.addr <= |mem| && Collected(c, Responses(c, x, mem)[..0]) == []
  {
    hide Responses, Aligned, Pow2, Config.Ok, Beats;
  }

  lemma CollectOne(c: Cfg, x: Xact, mem: seq<byte>, k: nat)
    requires XactOk(c, x, |mem|) && x.Get? && k < NumD(c, x) && c.Beat() <= |Response(c, x, mem, k).data|
    ensures Collected(c, Responses(c, x, mem)[..k + 1])
         == Collected(c, Responses(c, x, mem)[..k]) + Response(c, x, mem, k).data[..c.Beat()]
  {
    hide Response, XactOk, NumD, Config.Ok, Beats, Pow2;
    var rs := Responses(c, x, mem);
    assert rs[..k + 1][..k] == rs[..k] && rs[..k + 1][k] == Response(c, x, mem, k);
  }

  lemma Adjacent(mem: seq<byte>, a: nat, i: nat, j: nat)
    requires i <= j && a + j <= |mem|
    ensures mem[a..a + i] + mem[a + i..a + j] == mem[a..a + j]
  {
  }

  /** A finished read burst has collected the bytes up to its end. */
  lemma ReadBurstDone(c: Cfg, mem: seq<byte>, call: Call, pos: nat, x: Xact)
    requires call.ReadCall? && call.addr <= pos < call.End() <= |mem|
    requires x.Get? && x.addr == pos && XactOk(c, x, |mem|) && pos + Pow2(x.lg) <= call.End()
    ensures AccAt(mem, call, pos) + Collected(c, Responses(c, x, mem)) == AccAt(mem, call, pos + Pow2(x.lg))
  {
    hide Aligned, Responses, Collected, Pow2, Config.Ok, Beats;
    var n := NumD(c, x);
    CollectedAnswer(c, x, mem, n);
    assert Responses(c, x, mem)[..n] == Responses(c, x, mem);
    BeatsFill(c, x.lg, n);
    Adjacent(mem, call.addr, pos - call.addr, pos + Pow2(x.lg) - call.addr);
  }

  /** A finished write burst has stored the data up to its end. */
  lemma WriteBurstDone(mem: seq<byte>, call: Call, pos: nat, len: nat)
    requires call.WriteCall? && call.addr <= pos && pos + len <= call.End() <= |mem|
    ensures Store(MemAt(mem, call, pos), pos, call.data[pos - call.addr..pos - call.addr + len]) == MemAt(mem, call, pos + len)
  {
    hide Store;
    StoredUpTo(mem, call.addr, call.data, pos - call.addr, len);
  }

  lemma StoredUpTo(mem: seq<byte>, addr: nat, data: seq<byte>, o: nat, len: nat)
    requires o + len <= |data| && addr + |data| <= |mem|
    ensures Store(Store(mem, addr, data[..o]), addr + o, data[o..o + len]) == Store(mem, addr, data[..o + len])
  {
    hide Store;
    StoreAppend(mem, addr, data[..o], data[o..o + len]);
    assert data[..o] + data[o..o + len] == data[..o + len];
  }

  /** A finished burst has carried the call from `pos` to the end of the burst. */
  lemma BurstDone(c: Cfg, mem: seq<byte>, call: Call, pos: nat, x: Xact, got: seq<MsgD>)
    requires CallOk(c, call, |mem|) && call.addr <= pos < call.End()
    requires x == Burst(call, pos, if x.Get? then x.junk else [])
    requires XactOk(c, x, |mem|) && x.addr == pos && pos + Pow2(x.lg) <= call.End()
    requires got == Responses(c, x, MemAt(mem, call, pos))
    ensures Final(c, x, MemAt(mem, call, pos)) == MemAt(mem, call, pos + Pow2(x.lg))
    ensures (if call.ReadCall? then AccAt(mem, call, pos) + Collected(c, got) else AccAt(mem, call, pos))
         == AccAt(mem, call, pos + Pow2(x.lg))
  {
    hide CallOk, XactOk, ChunkLg, Responses, Collected, MemAt, AccAt, Pow2, Store, Config.Ok, Beats;
    PlainRead(c, mem, call, pos);
    PlainRead(c, mem, call, pos + Pow2(x.lg));
    if call.ReadCall? {
      ReadBurstDone(c, mem, call, pos, x);
    } else {
      WriteBurstDone(mem, call, pos, Pow2(x.lg));
    }
  }

  /** Reads leave memory alone; writes collect nothing. */
  lemma PlainRead(c: Cfg, mem: seq<byte>, call: Call, pos: nat)
    requires CallOk(c, call, |mem|) && call.addr <= pos <= call.End()
    ensures call.End() <= |mem|
    ensures if call.ReadCall? then MemAt(mem, call, pos) == mem else AccAt(mem, call, pos) == []
  {
  }

  lemma FinishKeeps(c: Cfg, init: seq<byte>, w: World, t: nat)
    requires Inv(c, init, w) && Enabled(c, w, Finish(t))
    ensures Inv(c, init, Do(c, w, Finish(t)))
  {
    hide ProgOk, CallOk, Transport.Inv, LogInRange, Legal, Replay, MemAt, AccAt, XactOk, Burst, Final, Responses,
      Aligned, Config.Ok, Beats, Pow2;
    var mem, st := Replay(init, w.log), w.threads[t].stage;
    assert w.lock == Some(t) && HolderOk(c, mem, w.net, st);
    var x := st.client.x;
    DoneMeans(c, Sys(w.net, st.client));
    JunkIsPayload(c, x, |mem|);
    BurstIsOk(c, st.call, st.pos, if x.Get? then x.junk else Zeros(PAYLOAD), |mem|);
    SameBurst(c, st.call, st.pos, x);
    BurstDone(c, mem, st.call, st.pos, x, st.client.got);
    assert HolderOk(c, mem, w.net, Do(c, w, Finish(t)).threads[t].stage);
  }

  lemma JunkIsPayload(c: Cfg, x: Xact, size: nat)
    requires XactOk(c, x, size)
    ensures x.Get? ==> |x.junk| == PAYLOAD
  {
  }

  lemma SameBurst(c: Cfg, call: Call, pos: nat, x: Xact)
    requires call.addr <= pos < call.End() && x == Burst(call, pos, if x.Get? then x.junk else [])
    ensures x == Burst(call, pos, if x.Get? then x.junk else Zeros(PAYLOAD))
  {
  }

  lemma ReleaseKeeps(c: Cfg, init: seq<byte>, w: World, t: nat)
    requires Inv(c, init, w) && Enabled(c, w, Release(t))
    ensures Inv(c, init, Do(c, w, Release(t)))
  {
    hide ProgOk, CallOk, Transport.Inv, MemAt, AccAt, XactOk, Burst, Aligned, Config.Ok, Beats, Pow2;
    var mem, st := Replay(init, w.log), w.threads[t].stage;
    assert w.lock == Some(t) && HolderOk(c, mem, w.net, st);
    AtEnd(c, mem, st.call);
    LogSnoc(init, w.log, Entry(t, st.call, st.acc));
  }

  lemma AtEnd(c: Cfg, mem: seq<byte>, call: Call)
    requires CallOk(c, call, |mem|)
    ensures call.End() <= |mem|
    ensures MemAt(mem, call, call.End()) == After(mem, call) && AccAt(mem, call, call.End()) == Answer(mem, call)
  {
    hide Config.Ok, Beats, Pow2;
    if call.WriteCall? { assert call.data[..|call.data|] == call.data; }
  }

  lemma LogSnoc(init: seq<byte>, log: seq<Entry>, e: Entry)
    requires LogInRange(log, |init|) && Legal(init, log) && e.call.End() <= |init|
    requires e.answer == Answer(Replay(init, log), e.call)
    ensures LogInRange(log + [e], |init|) && Legal(init, log + [e])
    ensures Replay(init, log + [e]) == After(Replay(init, log), e.call)
  {
    hide Config.Ok, Beats, Pow2;
    assert (log + [e])[..|log|] == log;
  }

  lemma StepKeeps(c: Cfg, init: seq<byte>, w: World, s: Step)
    requires Inv(c, init, w) && Enabled(c, w, s)
    ensures Inv(c, init, Do(c, w, s))
  {
    hide Config.Ok, Beats, Pow2;
    match s
    case Invoke(t) => InvokeKeeps(c, init, w, t);
    case Acquire(t) => AcquireKeeps(c, init, w, t);
    case Start(t, junk) => StartKeeps(c, init, w, t, junk);
    case Act(t, m) => ActKeeps(c, init, w, t, m);
    case Finish(t) => FinishKeeps(c, init, w, t);
    case Release(t) => ReleaseKeeps(c, init, w, t);
    case Env(m) => EnvKeeps(c, init, w, m);
  }
}
