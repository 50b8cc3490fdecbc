/** One client, one serial manager, and the bounded queues between them, as a transition system.
    The client runs one transaction at a time: it sends all the A-channel beats of the transaction,
    then receives all the D-channel beats of the answer. */
module Protocol {
  import opened Bits
  import opened Messages
  import opened Lanes
  import opened Narrowing
  import opened Chain

  // ---- configuration ----

  /** Link widths, the largest transfer, and the queue depths along each channel. */
  datatype Config = Config(w: LinkWidths, maxBytes: nat, capsA: seq<Depth>, capsD: seq<Depth>) {
    function Beat(): (b: nat)
      ensures b > 0
    {
      w.Beat()
    }

    /** The adapter's width checks, the agent's limits, and a size field that can hold the log
        of every legal transfer. */
    predicate Ok() {
      && w.Accepted() && w.lgBeat <= 5 && 1 <= maxBytes <= 4096
      && |capsA| >= 1 && |capsD| >= 1
      && FloorLog2(maxBytes) < Pow2(w.sizeBits)
    }
  }

  type Cfg = c: Config | c.Ok() witness Config(LinkWidths(1, 0, 1, 1, 1), 1, [1], [1])

  /** Every link the adapter accepts, with any queue depths and any largest transfer the agent accepts
      whose log fits the size field, is a configuration. */
  lemma ConfigAdmits(w: LinkWidths, maxBytes: nat, capsA: seq<Depth>, capsD: seq<Depth>)
    requires 8 * Pow2(w.lgBeat) <= 256 && w.addressBits <= 64 && w.sourceBits <= 32 && w.sinkBits <= 32 && w.sizeBits <= 4
    requires 1 <= maxBytes <= 4096 && FloorLog2(maxBytes) < Pow2(w.sizeBits) && |capsA| >= 1 && |capsD| >= 1
    ensures Config(w, maxBytes, capsA, capsD).Ok()
  {
    Pow2Order(w.lgBeat, 5);
    assert Pow2(5) == 32;
  }

  lemma ConfigBasics(c: Cfg)
    ensures c.maxBytes >= 1 && |c.capsA| >= 1 && |c.capsD| >= 1
  {
  }

  /** Beats of a transfer of `2^lg` bytes. */
  function Beats(c: Cfg, lg: nat): (n: nat)
    ensures n >= 1
  {
    if lg <= c.w.lgBeat then 1 else Pow2(lg - c.w.lgBeat)
  }

  /** Where beat `i` starts within its transfer: `i` beats in. */
  function Off(c: Cfg, i: nat): nat {
    Times(i, c.Beat())
  }

  lemma {:induction false} OffMono(c: Cfg, i: nat, j: nat)
    requires i <= j
    ensures Off(c, i) <= Off(c, j)
    ensures i < j ==> Off(c, i) + c.Beat() <= Off(c, j)
    decreases j
  {
    hide Config.Ok, Beats, Pow2;
    if i < j { OffMono(c, i, j - 1); }
  }

  /** The beats of a transfer of at least a beat fill it exactly. */
  lemma BeatsFill(c: Cfg, lg: nat, i: nat)
    requires c.w.lgBeat <= lg && i <= Beats(c, lg)
    ensures Off(c, Beats(c, lg)) == Pow2(lg) && Off(c, i) <= Pow2(lg)
    ensures i < Beats(c, lg) ==> Off(c, i + 1) <= Pow2(lg)
  {
    PowMultiple(c.w.lgBeat, lg);
    TimesIsProduct(Beats(c, lg), c.Beat());
    OffMono(c, i, Beats(c, lg));
    if lg == c.w.lgBeat { assert Pow2(0) == 1; }
  }

  // ---- the manager ----

  /** A manager that counts beats: it gathers a Put burst, acknowledges it after its last beat,
      or answers a Get beat by beat; it takes no request while it is answering. */
  datatype Phase =
    | Ready
    | Filling(addr: nat, lg: nat, source: nat, done: nat)
    | Acking(lg: nat, source: nat)
    | Replying(addr: nat, lg: nat, source: nat, sent: nat)

  datatype Node = Node(mem: seq<byte>, phase: Phase)

  predicate IsPut(m: MsgA) {
    m.opcode == PUT_FULL_DATA || m.opcode == PUT_PARTIAL_DATA
  }

  predicate Accepts(n: Node, m: MsgA) {
    |m.data| == PAYLOAD && (if m.opcode == GET then n.phase.Ready? else IsPut(m) && (n.phase.Ready? || n.phase.Filling?))
  }

  /** The beat-aligned address at or below `addr`. */
  function BeatBase(c: Cfg, addr: nat): nat {
    LowBitsRange(addr, c.w.lgBeat);
    addr - LowBits(addr, c.w.lgBeat)
  }

  function Accept(c: Cfg, n: Node, m: MsgA): Node
    requires Accepts(n, m)
  {
    if m.opcode == GET then n.(phase := Replying(m.address, m.size, m.source, 0))
    else if n.phase.Filling? then TakeBeat(c, n.mem, n.phase.addr, n.phase.lg, n.phase.source, n.phase.done, m)
    else TakeBeat(c, n.mem, m.address, m.size, m.source, 0, m)
  }

  /** Beat `done` of a burst: store its enabled lanes one beat further on than the last. */
  function TakeBeat(c: Cfg, mem: seq<byte>, addr: nat, lg: nat, source: nat, done: nat, m: MsgA): Node
    requires |m.data| == PAYLOAD
  {
    BeatFits(c.w.lgBeat);
    Node(MaskedStore(mem, BeatBase(c, addr) + Off(c, done), c.Beat(), m.mask, m.data),
         if done + 1 < Beats(c, lg) then Filling(addr, lg, source, done + 1) else Acking(lg, source))
  }

  predicate Owes(n: Node) {
    n.phase.Acking? || n.phase.Replying?
  }

  /** The beat of memory at `base`; bytes beyond the memory read as zero. */
  function ReadBeat(c: Cfg, mem: seq<byte>, base: nat): (d: seq<byte>)
    ensures |d| == c.Beat()
  {
    seq(c.Beat(), j requires 0 <= j < c.Beat() => if base + j < |mem| then mem[base + j] else 0)
  }

  const BLANK_D: MsgD := MsgD(0, 0, 0, 0, 0, 0, 0, Zeros(PAYLOAD))

  /** The next response beat, as the link carries it, and the manager afterwards. */
  function Reply(c: Cfg, n: Node): (r: (MsgD, Node))
    requires Owes(n)
  {
    match n.phase
    case Acking(lg, source) =>
      (OnLinkD(c.w, AccessAckMsg(BLANK_D, source, lg, 0)), n.(phase := Ready))
    case Replying(addr, lg, source, sent) =>
      var data := ReadBeat(c, n.mem, BeatBase(c, addr) + Off(c, sent));
      (OnLinkD(c.w, AccessAckDataMsg(c.w.lgBeat, BLANK_D, source, lg, data, 0)),
       n.(phase := if sent + 1 < Beats(c, lg) then Replying(addr, lg, source, sent + 1) else Ready))
  }

  // ---- the client's transactions ----

  /** `junk` is what the struct's payload held when a Get was sent: `get` does not set it. */
  datatype Xact = Put(addr: nat, lg: nat, data: seq<byte>) | Get(addr: nat, lg: nat, junk: seq<byte>)

  /** A burst the memory interface may issue against a memory of `size` bytes. */
  ghost predicate XactOk(c: Cfg, x: Xact, size: nat) {
    match x
    case Put(addr, lg, data) => BurstOk(c, addr, lg, size) && |data| == Pow2(lg)
    case Get(addr, lg, junk) => BurstOk(c, addr, lg, size) && |junk| == PAYLOAD
  }

  ghost predicate BurstOk(c: Cfg, addr: nat, lg: nat, size: nat) {
    && size <= Pow2(c.w.addressBits)
    && c.w.lgBeat <= lg && Pow2(lg) <= c.maxBytes
    && Aligned(addr, lg) && addr + Pow2(lg) <= size
  }

  function NumA(c: Cfg, x: Xact): nat { if x.Put? then Beats(c, x.lg) else 1 }
  function NumD(c: Cfg, x: Xact): nat { if x.Put? then 1 else Beats(c, x.lg) }

  /** What arrives at the manager for beat `i` of the request. */
  function Request(c: Cfg, x: Xact, size: nat, i: nat): (m: MsgA)
    requires XactOk(c, x, size) && i < NumA(c, x)
  {
    BeatFits(c.w.lgBeat);
    BeatsFill(c, x.lg, if x.Put? then i else 0);
    var payload := if x.Put? then x.data[Off(c, i)..Off(c, i + 1)] else x.junk[..c.Beat()];
    MsgA(if x.Put? then PUT_FULL_DATA else GET, 0, x.lg, 0, 0, x.addr, Pow2(c.Beat()) - 1, Padded(payload))
  }

  /** What arrives at the client for beat `i` of the answer, from memory `mem`. */
  function Response(c: Cfg, x: Xact, mem: seq<byte>, i: nat): (m: MsgD)
    requires XactOk(c, x, |mem|) && i < NumD(c, x)
  {
    BeatFits(c.w.lgBeat);
    BeatsFill(c, x.lg, if x.Put? then 0 else i);
    if x.Put? then MsgD(ACCESS_ACK, 0, x.lg, 0, 0, 0, 0, Zeros(PAYLOAD))
    else MsgD(ACCESS_ACK_DATA, 0, x.lg, 0, 0, 0, 0, Padded(mem[x.addr + Off(c, i)..x.addr + Off(c, i + 1)]))
  }

  function Requests(c: Cfg, x: Xact, size: nat): (ms: seq<MsgA>)
    requires XactOk(c, x, size)
    ensures |ms| == NumA(c, x)
  {
    seq(NumA(c, x), i requires 0 <= i < NumA(c, x) => Request(c, x, size, i))
  }

  function Responses(c: Cfg, x: Xact, mem: seq<byte>): (ms: seq<MsgD>)
    requires XactOk(c, x, |mem|)
    ensures |ms| == NumD(c, x)
  {
    seq(NumD(c, x), i requires 0 <= i < NumD(c, x) => Response(c, x, mem, i))
  }

  /** Memory after the transaction, seen as one access to a flat byte array. */
  function Final(c: Cfg, x: Xact, mem: seq<byte>): (r: seq<byte>)
    requires XactOk(c, x, |mem|)
    ensures |r| == |mem|
  {
    if x.Put? then Store(mem, x.addr, x.data) else mem
  }

  /** The manager when it has taken `j` request beats and sent `k` response beats. */
  function NodeAfter(c: Cfg, x: Xact, mem: seq<byte>, j: nat, k: nat): Node
    requires XactOk(c, x, |mem|) && j <= NumA(c, x) && k <= NumD(c, x)
  {
    if j == 0 then Node(mem, Ready)
    else if j < NumA(c, x) then
      BeatsFill(c, x.lg, j);
      Node(Store(mem, x.addr, x.data[..Off(c, j)]), Filling(x.addr, x.lg, 0, j))
    else if k == NumD(c, x) then Node(Final(c, x, mem), Ready)
    else if x.Put? then Node(Final(c, x, mem), Acking(x.lg, 0))
    else Node(mem, Replying(x.addr, x.lg, 0, k))
  }

  lemma BurstBase(c: Cfg, x: Xact, size: nat)
    requires XactOk(c, x, size)
    ensures BeatBase(c, x.addr) == x.addr
  {
    hide Config.Ok, Beats, Pow2;
    LowBitsAligned(x.addr, x.lg, c.w.lgBeat);
  }

  /** A fully enabled beat is a plain store of its bytes. */
  lemma FullBeat(mem: seq<byte>, base: nat, beat: nat, d: seq<byte>)
    requires |d| == beat <= PAYLOAD && base + beat <= |mem|
    ensures MaskedStore(mem, base, beat, Pow2(beat) - 1, Padded(d)) == Store(mem, base, d)
  {
    hide Config.Ok, Beats, Pow2;
    var mask := Pow2(beat) - 1;
    forall j: nat | j < beat ensures Bit(mask, j) { BitOfLowMask(beat, j); }
    MaskedRun(mem, base, beat, mask, Padded(d), 0, d);
  }

  /** A fully enabled beat of a burst stores its bytes at its place. */
  lemma TakeFull(c: Cfg, mem: seq<byte>, addr: nat, lg: nat, done: nat, d: seq<byte>, m: MsgA)
    requires LowBits(addr, c.w.lgBeat) == 0
    requires |d| == c.Beat() <= PAYLOAD && m.mask == Pow2(c.Beat()) - 1 && m.data == Padded(d)
    requires addr + Off(c, done) + |d| <= |mem|
    ensures TakeBeat(c, mem, addr, lg, 0, done, m)
         == Node(Store(mem, addr + Off(c, done), d),
                 if done + 1 < Beats(c, lg) then Filling(addr, lg, 0, done + 1) else Acking(lg, 0))
  {
    hide MaskedStore, Store, Padded, LowBits, Config.Ok, Beats, Pow2;
    FullBeat(mem, addr + Off(c, done), c.Beat(), d);
  }

  /** Beat `j` of a Put extends what the earlier beats stored. */
  lemma BeatStored(c: Cfg, x: Xact, mem: seq<byte>, j: nat)
    requires XactOk(c, x, |mem|) && x.Put? && j < NumA(c, x)
    ensures Off(c, j) <= Off(c, j + 1) <= |x.data|
    ensures Store(Store(mem, x.addr, x.data[..Off(c, j)]), x.addr + Off(c, j), x.data[Off(c, j)..Off(c, j + 1)])
         == Store(mem, x.addr, x.data[..Off(c, j + 1)])
  {
    hide Aligned, Pow2, Config.Ok, Beats;
    BeatsFill(c, x.lg, j);
    var d := x.data[Off(c, j)..Off(c, j + 1)];
    StoreAppend(mem, x.addr, x.data[..Off(c, j)], d);
    assert x.data[..Off(c, j)] + d == x.data[..Off(c, j + 1)];
  }

  lemma TakePut(c: Cfg, x: Xact, mem: seq<byte>, j: nat)
    requires XactOk(c, x, |mem|) && x.Put? && j < NumA(c, x)
    ensures Off(c, j) <= |x.data|
    ensures TakeBeat(c, Store(mem, x.addr, x.data[..Off(c, j)]), x.addr, x.lg, 0, j, Request(c, x, |mem|, j))
         == NodeAfter(c, x, mem, j + 1, 0)
  {
    hide TakeBeat, NodeAfter, Store, Padded, LowBits;
    BeatsFill(c, x.lg, j);
    BeatFits(c.w.lgBeat);
    BeatStored(c, x, mem, j);
    AfterPut(c, x, mem, j + 1);
    BurstBase(c, x, |mem|);
    var d := x.data[Off(c, j)..Off(c, j + 1)];
    TakeFull(c, Store(mem, x.addr, x.data[..Off(c, j)]), x.addr, x.lg, j, d, Request(c, x, |mem|, j));
  }

  lemma AfterPut(c: Cfg, x: Xact, mem: seq<byte>, j: nat)
    requires XactOk(c, x, |mem|) && x.Put? && 0 < j <= NumA(c, x)
    ensures Off(c, j) <= |x.data|
    ensures NodeAfter(c, x, mem, j, 0) == Node(Store(mem, x.addr, x.data[..Off(c, j)]),
              if j < NumA(c, x) then Filling(x.addr, x.lg, 0, j) else Acking(x.lg, 0))
  {
    hide Config.Ok, Beats, Pow2;
    BeatsFill(c, x.lg, j);
    if j == NumA(c, x) { assert x.data[..Off(c, j)] == x.data; }
  }

  /** The manager takes each request beat as intended. */
  lemma AcceptStep(c: Cfg, x: Xact, mem: seq<byte>, j: nat)
    requires XactOk(c, x, |mem|) && j < NumA(c, x)
    ensures Accepts(NodeAfter(c, x, mem, j, 0), Request(c, x, |mem|, j))
    ensures Accept(c, NodeAfter(c, x, mem, j, 0), Request(c, x, |mem|, j)) == NodeAfter(c, x, mem, j + 1, 0)
  {
    hide Config.Ok, Beats, Pow2;
    if x.Put? {
      TakePut(c, x, mem, j);
      assert Store(mem, x.addr, x.data[..0]) == mem;
    }
  }

  lemma AckOnLink(c: Cfg, lg: nat)
    requires Pow2(lg) <= c.maxBytes
    ensures OnLinkD(c.w, AccessAckMsg(BLANK_D, 0, lg, 0)) == MsgD(ACCESS_ACK, 0, lg, 0, 0, 0, 0, Zeros(PAYLOAD))
  {
    hide Config.Ok, Beats, Pow2;
    LinkZeros(c, lg);
    assert Padded(Zeros(PAYLOAD)[..c.Beat()]) == Zeros(PAYLOAD);
  }

  lemma AckDataOnLink(c: Cfg, lg: nat, d: seq<byte>)
    requires Pow2(lg) <= c.maxBytes && |d| == c.Beat()
    ensures |d| <= PAYLOAD
    ensures OnLinkD(c.w, AccessAckDataMsg(c.w.lgBeat, BLANK_D, 0, lg, d, 0))
         == MsgD(ACCESS_ACK_DATA, 0, lg, 0, 0, 0, 0, Padded(d))
  {
    hide Config.Ok, Beats, Pow2;
    LinkZeros(c, lg);
    assert Store(Zeros(PAYLOAD), 0, d[..c.Beat()])[..c.Beat()] == d;
  }

  /** The constant fields of the messages, and every legal size, pass the link unchanged. */
  lemma LinkZeros(c: Cfg, lg: nat)
    requires Pow2(lg) <= c.maxBytes
    ensures c.Beat() <= PAYLOAD && LowBits(lg, c.w.sizeBits) == lg
    ensures LowBits(0, 1) == LowBits(0, 2) == LowBits(0, 3) == 0
    ensures LowBits(0, c.w.sourceBits) == LowBits(0, c.w.sinkBits) == 0
    ensures LowBits(ACCESS_ACK_DATA, 3) == ACCESS_ACK_DATA && LowBits(GET, 3) == GET
  {
    BeatFits(c.w.lgBeat);
    Pow2Order(lg, FloorLog2(c.maxBytes) + 1);
    LowBitsRange(lg, c.w.sizeBits);
    assert Pow2(3) == 8;
    LowBitsRange(ACCESS_ACK_DATA, 3);
    LowBitsRange(GET, 3);
    ZeroBits(c.w.sourceBits);
    ZeroBits(c.w.sinkBits);
    ZeroBits(1);
    ZeroBits(2);
    ZeroBits(3);
  }

  lemma GetBeat(c: Cfg, x: Xact, mem: seq<byte>, k: nat)
    requires XactOk(c, x, |mem|) && x.Get? && k < NumD(c, x)
    ensures BeatBase(c, x.addr) == x.addr && Pow2(x.lg) <= c.maxBytes && c.Beat() <= PAYLOAD
    ensures Off(c, k + 1) == Off(c, k) + c.Beat() && x.addr + Off(c, k + 1) <= |mem|
    ensures ReadBeat(c, mem, x.addr + Off(c, k)) == mem[x.addr + Off(c, k)..x.addr + Off(c, k + 1)]
  {
    hide Aligned, Pow2, LowBits;
    BurstBase(c, x, |mem|);
    BeatsFill(c, x.lg, k);
    BeatFits(c.w.lgBeat);
  }

  lemma ReplyGet(c: Cfg, x: Xact, mem: seq<byte>, k: nat)
    requires XactOk(c, x, |mem|) && x.Get? && k < NumD(c, x)
    ensures var n := Node(mem, Replying(x.addr, x.lg, 0, k));
      Reply(c, n) == (Response(c, x, mem, k), NodeAfter(c, x, mem, 1, k + 1))
  {
    hide OnLinkD, AccessAckDataMsg, Store, Padded, LowBits, XactOk, ReadBeat, BeatBase, Off, Pow2, Config.Ok, Beats;
    GetBeat(c, x, mem, k);
    AckDataOnLink(c, x.lg, ReadBeat(c, mem, x.addr + Off(c, k)));
  }

  /** Each response beat, and the manager after it, are as intended. */
  lemma ReplyStep(c: Cfg, x: Xact, mem: seq<byte>, k: nat)
    requires XactOk(c, x, |mem|) && k < NumD(c, x)
    ensures Owes(NodeAfter(c, x, mem, NumA(c, x), k))
    ensures Reply(c, NodeAfter(c, x, mem, NumA(c, x), k))
         == (Response(c, x, mem, k), NodeAfter(c, x, mem, NumA(c, x), k + 1))
  {
    hide Config.Ok, Beats, Pow2;
    if x.Get? { ReplyGet(c, x, mem, k); } else { AckOnLink(c, x.lg); }
  }

  lemma {:induction false} ZeroBits(k: nat)
    ensures LowBits(0, k) == 0
  {
    hide Config.Ok, Beats, Pow2;
    if k > 0 { ZeroBits(k - 1); }
  }

  /** Beat `i` of the answer to a Get. */
  lemma GetResponse(c: Cfg, x: Xact, mem: seq<byte>, i: nat)
    requires XactOk(c, x, |mem|) && x.Get? && i < NumD(c, x)
    ensures c.Beat() <= PAYLOAD && x.addr + Off(c, i) + c.Beat() == x.addr + Off(c, i + 1) <= |mem|
    ensures Off(c, i + 1) <= Pow2(x.lg)
    ensures var r := Response(c, x, mem, i);
      && |r.data| == PAYLOAD && r.opcode == ACCESS_ACK_DATA && r.denied == 0
      && r.data[..c.Beat()] == mem[x.addr + Off(c, i)..x.addr + Off(c, i + 1)]
  {
    hide Padded, Pow2, Aligned, Zeros;
    BeatsFill(c, x.lg, i);
    BeatFits(c.w.lgBeat);
    PaddedFront(mem[x.addr + Off(c, i)..x.addr + Off(c, i + 1)]);
  }
}
