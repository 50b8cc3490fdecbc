/** `ClientTLMemIfc`: bulk reads and writes of a byte-addressed memory as TileLink bursts. Each
    method is proved against a flat byte array, for every behaviour of queues and manager. */
module MemIfc {
  import opened Bits
  import opened Messages
  import opened Lanes
  import opened Wire
  import opened Narrowing
  import opened Splitter
  import opened Protocol
  import opened Transport
  import opened Agent
  import opened HostLink
  import opened FlatMemory
  import Chain

  // ---- what the builders' messages become on the link ----

  lemma FullMask(c: Cfg, addr: nat, lg: nat)
    requires c.w.lgBeat <= lg
    ensures AlignMask(c.Beat(), lg, addr) == Pow2(c.Beat()) - 1
  {
    hide Config.Ok, Beats, Pow2;
    Pow2Mono(c.w.lgBeat, lg);
  }

  lemma SmallConstants(c: Cfg, x: Xact, size: nat)
    requires XactOk(c, x, size)
    ensures x.lg <= 12 && x.lg < Pow2(8) && x.addr < Pow2(c.w.addressBits) && x.addr < Pow2(64)
    ensures Pow2(c.Beat()) - 1 < Pow2(32) && GET < Pow2(8) && 0 < Pow2(32)
  {
    assert Pow2(4) == 16;
    Pow2Add(4, 4);
    assert Pow2(12) == 4096;
    Pow2Order(x.lg, 12);
    Pow2Mono(c.w.addressBits, 64);
    BeatFits(c.w.lgBeat);
    Pow2Mono(c.Beat(), 32);
  }

  /** A full-beat put message reaches the manager as beat `i` of the request. */
  lemma PutOnLink(c: Cfg, x: Xact, size: nat, i: nat, prior: MsgA)
    requires XactOk(c, x, size) && x.Put? && i < NumA(c, x) && |prior.data| == PAYLOAD
    ensures Off(c, i) <= Off(c, i) + c.Beat() <= |x.data| && BeatBytes(c.w.lgBeat, x.lg) == c.Beat()
    ensures var m := PutMsg(c.w.lgBeat, prior, 0, x.addr, x.lg, x.data[Off(c, i)..Off(c, i) + c.Beat()]);
      WfA(m) && OnLinkA(c.w, m) == Request(c, x, size, i)
  {
    hide AlignMask, LowBits, Aligned, Pow2;
    BeatsFill(c, x.lg, i);
    BeatFits(c.w.lgBeat);
    Pow2Mono(c.w.lgBeat, x.lg);
    SmallConstants(c, x, size);
    LinkKeeps(c, x, size);
    FullMask(c, x.addr, x.lg);
    var d := x.data[Off(c, i)..Off(c, i) + c.Beat()];
    assert d[..c.Beat()] == d && Store(prior.data, 0, d)[..c.Beat()] == d;
  }

  lemma GetOnLink(c: Cfg, x: Xact, size: nat, prior: MsgA)
    requires XactOk(c, x, size) && x.Get? && prior.data == x.junk
    ensures var m := GetMsg(c.w.lgBeat, prior, 0, x.addr, x.lg);
      WfA(m) && OnLinkA(c.w, m) == Request(c, x, size, 0)
  {
    hide AlignMask, LowBits, Aligned, Pow2;
    BeatFits(c.w.lgBeat);
    SmallConstants(c, x, size);
    LinkKeeps(c, x, size);
    FullMask(c, x.addr, x.lg);
  }

  /** The link keeps address and mask of a legal burst. */
  lemma LinkKeeps(c: Cfg, x: Xact, size: nat)
    requires XactOk(c, x, size)
    ensures LowBits(x.lg, c.w.sizeBits) == x.lg && LowBits(0, 1) == LowBits(0, 3) == 0
    ensures LowBits(0, c.w.sourceBits) == 0 && LowBits(GET, 3) == GET
    ensures LowBits(x.addr, c.w.addressBits) == x.addr
    ensures LowBits(Pow2(c.Beat()) - 1, c.Beat()) == Pow2(c.Beat()) - 1
  {
    hide LowBits, Pow2, Aligned, Config.Ok, Beats;
    LinkZeros(c, x.lg);
    SmallConstants(c, x, size);
    LowBitsRange(x.addr, c.w.addressBits);
    LowBitsRange(Pow2(c.Beat()) - 1, c.Beat());
  }

  // ---- the interface ----

  class ClientTLMemIfc {
    const agent: TLAgent
    const link: Link
    const params: TLBundleParams

    /** Configured for the link's beat and largest transfer, with no transaction under way. */
    ghost predicate Valid()
      reads this, agent, link
    {
      && agent.Configured(link.c.w.lgBeat) && agent.p == params
      && params.maxTransferBytes == link.c.maxBytes
      && link.Valid() && link.client.Idle?
      && |Mem()| <= Pow2(link.c.w.addressBits)
    }

    /** The memory behind the link. */
    ghost function Mem(): seq<byte>
      reads link
    {
      link.net.node.mem
    }

    constructor (agent: TLAgent, link: Link)
      requires agent.Configured(link.c.w.lgBeat) && agent.p.maxTransferBytes == link.c.maxBytes
      requires link.Valid() && link.client.Idle? && |link.net.node.mem| <= Pow2(link.c.w.addressBits)
      ensures this.agent == agent && this.link == link && Valid()
    {
      this.agent, this.link, params := agent, link, agent.p;
    }

    function ChunkAlign(): nat { params.dataBits / 8 }

    function ChunkMaxSize(): nat { params.maxTransferBytes }

    /** What `read_chunk` and `write_chunk` assert of their arguments, and that the range lies
        within the memory. */
    ghost predicate ChunkOk(addr: nat, nbytes: nat)
      reads link
    {
      && ChunkAlign() > 0 && And(addr, ChunkAlign() - 1) == 0
      && ChunkAlign() <= nbytes <= ChunkMaxSize() && nbytes % ChunkAlign() == 0
      && addr + nbytes <= |Mem()|
    }

    /** A chunk's range is in memory, and its pieces are what `Read` and `Write` demand. */
    lemma ChunkFits(taddr: nat, nbytes: nat)
      requires Valid() && ChunkOk(taddr, nbytes)
      ensures taddr + nbytes <= |Mem()| && taddr + nbytes <= WORD64 && nbytes < WORD64
      ensures forall p :: p in Pieces(taddr, nbytes) ==> PieceFits(link.c, p, |Mem()|)
    {
      hide Config.Ok, Beats, Pow2;
      ChunkPieces(link.c, taddr, nbytes, |Mem()|);
    }

    /** Read `nbytes` from `taddr` into the front of `dst`. */
    method ReadChunk(taddr: nat, nbytes: nat, dst: array<byte>)
      requires Valid() && ChunkOk(taddr, nbytes) && nbytes <= dst.Length
      modifies link, dst
      ensures Valid() && Mem() == old(Mem())
      ensures dst[..] == Store(old(dst[..]), 0, old(Mem())[taddr..taddr + nbytes])
    {
      hide Inv, Store, Aligned, Pow2, And, Pieces, Tiles, SelfAligned, ChunkOk, Front;
      ghost var mem := Mem();
      ChunkFits(taddr, nbytes);
      var pieces := ForAlignedChunks(taddr, nbytes);
      var i, done := 0, 0;
      FrontGrows(dst[..], mem, taddr, 0, 0);
      while i < |pieces|
        invariant 0 <= i <= |pieces| && 0 <= done <= nbytes && Valid() && Mem() == mem
        invariant Tiles(pieces[i..], taddr + done, nbytes - done)
        invariant dst[..] == Front(old(dst[..]), mem, taddr, done)
      {
        var p := pieces[i];
        TilesNext(pieces, i, taddr + done, nbytes - done);
        assert PieceFits(link.c, p, |mem|);
        FrontGrows(old(dst[..]), mem, taddr, done, p.len);
        Read(p.addr, p.len, dst, done);
        done := done + p.len;
        i := i + 1;
      }
      TilesNext(pieces, i, taddr + done, nbytes - done);
      FrontIs(old(dst[..]), mem, taddr, nbytes);
    }

    /** Write the first `nbytes` of `src` to `taddr`. */
    method WriteChunk(taddr: nat, nbytes: nat, src: seq<byte>)
      requires Valid() && ChunkOk(taddr, nbytes) && nbytes <= |src|
      modifies link
      ensures Valid() && Mem() == Store(old(Mem()), taddr, src[..nbytes])
    {
      hide Inv, Store, Aligned, Pow2, And, Pieces, Tiles, SelfAligned, ChunkOk;
      ghost var mem := Mem();
      ChunkFits(taddr, nbytes);
      var pieces := ForAlignedChunks(taddr, nbytes);
      var i, done := 0, 0;
      while i < |pieces|
        invariant 0 <= i <= |pieces| && 0 <= done <= nbytes && Valid()
        invariant Tiles(pieces[i..], taddr + done, nbytes - done)
        invariant Mem() == Store(mem, taddr, src[..done])
      {
        var p := pieces[i];
        TilesNext(pieces, i, taddr + done, nbytes - done);
        assert PieceFits(link.c, p, |mem|);
        Write(p.addr, p.len, src, done);
        StoreAppend(mem, taddr, src[..done], src[done..done + p.len]);
        assert src[..done] + src[done..done + p.len] == src[..done + p.len];
        done := done + p.len;
        i := i + 1;
      }
      TilesNext(pieces, i, taddr + done, nbytes - done);
    }

    /** What a clear needs: a beat-aligned range of whole beats within the memory, and, when there is
        more than one chunk, a largest transfer that is itself a multiple of the beat. */
    ghost predicate ClearOk(taddr: nat, nbytes: nat)
      reads link
    {
      && ChunkAlign() > 0 && And(taddr, ChunkAlign() - 1) == 0 && nbytes % ChunkAlign() == 0
      && (nbytes <= ChunkMaxSize() || ChunkMaxSize() % ChunkAlign() == 0)
      && taddr + nbytes <= |Mem()|
    }

    lemma ClearFits(taddr: nat, nbytes: nat)
      requires Valid() && ClearOk(taddr, nbytes)
      ensures Aligned(taddr, link.c.w.lgBeat) && Aligned(nbytes, link.c.w.lgBeat)
      ensures nbytes <= ChunkMaxSize() || Aligned(ChunkMaxSize(), link.c.w.lgBeat)
      ensures taddr + nbytes <= |Mem()| && taddr + nbytes <= WORD64
    {
      hide Inv, Aligned, Pow2, And;
      BeatIsAlign(this);
      ClearStart(link.c, taddr, nbytes, |Mem()|);
      AlignedMod(ChunkMaxSize(), link.c.w.lgBeat);
    }

    /** Each iteration of the clearing loop makes a legal call. */
    lemma ClearChunkOk(curr: nat, remaining: nat, len: nat)
      requires Valid() && Aligned(curr, link.c.w.lgBeat) && Aligned(remaining, link.c.w.lgBeat) && remaining > 0
      requires remaining <= ChunkMaxSize() || Aligned(ChunkMaxSize(), link.c.w.lgBeat)
      requires len == if remaining < ChunkMaxSize() then remaining else ChunkMaxSize()
      requires curr + len <= |Mem()|
      ensures ChunkOk(curr, len)
      ensures Aligned(curr + len, link.c.w.lgBeat) && Aligned(remaining - len, link.c.w.lgBeat)
    {
      hide Inv, Aligned, Pow2, And;
      BeatIsAlign(this);
      AlignedMod(ChunkMaxSize(), link.c.w.lgBeat);
      ClearNext(link.c, curr, remaining, len);
    }

    /** Zero `nbytes` from `taddr`, however many, in chunks of the largest transfer. */
    method ClearChunk(taddr: nat, nbytes: nat)
      requires Valid() && ClearOk(taddr, nbytes)
      modifies link
      ensures Valid() && Mem() == Store(old(Mem()), taddr, Zeros(nbytes))
    {
      hide Inv, Store, Aligned, Pow2, And, Zeros, Wrap64, ClearOk, ChunkOk;
      ghost var mem, lb := Mem(), link.c.w.lgBeat;
      var maxChunk := ChunkMaxSize();
      var zeros := Zeros(maxChunk);
      var curr, remaining := taddr, nbytes;
      ClearFits(taddr, nbytes);
      while remaining > 0
        invariant 0 <= remaining <= nbytes && Valid()
        invariant remaining > 0 ==> curr == taddr + (nbytes - remaining)
        invariant Aligned(taddr + (nbytes - remaining), lb) && Aligned(remaining, lb)
        invariant Mem() == Store(mem, taddr, Zeros(nbytes - remaining))
      {
        var len := if remaining < maxChunk then remaining else maxChunk;
        ClearChunkOk(curr, remaining, len);
        WriteChunk(curr, len, zeros);
        ClearGrows(mem, taddr, nbytes - remaining, len, maxChunk);
        curr := Wrap64(curr + len);
        remaining := remaining - len;
      }
    }

    /** One Get burst, its answer copied to `dst` from `at` on. */
    method Read(addr: nat, len: nat, dst: array<byte>, at: nat)
      requires Valid()
      requires len > 0 && And(len, len - 1) == 0 && And(addr, len - 1) == 0
      requires link.c.Beat() <= len <= link.c.maxBytes && addr + len <= |Mem()|
      requires at + len <= dst.Length
      modifies link, dst
      ensures Valid() && Mem() == old(Mem())
      ensures dst[..] == Store(old(dst[..]), at, old(Mem())[addr..addr + len])
    {
      hide Inv, Response, Request, Store, Aligned, Pow2, Ctz, And, GetMsg, OnLinkA, WfA, Beats, Padded, Zeros, CopiedUpTo, Off;
      ghost var c, mem := link.c, Mem();
      ghost var lg := BurstLog(c, addr, len);
      var beatBytes := params.dataBits / 8;
      var numBeats := len / beatBytes;
      var lgSize := Ctz(len);
      assert numBeats == Beats(c, lg) && beatBytes == c.Beat() && c.w.lgBeat <= lg;
      var tlA := new TLMessageA();
      ghost var x := Xact.Get(addr, lg, tlA.data[..]);
      GetOnLink(c, x, |mem|, tlA.Value());
      agent.Get(tlA, 0, addr, lgSize, c.w.lgBeat);
      link.Begin(x);
      link.SendA(tlA.Value());
      var i := 0;
      CopyStarts(c, x, mem, dst[..], at);
      while i < numBeats
        invariant 0 <= i <= numBeats && link.Valid()
        invariant link.client.Busy? && link.client.x == x && link.client.start == mem && link.client.sent == 1
        invariant |link.client.got| == i
        invariant dst[..] == CopiedUpTo(c, x, mem, i, old(dst[..]), at)
      {
        var tlD := link.RecvD();
        ReadStep(c, x, mem, i, old(dst[..]), at);
        OffIs(c, i, beatBytes);
        assert tlD.opcode == ACCESS_ACK_DATA;
        assert tlD.denied == 0;
        CopyInto(dst, at + i * beatBytes, tlD.data[..beatBytes]);
        i := i + 1;
      }
      CopyEnds(c, x, mem, i, old(dst[..]), at);
      link.End();
    }

    /** One PutFullData burst from `src[at..at + len]`, then its acknowledgement. */
    method Write(addr: nat, len: nat, src: seq<byte>, at: nat)
      requires Valid()
      requires len > 0 && And(len, len - 1) == 0 && And(addr, len - 1) == 0
      requires link.c.Beat() <= len <= link.c.maxBytes && addr + len <= |Mem()|
      requires at + len <= |src|
      modifies link
      ensures Valid() && Mem() == Store(old(Mem()), addr, src[at..at + len])
    {
      hide Inv, Response, Request, Store, Aligned, Pow2, Ctz, And, PutMsg, OnLinkA, WfA, BeatBytes;
      ghost var c, mem := link.c, Mem();
      ghost var lg := BurstLog(c, addr, len);
      var beatBytes := params.dataBits / 8;
      var numBeats := len / beatBytes;
      var lgSize := Ctz(len);
      ghost var x := Xact.Put(addr, lg, src[at..at + len]);
      var tlA := new TLMessageA();
      link.Begin(x);
      var i := 0;
      while i < numBeats
        invariant 0 <= i <= numBeats && link.Valid() && tlA.data.Length == PAYLOAD
        invariant link.client == Busy(x, mem, i, [])
      {
        OffIs(c, i, beatBytes);
        PutOnLink(c, x, |mem|, i, tlA.Value());
        var from := at + i * beatBytes;
        SubSlice(src, at, len, Off(c, i), Off(c, i) + c.Beat());
        agent.Put(tlA, 0, addr, lgSize, src[from..from + beatBytes], c.w.lgBeat);
        link.SendA(tlA.Value());
        i := i + 1;
      }
      var tlD := link.RecvD();
      AckIs(c, x, mem);
      assert tlD.opcode == ACCESS_ACK;
      assert tlD.denied == 0;
      link.End();
    }
  }

  lemma BeatIsAlign(m: ClientTLMemIfc)
    requires m.Valid()
    ensures m.ChunkAlign() == m.link.c.Beat() && m.ChunkMaxSize() == m.link.c.maxBytes
    ensures |m.Mem()| <= Pow2(m.link.c.w.addressBits)
  {
    hide Inv;
  }

  /** `dst` with `n` bytes of memory copied to its front. */
  ghost function Front(dst: seq<byte>, mem: seq<byte>, from: nat, n: nat): (r: seq<byte>)
    requires n <= |dst| && from + n <= |mem|
    ensures |r| == |dst|
  {
    Store(dst, 0, mem[from..from + n])
  }

  lemma FrontGrows(dst: seq<byte>, mem: seq<byte>, from: nat, done: nat, len: nat)
    requires done + len <= |dst| && from + done + len <= |mem|
    ensures Front(dst, mem, from, 0) == dst
    ensures Front(dst, mem, from, done + len)
         == Store(Front(dst, mem, from, done), done, mem[from + done..from + done + len])
  {
    hide Config.Ok, Beats, Pow2;
    ExtendCopy(dst, 0, mem, from, done, len);
  }

  lemma FrontIs(dst: seq<byte>, mem: seq<byte>, from: nat, n: nat)
    requires n <= |dst| && from + n <= |mem|
    ensures Front(dst, mem, from, n) == Store(dst, 0, mem[from..from + n])
  {
  }

  /** Copying the next stretch of memory extends the stretch copied so far. */
  lemma ExtendCopy(dst: seq<byte>, at: nat, mem: seq<byte>, from: nat, done: nat, len: nat)
    requires at + done + len <= |dst| && from + done + len <= |mem|
    ensures Store(Store(dst, at, mem[from..from + done]), at + done, mem[from + done..from + done + len])
         == Store(dst, at, mem[from..from + done + len])
  {
    hide Config.Ok, Beats, Pow2;
    StoreAppend(dst, at, mem[from..from + done], mem[from + done..from + done + len]);
    assert mem[from..from + done] + mem[from + done..from + done + len] == mem[from..from + done + len];
  }

  /** `dst` with the first `i` beats of the answer copied to `at`. */
  ghost function CopiedUpTo(c: Cfg, x: Xact, mem: seq<byte>, i: nat, dst: seq<byte>, at: nat): (r: seq<byte>)
    requires XactOk(c, x, |mem|) && x.Get? && i <= NumD(c, x) && at + Pow2(x.lg) <= |dst|
    ensures |r| == |dst|
  {
    BeatsFill(c, x.lg, i);
    Store(dst, at, mem[x.addr..x.addr + Off(c, i)])
  }

  lemma CopyStarts(c: Cfg, x: Xact, mem: seq<byte>, dst: seq<byte>, at: nat)
    requires XactOk(c, x, |mem|) && x.Get? && at + Pow2(x.lg) <= |dst|
    ensures CopiedUpTo(c, x, mem, 0, dst, at) == dst
  {
    hide Aligned, Pow2, Config.Ok, Beats;
  }

  lemma CopyEnds(c: Cfg, x: Xact, mem: seq<byte>, i: nat, dst: seq<byte>, at: nat)
    requires XactOk(c, x, |mem|) && x.Get? && i == NumD(c, x) && at + Pow2(x.lg) <= |dst|
    ensures CopiedUpTo(c, x, mem, i, dst, at) == Store(dst, at, mem[x.addr..x.addr + Pow2(x.lg)])
  {
    hide Aligned, Pow2, Store, Config.Ok, Beats;
    BeatsFill(c, x.lg, i);
  }

  lemma ReadStep(c: Cfg, x: Xact, mem: seq<byte>, i: nat, dst: seq<byte>, at: nat)
    requires XactOk(c, x, |mem|) && x.Get? && i < NumD(c, x) && at + Pow2(x.lg) <= |dst|
    ensures c.Beat() <= PAYLOAD && at + Off(c, i) + c.Beat() <= |dst|
    ensures BeatRead(c, Response(c, x, mem, i), CopiedUpTo(c, x, mem, i, dst, at), at + Off(c, i),
                     CopiedUpTo(c, x, mem, i + 1, dst, at))
  {
    hide Aligned, Pow2, Store, Response, Config.Ok, Beats;
    GetResponse(c, x, mem, i);
    BeatsFill(c, x.lg, i);
    ExtendCopy(dst, at, mem, x.addr, Off(c, i), c.Beat());
  }

  /** A response beat that, copied to `at` of `dst`, gives `r`. */
  ghost predicate BeatRead(c: Cfg, d: MsgD, dst: seq<byte>, at: nat, r: seq<byte>) {
    && |d.data| == PAYLOAD && d.opcode == ACCESS_ACK_DATA && d.denied == 0
    && c.Beat() <= PAYLOAD && at + c.Beat() <= |dst| && r == Store(dst, at, d.data[..c.Beat()])
  }

  lemma ClearGrows(mem: seq<byte>, taddr: nat, done: nat, len: nat, maxChunk: nat)
    requires taddr + done + len <= |mem| && len <= maxChunk
    ensures Store(Store(mem, taddr, Zeros(done)), taddr + done, Zeros(maxChunk)[..len]) == Store(mem, taddr, Zeros(done + len))
  {
    StoreAppend(mem, taddr, Zeros(done), Zeros(maxChunk)[..len]);
    assert Zeros(done) + Zeros(maxChunk)[..len] == Zeros(done + len);
  }

  lemma ClearStart(c: Cfg, taddr: nat, nbytes: nat, size: nat)
    requires And(taddr, c.Beat() - 1) == 0 && nbytes % c.Beat() == 0
    requires taddr + nbytes <= size <= Pow2(c.w.addressBits)
    ensures Aligned(taddr, c.w.lgBeat) && Aligned(nbytes, c.w.lgBeat) && taddr + nbytes <= WORD64
  {
    MaskTestsAlignment(taddr, c.w.lgBeat);
    AlignedMod(nbytes, c.w.lgBeat);
    Pow2Mono(c.w.addressBits, 64);
    WordIsPow2();
  }

  /** Each iteration of the clearing loop meets what `WriteChunk` demands and keeps alignment. */
  lemma ClearNext(c: Cfg, curr: nat, remaining: nat, len: nat)
    requires Aligned(curr, c.w.lgBeat) && Aligned(remaining, c.w.lgBeat) && remaining > 0
    requires remaining <= c.maxBytes || c.maxBytes % c.Beat() == 0
    requires len == if remaining < c.maxBytes then remaining else c.maxBytes
    ensures And(curr, c.Beat() - 1) == 0 && len % c.Beat() == 0 && c.Beat() <= len
    ensures Aligned(curr + len, c.w.lgBeat) && Aligned(remaining - len, c.w.lgBeat)
  {
    ConfigBasics(c);
    hide Config.Ok, Aligned, And, Pow2;
    MaskTestsAlignment(curr, c.w.lgBeat);
    AlignedMod(remaining, c.w.lgBeat);
    AlignedMod(len, c.w.lgBeat);
    AlignedAtLeast(len, c.w.lgBeat);
    AlignedSum(curr, len, c.w.lgBeat);
    AlignedSum(remaining, len, c.w.lgBeat);
  }

  /** The pieces of a chunk, and that each meets what `Read` and `Write` demand. */
  lemma ChunkPieces(c: Cfg, addr: nat, nbytes: nat, size: nat)
    requires And(addr, c.Beat() - 1) == 0 && nbytes % c.Beat() == 0 && nbytes <= c.maxBytes
    requires addr + nbytes <= size <= Pow2(c.w.addressBits)
    ensures addr + nbytes <= WORD64 && nbytes < WORD64
    ensures forall p :: p in Pieces(addr, nbytes) ==> PieceFits(c, p, size)
  {
    Pow2Mono(c.w.addressBits, 64);
    WordIsPow2();
    MaskTestsAlignment(addr, c.w.lgBeat);
    AlignedMod(nbytes, c.w.lgBeat);
    PiecesLegal(addr, nbytes, c.w.lgBeat, c.maxBytes);
    forall p | p in Pieces(addr, nbytes) ensures PieceFits(c, p, size) {
      assert PieceLegal(p, addr, nbytes, c.w.lgBeat, c.maxBytes);
    }
  }

  /** Of pieces laid end to end, the next starts where the previous ended. */
  lemma TilesNext(ps: seq<Piece>, i: nat, at: nat, left: nat)
    requires i <= |ps| && Tiles(ps[i..], at, left)
    ensures i == |ps| ==> left == 0
    ensures i < |ps| ==> ps[i].addr == at && ps[i].len <= left && Tiles(ps[i + 1..], at + ps[i].len, left - ps[i].len)
  {
    hide Config.Ok, Beats, Pow2;
    if i < |ps| { assert ps[i..][1..] == ps[i + 1..]; }
  }

  ghost predicate PieceFits(c: Cfg, p: Piece, size: nat) {
    && p.len > 0 && And(p.len, p.len - 1) == 0 && And(p.addr, p.len - 1) == 0
    && c.Beat() <= p.len <= c.maxBytes && p.addr + p.len <= size
  }

  lemma SubSlice(s: seq<byte>, at: nat, len: nat, a: nat, b: nat)
    requires at + len <= |s| && a <= b <= len
    ensures s[at..at + len][a..b] == s[at + a..at + b]
  {
    hide Config.Ok, Beats, Pow2;
    var x, y := s[at..at + len][a..b], s[at + a..at + b];
    assert |x| == |y| && forall k :: 0 <= k < |x| ==> x[k] == y[k];
  }

  lemma AckIs(c: Cfg, x: Xact, mem: seq<byte>)
    requires XactOk(c, x, |mem|) && x.Put?
    ensures Response(c, x, mem, 0).opcode == ACCESS_ACK && Response(c, x, mem, 0).denied == 0
  {
  }

  /** A length that is a power of two, with its log; the address is aligned to it. */
  lemma BurstLog(c: Cfg, addr: nat, len: nat) returns (lg: nat)
    requires len > 0 && And(len, len - 1) == 0 && And(addr, len - 1) == 0
    requires c.Beat() <= len <= c.maxBytes
    ensures len == Pow2(lg) && lg == Ctz(len) && lg <= 12 && c.w.lgBeat <= lg && Aligned(addr, lg)
    ensures len / c.Beat() == Beats(c, lg)
  {
    hide Ctz, And, Aligned, Beats, Pow2, Config.Ok;
    AndPredZero(len);
    lg :| Pow2(lg) == len;
    CtzOfPow2(lg);
    MaskTestsAlignment(addr, lg);
    BurstRange(c, lg);
    WholeBeats(c, lg);
  }

  lemma BurstRange(c: Cfg, lg: nat)
    requires c.Beat() <= Pow2(lg) <= c.maxBytes
    ensures c.w.lgBeat <= lg <= 12
  {
    Pow2Order(c.w.lgBeat, lg);
    Pow2Order(lg, 12);
    assert Pow2(12) == 4096;
  }

  lemma WholeBeats(c: Cfg, lg: nat)
    requires c.w.lgBeat <= lg
    ensures Pow2(lg) / c.Beat() == Beats(c, lg)
  {
    PowMultiple(c.w.lgBeat, lg);
    assert Pow2(0) == 1;
  }

  lemma OffIs(c: Cfg, i: nat, beat: nat)
    requires beat == c.Beat()
    ensures i * beat == Off(c, i)
  {
    hide Config.Ok, Beats, Pow2;
    Chain.TimesIsProduct(i, c.Beat());
  }

  // ---- any sequence of calls ----

  /** Each call of the sequence is one its method may be called with. */
  ghost predicate OpsOk(m: ClientTLMemIfc, ops: seq<Op>)
    reads m.link
  {
    forall i :: 0 <= i < |ops| ==> OpOk(m.link.c, ops[i], |m.Mem()|)
  }

  lemma ReadOkIff(m: ClientTLMemIfc, addr: nat, n: nat)
    requires m.Valid()
    ensures m.ChunkOk(addr, n) <==> CallOk(m.link.c, ReadCall(addr, n), |m.Mem()|)
  {
    BeatIsAlign(m);
    hide Config.Ok, ClientTLMemIfc.Valid, ClientTLMemIfc.ChunkAlign, ClientTLMemIfc.ChunkMaxSize, And, Inv, Pow2;
  }

  lemma WriteOkIff(c: Cfg, addr: nat, data: seq<byte>, size: nat)
    ensures CallOk(c, ReadCall(addr, |data|), size) <==> CallOk(c, WriteCall(addr, data), size)
  {
    hide Config.Ok, Config.Beat, And, Pow2;
  }

  lemma ClearOkIff(m: ClientTLMemIfc, addr: nat, n: nat)
    requires m.Valid()
    ensures m.ClearOk(addr, n) <==> OpOk(m.link.c, ClearOp(addr, n), |m.Mem()|)
  {
    BeatIsAlign(m);
    hide Config.Ok, ClientTLMemIfc.Valid, ClientTLMemIfc.ChunkAlign, ClientTLMemIfc.ChunkMaxSize, And, Inv, Pow2;
  }

  /** What `ReadChunk`, `WriteChunk` and `ClearChunk` require is exactly what makes a call legal. */
  lemma ChunkOkIff(m: ClientTLMemIfc, addr: nat, data: seq<byte>)
    requires m.Valid()
    ensures m.ChunkOk(addr, |data|) <==> CallOk(m.link.c, ReadCall(addr, |data|), |m.Mem()|)
    ensures m.ChunkOk(addr, |data|) <==> CallOk(m.link.c, WriteCall(addr, data), |m.Mem()|)
    ensures m.ClearOk(addr, |data|) <==> OpOk(m.link.c, ClearOp(addr, |data|), |m.Mem()|)
  {
    ReadOkIff(m, addr, |data|);
    WriteOkIff(m.link.c, addr, data, |m.Mem()|);
    ClearOkIff(m, addr, |data|);
    hide CallOk, OpOk, ClientTLMemIfc.ChunkOk, ClientTLMemIfc.ClearOk, ClientTLMemIfc.Valid;
  }

  /** One call of a caller. */
  method CallOne(m: ClientTLMemIfc, op: Op) returns (answer: seq<byte>)
    requires m.Valid() && OpOk(m.link.c, op, |m.Mem()|)
    modifies m.link
    ensures m.Valid() && Meaning(op).End() <= |old(m.Mem())|
    ensures m.Mem() == After(old(m.Mem()), Meaning(op)) && answer == Answer(old(m.Mem()), Meaning(op))
  {
    hide And, Store, Zeros, Inv;
    BeatIsAlign(m);
    ghost var before := m.Mem();
    answer := [];
    match op
    case ReadOp(addr, n) =>
      var dst := new byte[n];
      ghost var blank := dst[..];
      m.ReadChunk(addr, n, dst);
      answer := dst[..];
      WholeStore(blank, before[addr..addr + n]);
    case WriteOp(addr, data) =>
      m.WriteChunk(addr, |data|, data);
      assert data[..|data|] == data;
    case ClearOp(addr, n) =>
      m.ClearChunk(addr, n);
  }

  /** Driving the interface through any sequence of reads, writes and clears returns exactly the
      bytes, and leaves exactly the memory, of a flat byte array. */
  method CallAll(m: ClientTLMemIfc, ops: seq<Op>) returns (answers: seq<seq<byte>>)
    requires m.Valid() && OpsOk(m, ops)
    modifies m.link
    ensures m.Valid() && InRange(ops, |old(m.Mem())|)
    ensures m.Mem() == MemAfter(old(m.Mem()), ops) && answers == Answers(old(m.Mem()), ops)
  {
    hide And, Inv, After, Answer, Meaning, MemAfter, Answers;
    ghost var mem := m.Mem();
    answers := [];
    var i := 0;
    NoCalls(mem, ops[..0]);
    while i < |ops|
      invariant 0 <= i <= |ops| && m.Valid() && |m.Mem()| == |mem| && OpsOk(m, ops)
      invariant InRange(ops[..i], |mem|)
      invariant m.Mem() == MemAfter(mem, ops[..i]) && answers == Answers(mem, ops[..i])
    {
      assert OpOk(m.link.c, ops[i], |m.Mem()|);
      var answer := CallOne(m, ops[i]);
      OneMore(mem, ops, i);
      answers := answers + [answer];
      i := i + 1;
    }
    assert ops[..i] == ops;
  }

  lemma NoCalls(mem: seq<byte>, ops: seq<Op>)
    requires ops == []
    ensures MemAfter(mem, ops) == mem && Answers(mem, ops) == []
  {
  }

  /** The first `i + 1` calls are the first `i` and then one more. */
  lemma OneMore(mem: seq<byte>, ops: seq<Op>, i: nat)
    requires i < |ops| && InRange(ops[..i], |mem|) && Meaning(ops[i]).End() <= |mem|
    ensures InRange(ops[..i + 1], |mem|)
    ensures MemAfter(mem, ops[..i + 1]) == After(MemAfter(mem, ops[..i]), Meaning(ops[i]))
    ensures Answers(mem, ops[..i + 1]) == Answers(mem, ops[..i]) + [Answer(MemAfter(mem, ops[..i]), Meaning(ops[i]))]
  {
    hide After, Answer, Meaning, MemAfter, Answers, Config.Ok, Beats, Pow2;
    var more := ops[..i + 1];
    assert more[..|more| - 1] == ops[..i] && more[|more| - 1] == ops[i];
    LastCall(mem, more);
  }

  lemma LastCall(mem: seq<byte>, ops: seq<Op>)
    requires ops != [] && InRange(ops[..|ops| - 1], |mem|) && Meaning(ops[|ops| - 1]).End() <= |mem|
    ensures InRange(ops, |mem|)
    ensures var before, op := ops[..|ops| - 1], Meaning(ops[|ops| - 1]);
      && MemAfter(mem, ops) == After(MemAfter(mem, before), op)
      && Answers(mem, ops) == Answers(mem, before) + [Answer(MemAfter(mem, before), op)]
  {
    hide After, Answer, Meaning, Config.Ok, Beats, Pow2;
    forall i | 0 <= i < |ops| ensures Meaning(ops[i]).End() <= |mem| {
      if i < |ops| - 1 { assert ops[..|ops| - 1][i] == ops[i]; }
    }
  }

  lemma WholeStore(s: seq<byte>, d: seq<byte>)
    requires |s| == |d|
    ensures Store(s, 0, d) == d
  {
  }
}
