/** What the far end of a link makes of the messages the builders fill in: the bytes of the structs,
    and what a manager that takes them stores and answers, for every source, size and address. */
module FarEnd {
  import opened Bits
  import opened Messages
  import opened Lanes
  import opened Wire
  import opened Narrowing
  import opened Protocol

  // ---- the structs, byte by byte ----

  /** Four bytes, least significant first. */
  function Le32(b: seq<byte>): nat
    requires |b| == 4
  {
    var b0: nat, b1: nat, b2: nat, b3: nat := b[0], b[1], b[2], b[3];
    b0 + 0x100 * b1 + 0x1_0000 * b2 + 0x100_0000 * b3
  }

  lemma Le32IsLeNum(b: seq<byte>)
    requires |b| == 4
    ensures LeNum(b) == Le32(b)
  {
    assert LeNum(b[1..][1..][1..]) == b[3] by { assert b[1..][1..][1..][1..] == []; }
    assert LeNum(b[1..][1..]) == b[2] + 256 * LeNum(b[1..][1..][1..]);
    assert LeNum(b[1..]) == b[1] + 256 * LeNum(b[1..][1..]);
  }

  lemma Le8IsLeNum(b: seq<byte>)
    requires |b| == 1
    ensures LeNum(b) == b[0]
  {
    assert b[1..] == [];
  }

  /** Where the fields of a request stand in its 52 bytes. */
  lemma RequestBytes(m: MsgA)
    requires WfA(m)
    ensures |StructA(m)| == 52
    ensures var b := StructA(m);
      && b[0] == m.opcode && b[1] == m.param && b[2] == m.size && b[3] == m.corrupt
      && Le32(b[4..8]) == m.source && LeNum(b[8..16]) == m.address && Le32(b[16..20]) == m.mask && b[20..52] == m.data
  {
    ParseStructA(m);
    hide StructA, LeNum, Le32;
    var b := StructA(m);
    Le8IsLeNum(b[..1]);
    Le8IsLeNum(b[1..2]);
    Le8IsLeNum(b[2..3]);
    Le8IsLeNum(b[3..4]);
    Le32IsLeNum(b[4..8]);
    Le32IsLeNum(b[16..20]);
  }

  /** Where the fields of a response stand. */
  lemma ResponseBytes(m: MsgD, reserved: seq<byte>)
    requires WfD(m) && |reserved| == 7
    ensures |StructD(m, reserved)| == 52
    ensures var b := StructD(m, reserved);
      && b[0] == m.opcode && b[1] == m.param && b[2] == m.size && b[3] == m.corrupt
      && Le32(b[4..8]) == m.source && Le32(b[8..12]) == m.sink && b[12] == m.denied && b[13..45] == m.data
  {
    ParseStructD(m, reserved);
    hide StructD, LeNum, Le32;
    var b := StructD(m, reserved);
    Le8IsLeNum(b[..1]);
    Le8IsLeNum(b[1..2]);
    Le8IsLeNum(b[2..3]);
    Le8IsLeNum(b[3..4]);
    Le8IsLeNum(b[12..13]);
    Le32IsLeNum(b[4..8]);
    Le32IsLeNum(b[8..12]);
  }

  lemma AlignMaskFits(lgBeat: nat, lgSize: nat, addr: nat)
    requires lgBeat <= 5
    ensures AlignMask(Pow2(lgBeat), lgSize, addr) < Pow2(32)
  {
    hide Pow2, LowBits;
    BeatFits(lgBeat);
    Pow2Mono(Pow2(lgBeat), 32);
    ShiftFits(Pow2(lgBeat), Pow2(Pow2(lgSize)) - 1, lgSize, addr);
  }

  lemma ShiftFits(beat: nat, mask: nat, lgSize: nat, addr: nat)
    requires beat > 0
    ensures ShiftedMask(beat, mask, lgSize, addr) < Pow2(32)
  {
    hide Pow2, LowBits, And, Shr;
    LowBitsRange(mask * Pow2(Shr(And(addr, beat - 1), lgSize) * Pow2(lgSize)), 32);
  }

  lemma SizeByte(lgSize: nat)
    requires lgSize <= 12
    ensures lgSize < Pow2(8)
  {
    assert Pow2(4) == 16;
    Pow2Add(4, 4);
  }

  /** `put` on the wire: PutFullData is opcode 0, and the payload stands at the transfer's lane. */
  lemma PutBytes(lgBeat: nat, prior: MsgA, source: nat, addr: nat, lgSize: nat, data: seq<byte>)
    requires lgBeat <= 5 && lgSize <= 12 && (lgSize < lgBeat ==> Aligned(addr, lgSize)) && |prior.data| == PAYLOAD
    requires BeatBytes(lgBeat, lgSize) <= |data| && source < Pow2(32) && addr < Pow2(64)
    ensures var m := PutMsg(lgBeat, prior, source, addr, lgSize, data);
      && WfA(m) && |StructA(m)| == 52
      && var b := StructA(m); var o, n := StartLane(lgBeat, lgSize, addr), BeatBytes(lgBeat, lgSize);
        && b[0] == 0 && b[1] == 0 && b[2] == lgSize && b[3] == 0
        && Le32(b[4..8]) == source && LeNum(b[8..16]) == addr && Le32(b[16..20]) == AlignMask(Pow2(lgBeat), lgSize, addr)
        && b[20..52] == Store(prior.data, o, data[..n])
  {
    hide AlignMask, BeatBytes, StartLane, Le32, LeNum, StructA, Store, Pow2, Aligned;
    SizeByte(lgSize);
    AlignMaskFits(lgBeat, lgSize, addr);
    Pow2Mono(0, 8);
    Pow2Zero();
    RequestBytes(PutMsg(lgBeat, prior, source, addr, lgSize, data));
  }

  lemma Pow2Zero()
    ensures Pow2(0) == 1 && Pow2(1) == 2 && Pow2(3) == 8 && Pow2(8) > 4
  {
    Pow2Mono(3, 8);
  }

  /** `get` on the wire: opcode 4, the payload bytes not set. */
  lemma GetBytes(lgBeat: nat, prior: MsgA, source: nat, addr: nat, lgSize: nat)
    requires lgBeat <= 5 && lgSize <= 12 && |prior.data| == PAYLOAD && source < Pow2(32) && addr < Pow2(64)
    ensures var m := GetMsg(lgBeat, prior, source, addr, lgSize);
      && WfA(m) && |StructA(m)| == 52
      && var b := StructA(m);
        && b[0] == 4 && b[1] == 0 && b[2] == lgSize && b[3] == 0
        && Le32(b[4..8]) == source && LeNum(b[8..16]) == addr && Le32(b[16..20]) == AlignMask(Pow2(lgBeat), lgSize, addr)
        && b[20..52] == prior.data
  {
    hide AlignMask, Le32, LeNum, StructA, Pow2;
    SizeByte(lgSize);
    AlignMaskFits(lgBeat, lgSize, addr);
    Pow2Zero();
    RequestBytes(GetMsg(lgBeat, prior, source, addr, lgSize));
  }

  /** `putPartial` on the wire: opcode 1; a zero mask leaves the payload bytes as they were. */
  lemma PutPartialBytes(lgBeat: nat, prior: MsgA, source: nat, addr: nat, lgSize: nat, mask: nat, data: seq<byte>)
    requires lgBeat <= 5 && lgSize <= 12 && |prior.data| == PAYLOAD && BeatBytes(lgBeat, lgSize) <= |data|
    requires source < Pow2(32) && addr < Pow2(64) && mask < Pow2(32)
    ensures var m := PutPartialMsg(lgBeat, prior, source, addr, lgSize, mask, data);
      && WfA(m) && |StructA(m)| == 52
      && var b := StructA(m);
        && b[0] == 1 && b[1] == 0 && b[2] == lgSize && b[3] == 0
        && Le32(b[4..8]) == source && LeNum(b[8..16]) == addr && Le32(b[16..20]) == m.mask && b[20..52] == m.data
        && (mask == 0 ==> m.mask == 0 && m.data == prior.data)
        && (mask != 0 && lgSize >= lgBeat ==> m.mask == mask && m.data[..Pow2(lgBeat)] == data[..Pow2(lgBeat)])
        && (mask != 0 && lgSize < lgBeat ==> m.mask == ShiftedMask(Pow2(lgBeat), mask, lgSize, addr))
  {
    hide ShiftedMask, Le32, LeNum, StructA, Pow2, CopyClipped, FirstBitSet;
    SizeByte(lgSize);
    Pow2Order(lgSize, lgBeat);
    BeatFits(lgBeat);
    ShiftFits(Pow2(lgBeat), mask, lgSize, addr);
    Pow2Zero();
    RequestBytes(PutPartialMsg(lgBeat, prior, source, addr, lgSize, mask, data));
  }

  /** `accessAckData` on the wire: opcode 1, one beat of data first, the denied flag as given. */
  lemma AckDataBytes(lgBeat: nat, prior: MsgD, source: nat, lgSize: nat, data: seq<byte>, denied: nat, reserved: seq<byte>)
    requires lgBeat <= 5 && lgSize <= 12 && |prior.data| == PAYLOAD && Pow2(lgBeat) <= |data| && |reserved| == 7
    requires source < Pow2(32) && denied < Pow2(8)
    ensures var m := AccessAckDataMsg(lgBeat, prior, source, lgSize, data, denied);
      && WfD(m) && |StructD(m, reserved)| == 52
      && var b := StructD(m, reserved);
        && b[0] == 1 && b[1] == 0 && b[2] == lgSize && b[3] == 0
        && Le32(b[4..8]) == source && Le32(b[8..12]) == 0 && b[12] == denied
        && b[13..45] == Store(prior.data, 0, data[..Pow2(lgBeat)])
  {
    hide Le32, LeNum, StructD, Store, Pow2;
    SizeByte(lgSize);
    Pow2Zero();
    ResponseBytes(AccessAckDataMsg(lgBeat, prior, source, lgSize, data, denied), reserved);
  }

  /** `accessAck` on the wire: opcode 0, the payload bytes not set, the denied flag as given. */
  lemma AckBytes(prior: MsgD, source: nat, lgSize: nat, denied: nat, reserved: seq<byte>)
    requires lgSize <= 12 && |prior.data| == PAYLOAD && |reserved| == 7 && source < Pow2(32) && denied < Pow2(8)
    ensures var m := AccessAckMsg(prior, source, lgSize, denied);
      && WfD(m) && |StructD(m, reserved)| == 52
      && var b := StructD(m, reserved);
        && b[0] == 0 && b[1] == 0 && b[2] == lgSize && b[3] == 0
        && Le32(b[4..8]) == source && Le32(b[8..12]) == 0 && b[12] == denied && b[13..45] == prior.data
  {
    hide Le32, LeNum, StructD, Pow2;
    SizeByte(lgSize);
    Pow2Zero();
    ResponseBytes(AccessAckMsg(prior, source, lgSize, denied), reserved);
  }

  // ---- what a manager does with a request ----

  /** The fields of a request that fit the link arrive as sent. */
  ghost predicate FitsRequest(c: Cfg, source: nat, addr: nat, lgSize: nat) {
    Pow2(lgSize) <= c.maxBytes && source < Pow2(c.w.sourceBits) && addr < Pow2(c.w.addressBits)
  }

  lemma RequestArrives(c: Cfg, m: MsgA)
    requires |m.data| == PAYLOAD && FitsRequest(c, m.source, m.address, m.size) && m.opcode < 8
    ensures c.Beat() <= PAYLOAD && m.size <= 12
    ensures var r := OnLinkA(c.w, m);
      && r.opcode == m.opcode && r.size == m.size && r.source == m.source && r.address == m.address
      && r.mask == LowBits(m.mask, c.Beat()) && r.data == Padded(m.data[..c.Beat()])
  {
    hide Pow2, LowBits, Padded;
    LinkZeros(c, m.size);
    Pow2Zero();
    LowBitsRange(m.opcode, 3);
    LowBitsRange(m.source, c.w.sourceBits);
    LowBitsRange(m.address, c.w.addressBits);
    SizeSmall(c, m.size);
  }

  lemma SizeSmall(c: Cfg, lgSize: nat)
    requires Pow2(lgSize) <= c.maxBytes
    ensures lgSize <= 12
  {
    Pow2Order(lgSize, 12);
    assert Pow2(12) == 4096;
  }

  /** Of mask and payload the manager uses exactly the lanes of the beat, which the link keeps. */
  lemma LinkStores(mem: seq<byte>, base: nat, beat: nat, mask: nat, data: seq<byte>)
    requires beat <= PAYLOAD == |data|
    ensures MaskedStore(mem, base, beat, LowBits(mask, beat), Padded(data[..beat])) == MaskedStore(mem, base, beat, mask, data)
  {
    hide Bit, LowBits;
    var l, r := MaskedStore(mem, base, beat, LowBits(mask, beat), Padded(data[..beat])), MaskedStore(mem, base, beat, mask, data);
    forall b | 0 <= b < |mem| ensures l[b] == r[b] {
      if base <= b < base + beat { BitOfLowBits(mask, beat, b - base); }
    }
  }

  /** A put request a manager takes while ready: it stores the enabled lanes of the beat, and keeps
      source and size for its answer. */
  lemma TakesPut(c: Cfg, mem: seq<byte>, m: MsgA)
    requires |m.data| == PAYLOAD && FitsRequest(c, m.source, m.address, m.size) && (m.opcode == 0 || m.opcode == 1)
    ensures c.Beat() <= PAYLOAD
    ensures var n, r := Node(mem, Ready), OnLinkA(c.w, m);
      && Accepts(n, r)
      && Accept(c, n, r) == Node(MaskedStore(mem, BeatBase(c, m.address), c.Beat(), m.mask, m.data),
           if Beats(c, m.size) == 1 then Acking(m.size, m.source) else Filling(m.address, m.size, m.source, 1))
  {
    hide OnLinkA, MaskedStore, LowBits, Pow2, Padded, BeatBase;
    RequestArrives(c, m);
    LinkStores(mem, BeatBase(c, m.address), c.Beat(), m.mask, m.data);
    OffZero(c);
  }

  lemma OffZero(c: Cfg)
    ensures Off(c, 0) == 0
  {
  }

  /** A manager that takes a `put` of any size stores its bytes at its address and nothing else, and
      answers one of at most a beat to that source with that size. */
  lemma PutAtManager(c: Cfg, prior: MsgA, source: nat, addr: nat, lgSize: nat, data: seq<byte>, mem: seq<byte>)
    requires FitsRequest(c, source, addr, lgSize) && Aligned(addr, lgSize) && |prior.data| == PAYLOAD
    requires BeatBytes(c.w.lgBeat, lgSize) <= |data| && BeatBase(c, addr) + c.Beat() <= |mem|
    ensures var n := BeatBytes(c.w.lgBeat, lgSize);
      && addr + n <= |mem|
      && var node, r := Node(mem, Ready), OnLinkA(c.w, PutMsg(c.w.lgBeat, prior, source, addr, lgSize, data));
        && Accepts(node, r)
        && Accept(c, node, r) == Node(Store(mem, addr, data[..n]),
             if Beats(c, lgSize) == 1 then Acking(lgSize, source) else Filling(addr, lgSize, source, 1))
  {
    hide MaskedStore, Store, LowBits, Pow2, OnLinkA, Aligned, AlignMask, StartLane, BeatBytes, Accept, Accepts;
    var m := PutMsg(c.w.lgBeat, prior, source, addr, lgSize, data);
    TakesPut(c, mem, m);
    PutMeaning(mem, BeatBase(c, addr), c.w.lgBeat, prior, source, addr, lgSize, data);
  }

  /** The answer to a put: opcode 0, to the source and with the size it was taken with, not denied. */
  lemma AckAtClient(c: Cfg, mem: seq<byte>, source: nat, lgSize: nat)
    requires Pow2(lgSize) <= c.maxBytes && source < Pow2(c.w.sourceBits)
    ensures var r := Reply(c, Node(mem, Acking(lgSize, source)));
      && r.0.opcode == 0 && r.0.size == lgSize && r.0.source == source && r.0.denied == 0 && r.0.corrupt == 0
      && r.1 == Node(mem, Ready)
  {
    hide Pow2, LowBits, Padded;
    LinkZeros(c, lgSize);
    LowBitsRange(source, c.w.sourceBits);
  }

  // ---- partial puts ----

  /** The bytes a sub-beat `putPartial` really presents at the bytes of the transfer: the payload is
      copied to the first enabled one, so all of it lags by that many. */
  function Lagged(lgBeat: nat, lgSize: nat, mask: nat, data: seq<byte>): (r: seq<byte>)
    requires BeatBytes(lgBeat, lgSize) <= |data|
    ensures |r| == BeatBytes(lgBeat, lgSize)
  {
    var n := BeatBytes(lgBeat, lgSize);
    if mask == 0 || lgSize >= lgBeat then data[..n]
    else seq(n, k requires 0 <= k < n => if k >= Ctz(mask) then data[k - Ctz(mask)] else 0)
  }

  lemma ClippedAt(prior: seq<byte>, at: nat, d: seq<byte>, j: nat)
    requires at <= j < at + |d| && j < |prior|
    ensures CopyClipped(prior, at, d)[j] == d[j - at]
  {
  }

  /** A full-beat partial put presents the payload as it is. */
  lemma FullAt(lgBeat: nat, prior: MsgA, addr: nat, lgSize: nat, mask: nat, data: seq<byte>, j: nat)
    requires lgBeat <= lgSize && lgBeat <= 5 && |prior.data| == PAYLOAD && j < Pow2(lgBeat) <= |data|
    requires mask != 0 && BeatBytes(lgBeat, lgSize) <= |data|
    ensures j < PAYLOAD && PutPartialMsg(lgBeat, prior, 0, addr, lgSize, mask, data).data[j] == data[j]
  {
    hide ShiftedMask, Pow2, FirstBitSet, CopyClipped;
    BeatFits(lgBeat);
    Pow2Order(lgSize, lgBeat);
  }

  lemma LaggedLane(lgBeat: nat, prior: MsgA, source: nat, addr: nat, lgSize: nat, mask: nat, data: seq<byte>, j: nat)
    requires lgBeat <= 5 && Aligned(addr, lgSize) && |prior.data| == PAYLOAD && j < Pow2(lgBeat)
    requires MaskInTransfer(lgBeat, lgSize, mask) && BeatBytes(lgBeat, lgSize) <= |data|
    ensures var m := PutPartialMsg(lgBeat, prior, source, addr, lgSize, mask, data);
      LaneCoincides(m.mask, m.data, LowBits(addr, lgBeat), BeatBytes(lgBeat, lgSize), mask,
                    Lagged(lgBeat, lgSize, mask, data), j)
  {
    hide PutPartialMsg, CopyClipped, MaskInTransfer, Bit, LowBits, Ctz, Pow2, Aligned, BeatBytes;
    var m := PutPartialMsg(lgBeat, prior, 0, addr, lgSize, mask, data);
    var o, n := LowBits(addr, lgBeat), BeatBytes(lgBeat, lgSize);
    SourceIsCarried(lgBeat, prior, source, addr, lgSize, mask, data);
    PutPartialLanes(lgBeat, prior, addr, lgSize, mask, data, j);
    Pow2Order(lgSize, lgBeat);
    if Bit(m.mask, j) {
      if mask == 0 {
        BitOfZero(j - o);
      } else if lgSize < lgBeat {
        CtzIsLowestBit(mask, j - o);
        ClippedAt(prior.data, o + Ctz(mask), data[..n], j);
      } else {
        LowBitsAligned(addr, lgSize, lgBeat);
        FullAt(lgBeat, prior, addr, lgSize, mask, data, j);
      }
    }
  }

  /** The source has no influence on mask and payload. */
  lemma SourceIsCarried(lgBeat: nat, prior: MsgA, source: nat, addr: nat, lgSize: nat, mask: nat, data: seq<byte>)
    requires lgBeat <= 5 && |prior.data| == PAYLOAD && BeatBytes(lgBeat, lgSize) <= |data|
    ensures PutPartialMsg(lgBeat, prior, source, addr, lgSize, mask, data)
         == PutPartialMsg(lgBeat, prior, 0, addr, lgSize, mask, data).(source := source)
  {
    hide ShiftedMask, Pow2, FirstBitSet, CopyClipped, Store;
  }

  /** A manager that takes a `putPartial` of any size stores, for each mask bit `k`, the lagged byte
      `k` at `addr + k`, and nothing else; with the first byte enabled that is `data[k]`. It answers
      one of at most a beat to that source with that size. */
  lemma PutPartialAtManager(c: Cfg, prior: MsgA, source: nat, addr: nat, lgSize: nat, mask: nat, data: seq<byte>, mem: seq<byte>)
    requires FitsRequest(c, source, addr, lgSize) && Aligned(addr, lgSize) && |prior.data| == PAYLOAD
    requires MaskInTransfer(c.w.lgBeat, lgSize, mask) && BeatBytes(c.w.lgBeat, lgSize) <= |data|
    ensures var n := BeatBytes(c.w.lgBeat, lgSize); var at := BeatBase(c, addr) + LowBits(addr, c.w.lgBeat);
      && at == addr
      && var node, r := Node(mem, Ready), OnLinkA(c.w, PutPartialMsg(c.w.lgBeat, prior, source, addr, lgSize, mask, data));
        && Accepts(node, r)
        && Accept(c, node, r) == Node(MaskedStore(mem, addr, n, mask, Lagged(c.w.lgBeat, lgSize, mask, data)),
             if Beats(c, lgSize) == 1 then Acking(lgSize, source) else Filling(addr, lgSize, source, 1))
    ensures mask % 2 == 1 ==> Lagged(c.w.lgBeat, lgSize, mask, data) == data[..BeatBytes(c.w.lgBeat, lgSize)]
  {
    hide MaskedStore, LowBits, Pow2, OnLinkA, Aligned, PutPartialMsg, BeatBytes, Accept, Accepts, LaneCoincides, Lagged;
    var lb := c.w.lgBeat;
    var m := PutPartialMsg(lb, prior, source, addr, lgSize, mask, data);
    var o, n, late := LowBits(addr, lb), BeatBytes(lb, lgSize), Lagged(lb, lgSize, mask, data);
    PartialFields(lb, prior, source, addr, lgSize, mask, data);
    TakesPut(c, mem, m);
    PutLaneIs(lb, lgSize, addr);
    LowBitsRange(addr, lb);
    forall j: nat | j < Pow2(lb) ensures LaneCoincides(m.mask, m.data, o, n, mask, late, j) {
      LaggedLane(lb, prior, source, addr, lgSize, mask, data, j);
    }
    SameLanes(mem, BeatBase(c, addr), c.Beat(), m.mask, m.data, o, n, mask, late);
    if mask % 2 == 1 { NotLate(lb, lgSize, mask, data); }
  }

  lemma PartialFields(lgBeat: nat, prior: MsgA, source: nat, addr: nat, lgSize: nat, mask: nat, data: seq<byte>)
    requires lgBeat <= 5 && |prior.data| == PAYLOAD && BeatBytes(lgBeat, lgSize) <= |data|
    ensures var m := PutPartialMsg(lgBeat, prior, source, addr, lgSize, mask, data);
      m.opcode == 1 && m.size == lgSize && m.source == source && m.address == addr && |m.data| == PAYLOAD
  {
    hide ShiftedMask, Pow2, FirstBitSet, CopyClipped, Store;
  }

  lemma NotLate(lgBeat: nat, lgSize: nat, mask: nat, data: seq<byte>)
    requires mask % 2 == 1 && BeatBytes(lgBeat, lgSize) <= |data|
    ensures Lagged(lgBeat, lgSize, mask, data) == data[..BeatBytes(lgBeat, lgSize)]
  {
    hide BeatBytes;
    assert Ctz(mask) == 0;
  }

  // ---- gets ----

  /** A manager that takes a `get` of any size sees exactly the lanes of the transfer enabled, and
      answers its address and size to its source. */
  lemma GetAtManager(c: Cfg, prior: MsgA, source: nat, addr: nat, lgSize: nat, mem: seq<byte>, i: nat)
    requires FitsRequest(c, source, addr, lgSize) && Aligned(addr, lgSize) && |prior.data| == PAYLOAD
    ensures var node, r := Node(mem, Ready), OnLinkA(c.w, GetMsg(c.w.lgBeat, prior, source, addr, lgSize));
      && (Bit(r.mask, i) <==> i < c.Beat() && addr <= BeatBase(c, addr) + i < addr + Pow2(lgSize))
      && r.opcode == 4 && Accepts(node, r)
      && Accept(c, node, r) == Node(mem, Replying(addr, lgSize, source, 0))
  {
    hide LowBits, Pow2, OnLinkA, Aligned, AlignMask, Bit;
    var m := GetMsg(c.w.lgBeat, prior, source, addr, lgSize);
    RequestArrives(c, m);
    LowBitsRange(addr, c.w.lgBeat);
    AlignMaskMeaning(c.w.lgBeat, lgSize, addr, i);
    BitOfLowBits(m.mask, c.Beat(), i);
  }

  lemma DataOnLink(c: Cfg, source: nat, lgSize: nat, data: seq<byte>)
    requires Pow2(lgSize) <= c.maxBytes && source < Pow2(c.w.sourceBits) && |data| == c.Beat()
    ensures c.Beat() <= PAYLOAD
    ensures OnLinkD(c.w, AccessAckDataMsg(c.w.lgBeat, BLANK_D, source, lgSize, data, 0))
         == MsgD(1, 0, lgSize, 0, source, 0, 0, Padded(data))
  {
    hide Config.Ok, Pow2, LowBits, Padded;
    LinkZeros(c, lgSize);
    LowBitsRange(source, c.w.sourceBits);
    assert Store(Zeros(PAYLOAD), 0, data[..c.Beat()])[..c.Beat()] == data;
  }

  /** Beat `sent` of the answer to a get: opcode 1, to the source and with the size it was taken with,
      not denied, carrying the beat of memory. */
  lemma DataAtClient(c: Cfg, mem: seq<byte>, addr: nat, source: nat, lgSize: nat, sent: nat)
    requires Pow2(lgSize) <= c.maxBytes && source < Pow2(c.w.sourceBits)
    ensures c.Beat() <= PAYLOAD
    ensures var r := Reply(c, Node(mem, Replying(addr, lgSize, source, sent)));
      && r.0.opcode == 1 && r.0.size == lgSize && r.0.source == source && r.0.denied == 0 && r.0.corrupt == 0
      && r.0.data == Padded(ReadBeat(c, mem, BeatBase(c, addr) + Off(c, sent)))
      && r.1 == Node(mem, if sent + 1 < Beats(c, lgSize) then Replying(addr, lgSize, source, sent + 1) else Ready)
  {
    hide Config.Ok, Pow2, LowBits, Padded, ReadBeat, BeatBase, Off, Beats, OnLinkD, AccessAckDataMsg;
    DataOnLink(c, source, lgSize, ReadBeat(c, mem, BeatBase(c, addr) + Off(c, sent)));
  }
}
