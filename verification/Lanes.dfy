/** Byte lanes of a beat: the mask arithmetic of the message builders, and what a manager that
    stores the enabled lanes of a beat does to memory. */
module Lanes {
  import opened Bits
  import opened Messages

  // ---- the builders' arithmetic ----

  /** Shift a mask relative to the transfer to its slot in the beat. */
  function ShiftedMask(beat: nat, mask: nat, lgSize: nat, addr: nat): nat
    requires beat > 0
  {
    var offset := And(addr, beat - 1);
    var slotId := Shr(offset, lgSize);
    Shl32(mask, slotId * Pow2(lgSize))
  }

  /** The byte-enable mask of a whole transfer. */
  function AlignMask(beat: nat, lgSize: nat, addr: nat): nat
    requires beat > 0
  {
    if Pow2(lgSize) >= beat then Pow2(beat) - 1
    else ShiftedMask(beat, Pow2(Pow2(lgSize)) - 1, lgSize, addr)
  }

  /** `first_bit_set_u32`. */
  function FirstBitSet(mask: nat): int {
    if mask == 0 then -1 else Ctz(mask)
  }

  // ---- addresses and slots ----
  // `LowBits(addr, lgBeat)`, that is `addr mod beat`, is the lane a transfer starts at.

  /** The shift amount computed by masking and shifting is the lane the transfer starts at. */
  lemma SlotStart(lgBeat: nat, lgSize: nat, addr: nat)
    requires lgSize <= lgBeat && Aligned(addr, lgSize)
    ensures And(addr, Pow2(lgBeat) - 1) == LowBits(addr, lgBeat)
    ensures Shr(LowBits(addr, lgBeat), lgSize) * Pow2(lgSize) == LowBits(addr, lgBeat)
    ensures LowBits(addr, lgBeat) + Pow2(lgSize) <= Pow2(lgBeat)
  {
    AndLowMask(addr, lgBeat);
    LowBitsMod(addr, lgBeat);
    LowBitsAligned(addr, lgSize, lgBeat);
    AlignedShr(LowBits(addr, lgBeat), lgSize);
  }

  lemma ShiftedMaskBit(lgBeat: nat, mask: nat, lgSize: nat, addr: nat, i: nat)
    requires lgSize <= lgBeat && Aligned(addr, lgSize)
    ensures var o := LowBits(addr, lgBeat);
      Bit(ShiftedMask(Pow2(lgBeat), mask, lgSize, addr), i) <==> i < 32 && o <= i && Bit(mask, i - o)
  {
    SlotStart(lgBeat, lgSize, addr);
    var o := LowBits(addr, lgBeat);
    BitOfLowBits(mask * Pow2(o), 32, i);
    BitOfShift(mask, o, i);
  }

  /** The beat has at most 32 lanes. */
  lemma BeatFits(lgBeat: nat)
    requires lgBeat <= 5
    ensures Pow2(lgBeat) <= 32 == PAYLOAD
  {
    Pow2Mono(lgBeat, 5);
    assert Pow2(5) == 32;
  }

  /** Lane `i` is enabled exactly when byte `base + i` of the beat lies in the transfer. */
  lemma AlignMaskMeaning(lgBeat: nat, lgSize: nat, addr: nat, i: nat)
    requires lgBeat <= 5 && Aligned(addr, lgSize)
    ensures var base := addr - LowBits(addr, lgBeat);
      Bit(AlignMask(Pow2(lgBeat), lgSize, addr), i) <==> (i < Pow2(lgBeat) && addr <= base + i < addr + Pow2(lgSize))
  {
    hide ShiftedMask, Bit, LowBits, Pow2, Aligned;
    Pow2Order(lgSize, lgBeat);
    BeatFits(lgBeat);
    LowBitsAligned(addr, lgSize, lgBeat);
    if lgSize >= lgBeat {
      BitOfLowMask(Pow2(lgBeat), i);
    } else {
      ShiftedMaskBit(lgBeat, Pow2(Pow2(lgSize)) - 1, lgSize, addr, i);
      var o := LowBits(addr, lgBeat);
      if o <= i { BitOfLowMask(Pow2(lgSize), i - o); }
    }
  }

  /** For a sub-beat transfer the first enabled lane is where the transfer starts. */
  lemma FirstLane(lgBeat: nat, lgSize: nat, addr: nat)
    requires lgSize < lgBeat <= 5 && Aligned(addr, lgSize)
    ensures FirstBitSet(AlignMask(Pow2(lgBeat), lgSize, addr)) == LowBits(addr, lgBeat)
  {
    hide AlignMask, Bit, LowBits, Pow2, Aligned, Ctz;
    var m, o := AlignMask(Pow2(lgBeat), lgSize, addr), LowBits(addr, lgBeat);
    Pow2Order(lgSize, lgBeat);
    LowBitsAligned(addr, lgSize, lgBeat);
    LowBitsRange(addr, lgBeat);
    AlignMaskMeaning(lgBeat, lgSize, addr, o);
    BitOfZero(o);
    CtzIsLowestBit(m, o);
    AlignMaskMeaning(lgBeat, lgSize, addr, Ctz(m));
  }

  /** The slot at lane `a` enables exactly its own lanes. */
  lemma SlotBit(lgBeat: nat, lgSize: nat, a: nat, i: nat)
    requires lgSize <= lgBeat <= 5 && Aligned(a, lgSize) && a < Pow2(lgBeat)
    ensures a + Pow2(lgSize) <= Pow2(lgBeat)
    ensures Bit(AlignMask(Pow2(lgBeat), lgSize, a), i) <==> a <= i < a + Pow2(lgSize)
  {
    AlignedPow2(lgSize, lgBeat);
    AlignedGap(a, Pow2(lgBeat), lgSize);
    LowBitsRange(a, lgBeat);
    AlignMaskMeaning(lgBeat, lgSize, a, i);
  }

  /** Two slots of one size share no lane. */
  lemma SlotsDisjoint(lgBeat: nat, lgSize: nat, a: nat, b: nat)
    requires lgSize <= lgBeat <= 5 && Aligned(a, lgSize) && Aligned(b, lgSize) && a < b < Pow2(lgBeat)
    ensures And(AlignMask(Pow2(lgBeat), lgSize, a), AlignMask(Pow2(lgBeat), lgSize, b)) == 0
  {
    var ma, mb := AlignMask(Pow2(lgBeat), lgSize, a), AlignMask(Pow2(lgBeat), lgSize, b);
    AlignedGap(a, b, lgSize);
    forall i: nat ensures !(Bit(ma, i) && Bit(mb, i)) {
      SlotBit(lgBeat, lgSize, a, i);
      SlotBit(lgBeat, lgSize, b, i);
    }
    NoCommonBit(ma, mb);
  }

  lemma LowMaskUnique(x: nat, n: nat)
    requires forall i: nat :: Bit(x, i) <==> i < n
    ensures x == Pow2(n) - 1
  {
    forall i: nat ensures Bit(x, i) <==> Bit(Pow2(n) - 1, i) { BitOfLowMask(n, i); }
    SameBits(x, Pow2(n) - 1);
  }

  lemma NoCommonBit(x: nat, y: nat)
    requires forall i: nat :: !(Bit(x, i) && Bit(y, i))
    ensures And(x, y) == 0
  {
    forall i: nat ensures Bit(And(x, y), i) <==> Bit(0, i) {
      BitOfAnd(x, y, i);
      BitOfZero(i);
    }
    SameBits(And(x, y), 0);
  }

  /** The masks of the slots below lane `end`, or-ed together. */
  function OrSlots(beat: nat, lgSize: nat, end: nat): nat
    requires beat > 0
    decreases end
  {
    if end < Pow2(lgSize) then 0
    else Or(OrSlots(beat, lgSize, end - Pow2(lgSize)), AlignMask(beat, lgSize, end - Pow2(lgSize)))
  }

  lemma {:induction false} OrSlotsBit(lgBeat: nat, lgSize: nat, end: nat, i: nat)
    requires lgSize <= lgBeat <= 5 && Aligned(end, lgSize) && end <= Pow2(lgBeat)
    ensures Bit(OrSlots(Pow2(lgBeat), lgSize, end), i) <==> i < end
    decreases end
  {
    hide AlignMask, Or, Aligned, Bit;
    if end == 0 {
      BitOfZero(i);
    } else {
      AlignedAtLeast(end, lgSize);
      AlignedPow2(lgSize, lgSize);
      AlignedSum(end, Pow2(lgSize), lgSize);
      var a := end - Pow2(lgSize);
      OrSlotsBit(lgBeat, lgSize, a, i);
      SlotBit(lgBeat, lgSize, a, i);
      BitOfOr(OrSlots(Pow2(lgBeat), lgSize, a), AlignMask(Pow2(lgBeat), lgSize, a), i);
    }
  }

  /** Together the slots of one size enable the whole beat. */
  lemma SlotsCoverBeat(lgBeat: nat, lgSize: nat)
    requires lgSize <= lgBeat <= 5
    ensures OrSlots(Pow2(lgBeat), lgSize, Pow2(lgBeat)) == Pow2(Pow2(lgBeat)) - 1
  {
    var beat := Pow2(lgBeat);
    AlignedPow2(lgSize, lgBeat);
    forall i: nat ensures Bit(OrSlots(beat, lgSize, beat), i) <==> i < beat {
      OrSlotsBit(lgBeat, lgSize, beat, i);
    }
    LowMaskUnique(OrSlots(beat, lgSize, beat), beat);
  }

  // ---- what a beat does to memory ----

  /** Store `data[k]` at `base + k` for the set bits `k < n` of the mask: the enabled lanes of
      one beat. */
  function MaskedStore(mem: seq<byte>, base: nat, n: nat, mask: nat, data: seq<byte>): (r: seq<byte>)
    requires n <= |data|
    ensures |r| == |mem|
  {
    seq(|mem|, b requires 0 <= b < |mem| =>
      if base <= b < base + n && Bit(mask, b - base) then data[b - base] else mem[b])
  }

  /** The bytes of a transfer one beat carries: all of a sub-beat transfer, else the beat. */
  function BeatBytes(lgBeat: nat, lgSize: nat): (n: nat)
    ensures n == if Pow2(lgSize) < Pow2(lgBeat) then Pow2(lgSize) else Pow2(lgBeat)
  {
    Pow2Order(lgSize, lgBeat);
    Pow2(if lgSize < lgBeat then lgSize else lgBeat)
  }

  // ---- the message builders ----

  /** The lane `put` copies the payload to. */
  function PutLane(lgBeat: nat, lgSize: nat, addr: nat): (i: int) {
    if Pow2(lgSize) < Pow2(lgBeat) then FirstBitSet(AlignMask(Pow2(lgBeat), lgSize, addr)) else 0
  }

  lemma PutLaneIs(lgBeat: nat, lgSize: nat, addr: nat)
    requires lgBeat <= 5 && Aligned(addr, lgSize)
    ensures PutLane(lgBeat, lgSize, addr) == LowBits(addr, lgBeat)
    ensures LowBits(addr, lgBeat) + BeatBytes(lgBeat, lgSize) <= Pow2(lgBeat) <= PAYLOAD
  {
    Pow2Order(lgSize, lgBeat);
    BeatFits(lgBeat);
    LowBitsAligned(addr, lgSize, lgBeat);
    if lgSize < lgBeat { FirstLane(lgBeat, lgSize, addr); }
  }

  /** The lane a transfer starts at: `addr mod beat` below a beat, else the first. */
  function StartLane(lgBeat: nat, lgSize: nat, addr: nat): (o: nat)
    requires lgBeat <= 5 && (lgSize < lgBeat ==> Aligned(addr, lgSize))
    ensures o + BeatBytes(lgBeat, lgSize) <= Pow2(lgBeat) <= PAYLOAD
  {
    BeatFits(lgBeat);
    Pow2Order(lgSize, lgBeat);
    if lgSize < lgBeat then LowBitsAligned(addr, lgSize, lgBeat); LowBits(addr, lgBeat) else 0
  }

  /** The message `put` leaves in a struct that held `prior`: the payload starts at the transfer's
      lane, the other payload bytes keep what they were. */
  function PutMsg(lgBeat: nat, prior: MsgA, source: nat, addr: nat, lgSize: nat, data: seq<byte>): (m: MsgA)
    requires lgBeat <= 5 && (lgSize < lgBeat ==> Aligned(addr, lgSize)) && |prior.data| == PAYLOAD
    requires BeatBytes(lgBeat, lgSize) <= |data|
    ensures |m.data| == PAYLOAD
  {
    MsgA(PUT_FULL_DATA, 0, lgSize, 0, source, addr, AlignMask(Pow2(lgBeat), lgSize, addr),
         Store(prior.data, StartLane(lgBeat, lgSize, addr), data[..BeatBytes(lgBeat, lgSize)]))
  }

  /** A put, of any size, applied as a masked store at a beat-aligned `base` writes its bytes
      from lane `addr mod beat` on and nothing else. */
  lemma PutMeaning(mem: seq<byte>, base: nat, lgBeat: nat, prior: MsgA, source: nat, addr: nat, lgSize: nat, data: seq<byte>)
    requires lgBeat <= 5 && Aligned(addr, lgSize) && |prior.data| == PAYLOAD
    requires base + Pow2(lgBeat) <= |mem| && BeatBytes(lgBeat, lgSize) <= |data|
    ensures var m := PutMsg(lgBeat, prior, source, addr, lgSize, data);
      var o, n := LowBits(addr, lgBeat), BeatBytes(lgBeat, lgSize);
      && o + n <= Pow2(lgBeat) <= |m.data|
      && MaskedStore(mem, base, Pow2(lgBeat), m.mask, m.data) == Store(mem, base + o, data[..n])
  {
    hide AlignMask, Bit, LowBits, MaskedStore, Ctz, Pow2, Aligned;
    var m := PutMsg(lgBeat, prior, source, addr, lgSize, data);
    var o, n := LowBits(addr, lgBeat), BeatBytes(lgBeat, lgSize);
    PutLaneIs(lgBeat, lgSize, addr);
    assert MaskedStore(mem, base, Pow2(lgBeat), m.mask, m.data) == Store(mem, base + o, data[..n]) by {
      forall j: nat | j < Pow2(lgBeat) ensures Bit(m.mask, j) <==> o <= j < o + n {
        LowBitsRange(addr, lgBeat);
        AlignMaskMeaning(lgBeat, lgSize, addr, j);
      }
      MaskedRun(mem, base, Pow2(lgBeat), m.mask, m.data, o, data[..n]);
    }
  }

  /** If exactly the lanes `o .. o + |d|` are enabled and hold `d`, the store is contiguous. */
  lemma MaskedRun(mem: seq<byte>, base: nat, n: nat, mask: nat, data: seq<byte>, o: nat, d: seq<byte>)
    requires n <= |data| && base + n <= |mem| && o + |d| <= n
    requires forall j: nat | j < n :: Bit(mask, j) <==> o <= j < o + |d|
    requires forall j: nat | j < |d| :: data[o + j] == d[j]
    ensures MaskedStore(mem, base, n, mask, data) == Store(mem, base + o, d)
  {
    var l, r := MaskedStore(mem, base, n, mask, data), Store(mem, base + o, d);
    forall b | 0 <= b < |mem| ensures l[b] == r[b] {
      if base + o <= b < base + o + |d| { assert data[o + (b - base - o)] == d[b - base - o]; }
    }
  }

  /** The message `putPartial` leaves in a struct that held `prior`. Bytes copied past the end of
      the payload array are not represented. */
  function PutPartialMsg(lgBeat: nat, prior: MsgA, source: nat, addr: nat, lgSize: nat, mask: nat, data: seq<byte>): (m: MsgA)
    requires lgBeat <= 5 && |prior.data| == PAYLOAD
    requires BeatBytes(lgBeat, lgSize) <= |data|
    ensures Pow2(lgBeat) <= |m.data| == PAYLOAD
  {
    BeatFits(lgBeat);
    var base := MsgA(PUT_PARTIAL_DATA, 0, lgSize, 0, source, addr, 0, prior.data);
    if mask == 0 then base
    else if Pow2(lgSize) >= Pow2(lgBeat) then
      base.(mask := mask, data := Store(prior.data, 0, data[..Pow2(lgBeat)]))
    else
      var shifted := ShiftedMask(Pow2(lgBeat), mask, lgSize, addr);
      base.(mask := shifted, data := CopyClipped(prior.data, FirstBitSet(shifted), data[..Pow2(lgSize)]))
  }

  function CopyClipped(prior: seq<byte>, at: int, d: seq<byte>): (r: seq<byte>)
    ensures |r| == |prior|
  {
    seq(|prior|, b requires 0 <= b < |prior| => if at <= b < at + |d| then d[b - at] else prior[b])
  }

  /** What a partial put should do to one beat of memory: byte `k` of the payload goes `k` past
      where the transfer starts, for each mask bit `k` of the transfer (of the beat, for transfers
      of a beat or more). */
  ghost predicate StoresAsDocumented(m: MsgA, lgBeat: nat, addr: nat, lgSize: nat, mask: nat,
                                     data: seq<byte>, mem: seq<byte>, base: nat)
    requires Pow2(lgBeat) <= |m.data| && BeatBytes(lgBeat, lgSize) <= |data|
  {
    MaskedStore(mem, base, Pow2(lgBeat), m.mask, m.data)
    == MaskedStore(mem, base + LowBits(addr, lgBeat), BeatBytes(lgBeat, lgSize), mask, data)
  }

  /** The guard under which `putPartial` keeps its promise: nothing to store, a full beat, or
      the first byte enabled. */
  predicate PutPartialGuard(lgBeat: nat, lgSize: nat, mask: nat) {
    mask == 0 || Pow2(lgSize) >= Pow2(lgBeat) || mask % 2 == 1
  }

  /** Masks are relative to the transfer: a sub-beat one has a bit per byte of the transfer. */
  predicate MaskInTransfer(lgBeat: nat, lgSize: nat, mask: nat) {
    lgSize < lgBeat ==> mask < Pow2(Pow2(lgSize))
  }

  lemma HighBitsClear(x: nat, k: nat, i: nat)
    requires x < Pow2(k)
    ensures Bit(x, i) ==> i < k
  {
    LowBitsRange(x, k);
    BitOfLowBits(x, k, i);
  }

  /** With bit `f` the lowest set bit of a mask, moving the mask up by `o` in a 32-bit word leaves
      `o + f` the lowest set bit, or nothing if that is past the word. */
  lemma ShiftedLowest(s: nat, mask: nat, o: nat)
    requires mask > 0
    requires forall i: nat :: Bit(s, i) <==> i < 32 && o <= i && Bit(mask, i - o)
    ensures o + Ctz(mask) < 32 ==> s > 0 && Ctz(s) == o + Ctz(mask)
    ensures o + Ctz(mask) >= 32 ==> s == 0
  {
    hide Ctz, Bit;
    var f := Ctz(mask);
    CtzIsLowestBit(mask, f);
    if o + f < 32 {
      assert o + f - o == f;
      assert Bit(s, o + f);
      PositiveBit(s, o + f);
      CtzIsLowestBit(s, o + f);
      CtzIsLowestBit(mask, Ctz(s) - o);
    } else {
      forall i: nat ensures Bit(s, i) <==> Bit(0, i) {
        BitOfZero(i);
        if Bit(s, i) { CtzIsLowestBit(mask, i - o); }
      }
      SameBits(s, 0);
    }
  }

  lemma PositiveBit(s: nat, i: nat)
    requires Bit(s, i)
    ensures s > 0
  {
    BitOfZero(i);
  }

  /** As `ShiftedLowest`, for a mask of `n` bits that stays inside the word. */
  lemma ShiftedFirstBit(s: nat, mask: nat, o: nat, n: nat)
    requires 0 < mask < Pow2(n) && o + n <= 32
    requires forall i: nat :: Bit(s, i) <==> i < 32 && o <= i && Bit(mask, i - o)
    ensures Ctz(mask) < n && s > 0 && Ctz(s) == o + Ctz(mask)
  {
    CtzIsLowestBit(mask, Ctz(mask));
    HighBitsClear(mask, n, Ctz(mask));
    ShiftedLowest(s, mask, o);
  }

  // ---- where `putPartial` copies to ----

  /** The copy of a sub-beat partial put with a non-zero mask starts at `FirstBitSet` of the shifted
      mask. It stays inside the payload array exactly when the transfer, moved up to its first
      enabled byte, still fits 32 bytes. */
  lemma PutPartialInside(lgBeat: nat, lgSize: nat, addr: nat, mask: nat)
    requires lgSize < lgBeat <= 5 && Aligned(addr, lgSize) && mask > 0
    ensures var i := FirstBitSet(ShiftedMask(Pow2(lgBeat), mask, lgSize, addr));
      0 <= i && i + Pow2(lgSize) <= PAYLOAD <==> CopyFits(lgBeat, lgSize, addr, mask)
  {
    hide ShiftedMask, Ctz, Bit, LowBits;
    var s, o := ShiftedMask(Pow2(lgBeat), mask, lgSize, addr), LowBits(addr, lgBeat);
    forall i: nat ensures Bit(s, i) <==> i < 32 && o <= i && Bit(mask, i - o) {
      ShiftedMaskBit(lgBeat, mask, lgSize, addr, i);
    }
    ShiftedLowest(s, mask, o);
  }

  /** What a caller of `putPartial` can check beforehand. */
  predicate CopyFits(lgBeat: nat, lgSize: nat, addr: nat, mask: nat)
    requires mask > 0
  {
    LowBits(addr, lgBeat) + Ctz(mask) + Pow2(lgSize) <= PAYLOAD
  }

  lemma EscapeNumbers()
    ensures Pow2(5) == 32 && Pow2(1) == 2 && Pow2(Pow2(1)) == 4
    ensures LowBits(30, 5) == 30 && Ctz(2) == 1 && Aligned(30, 1)
  {
    assert Pow2(2) == 4;
  }

  /** It fails on a 256-bit bus for two bytes at address 30 of which only the second is enabled: the
      copy then starts at the last byte of the payload. */
  lemma PutPartialEscapes()
    ensures FirstBitSet(ShiftedMask(Pow2(5), 2, 1, 30)) == PAYLOAD - 1
    ensures Aligned(30, 1) && MaskInTransfer(5, 1, 2) && !CopyFits(5, 1, 30, 2)
  {
    EscapeNumbers();
    hide ShiftedMask, Ctz, Bit, LowBits, Aligned, Pow2;
    var s := ShiftedMask(Pow2(5), 2, 1, 30);
    forall i: nat ensures Bit(s, i) <==> i < 32 && LowBits(30, 5) <= i && Bit(2, i - LowBits(30, 5)) {
      ShiftedMaskBit(5, 2, 1, 30, i);
    }
    ShiftedLowest(s, 2, LowBits(30, 5));
  }

  /** It never fails when the first byte of the transfer is enabled. */
  lemma FirstByteFits(lgBeat: nat, lgSize: nat, addr: nat, mask: nat)
    requires lgSize < lgBeat <= 5 && Aligned(addr, lgSize) && mask % 2 == 1
    ensures CopyFits(lgBeat, lgSize, addr, mask)
  {
    PutLaneIs(lgBeat, lgSize, addr);
    Pow2Order(lgSize, lgBeat);
  }

  lemma SubBeatMask(lgBeat: nat, addr: nat, lgSize: nat, mask: nat, j: nat)
    requires lgSize < lgBeat <= 5 && Aligned(addr, lgSize) && 0 < mask < Pow2(Pow2(lgSize))
    requires j < Pow2(lgBeat) <= PAYLOAD
    ensures var s, o, n := ShiftedMask(Pow2(lgBeat), mask, lgSize, addr), LowBits(addr, lgBeat), Pow2(lgSize);
      && (Bit(s, j) <==> o <= j < o + n && Bit(mask, j - o))
      && Ctz(mask) < n && FirstBitSet(s) == o + Ctz(mask)
  {
    hide ShiftedMask, Ctz, Bit, LowBits, Pow2, Aligned;
    var s, o, n := ShiftedMask(Pow2(lgBeat), mask, lgSize, addr), LowBits(addr, lgBeat), Pow2(lgSize);
    LowBitsAligned(addr, lgSize, lgBeat);
    forall i: nat ensures Bit(s, i) <==> i < 32 && o <= i && Bit(mask, i - o) {
      ShiftedMaskBit(lgBeat, mask, lgSize, addr, i);
    }
    ShiftedFirstBit(s, mask, o, n);
    if o <= j { HighBitsClear(mask, n, j - o); }
  }

  /** Lane by lane: enabled exactly for the mask bit it stands for; the payload is copied from
      lane `o` plus the lowest mask bit on. */
  lemma PutPartialLanes(lgBeat: nat, prior: MsgA, addr: nat, lgSize: nat, mask: nat, data: seq<byte>, j: nat)
    requires lgBeat <= 5 && Aligned(addr, lgSize) && |prior.data| == PAYLOAD && j < Pow2(lgBeat)
    requires MaskInTransfer(lgBeat, lgSize, mask) && BeatBytes(lgBeat, lgSize) <= |data|
    ensures var m := PutPartialMsg(lgBeat, prior, 0, addr, lgSize, mask, data);
      var o, n := LowBits(addr, lgBeat), BeatBytes(lgBeat, lgSize);
      && (Bit(m.mask, j) <==> o <= j < o + n && Bit(mask, j - o))
      && o + n <= Pow2(lgBeat) <= PAYLOAD
      && (mask != 0 && lgSize < lgBeat ==>
          Ctz(mask) < n && m.data == CopyClipped(prior.data, o + Ctz(mask), data[..n]))
  {
    hide ShiftedMask, AlignMask, Bit, LowBits, Ctz, Pow2, Aligned;
    var o, n := LowBits(addr, lgBeat), BeatBytes(lgBeat, lgSize);
    PutLaneIs(lgBeat, lgSize, addr);
    Pow2Order(lgSize, lgBeat);
    if mask == 0 {
      BitOfZero(j);
      if o <= j { BitOfZero(j - o); }
    } else if lgSize < lgBeat {
      SubBeatMask(lgBeat, addr, lgSize, mask, j);
    } else {
      LowBitsAligned(addr, lgSize, lgBeat);
    }
  }

  lemma PutPartialGood(lgBeat: nat, prior: MsgA, addr: nat, lgSize: nat, mask: nat, data: seq<byte>, mem: seq<byte>, base: nat)
    requires lgBeat <= 5 && Aligned(addr, lgSize) && |prior.data| == PAYLOAD
    requires MaskInTransfer(lgBeat, lgSize, mask) && BeatBytes(lgBeat, lgSize) <= |data|
    requires PutPartialGuard(lgBeat, lgSize, mask)
    ensures StoresAsDocumented(PutPartialMsg(lgBeat, prior, 0, addr, lgSize, mask, data), lgBeat, addr, lgSize, mask, data, mem, base)
  {
    var m := PutPartialMsg(lgBeat, prior, 0, addr, lgSize, mask, data);
    var o, n := LowBits(addr, lgBeat), BeatBytes(lgBeat, lgSize);
    PutLaneIs(lgBeat, lgSize, addr);
    PutPartialAllLanes(lgBeat, prior, addr, lgSize, mask, data);
    SameLanes(mem, base, Pow2(lgBeat), m.mask, m.data, o, n, mask, data);
  }

  lemma PutPartialAllLanes(lgBeat: nat, prior: MsgA, addr: nat, lgSize: nat, mask: nat, data: seq<byte>)
    requires lgBeat <= 5 && Aligned(addr, lgSize) && |prior.data| == PAYLOAD
    requires MaskInTransfer(lgBeat, lgSize, mask) && BeatBytes(lgBeat, lgSize) <= |data|
    requires PutPartialGuard(lgBeat, lgSize, mask)
    ensures var m := PutPartialMsg(lgBeat, prior, 0, addr, lgSize, mask, data);
      LanesCoincide(Pow2(lgBeat), m.mask, m.data, LowBits(addr, lgBeat), BeatBytes(lgBeat, lgSize), mask, data)
  {
    var m := PutPartialMsg(lgBeat, prior, 0, addr, lgSize, mask, data);
    forall j: nat | j < Pow2(lgBeat)
      ensures LaneCoincides(m.mask, m.data, LowBits(addr, lgBeat), BeatBytes(lgBeat, lgSize), mask, data, j)
    {
      PutPartialLane(lgBeat, prior, addr, lgSize, mask, data, j);
    }
  }

  /** The enabled lanes of the first mask are those of the second, `o` up, and hold its bytes. */
  ghost predicate LanesCoincide(n: nat, mask: nat, data: seq<byte>, o: nat, n': nat, mask': nat, data': seq<byte>)
    requires n <= |data| && n' <= |data'|
  {
    forall j: nat | j < n :: LaneCoincides(mask, data, o, n', mask', data', j)
  }

  ghost predicate LaneCoincides(mask: nat, data: seq<byte>, o: nat, n': nat, mask': nat, data': seq<byte>, j: nat)
    requires j < |data| && n' <= |data'|
  {
    && (Bit(mask, j) <==> o <= j < o + n' && Bit(mask', j - o))
    && (Bit(mask, j) ==> data[j] == data'[j - o])
  }

  lemma PutPartialLane(lgBeat: nat, prior: MsgA, addr: nat, lgSize: nat, mask: nat, data: seq<byte>, j: nat)
    requires lgBeat <= 5 && Aligned(addr, lgSize) && |prior.data| == PAYLOAD && j < Pow2(lgBeat)
    requires MaskInTransfer(lgBeat, lgSize, mask) && BeatBytes(lgBeat, lgSize) <= |data|
    requires PutPartialGuard(lgBeat, lgSize, mask)
    ensures var m := PutPartialMsg(lgBeat, prior, 0, addr, lgSize, mask, data);
      LaneCoincides(m.mask, m.data, LowBits(addr, lgBeat), BeatBytes(lgBeat, lgSize), mask, data, j)
  {
    hide PutPartialMsg, CopyClipped, Bit, LowBits, Ctz, Pow2, Aligned, MaskInTransfer, PutPartialGuard;
    var o, n := LowBits(addr, lgBeat), BeatBytes(lgBeat, lgSize);
    PutPartialLanes(lgBeat, prior, addr, lgSize, mask, data, j);
    if o <= j < o + n && Bit(mask, j - o) { PutPartialByte(lgBeat, prior, addr, lgSize, mask, data, j); }
  }

  /** An enabled lane holds the byte meant for it. */
  lemma PutPartialByte(lgBeat: nat, prior: MsgA, addr: nat, lgSize: nat, mask: nat, data: seq<byte>, j: nat)
    requires lgBeat <= 5 && Aligned(addr, lgSize) && |prior.data| == PAYLOAD && j < Pow2(lgBeat)
    requires MaskInTransfer(lgBeat, lgSize, mask) && PutPartialGuard(lgBeat, lgSize, mask)
    requires BeatBytes(lgBeat, lgSize) <= |data|
    requires var o := LowBits(addr, lgBeat); o <= j < o + BeatBytes(lgBeat, lgSize) && Bit(mask, j - o)
    ensures var m := PutPartialMsg(lgBeat, prior, 0, addr, lgSize, mask, data);
      j < PAYLOAD && m.data[j] == data[j - LowBits(addr, lgBeat)]
  {
    hide ShiftedMask, LowBits, AlignMask, Pow2, Aligned;
    BitOfZero(j - LowBits(addr, lgBeat));
    Pow2Order(lgSize, lgBeat);
    PutLaneIs(lgBeat, lgSize, addr);
    if lgSize < lgBeat {
      PutPartialLanes(lgBeat, prior, addr, lgSize, mask, data, 0);
      assert Ctz(mask) == 0;
    } else {
      LowBitsAligned(addr, lgSize, lgBeat);
    }
  }

  /** Two masked stores whose enabled lanes coincide, `o` apart, and hold the same bytes. */
  lemma SameLanes(mem: seq<byte>, base: nat, n: nat, mask: nat, data: seq<byte>,
                  o: nat, n': nat, mask': nat, data': seq<byte>)
    requires n <= |data| && n' <= |data'| && o + n' <= n
    requires LanesCoincide(n, mask, data, o, n', mask', data')
    ensures MaskedStore(mem, base, n, mask, data) == MaskedStore(mem, base + o, n', mask', data')
  {
    var l, r := MaskedStore(mem, base, n, mask, data), MaskedStore(mem, base + o, n', mask', data');
    forall b | 0 <= b < |mem| ensures l[b] == r[b] {
      if base <= b < base + n {
        var j := b - base;
        assert LaneCoincides(mask, data, o, n', mask', data', j);
      }
    }
  }

  /** With the guard false there is a payload for which the effect differs: it is copied to the
      first enabled lane instead of to where the transfer starts. */
  lemma PutPartialBad(lgBeat: nat, prior: MsgA, addr: nat, lgSize: nat, mask: nat) returns (data: seq<byte>, mem: seq<byte>)
    requires lgBeat <= 5 && Aligned(addr, lgSize) && |prior.data| == PAYLOAD
    requires MaskInTransfer(lgBeat, lgSize, mask)
    requires !PutPartialGuard(lgBeat, lgSize, mask)
    ensures |data| == BeatBytes(lgBeat, lgSize)
    ensures !StoresAsDocumented(PutPartialMsg(lgBeat, prior, 0, addr, lgSize, mask, data),
                                lgBeat, addr, lgSize, mask, data, mem, 0)
  {
    var o, n, f := LowBits(addr, lgBeat), BeatBytes(lgBeat, lgSize), Ctz(mask);
    Pow2Order(lgSize, lgBeat);
    data, mem := Zeros(n)[0 := 1], Zeros(Pow2(lgBeat));
    var m := PutPartialMsg(lgBeat, prior, 0, addr, lgSize, mask, data);
    PutPartialLanes(lgBeat, prior, addr, lgSize, mask, data, 0);
    PutPartialLanes(lgBeat, prior, addr, lgSize, mask, data, o + f);
    CtzIsLowestBit(mask, f);
    assert f > 0 && m.data[o + f] == data[..n][0] == 1 && data[f] == 0;
    LaneStored(mem, 0, Pow2(lgBeat), m.mask, m.data, o + f);
    LaneStored(mem, o, n, mask, data, f);
  }

  lemma LaneStored(mem: seq<byte>, base: nat, n: nat, mask: nat, data: seq<byte>, j: nat)
    requires j < n <= |data| && base + j < |mem| && Bit(mask, j)
    ensures MaskedStore(mem, base, n, mask, data)[base + j] == data[j]
  {
  }

  /** `putPartial` stores what its note says, whatever the payload, memory and stale struct
      contents, exactly when the guard holds. */
  lemma PutPartialExact(lgBeat: nat, addr: nat, lgSize: nat, mask: nat)
    requires lgBeat <= 5 && Aligned(addr, lgSize) && MaskInTransfer(lgBeat, lgSize, mask)
    ensures PutPartialGuard(lgBeat, lgSize, mask)
       <==> (forall prior: MsgA, data: seq<byte>, mem: seq<byte>, base: nat ::
               PutPartialEffect(lgBeat, prior, addr, lgSize, mask, data, mem, base))
  {
    if PutPartialGuard(lgBeat, lgSize, mask) {
      forall prior: MsgA, data: seq<byte>, mem: seq<byte>, base: nat
        ensures PutPartialEffect(lgBeat, prior, addr, lgSize, mask, data, mem, base)
      {
        if |prior.data| == PAYLOAD && BeatBytes(lgBeat, lgSize) <= |data| {
          PutPartialGood(lgBeat, prior, addr, lgSize, mask, data, mem, base);
        }
      }
    } else {
      var prior := MsgA(0, 0, 0, 0, 0, 0, 0, Zeros(PAYLOAD));
      var data, mem := PutPartialBad(lgBeat, prior, addr, lgSize, mask);
      assert !PutPartialEffect(lgBeat, prior, addr, lgSize, mask, data, mem, 0);
    }
  }

  ghost predicate PutPartialEffect(lgBeat: nat, prior: MsgA, addr: nat, lgSize: nat, mask: nat,
                                   data: seq<byte>, mem: seq<byte>, base: nat)
    requires lgBeat <= 5
  {
    |prior.data| == PAYLOAD && BeatBytes(lgBeat, lgSize) <= |data| ==>
      StoresAsDocumented(PutPartialMsg(lgBeat, prior, 0, addr, lgSize, mask, data), lgBeat, addr, lgSize, mask, data, mem, base)
  }

  /** The message `get` leaves in a struct: the payload is not touched. */
  function GetMsg(lgBeat: nat, prior: MsgA, source: nat, addr: nat, lgSize: nat): (m: MsgA) {
    MsgA(GET, 0, lgSize, 0, source, addr, AlignMask(Pow2(lgBeat), lgSize, addr), prior.data)
  }

  /** The message `accessAckData` leaves in a struct that held `prior`. */
  function AccessAckDataMsg(lgBeat: nat, prior: MsgD, source: nat, lgSize: nat, data: seq<byte>, denied: nat): (m: MsgD)
    requires lgBeat <= 5 && |prior.data| == PAYLOAD && Pow2(lgBeat) <= |data|
    ensures |m.data| == PAYLOAD
  {
    BeatFits(lgBeat);
    MsgD(ACCESS_ACK_DATA, 0, lgSize, 0, source, 0, denied, Store(prior.data, 0, data[..Pow2(lgBeat)]))
  }

  /** The message `accessAck` leaves in a struct: the payload is not touched. */
  function AccessAckMsg(prior: MsgD, source: nat, lgSize: nat, denied: nat): (m: MsgD) {
    MsgD(ACCESS_ACK, 0, lgSize, 0, source, 0, denied, prior.data)
  }
}
