/** A message through the hardware: C struct, 416-bit word, `unpack`, `toTL*`, a narrower link,
    `fromTL*`, `pack`, word, C struct. Every step is followed as written; the path turns out to
    keep exactly the low bits each link field has room for. */
module Narrowing {
  import opened Bits
  import opened Messages
  import opened Wire

  /** Widths of a TileLink link. Opcode, param, corrupt and denied widths are fixed by TileLink. */
  datatype LinkWidths = LinkWidths(addressBits: nat, lgBeat: nat, sourceBits: nat, sinkBits: nat, sizeBits: nat)
  {
    function Beat(): (n: nat) { Pow2(lgBeat) }

    /** The adapter's width checks, against `SBTLBundleParameters`. */
    predicate Accepted() {
      8 * Beat() <= 256 && addressBits <= 64 && sizeBits <= 4 && sourceBits <= 32 && sinkBits <= 32
    }
  }

  datatype TLBundleA = TLBundleA(opcode: nat, param: nat, size: nat, source: nat, address: nat,
                                 mask: nat, data: nat, corrupt: nat)

  datatype TLBundleD = TLBundleD(opcode: nat, param: nat, size: nat, source: nat, sink: nat,
                                 denied: nat, data: nat, corrupt: nat)

  /** The bundle type of `SBTLBundleParameters`. */
  const WIDEST: LinkWidths := LinkWidths(64, 5, 32, 32, 4)

  /** Connecting to a bundle of widths `w`: Chisel keeps the low bits of each field. */
  function ConnectA(w: LinkWidths, x: TLBundleA): TLBundleA {
    TLBundleA(LowBits(x.opcode, 3), LowBits(x.param, 3), LowBits(x.size, w.sizeBits),
              LowBits(x.source, w.sourceBits), LowBits(x.address, w.addressBits),
              LowBits(x.mask, w.Beat()), LowBits(x.data, 8 * w.Beat()), LowBits(x.corrupt, 1))
  }

  function ConnectD(w: LinkWidths, x: TLBundleD): TLBundleD {
    TLBundleD(LowBits(x.opcode, 3), LowBits(x.param, 2), LowBits(x.size, w.sizeBits),
              LowBits(x.source, w.sourceBits), LowBits(x.sink, w.sinkBits),
              LowBits(x.denied, 1), LowBits(x.data, 8 * w.Beat()), LowBits(x.corrupt, 1))
  }

  function ToTLA(x: BundleA): TLBundleA {
    ConnectA(WIDEST, TLBundleA(x.opcode, x.param, x.size, x.source, x.address, x.mask, x.data, x.corrupt))
  }

  /** The bundle fields have the struct's widths; Chisel cuts what is wider. */
  function FromTLA(x: TLBundleA): BundleA {
    BundleA(LowBits(x.opcode, 8), LowBits(x.param, 8), LowBits(x.size, 8), LowBits(x.source, 32),
            LowBits(x.address, 64), LowBits(x.mask, 32), LowBits(x.corrupt, 8), LowBits(x.data, 256))
  }

  function ToTLD(x: BundleD): TLBundleD {
    ConnectD(WIDEST, TLBundleD(x.opcode, x.param, x.size, x.source, x.sink, x.denied, x.data, x.corrupt))
  }

  function FromTLD(x: TLBundleD): BundleD {
    BundleD(LowBits(x.opcode, 8), LowBits(x.param, 8), LowBits(x.size, 8), LowBits(x.corrupt, 8),
            LowBits(x.source, 32), LowBits(x.sink, 32), LowBits(x.denied, 8), LowBits(x.data, 256))
  }

  // ---- the host side of a queue packet ----

  /** `memcpy` of packet bytes into a `TLMessageA`. */
  function ParseA(b: seq<byte>): MsgA
    requires |b| == WORD_BYTES
  {
    MsgA(LeNum(b[..1]), LeNum(b[1..2]), LeNum(b[2..3]), LeNum(b[3..4]), LeNum(b[4..8]),
         LeNum(b[8..16]), LeNum(b[16..20]), b[20..52])
  }

  function ParseD(b: seq<byte>): MsgD
    requires |b| == WORD_BYTES
  {
    MsgD(LeNum(b[..1]), LeNum(b[1..2]), LeNum(b[2..3]), LeNum(b[3..4]), LeNum(b[4..8]),
         LeNum(b[8..12]), LeNum(b[12..13]), b[13..45])
  }

  lemma NumBack(v: nat, n: nat)
    requires v < Pow2(8 * n)
    ensures LeNum(LeBytes(v, n)) == v
  {
    NumOfBytes(v, n);
    LowBitsRange(v, 8 * n);
  }

  lemma ParseStructA(m: MsgA)
    requires WfA(m)
    ensures |StructA(m)| == WORD_BYTES && ParseA(StructA(m)) == m
  {
    hide LeNum, LeBytes, Pow2;
    var b := StructA(m);
    assert b[..1] == LeBytes(m.opcode, 1) && b[1..2] == LeBytes(m.param, 1);
    assert b[2..3] == LeBytes(m.size, 1) && b[3..4] == LeBytes(m.corrupt, 1);
    assert b[4..8] == LeBytes(m.source, 4) && b[8..16] == LeBytes(m.address, 8);
    assert b[16..20] == LeBytes(m.mask, 4) && b[20..52] == m.data;
    NumBack(m.opcode, 1);
    NumBack(m.param, 1);
    NumBack(m.size, 1);
    NumBack(m.corrupt, 1);
    NumBack(m.source, 4);
    NumBack(m.address, 8);
    NumBack(m.mask, 4);
  }

  lemma ParseStructD(m: MsgD, reserved: seq<byte>)
    requires WfD(m) && |reserved| == RESERVED
    ensures |StructD(m, reserved)| == WORD_BYTES && ParseD(StructD(m, reserved)) == m
  {
    hide LeNum, LeBytes, Pow2;
    var b := StructD(m, reserved);
    assert b[..1] == LeBytes(m.opcode, 1) && b[1..2] == LeBytes(m.param, 1);
    assert b[2..3] == LeBytes(m.size, 1) && b[3..4] == LeBytes(m.corrupt, 1);
    assert b[4..8] == LeBytes(m.source, 4) && b[8..12] == LeBytes(m.sink, 4);
    assert b[12..13] == LeBytes(m.denied, 1) && b[13..45] == m.data;
    NumBack(m.opcode, 1);
    NumBack(m.param, 1);
    NumBack(m.size, 1);
    NumBack(m.corrupt, 1);
    NumBack(m.source, 4);
    NumBack(m.sink, 4);
    NumBack(m.denied, 1);
  }

  // ---- the whole path ----

  /** What the far end's struct holds after `m` went through an adapter port of widths `w`. */
  function TripA(w: LinkWidths, m: MsgA): MsgA {
    var word := LeNum(StructA(m));
    ParseA(LeBytes(PackA(FromTLA(ConnectA(w, ToTLA(UnpackA(word))))), WORD_BYTES))
  }

  function TripD(w: LinkWidths, m: MsgD, reserved: seq<byte>): MsgD {
    var word := LeNum(StructD(m, reserved));
    ParseD(LeBytes(PackD(FromTLD(ConnectD(w, ToTLD(UnpackD(word))))), WORD_BYTES))
  }

  /** The part of a message a link of widths `w` carries. */
  function OnLinkA(w: LinkWidths, m: MsgA): (r: MsgA)
    requires |m.data| == PAYLOAD && w.Accepted()
    ensures |r.data| == PAYLOAD
  {
    MsgA(LowBits(m.opcode, 3), LowBits(m.param, 3), LowBits(m.size, w.sizeBits), LowBits(m.corrupt, 1),
         LowBits(m.source, w.sourceBits), LowBits(m.address, w.addressBits), LowBits(m.mask, w.Beat()),
         Padded(m.data[..w.Beat()]))
  }

  function OnLinkD(w: LinkWidths, m: MsgD): (r: MsgD)
    requires |m.data| == PAYLOAD && w.Accepted()
    ensures |r.data| == PAYLOAD
  {
    MsgD(LowBits(m.opcode, 3), LowBits(m.param, 2), LowBits(m.size, w.sizeBits), LowBits(m.corrupt, 1),
         LowBits(m.source, w.sourceBits), LowBits(m.sink, w.sinkBits), LowBits(m.denied, 1),
         Padded(m.data[..w.Beat()]))
  }

  lemma {:induction false} LowBitsTwice(x: nat, a: nat, b: nat)
    ensures b <= a ==> LowBits(LowBits(x, a), b) == LowBits(x, b)
    decreases a
  {
    if 0 < b <= a { LowBitsTwice(x / 2, a - 1, b - 1); }
  }

  /** Keeping the low `w` bits of a value that fits `a <= c` bits, and first its low `a`. */
  lemma Narrow(x: nat, a: nat, w: nat, c: nat)
    requires w <= a && w <= c
    ensures LowBits(LowBits(x, a), w) == LowBits(x, w) < Pow2(c)
    ensures LowBits(LowBits(x, w), c) == LowBits(x, w)
  {
    LowBitsTwice(x, a, w);
    LowBitsRange(x, w);
    Pow2Mono(w, c);
    LowBitsRange(LowBits(x, w), c);
  }

  /** The low `8k` bits of the payload number are its first `k` bytes, zero-padded. */
  lemma LowPayload(d: seq<byte>, k: nat)
    requires |d| == PAYLOAD && k <= PAYLOAD
    ensures LowBits(LeNum(d), 8 * k) == LeNum(Padded(d[..k])) < Pow2(256)
  {
    hide LowBits, Shr, Pow2, LeNum, LeBytes;
    assert d == d[..k] + d[k..];
    NumAppend(d[..k], d[k..]);
    BytesOfNum(d[..k]);
    SplitSum(LeNum(d[..k]), 8 * k, LeNum(d[k..]));
    NumAppend(d[..k], Zeros(PAYLOAD - k));
    ZerosNum(PAYLOAD - k);
    BytesOfNum(Padded(d[..k]));
  }

  /** The link stage, field by field, is `OnLinkA` on the message the bundle denotes. */
  lemma LinkStageA(w: LinkWidths, m: MsgA)
    requires w.Accepted() && WfA(m)
    ensures WfA(OnLinkA(w, m))
    ensures FromTLA(ConnectA(w, ToTLA(BundleOfA(m)))) == BundleOfA(OnLinkA(w, m))
  {
    assert Pow2(5) == 32;
    Narrow(m.opcode, 3, 3, 8);
    Narrow(m.param, 3, 3, 8);
    Narrow(m.size, 4, w.sizeBits, 8);
    Narrow(m.corrupt, 1, 1, 8);
    Narrow(m.source, 32, w.sourceBits, 32);
    Narrow(m.address, 64, w.addressBits, 64);
    Narrow(m.mask, 32, w.Beat(), 32);
    Narrow(LeNum(m.data), 256, 8 * w.Beat(), 256);
    LowPayload(m.data, w.Beat());
  }

  lemma LinkStageD(w: LinkWidths, m: MsgD)
    requires w.Accepted() && WfD(m)
    ensures WfD(OnLinkD(w, m))
    ensures FromTLD(ConnectD(w, ToTLD(BundleOfD(m)))) == BundleOfD(OnLinkD(w, m))
  {
    assert Pow2(5) == 32;
    Narrow(m.opcode, 3, 3, 8);
    Narrow(m.param, 2, 2, 8);
    Narrow(m.size, 4, w.sizeBits, 8);
    Narrow(m.corrupt, 1, 1, 8);
    Narrow(m.source, 32, w.sourceBits, 32);
    Narrow(m.sink, 32, w.sinkBits, 32);
    Narrow(m.denied, 1, 1, 8);
    Narrow(LeNum(m.data), 256, 8 * w.Beat(), 256);
    LowPayload(m.data, w.Beat());
  }

  /** For every message and every accepted link, the far end receives exactly `OnLinkA`. */
  lemma TripIsLinkA(w: LinkWidths, m: MsgA)
    requires w.Accepted() && WfA(m)
    ensures TripA(w, m) == OnLinkA(w, m) && WfA(OnLinkA(w, m))
  {
    StructAgreesA(m);
    UnpackPackA(BundleOfA(m));
    LinkStageA(w, m);
    var r := OnLinkA(w, m);
    StructAgreesA(r);
    BytesOfNum(StructA(r));
    ParseStructA(r);
  }

  /** The same for every response, whatever its reserved bytes hold. */
  lemma TripIsLinkD(w: LinkWidths, m: MsgD, reserved: seq<byte>)
    requires w.Accepted() && WfD(m) && |reserved| == RESERVED
    ensures TripD(w, m, reserved) == OnLinkD(w, m) && WfD(OnLinkD(w, m))
  {
    StructReadsD(m, reserved);
    LinkStageD(w, m);
    var r, zeros := OnLinkD(w, m), Zeros(RESERVED);
    StructAgreesD(r, zeros);
    BytesOfNum(StructD(r, zeros));
    ParseStructD(r, zeros);
  }

  /** Every field fits its link width. */
  ghost predicate FitsLinkA(w: LinkWidths, m: MsgA) {
    && m.opcode < 8 && m.param < 8 && m.size < Pow2(w.sizeBits) && m.corrupt < 2
    && m.source < Pow2(w.sourceBits) && m.address < Pow2(w.addressBits)
  }

  ghost predicate FitsLinkD(w: LinkWidths, m: MsgD) {
    && m.opcode < 8 && m.param < 4 && m.size < Pow2(w.sizeBits) && m.corrupt < 2 && m.denied < 2
    && m.source < Pow2(w.sourceBits) && m.sink < Pow2(w.sinkBits)
  }

  /** A message arrives unchanged, but for mask and data above the link width, now zero, exactly
      when its fields fit the link. */
  lemma RoundTripA(w: LinkWidths, m: MsgA)
    requires w.Accepted() && WfA(m)
    ensures FitsLinkA(w, m) <==> TripA(w, m) == m.(mask := LowBits(m.mask, w.Beat()), data := Padded(m.data[..w.Beat()]))
  {
    TripIsLinkA(w, m);
    assert Pow2(3) == 8 && Pow2(1) == 2;
    LowBitsRange(m.opcode, 3);
    LowBitsRange(m.param, 3);
    LowBitsRange(m.size, w.sizeBits);
    LowBitsRange(m.corrupt, 1);
    LowBitsRange(m.source, w.sourceBits);
    LowBitsRange(m.address, w.addressBits);
  }

  lemma RoundTripD(w: LinkWidths, m: MsgD, reserved: seq<byte>)
    requires w.Accepted() && WfD(m) && |reserved| == RESERVED
    ensures FitsLinkD(w, m) <==> TripD(w, m, reserved) == m.(data := Padded(m.data[..w.Beat()]))
  {
    TripIsLinkD(w, m, reserved);
    assert Pow2(3) == 8 && Pow2(2) == 4 && Pow2(1) == 2;
    LowBitsRange(m.opcode, 3);
    LowBitsRange(m.param, 2);
    LowBitsRange(m.size, w.sizeBits);
    LowBitsRange(m.corrupt, 1);
    LowBitsRange(m.source, w.sourceBits);
    LowBitsRange(m.sink, w.sinkBits);
    LowBitsRange(m.denied, 1);
  }

  // ---- the width checks are exactly what is needed ----

  /** Every field of the beat fits its width on the link. */
  ghost predicate FitsTLA(w: LinkWidths, x: TLBundleA) {
    && x.opcode < 8 && x.param < 8 && x.size < Pow2(w.sizeBits) && x.source < Pow2(w.sourceBits)
    && x.address < Pow2(w.addressBits) && x.mask < Pow2(w.Beat()) && x.data < Pow2(8 * w.Beat()) && x.corrupt < 2
  }

  ghost predicate FitsTLD(w: LinkWidths, x: TLBundleD) {
    && x.opcode < 8 && x.param < 4 && x.size < Pow2(w.sizeBits) && x.source < Pow2(w.sourceBits)
    && x.sink < Pow2(w.sinkBits) && x.denied < 2 && x.data < Pow2(8 * w.Beat()) && x.corrupt < 2
  }

  /** A beat of one link, packed into a word and unpacked onto another link of the same widths. */
  function AcrossA(w: LinkWidths, x: TLBundleA): TLBundleA {
    ConnectA(w, ToTLA(UnpackA(PackA(FromTLA(x)))))
  }

  function AcrossD(w: LinkWidths, x: TLBundleD): TLBundleD {
    ConnectD(w, ToTLD(UnpackD(PackD(FromTLD(x)))))
  }

  /** A value of at most `w` bits passes fields of `c` and `a` bits that are no narrower. */
  lemma Passes(x: nat, w: nat, c: nat, a: nat)
    requires x < Pow2(w) && w <= c && w <= a
    ensures LowBits(x, c) == x && LowBits(x, a) == x && LowBits(x, w) == x
  {
    Pow2Mono(w, c);
    Pow2Mono(w, a);
    LowBitsRange(x, c);
    LowBitsRange(x, a);
    LowBitsRange(x, w);
  }

  lemma FixedWidths()
    ensures Pow2(1) == 2 && Pow2(2) == 4 && Pow2(3) == 8 && Pow2(5) == 32
  {
  }

  lemma AcrossIsStagesA(w: LinkWidths, x: TLBundleA)
    ensures AcrossA(w, x) == ConnectA(w, ToTLA(FromTLA(x)))
  {
    hide ConnectA, ToTLA, PackA, UnpackA, LowBits;
    FromFitsA(x);
    UnpackPackA(FromTLA(x));
  }

  lemma FromFitsA(x: TLBundleA)
    ensures WfBundleA(FromTLA(x))
  {
    hide LowBits, Pow2;
    LowBitsRange(x.opcode, 8);
    LowBitsRange(x.param, 8);
    LowBitsRange(x.size, 8);
    LowBitsRange(x.corrupt, 8);
    LowBitsRange(x.source, 32);
    LowBitsRange(x.address, 64);
    LowBitsRange(x.mask, 32);
    LowBitsRange(x.data, 256);
  }

  lemma AcrossIsStagesD(w: LinkWidths, x: TLBundleD)
    ensures AcrossD(w, x) == ConnectD(w, ToTLD(FromTLD(x)))
  {
    hide ConnectD, ToTLD, PackD, UnpackD, LowBits;
    FromFitsD(x);
    UnpackPackD(FromTLD(x));
  }

  lemma FromFitsD(x: TLBundleD)
    ensures WfBundleD(FromTLD(x))
  {
    hide LowBits, Pow2;
    LowBitsRange(x.opcode, 8);
    LowBitsRange(x.param, 8);
    LowBitsRange(x.size, 8);
    LowBitsRange(x.corrupt, 8);
    LowBitsRange(x.source, 32);
    LowBitsRange(x.sink, 32);
    LowBitsRange(x.denied, 8);
    LowBitsRange(x.data, 256);
  }

  lemma AcceptedPassesA(w: LinkWidths, x: TLBundleA)
    requires w.Accepted() && FitsTLA(w, x)
    ensures AcrossA(w, x) == x
  {
    FixedWidths();
    hide LowBits, Pow2;
    AcrossIsStagesA(w, x);
    Passes(x.opcode, 3, 8, 3);
    Passes(x.param, 3, 8, 3);
    Passes(x.size, w.sizeBits, 8, 4);
    Passes(x.source, w.sourceBits, 32, 32);
    Passes(x.address, w.addressBits, 64, 64);
    Passes(x.mask, w.Beat(), 32, 32);
    Passes(x.data, 8 * w.Beat(), 256, 256);
    Passes(x.corrupt, 1, 8, 1);
  }

  lemma AcceptedPassesD(w: LinkWidths, x: TLBundleD)
    requires w.Accepted() && FitsTLD(w, x)
    ensures AcrossD(w, x) == x
  {
    FixedWidths();
    hide LowBits, Pow2;
    AcrossIsStagesD(w, x);
    Passes(x.opcode, 3, 8, 3);
    Passes(x.param, 2, 8, 2);
    Passes(x.size, w.sizeBits, 8, 4);
    Passes(x.source, w.sourceBits, 32, 32);
    Passes(x.sink, w.sinkBits, 32, 32);
    Passes(x.denied, 1, 8, 1);
    Passes(x.data, 8 * w.Beat(), 256, 256);
    Passes(x.corrupt, 1, 8, 1);
  }

  /** The lowest bit a field of `c` bits has no room for is lost in it. */
  lemma TopBitLost(c: nat, w: nat)
    requires c < w
    ensures Pow2(c) < Pow2(w) && LowBits(Pow2(c), c) == 0
  {
    Pow2Order(c, w);
    SplitSum(0, c, 1);
  }

  /** A beat that uses a bit the word has no room for. */
  lemma RejectedA(w: LinkWidths) returns (x: TLBundleA)
    requires w.addressBits > 64 || w.sourceBits > 32 || w.sizeBits > 4 || 8 * w.Beat() > 256
    ensures FitsTLA(w, x) && AcrossA(w, x) != x
  {
    hide LowBits, Pow2, ConnectA, ToTLA, FromTLA;
    x := TLBundleA(0, 0, 0, 0, 0, 0, 0, 0);
    if w.addressBits > 64 {
      TopBitLost(64, w.addressBits);
      x := x.(address := Pow2(64));
    } else if w.sourceBits > 32 {
      TopBitLost(32, w.sourceBits);
      x := x.(source := Pow2(32));
    } else if w.sizeBits > 4 {
      TopBitLost(4, w.sizeBits);
      x := x.(size := Pow2(4));
    } else {
      TopBitLost(256, 8 * w.Beat());
      x := x.(data := Pow2(256));
    }
    AcrossIsStagesA(w, x);
    LostA(w, x);
  }

  /** What the word cuts off a field is not put back. */
  lemma LostA(w: LinkWidths, x: TLBundleA)
    requires x.address == Pow2(64) || x.source == Pow2(32) || x.size == Pow2(4) || x.data == Pow2(256)
    ensures ConnectA(w, ToTLA(FromTLA(x))) != x
  {
    hide LowBits, Pow2;
    var r := ConnectA(w, ToTLA(FromTLA(x)));
    Bounded(x.address, 64, 64, w.addressBits);
    Bounded(x.source, 32, 32, w.sourceBits);
    Bounded(x.size, 8, 4, w.sizeBits);
    Bounded(x.data, 256, 256, 8 * w.Beat());
    FixedWidths();
  }

  /** After a field of `a` bits a value is below `2^a`. */
  lemma Bounded(x: nat, c: nat, a: nat, w: nat)
    ensures LowBits(LowBits(LowBits(x, c), a), w) < Pow2(a)
  {
    LowBitsRange(LowBits(x, c), a);
    LowBitsAtMost(LowBits(LowBits(x, c), a), w);
  }

  lemma {:induction false} LowBitsAtMost(x: nat, w: nat)
    ensures LowBits(x, w) <= x
    decreases w
  {
    if w > 0 { LowBitsAtMost(x / 2, w - 1); }
  }

  lemma RejectedD(w: LinkWidths) returns (x: TLBundleD)
    requires w.sinkBits > 32
    ensures FitsTLD(w, x) && AcrossD(w, x) != x
  {
    hide LowBits, Pow2;
    TopBitLost(32, w.sinkBits);
    x := TLBundleD(0, 0, 0, 0, Pow2(32), 0, 0, 0);
    AcrossIsStagesD(w, x);
    Bounded(x.sink, 32, 32, w.sinkBits);
  }

  /** The adapter's width checks accept exactly the links every beat of which survives the word. */
  lemma AcceptedIff(w: LinkWidths)
    ensures w.Accepted() <==>
      (forall x: TLBundleA :: FitsTLA(w, x) ==> AcrossA(w, x) == x)
      && (forall x: TLBundleD :: FitsTLD(w, x) ==> AcrossD(w, x) == x)
  {
    hide FitsTLA, FitsTLD, AcrossA, AcrossD, Pow2;
    if w.Accepted() {
      forall x: TLBundleA | FitsTLA(w, x) ensures AcrossA(w, x) == x { AcceptedPassesA(w, x); }
      forall x: TLBundleD | FitsTLD(w, x) ensures AcrossD(w, x) == x { AcceptedPassesD(w, x); }
    } else if w.sinkBits > 32 {
      var x := RejectedD(w);
    } else {
      var x := RejectedA(w);
    }
  }
}
