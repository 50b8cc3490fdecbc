/** The 416-bit queue word, defined twice: by the packed C structs (bytes in memory, little-endian)
    and by the Chisel bundles (`Cat` and bit slices). The two agree and invert each other. */
module Wire {
  import opened Bits
  import opened Messages

  const WORD_BITS: nat := 416
  const WORD_BYTES: nat := 52

  // ---- lists of bit fields ----

  datatype Field = Field(width: nat, value: nat)

  function Width(fs: seq<Field>): nat {
    if fs == [] then 0 else fs[0].width + Width(fs[1..])
  }

  ghost predicate Fits(fs: seq<Field>) {
    forall f :: f in fs ==> f.value < Pow2(f.width)
  }

  /** The fields side by side, the first at bit 0. */
  function Pack(fs: seq<Field>): nat {
    if fs == [] then 0 else fs[0].value + Pow2(fs[0].width) * Pack(fs[1..])
  }

  /** Chisel's `Cat`: the last argument is the least significant. */
  function Cat(fs: seq<Field>): nat {
    if fs == [] then 0
    else var last := fs[|fs| - 1]; last.value + Pow2(last.width) * Cat(fs[..|fs| - 1])
  }

  /** The `w` bits of `d` from bit `off` up. */
  function BitsAt(d: nat, off: nat, w: nat): nat {
    LowBits(Shr(d, off), w)
  }

  /** Chisel's `d(hi, lo)`. */
  function Slice(d: nat, hi: nat, lo: nat): nat
    requires lo <= hi
  {
    BitsAt(d, lo, hi - lo + 1)
  }

  /** Cut `d` into fields of the given widths from bit `off` up. */
  function SlicesFrom(ws: seq<nat>, d: nat, off: nat): seq<Field> {
    if ws == [] then [] else [Field(ws[0], BitsAt(d, off, ws[0]))] + SlicesFrom(ws[1..], d, off + ws[0])
  }

  function Widths(fs: seq<Field>): seq<nat> {
    if fs == [] then [] else [fs[0].width] + Widths(fs[1..])
  }

  function Sum(ws: seq<nat>): nat {
    if ws == [] then 0 else ws[0] + Sum(ws[1..])
  }

  function Rev(fs: seq<Field>): seq<Field> {
    if fs == [] then [] else [fs[|fs| - 1]] + Rev(fs[..|fs| - 1])
  }

  lemma {:induction false} CatIsPack(fs: seq<Field>)
    ensures Cat(fs) == Pack(Rev(fs))
  {
    if fs != [] { CatIsPack(fs[..|fs| - 1]); }
  }

  lemma {:induction false} PackAppend(a: seq<Field>, b: seq<Field>)
    ensures Pack(a + b) == Pack(a) + Pow2(Width(a)) * Pack(b)
    ensures Width(a + b) == Width(a) + Width(b)
  {
    if a == [] {
      assert a + b == b;
    } else {
      PackAppend(a[1..], b);
      assert (a + b)[1..] == a[1..] + b;
      Pow2Add(a[0].width, Width(a[1..]));
      MulDistribute(Pow2(a[0].width), Pack(a[1..]), Pow2(Width(a[1..])), Pack(b));
    }
  }

  lemma {:induction false} PackBound(fs: seq<Field>)
    requires Fits(fs)
    ensures Pack(fs) < Pow2(Width(fs))
  {
    if fs != [] {
      assert fs[0] in fs;
      PackBound(fs[1..]);
      Pow2Add(fs[0].width, Width(fs[1..]));
      MulBound(Pow2(fs[0].width), Pack(fs[1..]), Pow2(Width(fs[1..])));
    }
  }

  /** Slicing a packed list gives the fields back. */
  lemma {:induction false} SlicesOfPack(fs: seq<Field>, d: nat, off: nat)
    requires Fits(fs) && Shr(d, off) == Pack(fs)
    ensures SlicesFrom(Widths(fs), d, off) == fs
    decreases |fs|
  {
    if fs != [] {
      assert fs[0] in fs;
      SplitSum(fs[0].value, fs[0].width, Pack(fs[1..]));
      ShrAdd(d, off, fs[0].width);
      SlicesOfPack(fs[1..], d, off + fs[0].width);
      assert Widths(fs)[1..] == Widths(fs[1..]);
    }
  }

  /** Packing the slices of a word keeps exactly the bits they cover. */
  lemma {:induction false} PackOfSlices(ws: seq<nat>, d: nat, off: nat)
    ensures Pack(SlicesFrom(ws, d, off)) == BitsAt(d, off, Sum(ws))
    decreases |ws|
  {
    if ws != [] {
      var fs := SlicesFrom(ws, d, off);
      assert fs[1..] == SlicesFrom(ws[1..], d, off + ws[0]);
      PackOfSlices(ws[1..], d, off + ws[0]);
      ShrAdd(d, off, ws[0]);
      LowBitsSplit(Shr(d, off), ws[0], Sum(ws[1..]));
    }
  }

  /** The `k`-th slice starts where the first `k` widths end. */
  lemma {:induction false} SliceIndex(ws: seq<nat>, d: nat, off: nat, k: nat)
    requires k < |ws|
    ensures |SlicesFrom(ws, d, off)| == |ws|
    ensures SlicesFrom(ws, d, off)[k] == Field(ws[k], BitsAt(d, off + Sum(ws[..k]), ws[k]))
    decreases k
  {
    SlicesLength(ws, d, off);
    if k > 0 {
      SliceIndex(ws[1..], d, off + ws[0], k - 1);
      assert ws[..k][1..] == ws[1..][..k - 1];
    }
  }

  lemma {:induction false} SlicesLength(ws: seq<nat>, d: nat, off: nat)
    ensures |SlicesFrom(ws, d, off)| == |ws|
    decreases |ws|
  {
    if ws != [] { SlicesLength(ws[1..], d, off + ws[0]); }
  }

  lemma {:induction false} SumSnoc(ws: seq<nat>, w: nat)
    ensures Sum(ws + [w]) == Sum(ws) + w
  {
    if ws == [] {
      assert ws + [w] == [w];
    } else {
      assert (ws + [w])[1..] == ws[1..] + [w];
      SumSnoc(ws[1..], w);
    }
  }

  // ---- little-endian bytes ----

  function LeBytes(v: nat, n: nat): (b: seq<byte>)
    ensures |b| == n
    decreases n, v
  {
    if n == 0 then [] else [v % 256] + LeBytes(v / 256, n - 1)
  }

  function LeNum(b: seq<byte>): nat {
    if b == [] then 0 else b[0] + 256 * LeNum(b[1..])
  }

  lemma {:induction false} NumOfBytes(v: nat, n: nat)
    ensures LeNum(LeBytes(v, n)) == LowBits(v, 8 * n)
    decreases n
  {
    if n > 0 {
      NumOfBytes(v / 256, n - 1);
      LowBitsSplit(v, 8, 8 * (n - 1));
      assert Pow2(8) == 256;
      LowBitsMod(v, 8);
      ShrDiv(v, 8);
    }
  }

  lemma {:induction false} BytesOfNum(b: seq<byte>)
    ensures LeBytes(LeNum(b), |b|) == b
    ensures LeNum(b) < Pow2(8 * |b|)
  {
    if b != [] {
      BytesOfNum(b[1..]);
      assert Pow2(8) == 256;
      Pow2Add(8, 8 * |b[1..]|);
      assert LeNum(b) == b[0] + 256 * LeNum(b[1..]);
      assert LeNum(b) % 256 == b[0] && LeNum(b) / 256 == LeNum(b[1..]);
    }
  }

  lemma {:induction false} NumAppend(a: seq<byte>, b: seq<byte>)
    ensures LeNum(a + b) == LeNum(a) + Pow2(8 * |a|) * LeNum(b)
  {
    if a == [] {
      assert a + b == b;
    } else {
      NumAppend(a[1..], b);
      assert (a + b)[1..] == a[1..] + b;
      assert Pow2(8) == 256;
      Pow2Add(8, 8 * |a[1..]|);
      MulDistribute(256, LeNum(a[1..]), Pow2(8 * |a[1..]|), LeNum(b));
    }
  }

  /** Whole-byte fields laid out one after another in memory. */
  function FieldBytes(fs: seq<Field>): seq<byte> {
    if fs == [] then [] else LeBytes(fs[0].value, fs[0].width / 8) + FieldBytes(fs[1..])
  }

  ghost predicate WholeBytes(fs: seq<Field>) {
    forall f :: f in fs ==> f.width % 8 == 0
  }

  /** The bytes of a packed struct read as one little-endian number are its fields packed. */
  lemma {:induction false} StructIsPack(fs: seq<Field>)
    requires Fits(fs) && WholeBytes(fs)
    ensures LeNum(FieldBytes(fs)) == Pack(fs) && 8 * |FieldBytes(fs)| == Width(fs)
  {
    if fs != [] {
      assert fs[0] in fs;
      StructIsPack(fs[1..]);
      var b := LeBytes(fs[0].value, fs[0].width / 8);
      NumAppend(b, FieldBytes(fs[1..]));
      NumOfBytes(fs[0].value, fs[0].width / 8);
      LowBitsRange(fs[0].value, fs[0].width);
    }
  }

  // ---- the two structs ----

  ghost predicate WfA(m: MsgA) {
    && m.opcode < Pow2(8) && m.param < Pow2(8) && m.size < Pow2(8) && m.corrupt < Pow2(8)
    && m.source < Pow2(32) && m.address < Pow2(64) && m.mask < Pow2(32) && |m.data| == PAYLOAD
  }

  ghost predicate WfD(m: MsgD) {
    && m.opcode < Pow2(8) && m.param < Pow2(8) && m.size < Pow2(8) && m.corrupt < Pow2(8)
    && m.source < Pow2(32) && m.sink < Pow2(32) && m.denied < Pow2(8) && |m.data| == PAYLOAD
  }

  /** `TLMessageA` in memory. */
  function StructA(m: MsgA): seq<byte> {
    LeBytes(m.opcode, 1) + (LeBytes(m.param, 1) + (LeBytes(m.size, 1) + (LeBytes(m.corrupt, 1)
    + (LeBytes(m.source, 4) + (LeBytes(m.address, 8) + (LeBytes(m.mask, 4) + m.data))))))
  }

  const RESERVED := 7

  /** `TLMessageD` in memory. Its `reserved` bytes are documented as zero, but no builder sets them. */
  function StructD(m: MsgD, reserved: seq<byte>): seq<byte> {
    LeBytes(m.opcode, 1) + (LeBytes(m.param, 1) + (LeBytes(m.size, 1) + (LeBytes(m.corrupt, 1)
    + (LeBytes(m.source, 4) + (LeBytes(m.sink, 4) + (LeBytes(m.denied, 1) + (m.data + reserved)))))))
  }

  // ---- the Chisel bundles ----

  datatype BundleA = BundleA(opcode: nat, param: nat, size: nat, source: nat, address: nat,
                             mask: nat, corrupt: nat, data: nat)

  datatype BundleD = BundleD(opcode: nat, param: nat, size: nat, corrupt: nat, source: nat,
                             sink: nat, denied: nat, data: nat)

  ghost predicate WfBundleA(x: BundleA) {
    && x.opcode < Pow2(8) && x.param < Pow2(8) && x.size < Pow2(8) && x.corrupt < Pow2(8)
    && x.source < Pow2(32) && x.address < Pow2(64) && x.mask < Pow2(32) && x.data < Pow2(256)
  }

  ghost predicate WfBundleD(x: BundleD) {
    && x.opcode < Pow2(8) && x.param < Pow2(8) && x.size < Pow2(8) && x.corrupt < Pow2(8)
    && x.source < Pow2(32) && x.sink < Pow2(32) && x.denied < Pow2(8) && x.data < Pow2(256)
  }

  function PackA(x: BundleA): nat {
    var ctrl32 := Cat([Field(8, x.corrupt), Field(8, x.size), Field(8, x.param), Field(8, x.opcode)]);
    Cat([Field(256, x.data), Field(32, x.mask), Field(64, x.address), Field(32, x.source), Field(32, ctrl32)])
  }

  function UnpackA(d: nat): BundleA {
    BundleA(opcode := Slice(d, 7, 0), param := Slice(d, 15, 8), size := Slice(d, 23, 16),
            corrupt := Slice(d, 31, 24), source := Slice(d, 63, 32), address := Slice(d, 127, 64),
            mask := Slice(d, 159, 128), data := Slice(d, 415, 160))
  }

  function PackD(x: BundleD): nat {
    var ctrl32 := Cat([Field(8, x.corrupt), Field(8, x.size), Field(8, x.param), Field(8, x.opcode)]);
    Cat([Field(256, x.data), Field(8, x.denied), Field(32, x.sink), Field(32, x.source), Field(32, ctrl32)])
  }

  function UnpackD(d: nat): BundleD {
    BundleD(opcode := Slice(d, 7, 0), param := Slice(d, 15, 8), size := Slice(d, 23, 16),
            corrupt := Slice(d, 31, 24), source := Slice(d, 63, 32), sink := Slice(d, 95, 64),
            denied := Slice(d, 103, 96), data := Slice(d, 359, 104))
  }

  // ---- one field list per channel, least significant first ----

  function FieldsA(x: BundleA): seq<Field> {
    [Field(8, x.opcode), Field(8, x.param), Field(8, x.size), Field(8, x.corrupt),
     Field(32, x.source), Field(64, x.address), Field(32, x.mask), Field(256, x.data)]
  }

  function FieldsD(x: BundleD): seq<Field> {
    [Field(8, x.opcode), Field(8, x.param), Field(8, x.size), Field(8, x.corrupt),
     Field(32, x.source), Field(32, x.sink), Field(8, x.denied), Field(256, x.data)]
  }

  /** `Cat(e, d, c, b, Cat(...four control bytes...))` is the flat field list packed. */
  lemma NestedCat(c: seq<Field>, w: seq<Field>)
    requires |c| == 4 && |w| == 4 && Width(c) == 32
    ensures Cat([w[3], w[2], w[1], w[0], Field(32, Cat([c[3], c[2], c[1], c[0]]))]) == Pack(c + w)
  {
    var ctrl := [c[3], c[2], c[1], c[0]];
    CatIsPack(ctrl);
    Rev4(c[0], c[1], c[2], c[3]);
    assert c == [c[0], c[1], c[2], c[3]];
    var up := [w[3], w[2], w[1], w[0]];
    CatIsPack(up);
    Rev4(w[0], w[1], w[2], w[3]);
    assert w == [w[0], w[1], w[2], w[3]];
    var all := up + [Field(32, Cat(ctrl))];
    assert all == [w[3], w[2], w[1], w[0], Field(32, Cat(ctrl))];
    assert all[..4] == up;
    PackAppend(c, w);
  }

  lemma Rev4(a: Field, b: Field, c: Field, d: Field)
    ensures Rev([d, c, b, a]) == [a, b, c, d]
  {
    assert Rev([d]) == [d] + Rev([d][..0]);
    assert [d, c][..1] == [d] && Rev([d, c]) == [c] + Rev([d]);
    assert [d, c, b][..2] == [d, c] && Rev([d, c, b]) == [b] + Rev([d, c]);
    assert [d, c, b, a][..3] == [d, c, b] && Rev([d, c, b, a]) == [a] + Rev([d, c, b]);
  }

  lemma Width4(a: Field, b: Field, c: Field, d: Field)
    ensures Width([a, b, c, d]) == a.width + b.width + c.width + d.width
  {
    assert Width([d]) == d.width + Width([d][1..]);
    assert [c, d][1..] == [d] && Width([c, d]) == c.width + Width([d]);
    assert [b, c, d][1..] == [c, d] && Width([b, c, d]) == b.width + Width([c, d]);
    assert [a, b, c, d][1..] == [b, c, d] && Width([a, b, c, d]) == a.width + Width([b, c, d]);
  }

  lemma PackAIsFields(x: BundleA)
    ensures PackA(x) == Pack(FieldsA(x)) && Width(FieldsA(x)) == WORD_BITS
  {
    var f := FieldsA(x);
    assert f == f[..4] + f[4..];
    assert f[..4] == [f[0], f[1], f[2], f[3]] && f[4..] == [f[4], f[5], f[6], f[7]];
    Width4(f[0], f[1], f[2], f[3]);
    Width4(f[4], f[5], f[6], f[7]);
    NestedCat(f[..4], f[4..]);
    PackAppend(f[..4], f[4..]);
  }

  lemma PackDIsFields(x: BundleD)
    ensures PackD(x) == Pack(FieldsD(x)) && Width(FieldsD(x)) == 360
  {
    var f := FieldsD(x);
    assert f == f[..4] + f[4..];
    assert f[..4] == [f[0], f[1], f[2], f[3]] && f[4..] == [f[4], f[5], f[6], f[7]];
    Width4(f[0], f[1], f[2], f[3]);
    Width4(f[4], f[5], f[6], f[7]);
    NestedCat(f[..4], f[4..]);
    PackAppend(f[..4], f[4..]);
  }

  // ---- the two definitions agree and invert each other ----

  const WIDTHS_A: seq<nat> := [8, 8, 8, 8, 32, 64, 32, 256]
  const WIDTHS_D: seq<nat> := [8, 8, 8, 8, 32, 32, 8, 256]

  /** Where each of eight consecutive fields starts. */
  lemma Offsets8(ws: seq<nat>)
    requires |ws| == 8
    ensures Sum(ws[..0]) == 0 && Sum(ws[..1]) == ws[0] && Sum(ws[..2]) == ws[0] + ws[1]
    ensures Sum(ws[..3]) == ws[0] + ws[1] + ws[2] && Sum(ws[..4]) == ws[0] + ws[1] + ws[2] + ws[3]
    ensures Sum(ws[..5]) == Sum(ws[..4]) + ws[4] && Sum(ws[..6]) == Sum(ws[..5]) + ws[5]
    ensures Sum(ws[..7]) == Sum(ws[..6]) + ws[6] && Sum(ws) == Sum(ws[..7]) + ws[7]
  {
    forall k | 0 <= k < 8 ensures Sum(ws[..k + 1]) == Sum(ws[..k]) + ws[k] {
      assert ws[..k + 1] == ws[..k] + [ws[k]];
      SumSnoc(ws[..k], ws[k]);
    }
    assert ws[..8] == ws;
    assert Sum(ws[..0 + 1]) == Sum(ws[..0]) + ws[0] && Sum(ws[..1 + 1]) == Sum(ws[..1]) + ws[1];
    assert Sum(ws[..2 + 1]) == Sum(ws[..2]) + ws[2] && Sum(ws[..3 + 1]) == Sum(ws[..3]) + ws[3];
    assert Sum(ws[..4 + 1]) == Sum(ws[..4]) + ws[4] && Sum(ws[..5 + 1]) == Sum(ws[..5]) + ws[5];
    assert Sum(ws[..6 + 1]) == Sum(ws[..6]) + ws[6] && Sum(ws[..7 + 1]) == Sum(ws[..7]) + ws[7];
  }

  /** The bit ranges written out in `unpack` are the consecutive slices of the layout. */
  lemma SlicesA(d: nat)
    ensures FieldsA(UnpackA(d)) == SlicesFrom(WIDTHS_A, d, 0) && Sum(WIDTHS_A) == WORD_BITS
  {
    Offsets8(WIDTHS_A);
    Slices8(WIDTHS_A, d, FieldsA(UnpackA(d)));
  }

  lemma SlicesD(d: nat)
    ensures FieldsD(UnpackD(d)) == SlicesFrom(WIDTHS_D, d, 0) && Sum(WIDTHS_D) == 360
  {
    Offsets8(WIDTHS_D);
    Slices8(WIDTHS_D, d, FieldsD(UnpackD(d)));
  }

  lemma Slices8(ws: seq<nat>, d: nat, f: seq<Field>)
    requires |ws| == 8 && |f| == 8
    requires forall k :: 0 <= k < 8 ==> f[k] == Field(ws[k], BitsAt(d, Sum(ws[..k]), ws[k]))
    ensures f == SlicesFrom(ws, d, 0)
  {
    SlicesLength(ws, d, 0);
    forall k | 0 <= k < 8 ensures f[k] == SlicesFrom(ws, d, 0)[k] {
      SliceIndex(ws, d, 0, k);
    }
  }

  /** `unpack(pack(x)) = x` for every bundle value. */
  lemma UnpackPackA(x: BundleA)
    requires WfBundleA(x)
    ensures PackA(x) < Pow2(WORD_BITS) && UnpackA(PackA(x)) == x
  {
    hide Cat, Pack, LowBits, Pow2, Sum, UnpackA, PackA;
    var f := FieldsA(x);
    PackAIsFields(x);
    PackBound(f);
    SlicesOfPack(f, PackA(x), 0);
    SlicesA(PackA(x));
    Widths8(f);
    assert FieldsA(UnpackA(PackA(x))) == f;
    SameFieldsA(x, UnpackA(PackA(x)));
  }

  lemma UnpackPackD(x: BundleD)
    requires WfBundleD(x)
    ensures PackD(x) < Pow2(360) && UnpackD(PackD(x)) == x
  {
    hide Cat, Pack, LowBits, Pow2, Sum, UnpackD, PackD;
    var f := FieldsD(x);
    PackDIsFields(x);
    PackBound(f);
    SlicesOfPack(f, PackD(x), 0);
    SlicesD(PackD(x));
    Widths8(f);
    SameFieldsD(x, UnpackD(PackD(x)));
  }

  lemma Widths8(f: seq<Field>)
    requires |f| == 8
    ensures Widths(f) == [f[0].width, f[1].width, f[2].width, f[3].width, f[4].width, f[5].width, f[6].width, f[7].width]
  {
    WidthsIndex(f);
  }

  lemma {:induction false} WidthsIndex(f: seq<Field>)
    ensures |Widths(f)| == |f| && forall i :: 0 <= i < |f| ==> Widths(f)[i] == f[i].width
  {
    if f != [] { WidthsIndex(f[1..]); }
  }

  lemma SameFieldsA(x: BundleA, y: BundleA)
    requires FieldsA(x) == FieldsA(y)
    ensures x == y
  {
    var f, g := FieldsA(x), FieldsA(y);
    assert f[0] == g[0] && f[1] == g[1] && f[2] == g[2] && f[3] == g[3];
    assert f[4] == g[4] && f[5] == g[5] && f[6] == g[6] && f[7] == g[7];
  }

  lemma SameFieldsD(x: BundleD, y: BundleD)
    requires FieldsD(x) == FieldsD(y)
    ensures x == y
  {
    var f, g := FieldsD(x), FieldsD(y);
    assert f[0] == g[0] && f[1] == g[1] && f[2] == g[2] && f[3] == g[3];
    assert f[4] == g[4] && f[5] == g[5] && f[6] == g[6] && f[7] == g[7];
  }

  /** `pack(unpack(d)) = d` for every 416-bit A word. */
  lemma PackUnpackA(d: nat)
    requires d < Pow2(WORD_BITS)
    ensures PackA(UnpackA(d)) == d && WfBundleA(UnpackA(d))
  {
    PackAIsFields(UnpackA(d));
    SlicesA(d);
    PackOfSlices(WIDTHS_A, d, 0);
    UnpackFits(d);
    LowBitsRange(d, WORD_BITS);
  }

  /** For a D word `pack(unpack(d))` keeps the low 360 bits and clears the rest. */
  lemma PackUnpackD(d: nat)
    ensures PackD(UnpackD(d)) == LowBits(d, 360) && WfBundleD(UnpackD(d))
  {
    PackDIsFields(UnpackD(d));
    SlicesD(d);
    PackOfSlices(WIDTHS_D, d, 0);
    UnpackFits(d);
  }

  lemma UnpackFits(d: nat)
    ensures WfBundleA(UnpackA(d)) && WfBundleD(UnpackD(d))
  {
    hide LowBits, Shr, Pow2;
    SliceFits(d, 7, 0);
    SliceFits(d, 15, 8);
    SliceFits(d, 23, 16);
    SliceFits(d, 31, 24);
    SliceFits(d, 63, 32);
    SliceFits(d, 127, 64);
    SliceFits(d, 95, 64);
    SliceFits(d, 103, 96);
    SliceFits(d, 159, 128);
    SliceFits(d, 415, 160);
    SliceFits(d, 359, 104);
  }

  lemma SliceFits(d: nat, hi: nat, lo: nat)
    requires lo <= hi
    ensures Slice(d, hi, lo) < Pow2(hi - lo + 1)
  {
    LowBitsRange(Shr(d, lo), hi - lo + 1);
  }

  /** The bundle a C message denotes. */
  function BundleOfA(m: MsgA): BundleA {
    BundleA(m.opcode, m.param, m.size, m.source, m.address, m.mask, m.corrupt, LeNum(m.data))
  }

  function BundleOfD(m: MsgD): BundleD {
    BundleD(m.opcode, m.param, m.size, m.corrupt, m.source, m.sink, m.denied, LeNum(m.data))
  }

  /** The bytes of `TLMessageA`, 52 of them, read little-endian, are the Chisel packed word. */
  lemma StructAgreesA(m: MsgA)
    requires WfA(m)
    ensures |StructA(m)| == WORD_BYTES && WfBundleA(BundleOfA(m))
    ensures LeNum(StructA(m)) == PackA(BundleOfA(m))
  {
    hide LeNum, LeBytes, Pow2, Cat, Pack, FieldBytes, LowBits, PackA, StructA;
    BytesOfNum(m.data);
    FieldsFit(FieldsA(BundleOfA(m)));
    StructIsPack(FieldsA(BundleOfA(m)));
    StructLayoutA(m);
    PackAIsFields(BundleOfA(m));
  }

  /** The struct of a response as a number: the packed word, and the reserved bytes above it. */
  lemma StructSumD(m: MsgD, reserved: seq<byte>)
    requires WfD(m) && |reserved| == RESERVED
    ensures |StructD(m, reserved)| == WORD_BYTES && WfBundleD(BundleOfD(m))
    ensures PackD(BundleOfD(m)) < Pow2(360)
    ensures LeNum(StructD(m, reserved)) == PackD(BundleOfD(m)) + Pow2(360) * LeNum(reserved)
  {
    hide LeNum, LeBytes, Pow2, Cat, Pack, FieldBytes, LowBits, PackD, UnpackD, StructD;
    var f := FieldsD(BundleOfD(m));
    BytesOfNum(m.data);
    FieldsFit(f);
    StructIsPack(f);
    StructLayoutD(m, reserved);
    PackDIsFields(BundleOfD(m));
    UnpackPackD(BundleOfD(m));
    Widths8(f);
    NumAppend(FieldBytes(f), reserved);
    BytesWidthD(m);
  }

  lemma BytesWidthD(m: MsgD)
    requires WfD(m)
    ensures |FieldBytes(FieldsD(BundleOfD(m)))| == 45 && |StructD(m, Zeros(RESERVED))| == WORD_BYTES
  {
    hide LeNum, LeBytes, Pow2, FieldBytes;
    FieldBytes8(FieldsD(BundleOfD(m)));
  }

  /** Whatever the reserved bytes hold, `unpack` recovers every field from the struct's word. */
  lemma StructReadsD(m: MsgD, reserved: seq<byte>)
    requires WfD(m) && |reserved| == RESERVED
    ensures |StructD(m, reserved)| == WORD_BYTES
    ensures LowBits(LeNum(StructD(m, reserved)), 360) == PackD(BundleOfD(m))
    ensures UnpackD(LeNum(StructD(m, reserved))) == BundleOfD(m)
  {
    hide LeNum, LeBytes, Pow2, LowBits, PackD, UnpackD, StructD;
    var d := LeNum(StructD(m, reserved));
    StructSumD(m, reserved);
    SplitSum(PackD(BundleOfD(m)), 360, LeNum(reserved));
    PackUnpackD(d);
    UnpackPackD(UnpackD(d));
    UnpackPackD(BundleOfD(m));
  }

  /** The bytes of `TLMessageD`, 52 of them, read little-endian, are the Chisel packed word exactly
      when the reserved bytes are zero. */
  lemma StructAgreesD(m: MsgD, reserved: seq<byte>)
    requires WfD(m) && |reserved| == RESERVED
    ensures |StructD(m, reserved)| == WORD_BYTES && WfBundleD(BundleOfD(m))
    ensures LeNum(StructD(m, reserved)) == PackD(BundleOfD(m)) <==> reserved == Zeros(RESERVED)
  {
    hide LeNum, LeBytes, Pow2, LowBits, PackD, StructD;
    StructSumD(m, reserved);
    SplitSum(PackD(BundleOfD(m)), 360, LeNum(reserved));
    SplitSum(PackD(BundleOfD(m)), 360, 0);
    ZerosNum(RESERVED);
    BytesOfNum(reserved);
    BytesOfNum(Zeros(RESERVED));
  }

  lemma {:induction false} ZerosNum(n: nat)
    ensures LeNum(Zeros(n)) == 0
  {
    if n > 0 {
      assert Zeros(n)[1..] == Zeros(n - 1);
      ZerosNum(n - 1);
    }
  }

  lemma FieldsFit(f: seq<Field>)
    requires |f| == 8
    requires f[0].value < Pow2(f[0].width) && f[1].value < Pow2(f[1].width)
    requires f[2].value < Pow2(f[2].width) && f[3].value < Pow2(f[3].width)
    requires f[4].value < Pow2(f[4].width) && f[5].value < Pow2(f[5].width)
    requires f[6].value < Pow2(f[6].width) && f[7].value < Pow2(f[7].width)
    requires f[0].width == f[1].width == f[2].width == f[3].width == 8
    requires f[4].width % 8 == f[5].width % 8 == f[6].width % 8 == f[7].width % 8 == 0
    ensures Fits(f) && WholeBytes(f)
  {
  }

  /** The struct's bytes are its fields' bytes, in declaration order and without padding. */
  lemma StructLayoutA(m: MsgA)
    requires |m.data| == PAYLOAD
    ensures StructA(m) == FieldBytes(FieldsA(BundleOfA(m)))
  {
    hide LeNum, LeBytes, Pow2, FieldBytes;
    BytesOfNum(m.data);
    var f := FieldsA(BundleOfA(m));
    assert Le(f[7]) == m.data && Le(f[6]) == LeBytes(m.mask, 4) && Le(f[5]) == LeBytes(m.address, 8);
    FieldBytes8(f);
  }

  lemma StructLayoutD(m: MsgD, reserved: seq<byte>)
    requires |m.data| == PAYLOAD
    ensures StructD(m, reserved) == FieldBytes(FieldsD(BundleOfD(m))) + reserved
  {
    hide LeNum, LeBytes, Pow2, FieldBytes;
    BytesOfNum(m.data);
    FieldBytes8(FieldsD(BundleOfD(m)));
  }

  lemma FieldBytes8(f: seq<Field>)
    requires |f| == 8
    ensures FieldBytes(f) == Le(f[0]) + (Le(f[1]) + (Le(f[2]) + (Le(f[3]) + (Le(f[4]) + (Le(f[5]) + (Le(f[6]) + Le(f[7])))))))
  {
    assert f[1..][1..] == f[2..] && f[2..][1..] == f[3..] && f[3..][1..] == f[4..];
    assert f[4..][1..] == f[5..] && f[5..][1..] == f[6..] && f[6..][1..] == f[7..] && f[7..][1..] == [];
    FieldBytesStep(f);
    FieldBytesStep(f[1..]);
    FieldBytesStep(f[2..]);
    FieldBytesStep(f[3..]);
    FieldBytesStep(f[4..]);
    FieldBytesStep(f[5..]);
    FieldBytesStep(f[6..]);
    FieldBytesStep(f[7..]);
    assert Le(f[7]) + [] == Le(f[7]);
  }

  lemma FieldBytesStep(f: seq<Field>)
    requires f != []
    ensures FieldBytes(f) == Le(f[0]) + FieldBytes(f[1..])
  {
  }

  function Le(f: Field): seq<byte> {
    LeBytes(f.value, f.width / 8)
  }

  // ---- reading a word back into the C structs ----

  /** The C message a bundle denotes. */
  function MsgOfA(x: BundleA): MsgA {
    MsgA(x.opcode, x.param, x.size, x.corrupt, x.source, x.address, x.mask, LeBytes(x.data, PAYLOAD))
  }

  function MsgOfD(x: BundleD): MsgD {
    MsgD(x.opcode, x.param, x.size, x.corrupt, x.source, x.sink, x.denied, LeBytes(x.data, PAYLOAD))
  }

  lemma BundleOfMsgA(x: BundleA)
    requires WfBundleA(x)
    ensures BundleOfA(MsgOfA(x)) == x && WfA(MsgOfA(x))
  {
    NumOfBytes(x.data, PAYLOAD);
    LowBitsRange(x.data, 256);
  }

  lemma BundleOfMsgD(x: BundleD)
    requires WfBundleD(x)
    ensures BundleOfD(MsgOfD(x)) == x && WfD(MsgOfD(x))
  {
    NumOfBytes(x.data, PAYLOAD);
    LowBitsRange(x.data, 256);
  }

  /** The bytes of a packed bundle, as the queue delivers them, are the struct of the message
      the bundle denotes: hardware to host loses nothing either. */
  lemma WordToStructA(x: BundleA)
    requires WfBundleA(x)
    ensures LeBytes(PackA(x), WORD_BYTES) == StructA(MsgOfA(x))
  {
    BundleOfMsgA(x);
    StructAgreesA(MsgOfA(x));
    BytesOfNum(StructA(MsgOfA(x)));
  }

  lemma WordToStructD(x: BundleD)
    requires WfBundleD(x)
    ensures LeBytes(PackD(x), WORD_BYTES) == StructD(MsgOfD(x), Zeros(RESERVED))
  {
    BundleOfMsgD(x);
    StructAgreesD(MsgOfD(x), Zeros(RESERVED));
    BytesOfNum(StructD(MsgOfD(x), Zeros(RESERVED)));
  }
}
