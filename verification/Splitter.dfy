/** The range splitter of the memory interface: cut `[addr, addr + n)` greedily into
    self-aligned power-of-two pieces, in address order. */
module Splitter {
  import opened Bits

  datatype Piece = Piece(addr: nat, len: nat)

  ghost predicate SelfAligned(p: Piece) {
    IsPow2(p.len) && p.addr % p.len == 0
  }

  /** The pieces lie end to end, in order, and fill `[addr, addr + n)`. */
  ghost predicate Tiles(ps: seq<Piece>, addr: nat, n: nat)
    decreases |ps|
  {
    if ps == [] then n == 0
    else ps[0].addr == addr && 0 < ps[0].len <= n && Tiles(ps[1..], addr + ps[0].len, n - ps[0].len)
  }

  // ---- one piece ----

  /** Lower `k` until `curr` is aligned to `2^k`: halving a chunk of `2^k` bytes. */
  function Halve(curr: nat, k: nat): (j: nat)
    ensures j <= k
  {
    if Aligned(curr, k) then k else Halve(curr, k - 1)
  }

  lemma WordIsPow2()
    ensures Pow2(64) == WORD64
  {
    assert Pow2(4) == 16;
    Pow2Add(4, 4);
    Pow2Add(8, 8);
    Pow2Add(16, 16);
    Pow2Add(32, 32);
  }

  /** `floor_pow2` shifts by `63 - __builtin_clzll(n)`, which is that log. */
  lemma FloorPow2IsLargest(n: nat)
    requires 0 < n < WORD64
    ensures Clz64(n) <= 63 && 63 - Clz64(n) == FloorLog2(n)
  {
    hide LeadingZeros, FloorLog2;
    WordIsPow2();
    LeadingZerosRange(n, 63);
    Pow2Order(63 - Clz64(n), FloorLog2(n) + 1);
    Pow2Order(FloorLog2(n), 63 - Clz64(n) + 1);
  }

  /** The log of the length of the piece at `curr`: start from the largest power of two that
      fits and halve it until `curr` is aligned to it. */
  function ChunkLg(curr: nat, remaining: nat): (k: nat)
    requires remaining > 0
    ensures Pow2(k) <= remaining
  {
    var top := FloorLog2(remaining);
    Pow2Mono(Halve(curr, top), top);
    Halve(curr, top)
  }

  lemma {:induction false} HalveFinds(curr: nat, k: nat)
    ensures Aligned(curr, Halve(curr, k))
    ensures Halve(curr, k) < k ==> !Aligned(curr, Halve(curr, k) + 1)
  {
    if !Aligned(curr, k) { HalveFinds(curr, k - 1); }
  }

  /** The next piece is aligned and cannot be doubled. */
  lemma NextChunk(addr: nat, n: nat)
    requires n > 0
    ensures var k := ChunkLg(addr, n); Aligned(addr, k) && (Pow2(k + 1) <= n ==> !Aligned(addr, k + 1))
  {
    var top := FloorLog2(n);
    HalveFinds(addr, top);
    Pow2Order(ChunkLg(addr, n) + 1, top + 1);
  }

  /** It is the largest power of two that fits and is aligned. */
  lemma NextChunkIsLargest(addr: nat, n: nat, j: nat)
    requires n > 0
    requires Pow2(j) <= n && Aligned(addr, j)
    ensures j <= ChunkLg(addr, n)
  {
    var k := ChunkLg(addr, n);
    NextChunk(addr, n);
    if j > k {
      Pow2Mono(k + 1, j);
      AlignedLess(addr, k + 1, j);
    }
  }

  // ---- the whole range ----

  function Pieces(addr: nat, n: nat): (ps: seq<Piece>)
    decreases n
  {
    if n == 0 then []
    else
      var c := Pow2(ChunkLg(addr, n));
      [Piece(addr, c)] + Pieces(addr + c, n - c)
  }

  lemma {:induction false} PiecesTile(addr: nat, n: nat)
    ensures Tiles(Pieces(addr, n), addr, n)
    ensures forall p :: p in Pieces(addr, n) ==> SelfAligned(p)
    decreases n
  {
    if n > 0 {
      var k := ChunkLg(addr, n);
      NextChunk(addr, n);
      AlignedMod(addr, k);
      PiecesTile(addr + Pow2(k), n - Pow2(k));
      assert Pieces(addr, n)[1..] == Pieces(addr + Pow2(k), n - Pow2(k));
    }
  }

  /** The inner loop: `floor_pow2` of what remains, shifted right until `curr` is aligned. */
  method AlignedChunk(curr: nat, remaining: nat) returns (chunk: nat)
    requires 0 < remaining < WORD64
    ensures chunk == Pow2(ChunkLg(curr, remaining))
  {
    hide And, LeadingZeros, FloorLog2;
    FloorPow2IsLargest(remaining);
    chunk := Pow2(63 - Clz64(remaining));
    ghost var k := FloorLog2(remaining);
    MaskTestsAlignment(curr, k);
    while And(curr, chunk - 1) != 0
      invariant chunk == Pow2(k)
      invariant And(curr, chunk - 1) == 0 <==> Aligned(curr, k)
      invariant Halve(curr, k) == ChunkLg(curr, remaining)
      decreases k
    {
      ShrPow2(k);
      chunk := Shr(chunk, 1);
      k := k - 1;
      MaskTestsAlignment(curr, k);
    }
  }

  /** The outer loop, with the address wrapping at 64 bits as `addr_t` does. */
  method ForAlignedChunks(addr: nat, nbytes: nat) returns (pieces: seq<Piece>)
    requires addr + nbytes <= WORD64 && nbytes < WORD64
    ensures pieces == Pieces(addr, nbytes)
    ensures Tiles(pieces, addr, nbytes)
    ensures forall p :: p in pieces ==> SelfAligned(p)
  {
    hide Aligned, FloorLog2, ChunkLg, Pow2, Wrap64, SelfAligned, Tiles;
    pieces := [];
    var curr, remaining := addr, nbytes;
    ghost var at := addr;
    while remaining > 0
      invariant 0 <= remaining <= nbytes && at + remaining == addr + nbytes
      invariant remaining > 0 ==> curr == at
      invariant pieces + Pieces(at, remaining) == Pieces(addr, nbytes)
    {
      var chunk := AlignedChunk(curr, remaining);
      pieces := pieces + [Piece(curr, chunk)];
      at := at + chunk;
      curr := Wrap64(curr + chunk);
      remaining := remaining - chunk;
    }
    PiecesTile(addr, nbytes);
  }

  lemma MaskTestsAlignment(x: nat, k: nat)
    ensures And(x, Pow2(k) - 1) == 0 <==> Aligned(x, k)
  {
    AndLowMask(x, k);
    AlignedMod(x, k);
  }

  // ---- legality of every piece ----

  /** Every piece of a beat-aligned range is a power of two between the beat and the range
      length, aligned to itself, with its log recovered by counting trailing zeros. */
  lemma {:induction false} PiecesLegal(addr: nat, n: nat, lgBeat: nat, maxBytes: nat)
    requires n <= maxBytes <= 4096
    requires Aligned(addr, lgBeat) && Aligned(n, lgBeat)
    ensures forall p :: p in Pieces(addr, n) ==> PieceLegal(p, addr, n, lgBeat, maxBytes)
    decreases n
  {
    hide PieceLegal, Aligned, FloorLog2, Halve, ChunkLg, Pow2;
    if n > 0 {
      var k := ChunkLg(addr, n);
      var c := Pow2(k);
      AlignedAtLeast(n, lgBeat);
      NextChunkIsLargest(addr, n, lgBeat);
      NextChunk(addr, n);
      AlignedPow2(lgBeat, k);
      AlignedSum(addr, c, lgBeat);
      AlignedSum(n, c, lgBeat);
      PiecesLegal(addr + c, n - c, lgBeat, maxBytes);
      PieceIsLegal(addr, k, n, lgBeat, maxBytes);
      forall p | p in Pieces(addr + c, n - c) ensures PieceLegal(p, addr, n, lgBeat, maxBytes) {
        LegalInPart(p, addr, c, n, lgBeat, maxBytes);
      }
    }
  }

  lemma LegalInPart(p: Piece, addr: nat, c: nat, n: nat, lgBeat: nat, maxBytes: nat)
    requires c <= n && PieceLegal(p, addr + c, n - c, lgBeat, maxBytes)
    ensures PieceLegal(p, addr, n, lgBeat, maxBytes)
  {
  }

  lemma PieceIsLegal(addr: nat, k: nat, n: nat, lgBeat: nat, maxBytes: nat)
    requires lgBeat <= k && Pow2(k) <= n <= maxBytes <= 4096 && Aligned(addr, k)
    ensures PieceLegal(Piece(addr, Pow2(k)), addr, n, lgBeat, maxBytes)
  {
    CtzOfPow2(k);
    AndPredZero(Pow2(k));
    AndLowMask(addr, k);
    AlignedMod(addr, k);
    Pow2Order(k, 12);
    Pow2Order(lgBeat, k);
    assert Pow2(12) == 4096;
  }

  /** What `validate_len_addr`, `read`/`write` and the message builders assert of a piece. */
  ghost predicate PieceLegal(p: Piece, addr: nat, n: nat, lgBeat: nat, maxBytes: nat) {
    && p.len > 0
    && And(p.len, p.len - 1) == 0 && And(p.addr, p.len - 1) == 0
    && Pow2(lgBeat) <= p.len <= maxBytes
    && Ctz(p.len) <= 12 && Pow2(Ctz(p.len)) == p.len
    && p.addr % p.len == 0
    && addr <= p.addr && p.addr + p.len <= addr + n
  }

  // ---- optimality ----

  /** The blocks stay inside `[addr, addr + n)` and reach every byte of it. */
  ghost predicate Covers(qs: set<Piece>, addr: nat, n: nat) {
    && (forall q :: q in qs ==> SelfAligned(q) && addr <= q.addr && q.addr + q.len <= addr + n)
    && (forall b :: addr <= b < addr + n ==> Reached(qs, b))
  }

  ghost predicate Reached(qs: set<Piece>, b: int) {
    exists q :: q in qs && Holds(q, b)
  }

  ghost predicate Holds(q: Piece, b: int) {
    q.addr <= b < q.addr + q.len
  }

  /** Self-aligned blocks are laminar: if they share a byte the smaller is inside the larger. */
  lemma Laminar(p: Piece, q: Piece, b: nat)
    requires SelfAligned(p) && SelfAligned(q) && p.len <= q.len
    requires Holds(p, b) && Holds(q, b)
    ensures q.addr <= p.addr && p.addr + p.len <= q.addr + q.len
  {
    var j: nat :| Pow2(j) == p.len;
    var k: nat :| Pow2(k) == q.len;
    Pow2Order(j, k);
    AlignedDown(q.addr, j, k);
    PowMultiple(j, k);
    MultipleSum(q.addr, q.len, p.len);
    if p.addr < q.addr { MultipleGap(p.addr, q.addr, p.len); }
    MultipleGap(p.addr, q.addr + q.len, p.len);
  }

  /** Against the greedy first piece, a competing block lies inside it or after it. */
  lemma InsideOrAfter(addr: nat, n: nat, q: Piece)
    requires n > 0
    requires SelfAligned(q) && addr <= q.addr && q.addr + q.len <= addr + n
    ensures var c := Pow2(ChunkLg(addr, n)); q.addr + q.len <= addr + c || addr + c <= q.addr
  {
    var k := ChunkLg(addr, n);
    NextChunk(addr, n);
    AlignedMod(addr, k);
    var j: nat :| Pow2(j) == q.len;
    AlignedMod(q.addr, j);
    Pow2Order(j, k);
    if q.addr < addr + Pow2(k) {
      if q.len <= Pow2(k) {
        Laminar(q, Piece(addr, Pow2(k)), q.addr);
      } else {
        Laminar(Piece(addr, Pow2(k)), q, q.addr);
        NextChunkIsLargest(addr, n, j);
      }
    }
  }

  /** No cover of the range by self-aligned power-of-two blocks, overlapping or not, has fewer
      blocks than the splitter emits. */
  lemma {:induction false} GreedyOptimal(addr: nat, n: nat, qs: set<Piece>)
    requires Covers(qs, addr, n)
    ensures |Pieces(addr, n)| <= |qs|
    decreases n
  {
    hide Pow2, FloorLog2, ChunkLg, SelfAligned;
    if n > 0 {
      var c := Pow2(ChunkLg(addr, n));
      var rest := From(qs, addr + c);
      forall b | addr + c <= b < addr + n ensures Reached(rest, b) {
        assert Reached(qs, b);
        var q :| q in qs && Holds(q, b);
        InsideOrAfter(addr, n, q);
        assert q in rest;
      }
      GreedyOptimal(addr + c, n - c, rest);
      assert Reached(qs, addr);
      var first :| first in qs && Holds(first, addr);
      SubsetSize(rest, qs - {first});
    }
  }

  ghost function From(qs: set<Piece>, a: nat): set<Piece> {
    set q | q in qs && a <= q.addr
  }

  lemma {:induction false} SubsetSize<T>(a: set<T>, b: set<T>)
    requires a <= b
    ensures |a| <= |b|
  {
    if a != {} {
      var x :| x in a;
      SubsetSize(a - {x}, b - {x});
    }
  }

  ghost function SetOf(ps: seq<Piece>): set<Piece> {
    set p | p in ps
  }

  /** The splitter's own pieces are such a cover, with as many distinct blocks as emitted: the
      bound is attained. */
  lemma {:induction false} GreedyAttains(addr: nat, n: nat)
    ensures Covers(SetOf(Pieces(addr, n)), addr, n)
    ensures |SetOf(Pieces(addr, n))| == |Pieces(addr, n)|
    decreases n
  {
    PiecesTile(addr, n);
    TilesCover(Pieces(addr, n), addr, n);
  }

  lemma {:induction false} TilesCover(ps: seq<Piece>, addr: nat, n: nat)
    requires Tiles(ps, addr, n) && forall p :: p in ps ==> SelfAligned(p)
    ensures Covers(SetOf(ps), addr, n) && |SetOf(ps)| == |ps|
    decreases |ps|
  {
    hide SelfAligned;
    if ps != [] {
      var first, rest, c := ps[0], ps[1..], ps[0].len;
      TilesCover(rest, addr + c, n - c);
      assert SetOf(ps) == {first} + SetOf(rest);
      assert first !in SetOf(rest);
      forall b | addr <= b < addr + n ensures Reached(SetOf(ps), b) {
        if b < addr + c {
          assert Holds(first, b);
        } else {
          assert Reached(SetOf(rest), b);
        }
      }
    }
  }

  // ---- shape and count ----

  ghost predicate Rising(ps: seq<Piece>) {
    forall i, j :: 0 <= i < j < |ps| ==> ps[i].len < ps[j].len
  }

  ghost predicate Falling(ps: seq<Piece>) {
    forall i, j :: 0 <= i < j < |ps| ==> ps[i].len > ps[j].len
  }

  /** Once the address is aligned beyond what remains, sizes only fall. */
  lemma {:induction false} FallingTail(addr: nat, n: nat, k: nat)
    requires Aligned(addr, k) && n < Pow2(k)
    ensures Falling(Pieces(addr, n))
    ensures forall p :: p in Pieces(addr, n) ==> p.len < Pow2(k)
    decreases n
  {
    hide FloorLog2, ChunkLg, Aligned, Halve;
    if n > 0 {
      var j := ChunkLg(addr, n);
      var c := Pow2(j);
      NextChunk(addr, n);
      Pow2Order(j, k);
      AlignedLess(addr, j + 1, k);
      AlignedStep(addr, j);
      FallingTail(addr + c, n - c, j);
      Prepend(Piece(addr, c), Pieces(addr + c, n - c));
    }
  }

  lemma Prepend(p: Piece, ps: seq<Piece>)
    requires Falling(ps) && forall q :: q in ps ==> q.len < p.len
    ensures Falling([p] + ps)
  {
    assert forall i :: 0 <= i < |ps| ==> ps[i] in ps;
  }

  lemma PrependRise(p: Piece, ps: seq<Piece>, s: nat)
    requires s <= |ps| && Rising(ps[..s]) && Falling(ps[s..])
    requires s > 0 ==> p.len < ps[0].len
    ensures Rising(([p] + ps)[..s + 1]) && Falling(([p] + ps)[s + 1..])
  {
    assert ([p] + ps)[..s + 1] == [p] + ps[..s] && ([p] + ps)[s + 1..] == ps[s..];
    assert s > 0 ==> ps[..s][0] == ps[0];
  }

  /** Sizes rise strictly up to position `s` and fall strictly from there on. */
  lemma {:induction false} Bitonic(addr: nat, n: nat, k: nat) returns (s: nat)
    requires Aligned(addr, k)
    ensures s <= |Pieces(addr, n)|
    ensures Rising(Pieces(addr, n)[..s]) && Falling(Pieces(addr, n)[s..])
    ensures s > 0 ==> Pieces(addr, n)[0].len >= Pow2(k)
    decreases n
  {
    hide FloorLog2, ChunkLg, Aligned, Halve;
    s := 0;
    if n > 0 {
      var j := ChunkLg(addr, n);
      var c := Pow2(j);
      var first, rest := Piece(addr, c), Pieces(addr + c, n - c);
      NextChunk(addr, n);
      AlignedStep(addr, j);
      assert Pieces(addr, n) == [first] + rest;
      if Pow2(j + 1) <= n {
        if k > j { AlignedLess(addr, j + 1, k); }
        Pow2Mono(k, j);
        s := Bitonic(addr + c, n - c, j + 1);
        PrependRise(first, rest, s);
        s := s + 1;
      } else {
        FallingTail(addr + c, n - c, j);
        Prepend(first, rest);
        assert ([first] + rest)[0..] == [first] + rest;
      }
    }
  }

  lemma BitonicShape(addr: nat, n: nat)
    ensures exists s: nat :: s <= |Pieces(addr, n)|
              && Rising(Pieces(addr, n)[..s]) && Falling(Pieces(addr, n)[s..])
  {
    var s := Bitonic(addr, n, 0);
  }

  /** No size occurs three times. */
  lemma SizeAtMostTwice(addr: nat, n: nat, h: nat, i: nat, j: nat)
    requires h < i < j < |Pieces(addr, n)|
    ensures !(Pieces(addr, n)[h].len == Pieces(addr, n)[i].len == Pieces(addr, n)[j].len)
  {
    hide Pieces;
    var s := Bitonic(addr, n, 0);
    var ps := Pieces(addr, n);
    if i < s {
      assert ps[h] == ps[..s][h] && ps[i] == ps[..s][i];
    } else {
      assert ps[i] == ps[s..][i - s] && ps[j] == ps[s..][j - s];
    }
  }

  /** The piece is `2^k` bytes for some `lo <= k <= hi`. */
  ghost predicate SizeIn(p: Piece, lo: nat, hi: int) {
    exists k: nat :: lo <= k <= hi && p.len == Pow2(k)
  }

  /** Distinct powers of two between `2^lo` and `2^hi`, in order: at most `hi - lo + 1`. */
  lemma {:induction false} MonotoneCount(ps: seq<Piece>, lo: nat, hi: int)
    requires Rising(ps) || Falling(ps)
    requires forall p :: p in ps ==> SizeIn(p, lo, hi)
    ensures |ps| <= if hi < lo then 0 else hi - lo + 1
    decreases |ps|
  {
    if ps != [] {
      // drop the largest: the last of a rising run, the first of a falling one
      var top, rest := ps[|ps| - 1], ps[..|ps| - 1];
      if Falling(ps) { top, rest := ps[0], ps[1..]; }
      assert top in ps;
      var t: nat :| lo <= t <= hi && top.len == Pow2(t);
      forall p | p in rest ensures SizeIn(p, lo, t - 1) {
        var i :| 0 <= i < |rest| && rest[i] == p;
        assert p in ps && p.len < top.len;
        var k: nat :| lo <= k <= hi && p.len == Pow2(k);
        Pow2Order(k, t);
      }
      MonotoneCount(rest, lo, t - 1);
    }
  }

  /** As `MonotoneCount`, one fewer when every size is below `2^hi`. */
  lemma TightCount(ps: seq<Piece>, lo: nat, hi: nat)
    requires Rising(ps) || Falling(ps)
    requires lo <= hi && forall p :: p in ps ==> SizeIn(p, lo, hi) && p.len != Pow2(hi)
    ensures |ps| <= hi - lo
  {
    forall p | p in ps ensures SizeIn(p, lo, hi - 1) {
      var k: nat :| lo <= k <= hi && p.len == Pow2(k);
    }
    MonotoneCount(ps, lo, hi - 1);
  }

  /** The pieces of a beat-aligned range shorter than `2^(hi + 1)` have sizes from the beat up to
      `2^hi`. */
  lemma {:induction false} PieceSizes(addr: nat, n: nat, lgBeat: nat, hi: nat)
    requires Aligned(addr, lgBeat) && Aligned(n, lgBeat) && n < Pow2(hi + 1)
    ensures forall p :: p in Pieces(addr, n) ==> SizeIn(p, lgBeat, hi)
    decreases n
  {
    hide Aligned, FloorLog2, Halve, ChunkLg, Pow2, SizeIn;
    if n > 0 {
      var k := ChunkLg(addr, n);
      var c := Pow2(k);
      AlignedAtLeast(n, lgBeat);
      NextChunkIsLargest(addr, n, lgBeat);
      Pow2Order(k, hi + 1);
      AlignedPow2(lgBeat, k);
      AlignedSum(addr, c, lgBeat);
      AlignedSum(n, c, lgBeat);
      PieceSizes(addr + c, n - c, lgBeat, hi);
      HasSize(Piece(addr, c), k, lgBeat, hi);
    }
  }

  lemma AlignedAny(x: nat)
    ensures Aligned(x, 0)
  {
  }

  lemma HasSize(p: Piece, k: nat, lo: nat, hi: nat)
    requires lo <= k <= hi && p.len == Pow2(k)
    ensures SizeIn(p, lo, hi)
  {
  }

  /** A beat-aligned range of `n` bytes takes at most `2*floor(log2(n / beat)) + 1` pieces,
      where `hi` and `lgBeat` are the logs of the largest power of two up to `n` and the beat. */
  lemma CountBound(addr: nat, n: nat, lgBeat: nat, hi: nat)
    requires n > 0 && Aligned(addr, lgBeat) && Aligned(n, lgBeat)
    requires Pow2(hi) <= n < Pow2(hi + 1)
    ensures lgBeat <= hi
    ensures |Pieces(addr, n)| <= 2 * (hi - lgBeat) + 1
  {
    hide Aligned, ChunkLg, FloorLog2, Pow2, Rising, Falling, SizeIn, Tiles, Pieces;
    PieceSizes(addr, n, lgBeat, hi);
    AlignedAtLeast(n, lgBeat);
    Pow2Order(lgBeat, hi + 1);
    AlignedAny(addr);
    var s := Bitonic(addr, n, 0);
    PiecesTile(addr, n);
    HalvesCount(Pieces(addr, n), addr, n, s, lgBeat, hi);
  }

  /** Two pieces of size `2^hi` would not fit, so at most one of the two runs contains one. */
  lemma HalvesCount(ps: seq<Piece>, addr: nat, n: nat, s: nat, lo: nat, hi: nat)
    requires Tiles(ps, addr, n) && n < Pow2(hi + 1) && lo <= hi && s <= |ps|
    requires Rising(ps[..s]) && Falling(ps[s..])
    requires forall p :: p in ps ==> SizeIn(p, lo, hi)
    ensures |ps| <= 2 * (hi - lo) + 1
  {
    var up, down := ps[..s], ps[s..];
    MonotoneCount(up, lo, hi);
    MonotoneCount(down, lo, hi);
    if i: nat :| i < s && ps[i].len == Pow2(hi) {
      forall p | p in down ensures p.len != Pow2(hi) {
        var j :| 0 <= j < |down| && down[j] == p;
        TwoFit(ps, addr, n, i, s + j);
      }
      TightCount(down, lo, hi);
    } else {
      TightCount(up, lo, hi);
    }
  }

  lemma {:induction false} TwoFit(ps: seq<Piece>, addr: nat, n: nat, i: nat, j: nat)
    requires Tiles(ps, addr, n) && i < j < |ps|
    ensures ps[i].len + ps[j].len <= n
    decreases |ps|
  {
    if i > 0 {
      TwoFit(ps[1..], addr + ps[0].len, n - ps[0].len, i - 1, j - 1);
    } else {
      OneFits(ps[1..], addr + ps[0].len, n - ps[0].len, j - 1);
    }
  }

  lemma {:induction false} OneFits(ps: seq<Piece>, addr: nat, n: nat, i: nat)
    requires Tiles(ps, addr, n) && i < |ps|
    ensures ps[i].len <= n
    decreases |ps|
  {
    if i > 0 { OneFits(ps[1..], addr + ps[0].len, n - ps[0].len, i - 1); }
  }
}
