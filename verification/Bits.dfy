/** Machine-word arithmetic on natural numbers: powers of two, single bits, the bitwise
    "and" the C++ code masks with, shifts, and the two count-zeros builtins. Each
    operation is defined bit by bit; the lemmas give its arithmetic meaning. */
module Bits {

  type byte = x: int | 0 <= x < 256

  const WORD64: nat := 0x1_0000_0000_0000_0000

  function Pow2(k: nat): (p: nat)
    ensures p > 0
  {
    if k == 0 then 1 else 2 * Pow2(k - 1)
  }

  predicate Bit(x: nat, i: nat)
    decreases i, x
  {
    if i == 0 then x % 2 == 1 else Bit(x / 2, i - 1)
  }

  /** The value an unsigned 64-bit variable holds after `x` is stored in it. */
  function Wrap64(x: nat): (r: nat)
    ensures r < WORD64 && (x < WORD64 ==> r == x)
  {
    x % WORD64
  }

  /** Bitwise and, as in `x & y`. */
  function And(x: nat, y: nat): nat {
    if x == 0 || y == 0 then 0
    else (if x % 2 == 1 && y % 2 == 1 then 1 else 0) + 2 * And(x / 2, y / 2)
  }

  /** Bitwise or, as in `x | y`. */
  function Or(x: nat, y: nat): nat {
    if x == 0 then y else if y == 0 then x
    else (if x % 2 == 1 || y % 2 == 1 then 1 else 0) + 2 * Or(x / 2, y / 2)
  }

  /** `x << s` on an unsigned 32-bit value. */
  function Shl32(x: nat, s: nat): nat {
    LowBits(x * Pow2(s), 32)
  }

  /** `x >> s`. */
  function Shr(x: nat, s: nat): nat
    decreases s, x
  {
    if s == 0 then x else Shr(x / 2, s - 1)
  }

  /** The number of clear bits of `x` at positions `top`, `top - 1`, ... above its first set bit. */
  function LeadingZeros(x: nat, top: nat): nat
    decreases top, x
  {
    if Bit(x, top) then 0 else if top == 0 then 1 else 1 + LeadingZeros(x, top - 1)
  }

  /** The log of the largest power of two up to `n`. */
  function FloorLog2(n: nat): (k: nat)
    requires n > 0
    ensures Pow2(k) <= n < 2 * Pow2(k)
  {
    if n == 1 then 0 else 1 + FloorLog2(n / 2)
  }

  /** `__builtin_clzll(x)`. */
  function Clz64(x: nat): nat {
    LeadingZeros(x, 63)
  }

  /** `__builtin_ctz(x)` and `__builtin_ctzll(x)`. */
  function Ctz(x: nat): nat
    requires x > 0
  {
    if x % 2 == 1 then 0 else 1 + Ctz(x / 2)
  }

  ghost predicate IsPow2(n: nat) {
    exists k: nat :: Pow2(k) == n
  }

  // ---- powers of two ----

  lemma {:induction false} Pow2Add(a: nat, b: nat)
    ensures Pow2(a + b) == Pow2(a) * Pow2(b)
  {
    if a > 0 {
      Pow2Add(a - 1, b);
      assert Pow2(a + b) == 2 * Pow2(a - 1 + b);
    }
  }

  lemma {:induction false} Pow2Mono(a: nat, b: nat)
    requires a <= b
    ensures Pow2(a) <= Pow2(b)
    ensures a < b ==> 2 * Pow2(a) <= Pow2(b)
    decreases b
  {
    if a < b { Pow2Mono(a, b - 1); }
  }

  lemma Pow2Order(a: nat, b: nat)
    ensures Pow2(a) <= Pow2(b) <==> a <= b
    ensures Pow2(a) < Pow2(b) <==> a < b
    ensures Pow2(a) == Pow2(b) <==> a == b
  {
    if a <= b { Pow2Mono(a, b); } else { Pow2Mono(b, a); }
  }

  lemma ShrPow2(k: nat)
    requires k > 0
    ensures Shr(Pow2(k), 1) == Pow2(k - 1)
  {
    assert Shr(Pow2(k), 1) == Shr(Pow2(k) / 2, 0);
  }

  // ---- division and remainder ----

  lemma MulDistribute(p: int, a: int, q: int, r: int)
    ensures p * (a + q * r) == p * a + (p * q) * r
  {
    assert p * (a + q * r) == p * a + p * (q * r);
  }

  lemma MulBound(p: nat, r: nat, q: nat)
    requires p > 0 && r < q
    ensures p * r + p <= p * q
  {
    var g := q - r;
    assert p * q == p * r + p * g;
    MulAtLeast(g, p);
  }

  lemma DivModUnique(x: int, d: int, q: int, r: int)
    requires d > 0 && x == q * d + r && 0 <= r < d
    ensures x / d == q && x % d == r
  {
    assert x == (x / d) * d + x % d;
    assert (x / d - q) * d == r - x % d;
    if x / d > q {
      MulAtLeast(x / d - q, d);
    } else if x / d < q {
      MulAtLeast(q - x / d, d);
    }
  }

  lemma MulAtLeast(a: int, d: int)
    requires a >= 1 && d > 0
    ensures a * d >= d
  {
    assert a * d == (a - 1) * d + d;
  }

  lemma MulIsMultiple(q: int, d: int)
    requires d > 0
    ensures (q * d) % d == 0 && (q * d) / d == q
  {
    DivModUnique(q * d, d, q, 0);
  }

  lemma MultipleSum(a: int, b: int, d: int)
    requires d > 0 && a % d == 0
    ensures (a + b) % d == b % d
    ensures (a + b) / d == a / d + b / d
  {
    assert a == (a / d) * d && b == (b / d) * d + b % d;
    assert a + b == (a / d + b / d) * d + b % d;
    DivModUnique(a + b, d, a / d + b / d, b % d);
  }

  /** Two multiples of `d` that differ, differ by at least `d`. */
  lemma MultipleGap(a: int, b: int, d: int)
    requires d > 0 && a % d == 0 && b % d == 0 && a < b
    ensures a + d <= b
  {
    assert a == (a / d) * d && b == (b / d) * d;
    var g := b / d - a / d;
    assert b - a == g * d;
    if g >= 1 { MulAtLeast(g, d); }
  }

  lemma Regroup(q: int, b: int, r: int, a: int)
    ensures (q * b + r) * a == q * (a * b) + a * r
  {
    assert (q * b) * a == q * (a * b);
  }

  lemma DivDiv(x: nat, a: nat, b: nat)
    requires a > 0 && b > 0
    ensures a * b > 0
    ensures x / (a * b) == x / a / b
    ensures x % (a * b) == x % a + a * (x / a % b)
  {
    var q, r := x / a, x % a;
    Regroup(q / b, b, q % b, a);
    MulBound(a, q % b, b);
    DivModUnique(x, a * b, q / b, a * (q % b) + r);
  }

  lemma PowMultiple(j: nat, k: nat)
    requires j <= k
    ensures Pow2(k) % Pow2(j) == 0 && Pow2(k) == Pow2(k - j) * Pow2(j)
    ensures Pow2(k) / Pow2(j) == Pow2(k - j)
  {
    Pow2Add(k - j, j);
    MulIsMultiple(Pow2(k - j), Pow2(j));
  }

  /** Alignment to a power of two is alignment to every smaller one. */
  lemma AlignedDown(x: nat, j: nat, k: nat)
    requires j <= k && x % Pow2(k) == 0
    ensures x % Pow2(j) == 0
  {
    Pow2Add(j, k - j);
    DivDiv(x, Pow2(j), Pow2(k - j));
    assert 0 <= Pow2(j) * (x / Pow2(j) % Pow2(k - j));
  }

  // ---- shifting and the low bits ----

  lemma {:induction false} ShrDiv(x: nat, s: nat)
    ensures Shr(x, s) == x / Pow2(s)
    decreases s
  {
    if s > 0 {
      ShrDiv(x / 2, s - 1);
      DivDiv(x, 2, Pow2(s - 1));
    }
  }

  lemma {:induction false} ShrAdd(x: nat, a: nat, b: nat)
    ensures Shr(x, a + b) == Shr(Shr(x, a), b)
    decreases a
  {
    if a > 0 { ShrAdd(x / 2, a - 1, b); }
  }

  lemma DoubleMul(p: int, r: int)
    ensures (2 * p) * r == 2 * (p * r)
  {
  }

  lemma HalveSum(v: nat, t: nat)
    ensures (v + 2 * t) / 2 == v / 2 + t && (v + 2 * t) % 2 == v % 2
  {
  }

  /** A value above `w` low bits: shifting drops them, masking drops the rest. */
  lemma {:induction false} SplitSum(v: nat, w: nat, rest: nat)
    requires v < Pow2(w)
    ensures Shr(v + Pow2(w) * rest, w) == rest && LowBits(v + Pow2(w) * rest, w) == v
    decreases w
  {
    if w > 0 {
      SplitSum(v / 2, w - 1, rest);
      DoubleMul(Pow2(w - 1), rest);
      HalveSum(v, Pow2(w - 1) * rest);
    }
  }

  /** The low `w + s` bits are the low `w`, and the `s` above them. */
  lemma {:induction false} LowBitsSplit(x: nat, w: nat, s: nat)
    ensures LowBits(x, w + s) == LowBits(x, w) + Pow2(w) * LowBits(Shr(x, w), s)
    decreases w
  {
    if w > 0 {
      LowBitsSplit(x / 2, w - 1, s);
      DoubleMul(Pow2(w - 1), LowBits(Shr(x, w), s));
      assert LowBits(x, w + s) == x % 2 + 2 * LowBits(x / 2, w - 1 + s);
    }
  }

  // ---- alignment ----

  /** The low `k` bits of `x` are clear: `x` is a multiple of `2^k`. */
  predicate Aligned(x: nat, k: nat)
    decreases k, x
  {
    k == 0 || (x % 2 == 0 && Aligned(x / 2, k - 1))
  }

  lemma {:induction false} AlignedMod(x: nat, k: nat)
    ensures Aligned(x, k) <==> x % Pow2(k) == 0
    decreases k
  {
    if k > 0 {
      AlignedMod(x / 2, k - 1);
      DivDiv(x, 2, Pow2(k - 1));
    }
  }

  lemma {:induction false} AlignedLess(x: nat, j: nat, k: nat)
    requires j <= k && Aligned(x, k)
    ensures Aligned(x, j)
    decreases k
  {
    if j > 0 { AlignedLess(x / 2, j - 1, k - 1); }
  }

  /** One aligned block further on the address is still aligned, and if it was not aligned to
      twice the block it now is. */
  lemma {:induction false} AlignedStep(x: nat, k: nat)
    requires Aligned(x, k)
    ensures Aligned(x + Pow2(k), k)
    ensures !Aligned(x, k + 1) ==> Aligned(x + Pow2(k), k + 1)
    decreases k
  {
    if k > 0 {
      AlignedStep(x / 2, k - 1);
      assert (x + Pow2(k)) / 2 == x / 2 + Pow2(k - 1);
    } else {
      assert Aligned(x, 1) <==> x % 2 == 0;
      assert Aligned(x + 1, 1) <==> (x + 1) % 2 == 0;
    }
  }

  lemma {:induction false} AlignedSum(x: nat, y: nat, k: nat)
    requires Aligned(x, k) && Aligned(y, k)
    ensures Aligned(x + y, k)
    ensures x >= y ==> Aligned(x - y, k)
    decreases k
  {
    if k > 0 {
      AlignedSum(x / 2, y / 2, k - 1);
      assert (x + y) / 2 == x / 2 + y / 2;
      assert x >= y ==> (x - y) / 2 == x / 2 - y / 2;
    }
  }

  lemma {:induction false} AlignedPow2(j: nat, k: nat)
    requires j <= k
    ensures Aligned(Pow2(k), j)
  {
    if j > 0 { AlignedPow2(j - 1, k - 1); }
  }

  lemma {:induction false} AlignedAtLeast(x: nat, k: nat)
    requires Aligned(x, k) && x > 0
    ensures x >= Pow2(k)
    decreases k
  {
    if k > 0 { AlignedAtLeast(x / 2, k - 1); }
  }

  /** Two different aligned addresses are a block apart. */
  lemma AlignedGap(a: nat, b: nat, k: nat)
    requires Aligned(a, k) && Aligned(b, k) && a < b
    ensures a + Pow2(k) <= b
  {
    AlignedSum(b, a, k);
    AlignedAtLeast(b - a, k);
  }

  lemma AlignedShr(x: nat, k: nat)
    requires Aligned(x, k)
    ensures Shr(x, k) * Pow2(k) == x
  {
    AlignedMod(x, k);
    ShrDiv(x, k);
  }

  /** The low `k` bits of `x`: `x mod 2^k`. */
  function LowBits(x: nat, k: nat): nat
    decreases k, x
  {
    if k == 0 then 0 else x % 2 + 2 * LowBits(x / 2, k - 1)
  }

  lemma {:induction false} LowBitsMod(x: nat, k: nat)
    ensures LowBits(x, k) == x % Pow2(k)
    decreases k
  {
    if k > 0 {
      LowBitsMod(x / 2, k - 1);
      DivDiv(x, 2, Pow2(k - 1));
    }
  }

  lemma {:induction false} LowBitsRange(x: nat, k: nat)
    ensures LowBits(x, k) < Pow2(k) && LowBits(x, k) <= x
    ensures x < Pow2(k) ==> LowBits(x, k) == x
    decreases k
  {
    if k > 0 { LowBitsRange(x / 2, k - 1); }
  }

  /** The offset of an aligned block inside a larger one leaves room for the block. */
  lemma {:induction false} LowBitsAligned(x: nat, j: nat, k: nat)
    requires Aligned(x, j)
    ensures Aligned(LowBits(x, k), j) || k < j
    ensures j <= k ==> LowBits(x, k) + Pow2(j) <= Pow2(k)
    ensures k <= j ==> LowBits(x, k) == 0
    decreases k
  {
    if k > 0 {
      if j > 0 {
        LowBitsAligned(x / 2, j - 1, k - 1);
        assert LowBits(x, k) / 2 == LowBits(x / 2, k - 1);
      } else {
        LowBitsRange(x, k);
      }
    }
  }

  // ---- bits and masks ----

  /** Masking with `2^k - 1` takes the remainder. */
  lemma {:induction false} AndLowMask(x: nat, k: nat)
    ensures And(x, Pow2(k) - 1) == x % Pow2(k)
    decreases k
  {
    if k > 0 {
      var m := Pow2(k) - 1;
      assert m % 2 == 1 && m / 2 == Pow2(k - 1) - 1;
      AndLowMask(x / 2, k - 1);
      DivDiv(x, 2, Pow2(k - 1));
    }
  }

  lemma HalfPow2(n: nat)
    requires n > 0 && n % 2 == 0
    ensures IsPow2(n) <==> IsPow2(n / 2)
  {
    if k: nat :| Pow2(k) == n / 2 { assert Pow2(k + 1) == n; }
    if k: nat :| Pow2(k) == n { assert k > 0 && Pow2(k - 1) == n / 2; }
  }

  lemma OddNotPow2(n: nat)
    requires n > 1 && n % 2 == 1
    ensures !IsPow2(n)
  {
    forall k: nat ensures Pow2(k) != n {
      if k > 0 { assert Pow2(k) == 2 * Pow2(k - 1); }
    }
  }

  lemma AndPred(n: nat)
    requires n > 1
    ensures And(n, n - 1) == 2 * if n % 2 == 0 then And(n / 2, n / 2 - 1) else And(n / 2, n / 2)
  {
    if n % 2 == 0 {
      assert (n - 1) / 2 == n / 2 - 1 && (n - 1) % 2 == 1;
    } else {
      assert (n - 1) / 2 == n / 2 && (n - 1) % 2 == 0;
    }
  }

  /** `len & (len - 1)` is zero exactly for the powers of two. */
  lemma {:induction false} AndPredZero(n: nat)
    requires n > 0
    ensures And(n, n - 1) == 0 <==> IsPow2(n)
  {
    hide And, IsPow2;
    if n == 1 {
      OneIsPow2();
    } else {
      AndPred(n);
      if n % 2 == 0 {
        AndPredZero(n / 2);
        HalfPow2(n);
      } else {
        AndSelf(n / 2);
        OddNotPow2(n);
      }
    }
  }

  lemma OneIsPow2()
    ensures And(1, 0) == 0 && IsPow2(1)
  {
    assert Pow2(0) == 1;
  }

  lemma {:induction false} AndSelf(x: nat)
    ensures And(x, x) == x
  {
    if x > 0 { AndSelf(x / 2); }
  }

  lemma {:induction false} BitOfLowMask(k: nat, i: nat)
    ensures Bit(Pow2(k) - 1, i) <==> i < k
    decreases i
  {
    if k > 0 {
      assert Pow2(k) - 1 == 2 * (Pow2(k - 1) - 1) + 1;
      if i > 0 { BitOfLowMask(k - 1, i - 1); }
    } else {
      BitOfZero(i);
    }
  }

  lemma {:induction false} BitOfZero(i: nat)
    ensures !Bit(0, i)
  {
    if i > 0 { BitOfZero(i - 1); }
  }

  lemma {:induction false} BitOfShift(x: nat, s: nat, i: nat)
    ensures Bit(x * Pow2(s), i) <==> s <= i && Bit(x, i - s)
    decreases s
  {
    if s > 0 {
      assert x * Pow2(s) == 2 * (x * Pow2(s - 1));
      if i > 0 { BitOfShift(x, s - 1, i - 1); }
    }
  }

  lemma {:induction false} BitOfLowBits(x: nat, k: nat, i: nat)
    ensures Bit(LowBits(x, k), i) <==> i < k && Bit(x, i)
    decreases k
  {
    if k == 0 {
      BitOfZero(i);
    } else if i > 0 {
      BitOfLowBits(x / 2, k - 1, i - 1);
    }
  }

  lemma {:induction false} BitOfAnd(x: nat, y: nat, i: nat)
    ensures Bit(And(x, y), i) <==> Bit(x, i) && Bit(y, i)
    decreases i
  {
    if x == 0 || y == 0 {
      BitOfZero(i);
    } else if i > 0 {
      BitOfAnd(x / 2, y / 2, i - 1);
    }
  }

  lemma {:induction false} BitOfOr(x: nat, y: nat, i: nat)
    ensures Bit(Or(x, y), i) <==> Bit(x, i) || Bit(y, i)
    decreases i
  {
    if x == 0 || y == 0 {
      BitOfZero(i);
    } else if i > 0 {
      BitOfOr(x / 2, y / 2, i - 1);
    }
  }

  /** Numbers with the same bits are the same number. */
  lemma {:induction false} SameBits(x: nat, y: nat)
    requires forall i: nat :: Bit(x, i) <==> Bit(y, i)
    ensures x == y
    decreases x + y
  {
    if x + y > 0 {
      assert Bit(x, 0) <==> Bit(y, 0);
      forall i: nat ensures Bit(x / 2, i) <==> Bit(y / 2, i) {
        assert Bit(x, i + 1) <==> Bit(y, i + 1);
      }
      SameBits(x / 2, y / 2);
    }
  }

  // ---- counting zeros ----

  /** A number below `2^(top+1)` with its top bit set is at least `2^top`. */
  lemma {:induction false} TopBit(x: nat, top: nat)
    requires x < Pow2(top + 1)
    ensures Bit(x, top) <==> x >= Pow2(top)
    decreases top
  {
    if top > 0 { TopBit(x / 2, top - 1); }
  }

  lemma {:induction false} LeadingZerosRange(x: nat, top: nat)
    requires 0 < x < Pow2(top + 1)
    ensures var z := LeadingZeros(x, top); z <= top && Pow2(top - z) <= x < Pow2(top - z + 1)
    decreases top
  {
    TopBit(x, top);
    if !Bit(x, top) { LeadingZerosRange(x, top - 1); }
  }

  lemma {:induction false} CtzOfPow2(k: nat)
    ensures Ctz(Pow2(k)) == k
  {
    if k > 0 { CtzOfPow2(k - 1); }
  }

  /** `Ctz` finds the lowest set bit. */
  lemma {:induction false} CtzIsLowestBit(x: nat, i: nat)
    requires x > 0
    ensures Bit(x, Ctz(x))
    ensures Bit(x, i) ==> Ctz(x) <= i
    decreases x
  {
    if x % 2 == 0 { CtzIsLowestBit(x / 2, if i == 0 then 0 else i - 1); }
  }
}
