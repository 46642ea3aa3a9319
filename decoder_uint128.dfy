/**
 * The 128-bit instruction word used by the AMDGPU disassembler's generated
 * decoder tables (class DecoderUInt128 in AMDGPUDisassembler.h).
 *
 * A value is a pair of 64-bit halves (lo, hi) standing for the integer
 * hi * 2^64 + lo. C++ `uint64_t` arithmetic is written out explicitly:
 * a left shift wraps modulo 2^64, subtraction wraps modulo 2^64, and a shift
 * by 64 or more (undefined behaviour in C++) is excluded by a precondition,
 * so every call site below is proved never to shift by 64.
 */
module DecoderUInt128 {

  /** 2^k. */
  function Pow2(k: nat): (r: nat)
    ensures r >= 1
  {
    if k == 0 then 1 else 2 * Pow2(k - 1)
  }

  const TWO_64: nat := 0x1_0000_0000_0000_0000

  lemma Pow2At64()
    ensures Pow2(64) == TWO_64
  {
    assert Pow2(4) == 16;
    Pow2Add(4, 4);
    assert Pow2(8) == 256;
    Pow2Add(8, 8);
    assert Pow2(16) == 0x1_0000;
    Pow2Add(16, 16);
    assert Pow2(32) == 0x1_0000_0000;
    Pow2Add(32, 32);
  }

  /** The values of a C++ `uint64_t`. */
  type U64 = x: nat | x < TWO_64

  /** The values of a C++ (32-bit) `int`. */
  type Int32 = x: int | -0x8000_0000 <= x < 0x8000_0000

  // ---------------------------------------------------------------------------
  // Bitwise operations on natural numbers, defined bit by bit.
  // ---------------------------------------------------------------------------

  /** Bit i of x. */
  function Bit(x: nat, i: nat): nat
  {
    (x / Pow2(i)) % 2
  }

  /** Bitwise and. */
  function And(a: nat, b: nat): nat
    decreases a
  {
    if a == 0 || b == 0 then 0
    else 2 * And(a / 2, b / 2) + (if a % 2 == 1 && b % 2 == 1 then 1 else 0)
  }

  /** Bitwise or. */
  function Or(a: nat, b: nat): nat
    decreases a
  {
    if a == 0 then b
    else if b == 0 then a
    else 2 * Or(a / 2, b / 2) + (if a % 2 == 1 || b % 2 == 1 then 1 else 0)
  }

  // ---------------------------------------------------------------------------
  // Arithmetic facts used below.
  // ---------------------------------------------------------------------------

  lemma {:induction false} Pow2Add(a: nat, b: nat)
    ensures Pow2(a + b) == Pow2(a) * Pow2(b)
  {
    if a > 0 {
      Pow2Add(a - 1, b);
      assert Pow2(a + b) == 2 * Pow2(a - 1 + b);
      MulAssoc(2, Pow2(a - 1), Pow2(b));
    }
  }

  lemma MulAssoc(x: int, y: int, z: int)
    ensures (x * y) * z == x * (y * z)
  {
  }

  lemma MulComm(x: int, y: int)
    ensures x * y == y * x
  {
  }

  lemma MulDistrib(x: int, y: int, z: int)
    ensures (x + y) * z == x * z + y * z
  {
  }

  lemma MulLeRight(x: int, y: int, z: int)
    requires x <= y && z >= 0
    ensures x * z <= y * z
  {
  }

  lemma {:induction false} Pow2Mono(a: nat, b: nat)
    requires a <= b
    ensures Pow2(a) <= Pow2(b)
  {
    if a < b {
      Pow2Mono(a, b - 1);
    }
  }

  /** Euclidean division is determined by quotient and remainder. */
  lemma DivModUnique(x: int, d: int, q: int, r: int)
    requires d > 0 && 0 <= r < d && x == q * d + r
    ensures x / d == q && x % d == r
  {
    var q0, r0 := x / d, x % d;
    assert x == q0 * d + r0;
    MulDistrib(q, -q0, d);
    assert (q - q0) * d == r0 - r;
    if q - q0 >= 1 {
      MulLeRight(1, q - q0, d);
      assert false;
    } else if q - q0 <= -1 {
      MulLeRight(q - q0, -1, d);
      assert false;
    }
  }

  lemma DivMulAdd(h: nat, d: nat, l: nat)
    requires d > 0 && l < d
    ensures (h * d + l) / d == h && (h * d + l) % d == l
  {
    DivModUnique(h * d + l, d, h, l);
  }

  /** x / (a * b) == (x / a) / b. */
  lemma DivDiv(x: nat, a: nat, b: nat)
    requires a > 0 && b > 0
    ensures x / (a * b) == (x / a) / b
  {
    var q1, r1 := x / a, x % a;
    var q2, r2 := q1 / b, q1 % b;
    assert x == q1 * a + r1;
    assert q1 == q2 * b + r2;
    MulDistrib(q2 * b, r2, a);
    MulAssoc(q2, b, a);
    MulComm(b, a);
    assert x == q2 * (a * b) + (r2 * a + r1);
    MulLeRight(r2, b - 1, a);
    MulDistrib(b, -1, a);
    MulComm(a, b);
    DivModUnique(x, a * b, q2, r2 * a + r1);
  }

  /** Adding a multiple of the modulus does not change the remainder. */
  lemma ModAddMultiple(x: nat, k: nat, d: nat)
    requires d > 0
    ensures (x + k * d) % d == x % d
  {
    var q, r := x / d, x % d;
    MulDistrib(q, k, d);
    DivModUnique(x + k * d, d, q + k, r);
  }

  /** x mod 2k, in terms of x/2 mod k. */
  lemma ModDouble(x: nat, k: nat)
    requires k > 0
    ensures x % (2 * k) == 2 * ((x / 2) % k) + x % 2
  {
    var q, r := (x / 2) / k, (x / 2) % k;
    assert x / 2 == q * k + r;
    MulAssoc(q, k, 2);
    MulComm(k, 2);
    assert x == q * (2 * k) + (2 * r + x % 2);
    DivModUnique(x, 2 * k, q, 2 * r + x % 2);
  }

  /** (h * pa) mod (pa * pb) keeps h mod pb, scaled by pa. */
  lemma MulModSplit(h: nat, pa: nat, pb: nat, n: nat)
    requires pa > 0 && pb > 0 && n == pa * pb
    ensures (h * pa) % n == pa * (h % pb)
  {
    var q, r := h / pb, h % pb;
    MulExpand(h, q, r, pb, pa);
    MulLtRight(r, pb, pa);
    DivModUnique(h * pa, n, q, pa * r);
  }

  /** h == q * pb + r scaled by pa. */
  lemma MulExpand(h: nat, q: nat, r: nat, pb: nat, pa: nat)
    requires h == q * pb + r
    ensures h * pa == q * (pa * pb) + pa * r
  {
    MulDistrib(q * pb, r, pa);
    MulAssoc(q, pb, pa);
    MulComm(pb, pa);
    MulComm(r, pa);
  }

  lemma MulLtRight(r: nat, pb: nat, pa: nat)
    requires r < pb && pa > 0
    ensures pa * r < pa * pb
  {
    MulLeRight(r + 1, pb, pa);
    MulDistrib(r, 1, pa);
    MulComm(r, pa);
    MulComm(pb, pa);
  }

  /** Reducing modulo n before a multiplication does not change the result modulo n. */
  lemma ModMulMod(x: nat, e: nat, n: nat)
    requires n > 0
    ensures ((x % n) * e) % n == (x * e) % n
  {
    var q, r := x / n, x % n;
    ScaleSplit(x, q, r, n, e);
    ModAddMultiple(r * e, q * e, n);
  }

  /** x == q * n + r scaled by e. */
  lemma ScaleSplit(x: nat, q: nat, r: nat, n: nat, e: nat)
    requires x == q * n + r
    ensures x * e == r * e + (q * e) * n
  {
    MulDistrib(q * n, r, e);
    MulAssoc(q, n, e);
    MulComm(n, e);
    MulAssoc(q, e, n);
  }

  /** x < pa * pb implies x / pa < pb. */
  lemma DivBelow(x: nat, pa: nat, pb: nat)
    requires pa > 0 && x < pa * pb
    ensures x / pa < pb
  {
    var q := x / pa;
    assert x == q * pa + x % pa;
    if q >= pb {
      MulLeRight(pb, q, pa);
      MulComm(pb, pa);
      assert false;
    }
  }

  // ---------------------------------------------------------------------------
  // Facts about the bitwise operations.
  // ---------------------------------------------------------------------------

  lemma {:induction false} AndBound(a: nat, b: nat)
    ensures And(a, b) <= a && And(a, b) <= b
    decreases a
  {
    if a != 0 && b != 0 {
      AndBound(a / 2, b / 2);
    }
  }

  lemma {:induction false} OrBound(a: nat, b: nat, w: nat)
    requires a < Pow2(w) && b < Pow2(w)
    ensures Or(a, b) < Pow2(w)
    decreases a
  {
    if a != 0 && b != 0 {
      assert w > 0;
      OrBound(a / 2, b / 2, w - 1);
    }
  }

  /** Masking with 2^n - 1 keeps the low n bits. */
  lemma {:induction false} AndLowMask(x: nat, n: nat)
    ensures And(x, Pow2(n) - 1) == x % Pow2(n)
    decreases n
  {
    if n == 0 {
    } else if x == 0 {
    } else {
      var m := Pow2(n) - 1;
      assert m / 2 == Pow2(n - 1) - 1 && m % 2 == 1;
      AndLowMask(x / 2, n - 1);
      ModDouble(x, Pow2(n - 1));
    }
  }

  /** Or of a value below 2^k with a multiple of 2^k is their sum. */
  lemma {:induction false} OrDisjoint(a: nat, b: nat, k: nat)
    requires a < Pow2(k)
    ensures Or(a, b * Pow2(k)) == a + b * Pow2(k)
    decreases k
  {
    var c := b * Pow2(k);
    if a == 0 || c == 0 {
    } else {
      assert k > 0;
      assert c == 2 * (b * Pow2(k - 1)) by {
        MulAssoc(b, 2, Pow2(k - 1));
      }
      assert c / 2 == b * Pow2(k - 1) && c % 2 == 0;
      OrDisjoint(a / 2, b, k - 1);
    }
  }

  /** Bitwise and, one bit at a time, without the zero special cases. */
  lemma AndUnfold(a: nat, b: nat)
    ensures And(a, b) == 2 * And(a / 2, b / 2) + (if a % 2 == 1 && b % 2 == 1 then 1 else 0)
  {
  }

  /** Bitwise and of two values split at bit k (d = 2^k) is the split of their and. */
  lemma {:induction false} AndSplit(a: nat, b: nat, a1: nat, a0: nat, b1: nat, b0: nat, k: nat, d: nat)
    requires d == Pow2(k) && a0 < d && b0 < d
    requires a == a1 * d + a0 && b == b1 * d + b0
    ensures And(a, b) == And(a1, b1) * d + And(a0, b0)
    decreases k
  {
    if k > 0 {
      var p := Pow2(k - 1);
      HalfSplit(a, a1, a0, p, d);
      HalfSplit(b, b1, b0, p, d);
      AndSplit(a / 2, b / 2, a1, a0 / 2, b1, b0 / 2, k - 1, p);
      AndUnfold(a, b);
      AndUnfold(a0, b0);
      MulTwice(And(a1, b1), p, d);
    } else {
      MulOne(a1, d);
      MulOne(b1, d);
      MulOne(And(a1, b1), d);
    }
  }

  /** Halving a value split at d = 2p splits its half at p. */
  lemma HalfSplit(x: nat, x1: nat, x0: nat, p: nat, d: nat)
    requires d == 2 * p && x == x1 * d + x0
    ensures x / 2 == x1 * p + x0 / 2 && x % 2 == x0 % 2
  {
    MulTwice(x1, p, d);
  }

  lemma MulTwice(x: nat, p: nat, d: nat)
    requires d == 2 * p
    ensures x * d == 2 * (x * p)
  {
  }

  lemma MulOne(x: nat, d: nat)
    requires d == 1
    ensures x * d == x
  {
  }

  /** A value and its complement within w bits share no set bit. */
  lemma {:induction false} AndComplement(x: nat, w: nat)
    requires x < Pow2(w)
    ensures And(x, Pow2(w) - 1 - x) == 0
    decreases w
  {
    var y := Pow2(w) - 1 - x;
    if x == 0 || y == 0 {
    } else {
      var p := Pow2(w - 1);
      assert y / 2 == p - 1 - x / 2 && y % 2 == 1 - x % 2;
      AndComplement(x / 2, w - 1);
    }
  }

  /** Halving the complement within w bits gives the complement within w - 1 bits. */
  lemma ComplementHalf(x: nat, w: nat)
    requires x < Pow2(w) && w > 0
    ensures (Pow2(w) - 1 - x) / 2 == Pow2(w - 1) - 1 - x / 2
    ensures (Pow2(w) - 1 - x) % 2 == 1 - x % 2
  {
    var p := Pow2(w - 1);
    assert Pow2(w) - 1 - x == 2 * (p - 1 - x / 2) + (1 - x % 2);
    DivModUnique(Pow2(w) - 1 - x, 2, p - 1 - x / 2, 1 - x % 2);
  }

  /** Bit i of x is bit i - 1 of x / 2. */
  lemma BitHalf(x: nat, i: nat)
    requires i > 0
    ensures Bit(x, i) == Bit(x / 2, i - 1)
  {
    DivDiv(x, 2, Pow2(i - 1));
  }

  /** Bit i of the complement within w bits is the flipped bit. */
  lemma {:induction false} ComplementBit(x: nat, w: nat, i: nat)
    requires x < Pow2(w) && i < w
    ensures Bit(Pow2(w) - 1 - x, i) == 1 - Bit(x, i)
    decreases i
  {
    var y := Pow2(w) - 1 - x;
    ComplementHalf(x, w);
    if i > 0 {
      BitHalf(x, i);
      BitHalf(y, i);
      ComplementBit(x / 2, w - 1, i - 1);
    } else {
      assert Bit(y, 0) == y % 2 && Bit(x, 0) == x % 2;
    }
  }

  // ---------------------------------------------------------------------------
  // uint64_t operators.
  // ---------------------------------------------------------------------------

  /** `x << k` on uint64_t; a shift by 64 or more is undefined in C++. */
  function Shl(x: U64, k: nat): (r: U64)
    requires k < 64
    ensures r == (x * Pow2(k)) % TWO_64
  {
    (x * Pow2(k)) % TWO_64
  }

  /** `x >> k` on uint64_t; a shift by 64 or more is undefined in C++. */
  function Shr(x: U64, k: nat): (r: U64)
    requires k < 64
    ensures r == x / Pow2(k)
  {
    var q := DivAtMost(x, Pow2(k));
    q
  }

  /** Division by a positive number, which never increases a value. */
  function DivAtMost(x: nat, d: nat): (q: nat)
    requires d >= 1
    ensures q == x / d && q <= x
  {
    var q := x / d;
    assert x == d * q + x % d;
    MulLeRight(1, d, q);
    q
  }

  /** `a - b` on uint64_t, wrapping modulo 2^64. */
  function Sub(a: U64, b: U64): (r: U64)
    ensures a >= b ==> r == a - b
    ensures a < b ==> r == TWO_64 + a - b
  {
    var d := a - b;
    if d >= 0 then d else TWO_64 + d
  }

  /** `a & b` on uint64_t. */
  function And64(a: U64, b: U64): (r: U64)
    ensures r == And(a, b)
  {
    AndBound(a, b);
    And(a, b)
  }

  /** `a | b` on uint64_t. */
  function Or64(a: U64, b: U64): (r: U64)
    ensures r == Or(a, b)
  {
    Pow2At64();
    OrBound(a, b, 64);
    Or(a, b)
  }

  /** `~x` on uint64_t: every bit flipped. */
  function Not64(x: U64): (r: U64)
    ensures forall i :: 0 <= i < 64 ==> Bit(r, i) == 1 - Bit(x, i)
  {
    Pow2At64();
    forall i | 0 <= i < 64 ensures Bit(TWO_64 - 1 - x, i) == 1 - Bit(x, i) {
      ComplementBit(x, 64, i);
    }
    TWO_64 - 1 - x
  }

  // ---------------------------------------------------------------------------
  // DecoderUInt128.
  // ---------------------------------------------------------------------------

  datatype DecoderUInt128 = DecoderUInt128(lo: U64, hi: U64)

  /** The 128-bit integer a value stands for. */
  function Value(v: DecoderUInt128): nat
  {
    v.hi * TWO_64 + v.lo
  }

  /** `DecoderUInt128()`: the defaulted constructor zero-initialises both halves. */
  function Default(): (r: DecoderUInt128)
    ensures Value(r) == 0
  {
    DecoderUInt128(0, 0)
  }

  /** `DecoderUInt128(Lo, Hi = 0)`. */
  function Make(lo: U64, hi: U64 := 0): (r: DecoderUInt128)
    ensures Value(r) == hi * TWO_64 + lo
  {
    DecoderUInt128(lo, hi)
  }

  /** `operator bool`: `Lo || Hi`. */
  function ToBool(v: DecoderUInt128): (r: bool)
    ensures r <==> Value(v) != 0
  {
    v.lo != 0 || v.hi != 0
  }

  /** The mask `(uint64_t(2) << (NumBits - 1)) - 1`. */
  function ExtractMask(numBits: nat): U64
    requires 1 <= numBits <= 64
  {
    Sub(Shl(2, numBits - 1), 1)
  }

  /**
   * `extractBitsAsZExtValue(NumBits, BitPosition)`; the two asserts of the
   * source are the precondition.
   */
  function ExtractBitsAsZExtValue(v: DecoderUInt128, numBits: nat, bitPosition: nat): (r: U64)
    requires 1 <= numBits <= 64 && bitPosition < 128
    ensures r < Pow2(numBits)
  {
    var val :=
      if bitPosition < 64 then Or64(Shr(v.lo, bitPosition), Shl(Shl(v.hi, 1), 63 - bitPosition))
      else Shr(v.hi, bitPosition - 64);
    MaskIsLowBits(numBits);
    AndLowMask(val, numBits);
    And64(val, ExtractMask(numBits))
  }

  /** The mask is 2^NumBits - 1, also for NumBits == 64 (2 << 63 wraps to 0). */
  lemma MaskIsLowBits(numBits: nat)
    requires 1 <= numBits <= 64
    ensures ExtractMask(numBits) == Pow2(numBits) - 1
  {
    Pow2At64();
    assert 2 * Pow2(numBits - 1) == Pow2(numBits);
    if numBits < 64 {
      Pow2Mono(numBits + 1, 64);
      DivModUnique(Pow2(numBits), TWO_64, 0, Pow2(numBits));
    } else {
      DivModUnique(TWO_64, TWO_64, 1, 0);
    }
  }

  /** `Hi << 1 << (63 - p)` keeps the low p bits of Hi, moved to the top of the word. */
  lemma ShiftedHigh(hi: U64, p: nat)
    requires p < 64
    ensures Shl(Shl(hi, 1), 63 - p) == (hi % Pow2(p)) * Pow2(64 - p)
  {
    Pow2At64();
    var e, pa, pb := Pow2(63 - p), Pow2(64 - p), Pow2(p);
    assert pa == 2 * e;
    ModMulMod(hi * 2, e, TWO_64);
    MulAssoc(hi, 2, e);
    Pow2Add(64 - p, p);
    MulModSplit(hi, pa, pb, TWO_64);
    MulComm(pa, hi % pb);
  }

  /** `Lo >> p` lies below 2^(64 - p). */
  lemma ShiftedLowBound(lo: U64, p: nat)
    requires p < 64
    ensures lo / Pow2(p) < Pow2(64 - p)
  {
    Pow2At64();
    Pow2Add(p, 64 - p);
    DivBelow(lo, Pow2(p), Pow2(64 - p));
  }

  /** (h * (k * d) + l) / d == h * k + l / d. */
  lemma DivSplit(h: nat, k: nat, d: nat, l: nat)
    requires d > 0
    ensures (h * (k * d) + l) / d == h * k + l / d
  {
    var a := l / d;
    assert l == a * d + l % d;
    MulAssoc(h, k, d);
    MulDistrib(h * k, a, d);
    DivMulAdd(h * k + a, d, l % d);
  }

  /** The 128-bit value shifted right by p < 64. */
  lemma ValueShifted(v: DecoderUInt128, p: nat)
    requires p < 64
    ensures Value(v) / Pow2(p) == v.hi * Pow2(64 - p) + v.lo / Pow2(p)
  {
    Pow2At64();
    Pow2Add(64 - p, p);
    DivSplit(v.hi, Pow2(64 - p), Pow2(p), v.lo);
  }

  /** Dropping multiples of k * d from h * k leaves (h mod d) * k, modulo any divisor n of k * d. */
  lemma DropMultiple(h: nat, k: nat, d: nat, n: nat, m: nat, a: nat)
    requires d > 0 && n > 0 && k * d == m * n
    ensures (h * k + a) % n == (a + (h % d) * k) % n
  {
    var hq, hl := h / d, h % d;
    assert h == hq * d + hl;
    MulDistrib(hq * d, hl, k);
    MulAssoc(hq, d, k);
    MulComm(d, k);
    MulAssoc(hq, m, n);
    assert h * k + a == (a + hl * k) + (hq * m) * n;
    ModAddMultiple(a + hl * k, hq * m, n);
  }

  /** Only the low p bits of Hi reach bits below 64 of the shifted value. */
  lemma DropHighBits(hi: nat, a: nat, p: nat, n: nat)
    requires p < 64 && 1 <= n <= 64
    ensures (hi * Pow2(64 - p) + a) % Pow2(n) == (a + (hi % Pow2(p)) * Pow2(64 - p)) % Pow2(n)
  {
    Pow2Add(64 - p, p);
    Pow2Add(64 - n, n);
    DropMultiple(hi, Pow2(64 - p), Pow2(p), Pow2(n), Pow2(64 - n), a);
  }

  /** For BitPosition < 64 the two halves are combined without a 64-bit shift. */
  lemma {:induction false} ExtractLowPosition(v: DecoderUInt128, numBits: nat, bitPosition: nat)
    requires 1 <= numBits <= 64 && bitPosition < 64
    ensures ExtractBitsAsZExtValue(v, numBits, bitPosition)
         == (Value(v) / Pow2(bitPosition)) % Pow2(numBits)
  {
    var p := bitPosition;
    var a := Shr(v.lo, p);
    ShiftedHigh(v.hi, p);
    ShiftedLowBound(v.lo, p);
    OrDisjoint(a, v.hi % Pow2(p), 64 - p);
    var val := a + (v.hi % Pow2(p)) * Pow2(64 - p);
    assert Or64(a, Shl(Shl(v.hi, 1), 63 - p)) == val;
    MaskIsLowBits(numBits);
    AndLowMask(val, numBits);
    ValueShifted(v, p);
    DropHighBits(v.hi, a, p, numBits);
  }

  /** For 64 <= BitPosition < 128 only the high half contributes. */
  lemma {:induction false} ExtractHighPosition(v: DecoderUInt128, numBits: nat, bitPosition: nat)
    requires 1 <= numBits <= 64 && 64 <= bitPosition < 128
    ensures ExtractBitsAsZExtValue(v, numBits, bitPosition)
         == (v.hi / Pow2(bitPosition - 64)) % Pow2(numBits)
    ensures ExtractBitsAsZExtValue(v, numBits, bitPosition)
         == (Value(v) / Pow2(bitPosition)) % Pow2(numBits)
  {
    Pow2At64();
    var val := Shr(v.hi, bitPosition - 64);
    MaskIsLowBits(numBits);
    AndLowMask(val, numBits);
    Pow2Add(64, bitPosition - 64);
    DivDiv(Value(v), TWO_64, Pow2(bitPosition - 64));
    DivMulAdd(v.hi, TWO_64, v.lo);
  }

  /** Both cases together: the field of the 128-bit integer at BitPosition. */
  lemma ExtractIsField(v: DecoderUInt128, numBits: nat, bitPosition: nat)
    requires 1 <= numBits <= 64 && bitPosition < 128
    ensures ExtractBitsAsZExtValue(v, numBits, bitPosition)
         == (Value(v) / Pow2(bitPosition)) % Pow2(numBits)
  {
    if bitPosition < 64 {
      ExtractLowPosition(v, numBits, bitPosition);
    } else {
      ExtractHighPosition(v, numBits, bitPosition);
    }
  }

  /** `operator&(const DecoderUInt128 &)`: componentwise, i.e. 128-bit and. */
  function AndWith(a: DecoderUInt128, b: DecoderUInt128): (r: DecoderUInt128)
    ensures r.lo == And(a.lo, b.lo) && r.hi == And(a.hi, b.hi)
  {
    DecoderUInt128(And64(a.lo, b.lo), And64(a.hi, b.hi))
  }

  /** The componentwise and is the and of the 128-bit integers. */
  lemma AndIs128BitAnd(a: DecoderUInt128, b: DecoderUInt128)
    ensures Value(AndWith(a, b)) == And(Value(a), Value(b))
  {
    Pow2At64();
    AndSplit(Value(a), Value(b), a.hi, a.lo, b.hi, b.lo, 64, TWO_64);
  }


  /** `operator&(const uint64_t &)`: and with DecoderUInt128(RHS). */
  function AndWithU64(a: DecoderUInt128, rhs: U64): (r: DecoderUInt128)
    ensures r.hi == 0 && r.lo == And(a.lo, rhs)
  {
    AndBound(a.hi, 0);
    AndWith(a, Make(rhs))
  }

  /** `operator~`: both halves complemented. */
  function Complement(a: DecoderUInt128): (r: DecoderUInt128)
    ensures Value(r) == Pow2(128) - 1 - Value(a)
  {
    Pow2At64();
    Pow2Add(64, 64);
    DecoderUInt128(Not64(a.lo), Not64(a.hi))
  }

  /** ~~x == x. */
  lemma ComplementInvolutive(a: DecoderUInt128)
    ensures Complement(Complement(a)) == a
  {
  }

  /** x & ~x converts to false. */
  lemma AndComplementIsFalse(a: DecoderUInt128)
    ensures !ToBool(AndWith(a, Complement(a)))
  {
    Pow2At64();
    AndComplement(a.lo, 64);
    AndComplement(a.hi, 64);
  }

  /** `operator==`. */
  function Equal(a: DecoderUInt128, b: DecoderUInt128): (r: bool)
    ensures r <==> Value(a) == Value(b)
  {
    if a.lo == b.lo && a.hi == b.hi then true
    else
      assert Value(a) != Value(b) by {
        if Value(a) == Value(b) {
          DivMulAdd(a.hi, TWO_64, a.lo);
          DivMulAdd(b.hi, TWO_64, b.lo);
        }
      }
      false
  }

  /** `operator!=(const DecoderUInt128 &)`. */
  function NotEqual(a: DecoderUInt128, b: DecoderUInt128): (r: bool)
    ensures r == !Equal(a, b)
  {
    a.lo != b.lo || a.hi != b.hi
  }

  /** The `uint64_t` an `int` converts to: sign extension, i.e. wrap modulo 2^64. */
  function U64OfInt(x: Int32): (r: U64)
    ensures r == x % TWO_64
  {
    if x >= 0 then x else TWO_64 + x
  }

  /** `operator!=(const int &)`: compares with DecoderUInt128(uint64_t(RHS)), whose Hi is 0. */
  function NotEqualInt(a: DecoderUInt128, rhs: Int32): (r: bool)
    ensures r <==> (a.lo != U64OfInt(rhs) || a.hi != 0)
  {
    NotEqual(a, Make(U64OfInt(rhs)))
  }

  /** `x != 0` is the truth value of x. */
  lemma NotEqualZeroIsTruth(a: DecoderUInt128)
    ensures NotEqualInt(a, 0) == ToBool(a)
  {
  }
}
