/** Sixty-four bit machine words as integers, and the bitwise operations on them.

    A word is an integer in `[0, 2^64)`.  Addition, multiplication and shifts are ordinary
    arithmetic reduced modulo `2^64`; AND, OR and XOR are defined bit by bit, and the lemmas
    below give the two shapes the repository relies on: masking the low bits and gluing a byte
    under a shifted value. */
module Words {

  const TWO_TO_64: int := 0x1_0000_0000_0000_0000
  const TWO_TO_63: int := 0x8000_0000_0000_0000
  const TWO_TO_32: int := 0x1_0000_0000

  type Word = x: int | 0 <= x < 0x1_0000_0000_0000_0000
  type Half = x: int | 0 <= x < 0x1_0000_0000

  function Pow2(n: nat): (p: nat)
    ensures p >= 1
  {
    if n == 0 then 1 else 2 * Pow2(n - 1)
  }

  lemma {:induction false} PowAdd(a: nat, b: nat)
    ensures Pow2(a + b) == Pow2(a) * Pow2(b)
  {
    if a > 0 {
      PowAdd(a - 1, b);
      assert a + b - 1 == (a - 1) + b;
    }
  }

  lemma {:induction false} PowMonotone(a: nat, b: nat)
    requires a <= b
    ensures Pow2(a) <= Pow2(b)
  {
    if a < b { PowMonotone(a, b - 1); }
  }

  lemma PowValues()
    ensures Pow2(0) == 1 && Pow2(1) == 2 && Pow2(5) == 32 && Pow2(6) == 64
    ensures Pow2(8) == 0x100 && Pow2(16) == 0x1_0000 && Pow2(31) == 0x8000_0000
    ensures Pow2(32) == TWO_TO_32 && Pow2(63) == TWO_TO_63 && Pow2(64) == TWO_TO_64
  {
    assert Pow2(4) == 16;
    assert Pow2(8) == 256 by { PowAdd(4, 4); }
    PowAdd(8, 8);
    PowAdd(16, 16);
    PowAdd(32, 32);
    assert Pow2(32) == 2 * Pow2(31);
    assert Pow2(64) == 2 * Pow2(63);
  }

  /** The value read as two's complement. */
  function Signed(x: Word): (v: int)
    ensures -TWO_TO_63 <= v < TWO_TO_63 && (v - x) % TWO_TO_64 == 0
  {
    if x < TWO_TO_63 then x else x - TWO_TO_64
  }

  function Wrap(v: int): (x: Word) {
    v % TWO_TO_64
  }

  lemma WrapWord(x: int)
    ensures 0 <= x < TWO_TO_64 ==> Wrap(x) == x
  {
  }

  // ----- bit by bit operations -----

  datatype BitFn = BitAnd | BitOr | BitXor

  function OnBit(f: BitFn, x: nat, y: nat): (r: nat)
    ensures r <= 1
  {
    match f
    case BitAnd => if x == 1 && y == 1 then 1 else 0
    case BitOr => if x == 1 || y == 1 then 1 else 0
    case BitXor => if x == y then 0 else 1
  }

  /** `f` applied bit by bit, lowest bit first, until both numbers are used up. */
  function Bits(f: BitFn, a: nat, b: nat): nat
    decreases a + b
  {
    if a == 0 && b == 0 then 0 else OnBit(f, a % 2, b % 2) + 2 * Bits(f, a / 2, b / 2)
  }

  lemma {:induction false} BitsBound(f: BitFn, a: nat, b: nat, n: nat)
    requires a < Pow2(n) && b < Pow2(n)
    ensures Bits(f, a, b) < Pow2(n)
    decreases n
  {
    if a != 0 || b != 0 { BitsBound(f, a / 2, b / 2, n - 1); }
  }

  function And(a: Word, b: Word): Word { BitsWord(BitAnd, a, b); Bits(BitAnd, a, b) }

  function Or(a: Word, b: Word): Word { BitsWord(BitOr, a, b); Bits(BitOr, a, b) }

  function Xor(a: Word, b: Word): Word { BitsWord(BitXor, a, b); Bits(BitXor, a, b) }

  lemma BitsWord(f: BitFn, a: Word, b: Word)
    ensures 0 <= Bits(f, a, b) < TWO_TO_64
  {
    PowValues();
    BitsBound(f, a, b, 64);
  }

  function Shl(a: Word, k: nat): Word { Wrap(a * Pow2(k)) }

  function Shr(a: Word, k: nat): Word { DivSmaller(a, Pow2(k)); a / Pow2(k) }

  function BitAt(a: nat, k: nat): (r: nat)
    ensures r <= 1
  {
    (a / Pow2(k)) % 2
  }

  lemma DivSmaller(a: nat, d: nat)
    requires d >= 1
    ensures 0 <= a / d <= a
  {
    var q := a / d;
    MulAtLeast(q, d);
  }

  lemma MulAtLeast(q: nat, d: nat)
    requires d >= 1
    ensures q <= q * d
  {
  }

  // ----- the shapes that occur -----

  /** AND with `2^k - 1` keeps the value modulo `2^k`. */
  lemma {:induction false} MaskLow(x: nat, k: nat)
    ensures Bits(BitAnd, x, Pow2(k) - 1) == x % Pow2(k)
    decreases k
  {
    if k == 0 {
      ZeroAnd(x);
    } else {
      var p := Pow2(k - 1);
      assert (Pow2(k) - 1) % 2 == 1 && (Pow2(k) - 1) / 2 == p - 1;
      MaskLow(x / 2, k - 1);
      HalfMod(x, p);
    }
  }

  lemma {:induction false} ZeroAnd(x: nat)
    ensures Bits(BitAnd, x, 0) == 0
  {
    if x > 0 { ZeroAnd(x / 2); }
  }

  lemma HalfMod(x: nat, p: nat)
    requires p >= 1
    ensures x % (2 * p) == x % 2 + 2 * ((x / 2) % p)
  {
    var q, r := (x / 2) / p, (x / 2) % p;
    assert x / 2 == q * p + r;
    assert x == (2 * p) * q + (x % 2 + 2 * r);
    ModUnique(x, 2 * p, q, x % 2 + 2 * r);
  }

  lemma ModUnique(x: int, m: int, q: int, r: int)
    requires m >= 1 && x == m * q + r && 0 <= r < m
    ensures x % m == r && x / m == q
  {
    var d := q - x / m;
    MulDistribute(m, q, x / m);
    assert m * d == x % m - r;
    SmallMultiple(m, d);
  }

  lemma ModSmall(x: int, m: int)
    requires 0 <= x < m
    ensures x % m == x
  {
    ModUnique(x, m, 0, x);
  }

  lemma MulDistribute(m: int, a: int, b: int)
    ensures m * (a - b) == m * a - m * b
  {
  }

  lemma SmallMultiple(m: int, d: int)
    requires m >= 1 && -m < m * d < m
    ensures d == 0
  {
    assert m * -d == -(m * d);
    if d >= 1 { MulAtLeast(m, d); }
    if d <= -1 { MulAtLeast(m, -d); }
  }

  /** OR of a multiple of `2^k` with a value below `2^k` is their sum. */
  lemma {:induction false} OrGlue(h: nat, b: nat, k: nat)
    requires b < Pow2(k)
    ensures Bits(BitOr, h * Pow2(k), b) == h * Pow2(k) + b
    decreases k
  {
    if k == 0 {
      OrZero(h);
    } else {
      var p := Pow2(k - 1);
      assert h * Pow2(k) == 2 * (h * p);
      assert (h * Pow2(k)) % 2 == 0 && (h * Pow2(k)) / 2 == h * p;
      OrGlue(h, b / 2, k - 1);
    }
  }

  lemma {:induction false} OrZero(h: nat)
    ensures Bits(BitOr, h, 0) == h
  {
    if h > 0 { OrZero(h / 2); }
  }

  /** XOR of an all-ones value with a smaller one clears its bits: `(2^n - 1) ^ m == 2^n - 1 - m`. */
  lemma {:induction false} XorOnes(m: nat, n: nat)
    requires m < Pow2(n)
    ensures Bits(BitXor, Pow2(n) - 1, m) == Pow2(n) - 1 - m
    decreases n
  {
    if n > 0 {
      assert (Pow2(n) - 1) / 2 == Pow2(n - 1) - 1;
      XorOnes(m / 2, n - 1);
    }
  }

  lemma {:induction false} BitsCommute(f: BitFn, a: nat, b: nat)
    ensures Bits(f, a, b) == Bits(f, b, a)
    decreases a + b
  {
    if a != 0 || b != 0 { BitsCommute(f, a / 2, b / 2); }
  }
}
