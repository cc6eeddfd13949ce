/** The arithmetic of shifting one place at a time. */
module ShiftValues {
  import opened Words
  import opened Machine
  import opened Translator
  import W = Wasm

  /** What one turn of the emitted loop does to R27; `sign` is the bit R25 holds for shr_s. */
  function Turn(width: nat, mode: ShiftMode, sign: bool, x: Word): Word
    requires width == 32 || width == 64
  {
    match mode
    case ShiftLeft => Shl(x, 1)
    case ShiftRightU => Shr(x, 1)
    case ShiftRightS => if sign then SetBit(Shr(x, 1), width - 1) else Shr(x, 1)
    case RotateL => if BitAt(x, width - 1) == 1 then SetBit(Shl(x, 1), 0) else Shl(x, 1)
    case RotateR => if BitAt(x, 0) == 1 then SetBit(Shr(x, 1), width - 1) else Shr(x, 1)
  }

  function SetBit(x: Word, k: nat): Word
    requires k < 64
  {
    BitOp(BSET, x, k)
  }

  function Turns(width: nat, mode: ShiftMode, sign: bool, x: Word, k: nat): Word
    requires width == 32 || width == 64
    decreases k
  {
    if k == 0 then x else Turn(width, mode, sign, Turns(width, mode, sign, x, k - 1))
  }

  lemma {:induction false} TurnsFirst(width: nat, mode: ShiftMode, sign: bool, x: Word, k: nat)
    requires (width == 32 || width == 64) && k >= 1
    ensures Turns(width, mode, sign, x, k) == Turns(width, mode, sign, Turn(width, mode, sign, x), k - 1)
    decreases k
  {
    hide Turn;
    if k > 1 { TurnsFirst(width, mode, sign, x, k - 1); }
  }

  lemma {:induction false} OneShl(x: Word)
    ensures Shl(x, 1) == 2 * x % TWO_TO_64
  {
    assert Pow2(1) == 2;
  }

  lemma {:induction false} OneShr(x: Word)
    ensures Shr(x, 1) == x / 2
  {
    assert Pow2(1) == 2;
  }

  lemma {:induction false} SetBitHigh(x: Word, k: nat)
    requires k < 64 && x < Pow2(k)
    ensures Pow2(k) + x < TWO_TO_64 && SetBit(x, k) == x + Pow2(k)
  {
    hide Bits, Pow2;
    BsetOp(x, k);
    BitsCommute(BitOr, x, Pow2(k));
    OrGlue(1, x, k);
    PowDouble(k);
    PowMonotone(k + 1, 64);
    PowValues();
  }

  lemma {:induction false} SetBitLow(x: Word)
    requires x % 2 == 0
    ensures x + 1 < TWO_TO_64 && SetBit(x, 0) == x + 1
  {
    hide Bits;
    BsetOp(x, 0);
    assert Pow2(0) == 1 && Pow2(1) == 2;
    OrGlue(x / 2, 1, 1);
  }

  lemma {:induction false} BsetOp(x: Word, k: nat)
    requires k < 64
    ensures Pow2(k) < TWO_TO_64 && SetBit(x, k) == Bits(BitOr, x, Pow2(k))
  {
    hide Bits, Pow2;
    PowMonotone(k, 63);
    PowValues();
  }

  lemma {:induction false} PowDouble(k: nat)
    ensures Pow2(k + 1) == 2 * Pow2(k)
  {
  }

  lemma {:induction false} BitZero(x: nat)
    ensures BitAt(x, 0) == x % 2
  {
    assert Pow2(0) == 1;
  }

  // ----- left -----

  lemma {:induction false} TurnsLeft(width: nat, x: Word, k: nat)
    requires width == 32 || width == 64
    ensures Turns(width, ShiftLeft, false, x, k) == x * Pow2(k) % TWO_TO_64
    decreases k
  {
    if k == 0 {
      assert Pow2(0) == 1;
    } else {
      TurnsLeft(width, x, k - 1);
      var y := Turns(width, ShiftLeft, false, x, k - 1);
      OneShl(y);
      DoubleMod(x * Pow2(k - 1), TWO_TO_64);
      PowDouble(k - 1);
      Scale(x, Pow2(k - 1));
    }
  }

  lemma {:induction false} Scale(x: nat, p: nat)
    ensures x * (2 * p) == 2 * (x * p)
  {
  }

  lemma {:induction false} DoubleMod(v: nat, m: nat)
    requires m >= 1
    ensures 2 * (v % m) % m == 2 * v % m
  {
    var q, r := v / m, v % m;
    var q', r' := 2 * r / m, 2 * r % m;
    assert 2 * v == m * (2 * q + q') + r' by {
      assert v == m * q + r;
      assert 2 * r == m * q' + r';
      assert m * (2 * q + q') == 2 * (m * q) + m * q' by { MulSum(m, q, q'); }
    }
    ModUnique(2 * v, m, 2 * q + q', r');
  }

  lemma {:induction false} MulSum(m: int, q: int, q': int)
    ensures m * (2 * q + q') == 2 * (m * q) + m * q'
  {
  }

  /** Reducing modulo 2^64 first does not change the value modulo 2^N. */
  lemma {:induction false} ModMod(v: nat, width: nat)
    requires width == 32 || width == 64
    ensures v % TWO_TO_64 % Pow2(width) == v % Pow2(width)
  {
    hide Pow2;
    PowValues();
    if width == 32 {
      var q, r := v / TWO_TO_64, v % TWO_TO_64;
      ModUnique(v, TWO_TO_32, TWO_TO_32 * q + r / TWO_TO_32, r % TWO_TO_32);
    }
  }

  // ----- right -----

  lemma {:induction false} TurnsRight(width: nat, x: Word, k: nat)
    requires width == 32 || width == 64
    ensures Turns(width, ShiftRightU, false, x, k) == x / Pow2(k)
    decreases k
  {
    if k == 0 {
      assert Pow2(0) == 1;
    } else {
      TurnsRight(width, x, k - 1);
      OneShr(Turns(width, ShiftRightU, false, x, k - 1));
      HalfDiv(x, Pow2(k - 1));
      PowDouble(k - 1);
    }
  }

  /** Dividing by `p` and then by two is dividing by `2p`, also for negative numbers. */
  lemma {:induction false} HalfDiv(x: int, p: nat)
    requires p >= 1
    ensures x / p / 2 == x / (2 * p)
  {
    var q, r := x / p, x % p;
    assert x == p * q + r;
    var h, b := q / 2, q % 2;
    assert q == 2 * h + b;
    calc {
      x;
      p * (2 * h + b) + r;
      { MulSum(p, h, b); }
      2 * (p * h) + p * b + r;
      { Twice(p, h); }
      (2 * p) * h + (p * b + r);
    }
    assert 0 <= p * b + r < 2 * p by { if b == 0 { assert p * b == 0; } else { assert p * b == p; } }
    ModUnique(x, 2 * p, h, p * b + r);
  }

  lemma {:induction false} Twice(p: int, h: int)
    ensures 2 * (p * h) == (2 * p) * h
  {
  }

  lemma {:induction false} WholeDiv(s: int)
    ensures W.FloorDiv(s, Pow2(0)) == s
  {
    assert Pow2(0) == 1;
  }

  /** Halving the word and putting the sign back at the top halves the signed value, rounding down. */
  lemma {:induction false} HalveSigned(s: int, p: nat, half: nat, sign: bool, y: nat)
    requires p >= 1 && W.FloorDiv(s, p) == if sign then y - 2 * half else y as int
    ensures W.FloorDiv(s, 2 * p) == if sign then y / 2 + half - 2 * half else y / 2
  {
    HalfDiv(s, p);
  }

  /** shr_s keeps the value, read with `sign` as its sign, at the floor of its halves. */
  lemma {:induction false} TurnsSigned(width: nat, sign: bool, x: Word, k: nat)
    requires (width == 32 || width == 64) && x < Pow2(width)
    ensures var s := if sign then x - Pow2(width) else x as int;
            var y := Turns(width, ShiftRightS, sign, x, k);
            y < Pow2(width) && W.FloorDiv(s, Pow2(k)) == if sign then y - Pow2(width) else y as int
    decreases k
  {
    hide Bits, W.FloorDiv, Turn;
    if k == 0 {
      WholeDiv(if sign then x - Pow2(width) else x as int);
    } else {
      hide Pow2;
      TurnsSigned(width, sign, x, k - 1);
      var y := Turns(width, ShiftRightS, sign, x, k - 1);
      var s := if sign then x - Pow2(width) else x as int;
      PowDouble(k - 1);
      PowDouble(width - 1);
      SignedTurn(width, sign, y);
      HalveSigned(s, Pow2(k - 1), Pow2(width - 1), sign, y);
    }
  }

  lemma {:induction false} SignedTurn(width: nat, sign: bool, y: Word)
    requires (width == 32 || width == 64) && y < Pow2(width)
    ensures var z := Turn(width, ShiftRightS, sign, y);
            z < Pow2(width) && z == y / 2 + if sign then Pow2(width - 1) else 0
  {
    hide Bits, SetBit;
    PowDouble(width - 1);
    OneShr(y);
    SetBitHigh(y / 2, width - 1);
  }

  // ----- rotation -----

  /** `a` split above bit `m`. */
  lemma {:induction false} SplitAt(a: nat, m: nat, width: nat) returns (h: nat, l: nat)
    requires m <= width && a < Pow2(width)
    ensures a == h * Pow2(m) + l && l < Pow2(m) && h < Pow2(width - m)
    ensures h == a / Pow2(m) && l == a % Pow2(m)
  {
    hide Pow2;
    h, l := a / Pow2(m), a % Pow2(m);
    PowAdd(m, width - m);
    assert m + (width - m) == width;
    if h >= Pow2(width - m) { ProductAtLeast(h, Pow2(width - m), Pow2(m)); }
  }

  lemma {:induction false} ProductAtLeast(h: nat, q: nat, p: nat)
    requires h >= q
    ensures h * p >= q * p
  {
  }

  /** The rotation in terms of the two parts: low part up, high part below. */
  lemma {:induction false} RotateParts(ty: W.ValType, a: nat, k: nat, h: nat, l: nat)
    requires k <= W.Width(ty) && a < W.Modulus(ty)
    requires a == h * Pow2(W.Width(ty) - k) + l && l < Pow2(W.Width(ty) - k)
    ensures h < Pow2(k) && l * Pow2(k) + h < W.Modulus(ty)
    ensures W.RotateLeft(ty, a, k) == l * Pow2(k) + h
  {
    hide Pow2;
    var w := W.Width(ty);
    var p, q := Pow2(k), Pow2(w - k);
    PowValues();
    PowAdd(k, w - k);
    assert k + (w - k) == w;
    assert p * q == W.Modulus(ty);
    ModUnique(a, q, h, l);
    if h >= p { ProductAtLeast(h, p, q); }
    PartBound(l, h, p, q);
    Expand(h, q, l, p);
    assert a * p == (p * q) * h + l * p;
    ModUnique(a * p, p * q, h, l * p);
  }

  lemma {:induction false} Expand(h: nat, q: nat, l: nat, p: nat)
    ensures (h * q + l) * p == (p * q) * h + l * p
  {
  }

  lemma {:induction false} PartBound(l: nat, h: nat, p: nat, q: nat)
    requires l < q && h < p
    ensures l * p + h < p * q && l * p < p * q
  {
    assert l * p + p <= q * p by { ProductAtLeast(q, l + 1, p); }
  }

  lemma {:induction false} ModulusPower(ty: W.ValType)
    ensures W.Modulus(ty) == Pow2(W.Width(ty)) && (W.Width(ty) == 32 || W.Width(ty) == 64)
  {
    hide Pow2;
    PowValues();
  }

  /** `r2` is `r` doubled modulo `2 * half` with its top bit brought round to the bottom. */
  predicate Doubles(r: nat, r2: int, half: nat)
    requires half >= 1
  {
    r < 2 * half && 2 * r % (2 * half) + 1 < 2 * half && r2 == 2 * r % (2 * half) + r / half
  }

  /** One more place to the left. */
  lemma {:induction false} RotateLeftStep(ty: W.ValType, a: nat, k: nat)
    requires 1 <= k <= W.Width(ty) && a < W.Modulus(ty)
    ensures W.RotateLeft(ty, a, k - 1) >= 0
    ensures Doubles(W.RotateLeft(ty, a, k - 1), W.RotateLeft(ty, a, k), Pow2(W.Width(ty) - 1))
  {
    hide Pow2, W.RotateLeft, W.Modulus, W.Width, Doubles;
    var w := W.Width(ty);
    ModulusPower(ty);
    assert Pow2(1) == 2 by { PowValues(); }
    var hi, lo := SplitAt(a, w - k + 1, w);
    PowDouble(w - k);
    var b, l := SplitAt(lo, w - k, w - k + 1);
    assert w - (w - k + 1) == k - 1 && w - k + 1 - (w - k) == 1;
    RotateParts(ty, a, k - 1, hi, lo);
    Regroup(hi, b, l, Pow2(w - k));
    RotateParts(ty, a, k, 2 * hi + b, l);
    PowAdd(w - k, k - 1);
    assert (w - k) + (k - 1) == w - 1;
    PowDouble(k - 1);
    RotateAlgebra(hi, b, l, Pow2(k - 1), Pow2(w - k), Pow2(w - 1));
  }

  lemma {:induction false} RotateAlgebra(hi: nat, b: nat, l: nat, p: nat, q: nat, half: nat)
    requires b <= 1 && l < q && hi < p && q * p == half && half >= 1
    ensures 0 <= (b * q + l) * p + hi
    ensures Doubles((b * q + l) * p + hi, l * (2 * p) + (2 * hi + b), half)
  {
    PartBound(l, hi, p, q);
    Regroup2(b, q, l, p);
    Scale(l, p);
    TopOff((b * q + l) * p + hi, b, l * p + hi, half);
  }

  /** A number `b * half + q` with `b` a bit: doubling modulo `2 * half` drops the bit. */
  lemma {:induction false} TopOff(r: nat, b: nat, q: nat, half: nat)
    requires b <= 1 && q < half && r == b * half + q
    ensures r / half == b && 2 * r % (2 * half) == 2 * q && r < 2 * half
  {
    assert b * half == if b == 0 then 0 else half;
    ModUnique(r, half, b, q);
    ModUnique(2 * r, 2 * half, b, 2 * q);
  }

  lemma {:induction false} Regroup(hi: nat, b: nat, l: nat, p: nat)
    ensures hi * (2 * p) + (b * p + l) == (2 * hi + b) * p + l
  {
  }

  lemma {:induction false} Regroup2(b: nat, p: nat, l: nat, q: nat)
    ensures (b * p + l) * q == b * (p * q) + l * q
  {
  }

  /** `r2` is `r` halved with its bottom bit brought round to the top. */
  predicate Halves(r: nat, r2: int, half: nat) {
    r / 2 < half && r2 == r / 2 + if r % 2 == 1 then half else 0
  }

  /** One more place to the right. */
  lemma {:induction false} RotateRightStep(ty: W.ValType, a: nat, k: nat)
    requires 1 <= k <= W.Width(ty) && a < W.Modulus(ty)
    ensures W.RotateLeft(ty, a, W.Width(ty) - (k - 1)) >= 0
    ensures Halves(W.RotateLeft(ty, a, W.Width(ty) - (k - 1)), W.RotateLeft(ty, a, W.Width(ty) - k),
                   Pow2(W.Width(ty) - 1))
  {
    hide Pow2, W.RotateLeft, W.Modulus, W.Width, Halves;
    var w := W.Width(ty);
    ModulusPower(ty);
    var hi, lo := SplitAt(a, k - 1, w);
    var h, b := hi / 2, hi % 2;
    assert w - (w - (k - 1)) == k - 1 && w - (w - k) == k;
    RotateParts(ty, a, w - (k - 1), hi, lo);
    PowDouble(k - 1);
    Regroup(h, b, lo, Pow2(k - 1));
    ProductAtLeast(1, b, Pow2(k - 1));
    RotateParts(ty, a, w - k, h, b * Pow2(k - 1) + lo);
    PowDouble(w - k);
    PowDouble(w - 1);
    PowAdd(k - 1, w - k);
    assert (k - 1) + (w - k) == w - 1;
    assert w - k + 1 == w - (k - 1);
    HalveAlgebra(h, b, lo, Pow2(k - 1), Pow2(w - k), Pow2(w - 1));
  }

  lemma {:induction false} HalveAlgebra(h: nat, b: nat, lo: nat, p: nat, q: nat, half: nat)
    requires b <= 1 && p * q == half && lo * (2 * q) + (2 * h + b) < 2 * half
    ensures 0 <= lo * (2 * q) + (2 * h + b)
    ensures Halves(lo * (2 * q) + (2 * h + b), (b * p + lo) * q + h, half)
  {
    Scale(lo, q);
    Regroup2(b, p, lo, q);
    assert b * half == if b == 1 then half else 0;
    assert lo * (2 * q) + (2 * h + b) == 2 * (lo * q + h) + b;
  }

  lemma {:induction false} TopBit(y: nat, w: nat)
    requires w == 32 || w == 64
    ensures BitAt(y, w - 1) == y % Pow2(w) / Pow2(w - 1)
  {
    hide Pow2;
    PowDouble(w - 1);
    BitAbove(y, Pow2(w - 1));
  }

  /** The bit of value `p` in `y`, read before and after reducing modulo `2p`. */
  lemma {:induction false} BitAbove(y: nat, p: nat)
    requires p >= 1
    ensures y / p % 2 == y % (2 * p) / p
  {
    var d, r := y / p, y % p;
    Quotient2(y, p);
    Regroup(d / 2, d % 2, r, p);
    var low := (d % 2) * p + r;
    assert (d % 2) * p == if d % 2 == 0 then 0 else p;
    assert d / 2 * 2 + d % 2 == d;
    assert y == 2 * p * (d / 2) + low by { Twice(p, d / 2); }
    ModUnique(y, 2 * p, d / 2, low);
    ModUnique(low, p, d % 2, r);
  }

  lemma {:induction false} Quotient2(y: nat, p: nat)
    requires p >= 1
    ensures y == (y / p) * p + y % p
  {
  }

  lemma {:induction false} TurnsRotl(ty: W.ValType, x: Word, k: nat)
    requires k <= W.Width(ty)
    ensures Turns(W.Width(ty), RotateL, false, x, k) % W.Modulus(ty) == W.RotateLeft(ty, x % W.Modulus(ty), k)
    decreases k
  {
    hide Pow2, W.RotateLeft, Bits, Turn;
    var w, n, a := W.Width(ty), W.Modulus(ty), x % W.Modulus(ty);
    PowValues();
    if k == 0 {
      RotateZero(ty, a);
    } else {
      TurnsRotl(ty, x, k - 1);
      RotateLeftStep(ty, a, k);
      RotlTurn(ty, Turns(w, RotateL, false, x, k - 1), W.RotateLeft(ty, a, k));
    }
  }

  lemma {:induction false} RotateZero(ty: W.ValType, a: nat)
    requires a < W.Modulus(ty)
    ensures W.RotateLeft(ty, a, 0) == a
  {
    hide Pow2;
    PowValues();
  }

  lemma {:induction false} RotlTurn(ty: W.ValType, y: Word, r2: int)
    requires Doubles(y % W.Modulus(ty), r2, Pow2(W.Width(ty) - 1))
    ensures Turn(W.Width(ty), RotateL, false, y) % W.Modulus(ty) == r2
  {
    hide Pow2, Bits, SetBit;
    var w, n := W.Width(ty), W.Modulus(ty);
    ModulusPower(ty);
    PowDouble(w - 1);
    hide Shl, BitAt;
    ShlEven(y);
    SetBitLow(Shl(y, 1));
    TopBit(y, w);
    ShlMod(y, w);
    var z: int := Shl(y, 1);
    ModUnique(z + 1, n, z / n, z % n + 1);
  }

  lemma {:induction false} ShlEven(y: Word)
    ensures Shl(y, 1) % 2 == 0
  {
    hide Pow2;
    OneShl(y);
  }

  lemma {:induction false} ShlMod(y: Word, w: nat)
    requires w == 32 || w == 64
    ensures Shl(y, 1) % Pow2(w) == 2 * (y % Pow2(w)) % Pow2(w)
  {
    hide Pow2;
    OneShl(y);
    DoubleMod(y, Pow2(w));
    ModMod(2 * y, w);
  }

  lemma {:induction false} TurnsRotr(ty: W.ValType, x: Word, k: nat)
    requires k <= W.Width(ty) && x < W.Modulus(ty)
    ensures Turns(W.Width(ty), RotateR, false, x, k) == W.RotateLeft(ty, x, W.Width(ty) - k)
    decreases k
  {
    hide Pow2, W.RotateLeft, Bits, Turn;
    var w := W.Width(ty);
    if k == 0 {
      RotateWhole(ty, x);
    } else {
      TurnsRotr(ty, x, k - 1);
      RotateRightStep(ty, x, k);
      RotrTurn(ty, Turns(w, RotateR, false, x, k - 1), W.RotateLeft(ty, x, w - k));
    }
  }

  lemma {:induction false} RotateWhole(ty: W.ValType, a: nat)
    requires a < W.Modulus(ty)
    ensures W.RotateLeft(ty, a, W.Width(ty)) == a
  {
    hide Pow2;
    PowValues();
    assert W.Width(ty) - W.Width(ty) == 0;
    ModUnique(a * W.Modulus(ty), W.Modulus(ty), a, 0);
  }

  lemma {:induction false} RotrTurn(ty: W.ValType, y: Word, r2: int)
    requires Halves(y, r2, Pow2(W.Width(ty) - 1))
    ensures Turn(W.Width(ty), RotateR, false, y) == r2
  {
    hide Pow2, Bits, SetBit;
    OneShr(y);
    BitZero(y);
    SetBitHigh(y / 2, W.Width(ty) - 1);
  }

  // ----- what the whole loop computes -----

  /** The register the loop leaves for an operand `a` and a count already reduced modulo the width:
      mask, `k` turns, mask again; shr_s looks at bit 31 whatever the width. */
  function LoopValue(ty: W.ValType, op: W.BinOp, a: Word, k: nat): Word
    requires W.IsShift(op)
  {
    var n := W.Modulus(ty);
    var x := a % n;
    Turns(W.Width(ty), ModeOf(op), op.ShrS? && BitAt(x, 31) == 1, x, k) % n
  }

  /** The loop computes shl, shr_u, rotl and rotr at both widths, and shr_s at width 32. */
  lemma {:induction false} LoopFaithful(ty: W.ValType, op: W.BinOp, a: nat, b: nat)
    requires W.FaithfulShift(ty, op) && a < W.Modulus(ty) && b < W.Modulus(ty)
    ensures W.EvalBin(ty, op, a, b).Some? &&
            W.Raw(W.EvalBin(ty, op, a, b).value) == LoopValue(ty, op, a, b % W.Width(ty))
  {
    hide Pow2, W.RotateLeft, Bits, LoopValue, W.FloorDiv;
    var k := b % W.Width(ty);
    match op
    case ShlB => ShlLoop(ty, a, k);
    case ShrU => ShrULoop(ty, a, k);
    case ShrS => SignedLoop(ty, a, k);
    case Rotl => RotlLoop(ty, a, k);
    case Rotr => RotrLoop(ty, a, k);
  }

  lemma {:induction false} ShlLoop(ty: W.ValType, a: nat, k: nat)
    requires a < W.Modulus(ty)
    ensures W.Raw(W.Make(ty, a * Pow2(k))) == LoopValue(ty, W.ShlB, a, k)
  {
    hide Pow2, Bits, Turns, W.Make, W.Raw;
    ModSmall(a, W.Modulus(ty));
    TurnsLeft(W.Width(ty), a, k);
    MakeAfterWrap(ty, a * Pow2(k));
  }

  lemma {:induction false} MakeAfterWrap(ty: W.ValType, v: nat)
    ensures W.Raw(W.Make(ty, v)) == v % TWO_TO_64 % W.Modulus(ty)
  {
    hide Pow2;
    PowValues();
    ModMod(v, W.Width(ty));
  }

  lemma {:induction false} ShrULoop(ty: W.ValType, a: nat, k: nat)
    requires a < W.Modulus(ty)
    ensures W.Raw(W.Make(ty, a / Pow2(k))) == LoopValue(ty, W.ShrU, a, k)
  {
    hide Pow2, Bits, Turns;
    TurnsRight(W.Width(ty), a, k);
  }

  lemma {:induction false} RotlLoop(ty: W.ValType, a: nat, k: nat)
    requires k <= W.Width(ty) && a < W.Modulus(ty)
    ensures W.Raw(W.Make(ty, W.RotateLeft(ty, a, k))) == LoopValue(ty, W.Rotl, a, k)
  {
    hide Pow2, W.RotateLeft, Bits, Turns;
    TurnsRotl(ty, a, k);
    RotateBelow(ty, a, k);
  }

  lemma {:induction false} RotrLoop(ty: W.ValType, a: nat, k: nat)
    requires k <= W.Width(ty) && a < W.Modulus(ty)
    ensures W.Raw(W.Make(ty, W.RotateLeft(ty, a, W.Width(ty) - k))) == LoopValue(ty, W.Rotr, a, k)
  {
    hide Pow2, W.RotateLeft, Bits, Turns;
    TurnsRotr(ty, a, k);
    RotateBelow(ty, a, W.Width(ty) - k);
  }

  lemma {:induction false} RotateBelow(ty: W.ValType, a: nat, k: nat)
    requires k <= W.Width(ty) && a < W.Modulus(ty)
    ensures W.RotateLeft(ty, a, k) < W.Modulus(ty)
  {
    hide Pow2, W.RotateLeft;
    PowValues();
    var hi, lo := SplitAt(a, W.Width(ty) - k, W.Width(ty));
    RotateParts(ty, a, k, hi, lo);
  }

  /** The shr_s loop gives the floor of the operand read with bit 31 as its sign. */
  lemma {:induction false} SignedLoop(ty: W.ValType, a: nat, k: nat)
    requires a < W.Modulus(ty)
    ensures var s := if BitAt(a, 31) == 1 then a - W.Modulus(ty) else a as int;
            W.Raw(W.Make(ty, W.FloorDiv(s, Pow2(k)))) == LoopValue(ty, W.ShrS, a, k)
    ensures ty.T32? ==> (BitAt(a, 31) == 1 <==> W.SignedAt(ty, a) < 0)
  {
    hide Pow2, Bits, Turns, W.FloorDiv, BitAt;
    PowValues();
    TopBit31(a);
    var sign := BitAt(a, 31) == 1;
    TurnsSigned(W.Width(ty), sign, a, k);
    var y := Turns(W.Width(ty), ShiftRightS, sign, a, k);
    BelowZero(y, W.Modulus(ty));
  }

  lemma {:induction false} TopBit31(a: nat)
    ensures a < TWO_TO_32 ==> (BitAt(a, 31) == 1 <==> W.SignedAt(W.T32, a) < 0)
  {
    hide Pow2;
    PowValues();
    if a < TWO_TO_32 { TopBit(a, 32); }
  }

  lemma {:induction false} BelowZero(y: nat, m: nat)
    requires y < m
    ensures (y - m) % m == y && y % m == y
  {
    ModUnique(y - m, m, -1, y);
    ModUnique(y, m, 0, y);
  }

  /** i64.shr_s: the loop is right exactly when bit 31 agrees with the sign bit, or the count is
      a multiple of 64. */
  lemma {:induction false} ShrS64Exact(a: Word, b: Word)
    ensures W.Raw(W.EvalBin(W.T64, W.ShrS, a, b).value) == LoopValue(W.T64, W.ShrS, a, b % 64)
            <==> (BitAt(a, 31) == BitAt(a, 63) || b % 64 == 0)
  {
    hide Pow2, Bits, Turns, LoopValue, W.FloorDiv;
    var k := b % 64;
    SignedLoop(W.T64, a, k);
    TopBit63(a);
    if k == 0 {
      WholeFloor(a);
    } else if BitAt(a, 31) != BitAt(a, 63) {
      FloorApart(a, k);
    }
  }

  lemma {:induction false} TopBit63(a: Word)
    ensures BitAt(a, 63) == 1 <==> W.SignedAt(W.T64, a) < 0
    ensures W.SignedAt(W.T64, a) == if BitAt(a, 63) == 1 then a - TWO_TO_64 else a
  {
    hide Pow2;
    PowValues();
    TopBit(a, 64);
  }

  lemma {:induction false} WholeFloor(a: Word)
    ensures W.FloorDiv(a - TWO_TO_64, Pow2(0)) % TWO_TO_64 == W.FloorDiv(a, Pow2(0)) % TWO_TO_64 == a
  {
    assert Pow2(0) == 1;
  }

  /** For a positive count the two readings of the sign give different words. */
  lemma {:induction false} FloorApart(a: Word, k: nat)
    requires 1 <= k < 64
    ensures W.FloorDiv(a - TWO_TO_64, Pow2(k)) % TWO_TO_64 != W.FloorDiv(a, Pow2(k)) % TWO_TO_64
  {
    hide Pow2, W.FloorDiv;
    FloorShift(a, k);
    PowValues();
    PowMonotone(64 - k, 63);
    DivSmaller(a, Pow2(k));
    ModApart(a / Pow2(k), Pow2(64 - k));
  }

  lemma {:induction false} ModApart(d: Word, q: int)
    requires 0 < q < TWO_TO_64
    ensures (d - q) % TWO_TO_64 != d && d % TWO_TO_64 == d
  {
  }

  lemma {:induction false} FloorShift(a: Word, k: nat)
    requires 1 <= k < 64
    ensures W.FloorDiv(a - TWO_TO_64, Pow2(k)) == a / Pow2(k) - Pow2(64 - k)
    ensures W.FloorDiv(a, Pow2(k)) == a / Pow2(k)
  {
    hide Pow2;
    PowValues();
    PowAdd(k, 64 - k);
    assert k + (64 - k) == 64;
    var p, q: int := Pow2(k), Pow2(64 - k);
    MulDistribute(p, a / p, q);
    ModUnique(a - TWO_TO_64, p, a / p - q, a % p);
  }
}
