/** When a single machine instruction, or a constant load, computes what WebAssembly asks for.

    i32 values sit zero-extended in 64-bit registers and the translator never re-truncates, so
    several i32 instructions are right only for some operands; each lemma named `...Exact`
    gives the condition in both directions. */
module Exactness {
  import opened Words
  import opened Machine
  import opened Assembly
  import Translator
  import W = Wasm

  /** The machine's result, as a WebAssembly outcome of that type. */
  predicate Agrees(ty: W.ValType, op: W.BinOp, a: nat, b: nat)
    requires a < W.Modulus(ty) && b < W.Modulus(ty)
  {
    var r := W.EvalBin(ty, op, a, b);
    Alu(Translator.OpcodeFor(op), a, b) == if r.Some? then Some(W.Raw(r.value)) else None
  }

  lemma EvalBinType(ty: W.ValType, op: W.BinOp, a: nat, b: nat)
    requires a < W.Modulus(ty) && b < W.Modulus(ty)
    ensures W.EvalBin(ty, op, a, b).Some? ==> W.TypeOf(W.EvalBin(ty, op, a, b).value) == ty
  {
    hide Bits, Pow2, TruncDiv, W.RotateLeft, W.FloorDiv;
  }

  lemma BinFaithful(ty: W.ValType, op: W.BinOp, a: nat, b: nat)
    requires W.Faithful(ty, op) && a < W.Modulus(ty) && b < W.Modulus(ty)
    ensures IsAlu(Translator.OpcodeFor(op)) && Agrees(ty, op, a, b)
    ensures W.EvalBin(ty, op, a, b).Some? ==> W.TypeOf(W.EvalBin(ty, op, a, b).value) == ty
  {
    hide W.EvalBin, Alu, Agrees;
    EvalBinType(ty, op, a, b);
    match op
    case Add => AddFaithful(a, b);
    case Sub => SubFaithful(a, b);
    case Mul => MulFaithful(a, b);
    case DivS => DivSFaithful(a, b);
    case DivU => DivUFaithful(ty, a, b);
    case RemU => RemUFaithful(ty, a, b);
    case AndB => BitwiseFaithful(ty, op, a, b);
    case OrB => BitwiseFaithful(ty, op, a, b);
    case XorB => BitwiseFaithful(ty, op, a, b);
  }

  lemma AddFaithful(a: Word, b: Word)
    ensures Agrees(W.T64, W.Add, a, b)
  {
    hide Bits, Pow2, TruncDiv;
  }

  lemma SubFaithful(a: Word, b: Word)
    ensures Agrees(W.T64, W.Sub, a, b)
  {
    hide Bits, Pow2, TruncDiv;
  }

  lemma MulFaithful(a: Word, b: Word)
    ensures Agrees(W.T64, W.Mul, a, b)
  {
    hide Bits, Pow2, TruncDiv;
  }

  lemma DivSFaithful(a: Word, b: Word)
    ensures Agrees(W.T64, W.DivS, a, b)
  {
    hide Bits, Pow2, TruncDiv;
  }

  lemma DivUFaithful(ty: W.ValType, a: nat, b: nat)
    requires a < W.Modulus(ty) && b < W.Modulus(ty)
    ensures Agrees(ty, W.DivU, a, b)
  {
    hide Bits, Pow2, TruncDiv;
    if b != 0 { DivSmaller(a, b); }
  }

  lemma RemUFaithful(ty: W.ValType, a: nat, b: nat)
    requires a < W.Modulus(ty) && b < W.Modulus(ty)
    ensures Agrees(ty, W.RemU, a, b)
  {
    hide Bits, Pow2, TruncDiv;
  }

  lemma BitwiseFaithful(ty: W.ValType, op: W.BinOp, a: nat, b: nat)
    requires op in {W.AndB, W.OrB, W.XorB} && a < W.Modulus(ty) && b < W.Modulus(ty)
    ensures Agrees(ty, op, a, b)
  {
    hide Bits, Pow2, TruncDiv;
    NarrowBits(ty, BitAnd, a, b);
    NarrowBits(ty, BitOr, a, b);
    NarrowBits(ty, BitXor, a, b);
  }

  lemma NarrowBits(ty: W.ValType, f: BitFn, a: nat, b: nat)
    requires a < W.Modulus(ty) && b < W.Modulus(ty)
    ensures Bits(f, a, b) < W.Modulus(ty)
  {
    PowValues();
    BitsBound(f, a, b, W.Width(ty));
  }

  function RunCompare(op: W.RelOp, a: Word, b: Word): Option<Word> {
    var (code, swap) := Translator.CompareFor(op);
    if swap then Alu(code, b, a) else Alu(code, a, b)
  }

  lemma RelFaithful(ty: W.ValType, op: W.RelOp, a: nat, b: nat)
    requires W.FaithfulRel(ty, op) && a < W.Modulus(ty) && b < W.Modulus(ty)
    ensures IsAlu(Translator.CompareFor(op).0)
    ensures RunCompare(op, a, b) == Some(W.Raw(W.Bool(W.EvalRel(ty, op, a, b))))
  {
  }

  lemma ConstFaithful(ty: W.ValType, v: Imm64)
    requires W.FaithfulConst(ty, v)
    ensures Fits11(v) ==> Wrap(v) == W.Raw(W.Make(ty, v))
    ensures !Fits11(v) ==> Wrap(v) % Pow2(8 * MoviBytes(v)) == W.Raw(W.Make(ty, v))
  {
    hide Pow2, MoviBytes, Wrap, W.Make;
    MoviKeeps(v);
    WrapCases(v);
    MadeWord(ty, v);
  }

  lemma MadeWord(ty: W.ValType, v: Imm64)
    ensures ty.T64? ==> W.Raw(W.Make(ty, v)) == Wrap(v)
    ensures ty.T32? && 0 <= v < 0x8000_0000 ==> W.Raw(W.Make(ty, v)) == v
  {
    hide Pow2;
  }

  /** The register that i64.const leaves: the line the translator prints, then its meaning. */
  function LoadedConstant(v: Imm64): Word {
    if Fits11(v) then Wrap(v) else Wrap(Wrap(v) % Pow2(8 * MoviBytes(v)))
  }

  /** i64.const loads its number exactly when it is at least -1024 or needs eight bytes. */
  lemma ConstantExact(v: Imm64)
    ensures LoadedConstant(v) == Wrap(v) <==> W.FaithfulConst(W.T64, v)
  {
    hide Pow2, MoviBytes, Wrap;
    MoviKeeps(v);
    WrapCases(v);
    WrapWord(Wrap(v) % Pow2(8 * MoviBytes(v)));
  }

  /** i32.add: right exactly when no wrap-around was needed. */
  lemma I32AddExact(a: Half, b: Half)
    ensures Agrees(W.T32, W.Add, a, b) <==> a + b < TWO_TO_32
  {
    hide Bits, Pow2, TruncDiv;
  }

  /** i32.sub: right exactly when the difference is not negative. */
  lemma I32SubExact(a: Half, b: Half)
    ensures Agrees(W.T32, W.Sub, a, b) <==> b <= a
  {
    hide Bits, Pow2, TruncDiv;
  }

  /** i32.mul: right exactly when the product fits in 32 bits. */
  lemma I32MulExact(a: Half, b: Half)
    ensures Agrees(W.T32, W.Mul, a, b) <==> a * b < TWO_TO_32
  {
    hide Alu, W.EvalBin, Product;
    ProductBound(a, b);
    MulSides(a, b, a * b);
  }

  lemma MulSides(a: Half, b: Half, m: int)
    requires m == a * b && 0 <= m < TWO_TO_64
    ensures Alu(MUL, a, b) == Some(m)
    ensures W.EvalBin(W.T32, W.Mul, a, b) == Some(W.I32(m % TWO_TO_32))
  {
    hide Bits, Pow2, TruncDiv, W.RotateLeft, W.FloorDiv;
    WrapWord(m);
  }

  lemma ProductBound(a: Half, b: Half)
    ensures 0 <= a * b < TWO_TO_64
  {
    MulMonotone(a, b, 0xFFFF_FFFF);
  }

  lemma MulMonotone(a: nat, b: nat, c: nat)
    requires b <= c
    ensures 0 <= a * b <= a * c
  {
  }

  /** Signed i32 comparisons: right exactly when the operands have the same sign bit. */
  lemma I32SignedCompareExact(op: W.RelOp, a: Half, b: Half)
    requires op in {W.LtS, W.GtS, W.LeS, W.GeS}
    ensures RunCompare(op, a, b) == Some(W.Raw(W.Bool(W.EvalRel(W.T32, op, a, b))))
            <==> (a < TWO_TO_32 / 2) == (b < TWO_TO_32 / 2)
  {
  }

  /** i64.rem_s: the machine faults where WebAssembly gives 0, and agrees everywhere else. */
  lemma RemSignedExact(a: Word, b: Word)
    ensures Agrees(W.T64, W.RemS, a, b) <==> !(Signed(a) == -TWO_TO_63 && Signed(b) == -1)
  {
  }

  // ----- i32 division -----

  /** Zero-extended operands look non-negative to the machine. */
  lemma HalfDivision(a: Half, b: Half)
    ensures b == 0 ==> Alu(DIV, a, b) == None && Alu(REM, a, b) == None
    ensures b != 0 ==> 0 <= a / b <= a && 0 <= a % b <= a
    ensures b != 0 ==> Alu(DIV, a, b) == Some(a / b) && Alu(REM, a, b) == Some(a % b)
  {
    hide Bits, Pow2, TruncDiv;
    if b != 0 {
      HalfTrunc(a, b);
      WrapWord(a / b);
      WrapWord(a % b);
    }
  }

  lemma HalfTrunc(a: Half, b: Half)
    requires b != 0
    ensures TruncDiv(a, b) == a / b && 0 <= a / b <= a && 0 <= a % b <= a && a - b * (a / b) == a % b
  {
    DivSmaller(a, b);
    if a < b { ModSmall(a, b); }
  }

  /** WebAssembly's quotient as an i32: how far below zero, or above. */
  lemma SignedQuotient(a: Half, b: Half, x: nat, y: nat)
    requires b != 0
    requires x == Abs(W.SignedAt(W.T32, a)) && y == Abs(W.SignedAt(W.T32, b))
    ensures y >= 1 && 0 <= x / y <= x <= TWO_TO_32 / 2
    ensures TruncDiv(W.SignedAt(W.T32, a), W.SignedAt(W.T32, b))
         == if (a < TWO_TO_32 / 2) == (b < TWO_TO_32 / 2) then x / y else -(x / y)
  {
    DivSmaller(x, y);
  }

  lemma QuotientIs(x: nat, y: nat, q: nat)
    requires y >= 1 && y * q <= x < y * q + y
    ensures x / y == q && x % y == x - y * q
  {
    ModUnique(x, y, q, x - y * q);
  }

  /** i32.div_s: right exactly when the divisor is zero, both operands are non-negative, the divisor is
      negative and larger than the dividend in size, or the dividend is negative and divided by one or
      by itself. */
  lemma I32DivSExact(a: Half, b: Half)
    ensures Agrees(W.T32, W.DivS, a, b)
       <==> b == 0 || (a < TWO_TO_32 / 2 && (b < TWO_TO_32 / 2 || a + b < TWO_TO_32))
            || (a >= TWO_TO_32 / 2 && (b == 1 || a == b))
  {
    hide Bits, Pow2, TruncDiv, Alu, W.EvalBin;
    HalfDivision(a, b);
    DivValue(a, b);
    if b != 0 {
      var x, y := Abs(W.SignedAt(W.T32, a)), Abs(W.SignedAt(W.T32, b));
      SignedQuotient(a, b, x, y);
      if b >= TWO_TO_32 / 2 { QuotientsByNegative(a, b, x, y); } else { QuotientsByPositive(a, b, x); }
      QuotientsMeet(a, b, a / b, x / y);
    }
  }

  /** The machine's quotient `m` and the truncated one, of size `q`, modulo `2^32`. */
  lemma QuotientsMeet(a: Half, b: Half, m: nat, q: nat)
    requires b != 0 && m < TWO_TO_32 && q <= TWO_TO_32 / 2
    requires a < TWO_TO_32 / 2 && b < TWO_TO_32 / 2 ==> m == q
    requires a < TWO_TO_32 / 2 && b >= TWO_TO_32 / 2 ==> m == 0 && (q == 0 <==> a + b < TWO_TO_32)
    requires a >= TWO_TO_32 / 2 && b >= TWO_TO_32 / 2 ==>
               m == (if a < b then 0 else 1) && (a < b ==> q >= 1) && (a == b ==> q == 1) && (a > b ==> q == 0)
    requires a >= TWO_TO_32 / 2 && b < TWO_TO_32 / 2 ==>
               if b == 1 then m == a && q == TWO_TO_32 - a else 1 <= m < TWO_TO_32 - q
    ensures ((if (a < TWO_TO_32 / 2) == (b < TWO_TO_32 / 2) then q else 0 - q) % TWO_TO_32 == m)
       <==> (a < TWO_TO_32 / 2 && (b < TWO_TO_32 / 2 || a + b < TWO_TO_32))
            || (a >= TWO_TO_32 / 2 && (b == 1 || a == b))
  {
  }

  /** The machine's quotient against the truncated one, the divisor negative. */
  lemma QuotientsByNegative(a: nat, b: nat, x: nat, y: nat)
    requires a < TWO_TO_32 && TWO_TO_32 / 2 <= b < TWO_TO_32 && y == TWO_TO_32 - b
    requires x == if a < TWO_TO_32 / 2 then a else TWO_TO_32 - a
    ensures a < TWO_TO_32 / 2 ==> 0 <= x / y <= x && a / b == 0 && (x / y == 0 <==> a < y)
    ensures a >= TWO_TO_32 / 2 ==> 0 <= x / y <= x && a / b == (if a < b then 0 else 1)
    ensures a >= TWO_TO_32 / 2 ==> (a == b <==> x / y == 1 == a / b) && (a < b ==> x / y >= 1) && (a > b ==> x / y == 0)
  {
    QuotientIs(a, b, if a < b then 0 else 1);
    DivSmaller(x, y);
    if x < y { QuotientIs(x, y, 0); } else if x == y { QuotientIs(x, y, 1); } else { QuotientPositive(x, y); }
  }

  /** The same, the divisor positive. */
  lemma QuotientsByPositive(a: nat, b: nat, x: nat)
    requires a < TWO_TO_32 && 1 <= b < TWO_TO_32 / 2
    requires x == if a < TWO_TO_32 / 2 then a else TWO_TO_32 - a
    ensures a >= TWO_TO_32 / 2 && b == 1 ==> a / b == a && x / b == x
    ensures a >= TWO_TO_32 / 2 && b > 1 ==> 1 <= a / b && 0 <= x / b && a / b + x / b < TWO_TO_32
  {
    if a >= TWO_TO_32 / 2 {
      if b == 1 { QuotientIs(a, 1, a); QuotientIs(x, 1, x); } else { QuotientsShort(a, x, b); }
    }
  }

  lemma DivValue(a: Half, b: Half)
    ensures b == 0 ==> W.EvalBin(W.T32, W.DivS, a, b) == None
    ensures b != 0 ==>
              var q := TruncDiv(W.SignedAt(W.T32, a), W.SignedAt(W.T32, b));
              W.EvalBin(W.T32, W.DivS, a, b)
              == if a == TWO_TO_32 / 2 && b == TWO_TO_32 - 1 then None else Some(W.I32(q % TWO_TO_32))
  {
    hide Bits, Pow2, TruncDiv, W.RotateLeft, W.FloorDiv;
  }

  lemma QuotientPositive(x: nat, y: nat)
    requires 1 <= y <= x
    ensures x / y >= 1
  {
    MulAtLeast(1, y);
    DivSmaller(x - y, y);
    OneMore(x - y, y);
  }

  lemma OneMore(x: nat, y: nat)
    requires y >= 1
    ensures (x + y) / y == x / y + 1
  {
    ModUnique(x + y, y, x / y + 1, x % y);
  }

  /** Dividing by two or more, the two quotients do not add up to `2^32`. */
  lemma QuotientsShort(a: Half, x: nat, b: nat)
    requires a >= TWO_TO_32 / 2 && x == TWO_TO_32 - a && 2 <= b < TWO_TO_32 / 2
    ensures 1 <= a / b && 0 <= x / b && a / b + x / b < TWO_TO_32
  {
    QuotientPositive(a, b);
    AtMostHalf(a, b);
    AtMostHalf(x, b);
  }

  lemma AtMostHalf(x: nat, b: nat)
    requires b >= 2
    ensures 2 * (x / b) <= x
  {
    assert x == b * (x / b) + x % b;
    MulMonotone(x / b, 2, b);
  }

  lemma RemValue(a: Half, b: Half)
    ensures b == 0 ==> W.EvalBin(W.T32, W.RemS, a, b) == None
    ensures b != 0 ==>
              var x, y := Abs(W.SignedAt(W.T32, a)), Abs(W.SignedAt(W.T32, b));
              var r: int := x % y;
              W.EvalBin(W.T32, W.RemS, a, b) == Some(W.I32((if a < TWO_TO_32 / 2 then r else -r) % TWO_TO_32))
  {
    hide Bits, Pow2, TruncDiv, W.RotateLeft, W.FloorDiv;
    if b != 0 {
      var x, y := Abs(W.SignedAt(W.T32, a)), Abs(W.SignedAt(W.T32, b));
      SignedQuotient(a, b, x, y);
      assert x == y * (x / y) + x % y;
      SignedLeft(W.SignedAt(W.T32, a), W.SignedAt(W.T32, b), TruncDiv(W.SignedAt(W.T32, a), W.SignedAt(W.T32, b)), x,
                 y);
    }
  }

  /** What a truncated quotient leaves has the dividend's sign. */
  lemma SignedLeft(sa: int, sb: int, q: int, x: nat, y: nat)
    requires y >= 1 && x == Abs(sa) && y == Abs(sb) && q == (if (sa >= 0) == (sb > 0) then x / y else -(x / y))
    ensures sa - sb * q == if sa >= 0 then x % y else -(x % y)
  {
    assert x == y * (x / y) + x % y;
    MulSigns(y, x / y);
  }

  lemma MulSigns(y: int, k: int)
    ensures y * -k == -(y * k) && -y * k == -(y * k) && -y * -k == y * k
  {
  }

  /** i32.rem_s: right exactly when the divisor is zero, both operands are non-negative, the divisor is
      negative and larger than the dividend in size, or the dividend is negative and the divisor equals
      it or divides both its bits and its size. */
  lemma I32RemSExact(a: Half, b: Half)
    ensures Agrees(W.T32, W.RemS, a, b)
       <==> b == 0 || (a < TWO_TO_32 / 2 && (b < TWO_TO_32 / 2 || a + b < TWO_TO_32))
            || (a >= TWO_TO_32 / 2 && (a == b || (b < TWO_TO_32 / 2 && a % b == 0 && (TWO_TO_32 - a) % b == 0)))
  {
    hide Bits, Pow2, TruncDiv, Alu, W.EvalBin;
    HalfDivision(a, b);
    RemValue(a, b);
    if b != 0 {
      var x, y := Abs(W.SignedAt(W.T32, a)), Abs(W.SignedAt(W.T32, b));
      RemainderBelow(x, y);
      RemainderBelow(a, b);
      if b >= TWO_TO_32 / 2 { RemaindersByNegative(a, b, x, y); }
      RemaindersMeet(a, b, a % b, x % y);
    }
  }

  /** The machine's remainder `m` and the truncated one, of size `r`, modulo `2^32`. */
  lemma RemaindersMeet(a: Half, b: Half, m: nat, r: nat)
    requires b != 0 && m < TWO_TO_32 && r < TWO_TO_32 / 2
    requires a < TWO_TO_32 / 2 && b < TWO_TO_32 / 2 ==> m == r
    requires a < TWO_TO_32 / 2 && b >= TWO_TO_32 / 2 ==> m == a && (r == a <==> a + b < TWO_TO_32)
    requires a >= TWO_TO_32 / 2 && b >= TWO_TO_32 / 2 ==>
               m == (if a < b then a else a - b) && (a == b ==> r == 0) && (a < b ==> r < TWO_TO_32 - a)
               && (a > b ==> r == TWO_TO_32 - a)
    requires a >= TWO_TO_32 / 2 && b < TWO_TO_32 / 2 ==> m < b && r < b
    ensures ((if a < TWO_TO_32 / 2 then r else 0 - r) % TWO_TO_32 == m)
       <==> (a < TWO_TO_32 / 2 && (b < TWO_TO_32 / 2 || a + b < TWO_TO_32))
            || (a >= TWO_TO_32 / 2 && (a == b || (b < TWO_TO_32 / 2 && m == 0 && r == 0)))
  {
  }

  /** The machine's remainder against the truncated one, the divisor negative. */
  lemma RemaindersByNegative(a: nat, b: nat, x: nat, y: nat)
    requires a < TWO_TO_32 && TWO_TO_32 / 2 <= b < TWO_TO_32 && y == TWO_TO_32 - b
    requires x == if a < TWO_TO_32 / 2 then a else TWO_TO_32 - a
    ensures a < TWO_TO_32 / 2 ==> a % b == a && (a < y ==> x % y == a) && (a >= y ==> 0 <= x % y < a)
    ensures a >= TWO_TO_32 / 2 ==> a % b == (if a < b then a else a - b)
    ensures a >= TWO_TO_32 / 2 ==>
              (a == b ==> x % y == 0) && (a < b ==> 0 <= x % y < x) && (a > b ==> x % y == x)
  {
    QuotientIs(a, b, if a < b then 0 else 1);
    RemainderBelow(x, y);
    if x < y { QuotientIs(x, y, 0); } else if x == y { QuotientIs(x, y, 1); }
  }

  lemma RemainderBelow(x: nat, y: nat)
    requires y >= 1
    ensures 0 <= x % y < y && (y <= x ==> x % y < x)
  {
  }

  /** i32.const: right exactly when the number is not negative or needs four bytes. */
  lemma I32ConstExact(v: Imm64)
    requires -0x8000_0000 <= v < 0x8000_0000
    ensures LoadedConstant(v) == W.Raw(W.Make(W.T32, v)) <==> v >= 0 || v < -0x80_0000
  {
    hide Pow2, MoviBytes, Wrap, W.Make;
    MoviKeeps(v);
    WrapCases(v);
    WrapWord(Wrap(v) % Pow2(8 * MoviBytes(v)));
    if v < 0 {
      HalfMake(v);
      FourBytes(v);
    } else {
      MadeWord(W.T32, v);
    }
  }

  lemma HalfMake(v: Imm64)
    requires -0x8000_0000 <= v < 0
    ensures W.Raw(W.Make(W.T32, v)) == v + TWO_TO_32
  {
  }

  /** How many bytes a negative 32-bit number takes. */
  lemma FourBytes(v: Imm64)
    requires -0x8000_0000 <= v < 0
    ensures v < -0x80_0000 ==> MoviBytes(v) == 4
    ensures v >= -0x80_0000 ==> MoviBytes(v) <= 3
    ensures Pow2(8 * 4) == TWO_TO_32 && forall n :: 1 <= n <= 3 ==> Pow2(8 * n) < TWO_TO_32
  {
    PowValues();
    assert Pow2(7) == 128 && Pow2(15) == 0x8000;
    assert Pow2(23) == 0x80_0000 by { PowAdd(15, 8); }
    assert Pow2(24) == 2 * Pow2(23);
    assert WidthFrom(v, 4) == 4;
    assert WidthFrom(v, 3) == if v >= -0x80_0000 then 3 else 4;
    assert WidthFrom(v, 2) == if v >= -0x8000 then 2 else WidthFrom(v, 3);
    assert WidthFrom(v, 1) == if v >= -128 then 1 else WidthFrom(v, 2);
  }

  /** What the emitted mask, test and fill leave of a register: all 64 bits of the sign extension. */
  function Extended(x: Word, bits: nat): int
    requires 1 <= bits <= 64
  {
    var low: int := x % Pow2(bits);
    if low < Pow2(bits - 1) then low else low + TWO_TO_64 - Pow2(bits)
  }

  /** i32.extend8_s and i32.extend16_s: right exactly when the narrow sign bit is clear. */
  lemma I32NarrowExact(x: Half, bits: nat)
    requires bits == 8 || bits == 16
    ensures Extended(x, bits) == (W.Raw(W.Make(W.T32, W.ExtendFrom(x, bits))) as int)
            <==> x % Pow2(bits) < Pow2(bits - 1)
  {
    PowValues();
    assert Pow2(8) == 2 * Pow2(7) && Pow2(16) == 2 * Pow2(15);
  }
}
