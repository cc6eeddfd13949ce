/** Loads and stores of WebAssembly memory, one byte at a time.

    The processor's memory is words; its byte instructions address the eight bytes of each word from
    the high end.  The emitted code puts a value's bytes at ascending addresses from the low end, as
    section 2.4.7 of the WebAssembly Core Specification numbers them.  Addresses wrap at the
    processor's 2^19 bytes; nothing traps. */
module MemoryBytes {
  import opened Words
  import opened Machine
  import opened Assembly
  import opened Runs
  import opened Translator
  import E = Expansion
  import Leaves
  import Exactness

  const MEM_BYTES: nat := 0x8_0000

  // ----- bytes of memory -----

  function Slot(b: nat): nat { b % TWO_TO_32 / 8 % 0x1_0000 }

  function Lane(b: nat): (o: nat)
    ensures o < 8
  {
    b % TWO_TO_32 % 8
  }

  function ByteAt(mem: Mem, b: nat): (x: nat)
    ensures x < 256
  {
    ByteLane(mem[Slot(b)], Lane(b))
  }

  /** Two addresses name the same byte. */
  predicate Same(b: nat, c: nat) { b % MEM_BYTES == c % MEM_BYTES }

  function Poke(mem: Mem, b: nat, x: nat): Mem
    requires x < 256
  {
    mem[Slot(b) := SetByteLane(mem[Slot(b)], Lane(b), x)]
  }

  lemma SlotLane(b: nat)
    ensures b % MEM_BYTES == 8 * Slot(b) + Lane(b)
  {
  }

  lemma SameSlot(b: nat, c: nat)
    ensures Same(b, c) <==> Slot(b) == Slot(c) && Lane(b) == Lane(c)
  {
    SlotLane(b);
    SlotLane(c);
  }

  // ----- one byte of a word -----

  lemma DivShift(a: nat, b: nat, c: nat)
    requires c >= 1
    ensures (a * c + b) / c == a + b / c
  {
    ModUnique(a * c + b, c, a + b / c, b % c);
  }

  lemma DivDiv(x: nat, b: nat, c: nat)
    requires b >= 1 && c >= 1
    ensures b * c >= 1 && x / (b * c) == x / b / c
  {
    var q, r := x / b, x % b;
    var u, v := q / c, q % c;
    MulAtLeast(b, c);
    assert x == b * (c * u + v) + r;
    assert b * (c * u + v) == b * c * u + b * v;
    MulBelow(b, v, c, r);
    ModUnique(x, b * c, u, b * v + r);
  }

  lemma MulBelow(b: nat, v: nat, c: nat, r: nat)
    requires v < c && r < b
    ensures 0 <= b * v + r < b * c
  {
    assert b * (c - 1) == b * c - b;
    assert b * (c - 1 - v) >= 0;
    assert b * (c - 1 - v) == b * (c - 1) - b * v;
  }

  /** `h` above a byte `x` at weight `p`, `r` below. */
  function Glue(h: nat, x: nat, p: nat, r: nat): nat { (h * 256 + x) * p + r }

  lemma LanePowers(o: nat)
    requires o < 8
    ensures 256 * Pow2(56 - 8 * o) * Pow2(8 * o) == TWO_TO_64 && 256 * Pow2(56 - 8 * o) == Pow2(64 - 8 * o)
  {
    hide Pow2;
    PowAdd(8, 56 - 8 * o);
    PowAdd(64 - 8 * o, 8 * o);
    PowValues();
    assert 64 - 8 * o + 8 * o == 64 && 8 + (56 - 8 * o) == 64 - 8 * o;
  }

  /** What is above the byte at weight `p`. */
  function Above(w: nat, p: nat): nat
    requires p >= 1
  {
    w / p / 256
  }

  /** A word cut at a byte: what is above it, the byte, what is below. */
  lemma Cut(w: Word, o: nat)
    requires o < 8
    ensures var p := Pow2(56 - 8 * o);
            Above(w, p) < Pow2(8 * o) && w == Glue(Above(w, p), ByteLane(w, o), p, w % p)
  {
    hide Pow2, Glue;
    LanePowers(o);
    LaneIs(w, o);
    AboveBound(w, Pow2(56 - 8 * o), Pow2(8 * o));
    CutAt(w, Pow2(56 - 8 * o));
  }

  lemma AboveBound(w: nat, p: nat, m: nat)
    requires p >= 1 && w < 256 * p * m
    ensures Above(w, p) < m
  {
    DivDiv(w, p, 256);
    Swap(p, 256);
    Quotient64(w, 256 * p, m);
  }

  lemma CutAt(w: nat, p: nat)
    requires p >= 1
    ensures w == Glue(Above(w, p), w / p % 256, p, w % p)
  {
    var q := w / p;
    assert q == q / 256 * 256 + q % 256;
    Swap(p, q);
  }

  lemma Quotient64(w: nat, d: nat, m: nat)
    requires d >= 1 && w < d * m
    ensures w / d < m
  {
    var q := w / d;
    assert w == d * q + w % d;
    if q >= m { MulMore(d, m, q); }
  }

  lemma MulMore(d: nat, m: nat, q: nat)
    requires m <= q
    ensures d * m <= d * q
  {
  }

  /** Setting a byte exchanges the middle part. */
  lemma SetCut(w: Word, o: nat, x: nat)
    requires o < 8 && x < 256
    ensures var p := Pow2(56 - 8 * o); SetByteLane(w, o, x) == Glue(Above(w, p), x, p, w % p)
  {
    hide Pow2, ByteLane, Above;
    var p := Pow2(56 - 8 * o);
    Cut(w, o);
    LanePowers(o);
    var h := Above(w, p);
    Spread(h, ByteLane(w, o), x, p, w % p);
    Fits64(h, x, p, w % p, Pow2(8 * o));
    WrapWord(Glue(h, x, p, w % p));
  }

  lemma Spread(h: int, l: int, x: int, p: int, r: int)
    ensures (h * 256 + l) * p + r + (x - l) * p == (h * 256 + x) * p + r
  {
    assert (h * 256 + l) * p + (x - l) * p == (h * 256 + l + (x - l)) * p;
  }

  lemma Fits64(h: nat, x: nat, p: nat, r: nat, m: nat)
    requires h < m && x < 256 && r < p
    ensures 0 <= (h * 256 + x) * p + r < 256 * p * m
  {
    MulBelow(p, h * 256 + x, 256 * m, r);
    assert p * (256 * m) == 256 * p * m && p * (h * 256 + x) == (h * 256 + x) * p;
  }

  /** The byte set is the one read back; every other byte of the word stays. */
  lemma LaneSet(w: Word, o: nat, x: nat, k: nat)
    requires o < 8 && k < 8 && x < 256
    ensures ByteLane(SetByteLane(w, o, x), k) == if k == o then x else ByteLane(w, k)
  {
    hide Pow2, SetByteLane, ByteLane, Glue, Above;
    var p := Pow2(56 - 8 * o);
    Cut(w, o);
    SetCut(w, o, x);
    SameLanes(Above(w, p), ByteLane(w, o), x, o, k, w % p, w, SetByteLane(w, o, x));
  }

  lemma SameLanes(h: nat, l: nat, x: nat, o: nat, k: nat, r: nat, w: Word, v: Word)
    requires o < 8 && k < 8 && x < 256 && l < 256 && r < Pow2(56 - 8 * o)
    requires w == Glue(h, l, Pow2(56 - 8 * o), r) && v == Glue(h, x, Pow2(56 - 8 * o), r)
    ensures ByteLane(v, k) == if k == o then x else ByteLane(w, k)
  {
    hide Pow2, ByteLane, Glue;
    if k == o {
      MiddleIs(h, x, Pow2(56 - 8 * o), r);
      LaneIs(v, k);
    } else if k < o {
      HighLane(h, x, o, k, r, v);
      HighLane(h, l, o, k, r, w);
    } else {
      LowLane(h, x, o, k, r, v);
      LowLane(h, l, o, k, r, w);
    }
  }

  lemma LaneIs(w: Word, k: nat)
    requires k < 8
    ensures ByteLane(w, k) == w / Pow2(56 - 8 * k) % 256
  {
  }

  /** A byte above byte `o` depends on what is above byte `o`. */
  lemma HighLane(h: nat, x: nat, o: nat, k: nat, r: nat, v: Word)
    requires k < o < 8 && x < 256 && r < Pow2(56 - 8 * o) && v == Glue(h, x, Pow2(56 - 8 * o), r)
    ensures ByteLane(v, k) == h / Pow2(8 * (o - k) - 8) % 256
  {
    hide Pow2, ByteLane;
    PowAdd(64 - 8 * o, 8 * (o - k) - 8);
    PowAdd(56 - 8 * o, 8);
    PowValues();
    assert 64 - 8 * o + (8 * (o - k) - 8) == 56 - 8 * k && 56 - 8 * o + 8 == 64 - 8 * o;
    HighIs(h, x, Pow2(56 - 8 * o), r, Pow2(8 * (o - k) - 8));
    LaneIs(v, k);
  }

  /** A byte below byte `o` depends on what is below byte `o`. */
  lemma LowLane(h: nat, x: nat, o: nat, k: nat, r: nat, v: Word)
    requires o < k < 8 && v == Glue(h, x, Pow2(56 - 8 * o), r)
    ensures ByteLane(v, k) == r / Pow2(56 - 8 * k) % 256
  {
    hide Pow2, ByteLane;
    PowAdd(56 - 8 * k, 8 * (k - o));
    PowAdd(8 * (k - o) - 8, 8);
    PowValues();
    assert 56 - 8 * k + 8 * (k - o) == 56 - 8 * o && 8 * (k - o) - 8 + 8 == 8 * (k - o);
    Swap(256, Pow2(8 * (k - o) - 8));
    LowIs(h * 256 + x, Pow2(56 - 8 * k), Pow2(8 * (k - o) - 8), r);
    LaneIs(v, k);
  }

  lemma MiddleIs(h: nat, x: nat, p: nat, r: nat)
    requires x < 256 && r < p
    ensures Glue(h, x, p, r) / p % 256 == x
  {
    ModUnique((h * 256 + x) * p + r, p, h * 256 + x, r);
    ModUnique(h * 256 + x, 256, h, x);
  }

  /** Above the changed byte. */
  lemma HighIs(h: nat, x: nat, p: nat, r: nat, m: nat)
    requires x < 256 && r < p && m >= 1
    ensures 256 * p * m >= 1 && Glue(h, x, p, r) / (256 * p * m) == h / m
  {
    var v := (h * 256 + x) * p + r;
    MulAtLeast(256 * p, m);
    DivDiv(v, 256 * p, m);
    Fits64(0, x, p, r, 1);
    assert (h * 256 + x) * p + r == 256 * p * h + (x * p + r);
    ModUnique(v, 256 * p, h, x * p + r);
  }

  /** Below the changed byte. */
  lemma LowIs(u: nat, q: nat, m: nat, r: nat)
    requires q >= 1
    ensures (u * (q * (256 * m)) + r) / q % 256 == r / q % 256
  {
    assert u * (q * (256 * m)) == (u * m * 256) * q;
    DivShift(u * m * 256, r, q);
    var t := r / q;
    ModUnique(u * m * 256 + t, 256, u * m + t / 256, t % 256);
  }

  /** A byte store changes one byte of memory. */
  lemma PokeAt(mem: Mem, b: nat, x: nat, c: nat)
    requires x < 256
    ensures ByteAt(Poke(mem, b, x), c) == if Same(b, c) then x else ByteAt(mem, c)
  {
    hide ByteLane, SetByteLane, Same, Lane;
    SameSlot(b, c);
    LaneSet(mem[Slot(b)], Lane(b), x, Lane(c));
  }

  // ----- several bytes -----

  /** The number in the `w` bytes from `a` on, lowest first. */
  function Little(mem: Mem, a: nat, w: nat): nat {
    if w == 0 then 0 else Little(mem, a, w - 1) + ByteAt(mem, a + (w - 1)) * Pow2(8 * (w - 1))
  }

  function ByteOf(v: nat, i: nat): (x: nat)
    ensures x < 256
  {
    v / Pow2(8 * i) % 256
  }

  /** Bytes `i` to `w` of the value stored, from low to high. */
  function Stored(mem: Mem, a: nat, v: nat, i: nat, w: nat): Mem
    requires i <= w
    decreases w - i
  {
    if i == w then mem else Stored(Poke(mem, a + i, ByteOf(v, i)), a, v, i + 1, w)
  }

  lemma {:induction false} LittleBound(mem: Mem, a: nat, w: nat)
    ensures Little(mem, a, w) < Pow2(8 * w)
    decreases w
  {
    hide ByteAt, Pow2;
    if w > 0 {
      LittleBound(mem, a, w - 1);
      PowAdd(8 * (w - 1), 8);
      PowValues();
      assert 8 * (w - 1) + 8 == 8 * w;
      MulBelow(Pow2(8 * (w - 1)), ByteAt(mem, a + (w - 1)), 256, Little(mem, a, w - 1));
      Swap(Pow2(8 * (w - 1)), ByteAt(mem, a + (w - 1)));
    }
  }

  lemma Swap(a: int, b: int)
    ensures a * b == b * a
  {
  }

  /** Byte `i` of a value at `a` is the byte of memory at `c`. */
  predicate Covers(a: nat, i: nat, c: nat) { Same(a + i, c) }

  lemma Apart(a: nat, i: nat, j: nat, c: nat)
    requires i < 8 && j < 8 && i != j && Covers(a, i, c)
    ensures !Covers(a, j, c)
  {
  }

  /** A store of up to eight bytes puts each in its place and leaves every other byte of memory. */
  lemma {:induction false} StoredAt(mem: Mem, a: nat, v: nat, i: nat, w: nat, c: nat)
    requires i <= w <= 8
    ensures forall j :: i <= j < w && Covers(a, j, c) ==> ByteAt(Stored(mem, a, v, i, w), c) == ByteOf(v, j)
    ensures (forall j :: i <= j < w ==> !Covers(a, j, c)) ==> ByteAt(Stored(mem, a, v, i, w), c) == ByteAt(mem, c)
    decreases w - i
  {
    hide ByteAt, Poke, ByteOf, Same;
    if i < w {
      StoredAt(Poke(mem, a + i, ByteOf(v, i)), a, v, i + 1, w, c);
      PokeAt(mem, a + i, ByteOf(v, i), c);
      assert Covers(a, i, c) == Same(a + i, c);
      if Covers(a, i, c) {
        forall j | i < j < w ensures !Covers(a, j, c) { Apart(a, i, j, c); }
      }
    }
  }

  /** What was stored is what is loaded, modulo 256^w. */
  lemma {:induction false} LoadStored(mem: Mem, a: nat, v: nat, k: nat, w: nat)
    requires k <= w <= 8
    ensures Little(Stored(mem, a, v, 0, w), a, k) == v % Pow2(8 * k)
    decreases k
  {
    hide ByteAt, Stored;
    if k > 0 {
      LoadStored(mem, a, v, k - 1, w);
      StoredAt(mem, a, v, 0, w, a + (k - 1));
      assert Covers(a, k - 1, a + (k - 1));
      NextByte(v, k - 1);
    }
  }

  lemma NextByte(v: nat, k: nat)
    ensures v % Pow2(8 * (k + 1)) == v % Pow2(8 * k) + ByteOf(v, k) * Pow2(8 * k)
  {
    hide Pow2;
    var p := Pow2(8 * k);
    PowAdd(8 * k, 8);
    PowValues();
    assert 8 * k + 8 == 8 * (k + 1);
    var q := v / p;
    assert v == p * q + v % p && q == 256 * (q / 256) + q % 256;
    assert p * (256 * (q / 256) + q % 256) == 256 * p * (q / 256) + p * (q % 256);
    MulBelow(p, q % 256, 256, v % p);
    Swap(p, q % 256);
    ModUnique(v, 256 * p, q / 256, p * (q % 256) + v % p);
    assert p * 256 == 256 * p;
  }

  // ----- the emitted code -----

  function LoadFrom(dst: RegIx, i: nat, w: nat): seq<Line>
    decreases w - i
  {
    if i >= w then []
    else [RI(LOADB, 25, 28, i)] + (if i == 0 then [] else [RI(SHL, 25, 25, 8 * i)]) + [RR(OR, dst, dst, 25)]
         + LoadFrom(dst, i + 1, w)
  }

  function StoreFrom(i: nat, w: nat): seq<Line>
    decreases w - i
  {
    if i >= w then []
    else [RI(STOREB, 27, 28, i)] + (if i + 1 < w then [RI(SHR, 27, 27, 8)] else []) + StoreFrom(i + 1, w)
  }

  type Offset = x: int | 0 <= x < 0x8000_0000_0000_0000

  function LoadHead(top: RegIx, offset: Offset): (code: seq<Line>)
    ensures |code| == 4
  {
    [Movi(28, offset), RR(ADD, 28, top, 28), Mov(28, 28), Clr(top)]
  }

  /** A load: `top` holds the address, then the value. */
  function LoadLines(top: RegIx, offset: Offset, w: nat, signed: bool, f: Func, serial: nat): seq<Line>
    requires 1 <= w <= 8
  {
    LoadHead(top, offset) + LoadFrom(top, 0, w) + if signed then NarrowExtend(top, 8 * w, f, serial) else []
  }

  /** A store: the address is below the value. */
  function StoreLines(top: RegIx, offset: Offset, w: nat): seq<Line>
    requires top >= 1
  {
    [Movi(28, offset), RR(ADD, 28, top - 1, 28), Mov(28, 28), Mov(27, top)] + StoreFrom(0, w)
  }

  /** The load loop of the translator. */
  method EmitLoadBytes(dst: RegIx, address: RegIx, w: nat) returns (code: seq<Line>)
    ensures code == [Mov(28, address), Clr(dst)] + LoadFrom(dst, 0, w)
  {
    code := [Mov(28, address), Clr(dst)];
    var i := 0;
    while i < w
      invariant 0 <= i <= w
      invariant code + LoadFrom(dst, i, w) == [Mov(28, address), Clr(dst)] + LoadFrom(dst, 0, w)
    {
      ghost var was, rest := code, LoadFrom(dst, i + 1, w);
      code := code + [RI(LOADB, 25, 28, i)];
      if i != 0 { code := code + [RI(SHL, 25, 25, 8 * i)]; }
      code := code + [RR(OR, dst, dst, 25)];
      assert code + rest == was + LoadFrom(dst, i, w);
      i := i + 1;
    }
  }

  /** The store loop of the translator. */
  method EmitStoreBytes(address: RegIx, value: RegIx, w: nat) returns (code: seq<Line>)
    ensures code == [Mov(28, address), Mov(27, value)] + StoreFrom(0, w)
  {
    code := [Mov(28, address), Mov(27, value)];
    var i := 0;
    while i < w
      invariant 0 <= i <= w
      invariant code + StoreFrom(i, w) == [Mov(28, address), Mov(27, value)] + StoreFrom(0, w)
    {
      ghost var was, rest := code, StoreFrom(i + 1, w);
      code := code + [RI(STOREB, 27, 28, i)];
      if i + 1 < w { code := code + [RI(SHR, 27, 27, 8)]; }
      assert code + rest == was + StoreFrom(i, w);
      i := i + 1;
    }
  }

  // ----- what it does -----

  lemma ByteEffects(fd: RegIx, fa: RegIx, imm: nat, reg: Regs, mem: Mem)
    requires imm < 8
    ensures Execute(I(LOADB, fd, fa, imm), reg, mem) == Next(Put(reg, fd, ByteAt(mem, reg[fa] + imm)), mem)
    ensures Execute(I(STOREB, fd, fa, imm), reg, mem) == Next(reg, Poke(mem, reg[fa] + imm, reg[fd] % 256))
  {
    hide ByteLane, SetByteLane, Alu, BitOp;
  }

  lemma DoLoadByte(p: Program, s: State, fd: RegIx, fa: RegIx, imm: nat)
    requires imm < 8 && OnLine(p, s, RI(LOADB, fd, fa, imm))
    ensures Goes(p, s, 1, After(s, fd, ByteAt(s.mem, s.reg[fa] + imm)))
  {
    hide Meaning, Execute, ByteAt;
    PlainMeaning(p, s, I(LOADB, fd, fa, imm));
    ByteEffects(fd, fa, imm, s.reg, s.mem);
    GoesOne(p, s);
  }

  lemma DoStoreByte(p: Program, s: State, fd: RegIx, fa: RegIx, imm: nat)
    requires imm < 8 && OnLine(p, s, RI(STOREB, fd, fa, imm)) && Slot(s.reg[fa] + imm) >= E.CodeSize(p.lines)
    ensures Goes(p, s, 1, s.(line := s.line + 1, mem := Poke(s.mem, s.reg[fa] + imm, s.reg[fd] % 256)))
  {
    hide Meaning, Execute, Poke;
    PlainMeaning(p, s, I(STOREB, fd, fa, imm));
    ByteEffects(fd, fa, imm, s.reg, s.mem);
    GoesOne(p, s);
  }

  /** A byte moved up eight bits at a time, and joined to the bytes below. */
  lemma ByteJoins(low: Word, b: nat, i: nat)
    requires i < 8 && b < 256 && low < Pow2(8 * i)
    ensures b < TWO_TO_64 && 0 <= b * Pow2(8 * i) < TWO_TO_64 && BitOp(SHL, b, 8 * i) == b * Pow2(8 * i)
    ensures Or(low, b * Pow2(8 * i)) == low + b * Pow2(8 * i)
  {
    hide Pow2, Bits;
    PowAdd(8 * i, 8);
    PowMonotone(8 * i + 8, 64);
    PowValues();
    MulBelow(Pow2(8 * i), b, 256, 0);
    Swap(b, Pow2(8 * i));
    WrapWord(b * Pow2(8 * i));
    OrGlue(b, low, 8 * i);
    BitsCommute(BitOr, low, b * Pow2(8 * i));
  }

  lemma {:induction false} LoadStep(p: Program, s: State, dst: RegIx, i: nat, w: nat) returns (n: nat, t: State)
    requires 4 <= dst <= 24 && i < w <= 8 && s.mode == Going && CodeAt(p.lines, s.line, LoadFrom(dst, i, w))
    requires s.reg[dst] == Little(s.mem, s.reg[28], i)
    ensures Goes(p, s, n, t) && t == s.(line := t.line, reg := t.reg)
    ensures t.line + |LoadFrom(dst, i + 1, w)| == s.line + |LoadFrom(dst, i, w)|
    ensures CodeAt(p.lines, t.line, LoadFrom(dst, i + 1, w)) && t.reg[dst] == Little(s.mem, s.reg[28], i + 1)
    ensures forall r :: 0 <= r < 32 && r != dst && r != 25 ==> t.reg[r] == s.reg[r]
  {
    hide Goes, Pow2, ByteAt, BitOp, Alu, Or, Bits;
    var code := LoadFrom(dst, i, w);
    var k := if i == 0 then 2 else 3;
    assert code == code[..k] + LoadFrom(dst, i + 1, w);
    CodeAtParts(p.lines, s.line, code[..k], LoadFrom(dst, i + 1, w));
    CodeAtLine(p.lines, s.line, code, 0);
    CodeAtLine(p.lines, s.line, code, 1);
    CodeAtLine(p.lines, s.line, code, k - 1);
    var b := ByteAt(s.mem, s.reg[28] + i);
    LittleBound(s.mem, s.reg[28], i);
    ByteJoins(s.reg[dst], b, i);
    DoLoadByte(p, s, 25, 28, i);
    t := After(s, 25, b);
    n := 1;
    if i != 0 {
      DoBit(p, t, SHL, 25, 25, 8 * i);
      var u := After(t, 25, b * Pow2(8 * i));
      GoesTrans(p, s, 1, t, 1, u);
      t := u;
      n := 2;
    } else {
      PowValues();
    }
    DoAlu(p, t, OR, dst, dst, 25);
    Leaves.OrOp(t.reg[dst], t.reg[25]);
    var u := After(t, dst, s.reg[dst] + b * Pow2(8 * i));
    GoesTrans(p, s, n, t, 1, u);
    t := u;
    n := n + 1;
  }

  lemma {:induction false} LoadFromRun(p: Program, s: State, dst: RegIx, i: nat, w: nat) returns (n: nat, t: State)
    requires 4 <= dst <= 24 && i <= w <= 8 && s.mode == Going && CodeAt(p.lines, s.line, LoadFrom(dst, i, w))
    requires s.reg[dst] == Little(s.mem, s.reg[28], i)
    ensures Goes(p, s, n, t) && t == s.(line := s.line + |LoadFrom(dst, i, w)|, reg := t.reg)
    ensures t.reg[dst] == Little(s.mem, s.reg[28], w)
    ensures forall r :: 0 <= r < 32 && r != dst && r != 25 ==> t.reg[r] == s.reg[r]
    decreases w - i
  {
    hide Goes, LoadFrom, Little;
    if i < w {
      var a, u := LoadStep(p, s, dst, i, w);
      n, t := LoadFromRun(p, u, dst, i + 1, w);
      GoesTrans(p, s, a, u, n, t);
      n := a + n;
    } else {
      GoesZero(p, s);
      LoadDone(dst, w);
      n, t := 0, s;
    }
  }

  lemma LoadDone(dst: RegIx, w: nat)
    ensures LoadFrom(dst, w, w) == [] && StoreFrom(w, w) == []
  {
  }

  /** The address both forms leave in R28. */
  lemma {:induction false} AddressRun(p: Program, s: State, base: RegIx, offset: Offset) returns (t: State)
    requires 4 <= base <= 24 && s.mode == Going && s.line + 3 <= |p.lines|
    requires p.lines[s.line] == Movi(28, offset) && p.lines[s.line + 1] == RR(ADD, 28, base, 28)
    requires p.lines[s.line + 2] == Mov(28, 28)
    ensures Goes(p, s, 3, t) && t == s.(line := s.line + 3, reg := t.reg)
    ensures t.reg[28] == (s.reg[base] + offset) % TWO_TO_64
    ensures forall r :: 0 <= r < 32 && r != 27 && r != 28 ==> t.reg[r] == s.reg[r]
  {
    hide Goes, Pow2, MoviBytes, Wrap;
    var s1 := Meaning(p, s);
    OffsetLoads(p, s, offset);
    DoAlu(p, s1, ADD, 28, base, 28);
    var s2 := After(s1, 28, Wrap(s.reg[base] + offset));
    AddWraps(s.reg[base], offset);
    GoesTrans(p, s, 1, s1, 1, s2);
    DoMov(p, s2, 28, 28);
    t := After(s2, 28, s2.reg[28]);
    GoesTrans(p, s, 2, s2, 1, t);
  }

  lemma AddWraps(a: Word, b: Word)
    ensures Alu(ADD, a, b) == Some(Wrap(a + b)) && Wrap(a + b) == (a + b) % TWO_TO_64
  {
    hide Bits, Pow2;
  }

  lemma OffsetLoads(p: Program, s: State, offset: Offset)
    requires OnLine(p, s, Movi(28, offset))
    ensures var t := Meaning(p, s);
            Goes(p, s, 1, t) && t == s.(line := s.line + 1, reg := t.reg) && t.reg[28] == offset &&
            forall r :: 0 <= r < 32 && r != 27 && r != 28 ==> t.reg[r] == s.reg[r]
  {
    hide Goes, Pow2, MoviBytes, Wrap;
    MoviKeeps(offset);
    WrapCases(offset);
    WrapWord(offset);
    GoesOne(p, s);
  }

  /** What a load leaves on the stack. */
  function Loaded(mem: Mem, a: nat, w: nat, signed: bool): int
    requires 1 <= w <= 8
  {
    LittleBound(mem, a, w);
    PowValues();
    PowMonotone(8 * w, 64);
    if signed then Exactness.Extended(Little(mem, a, w), 8 * w) else Little(mem, a, w)
  }

  lemma DoClr(p: Program, s: State, rd: RegIx)
    requires OnLine(p, s, Clr(rd))
    ensures Goes(p, s, 1, After(s, rd, 0))
  {
    GoesOne(p, s);
  }

  lemma {:induction false} LoadPlain(p: Program, s: State, top: RegIx, offset: Offset, w: nat)
    returns (n: nat, t: State)
    requires 4 <= top <= 24 && 1 <= w <= 8 && s.mode == Going
    requires CodeAt(p.lines, s.line, LoadHead(top, offset) + LoadFrom(top, 0, w))
    ensures Goes(p, s, n, t) && t == s.(line := s.line + 4 + |LoadFrom(top, 0, w)|, reg := t.reg)
    ensures t.reg[top] == Little(s.mem, (s.reg[top] + offset) % TWO_TO_64, w)
    ensures forall r :: 0 <= r < 32 && r != top && !(25 <= r <= 28) ==> t.reg[r] == s.reg[r]
  {
    hide Goes, LoadFrom, Little, E.CodeSize, Pow2, MoviBytes, E.Tame, CodeAt;
    var head := LoadHead(top, offset);
    CodeAtParts(p.lines, s.line, head, LoadFrom(top, 0, w));
    HeadLines(p, s.line, head);
    var s1 := AddressRun(p, s, top, offset);
    var s2 := After(s1, top, 0);
    DoClr(p, s1, top);
    GoesTrans(p, s, 3, s1, 1, s2);
    NothingYet(s2.mem, s2.reg[28]);
    n, t := LoadFromRun(p, s2, top, 0, w);
    GoesTrans(p, s, 4, s2, n, t);
    n := 4 + n;
  }

  /** A load computes the number in memory at base plus offset, sign-extended to 64 bits on request, and
      leaves memory and every register but its scratch ones alone. */
  lemma {:induction false} LoadRun(p: Program, s: State, top: RegIx, offset: Offset, w: nat, signed: bool, f: Func,
                                   serial: nat)
    returns (n: nat, t: State)
    requires 4 <= top <= 24 && 1 <= w <= 8 && s.mode == Going && DistinctLabels(p.lines)
    requires CodeAt(p.lines, s.line, LoadLines(top, offset, w, signed, f, serial))
    ensures Goes(p, s, n, t)
    ensures t == s.(line := s.line + |LoadLines(top, offset, w, signed, f, serial)|, reg := t.reg)
    ensures t.reg[top] == Loaded(s.mem, (s.reg[top] + offset) % TWO_TO_64, w, signed)
    ensures forall r :: 0 <= r < 32 && r != top && r != 1 && !(25 <= r <= 28) ==> t.reg[r] == s.reg[r]
  {
    hide Goes, LoadFrom, NarrowExtend, DistinctLabels, Little, Exactness.Extended, LoadHead;
    var tail := if signed then NarrowExtend(top, 8 * w, f, serial) else [];
    CodeAtParts(p.lines, s.line, LoadHead(top, offset) + LoadFrom(top, 0, w), tail);
    n, t := LoadPlain(p, s, top, offset, w);
    if signed {
      Leaves.NarrowLength(top, 8 * w, f, serial);
      var m, u := Leaves.NarrowRun(p, t, top, 8 * w, f, serial);
      GoesTrans(p, s, n, t, m, u);
      n, t := n + m, u;
    }
  }

  lemma HeadLines(p: Program, at: nat, head: seq<Line>)
    requires |head| == 4 && CodeAt(p.lines, at, head)
    ensures at + 4 <= |p.lines| && p.lines[at] == head[0] && p.lines[at + 1] == head[1] && p.lines[at + 2] == head[2]
    ensures p.lines[at + 3] == head[3]
  {
    CodeAtLine(p.lines, at, head, 0);
    CodeAtLine(p.lines, at, head, 1);
    CodeAtLine(p.lines, at, head, 2);
    CodeAtLine(p.lines, at, head, 3);
  }

  lemma NothingYet(mem: Mem, a: nat)
    ensures Little(mem, a, 0) == 0
  {
  }

  /** No byte of the store lies in the program. */
  predicate Clear(p: Program, a: nat, w: nat) { forall i :: 0 <= i < w ==> Spared(p, a, i) }

  predicate Spared(p: Program, a: nat, i: nat) { Slot(a + i) >= E.CodeSize(p.lines) }

  lemma {:induction false} StoreStep(p: Program, s: State, v: Word, i: nat, w: nat) returns (n: nat, t: State)
    requires i < w <= 8 && s.mode == Going && CodeAt(p.lines, s.line, StoreFrom(i, w)) && Spared(p, s.reg[28], i)
    requires s.reg[27] == v / Pow2(8 * i)
    ensures Goes(p, s, n, t)
    ensures t == s.(line := t.line, reg := t.reg, mem := Poke(s.mem, s.reg[28] + i, ByteOf(v, i)))
    ensures t.line + |StoreFrom(i + 1, w)| == s.line + |StoreFrom(i, w)|
    ensures CodeAt(p.lines, t.line, StoreFrom(i + 1, w)) && (i + 1 < w ==> t.reg[27] == v / Pow2(8 * (i + 1)))
    ensures forall r :: 0 <= r < 32 && r != 27 ==> t.reg[r] == s.reg[r]
  {
    hide Goes, Pow2, Poke, BitOp, E.CodeSize;
    var code := StoreFrom(i, w);
    var k := if i + 1 < w then 2 else 1;
    assert code == code[..k] + StoreFrom(i + 1, w);
    CodeAtParts(p.lines, s.line, code[..k], StoreFrom(i + 1, w));
    CodeAtLine(p.lines, s.line, code, 0);
    DoStoreByte(p, s, 27, 28, i);
    t := s.(line := s.line + 1, mem := Poke(s.mem, s.reg[28] + i, ByteOf(v, i)));
    n := 1;
    if i + 1 < w {
      CodeAtLine(p.lines, s.line, code, 1);
      DoBit(p, t, SHR, 27, 27, 8);
      ShiftByte(v, i);
      var u := After(t, 27, v / Pow2(8 * (i + 1)));
      GoesTrans(p, s, 1, t, 1, u);
      n, t := 2, u;
    }
  }

  lemma {:induction false} StoreFromRun(p: Program, s: State, v: Word, i: nat, w: nat) returns (n: nat, t: State)
    requires i <= w <= 8 && s.mode == Going && CodeAt(p.lines, s.line, StoreFrom(i, w)) && Clear(p, s.reg[28], w)
    requires i < w ==> s.reg[27] == v / Pow2(8 * i)
    ensures Goes(p, s, n, t)
    ensures t == s.(line := s.line + |StoreFrom(i, w)|, reg := t.reg, mem := Stored(s.mem, s.reg[28], v, i, w))
    ensures forall r :: 0 <= r < 32 && r != 27 ==> t.reg[r] == s.reg[r]
    decreases w - i
  {
    hide Goes, Pow2, Poke, ByteOf, StoreFrom, Spared;
    if i < w {
      var a, u := StoreStep(p, s, v, i, w);
      n, t := StoreFromRun(p, u, v, i + 1, w);
      GoesTrans(p, s, a, u, n, t);
      n := a + n;
    } else {
      GoesZero(p, s);
      LoadDone(1, w);
      n, t := 0, s;
    }
  }

  lemma ShiftByte(v: Word, i: nat)
    requires i < 7
    ensures 0 <= v / Pow2(8 * i) <= v && 0 <= v / Pow2(8 * (i + 1)) <= v
    ensures BitOp(SHR, v / Pow2(8 * i), 8) == v / Pow2(8 * (i + 1))
  {
    hide Pow2;
    DivSmaller(v, Pow2(8 * i));
    DivSmaller(v, Pow2(8 * (i + 1)));
    Leaves.ShrOp(v / Pow2(8 * i), 8);
    PowAdd(8 * i, 8);
    PowValues();
    assert 8 * i + 8 == 8 * (i + 1);
    DivDiv(v, Pow2(8 * i), 256);
  }

  /** A store puts the low bytes of the value at base plus offset and changes no other byte. */
  lemma {:induction false} StoreRun(p: Program, s: State, top: RegIx, offset: Offset, w: nat) returns (n: nat, t: State)
    requires 5 <= top <= 24 && 1 <= w <= 8 && s.mode == Going && CodeAt(p.lines, s.line, StoreLines(top, offset, w))
    requires Clear(p, (s.reg[top - 1] + offset) % TWO_TO_64, w)
    ensures Goes(p, s, n, t)
    ensures t == s.(line := s.line + |StoreLines(top, offset, w)|, reg := t.reg,
                    mem := Stored(s.mem, (s.reg[top - 1] + offset) % TWO_TO_64, s.reg[top], 0, w))
    ensures forall r :: 0 <= r < 32 && r != 27 && r != 28 ==> t.reg[r] == s.reg[r]
  {
    hide Goes, StoreFrom, E.CodeSize, Stored, Clear;
    var head := [Movi(28, offset), RR(ADD, 28, top - 1, 28), Mov(28, 28), Mov(27, top)];
    CodeAtParts(p.lines, s.line, head, StoreFrom(0, w));
    HeadLines(p, s.line, head);
    var s1 := AddressRun(p, s, top - 1, offset);
    DoMov(p, s1, 27, top);
    var s2 := After(s1, 27, s.reg[top]);
    GoesTrans(p, s, 3, s1, 1, s2);
    assert Pow2(8 * 0) == 1;
    n, t := StoreFromRun(p, s2, s.reg[top], 0, w);
    GoesTrans(p, s, 4, s2, n, t);
    n := 4 + n;
  }

  /** Loading what a store of the same width left gives the value modulo 256^w, sign-extended by the
      signed forms. */
  lemma LoadAfterStore(mem: Mem, a: nat, v: Word, w: nat, signed: bool)
    requires 1 <= w <= 8
    ensures v % Pow2(8 * w) < TWO_TO_64
    ensures Loaded(Stored(mem, a, v, 0, w), a, w, signed)
         == if signed then Exactness.Extended(v % Pow2(8 * w), 8 * w) else v % Pow2(8 * w)
  {
    hide Pow2, Stored, Little, Exactness.Extended;
    LoadStored(mem, a, v, w, w);
    PowValues();
    PowMonotone(8 * w, 64);
  }
}
