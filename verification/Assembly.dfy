/** Assembly programs as the assembler sees them after tokenising: one value per source line,
    the words each line expands to, and what each line means to a programmer.

    `Meaning` is the programmer's view: a jump to a label is one step.  It is exact about the
    registers the fixed expansions overwrite: a taken label jump leaves the target address in
    R28 and its low byte in R27, a compare-and-branch also leaves its flag in R1.  With
    `atomic` set a jump touches nothing but the program position; that view is only used to
    state what the generated code would compute if jumps cost no registers. */
module Assembly {
  import opened Words
  import opened Machine

  /** A label name: the printed forms `base`, `base_a` and `base_a_b` kept as data. */
  datatype Name = Name(base: string, a: nat, b: nat)

  datatype Cond = BGT | BLT | BGE | BLE | BEQ | BNE

  type Imm64 = v: int | -0x8000_0000_0000_0000 <= v < 0x8000_0000_0000_0000

  datatype Line =
    | LabelDef(name: Name)
    | Directive
    | WordData(value: Imm64)
    | WordLabel(name: Name)
    | Zero(count: nat)
    | Plain(insn: Insn)
    | Mov(rd: RegIx, rs: RegIx)
    | Clr(rd: RegIx)
    | Neg(rd: RegIx, rs: RegIx)
    | Not(rd: RegIx, rs: RegIx)
    | Inc(rd: RegIx)
    | Dec(rd: RegIx)
    | LoadImm(rd: RegIx, value: Imm64)
    | LoadLabel(rd: RegIx, name: Name)
    | Movi(rd: RegIx, value: Imm64)
    | MoviLabel(rd: RegIx, name: Name)
    | Push(rs: RegIx)
    | Pop(rd: RegIx)
    | Jump(name: Name)
    | JumpZ(rs: RegIx, name: Name)
    | JumpNZ(rs: RegIx, name: Name)
    | Branch(cond: Cond, r1: RegIx, r2: RegIx, name: Name)
    | BranchBy(cond: Cond, r1: RegIx, r2: RegIx, offset: int)

  // ----- widths -----

  /** Bytes of the shortest two's complement form of `v`, as the search from `from` finds it. */
  function WidthFrom(v: Imm64, from: nat): (n: nat)
    requires 1 <= from <= 8
    ensures from <= n <= 8
    decreases 8 - from
  {
    if from == 8 || FitsBytes(v, from) then from else WidthFrom(v, from + 1)
  }

  predicate FitsBytes(v: int, n: nat)
    requires n >= 1
  {
    var half: int := Pow2(8 * n - 1);
    -half <= v < half
  }

  function MoviBytes(v: Imm64): (n: nat)
    ensures 1 <= n <= 8
  {
    WidthFrom(v, 1)
  }

  /** The search: `v` fits in that many bytes and in no fewer. */
  method FindMoviBytes(v: Imm64) returns (bytes: nat)
    ensures bytes == MoviBytes(v) && 1 <= bytes <= 8 && FitsBytes(v, bytes)
    ensures forall n :: 1 <= n < bytes ==> !FitsBytes(v, n)
  {
    hide FitsBytes;
    WidthFits(v, 1);
    bytes := 1;
    while bytes < 8
      invariant 1 <= bytes <= 8
      invariant MoviBytes(v) == WidthFrom(v, bytes)
      invariant forall n :: 1 <= n < bytes ==> !FitsBytes(v, n)
    {
      if FitsBytes(v, bytes) { return; }
      bytes := bytes + 1;
    }
  }

  function MoviSize(bytes: nat): nat
    requires bytes >= 1
  {
    1 + 3 * (bytes - 1)
  }

  function Size(line: Line): nat {
    match line
    case LabelDef(_) => 0
    case Directive => 0
    case WordData(_) => 1
    case WordLabel(_) => 1
    case Zero(n) => n
    case Plain(_) => 1
    case Mov(_, _) => 1
    case Clr(_) => 1
    case Neg(_, _) => 1
    case Not(_, _) => 2
    case Inc(_) => 2
    case Dec(_) => 2
    case LoadImm(_, v) => if Fits11(v) then 1 else MoviSize(MoviBytes(v))
    case LoadLabel(_, _) => MoviSize(2)
    case Movi(_, v) => MoviSize(MoviBytes(v))
    case MoviLabel(_, _) => MoviSize(2)
    case Push(_) => 3
    case Pop(_) => 3
    case Jump(_) => 1 + MoviSize(2)
    case JumpZ(_, _) => 2 + MoviSize(2)
    case JumpNZ(_, _) => 2 + MoviSize(2)
    case Branch(_, _, _, _) => 3 + MoviSize(2)
    case BranchBy(_, _, _, _) => 2
  }

  /** The word address of line `k`: the words of all lines before it. */
  function AddressOf(lines: seq<Line>, k: nat): nat
    requires k <= |lines|
  {
    if k == 0 then 0 else AddressOf(lines, k - 1) + Size(lines[k - 1])
  }

  lemma {:induction false} AddressMonotone(lines: seq<Line>, j: nat, k: nat)
    requires j <= k <= |lines|
    ensures AddressOf(lines, j) <= AddressOf(lines, k)
  {
    if j < k { AddressMonotone(lines, j, k - 1); }
  }

  /** MOVI keeps a non-negative number and zero-extends a negative one. */
  lemma MoviKeeps(v: Imm64)
    ensures v >= 0 ==> Wrap(v) % Pow2(8 * MoviBytes(v)) == v
    ensures v < 0 && MoviBytes(v) < 8 ==>
              Wrap(v) % Pow2(8 * MoviBytes(v)) == v + Pow2(8 * MoviBytes(v)) < TWO_TO_63
    ensures MoviBytes(v) == 8 ==> Wrap(v) % Pow2(8 * MoviBytes(v)) == Wrap(v)
  {
    hide Pow2, MoviBytes, Wrap;
    var n := MoviBytes(v);
    WidthBound(v);
    WrapCases(v);
    if v >= 0 { ModSmall(v, Pow2(8 * n)); }
    else if n < 8 { NegativeBytes(v, n); SevenBytes(n); }
    if n == 8 { PowValues(); }
  }

  lemma WrapCases(v: Imm64)
    ensures Wrap(v) == if v >= 0 then v else v + TWO_TO_64
  {
  }

  lemma SevenBytes(n: nat)
    requires n < 8
    ensures Pow2(8 * n) < TWO_TO_63
  {
    PowMonotone(8 * n, 56);
    PowValues();
    PowMonotone(56, 62);
  }

  lemma WidthBound(v: Imm64)
    ensures var half := Pow2(8 * MoviBytes(v) - 1);
            -(half as int) <= v < half && Pow2(8 * MoviBytes(v)) == 2 * half
  {
    WidthFits(v, 1);
  }

  lemma NegativeBytes(v: Imm64, n: nat)
    requires n <= 8 && v < 0 && 0 <= v + Pow2(8 * n)
    ensures (v + TWO_TO_64) % Pow2(8 * n) == v + Pow2(8 * n)
  {
    hide Pow2;
    PowSplit(n);
    var p, q: int := Pow2(8 * n), Pow2(64 - 8 * n);
    MulDistribute(p, q, 1);
    ModUnique(v + TWO_TO_64, p, q - 1, v + p);
  }

  lemma PowSplit(n: nat)
    requires n <= 8
    ensures Pow2(8 * n) * Pow2(64 - 8 * n) == TWO_TO_64
  {
    PowValues();
    PowAdd(8 * n, 64 - 8 * n);
    assert 8 * n + (64 - 8 * n) == 64;
  }

  lemma {:induction false} WidthFits(v: Imm64, from: nat)
    requires 1 <= from <= 8
    ensures FitsBytes(v, WidthFrom(v, from))
    decreases 8 - from
  {
    hide Pow2;
    PowValues();
    if from < 8 && !FitsBytes(v, from) {
      hide FitsBytes;
      WidthFits(v, from + 1);
    }
  }

  // ----- expansions -----

  function Temp(rd: RegIx): RegIx { if rd == 27 then 26 else 27 }

  function R(op: Opcode, fd: RegIx, fa: RegIx, fb: RegIx): Insn { Insn(op, fd, fa, fb, 0) }

  function I(op: Opcode, fd: RegIx, fa: RegIx, imm: int): Insn { Insn(op, fd, fa, 0, imm) }

  /** Source lines holding one instruction. */
  function RR(op: Opcode, fd: RegIx, fa: RegIx, fb: RegIx): Line { Plain(R(op, fd, fa, fb)) }

  function RI(op: Opcode, fd: RegIx, fa: RegIx, imm: int): Line { Plain(I(op, fd, fa, imm)) }

  function ByteOf(x: nat, k: nat): nat { x / Pow2(8 * k) % 256 }

  /** The three instructions appended for each byte below the top one. */
  function MoviTail(rd: RegIx, value: Word, k: nat): (s: seq<Insn>)
    ensures |s| == 3 * k
  {
    if k == 0 then []
    else [I(SHL, rd, rd, 8), I(LI, Temp(rd), 0, ByteOf(value, k - 1)), R(OR, rd, rd, Temp(rd))]
         + MoviTail(rd, value, k - 1)
  }

  function MoviInsns(rd: RegIx, value: Word, bytes: nat): (s: seq<Insn>)
    requires bytes >= 1
    ensures |s| == MoviSize(bytes)
  {
    [I(LI, rd, 0, ByteOf(value, bytes - 1))] + MoviTail(rd, value, bytes - 1)
  }

  function CompareOp(c: Cond): Opcode {
    match c
    case BGT => CMPLT
    case BLT => CMPLT
    case BGE => CMPLE
    case BLE => CMPLE
    case BEQ => CMPEQ
    case BNE => CMPNE
  }

  predicate Swapped(c: Cond) { c in {BGT, BGE} }

  function CompareInsn(c: Cond, r1: RegIx, r2: RegIx): Insn {
    if Swapped(c) then R(CompareOp(c), 1, r2, r1) else R(CompareOp(c), 1, r1, r2)
  }

  function FarJump(address: Word): (s: seq<Insn>)
    ensures |s| == 5
  {
    MoviInsns(28, address, 2) + [R(JALR, 0, 28, 0)]
  }

  /** The name a line needs the address of. */
  function Target(line: Line): Option<Name> {
    match line
    case WordLabel(n) => Some(n)
    case LoadLabel(_, n) => Some(n)
    case MoviLabel(_, n) => Some(n)
    case Jump(n) => Some(n)
    case JumpZ(_, n) => Some(n)
    case JumpNZ(_, n) => Some(n)
    case Branch(_, _, _, n) => Some(n)
    case _ => None
  }

  /** The instructions a code line expands to, given the address of the label it names. */
  function Expand(line: Line, address: Word): (s: seq<Insn>)
    requires !line.WordData? && !line.WordLabel? && !line.Zero?
  {
    match line
    case LabelDef(_) => []
    case Directive => []
    case Plain(i) => [i]
    case Mov(rd, rs) => [R(ADD, rd, rs, 0)]
    case Clr(rd) => [R(ADD, rd, 0, 0)]
    case Neg(rd, rs) => [R(SUB, rd, 0, rs)]
    case Not(rd, rs) => [I(LI, 1, 0, -1), R(XOR, rd, rs, 1)]
    case Inc(rd) => [I(LI, 1, 0, 1), R(ADD, rd, rd, 1)]
    case Dec(rd) => [I(LI, 1, 0, -1), R(ADD, rd, rd, 1)]
    case LoadImm(rd, v) => if Fits11(v) then [I(LI, rd, 0, v)] else MoviInsns(rd, Wrap(v), MoviBytes(v))
    case LoadLabel(rd, _) => MoviInsns(rd, address, 2)
    case Movi(rd, v) => MoviInsns(rd, Wrap(v), MoviBytes(v))
    case MoviLabel(rd, _) => MoviInsns(rd, address, 2)
    case Push(rs) => [I(STORE, rs, 31, 0), I(LI, 1, 0, -1), R(ADD, 31, 31, 1)]
    case Pop(rd) => [I(LI, 1, 0, 1), R(ADD, 31, 31, 1), I(LOAD, rd, 31, 0)]
    case Jump(_) => FarJump(address)
    case JumpZ(rs, _) => [I(JNZ, rs, 0, 5)] + FarJump(address)
    case JumpNZ(rs, _) => [I(JZ, rs, 0, 5)] + FarJump(address)
    case Branch(c, r1, r2, _) => [CompareInsn(c, r1, r2), I(JZ, 1, 0, 5)] + FarJump(address)
    case BranchBy(c, r1, r2, off) => [CompareInsn(c, r1, r2), I(JNZ, 1, 0, off - 1)]
  }

  lemma FarSize(address: Word)
    ensures |FarJump(address)| == 5
  {
  }

  lemma ExpandSize(line: Line, address: Word)
    requires !line.WordData? && !line.WordLabel? && !line.Zero?
    ensures |Expand(line, address)| == Size(line)
  {
    hide MoviTail, Fits11, MoviBytes, FarJump;
    FarSize(address);
    match line
    case JumpZ(rs, _) => assert |Expand(line, address)| == 1 + |FarJump(address)|;
    case JumpNZ(rs, _) => assert |Expand(line, address)| == 1 + |FarJump(address)|;
    case Branch(c, r1, r2, _) => assert |Expand(line, address)| == 2 + |FarJump(address)|;
    case _ =>
  }

  // ----- meaning -----

  /** Index of the first line that defines `name`. */
  function LineOf(lines: seq<Line>, name: Name): (r: Option<nat>)
    ensures r.Some? ==> r.value < |lines| && lines[r.value] == LabelDef(name)
    ensures r.None? ==> LabelDef(name) !in lines
  {
    if lines == [] then None
    else if lines[0] == LabelDef(name) then Some(0)
    else match LineOf(lines[1..], name)
      case None => None
      case Some(k) => Some(k + 1)
  }

  predicate DistinctLabels(lines: seq<Line>) {
    forall i, j :: 0 <= i < j < |lines| && lines[i].LabelDef? ==> lines[i] != lines[j]
  }

  lemma LineOfUnique(lines: seq<Line>, k: nat)
    requires DistinctLabels(lines) && k < |lines| && lines[k].LabelDef?
    ensures LineOf(lines, lines[k].name) == Some(k)
  {
    assert lines[k] == LabelDef(lines[k].name);
  }

  /** Where a run at the level of lines stands.  `Left` means control went somewhere lines
      cannot describe: a computed jump, data executed as code, an undefined label. */
  datatype Mode = Going | Stopped | Faulted | Left

  datatype State = State(reg: Regs, mem: Mem, line: nat, mode: Mode)

  datatype Program = Program(lines: seq<Line>, atomic: bool)

  function Holds(c: Cond, a: Word, b: Word): bool {
    match c
    case BGT => Signed(a) > Signed(b)
    case BLT => Signed(a) < Signed(b)
    case BGE => Signed(a) >= Signed(b)
    case BLE => Signed(a) <= Signed(b)
    case BEQ => a == b
    case BNE => a != b
  }

  function Low16(x: nat): Word { x % 0x1_0000 }

  function JumpTo(p: Program, s: State, name: Name): State {
    match LineOf(p.lines, name)
    case None => s.(mode := Left)
    case Some(k) =>
      if p.atomic then s.(line := k)
      else
        var a := Low16(AddressOf(p.lines, k));
        s.(line := k, reg := Put(Put(s.reg, 28, a), 27, a % 256))
  }

  /** `v mod 256^bytes` in rd; the scratch register keeps the last byte when one was glued on. */
  function AfterMovi(reg: Regs, rd: RegIx, value: Word, bytes: nat): Regs
    requires 1 <= bytes <= 8
  {
    var result := Wrap(value % Pow2(8 * bytes));
    if bytes == 1 then Put(reg, rd, result)
    else Put(Put(reg, Temp(rd), value % 256), rd, result)
  }

  /** The immediate field keeps 11 bits, whatever number the source line gave. */
  function Truncated(i: Insn): Insn { i.(imm := SignExtend11(i.imm % 2048)) }

  function Meaning(p: Program, s: State): State {
    if s.mode != Going || s.line >= |p.lines| then s
    else
      var n := s.(line := s.line + 1);
      match p.lines[s.line]
      case LabelDef(_) => n
      case Directive => n
      case Plain(i) =>
        if IsBranch(i.op) then s.(mode := Left)
        else (
          match Execute(Truncated(i), s.reg, s.mem)
          case Next(r, m) => n.(reg := r, mem := m)
          case Stop => n.(mode := Stopped)
          case Fault => n.(mode := Faulted)
        )
      case Mov(rd, rs) => n.(reg := Put(s.reg, rd, s.reg[rs]))
      case Clr(rd) => n.(reg := Put(s.reg, rd, 0))
      case Neg(rd, rs) => n.(reg := Put(s.reg, rd, Minus(s.reg[rs])))
      case Not(rd, rs) =>
        var r := Put(s.reg, 1, TWO_TO_64 - 1);
        n.(reg := Put(r, rd, TWO_TO_64 - 1 - r[rs]))
      case Inc(rd) => var r := Put(s.reg, 1, 1); n.(reg := Put(r, rd, Plus(r[rd], 1)))
      case Dec(rd) => var r := Put(s.reg, 1, TWO_TO_64 - 1); n.(reg := Put(r, rd, Plus(r[rd], -1)))
      case LoadImm(rd, v) =>
        if Fits11(v) then n.(reg := Put(s.reg, rd, Wrap(v)))
        else n.(reg := AfterMovi(s.reg, rd, Wrap(v), MoviBytes(v)))
      case Movi(rd, v) => n.(reg := AfterMovi(s.reg, rd, Wrap(v), MoviBytes(v)))
      case LoadLabel(rd, name) => LabelInto(p, s, rd, name)
      case MoviLabel(rd, name) => LabelInto(p, s, rd, name)
      case Jump(name) => JumpTo(p, n, name)
      case JumpZ(rs, name) => if s.reg[rs] == 0 then JumpTo(p, n, name) else n
      case JumpNZ(rs, name) => if s.reg[rs] != 0 then JumpTo(p, n, name) else n
      case Branch(c, r1, r2, name) =>
        var flag := Holds(c, s.reg[r1], s.reg[r2]);
        var n' := if p.atomic then n else n.(reg := Put(s.reg, 1, Flag(flag)));
        if flag then JumpTo(p, n', name) else n'
      case _ => s.(mode := Left)
  }

  function Plus(x: Word, d: int): Word { Wrap(x + d) }

  function Minus(x: Word): Word { Wrap(-(x as int)) }

  function LabelInto(p: Program, s: State, rd: RegIx, name: Name): State {
    match LineOf(p.lines, name)
    case None => s.(mode := Left)
    case Some(k) =>
      s.(line := s.line + 1, reg := AfterMovi(s.reg, rd, Low16(AddressOf(p.lines, k)), 2))
  }

  function Steps(p: Program, s: State, n: nat): State
    decreases n
  {
    if n == 0 then s else Steps(p, Meaning(p, s), n - 1)
  }

  lemma {:induction false} StepsAdd(p: Program, s: State, a: nat, b: nat)
    ensures Steps(p, s, a + b) == Steps(p, Steps(p, s, a), b)
    decreases a
  {
    hide Meaning;
    if a > 0 {
      StepsAdd(p, Meaning(p, s), a - 1, b);
      assert a + b - 1 == (a - 1) + b;
    }
  }
}
