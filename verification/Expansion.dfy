/** Running the words of an assembly line on the processor does what the line means.

    The expansions of MOVI, of label jumps and of compare-and-branch are several words long and
    use R1, R26, R27 and R28 as scratch; the theorem `LineRefines` says that executing them
    reaches exactly the state `Assembly.Meaning` names, at the address of the line it names. */
module Expansion {
  import opened Words
  import opened Machine
  import opened Assembly

  /** The instructions `s` sit in memory from word `at` on. */
  predicate At(mem: Mem, at: nat, s: seq<Insn>) {
    at + |s| <= MEM_WORDS &&
    forall k :: 0 <= k < |s| ==> mem[at + k] % 0x1_0000_0000 == Encode(s[k])
  }

  lemma {:induction false} AtParts(mem: Mem, at: nat, a: seq<Insn>, b: seq<Insn>)
    requires At(mem, at, a + b)
    ensures At(mem, at, a) && At(mem, at + |a|, b)
  {
    forall k | 0 <= k < |a| ensures mem[at + k] % 0x1_0000_0000 == Encode(a[k]) {
      assert (a + b)[k] == a[k];
    }
    forall k | 0 <= k < |b| ensures mem[at + |a| + k] % 0x1_0000_0000 == Encode(b[k]) {
      assert (a + b)[|a| + k] == b[k];
    }
  }

  lemma {:induction false} AtIndex(mem: Mem, at: nat, s: seq<Insn>, k: nat)
    requires At(mem, at, s) && k < |s|
    ensures At(mem, at + k, [s[k]])
  {
  }

  lemma {:induction false} FetchDecode(c: Cpu, i: Insn)
    requires At(c.mem, c.pc, [i])
    ensures c.pc < MEM_WORDS
    ensures Decode(c.mem[c.pc % 0x1_0000] % 0x1_0000_0000) == Some(Truncated(i))
    ensures Fits11(i.imm) ==> Truncated(i) == i
  {
    hide Decode, Encode;
    assert c.mem[c.pc + 0] % 0x1_0000_0000 == Encode([i][0]);
    DecodeTruncated(i);
  }

  lemma {:induction false} DecodeTruncated(i: Insn)
    ensures Decode(Encode(i)) == Some(Truncated(i))
    ensures Fits11(i.imm) ==> Truncated(i) == i
  {
    hide Number, OpcodeOf;
    OpcodeNumber(i.op);
    Fields(Number(i.op), i.fd, i.fa, i.fb, i.imm % 2048);
  }

  lemma {:induction false} StepPlain(c: Cpu, i: Insn)
    requires c.status == Running && At(c.mem, c.pc, [i]) && !IsBranch(i.op)
    ensures Step(c) == match Execute(Truncated(i), c.reg, c.mem)
                       case Next(r, m) => c.(reg := r, mem := m, pc := c.pc + 1)
                       case Stop => c.(pc := c.pc + 1, status := Halted)
                       case Fault => c.(pc := c.pc + 1, status := Trapped)
  {
    FetchDecode(c, i);
  }

  /** A register-only instruction with a small immediate. */
  lemma {:induction false} StepReg(c: Cpu, i: Insn, v: Word)
    requires c.status == Running && At(c.mem, c.pc, [i]) && !IsBranch(i.op) && Fits11(i.imm)
    requires Execute(i, c.reg, c.mem) == Next(Put(c.reg, i.fd, v), c.mem)
    ensures Step(c) == c.(reg := Put(c.reg, i.fd, v), pc := c.pc + 1)
  {
    StepPlain(c, i);
    FetchDecode(c, i);
  }

  lemma {:induction false} PutTwice(reg: Regs, a: RegIx, v: Word, w: Word)
    ensures Put(Put(reg, a, v), a, w) == Put(reg, a, w)
  {
  }

  lemma {:induction false} PutSwap(reg: Regs, a: RegIx, v: Word, b: RegIx, w: Word)
    requires a != b
    ensures Put(Put(reg, a, v), b, w) == Put(Put(reg, b, w), a, v)
  {
  }

  // ----- MOVI -----

  lemma {:induction false} ModSplit(x: nat, p: nat)
    requires p >= 1
    ensures x % (p * 256) == (x / p % 256) * p + x % p
  {
    var q, b, r := x / p / 256, x / p % 256, x % p;
    assert x / p == q * 256 + b;
    calc {
      x;
      (x / p) * p + r;
      (q * 256 + b) * p + r;
      { Distribute(q * 256, b, p); Associate(q, 256, p); }
      q * (256 * p) + (b * p + r);
      (p * 256) * q + (b * p + r);
    }
    assert b * p + r < p * 256 by {
      assert b <= 255;
      ScaleLe(b, 255, p);
    }
    ModUnique(x, p * 256, q, b * p + r);
  }

  lemma {:induction false} Distribute(a: int, b: int, p: int)
    ensures (a + b) * p == a * p + b * p
  {
  }

  lemma {:induction false} Associate(a: int, b: int, c: int)
    ensures (a * b) * c == a * (b * c)
  {
  }

  lemma {:induction false} ScaleLe(a: int, b: int, p: nat)
    requires a <= b
    ensures a * p <= b * p
  {
  }

  lemma {:induction false} PowStep(k: nat)
    requires k >= 1
    ensures Pow2(8 * k) == Pow2(8 * (k - 1)) * 256
  {
    PowValues();
    PowAdd(8 * (k - 1), 8);
    assert 8 * (k - 1) + 8 == 8 * k;
  }

  /** A value of `h` high bits followed by the low `k` bytes of `value`. */
  function Joined(h: nat, value: nat, k: nat): nat { h * Pow2(8 * k) + value % Pow2(8 * k) }

  lemma {:induction false} JoinedStep(h: nat, value: nat, k: nat)
    requires k >= 1
    ensures Joined(h, value, k) == Joined(h * 256 + ByteOf(value, k - 1), value, k - 1)
    ensures h * 256 <= Joined(h, value, k)
  {
    var p := Pow2(8 * (k - 1));
    var b := ByteOf(value, k - 1);
    PowStep(k);
    ModSplit(value, p);
    Distribute(h * 256, b, p);
    Associate(h, 256, p);
    assert (h * 256) * p >= h * 256 by { MulAtLeast(h * 256, p); }
    assert 256 * p == p * 256;
  }

  /** Shifting the register left by a byte and gluing the next byte under it. */
  lemma {:induction false} GlueByte(h: Word, b: nat)
    requires b < 256 && h * 256 + b < TWO_TO_64
    ensures Or(Shl(h, 8), b) == h * 256 + b
  {
    PowValues();
    assert h * 256 % TWO_TO_64 == h * 256;
    OrGlue(h, b, 8);
  }

  lemma {:induction false} StepLI(c: Cpu, rd: RegIx, v: int)
    requires c.status == Running && At(c.mem, c.pc, [I(LI, rd, 0, v)]) && Fits11(v)
    ensures Run(c, 1) == c.(reg := Put(c.reg, rd, Wrap(v)), pc := c.pc + 1)
  {
    StepReg(c, I(LI, rd, 0, v), Wrap(v));
    assert Run(c, 1) == Run(Step(c), 0);
  }

  predicate Tri(i: Insn) { IsAlu(i.op) && i.imm == 0 }

  lemma {:induction false} StepAlu(c: Cpu, i: Insn)
    requires c.status == Running && At(c.mem, c.pc, [i]) && Tri(i)
    requires Alu(i.op, c.reg[i.fa], c.reg[i.fb]).Some?
    ensures Run(c, 1)
         == c.(reg := Put(c.reg, i.fd, Alu(i.op, c.reg[i.fa], c.reg[i.fb]).value), pc := c.pc + 1)
  {
    StepReg(c, i, Alu(i.op, c.reg[i.fa], c.reg[i.fb]).value);
    assert Run(c, 1) == Run(Step(c), 0);
  }

  lemma {:induction false} StepShl(c: Cpu, rd: RegIx)
    requires c.status == Running && At(c.mem, c.pc, [I(SHL, rd, rd, 8)])
    ensures Run(c, 1) == c.(reg := Put(c.reg, rd, Shl(c.reg[rd], 8)), pc := c.pc + 1)
  {
    StepReg(c, I(SHL, rd, rd, 8), Shl(c.reg[rd], 8));
    assert Run(c, 1) == Run(Step(c), 0);
  }

  function Glue3(rd: RegIx, b: nat): seq<Insn> {
    [I(SHL, rd, rd, 8), I(LI, Temp(rd), 0, b), R(OR, rd, rd, Temp(rd))]
  }

  lemma {:induction false} GlueRun(c: Cpu, rd: RegIx, b: nat, h: Word)
    requires c.status == Running && At(c.mem, c.pc, Glue3(rd, b))
    requires b < 256 && h * 256 + b < TWO_TO_64 && (rd != 0 ==> c.reg[rd] == h)
    ensures Run(c, 3) == c.(pc := c.pc + 3, reg := Put(Put(c.reg, Temp(rd), b), rd, h * 256 + b))
  {
    hide Bits, At, Encode, Decode, Step, Execute, Pow2, Joined;
    var t := Temp(rd);
    AtIndex(c.mem, c.pc, Glue3(rd, b), 0);
    AtIndex(c.mem, c.pc, Glue3(rd, b), 1);
    AtIndex(c.mem, c.pc, Glue3(rd, b), 2);
    var c1 := c.(reg := Put(c.reg, rd, Shl(c.reg[rd], 8)), pc := c.pc + 1);
    StepShl(c, rd);
    var c2 := c1.(reg := Put(c1.reg, t, b), pc := c.pc + 2);
    StepLI(c1, t, b);
    var v := Or(c2.reg[rd], c2.reg[t]);
    StepAlu(c2, R(OR, rd, rd, t));
    var c3 := c2.(reg := Put(c2.reg, rd, v), pc := c.pc + 3);
    RunAdd(c, 1, 1);
    RunAdd(c, 2, 1);
    if rd != 0 { GlueByte(h, b); }
    assert Run(c, 1) == c1;
    assert Run(c1, 1) == c2;
    assert Run(c2, 1) == c3;
    assert Run(c, 2) == c2;
    assert Run(c, 3) == c3;
    GlueRegs(c.reg, rd, Shl(c.reg[rd], 8), b, v);
    assert c3.reg == Put(Put(c.reg, t, b), rd, v);
    assert rd != 0 ==> v == h * 256 + b;
    if rd == 0 { PutZero(Put(c.reg, t, b), v, h * 256 + b); }
  }

  lemma {:induction false} PutZero(reg: Regs, v: Word, w: Word)
    ensures Put(reg, 0, v) == Put(reg, 0, w) == reg
  {
  }

  lemma {:induction false} GlueRegs(reg: Regs, rd: RegIx, x: Word, b: Word, v: Word)
    ensures Put(Put(Put(reg, rd, x), Temp(rd), b), rd, v) == Put(Put(reg, Temp(rd), b), rd, v)
  {
  }

  lemma {:induction false} TailRun(c: Cpu, rd: RegIx, value: Word, k: nat, h: Word)
    requires c.status == Running && At(c.mem, c.pc, MoviTail(rd, value, k))
    requires rd != 0 ==> c.reg[rd] == h
    requires Joined(h, value, k) < TWO_TO_64
    ensures Run(c, 3 * k)
         == c.(pc := c.pc + 3 * k,
               reg := if k == 0 then c.reg
                      else Put(Put(c.reg, Temp(rd), value % 256), rd, Joined(h, value, k)))
    decreases k
  {
    hide Bits, At, Encode, Decode, Step, Execute, Pow2, Joined;
    if k > 0 {
      var b := ByteOf(value, k - 1);
      AtParts(c.mem, c.pc, Glue3(rd, b), MoviTail(rd, value, k - 1));
      JoinedStep(h, value, k);
      var h' := h * 256 + b;
      JoinedAtLeast(h', value, k - 1);
      GlueRun(c, rd, b, h);
      var c3 := c.(pc := c.pc + 3, reg := Put(Put(c.reg, Temp(rd), b), rd, h'));
      TailRun(c3, rd, value, k - 1, h');
      RunAdd(c, 3, 3 * (k - 1));
      if k == 1 { JoinedZero(h', value); }
      TailRegs(c.reg, rd, b, h', value % 256, Joined(h, value, k));
    }
  }

  lemma {:induction false} TailRegs(reg: Regs, rd: RegIx, b: Word, h: Word, b': Word, j: Word)
    ensures Put(Put(Put(Put(reg, Temp(rd), b), rd, h), Temp(rd), b'), rd, j)
         == Put(Put(reg, Temp(rd), b'), rd, j)
  {
  }

  lemma {:induction false} JoinedZero(h: nat, value: nat)
    ensures Joined(h, value, 0) == h && ByteOf(value, 0) == value % 256
  {
    assert Pow2(0) == 1;
  }

  lemma {:induction false} JoinedAtLeast(h: nat, value: nat, k: nat)
    ensures h <= Joined(h, value, k)
  {
    MulAtLeast(h, Pow2(8 * k));
  }

  /** MOVI leaves the value modulo `256^bytes` in its register. */
  lemma {:induction false} MoviRun(c: Cpu, rd: RegIx, value: Word, bytes: nat)
    requires 1 <= bytes <= 8
    requires c.status == Running && At(c.mem, c.pc, MoviInsns(rd, value, bytes))
    ensures Run(c, MoviSize(bytes))
         == c.(pc := c.pc + MoviSize(bytes), reg := AfterMovi(c.reg, rd, value, bytes))
  {
    hide Bits, At, Encode, Decode, Step, Execute, Pow2, Joined, MoviTail, Put, Run, AfterMovi, MoviInsns, ByteOf;
    var b := ByteOf(value, bytes - 1);
    var i := I(LI, rd, 0, b);
    MoviShape(rd, value, bytes);
    AtParts(c.mem, c.pc, [i], MoviTail(rd, value, bytes - 1));
    var c1 := c.(reg := Put(c.reg, rd, b), pc := c.pc + 1);
    StepLI(c, rd, b);
    TopByte(value, bytes);
    TailRun(c1, rd, value, bytes - 1, b);
    RunAdd(c, 1, 3 * (bytes - 1));
    MoviRegs(c.reg, rd, value, bytes, b);
  }

  lemma {:induction false} MoviShape(rd: RegIx, value: Word, bytes: nat)
    requires bytes >= 1
    ensures MoviInsns(rd, value, bytes) == [I(LI, rd, 0, ByteOf(value, bytes - 1))] + MoviTail(rd, value, bytes - 1)
    ensures ByteOf(value, bytes - 1) < 256
  {
  }

  lemma {:induction false} MoviRegs(reg: Regs, rd: RegIx, value: Word, bytes: nat, b: Word)
    requires 1 <= bytes <= 8 && b == ByteOf(value, bytes - 1)
    ensures value % Pow2(8 * bytes) < TWO_TO_64
    ensures AfterMovi(reg, rd, value, bytes)
         == if bytes == 1 then Put(reg, rd, b)
            else Put(Put(Put(reg, rd, b), Temp(rd), value % 256), rd, value % Pow2(8 * bytes))
  {
    hide Pow2, Joined;
    TopByte(value, bytes);
    var result := value % Pow2(8 * bytes);
    if bytes > 1 {
      PutSwap(reg, rd, b, Temp(rd), value % 256);
      PutTwice(Put(reg, Temp(rd), value % 256), rd, b, result);
    }
  }

  lemma {:induction false} TopByte(value: Word, bytes: nat)
    requires 1 <= bytes <= 8
    ensures Joined(ByteOf(value, bytes - 1), value, bytes - 1) == value % Pow2(8 * bytes)
    ensures value % Pow2(8 * bytes) < TWO_TO_64
    ensures Wrap(value % Pow2(8 * bytes)) == value % Pow2(8 * bytes)
    ensures bytes == 1 ==> value % Pow2(8 * bytes) == ByteOf(value, bytes - 1)
  {
    hide Pow2;
    JoinedStep(0, value, bytes);
    PowValues();
    PowMonotone(8 * bytes, 64);
    var p := Pow2(8 * bytes);
    assert value % p < p;
    WrapWord(value % p);
    assert 0 * p == 0 && 0 * 256 + ByteOf(value, bytes - 1) == ByteOf(value, bytes - 1);
  }

  // ----- jumps -----

  function AfterJump(reg: Regs, address: Word): Regs {
    Put(Put(reg, 28, address), 27, address % 256)
  }

  lemma {:induction false} StepJalr(c: Cpu, ra: RegIx)
    requires c.status == Running && At(c.mem, c.pc, [R(JALR, 0, ra, 0)])
    ensures Run(c, 1) == c.(pc := c.reg[ra] % 0x1_0000)
  {
    hide Decode, Encode, Execute, At;
    FetchDecode(c, R(JALR, 0, ra, 0));
    assert Run(c, 1) == Run(Step(c), 0);
  }

  /** The five words of a far jump land on a 16-bit address and leave it in R28, its low byte in R27. */
  lemma {:induction false} FarJumpRun(c: Cpu, address: Word)
    requires c.status == Running && At(c.mem, c.pc, FarJump(address)) && address < 0x1_0000
    ensures Run(c, 5) == c.(pc := address, reg := AfterJump(c.reg, address))
  {
    hide Bits, At, Encode, Decode, Step, Execute, Pow2, MoviTail, Put, Run;
    AtParts(c.mem, c.pc, MoviInsns(28, address, 2), [R(JALR, 0, 28, 0)]);
    MoviRun(c, 28, address, 2);
    PowValues();
    PutSwap(c.reg, 27, address % 256, 28, address);
    var c4 := c.(pc := c.pc + 4, reg := AfterMovi(c.reg, 28, address, 2));
    StepJalr(c4, 28);
    RunAdd(c, 4, 1);
  }

  lemma {:induction false} StepSkip(c: Cpu, op: Opcode, rs: RegIx, off: int)
    requires op == JZ || op == JNZ
    requires c.status == Running && At(c.mem, c.pc, [I(op, rs, 0, off)]) && 0 <= off <= 1023
    ensures Run(c, 1)
         == c.(pc := if (c.reg[rs] == 0) == (op == JZ) then c.pc + 1 + off else c.pc + 1)
  {
    hide At, Encode, Decode, Execute, Bits, Pow2;
    FetchDecode(c, I(op, rs, 0, off));
    assert Run(c, 1) == Run(Step(c), 0);
  }

  /** A conditional far jump: skip the five words, or take them. */
  lemma {:induction false} SkipOrJump(c: Cpu, op: Opcode, rs: RegIx, address: Word) returns (n: nat)
    requires op == JZ || op == JNZ
    requires c.status == Running && address < 0x1_0000
    requires At(c.mem, c.pc, [I(op, rs, 0, 5)] + FarJump(address))
    ensures n >= 1
    ensures (c.reg[rs] == 0) == (op == JZ) ==> Run(c, n) == c.(pc := c.pc + 6)
    ensures (c.reg[rs] == 0) != (op == JZ)
            ==> Run(c, n) == c.(pc := address, reg := AfterJump(c.reg, address))
  {
    hide Bits, At, Encode, Decode, Step, Execute, Pow2, FarJump, AfterJump, Run;
    AtParts(c.mem, c.pc, [I(op, rs, 0, 5)], FarJump(address));
    StepSkip(c, op, rs, 5);
    if (c.reg[rs] == 0) == (op == JZ) {
      n := 1;
    } else {
      FarJumpRun(c.(pc := c.pc + 1), address);
      RunAdd(c, 1, 5);
      n := 6;
    }
  }

  lemma {:induction false} CompareRun(c: Cpu, k: Cond, r1: RegIx, r2: RegIx)
    requires c.status == Running && At(c.mem, c.pc, [CompareInsn(k, r1, r2)])
    ensures Run(c, 1) == c.(pc := c.pc + 1,
                            reg := Put(c.reg, 1, Flag(Assembly.Holds(k, c.reg[r1], c.reg[r2]))))
  {
    StepAlu(c, CompareInsn(k, r1, r2));
  }

  // ----- whole lines -----

  predicate IsCode(line: Line) { !line.WordData? && !line.WordLabel? && !line.Zero? }

  function CodeSize(lines: seq<Line>): nat { AddressOf(lines, |lines|) }

  function TargetAddress(lines: seq<Line>, line: Line): (a: Word)
    ensures a < 0x1_0000
  {
    match Target(line)
    case None => 0
    case Some(name) =>
      match LineOf(lines, name)
      case None => 0
      case Some(k) => Low16(AddressOf(lines, k))
  }

  /** Every code line's expansion sits at its address. */
  ghost predicate CodeIn(mem: Mem, lines: seq<Line>) {
    forall k :: 0 <= k < |lines| && IsCode(lines[k]) ==> LineIn(mem, lines, k)
  }

  predicate LineIn(mem: Mem, lines: seq<Line>, k: nat)
    requires k < |lines| && IsCode(lines[k])
  {
    At(mem, AddressOf(lines, k), Expand(lines[k], TargetAddress(lines, lines[k])))
  }

  function StatusOf(m: Mode): Status
    requires !m.Left?
  {
    match m
    case Going => Running
    case Stopped => Halted
    case Faulted => Trapped
  }

  /** The processor state that a state at the level of lines stands for. */
  function CpuOf(p: Program, s: State): Cpu
    requires s.line <= |p.lines| && !s.mode.Left?
  {
    Cpu(s.reg, s.mem, AddressOf(p.lines, s.line), StatusOf(s.mode))
  }

  /** The word a line is about to overwrite, if any. */
  function Overwrites(line: Line, reg: Regs): Option<nat> {
    match line
    case Plain(i) =>
      if i.op == STORE then Some(Address(reg[i.fa], Truncated(i).imm))
      else if i.op == STOREB
      then Some((reg[i.fa] + Truncated(i).imm) % TWO_TO_32 / 8 % 0x1_0000)
      else None
    case _ => None
  }

  /** The next line to run does not overwrite the program. */
  predicate SparesCode(p: Program, s: State) {
    s.mode == Going && s.line < |p.lines| ==>
      var w := Overwrites(p.lines[s.line], s.reg);
      w.Some? ==> CodeSize(p.lines) <= w.value
  }

  /** A return jump leaves the lines: the processor goes where the register says. */
  lemma {:induction false} ReturnLands(p: Program, t: State, ra: RegIx)
    requires t.mode == Going && t.line < |p.lines| && p.lines[t.line] == RI(JALR, 0, ra, 0) && CodeIn(t.mem, p.lines)
    ensures Run(CpuOf(p, t), 1) == CpuOf(p, t).(pc := t.reg[ra] % 0x1_0000)
  {
    hide At, Step;
    assert IsCode(p.lines[t.line]) && LineIn(t.mem, p.lines, t.line);
    StepJalr(CpuOf(p, t), ra);
  }

  lemma {:induction false} AtUpdate(mem: Mem, at: nat, s: seq<Insn>, a: nat, v: Word)
    requires At(mem, at, s) && at + |s| <= a < MEM_WORDS
    ensures At(mem[a := v], at, s)
  {
  }

  lemma {:induction false} OverwriteKeepsLine(mem: Mem, lines: seq<Line>, k: nat, a: nat, v: Word)
    requires k < |lines| && IsCode(lines[k]) && LineIn(mem, lines, k)
    requires CodeSize(lines) <= a < MEM_WORDS
    ensures LineIn(mem[a := v], lines, k)
  {
    hide At, Expand, TargetAddress;
    NextAddress(lines, k);
    AddressMonotone(lines, k + 1, |lines|);
    AtUpdate(mem, AddressOf(lines, k), Expand(lines[k], TargetAddress(lines, lines[k])), a, v);
  }

  lemma {:induction false} OverwriteKeepsCode(mem: Mem, lines: seq<Line>, a: nat, v: Word)
    requires CodeIn(mem, lines) && CodeSize(lines) <= a < MEM_WORDS
    ensures CodeIn(mem[a := v], lines)
  {
    hide LineIn;
    forall k | 0 <= k < |lines| && IsCode(lines[k]) ensures LineIn(mem[a := v], lines, k) {
      OverwriteKeepsLine(mem, lines, k, a, v);
    }
  }

  /** Where the next line leaves the processor. */
  ghost predicate Lands(p: Program, s: State, n: nat)
    requires s.line <= |p.lines| && !s.mode.Left?
  {
    var s' := Meaning(p, s);
    s'.line <= |p.lines| && !s'.mode.Left? && Run(CpuOf(p, s), n) == CpuOf(p, s')
  }

  predicate Ready(p: Program, s: State) {
    s.mode == Going && s.line < |p.lines| && s.reg[0] == 0 && !p.atomic &&
    IsCode(p.lines[s.line]) && LineIn(s.mem, p.lines, s.line)
  }

  lemma {:induction false} NextAddress(lines: seq<Line>, k: nat)
    requires k < |lines| && IsCode(lines[k])
    ensures AddressOf(lines, k + 1)
         == AddressOf(lines, k) + |Expand(lines[k], TargetAddress(lines, lines[k]))|
  {
    ExpandSize(lines[k], TargetAddress(lines, lines[k]));
  }

  lemma {:induction false} PlainLands(p: Program, s: State)
    requires Ready(p, s) && p.lines[s.line].Plain? && !Meaning(p, s).mode.Left?
    ensures Lands(p, s, 1)
  {
    hide Execute, AddressOf;
    var i := p.lines[s.line].insn;
    NextAddress(p.lines, s.line);
    var c := CpuOf(p, s);
    StepPlain(c, i);
    assert Run(c, 1) == Run(Step(c), 0);
  }

  lemma {:induction false} OneWordLands(p: Program, s: State)
    requires Ready(p, s)
    requires p.lines[s.line].Mov? || p.lines[s.line].Clr? || p.lines[s.line].Neg?
    ensures Lands(p, s, 1)
  {
    hide Bits, At, Encode, Decode, Step, Execute, Pow2;
    NextAddress(p.lines, s.line);
    var c := CpuOf(p, s);
    match p.lines[s.line]
    case Mov(rd, rs) => StepAlu(c, R(ADD, rd, rs, 0));
    case Clr(rd) => StepAlu(c, R(ADD, rd, 0, 0));
    case Neg(rd, rs) => StepAlu(c, R(SUB, rd, 0, rs));
  }

  lemma {:induction false} TwoWordsRun(c: Cpu, v: int, i: Insn)
    requires c.status == Running && At(c.mem, c.pc, [I(LI, 1, 0, v), i]) && Fits11(v) && Tri(i)
    requires Alu(i.op, Put(c.reg, 1, Wrap(v))[i.fa], Put(c.reg, 1, Wrap(v))[i.fb]).Some?
    ensures var r := Put(c.reg, 1, Wrap(v));
            Run(c, 2) == c.(pc := c.pc + 2, reg := Put(r, i.fd, Alu(i.op, r[i.fa], r[i.fb]).value))
  {
    hide Bits, At, Encode, Decode, Step, Execute, Pow2, Alu, Wrap, Run;
    AtIndex(c.mem, c.pc, [I(LI, 1, 0, v), i], 0);
    AtIndex(c.mem, c.pc, [I(LI, 1, 0, v), i], 1);
    StepLI(c, 1, v);
    StepAlu(c.(pc := c.pc + 1, reg := Put(c.reg, 1, Wrap(v))), i);
    RunAdd(c, 1, 1);
  }

  lemma {:induction false} XorAllOnes(x: Word)
    ensures Xor(x, TWO_TO_64 - 1) == TWO_TO_64 - 1 - x
  {
    PowValues();
    BitsCommute(BitXor, x, TWO_TO_64 - 1);
    XorOnes(x, 64);
  }

  lemma {:induction false} TwoWordsLands(p: Program, s: State)
    requires Ready(p, s)
    requires p.lines[s.line].Not? || p.lines[s.line].Inc? || p.lines[s.line].Dec?
    ensures Lands(p, s, 2)
  {
    hide Bits, At, Encode, Decode, Step, Execute, Pow2, Run;
    NextAddress(p.lines, s.line);
    var c := CpuOf(p, s);
    match p.lines[s.line]
    case Not(rd, rs) =>
      TwoWordsRun(c, -1, R(XOR, rd, rs, 1));
      XorAllOnes(Put(s.reg, 1, TWO_TO_64 - 1)[rs]);
    case Inc(rd) => TwoWordsRun(c, 1, R(ADD, rd, rd, 1));
    case Dec(rd) => TwoWordsRun(c, -1, R(ADD, rd, rd, 1));
  }

  lemma {:induction false} MoviLands(p: Program, s: State) returns (n: nat)
    requires Ready(p, s)
    requires var l := p.lines[s.line]; l.LoadImm? || l.Movi? || l.LoadLabel? || l.MoviLabel?
    requires !Meaning(p, s).mode.Left?
    ensures n >= 1 && Lands(p, s, n)
  {
    hide Bits, At, Encode, Decode, Step, Execute, Pow2, Run, AfterMovi, MoviInsns, MoviBytes;
    NextAddress(p.lines, s.line);
    var c := CpuOf(p, s);
    n := Size(p.lines[s.line]);
    match p.lines[s.line]
    case LoadImm(rd, v) =>
      if Fits11(v) { StepLI(c, rd, v); } else { MoviRun(c, rd, Wrap(v), MoviBytes(v)); }
    case Movi(rd, v) => MoviRun(c, rd, Wrap(v), MoviBytes(v));
    case LoadLabel(rd, name) => MoviRun(c, rd, TargetAddress(p.lines, p.lines[s.line]), 2);
    case MoviLabel(rd, name) => MoviRun(c, rd, TargetAddress(p.lines, p.lines[s.line]), 2);
  }

  lemma {:induction false} LabelFits(lines: seq<Line>, name: Name)
    requires CodeSize(lines) < MEM_WORDS && LineOf(lines, name).Some?
    ensures AddressOf(lines, LineOf(lines, name).value) < MEM_WORDS
  {
    AddressMonotone(lines, LineOf(lines, name).value, |lines|);
  }

  /** A jump to a defined label, in the registers and address of the far-jump expansion. */
  lemma {:induction false} JumpToTarget(p: Program, n: State, line: Line)
    requires Target(line).Some? && !JumpTo(p, n, Target(line).value).mode.Left?
    requires !p.atomic && n.mode == Going && CodeSize(p.lines) < MEM_WORDS
    ensures var a := TargetAddress(p.lines, line);
            var s' := JumpTo(p, n, Target(line).value);
            s'.line <= |p.lines| && s' == n.(line := s'.line, reg := AfterJump(n.reg, a)) &&
            AddressOf(p.lines, s'.line) == a
  {
    LabelFits(p.lines, Target(line).value);
  }

  lemma {:induction false} JumpMeaning(p: Program, s: State)
    requires Ready(p, s)
    ensures var line, n := p.lines[s.line], s.(line := s.line + 1);
            match line
            case Jump(name) => Meaning(p, s) == JumpTo(p, n, name)
            case JumpZ(rs, name) => Meaning(p, s) == if s.reg[rs] == 0 then JumpTo(p, n, name) else n
            case JumpNZ(rs, name) => Meaning(p, s) == if s.reg[rs] != 0 then JumpTo(p, n, name) else n
            case Branch(c, r1, r2, name) =>
              var flag := Assembly.Holds(c, s.reg[r1], s.reg[r2]);
              var n' := n.(reg := Put(s.reg, 1, Flag(flag)));
              Meaning(p, s) == if flag then JumpTo(p, n', name) else n'
            case _ => true
  {
    hide JumpTo, LabelInto, Execute, At, Expand, AddressOf, Assembly.Holds;
  }

  lemma {:induction false} JumpExpands(line: Line, a: Word)
    ensures line.Jump? ==> Expand(line, a) == FarJump(a)
    ensures line.JumpZ? ==> Expand(line, a) == [I(JNZ, line.rs, 0, 5)] + FarJump(a)
    ensures line.JumpNZ? ==> Expand(line, a) == [I(JZ, line.rs, 0, 5)] + FarJump(a)
    ensures line.Branch? ==> var compare := CompareInsn(line.cond, line.r1, line.r2);
              Expand(line, a) == [compare] + ([I(JZ, 1, 0, 5)] + FarJump(a))
  {
    hide FarJump, MoviBytes, MoviInsns;
    assert line.Branch? ==>
             Expand(line, a) == [CompareInsn(line.cond, line.r1, line.r2), I(JZ, 1, 0, 5)] + FarJump(a);
  }

  lemma {:induction false} JumpLands(p: Program, s: State) returns (n: nat)
    requires Ready(p, s) && CodeSize(p.lines) < MEM_WORDS && !Meaning(p, s).mode.Left?
    requires var l := p.lines[s.line]; l.Jump? || l.JumpZ? || l.JumpNZ?
    ensures n >= 1 && Lands(p, s, n)
  {
    hide At, Run, FarJump, Put, Meaning, Expand, JumpTo, TargetAddress, AfterJump, AddressOf;
    var line := p.lines[s.line];
    var a := TargetAddress(p.lines, line);
    var c := CpuOf(p, s);
    NextAddress(p.lines, s.line);
    JumpMeaning(p, s);
    JumpExpands(line, a);
    var next := s.(line := s.line + 1);
    if line.Jump? {
      JumpToTarget(p, next, line);
      FarJumpRun(c, a);
      n := 5;
    } else {
      if (s.reg[line.rs] == 0) == line.JumpZ? { JumpToTarget(p, next, line); }
      n := SkipOrJump(c, if line.JumpZ? then JNZ else JZ, line.rs, a);
    }
  }

  lemma {:induction false} BranchLands(p: Program, s: State) returns (n: nat)
    requires Ready(p, s) && CodeSize(p.lines) < MEM_WORDS
    requires p.lines[s.line].Branch? && !Meaning(p, s).mode.Left?
    ensures n >= 1 && Lands(p, s, n)
  {
    hide At, Run, FarJump, Put, Meaning, Expand, JumpTo, TargetAddress, AfterJump, AddressOf, Assembly.Holds;
    var line := p.lines[s.line];
    var a := TargetAddress(p.lines, line);
    var c := CpuOf(p, s);
    NextAddress(p.lines, s.line);
    JumpMeaning(p, s);
    JumpExpands(line, a);
    AtParts(c.mem, c.pc, [CompareInsn(line.cond, line.r1, line.r2)], [I(JZ, 1, 0, 5)] + FarJump(a));
    CompareRun(c, line.cond, line.r1, line.r2);
    var flag := Assembly.Holds(line.cond, s.reg[line.r1], s.reg[line.r2]);
    var reg1 := Put(s.reg, 1, Flag(flag));
    if flag { JumpToTarget(p, s.(line := s.line + 1, reg := reg1), line); }
    var m := SkipOrJump(c.(pc := c.pc + 1, reg := reg1), JZ, 1, a);
    RunAdd(c, 1, m);
    n := 1 + m;
  }

  lemma MeansCode(p: Program, s: State)
    requires s.mode == Going && s.line < |p.lines| && !Meaning(p, s).mode.Left?
    ensures IsCode(p.lines[s.line])
  {
    hide MoviBytes;
  }

  /** Executing one line's words reaches the processor state its meaning stands for. */
  lemma {:induction false} LineRefines(p: Program, s: State) returns (n: nat)
    requires s.mode == Going && s.line < |p.lines| && s.reg[0] == 0 && !p.atomic
    requires CodeIn(s.mem, p.lines) && CodeSize(p.lines) < MEM_WORDS && SparesCode(p, s)
    requires !Meaning(p, s).mode.Left?
    ensures Lands(p, s, n) && (Size(p.lines[s.line]) > 0 ==> n >= 1)
    ensures CodeIn(Meaning(p, s).mem, p.lines) && Meaning(p, s).reg[0] == 0
    ensures Size(p.lines[s.line]) == 0 ==> Meaning(p, s).line == s.line + 1
  {
    hide Lands, Meaning, Size;
    var line := p.lines[s.line];
    MeansCode(p, s);
    assert LineIn(s.mem, p.lines, s.line);
    if Size(line) == 0 { NoWords(p, s); }
    n := OneLineLands(p, s);
    MemoryAfter(p, s);
  }

  lemma {:induction false} OneLineLands(p: Program, s: State) returns (n: nat)
    requires s.line < |p.lines| && IsCode(p.lines[s.line]) && s.mode == Going
    requires Ready(p, s) && CodeSize(p.lines) < MEM_WORDS && !Meaning(p, s).mode.Left?
    ensures Lands(p, s, n) && (Size(p.lines[s.line]) > 0 ==> n >= 1)
  {
    hide Lands, Ready, Size;
    match p.lines[s.line]
    case LabelDef(_) => n := 0; EmptyLands(p, s);
    case Directive => n := 0; EmptyLands(p, s);
    case Plain(_) => n := 1; PlainLands(p, s);
    case Mov(_, _) => n := 1; OneWordLands(p, s);
    case Clr(_) => n := 1; OneWordLands(p, s);
    case Neg(_, _) => n := 1; OneWordLands(p, s);
    case Not(_, _) => n := 2; TwoWordsLands(p, s);
    case Inc(_) => n := 2; TwoWordsLands(p, s);
    case Dec(_) => n := 2; TwoWordsLands(p, s);
    case LoadImm(_, _) => n := MoviLands(p, s);
    case LoadLabel(_, _) => n := MoviLands(p, s);
    case Movi(_, _) => n := MoviLands(p, s);
    case MoviLabel(_, _) => n := MoviLands(p, s);
    case Jump(_) => n := JumpLands(p, s);
    case JumpZ(_, _) => n := JumpLands(p, s);
    case JumpNZ(_, _) => n := JumpLands(p, s);
    case Branch(_, _, _, _) => n := BranchLands(p, s);
    case _ => assert false;
  }

  lemma {:induction false} EmptyLands(p: Program, s: State)
    requires Ready(p, s) && (p.lines[s.line].LabelDef? || p.lines[s.line].Directive?)
    ensures Lands(p, s, 0) && Size(p.lines[s.line]) == 0
  {
    hide At, Step;
    NextAddress(p.lines, s.line);
  }

  lemma {:induction false} MemoryAfter(p: Program, s: State)
    requires s.mode == Going && s.line < |p.lines| && s.reg[0] == 0
    requires CodeIn(s.mem, p.lines) && CodeSize(p.lines) < MEM_WORDS && SparesCode(p, s)
    ensures CodeIn(Meaning(p, s).mem, p.lines) && Meaning(p, s).reg[0] == 0
  {
    hide CodeIn, AddressOf, Meaning, SparesCode;
    if p.lines[s.line].Plain? { PlainKeepsCode(p, s); } else { OtherKeepsMemory(p, s); }
  }

  lemma {:induction false} PlainKeepsCode(p: Program, s: State)
    requires s.mode == Going && s.line < |p.lines| && s.reg[0] == 0 && p.lines[s.line].Plain?
    requires CodeIn(s.mem, p.lines) && CodeSize(p.lines) < MEM_WORDS && SparesCode(p, s)
    ensures CodeIn(Meaning(p, s).mem, p.lines) && Meaning(p, s).reg[0] == 0
  {
    hide CodeIn, AddressOf, Execute;
    var i := p.lines[s.line].insn;
    if !IsBranch(i.op) {
      PlainMemory(Truncated(i), s.reg, s.mem);
      assert Truncated(Truncated(i)) == Truncated(i);
      var w := Overwrites(Plain(i), s.reg);
      assert w == Overwrites(Plain(Truncated(i)), s.reg);
      if w.Some? { OverwriteKeepsCode(s.mem, p.lines, w.value, Meaning(p, s).mem[w.value]); }
    }
  }

  lemma {:induction false} OtherKeepsMemory(p: Program, s: State)
    requires s.mode == Going && s.line < |p.lines| && s.reg[0] == 0 && !p.lines[s.line].Plain?
    ensures Meaning(p, s).mem == s.mem && Meaning(p, s).reg[0] == 0
  {
    hide AddressOf, MoviBytes, LineOf, Pow2, Execute, Put, Signed;
  }

  /** The only memory effect is the one word that `Overwrites` names. */
  lemma {:induction false} PlainMemory(i: Insn, reg: Regs, mem: Mem)
    requires !IsBranch(i.op) && Truncated(i) == i
    ensures match Execute(i, reg, mem)
            case Next(r, m) =>
              (match Overwrites(Plain(i), reg)
               case None => m == mem
               case Some(a) => a < MEM_WORDS && m == mem[a := m[a]]) && r[0] == reg[0]
            case _ => true
  {
    hide Alu, BitOp, ByteLane, SetByteLane;
  }

  /** The next step stays within lines and leaves the program unwritten. */
  predicate Tame(p: Program, s: State) {
    SparesCode(p, s) && !Meaning(p, s).mode.Left?
  }

  ghost predicate Contained(p: Program, s: State, k: nat) {
    forall j :: 0 <= j < k ==> Tame(p, Steps(p, s, j))
  }

  /** How many lines `n` steps of the processor can stand for: between two steps at most every line of
      the program is passed without a word. */
  function Span(n: nat, lines: nat): nat { n * (lines + 1) }

  lemma SpanSum(a: nat, b: nat, lines: nat)
    ensures Span(a + b, lines) == Span(a, lines) + Span(b, lines)
    ensures a >= 1 ==> Span(a, lines) >= lines + 1
  {
    if a >= 1 { ScaleLe(1, a, lines + 1); }
  }

  lemma SpanMore(m: nat, n: nat, lines: nat)
    requires Span(m, lines) < Span(n, lines)
    ensures m < n
  {
    if n <= m { ScaleLe(n, m, lines + 1); }
  }

  /** Any contained run at the level of lines is carried out by the processor, and if it goes on for
      long, so does the processor's. */
  lemma {:induction false} RunRefines(p: Program, s: State, k: nat) returns (n: nat)
    requires s.line <= |p.lines| && s.reg[0] == 0 && !p.atomic && !s.mode.Left?
    requires CodeIn(s.mem, p.lines) && CodeSize(p.lines) < MEM_WORDS && Contained(p, s, k)
    ensures var s' := Steps(p, s, k);
            s'.line <= |p.lines| && !s'.mode.Left? && Run(CpuOf(p, s), n) == CpuOf(p, s') &&
            CodeIn(s'.mem, p.lines) &&
            (s'.mode.Going? && s'.line < |p.lines| ==> k + s.line <= Span(n, |p.lines|) + |p.lines|)
    decreases k
  {
    hide Meaning, Step, SparesCode, CodeIn, Span, Size;
    assert k > 0 ==> Tame(p, Steps(p, s, 0));
    if k == 0 {
      n := 0;
    } else {
      var s1 := Meaning(p, s);
      ContainedTail(p, s, k);
      if s.mode == Going && s.line < |p.lines| {
        var a := LineRefines(p, s);
        var b := RunRefines(p, s1, k - 1);
        RunAdd(CpuOf(p, s), a, b);
        n := a + b;
        SpanSum(a, b, |p.lines|);
      } else {
        Idle(p, s);
        StaysIdle(p, s, k);
        n := RunRefines(p, s1, k - 1);
      }
    }
  }

  lemma NoWords(p: Program, s: State)
    requires s.mode == Going && s.line < |p.lines| && IsCode(p.lines[s.line]) && Size(p.lines[s.line]) == 0
    ensures Meaning(p, s).line == s.line + 1
  {
    hide MoviBytes;
  }

  lemma {:induction false} StaysIdle(p: Program, s: State, k: nat)
    requires s.mode != Going || s.line >= |p.lines|
    ensures Steps(p, s, k) == s
    decreases k
  {
    if k > 0 {
      Idle(p, s);
      StaysIdle(p, s, k - 1);
    }
  }

  /** A processor that is running was running before. */
  lemma {:induction false} RunningBefore(c: Cpu, m: nat, n: nat)
    requires m <= n && Run(c, n).status == Running
    ensures Run(c, m).status == Running
  {
    RunAdd(c, m, n - m);
    if Run(c, m).status != Running { StaysStopped(Run(c, m), n - m); }
  }

  lemma {:induction false} StaysStopped(c: Cpu, n: nat)
    requires c.status != Running
    ensures Run(c, n) == c
    decreases n
  {
    if n > 0 { StaysStopped(Step(c), n - 1); }
  }

  lemma {:induction false} Idle(p: Program, s: State)
    requires s.mode != Going || s.line >= |p.lines|
    ensures Meaning(p, s) == s
  {
  }

  lemma {:induction false} ContainedTail(p: Program, s: State, k: nat)
    requires k >= 1 && Contained(p, s, k)
    ensures Contained(p, Meaning(p, s), k - 1)
  {
    hide Tame;
    var s1 := Meaning(p, s);
    forall j | 0 <= j < k - 1 ensures Tame(p, Steps(p, s1, j)) {
      assert Steps(p, s, j + 1) == Steps(p, s1, j);
    }
  }
}
