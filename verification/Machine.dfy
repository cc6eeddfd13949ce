/** The Oxalyn-64 processor: the instruction word, its decoding, and one step of execution.

    Instructions live in the low 32 bits of 64-bit memory words, the program counter counts
    words, register 0 reads as zero.  The FLAGS register, privilege levels, I/O ports and the
    EEPROM take no part in the programs studied here and are not part of this model. */
module Machine {
  import opened Words

  const MEM_WORDS: nat := 0x1_0000

  datatype Opcode =
    | NOP | ADD | SUB | AND | OR | XOR | SHL | SHR | LOAD | STORE | LI | JMP | JZ | JNZ | HALT
    | MUL | DIV | JALR | CMPEQ | CMPNE | CMPLT | CMPLE | CMPLTU | CMPLEU | BSET | BCLR | BTEST
    | LOADB | STOREB | DIVU | REM | REMU

  function Number(op: Opcode): (n: nat)
    ensures n < 64
  {
    match op
    case NOP => 0x00 case ADD => 0x01 case SUB => 0x02 case AND => 0x03 case OR => 0x04
    case XOR => 0x05 case SHL => 0x06 case SHR => 0x07 case LOAD => 0x08 case STORE => 0x09
    case LI => 0x0A case JMP => 0x0B case JZ => 0x0C case JNZ => 0x0D case HALT => 0x3F
    case MUL => 0x1A case DIV => 0x1B case JALR => 0x21 case CMPEQ => 0x22 case CMPNE => 0x23
    case CMPLT => 0x24 case CMPLE => 0x25 case CMPLTU => 0x26 case CMPLEU => 0x27
    case BSET => 0x28 case BCLR => 0x29 case BTEST => 0x2A case LOADB => 0x2B
    case STOREB => 0x2C case DIVU => 0x2D case REM => 0x2E case REMU => 0x2F
  }

  datatype Option<+T> = None | Some(value: T)

  function OpcodeOf(n: nat): Option<Opcode> {
    match n
    case 0x00 => Some(NOP) case 0x01 => Some(ADD) case 0x02 => Some(SUB) case 0x03 => Some(AND)
    case 0x04 => Some(OR) case 0x05 => Some(XOR) case 0x06 => Some(SHL) case 0x07 => Some(SHR)
    case 0x08 => Some(LOAD) case 0x09 => Some(STORE) case 0x0A => Some(LI) case 0x0B => Some(JMP)
    case 0x0C => Some(JZ) case 0x0D => Some(JNZ) case 0x3F => Some(HALT) case 0x1A => Some(MUL)
    case 0x1B => Some(DIV) case 0x21 => Some(JALR) case 0x22 => Some(CMPEQ)
    case 0x23 => Some(CMPNE) case 0x24 => Some(CMPLT) case 0x25 => Some(CMPLE)
    case 0x26 => Some(CMPLTU) case 0x27 => Some(CMPLEU) case 0x28 => Some(BSET)
    case 0x29 => Some(BCLR) case 0x2A => Some(BTEST) case 0x2B => Some(LOADB)
    case 0x2C => Some(STOREB) case 0x2D => Some(DIVU) case 0x2E => Some(REM)
    case 0x2F => Some(REMU) case _ => None
  }

  type RegIx = r: nat | r < 32

  /** One instruction with its fields apart; the immediate is signed. */
  datatype Insn = Insn(op: Opcode, fd: RegIx, fa: RegIx, fb: RegIx, imm: int)

  predicate Fits11(v: int) { -1024 <= v <= 1023 }

  /** The 32-bit word of an instruction: opcode, three register fields, low 11 bits of imm. */
  function Encode(i: Insn): (w: nat)
    ensures w < 0x1_0000_0000
  {
    Number(i.op) * 0x400_0000 + i.fd * 0x20_0000 + i.fa * 0x1_0000 + i.fb * 0x800 + i.imm % 2048
  }

  function SignExtend11(v: nat): int
    requires v < 2048
  {
    if v >= 1024 then v - 2048 else v
  }

  function Decode(w: nat): Option<Insn>
    requires w < 0x1_0000_0000
  {
    match OpcodeOf(w / 0x400_0000)
    case None => None
    case Some(op) =>
      Some(Insn(op, w / 0x20_0000 % 32, w / 0x1_0000 % 32, w / 0x800 % 32,
                SignExtend11(w % 2048)))
  }

  /** Splitting an instruction word gives back the fields that were packed; an immediate
      survives exactly when it fits in 11 signed bits. */
  lemma DecodeEncode(i: Insn)
    ensures Decode(Encode(i)).Some?
    ensures Decode(Encode(i)).value.(imm := i.imm) == i
    ensures Decode(Encode(i)) == Some(i) <==> Fits11(i.imm)
  {
    hide Number, OpcodeOf;
    Fields(Number(i.op), i.fd, i.fa, i.fb, i.imm % 2048);
    OpcodeNumber(i.op);
  }

  lemma OpcodeNumber(op: Opcode)
    ensures OpcodeOf(Number(op)) == Some(op)
  {
  }

  /** Cutting the packed word at each field boundary. */
  lemma Fields(op: nat, fd: nat, fa: nat, fb: nat, m: nat)
    requires op < 64 && fd < 32 && fa < 32 && fb < 32 && m < 2048
    ensures var w := op * 0x400_0000 + fd * 0x20_0000 + fa * 0x1_0000 + fb * 0x800 + m;
            w / 0x400_0000 == op && w / 0x20_0000 % 32 == fd && w / 0x1_0000 % 32 == fa &&
            w / 0x800 % 32 == fb && w % 2048 == m
  {
    var a := op * 32 + fd;
    var b := a * 32 + fa;
    var c := b * 32 + fb;
    var w := c * 2048 + m;
    ModUnique(w, 2048, c, m);
    ModUnique(w, 0x1_0000, b, fb * 0x800 + m);
    ModUnique(w, 0x20_0000, a, fa * 0x1_0000 + fb * 0x800 + m);
    ModUnique(w, 0x400_0000, op, fd * 0x20_0000 + fa * 0x1_0000 + fb * 0x800 + m);
  }

  type Regs = r: seq<Word> | |r| == 32 witness seq(32, _ => 0)
  type Mem = m: seq<Word> | |m| == 0x1_0000 witness seq(0x1_0000, _ => 0)

  datatype Status = Running | Halted | Trapped

  datatype Cpu = Cpu(reg: Regs, mem: Mem, pc: nat, status: Status)

  /** Writing register 0 has no effect. */
  function Put(reg: Regs, rd: RegIx, v: Word): (r: Regs)
    ensures r[0] == reg[0]
    ensures forall k :: 0 <= k < 32 ==> r[k] == if k == rd && rd != 0 then v else reg[k]
  {
    if rd == 0 then reg else reg[rd := v]
  }

  function Address(base: Word, imm: int): (a: nat)
    ensures a < MEM_WORDS
  {
    (base + imm) % 0x1_0000
  }

  function TruncDiv(a: int, b: int): int
    requires b != 0
  {
    if (a >= 0) == (b > 0) then Abs(a) / Abs(b) else -(Abs(a) / Abs(b))
  }

  function Abs(a: int): nat { if a < 0 then -a else a }

  function Flag(b: bool): Word { if b then 1 else 0 }

  /** C leaves the quotient and remainder of INT64_MIN by -1 undefined. */
  predicate SignedDivisionDefined(a: Word, b: Word) {
    b != 0 && !(Signed(a) == -TWO_TO_63 && Signed(b) == -1)
  }

  function Product(a: Word, b: Word): Word { Wrap(a * b) }

  function Quotient(a: Word, b: Word): Word
    requires b != 0
  {
    Wrap(TruncDiv(Signed(a), Signed(b)))
  }

  function QuotientU(a: Word, b: Word): Word
    requires b != 0
  {
    DivSmaller(a, b); a / b
  }

  /** C's remainder: what is left after the truncated quotient. */
  function Remainder(a: Word, b: Word): Word
    requires b != 0
  {
    Wrap(Signed(a) - Signed(b) * TruncDiv(Signed(a), Signed(b)))
  }

  function RemainderU(a: Word, b: Word): Word
    requires b != 0
  {
    a % b
  }

  /** The value a three-register instruction writes; None where it traps. */
  function Alu(op: Opcode, a: Word, b: Word): Option<Word> {
    match op
    case ADD => Some(Wrap(a + b))
    case SUB => Some(Wrap(a - b))
    case AND => Some(And(a, b))
    case OR => Some(Or(a, b))
    case XOR => Some(Xor(a, b))
    case MUL => Some(Product(a, b))
    case DIV => if SignedDivisionDefined(a, b) then Some(Quotient(a, b)) else None
    case DIVU => if b == 0 then None else Some(QuotientU(a, b))
    case REM => if SignedDivisionDefined(a, b) then Some(Remainder(a, b)) else None
    case REMU => if b == 0 then None else Some(RemainderU(a, b))
    case CMPEQ => Some(Flag(a == b))
    case CMPNE => Some(Flag(a != b))
    case CMPLT => Some(Flag(Signed(a) < Signed(b)))
    case CMPLE => Some(Flag(Signed(a) <= Signed(b)))
    case CMPLTU => Some(Flag(a < b))
    case CMPLEU => Some(Flag(a <= b))
    case _ => None
  }

  predicate IsAlu(op: Opcode) {
    op in {ADD, SUB, AND, OR, XOR, MUL, DIV, DIVU, REM, REMU,
           CMPEQ, CMPNE, CMPLT, CMPLE, CMPLTU, CMPLEU}
  }

  /** The value a register-and-immediate instruction writes. */
  function BitOp(op: Opcode, a: Word, imm: int): Word {
    var k := imm % 64;
    match op
    case SHL => Shl(a, k)
    case SHR => Shr(a, k)
    case BSET => (PowValues(); PowMonotone(k + 1, 64); Or(a, Pow2(k)))
    case BCLR => (PowValues(); PowMonotone(k + 1, 64); And(a, Xor(TWO_TO_64 - 1, Pow2(k))))
    case _ => BitAt(a, k)
  }

  predicate IsBitOp(op: Opcode) { op in {SHL, SHR, BSET, BCLR, BTEST} }

  /** The byte of a word at a byte offset, big-endian. */
  function ByteLane(w: Word, offset: nat): (b: nat)
    requires offset < 8
    ensures b < 256
  {
    (w / Pow2(56 - 8 * offset)) % 256
  }

  function SetByteLane(w: Word, offset: nat, b: nat): Word
    requires offset < 8 && b < 256
  {
    Wrap(w + (b - ByteLane(w, offset)) * Pow2(56 - 8 * offset))
  }

  /** What an instruction other than a branch does to registers and memory. */
  datatype Effect = Next(reg: Regs, mem: Mem) | Stop | Fault

  predicate IsBranch(op: Opcode) { op in {JMP, JZ, JNZ, JALR} }

  function Execute(i: Insn, reg: Regs, mem: Mem): (e: Effect)
    requires !IsBranch(i.op)
  {
    if IsAlu(i.op) then
      match Alu(i.op, reg[i.fa], reg[i.fb])
      case None => Fault
      case Some(v) => Next(Put(reg, i.fd, v), mem)
    else if IsBitOp(i.op) then
      Next(Put(reg, i.fd, BitOp(i.op, reg[i.fa], i.imm)), mem)
    else match i.op
      case LOAD => Next(Put(reg, i.fd, mem[Address(reg[i.fa], i.imm)]), mem)
      case STORE => Next(reg, mem[Address(reg[i.fa], i.imm) := reg[i.fd]])
      case LOADB =>
        var byte := (reg[i.fa] + i.imm) % TWO_TO_32;
        Next(Put(reg, i.fd, ByteLane(mem[byte / 8 % 0x1_0000], byte % 8)), mem)
      case STOREB =>
        var byte := (reg[i.fa] + i.imm) % TWO_TO_32;
        var a := byte / 8 % 0x1_0000;
        Next(reg, mem[a := SetByteLane(mem[a], byte % 8, reg[i.fd] % 256)])
      case LI => Next(Put(reg, i.fd, Wrap(i.imm)), mem)
      case NOP => Next(reg, mem)
      case _ => Stop
  }

  /** One fetch and execute.  An undefined opcode and a division trap both stop the run: the
      trap handler is not part of this model. */
  function Step(c: Cpu): Cpu {
    if c.status != Running then c
    else
      var next := (c.pc + 1) % TWO_TO_32;
      match Decode(c.mem[c.pc % 0x1_0000] % 0x1_0000_0000)
      case None => c.(status := Trapped)
      case Some(i) =>
        match i.op
        case JMP => c.(pc := (next + i.imm) % TWO_TO_32)
        case JZ => c.(pc := if c.reg[i.fd] == 0 then (next + i.imm) % TWO_TO_32 else next)
        case JNZ => c.(pc := if c.reg[i.fd] != 0 then (next + i.imm) % TWO_TO_32 else next)
        case JALR =>
          c.(reg := Put(c.reg, i.fd, Wrap(next)), pc := Address(c.reg[i.fa], i.imm))
        case _ =>
          match Execute(i, c.reg, c.mem)
          case Next(r, m) => c.(reg := r, mem := m, pc := next)
          case Stop => c.(pc := next, status := Halted)
          case Fault => c.(pc := next, status := Trapped)
  }

  function Run(c: Cpu, n: nat): Cpu
    decreases n
  {
    if n == 0 then c else Run(Step(c), n - 1)
  }

  lemma {:induction false} RunAdd(c: Cpu, a: nat, b: nat)
    ensures Run(c, a + b) == Run(Run(c, a), b)
    decreases a
  {
    hide Step;
    if a > 0 {
      RunAdd(Step(c), a - 1, b);
      assert a + b - 1 == (a - 1) + b;
    }
  }
}
