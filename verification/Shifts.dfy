/** The loop emitted for a shift by a run-time count.

    With jumps that keep R27 the loop terminates and computes the shift.  As assembled it does
    not: every label jump loads R27, where the loop keeps the value, with the low byte of the
    address jumped to, so the result is the low byte of the loop's end label. */
module Shifts {
  import opened Words
  import opened Machine
  import opened Assembly
  import E = Expansion
  import opened Translator
  import opened Runs
  import opened Simulation
  import opened Leaves
  import V = ShiftValues
  import Exactness
  import W = Wasm

  /** Registers the shift code may change besides its result. */
  predicate ShiftScratch(a: Regs, b: Regs) {
    forall j :: 0 <= j < 32 && j != 1 && !(25 <= j <= 28) ==> a[j] == b[j]
  }

  lemma {:induction false} ScratchTrans(a: Regs, b: Regs, c: Regs)
    requires ShiftScratch(a, b) && ShiftScratch(b, c)
    ensures ShiftScratch(a, c)
  {
  }

  lemma {:induction false} ScratchZero(a: Regs, b: Regs)
    requires ShiftScratch(a, b)
    ensures a[0] == b[0]
  {
  }

  // ----- one turn -----

  lemma {:induction false} RunTurn(p: Program, s: State, width: nat, mode: ShiftMode, f: Func, serial: nat, sign: bool)
    returns (n: nat, t: State)
    requires (width == 32 || width == 64) && s.mode == Going && DistinctLabels(p.lines)
    requires CodeAt(p.lines, s.line, ShiftBody(width, mode, f, serial))
    requires mode.ShiftRightS? ==> (s.reg[25] != 0) == sign
    ensures Goes(p, s, n, t) && t == s.(line := s.line + |ShiftBody(width, mode, f, serial)|, reg := t.reg)
    ensures ShiftScratch(s.reg, t.reg) && t.reg[26] == s.reg[26]
    ensures p.atomic ==> t.reg[27] == V.Turn(width, mode, sign, s.reg[27])
    ensures mode.ShiftRightS? ==> t.reg[25] == s.reg[25]
  {
    hide Goes, DistinctLabels, Pow2, Bits, BitOp, V.SetBit, Shl, Shr, BitAt;
    match mode
    case ShiftLeft => n := 1; t := RunOne(p, s, true, width);
    case ShiftRightU => n := 1; t := RunOne(p, s, false, width);
    case ShiftRightS =>
      CodeAtParts(p.lines, s.line, [RI(SHR, 27, 27, 1)], FillLines(width - 1, f, serial));
      var s1 := RunOne(p, s, false, width);
      n, t := RunFill(p, s1, width - 1, f, serial);
      GoesTrans(p, s, 1, s1, n, t);
      n := n + 1;
    case RotateL => n, t := RunRotate(p, s, width, true, f, serial);
    case RotateR => n, t := RunRotate(p, s, width, false, f, serial);
  }

  lemma {:induction false} RunOne(p: Program, s: State, left: bool, width: nat) returns (t: State)
    requires s.mode == Going && CodeAt(p.lines, s.line, [RI(if left then SHL else SHR, 27, 27, 1)])
    ensures Goes(p, s, 1, t) && t == s.(line := s.line + 1, reg := t.reg)
    ensures ShiftScratch(s.reg, t.reg) && t.reg[26] == s.reg[26] && t.reg[25] == s.reg[25]
    ensures t.reg[27] == if left then Shl(s.reg[27], 1) else Shr(s.reg[27], 1)
  {
    hide Goes, Pow2, Bits, BitOp;
    CodeAtLine(p.lines, s.line, [RI(if left then SHL else SHR, 27, 27, 1)], 0);
    DoBit(p, s, if left then SHL else SHR, 27, 27, 1);
    OneBitOp(s.reg[27], width);
    t := After(s, 27, if left then Shl(s.reg[27], 1) else Shr(s.reg[27], 1));
  }

  lemma {:induction false} OneBitOp(a: Word, width: nat)
    ensures BitOp(SHL, a, 1) == Shl(a, 1) && BitOp(SHR, a, 1) == Shr(a, 1)
  {
    hide Pow2;
  }

  function FillLines(bit: nat, f: Func, serial: nat): seq<Line> {
    [JumpZ(25, ShiftName("nofill", f, serial)), RI(BSET, 27, 27, bit), LabelDef(ShiftName("nofill", f, serial))]
  }

  /** Set a bit of R27 if R25 is not zero. */
  lemma {:induction false} RunFill(p: Program, s: State, bit: nat, f: Func, serial: nat) returns (n: nat, t: State)
    requires bit < 64 && s.mode == Going && DistinctLabels(p.lines)
    requires CodeAt(p.lines, s.line, FillLines(bit, f, serial))
    ensures Goes(p, s, n, t) && t == s.(line := s.line + 3, reg := t.reg)
    ensures ShiftScratch(s.reg, t.reg) && t.reg[26] == s.reg[26] && t.reg[25] == s.reg[25]
    ensures p.atomic ==> t.reg[27] == if s.reg[25] != 0 then V.SetBit(s.reg[27], bit) else s.reg[27]
  {
    hide Goes, DistinctLabels, Pow2, Bits, BitOp;
    var code, nofill := FillLines(bit, f, serial), ShiftName("nofill", f, serial);
    CodeAtLine(p.lines, s.line, code, 0);
    CodeAtLine(p.lines, s.line, code, 1);
    CodeAtLine(p.lines, s.line, code, 2);
    var s1 := DoJumpIf(p, s, 25, nofill, s.line + 2);
    n := 1;
    if s.reg[25] != 0 {
      DoBit(p, s1, BSET, 27, 27, bit);
      var s2 := After(s1, 27, V.SetBit(s1.reg[27], bit));
      GoesTrans(p, s, 1, s1, 1, s2);
      n, s1 := 2, s2;
    }
    DoLabel(p, s1, nofill);
    t := s1.(line := s1.line + 1);
    GoesTrans(p, s, n, s1, 1, t);
    n := n + 1;
  }

  lemma {:induction false} RunRotate(p: Program, s: State, width: nat, left: bool, f: Func, serial: nat)
    returns (n: nat, t: State)
    requires (width == 32 || width == 64) && s.mode == Going && DistinctLabels(p.lines)
    requires CodeAt(p.lines, s.line, ShiftBody(width, if left then RotateL else RotateR, f, serial))
    ensures Goes(p, s, n, t) && t == s.(line := s.line + 5, reg := t.reg)
    ensures ShiftScratch(s.reg, t.reg) && t.reg[26] == s.reg[26]
    ensures p.atomic ==> t.reg[27] == V.Turn(width, if left then RotateL else RotateR, false, s.reg[27])
  {
    hide Goes, DistinctLabels, Pow2, Bits, BitOp, ShiftScratch, BitAt;
    var fill := if left then 0 else width - 1;
    RotateShape(width, left, f, serial);
    CodeAtParts(p.lines, s.line, RotateHead(width, left), FillLines(fill, f, serial));
    var s2 := RunRotateHead(p, s, width, left);
    n, t := RunFill(p, s2, fill, f, serial);
    GoesTrans(p, s, 2, s2, n, t);
    ScratchTrans(s.reg, s2.reg, t.reg);
    n := n + 2;
    BitIsFlag(s.reg[27], if left then width - 1 else 0);
  }

  lemma {:induction false} BitIsFlag(x: nat, k: nat)
    ensures BitAt(x, k) != 0 <==> BitAt(x, k) == 1
  {
  }

  function RotateHead(width: nat, left: bool): seq<Line>
    requires width >= 1
  {
    [RI(BTEST, 25, 27, if left then width - 1 else 0), RI(if left then SHL else SHR, 27, 27, 1)]
  }

  lemma {:induction false} RotateShape(width: nat, left: bool, f: Func, serial: nat)
    requires width == 32 || width == 64
    ensures ShiftBody(width, if left then RotateL else RotateR, f, serial)
         == RotateHead(width, left) + FillLines(if left then 0 else width - 1, f, serial)
  {
  }

  lemma {:induction false} RunRotateHead(p: Program, s: State, width: nat, left: bool) returns (t: State)
    requires (width == 32 || width == 64) && s.mode == Going
    requires CodeAt(p.lines, s.line, RotateHead(width, left))
    ensures Goes(p, s, 2, t) && t == s.(line := s.line + 2, reg := t.reg)
    ensures ShiftScratch(s.reg, t.reg) && t.reg[26] == s.reg[26]
    ensures t.reg[25] == BitAt(s.reg[27], if left then width - 1 else 0)
    ensures t.reg[27] == if left then Shl(s.reg[27], 1) else Shr(s.reg[27], 1)
  {
    hide Goes, Pow2, Bits, BitOp, BitAt;
    var test, op := if left then width - 1 else 0, if left then SHL else SHR;
    CodeAtLine(p.lines, s.line, RotateHead(width, left), 0);
    CodeAtLine(p.lines, s.line, RotateHead(width, left), 1);
    DoBit(p, s, BTEST, 25, 27, test);
    BtestOp(s.reg[27], test);
    var s1 := After(s, 25, BitAt(s.reg[27], test));
    DoBit(p, s1, op, 27, 27, 1);
    OneBitOp(s.reg[27], width);
    t := After(s1, 27, if left then Shl(s.reg[27], 1) else Shr(s.reg[27], 1));
    GoesTrans(p, s, 1, s1, 1, t);
  }

  // ----- the loop -----

  function LoopHead(f: Func, serial: nat): seq<Line> {
    [LabelDef(ShiftName("loop", f, serial)), RR(CMPEQ, 28, 26, 0), JumpNZ(28, ShiftName("end", f, serial))]
  }

  function LoopTail(f: Func, serial: nat): seq<Line> {
    [Dec(26), Jump(ShiftName("loop", f, serial)), LabelDef(ShiftName("end", f, serial))]
  }

  /** The low byte that a jump to `name` leaves in R27. */
  function LowByte(p: Program, name: Name): Word {
    match LineOf(p.lines, name)
    case None => 0
    case Some(k) => Low16(AddressOf(p.lines, k)) % 256
  }

  lemma {:induction false} JumpLeavesByte(p: Program, s: State, rs: RegIx, name: Name, k: nat)
    requires DistinctLabels(p.lines) && !p.atomic && k < |p.lines| && p.lines[k] == LabelDef(name)
    requires OnLine(p, s, JumpNZ(rs, name)) && s.reg[rs] != 0
    ensures Meaning(p, s).reg[27] == LowByte(p, name)
  {
    LineOfUnique(p.lines, k);
  }

  /** Test the count: fall through with it, or leave for the end label. */
  lemma {:induction false} RunTest(p: Program, s: State, f: Func, serial: nat, end: nat) returns (t: State)
    requires s.mode == Going && s.reg[0] == 0 && DistinctLabels(p.lines)
    requires CodeAt(p.lines, s.line, LoopHead(f, serial))
    requires end < |p.lines| && p.lines[end] == LabelDef(ShiftName("end", f, serial))
    ensures Goes(p, s, 3, t) && t == s.(line := t.line, reg := t.reg)
    ensures ShiftScratch(s.reg, t.reg) && t.reg[26] == s.reg[26] && t.reg[25] == s.reg[25]
    ensures t.line == if s.reg[26] == 0 then end else s.line + 3
    ensures s.reg[26] != 0 || p.atomic ==> t.reg[27] == s.reg[27]
    ensures s.reg[26] == 0 && !p.atomic ==> t.reg[27] == LowByte(p, ShiftName("end", f, serial))
  {
    hide Goes, DistinctLabels, AddressOf;
    var head := LoopHead(f, serial);
    CodeAtLine(p.lines, s.line, head, 0);
    CodeAtLine(p.lines, s.line, head, 1);
    CodeAtLine(p.lines, s.line, head, 2);
    DoLabel(p, s, ShiftName("loop", f, serial));
    var s1 := s.(line := s.line + 1);
    DoAlu(p, s1, CMPEQ, 28, 26, 0);
    var s2 := After(s1, 28, Flag(s.reg[26] == 0));
    GoesTrans(p, s, 1, s1, 1, s2);
    t := DoJumpIf(p, s2, 28, ShiftName("end", f, serial), end);
    if s.reg[26] == 0 && !p.atomic { JumpByte(p, s2, f, serial, end, t); }
    GoesTrans(p, s, 2, s2, 1, t);
  }

  lemma {:induction false} JumpByte(p: Program, s: State, f: Func, serial: nat, end: nat, t: State)
    requires DistinctLabels(p.lines) && !p.atomic && end < |p.lines|
    requires p.lines[end] == LabelDef(ShiftName("end", f, serial))
    requires OnLine(p, s, JumpNZ(28, ShiftName("end", f, serial))) && s.reg[28] != 0 && Goes(p, s, 1, t)
    ensures t.reg[27] == LowByte(p, ShiftName("end", f, serial))
  {
    hide Meaning, DistinctLabels;
    JumpLeavesByte(p, s, 28, ShiftName("end", f, serial), end);
    assert Steps(p, s, 1) == Steps(p, Meaning(p, s), 0);
  }

  /** Count down and go round. */
  lemma {:induction false} RunBack(p: Program, s: State, f: Func, serial: nat, start: nat) returns (t: State)
    requires s.mode == Going && DistinctLabels(p.lines) && CodeAt(p.lines, s.line, LoopTail(f, serial))
    requires start < |p.lines| && p.lines[start] == LabelDef(ShiftName("loop", f, serial)) && s.reg[26] >= 1
    ensures Goes(p, s, 2, t) && t == s.(line := start, reg := t.reg)
    ensures ShiftScratch(s.reg, t.reg) && t.reg[26] == s.reg[26] - 1 && t.reg[25] == s.reg[25]
    ensures p.atomic ==> t.reg[27] == s.reg[27]
  {
    hide Goes, DistinctLabels;
    CodeAtLine(p.lines, s.line, LoopTail(f, serial), 0);
    CodeAtLine(p.lines, s.line, LoopTail(f, serial), 1);
    DoDec(p, s, 26);
    DownOne(s.reg[26]);
    var s1 := s.(line := s.line + 1, reg := Put(Put(s.reg, 1, TWO_TO_64 - 1), 26, s.reg[26] - 1));
    t := DoJump(p, s1, ShiftName("loop", f, serial), start);
    GoesTrans(p, s, 1, s1, 1, t);
  }

  lemma {:induction false} DownOne(x: Word)
    requires x >= 1
    ensures Plus(x, -1) == x - 1
  {
  }

  /** The loop ends, whatever the value; with atomic jumps R27 holds the shifted value. */
  lemma {:induction false} RunLoop(p: Program, s: State, width: nat, mode: ShiftMode, f: Func, serial: nat, sign: bool)
    returns (n: nat, t: State)
    requires (width == 32 || width == 64) && s.mode == Going && s.reg[0] == 0 && DistinctLabels(p.lines)
    requires CodeAt(p.lines, s.line, ShiftLoop(width, mode, f, serial))
    requires mode.ShiftRightS? ==> (s.reg[25] != 0) == sign
    requires !mode.ShiftRightS? ==> !sign
    ensures Goes(p, s, n, t) && t == s.(line := s.line + |ShiftLoop(width, mode, f, serial)|, reg := t.reg)
    ensures ShiftScratch(s.reg, t.reg)
    ensures p.atomic ==> t.reg[27] == V.Turns(width, mode, sign, s.reg[27], s.reg[26])
    ensures !p.atomic ==> t.reg[27] == LowByte(p, ShiftName("end", f, serial))
    decreases s.reg[26]
  {
    hide Goes, DistinctLabels, ShiftBody, V.Turn, V.Turns, ShiftScratch, CodeAt;
    var head, body, tail := LoopHead(f, serial), ShiftBody(width, mode, f, serial), LoopTail(f, serial);
    LoopShape(width, mode, f, serial);
    CodeAtParts(p.lines, s.line, head, body + tail);
    CodeAtParts(p.lines, s.line + 3, body, tail);
    CodeAtLine(p.lines, s.line, head, 0);
    var end := s.line + 3 + |body| + 2;
    CodeAtLine(p.lines, s.line + 3 + |body|, tail, 2);
    var s1 := RunTest(p, s, f, serial, end);
    if s.reg[26] == 0 {
      TurnsZero(width, mode, sign, s.reg[27]);
      DoLabel(p, s1, ShiftName("end", f, serial));
      t := s1.(line := s1.line + 1);
      GoesTrans(p, s, 3, s1, 1, t);
      n := 4;
    } else {
      var a, s2 := RunTurn(p, s1, width, mode, f, serial, sign);
      GoesTrans(p, s, 3, s1, a, s2);
      var s3 := RunBack(p, s2, f, serial, s.line);
      GoesTrans(p, s, 3 + a, s2, 2, s3);
      ScratchTrans(s.reg, s1.reg, s2.reg);
      ScratchTrans(s.reg, s2.reg, s3.reg);
      ScratchZero(s.reg, s1.reg);
      ScratchZero(s.reg, s3.reg);
      var b, s4 := RunLoop(p, s3, width, mode, f, serial, sign);
      GoesTrans(p, s, 3 + a + 2, s3, b, s4);
      ScratchTrans(s.reg, s3.reg, s4.reg);
      if p.atomic { V.TurnsFirst(width, mode, sign, s.reg[27], s.reg[26]); }
      n, t := 3 + a + 2 + b, s4;
    }
  }

  lemma {:induction false} TurnsZero(width: nat, mode: ShiftMode, sign: bool, x: Word)
    requires width == 32 || width == 64
    ensures V.Turns(width, mode, sign, x, 0) == x
  {
  }

  lemma {:induction false} LoopShape(width: nat, mode: ShiftMode, f: Func, serial: nat)
    requires width == 32 || width == 64
    ensures ShiftLoop(width, mode, f, serial)
         == LoopHead(f, serial) + (ShiftBody(width, mode, f, serial) + LoopTail(f, serial))
  {
    hide ShiftBody;
  }

  // ----- the whole shift -----

  function HeadLines(value: RegIx, count: RegIx, width: nat): seq<Line>
    requires width == 32 || width == 64
  {
    [Mov(26, count), Mov(27, value), LoadImm(28, width - 1), RR(AND, 26, 26, 28)]
  }

  lemma {:induction false} RunHead(p: Program, s: State, value: RegIx, count: RegIx, width: nat) returns (t: State)
    requires (width == 32 || width == 64) && s.mode == Going && 4 <= value <= 24 && 4 <= count <= 24
    requires CodeAt(p.lines, s.line, HeadLines(value, count, width))
    ensures Goes(p, s, 4, t) && t == s.(line := s.line + 4, reg := t.reg)
    ensures ShiftScratch(s.reg, t.reg) && t.reg[26] == s.reg[count] % width && t.reg[27] == s.reg[value]
  {
    hide Goes, Pow2, Alu, Bits;
    var code := HeadLines(value, count, width);
    CodeAtLine(p.lines, s.line, code, 0);
    CodeAtLine(p.lines, s.line, code, 1);
    CodeAtLine(p.lines, s.line, code, 2);
    CodeAtLine(p.lines, s.line, code, 3);
    DoMov(p, s, 26, count);
    var s1 := After(s, 26, s.reg[count]);
    DoMov(p, s1, 27, value);
    var s2 := After(s1, 27, s.reg[value]);
    DoImm(p, s2, 28, width - 1);
    var s3 := After(s2, 28, width - 1);
    DoAlu(p, s3, AND, 26, 26, 28);
    AndOp(s3.reg[26], s3.reg[28]);
    PowValues();
    AndMask(s.reg[count], if width == 32 then 5 else 6);
    t := After(s3, 26, s.reg[count] % width);
    GoesTrans(p, s, 1, s1, 1, s2);
    GoesTrans(p, s, 2, s2, 1, s3);
    GoesTrans(p, s, 3, s3, 1, t);
  }

  /** Masking R27 to 32 bits, where the width asks for it. */
  lemma {:induction false} RunMask(p: Program, s: State, width: nat) returns (n: nat, t: State)
    requires (width == 32 || width == 64) && s.mode == Going && CodeAt(p.lines, s.line, Mask32(width))
    ensures Goes(p, s, n, t) && t == s.(line := s.line + |Mask32(width)|, reg := t.reg)
    ensures ShiftScratch(s.reg, t.reg) && t.reg[26] == s.reg[26] && t.reg[25] == s.reg[25]
    ensures t.reg[27] == s.reg[27] % Pow2(width)
  {
    hide Goes, Pow2;
    PowValues();
    if width == 32 {
      t := MaskRun(p, s, 27, 32);
      n := 3;
    } else {
      GoesZero(p, s);
      n, t := 0, s;
    }
  }

  function SignLine(mode: ShiftMode): seq<Line> { if mode.ShiftRightS? then [RI(BTEST, 25, 27, 31)] else [] }

  lemma {:induction false} RunSign(p: Program, s: State, mode: ShiftMode) returns (n: nat, t: State)
    requires s.mode == Going && CodeAt(p.lines, s.line, SignLine(mode))
    ensures Goes(p, s, n, t) && t == s.(line := s.line + |SignLine(mode)|, reg := t.reg)
    ensures ShiftScratch(s.reg, t.reg) && t.reg[26] == s.reg[26] && t.reg[27] == s.reg[27]
    ensures mode.ShiftRightS? ==> t.reg[25] == BitAt(s.reg[27], 31)
  {
    hide Goes, Pow2, BitOp, BitAt;
    if mode.ShiftRightS? {
      CodeAtLine(p.lines, s.line, SignLine(mode), 0);
      DoBit(p, s, BTEST, 25, 27, 31);
      BtestOp(s.reg[27], 31);
      n, t := 1, After(s, 25, BitAt(s.reg[27], 31));
    } else {
      GoesZero(p, s);
      n, t := 0, s;
    }
  }

  lemma {:induction false} ShiftShape(dst: RegIx, value: RegIx, count: RegIx, width: nat, mode: ShiftMode, f: Func,
                                      serial: nat)
    requires width == 32 || width == 64
    ensures VariableShift(dst, value, count, width, mode, f, serial)
         == HeadLines(value, count, width) + (Mask32(width) + (SignLine(mode)
            + (ShiftLoop(width, mode, f, serial) + (Mask32(width) + [Mov(dst, 27)]))))
  {
    hide ShiftLoop, Mask32;
  }

  function LowBits(a: Word, width: nat): Word {
    LowBelow(a, width); a % Pow2(width)
  }

  lemma {:induction false} LowBelow(a: Word, width: nat)
    ensures 0 <= a % Pow2(width) <= a
  {
    hide Pow2;
    Remains(a, Pow2(width));
  }

  lemma {:induction false} Remains(a: nat, m: nat)
    requires m >= 1
    ensures a % m <= a
  {
    if a < m { ModSmall(a, m); }
  }

  /** What the code leaves in its result register: the loop's value, or the end label's low byte. */
  function ShiftResult(p: Program, width: nat, mode: ShiftMode, a: Word, count: Word, f: Func, serial: nat): Word
    requires width == 32 || width == 64
  {
    if p.atomic then
      var x := LowBits(a, width);
      LowBits(V.Turns(width, mode, mode.ShiftRightS? && BitAt(x, 31) == 1, x, count % width), width)
    else LowByte(p, ShiftName("end", f, serial))
  }

  lemma {:induction false} RunShift(p: Program, s: State, dst: RegIx, value: RegIx, count: RegIx, width: nat,
                                    mode: ShiftMode, f: Func, serial: nat)
    returns (n: nat, t: State)
    requires (width == 32 || width == 64) && s.mode == Going && s.reg[0] == 0 && DistinctLabels(p.lines)
    requires 4 <= value <= 24 && 4 <= count <= 24 && 4 <= dst <= 24
    requires CodeAt(p.lines, s.line, VariableShift(dst, value, count, width, mode, f, serial))
    ensures Goes(p, s, n, t)
    ensures t == s.(line := s.line + |VariableShift(dst, value, count, width, mode, f, serial)|, reg := t.reg)
    ensures forall j :: 0 <= j < 32 && j != dst && j != 1 && !(25 <= j <= 28) ==> t.reg[j] == s.reg[j]
    ensures t.reg[dst] == ShiftResult(p, width, mode, s.reg[value], s.reg[count], f, serial)
  {
    hide Goes, DistinctLabels, ShiftLoop, VariableShift, V.Turns, Mask32, CodeAt, ShiftScratch, Pow2, BitAt,
         LowByte, HeadLines, SignLine, LowBits;
    ShiftShape(dst, value, count, width, mode, f, serial);
    HeadLength(value, count, width);
    var after := ShiftLoop(width, mode, f, serial) + (Mask32(width) + [Mov(dst, 27)]);
    var a, s3 := RunPrepare(p, s, value, count, width, mode, after);
    CodeAtParts(p.lines, s3.line, ShiftLoop(width, mode, f, serial), Mask32(width) + [Mov(dst, 27)]);
    ScratchZero(s.reg, s3.reg);
    BitIsFlag(s3.reg[27], 31);
    var sign := mode.ShiftRightS? && BitAt(s3.reg[27], 31) == 1;
    var b, s4 := RunLoop(p, s3, width, mode, f, serial, sign);
    GoesTrans(p, s, a, s3, b, s4);
    ScratchTrans(s.reg, s3.reg, s4.reg);
    var c, s5 := RunFinish(p, s4, dst, width);
    GoesTrans(p, s, a + b, s4, c, s5);
    n, t := a + b + c, s5;
    ScratchButOne(s.reg, s4.reg, s5.reg, dst);
    if !p.atomic { ByteMod(p, ShiftName("end", f, serial), width); }
  }

  /** Load count and value, mask both, take the sign bit. */
  lemma {:induction false} RunPrepare(p: Program, s: State, value: RegIx, count: RegIx, width: nat, mode: ShiftMode,
                                      after: seq<Line>)
    returns (n: nat, t: State)
    requires (width == 32 || width == 64) && s.mode == Going && 4 <= value <= 24 && 4 <= count <= 24
    requires CodeAt(p.lines, s.line, HeadLines(value, count, width) + (Mask32(width) + (SignLine(mode) + after)))
    ensures Goes(p, s, n, t) && CodeAt(p.lines, t.line, after)
    ensures t == s.(line := s.line + 4 + |Mask32(width)| + |SignLine(mode)|, reg := t.reg)
    ensures ShiftScratch(s.reg, t.reg) && t.reg[26] == s.reg[count] % width
    ensures t.reg[27] == LowBits(s.reg[value], width)
    ensures mode.ShiftRightS? ==> t.reg[25] == BitAt(t.reg[27], 31)
  {
    hide Goes, Mask32, CodeAt, ShiftScratch, Pow2, BitAt, SignLine, HeadLines;
    assert |HeadLines(value, count, width)| == 4 by { HeadLength(value, count, width); }
    CodeAtParts(p.lines, s.line, HeadLines(value, count, width), Mask32(width) + (SignLine(mode) + after));
    var s1 := RunHead(p, s, value, count, width);
    CodeAtParts(p.lines, s1.line, Mask32(width), SignLine(mode) + after);
    var a, s2 := RunMask(p, s1, width);
    GoesTrans(p, s, 4, s1, a, s2);
    ScratchTrans(s.reg, s1.reg, s2.reg);
    CodeAtParts(p.lines, s2.line, SignLine(mode), after);
    var b, s3 := RunSign(p, s2, mode);
    GoesTrans(p, s, 4 + a, s2, b, s3);
    ScratchTrans(s.reg, s2.reg, s3.reg);
    n, t := 4 + a + b, s3;
  }

  lemma {:induction false} HeadLength(value: RegIx, count: RegIx, width: nat)
    requires width == 32 || width == 64
    ensures |HeadLines(value, count, width)| == 4
  {
  }

  lemma {:induction false} RunFinish(p: Program, s: State, dst: RegIx, width: nat) returns (n: nat, t: State)
    requires (width == 32 || width == 64) && s.mode == Going && 4 <= dst <= 24
    requires CodeAt(p.lines, s.line, Mask32(width) + [Mov(dst, 27)])
    ensures Goes(p, s, n, t) && t == s.(line := s.line + |Mask32(width)| + 1, reg := t.reg)
    ensures forall j :: 0 <= j < 32 && j != dst && j != 1 && !(25 <= j <= 28) ==> t.reg[j] == s.reg[j]
    ensures t.reg[dst] == LowBits(s.reg[27], width)
  {
    hide Goes, Mask32, Pow2;
    CodeAtParts(p.lines, s.line, Mask32(width), [Mov(dst, 27)]);
    var a, s1 := RunMask(p, s, width);
    CodeAtLine(p.lines, s1.line, [Mov(dst, 27)], 0);
    DoMov(p, s1, dst, 27);
    t := After(s1, dst, s1.reg[27]);
    GoesTrans(p, s, a, s1, 1, t);
    n := a + 1;
  }

  lemma {:induction false} ScratchButOne(a: Regs, b: Regs, c: Regs, dst: RegIx)
    requires ShiftScratch(a, b)
    requires forall j :: 0 <= j < 32 && j != dst && j != 1 && !(25 <= j <= 28) ==> c[j] == b[j]
    ensures forall j :: 0 <= j < 32 && j != dst && j != 1 && !(25 <= j <= 28) ==> c[j] == a[j]
  {
  }

  lemma {:induction false} ByteMod(p: Program, name: Name, width: nat)
    requires width == 32 || width == 64
    ensures LowBits(LowByte(p, name), width) == LowByte(p, name)
  {
    assert LowByte(p, name) < 256;
    hide LowByte, Pow2;
    PowValues();
    ModSmall(LowByte(p, name), Pow2(width));
  }

  /** The shift instructions, under jumps that keep R27. */
  lemma {:induction false} ShiftLeaf(x: Case) returns (n: nat, t: State)
    requires Ready(x) && x.leaf.Bin? && W.IsShift(x.leaf.bin)
    ensures Done(x, n, t)
  {
    hide E.CodeSize, DistinctLabels, Goes, VariableShift, V.Turns, W.EvalBin, Pow2;
    var Case(e, leaf, c, ts, st, s, code, st', sc, ctx) := x;
    var ty, op := leaf.ty, leaf.bin;
    MatchOperand(e, c, ts, s, 0);
    MatchOperand(e, c, ts, s, 1);
    var a, b := W.Num(W.Operand(c, 1)), W.Num(W.Operand(c, 0));
    ShiftsAreNotFaithful(op);
    V.LoopFaithful(ty, op, a, b);
    PowValues();
    n, t := RunShift(e.p, s, Top(st, 1), Top(st, 1), Top(st, 0), W.Width(ty), ModeOf(op), e.f, st.shifts);
    var r := W.EvalBin(ty, op, a, b).value;
    ShiftType(ty, op, a, b);
    MatchPush(e, c, ts, s, 2, r, t);
    assert ts[..|ts| - 2] + [ty] == ts[..|ts| - 1];
  }

  lemma {:induction false} ShiftType(ty: W.ValType, op: W.BinOp, a: nat, b: nat)
    requires a < W.Modulus(ty) && b < W.Modulus(ty) && W.EvalBin(ty, op, a, b).Some?
    ensures W.TypeOf(W.EvalBin(ty, op, a, b).value) == ty
  {
    Exactness.EvalBinType(ty, op, a, b);
  }

  /** As assembled, a shift leaves the low byte of its end label's address, so it is right exactly
      for the operands whose shifted value happens to be that byte. */
  lemma {:induction false} AssembledShiftExact(p: Program, s: State, dst: RegIx, value: RegIx, count: RegIx,
                                               ty: W.ValType, op: W.BinOp, f: Func, serial: nat)
    returns (n: nat, t: State)
    requires !p.atomic && s.mode == Going && s.reg[0] == 0 && DistinctLabels(p.lines) && W.IsShift(op)
    requires 4 <= value <= 24 && 4 <= count <= 24 && 4 <= dst <= 24
    requires s.reg[value] < W.Modulus(ty) && s.reg[count] < W.Modulus(ty)
    requires CodeAt(p.lines, s.line, VariableShift(dst, value, count, W.Width(ty), ModeOf(op), f, serial))
    ensures Goes(p, s, n, t) &&
            t.line == s.line + |VariableShift(dst, value, count, W.Width(ty), ModeOf(op), f, serial)|
    ensures t.reg[dst] == LowByte(p, ShiftName("end", f, serial)) < 256
    ensures W.EvalBin(ty, op, s.reg[value], s.reg[count]).Some?
    ensures var v := W.Raw(W.EvalBin(ty, op, s.reg[value], s.reg[count]).value);
            t.reg[dst] == v <==> v == LowByte(p, ShiftName("end", f, serial))
  {
    hide VariableShift;
    n, t := RunShift(p, s, dst, value, count, W.Width(ty), ModeOf(op), f, serial);
  }
}
