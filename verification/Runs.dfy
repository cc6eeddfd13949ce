/** Contained runs at the level of assembly lines, and the effect of running one line. */
module Runs {
  import opened Words
  import opened Machine
  import opened Assembly
  import E = Expansion

  // ----- runs -----

  /** `n` contained steps lead from `s` to `t`. */
  ghost predicate Goes(p: Program, s: State, n: nat, t: State) {
    Steps(p, s, n) == t && E.Contained(p, s, n)
  }

  lemma GoesZero(p: Program, s: State)
    ensures Goes(p, s, 0, s)
  {
  }

  lemma GoesOne(p: Program, s: State)
    requires E.Tame(p, s)
    ensures Goes(p, s, 1, Meaning(p, s))
  {
    hide Meaning, E.Tame;
    assert Steps(p, s, 1) == Steps(p, Meaning(p, s), 0);
    assert Steps(p, s, 0) == s;
  }

  lemma GoesTrans(p: Program, s: State, a: nat, t: State, b: nat, u: State)
    requires Goes(p, s, a, t) && Goes(p, t, b, u)
    ensures Goes(p, s, a + b, u)
  {
    hide Steps, E.Tame;
    StepsAdd(p, s, a, b);
    forall j | 0 <= j < a + b ensures E.Tame(p, Steps(p, s, j)) {
      if j >= a { StepsAdd(p, s, a, j - a); assert E.Tame(p, Steps(p, t, j - a)); }
    }
  }

  // ----- single lines -----

  predicate CodeAt(lines: seq<Line>, at: nat, code: seq<Line>) {
    at + |code| <= |lines| && lines[at..at + |code|] == code
  }

  lemma CodeAtLine(lines: seq<Line>, at: nat, code: seq<Line>, k: nat)
    requires CodeAt(lines, at, code) && k < |code|
    ensures at + k < |lines| && lines[at + k] == code[k]
  {
    assert lines[at..at + |code|][k] == lines[at + k];
  }

  lemma CodeAtParts(lines: seq<Line>, at: nat, a: seq<Line>, b: seq<Line>)
    requires CodeAt(lines, at, a + b)
    ensures CodeAt(lines, at, a) && CodeAt(lines, at + |a|, b)
  {
    assert lines[at..at + |a|] == (a + b)[..|a|] == a;
    assert lines[at + |a|..at + |a + b|] == (a + b)[|a|..] == b;
  }

  predicate OnLine(p: Program, s: State, line: Line) {
    s.mode == Going && s.line < |p.lines| && p.lines[s.line] == line
  }

  function After(s: State, rd: RegIx, v: Word): State { s.(line := s.line + 1, reg := Put(s.reg, rd, v)) }

  lemma DoMov(p: Program, s: State, rd: RegIx, rs: RegIx)
    requires OnLine(p, s, Mov(rd, rs))
    ensures Goes(p, s, 1, After(s, rd, s.reg[rs]))
  {
    GoesOne(p, s);
  }

  lemma DoImm(p: Program, s: State, rd: RegIx, v: int)
    requires Fits11(v) && OnLine(p, s, LoadImm(rd, v))
    ensures Goes(p, s, 1, After(s, rd, Wrap(v)))
  {
    GoesOne(p, s);
  }

  lemma DoDec(p: Program, s: State, rd: RegIx)
    requires rd > 1 && OnLine(p, s, Dec(rd))
    ensures Goes(p, s, 1, s.(line := s.line + 1,
                             reg := Put(Put(s.reg, 1, TWO_TO_64 - 1), rd, Plus(s.reg[rd], -1))))
  {
    GoesOne(p, s);
  }

  lemma DoLabel(p: Program, s: State, name: Name)
    requires OnLine(p, s, LabelDef(name))
    ensures Goes(p, s, 1, s.(line := s.line + 1))
  {
    GoesOne(p, s);
  }

  lemma PlainMeaning(p: Program, s: State, i: Insn)
    requires OnLine(p, s, Assembly.Plain(i)) && !IsBranch(i.op)
    ensures Meaning(p, s) == (
              var n := s.(line := s.line + 1);
              match Execute(Truncated(i), s.reg, s.mem)
              case Next(r, m) => n.(reg := r, mem := m)
              case Stop => n.(mode := Stopped)
              case Fault => n.(mode := Faulted))
    ensures Fits11(i.imm) ==> Truncated(i) == i
  {
    hide Execute;
  }

  lemma DoAlu(p: Program, s: State, op: Opcode, fd: RegIx, fa: RegIx, fb: RegIx)
    requires IsAlu(op) && OnLine(p, s, RR(op, fd, fa, fb))
    ensures match Alu(op, s.reg[fa], s.reg[fb])
            case Some(v) => Goes(p, s, 1, After(s, fd, v))
            case None => Goes(p, s, 1, s.(line := s.line + 1, mode := Faulted))
  {
    hide Alu, Meaning;
    PlainMeaning(p, s, R(op, fd, fa, fb));
    GoesOne(p, s);
  }

  lemma DoBit(p: Program, s: State, op: Opcode, fd: RegIx, fa: RegIx, imm: int)
    requires IsBitOp(op) && 0 <= imm < 64 && OnLine(p, s, RI(op, fd, fa, imm))
    ensures Goes(p, s, 1, After(s, fd, BitOp(op, s.reg[fa], imm)))
  {
    hide BitOp, Meaning;
    PlainMeaning(p, s, I(op, fd, fa, imm));
    GoesOne(p, s);
  }

  lemma DoLoad(p: Program, s: State, fd: RegIx, fa: RegIx, imm: int)
    requires Fits11(imm) && OnLine(p, s, RI(LOAD, fd, fa, imm))
    ensures Goes(p, s, 1, After(s, fd, s.mem[Address(s.reg[fa], imm)]))
  {
    hide Meaning;
    PlainMeaning(p, s, I(LOAD, fd, fa, imm));
    GoesOne(p, s);
  }

  lemma DoStore(p: Program, s: State, fd: RegIx, fa: RegIx, imm: int)
    requires Fits11(imm) && OnLine(p, s, RI(STORE, fd, fa, imm))
    requires Address(s.reg[fa], imm) >= E.CodeSize(p.lines)
    ensures Goes(p, s, 1, s.(line := s.line + 1, mem := s.mem[Address(s.reg[fa], imm) := s.reg[fd]]))
  {
    hide Meaning;
    PlainMeaning(p, s, I(STORE, fd, fa, imm));
    GoesOne(p, s);
  }

  lemma DoHalt(p: Program, s: State)
    requires OnLine(p, s, RI(HALT, 0, 0, 0))
    ensures Goes(p, s, 1, s.(line := s.line + 1, mode := Stopped))
  {
    hide Meaning;
    PlainMeaning(p, s, I(HALT, 0, 0, 0));
    GoesOne(p, s);
  }

  lemma DoNop(p: Program, s: State)
    requires OnLine(p, s, RI(NOP, 0, 0, 0))
    ensures Goes(p, s, 1, s.(line := s.line + 1))
  {
    hide Meaning;
    PlainMeaning(p, s, I(NOP, 0, 0, 0));
    GoesOne(p, s);
  }

  /** Only the assembler's scratch registers R1, R27 and R28 differ. */
  predicate SameBut(a: Regs, b: Regs) {
    forall k :: 0 <= k < 32 && k != 1 && k != 27 && k != 28 ==> a[k] == b[k]
  }

  /** A jump to the label on line `k` arrives there. */
  predicate Arrives(p: Program, s: State, k: nat, t: State) {
    t.line == k && t.mem == s.mem && t.mode == Going && SameBut(s.reg, t.reg) &&
    (p.atomic ==> t.reg == s.reg)
  }

  lemma JumpArrives(p: Program, s: State, name: Name, k: nat)
    requires DistinctLabels(p.lines) && s.mode == Going && k < |p.lines| && p.lines[k] == LabelDef(name)
    ensures Arrives(p, s, k, JumpTo(p, s, name))
  {
    LineOfUnique(p.lines, k);
  }

  lemma DoJump(p: Program, s: State, name: Name, k: nat) returns (t: State)
    requires DistinctLabels(p.lines) && OnLine(p, s, Jump(name))
    requires k < |p.lines| && p.lines[k] == LabelDef(name)
    ensures Goes(p, s, 1, t) && Arrives(p, s, k, t)
  {
    hide JumpTo;
    t := Meaning(p, s);
    JumpArrives(p, s.(line := s.line + 1), name, k);
    GoesOne(p, s);
  }

  lemma DoJumpIf(p: Program, s: State, rs: RegIx, name: Name, k: nat) returns (t: State)
    requires DistinctLabels(p.lines) && k < |p.lines| && p.lines[k] == LabelDef(name)
    requires OnLine(p, s, JumpZ(rs, name)) || OnLine(p, s, JumpNZ(rs, name))
    ensures Goes(p, s, 1, t)
    ensures (s.reg[rs] == 0) == p.lines[s.line].JumpZ? ==> Arrives(p, s, k, t)
    ensures (s.reg[rs] == 0) != p.lines[s.line].JumpZ? ==> t == s.(line := s.line + 1)
  {
    hide JumpTo;
    t := Meaning(p, s);
    JumpArrives(p, s.(line := s.line + 1), name, k);
    GoesOne(p, s);
  }

  lemma DoBranch(p: Program, s: State, c: Cond, r1: RegIx, r2: RegIx, name: Name, k: nat) returns (t: State)
    requires DistinctLabels(p.lines) && k < |p.lines| && p.lines[k] == LabelDef(name)
    requires OnLine(p, s, Branch(c, r1, r2, name))
    ensures Goes(p, s, 1, t)
    ensures Arrives(p, s, if Holds(c, s.reg[r1], s.reg[r2]) then k else s.line + 1, t)
  {
    hide JumpTo, Holds;
    t := Meaning(p, s);
    var n := s.(line := s.line + 1);
    JumpArrives(p, n, name, k);
    JumpArrives(p, n.(reg := Put(s.reg, 1, Flag(Holds(c, s.reg[r1], s.reg[r2])))), name, k);
    GoesOne(p, s);
  }
}
