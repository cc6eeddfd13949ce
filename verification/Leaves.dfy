/** The code emitted for one unstructured instruction carries a represented configuration to
    what the instruction's WebAssembly meaning gives. */
module Leaves {
  import opened Words
  import opened Machine
  import opened Assembly
  import opened Translator
  import opened Runs
  import opened Simulation
  import E = Expansion
  import Exactness
  import W = Wasm

  /** The translator's control stack lines up with the validator's label types, and every
      branch label is defined on a known line. */
  datatype Scope = Scope(labels: seq<seq<W.ValType>>, targets: seq<nat>)

  predicate Aligned(e: Site, ts: TState, sc: Scope, ctx: W.Context) {
    GoodSite(e) && ctx.locals == e.locals && ctx.result.Some? == e.f.hasResult &&
    (ctx.atomic ==> e.p.atomic) &&
    |sc.labels| == |ts.ctrl| == |sc.targets| &&
    forall l :: 0 <= l < |ts.ctrl| ==> TargetAt(e, ts.ctrl[l], sc.targets[l])
  }

  predicate TargetAt(e: Site, fr: Frame, k: nat) {
    k < |e.p.lines| && e.p.lines[k] == LabelDef(BranchName(e.f, fr))
  }

  /** The machine state at the end of a run, for each way a configuration can end. */
  predicate Represents(e: Site, o: W.Outcome, h: W.Height, sc: Scope, end: nat, t: State)
    requires GoodSite(e) && |sc.labels| == |sc.targets|
  {
    match o
    case Normal(c) => h.Live? && Match(e, c, h.ts, t) && t.line == end
    case Branching(l, c) =>
      l < |sc.labels| && |sc.labels[l]| <= |c.stack| && t.line == sc.targets[l] &&
      Match(e, W.Unwind(c, |sc.labels[l]|), sc.labels[l], t)
    case Returned(c) =>
      Base(e, t) && t.line == e.ret &&
      (e.f.hasResult ==> |c.stack| >= 1 && t.reg[7] == W.Raw(W.Operand(c, 0)))
    case Trap => t.mode.Stopped? || t.mode.Faulted?
    case Stuck => false
    case Timeout => t.mode.Going? && t.line < |e.p.lines|
  }

  /** One instruction about to run: the configuration and the state that represents it, and
      the lines emitted for it, which sit at the current line. */
  datatype Case = Case(e: Site, leaf: W.Leaf, c: W.Config, ts: seq<W.ValType>, st: TState, s: State,
                       code: seq<Line>, st': TState, sc: Scope, ctx: W.Context)

  predicate Ready(x: Case) {
    Aligned(x.e, x.st, x.sc, x.ctx) && Match(x.e, x.c, x.ts, x.s) && x.st.depth == |x.ts| <= 20 &&
    EmitLeaf(x.leaf, x.st, x.e.f) == Some((x.code, x.st')) && CodeAt(x.e.p.lines, x.s.line, x.code) &&
    W.CheckLeaf(x.leaf, x.ts, x.sc.labels, x.ctx).Some?
  }

  function TypesAfter(x: Case): seq<W.ValType>
    requires Ready(x)
  {
    W.CheckLeaf(x.leaf, x.ts, x.sc.labels, x.ctx).value
  }

  /** R7 is the fourth operand's register: unless there is a fourth operand afterwards, or the function
      returns, it keeps its value. */
  predicate SeventhKept(x: Case, t: State) {
    match W.ExecLeaf(x.leaf, x.c)
    case Normal(c) => |c.stack| < 4 ==> t.reg[7] == x.s.reg[7]
    case Branching(_, c) => t.reg[7] == x.s.reg[7]
    case _ => true
  }

  /** `n` steps carry the state to one that represents the instruction's outcome. */
  ghost predicate Done(x: Case, n: nat, t: State)
    requires Ready(x)
  {
    Goes(x.e.p, x.s, n, t) && |TypesAfter(x)| == x.st'.depth && SeventhKept(x, t) &&
    Represents(x.e, W.ExecLeaf(x.leaf, x.c), W.Live(TypesAfter(x)), x.sc, x.s.line + |x.code|, t)
  }

  // ----- no code, or one instruction -----

  lemma {:induction false} SimpleLeaf(x: Case) returns (n: nat, t: State)
    requires Ready(x) && (x.leaf.Nop? || x.leaf.Unreachable? || x.leaf.Drop?)
    ensures Done(x, n, t)
  {
    var Case(e, leaf, c, ts, st, s, code, st', sc, ctx) := x;
    match leaf
    case Nop =>
      CodeAtLine(e.p.lines, s.line, code, 0);
      DoNop(e.p, s);
      n, t := 1, s.(line := s.line + 1);
    case Unreachable =>
      CodeAtLine(e.p.lines, s.line, code, 0);
      DoHalt(e.p, s);
      n, t := 1, s.(line := s.line + 1, mode := Stopped);
    case Drop =>
      GoesZero(e.p, s);
      n, t := 0, s;
      MatchPop(e, c, ts, s, 1, s);
  }

  lemma {:induction false} LocalGetLeaf(x: Case) returns (n: nat, t: State)
    requires Ready(x) && x.leaf.LocalGet?
    ensures Done(x, n, t)
  {
    var Case(e, leaf, c, ts, st, s, code, st', sc, ctx) := x;
    hide E.CodeSize, DistinctLabels;
    var i := leaf.ix;
    CodeAtLine(e.p.lines, s.line, code, 0);
    SlotAddress(e, s, i);
    DoLoad(e.p, s, Top(st', 0), 29, 2 + i);
    n, t := 1, After(s, Top(st', 0), s.mem[e.fp + 2 + i]);
    MatchPush(e, c, ts, s, 0, c.locals[i], t);
    assert W.Pop(c, 0) == c.stack && ts[..|ts|] == ts;
  }

  lemma {:induction false} StoreTop(e: Site, c: W.Config, ts: seq<W.ValType>, s: State, i: nat) returns (t: State)
    requires GoodSite(e) && Match(e, c, ts, s) && |ts| >= 1 && i < |e.locals|
    requires ts[|ts| - 1] == e.locals[i] && OnLine(e.p, s, RI(STORE, 3 + |ts|, 29, 2 + i))
    ensures Goes(e.p, s, 1, t) && t.line == s.line + 1
    ensures Match(e, c.(locals := c.locals[i := W.Operand(c, 0)]), ts, t)
  {
    hide E.CodeSize, DistinctLabels;
    SlotAddress(e, s, i);
    MatchOperand(e, c, ts, s, 0);
    DoStore(e.p, s, 3 + |ts|, 29, 2 + i);
    t := s.(line := s.line + 1, mem := s.mem[e.fp + 2 + i := s.reg[3 + |ts|]]);
    MatchStore(e, c, ts, s, i, W.Operand(c, 0), t);
  }

  lemma {:induction false} LocalStoreLeaf(x: Case) returns (n: nat, t: State)
    requires Ready(x) && (x.leaf.LocalSet? || x.leaf.LocalTee?)
    ensures Done(x, n, t)
  {
    var Case(e, leaf, c, ts, st, s, code, st', sc, ctx) := x;
    hide E.CodeSize, DistinctLabels;
    CodeAtLine(e.p.lines, s.line, code, 0);
    n := 1;
    t := StoreTop(e, c, ts, s, leaf.ix);
    if leaf.LocalSet? {
      MatchPop(e, c.(locals := c.locals[leaf.ix := W.Operand(c, 0)]), ts, t, 1, t);
    }
  }

  lemma {:induction false} ConstLeaf(x: Case) returns (n: nat, t: State)
    requires Ready(x) && x.leaf.Const?
    ensures Done(x, n, t)
  {
    var Case(e, leaf, c, ts, st, s, code, st', sc, ctx) := x;
    hide E.CodeSize, E.Tame, DistinctLabels, Meaning, Pow2, MoviBytes, ConstLine, Wrap;
    var v, ty := leaf.value, leaf.ty;
    var rd := Top(st', 0);
    CodeAtLine(e.p.lines, s.line, code, 0);
    Exactness.ConstFaithful(ty, v);
    n := 1;
    t := Meaning(e.p, s);
    LoadedReg(e.p, s, rd, v, W.Raw(W.Make(ty, v)), ConstLine(rd, v));
    GoesOne(e.p, s);
    MatchPush(e, c, ts, s, 0, W.Make(ty, v), t);
    assert W.Pop(c, 0) == c.stack && ts[..|ts|] == ts;
  }

  /** After loading a constant whose bytes are kept, only the register and R27 changed. */
  lemma {:induction false} LoadedReg(p: Program, s: State, rd: RegIx, v: Imm64, x: Word, line: Line)
    requires 4 <= rd <= 24 && line == ConstLine(rd, v) && OnLine(p, s, line)
    requires Fits11(v) ==> Wrap(v) == x
    requires !Fits11(v) ==> Wrap(v) % Pow2(8 * MoviBytes(v)) == x
    ensures var t := Meaning(p, s);
            t == s.(line := s.line + 1, reg := t.reg) && t.reg[rd] == x &&
            forall k :: 0 <= k < 32 && k != rd && k != 27 ==> t.reg[k] == s.reg[k]
    ensures E.Tame(p, s)
  {
    hide Pow2, MoviBytes, AddressOf, LineOf;
    WrapWord(x);
  }

  // ----- arithmetic and comparisons -----

  lemma {:induction false} BinLeaf(x: Case) returns (n: nat, t: State)
    requires Ready(x) && x.leaf.Bin? && !W.IsShift(x.leaf.bin)
    ensures Done(x, n, t)
  {
    hide E.CodeSize, DistinctLabels, Alu, W.EvalBin, W.Faithful;
    var Case(e, leaf, c, ts, st, s, code, st', sc, ctx) := x;
    var ty, op := leaf.ty, leaf.bin;
    CodeAtLine(e.p.lines, s.line, code, 0);
    MatchOperand(e, c, ts, s, 0);
    MatchOperand(e, c, ts, s, 1);
    var a, b := W.Num(W.Operand(c, 1)), W.Num(W.Operand(c, 0));
    assert W.Faithful(ty, op) by { ShiftsAreNotFaithful(op); }
    Exactness.BinFaithful(ty, op, a, b);
    DoAlu(e.p, s, OpcodeFor(op), Top(st, 1), Top(st, 1), Top(st, 0));
    n := 1;
    var r := W.EvalBin(ty, op, a, b);
    if r.Some? {
      t := After(s, Top(st, 1), W.Raw(r.value));
      MatchPush(e, c, ts, s, 2, r.value, t);
      assert ts[..|ts| - 2] + [ty] == ts[..|ts| - 1];
    } else {
      t := s.(line := s.line + 1, mode := Faulted);
    }
  }

  lemma {:induction false} ShiftsAreNotFaithful(op: W.BinOp)
    ensures W.FaithfulShift(W.T32, op) || W.FaithfulShift(W.T64, op) ==> W.IsShift(op)
    ensures W.IsShift(op) ==> !W.Faithful(W.T32, op) && !W.Faithful(W.T64, op)
  {
  }

  lemma {:induction false} EqzLeaf(x: Case) returns (n: nat, t: State)
    requires Ready(x) && x.leaf.Eqz?
    ensures Done(x, n, t)
  {
    hide E.CodeSize, DistinctLabels, Alu;
    var Case(e, leaf, c, ts, st, s, code, st', sc, ctx) := x;
    CodeAtLine(e.p.lines, s.line, code, 0);
    MatchOperand(e, c, ts, s, 0);
    var b := W.Num(W.Operand(c, 0));
    EqZero(b);
    DoAlu(e.p, s, CMPEQ, Top(st, 0), Top(st, 0), 0);
    n, t := 1, After(s, Top(st, 0), W.Raw(W.Bool(b == 0)));
    MatchPush(e, c, ts, s, 1, W.Bool(b == 0), t);
  }

  lemma {:induction false} RelLeaf(x: Case) returns (n: nat, t: State)
    requires Ready(x) && x.leaf.Rel?
    ensures Done(x, n, t)
  {
    hide E.CodeSize, DistinctLabels, Alu, W.EvalRel, W.FaithfulRel, Exactness.RunCompare, CompareFor;
    var Case(e, leaf, c, ts, st, s, code, st', sc, ctx) := x;
    CodeAtLine(e.p.lines, s.line, code, 0);
    MatchOperand(e, c, ts, s, 0);
    MatchOperand(e, c, ts, s, 1);
    var a, b := W.Num(W.Operand(c, 1)), W.Num(W.Operand(c, 0));
    Exactness.RelFaithful(leaf.ty, leaf.rel, a, b);
    CompareRuns(leaf.rel, a, b);
    var (opc, swap) := CompareFor(leaf.rel);
    if swap { DoAlu(e.p, s, opc, Top(st, 1), Top(st, 0), Top(st, 1)); }
    else { DoAlu(e.p, s, opc, Top(st, 1), Top(st, 1), Top(st, 0)); }
    var v := W.Bool(W.EvalRel(leaf.ty, leaf.rel, a, b));
    n, t := 1, After(s, Top(st, 1), W.Raw(v));
    MatchPush(e, c, ts, s, 2, v, t);
  }

  lemma {:induction false} EqZero(b: Word)
    ensures Alu(CMPEQ, b, 0) == Some(W.Raw(W.Bool(b == 0)))
  {
  }

  lemma {:induction false} CompareRuns(op: W.RelOp, a: Word, b: Word)
    ensures Exactness.RunCompare(op, a, b)
         == if CompareFor(op).1 then Alu(CompareFor(op).0, b, a) else Alu(CompareFor(op).0, a, b)
  {
  }

  // ----- masks and sign extension -----

  /** `LI R28, -1; SHR R28, R28, 64 - k` leaves `2^k - 1`. */
  lemma {:induction false} LowMask(k: nat)
    requires k <= 64
    ensures Shr(TWO_TO_64 - 1, 64 - k) == Pow2(k) - 1
  {
    hide Pow2;
    PowValues();
    PowAdd(k, 64 - k);
    assert k + (64 - k) == 64;
    var p, q: int := Pow2(k), Pow2(64 - k);
    MulDistribute(q, p, 1);
    ModUnique(TWO_TO_64 - 1, q, p - 1, q - 1);
  }

  lemma {:induction false} AndMask(x: Word, k: nat)
    requires k <= 64
    ensures Pow2(k) - 1 < TWO_TO_64 && And(x, Pow2(k) - 1) == x % Pow2(k)
  {
    hide Bits, Pow2;
    PowValues();
    PowMonotone(k, 64);
    MaskLow(x, k);
  }

  /** The three lines that mask register `r` to its low `k` bits. */
  function MaskLines(r: RegIx, k: nat): seq<Line>
    requires k <= 64
  {
    [LoadImm(28, -1), RI(SHR, 28, 28, 64 - k), RR(AND, r, r, 28)]
  }

  lemma {:induction false} MaskRun(p: Program, s: State, r: RegIx, k: nat) returns (t: State)
    requires 1 <= k <= 64 && r != 28 && r != 0 && s.mode == Going && CodeAt(p.lines, s.line, MaskLines(r, k))
    ensures Goes(p, s, 3, t) && t == s.(line := s.line + 3, reg := t.reg)
    ensures t.reg[r] == s.reg[r] % Pow2(k)
    ensures forall j :: 0 <= j < 32 && j != r && j != 28 ==> t.reg[j] == s.reg[j]
  {
    hide Goes, Pow2, Alu, BitOp;
    CodeAtLine(p.lines, s.line, MaskLines(r, k), 0);
    CodeAtLine(p.lines, s.line, MaskLines(r, k), 1);
    CodeAtLine(p.lines, s.line, MaskLines(r, k), 2);
    DoImm(p, s, 28, -1);
    var s1 := After(s, 28, TWO_TO_64 - 1);
    DoBit(p, s1, SHR, 28, 28, 64 - k);
    ShrOp(s1.reg[28], 64 - k);
    LowMask(k);
    AndMask(s.reg[r], k);
    var s2 := After(s1, 28, Pow2(k) - 1);
    DoAlu(p, s2, AND, r, r, 28);
    AndOp(s2.reg[r], s2.reg[28]);
    t := After(s2, r, s.reg[r] % Pow2(k));
    GoesTrans(p, s, 1, s1, 1, s2);
    GoesTrans(p, s, 2, s2, 1, t);
  }

  lemma {:induction false} ShrOp(a: Word, k: nat)
    requires k < 64
    ensures BitOp(SHR, a, k) == Shr(a, k)
  {
    hide Pow2;
  }

  lemma {:induction false} AndOp(a: Word, b: Word)
    ensures Alu(AND, a, b) == Some(And(a, b))
  {
    hide Bits;
  }

  lemma {:induction false} MaskLeaf(x: Case) returns (n: nat, t: State)
    requires Ready(x) && (x.leaf.WrapI64? || x.leaf.ExtendU?)
    ensures Done(x, n, t)
  {
    hide E.CodeSize, DistinctLabels, Goes, Pow2;
    var Case(e, leaf, c, ts, st, s, code, st', sc, ctx) := x;
    MatchOperand(e, c, ts, s, 0);
    n := 3;
    t := MaskRun(e.p, s, Top(st, 0), 32);
    PowValues();
    var v := W.Make(if leaf.WrapI64? then W.T32 else W.T64, W.Num(W.Operand(c, 0)));
    MatchPush(e, c, ts, s, 1, v, t);
  }

  /** The sign bit of a value already masked to `k` bits. */
  lemma {:induction false} SignBit(x: nat, k: nat)
    requires k >= 1 && x < Pow2(k)
    ensures BitAt(x, k - 1) == if x >= Pow2(k - 1) then 1 else 0
  {
    var h := Pow2(k - 1);
    if x >= h { ModUnique(x, h, 1, x - h); } else { ModUnique(x, h, 0, x); }
  }

  /** OR with `2^64 - 2^k` adds the sign bits above a `k`-bit value. */
  lemma {:induction false} OrHighBits(x: nat, k: nat)
    requires k <= 64 && x < Pow2(k)
    ensures 0 <= TWO_TO_64 - Pow2(k) && x + TWO_TO_64 - Pow2(k) < TWO_TO_64
    ensures Bits(BitOr, x, TWO_TO_64 - Pow2(k)) == x + TWO_TO_64 - Pow2(k)
  {
    hide Pow2, Bits;
    HighPart(k);
    OrGlue(Pow2(64 - k) - 1, x, k);
    BitsCommute(BitOr, x, TWO_TO_64 - Pow2(k));
  }

  lemma {:induction false} HighPart(k: nat)
    requires k <= 64
    ensures (Pow2(64 - k) - 1) * Pow2(k) == TWO_TO_64 - Pow2(k) && Pow2(k) <= TWO_TO_64
  {
    hide Pow2;
    PowValues();
    PowAdd(k, 64 - k);
    assert k + (64 - k) == 64;
    PowMonotone(k, 64);
    var p, q: int := Pow2(k), Pow2(64 - k);
    MulDistribute(p, q, 1);
  }

  /** The value sign extension must give, from the masked operand. */
  lemma {:induction false} ExtendValue(x: nat, k: nat)
    requires 1 <= k <= 64
    ensures var low := x % Pow2(k);
            low < Pow2(k) && low < TWO_TO_64 &&
            W.Raw(W.Make(W.T64, W.ExtendFrom(x, k)))
              == if low < Pow2(k - 1) then low else low + TWO_TO_64 - Pow2(k)
  {
    hide Pow2;
    PowValues();
    PowMonotone(k, 64);
    PowMonotone(k - 1, k);
    var low := x % Pow2(k);
    if low < Pow2(k - 1) { ModSmall(low, TWO_TO_64); }
    else { ModUnique(low - Pow2(k), TWO_TO_64, -1, low + TWO_TO_64 - Pow2(k)); }
  }

  lemma {:induction false} BtestOp(a: Word, k: nat)
    requires k < 64
    ensures BitOp(BTEST, a, k) == BitAt(a, k)
  {
    hide Pow2;
  }

  lemma {:induction false} OrOp(a: Word, b: Word)
    ensures Alu(OR, a, b) == Some(Or(a, b)) && Alu(XOR, a, b) == Some(Xor(a, b))
  {
    hide Bits;
  }

  /** Setting the bits above bit `k`: `LI R28, -1; LI R26, -1; SHR R26, R26, 64 - k;
      XOR R28, R28, R26; OR r, r, R28`. */
  function HighLines(r: RegIx, k: nat): seq<Line>
    requires 1 <= k <= 64
  {
    [LoadImm(28, -1), LoadImm(26, -1), RI(SHR, 26, 26, 64 - k), RR(XOR, 28, 28, 26), RR(OR, r, r, 28)]
  }

  lemma {:induction false} HighMaskRun(p: Program, s: State, r: RegIx, k: nat) returns (t: State)
    requires 1 <= k <= 64 && 4 <= r <= 24 && s.mode == Going && CodeAt(p.lines, s.line, HighLines(r, k))
    ensures Goes(p, s, 3, t) && t == s.(line := s.line + 3, reg := t.reg)
    ensures t.reg[28] == TWO_TO_64 - 1 && t.reg[26] == Pow2(k) - 1
    ensures forall j :: 0 <= j < 32 && j != 28 && j != 26 ==> t.reg[j] == s.reg[j]
  {
    hide Goes, Pow2, Alu, BitOp, Bits;
    CodeAtLine(p.lines, s.line, HighLines(r, k), 0);
    CodeAtLine(p.lines, s.line, HighLines(r, k), 1);
    CodeAtLine(p.lines, s.line, HighLines(r, k), 2);
    DoImm(p, s, 28, -1);
    var s1 := After(s, 28, TWO_TO_64 - 1);
    DoImm(p, s1, 26, -1);
    var s2 := After(s1, 26, TWO_TO_64 - 1);
    DoBit(p, s2, SHR, 26, 26, 64 - k);
    ShrOp(s2.reg[26], 64 - k);
    LowMask(k);
    t := After(s2, 26, Pow2(k) - 1);
    GoesTrans(p, s, 1, s1, 1, s2);
    GoesTrans(p, s, 2, s2, 1, t);
  }

  lemma {:induction false} HighRun(p: Program, s: State, r: RegIx, k: nat) returns (t: State)
    requires 1 <= k <= 64 && 4 <= r <= 24 && s.mode == Going && CodeAt(p.lines, s.line, HighLines(r, k))
    requires s.reg[r] < Pow2(k)
    ensures Goes(p, s, 5, t) && t == s.(line := s.line + 5, reg := t.reg)
    ensures t.reg[r] == s.reg[r] + TWO_TO_64 - Pow2(k)
    ensures forall j :: 0 <= j < 32 && j != r && j != 28 && j != 26 ==> t.reg[j] == s.reg[j]
  {
    hide Goes, Pow2, Alu, BitOp, Bits;
    CodeAtLine(p.lines, s.line, HighLines(r, k), 3);
    CodeAtLine(p.lines, s.line, HighLines(r, k), 4);
    var s3 := HighMaskRun(p, s, r, k);
    PowValues();
    PowMonotone(k, 64);
    DoAlu(p, s3, XOR, 28, 28, 26);
    OrOp(s3.reg[28], s3.reg[26]);
    XorOnes(Pow2(k) - 1, 64);
    var s4 := After(s3, 28, TWO_TO_64 - Pow2(k));
    DoAlu(p, s4, OR, r, r, 28);
    OrOp(s4.reg[r], s4.reg[28]);
    OrHighBits(s.reg[r], k);
    t := After(s4, r, s.reg[r] + TWO_TO_64 - Pow2(k));
    GoesTrans(p, s, 3, s3, 1, s4);
    GoesTrans(p, s, 4, s4, 1, t);
  }

  /** Only the registers the generated code uses as scratch differ from here to there. */
  predicate ScratchOnly(a: Regs, b: Regs) {
    forall j :: 0 <= j < 32 && j != 1 && !(25 <= j <= 28) ==> a[j] == b[j]
  }

  function SignLines(r: RegIx, tmp: RegIx, k: nat, sign: Name, done: Name): seq<Line>
    requires k >= 1
  {
    [RI(BTEST, tmp, r, k - 1), JumpNZ(tmp, sign), Jump(done), LabelDef(sign)]
  }

  /** Testing the sign bit of a `k`-bit value goes on past the `sign` label, or to `done`. */
  lemma {:induction false} SignTest(p: Program, s: State, r: RegIx, tmp: RegIx, k: nat, sign: Name, done: Name,
                                    last: nat)
    returns (n: nat, t: State)
    requires 1 <= k <= 64 && 4 <= r <= 24 && (tmp == 25 || tmp == 27) && s.mode == Going
    requires CodeAt(p.lines, s.line, SignLines(r, tmp, k, sign, done)) && DistinctLabels(p.lines)
    requires last < |p.lines| && p.lines[last] == LabelDef(done) && s.reg[r] < Pow2(k)
    ensures Goes(p, s, n, t) && t == s.(line := t.line, reg := t.reg) && ScratchOnly(s.reg, t.reg)
    ensures t.line == if s.reg[r] >= Pow2(k - 1) then s.line + 4 else last
  {
    hide Goes, Pow2, Alu, BitOp, Bits, DistinctLabels;
    var code := SignLines(r, tmp, k, sign, done);
    CodeAtLine(p.lines, s.line, code, 0);
    CodeAtLine(p.lines, s.line, code, 1);
    CodeAtLine(p.lines, s.line, code, 2);
    CodeAtLine(p.lines, s.line, code, 3);
    DoBit(p, s, BTEST, tmp, r, k - 1);
    BtestOp(s.reg[r], k - 1);
    SignBit(s.reg[r], k);
    var s1 := After(s, tmp, BitAt(s.reg[r], k - 1));
    var s2 := DoJumpIf(p, s1, tmp, sign, s.line + 3);
    GoesTrans(p, s, 1, s1, 1, s2);
    if s.reg[r] >= Pow2(k - 1) {
      DoLabel(p, s2, sign);
      t := s2.(line := s2.line + 1);
    } else {
      t := DoJump(p, s2, done, last);
    }
    n := 3;
    GoesTrans(p, s, 2, s2, 1, t);
  }

  /** The masked operand, given its sign bits back, is the sign-extended operand. */
  lemma {:induction false} ExtendPush(x: Case, k: nat, t: State)
    requires Ready(x) && |x.ts| >= 1 && 1 <= k <= 64
    requires t == x.s.(line := t.line, reg := t.reg) && Keeps(x.s.reg, t.reg, |x.ts| - 1)
    requires var a := W.Num(W.Operand(x.c, 0));
             var low := a % Pow2(k);
             t.reg[3 + |x.ts|] == if low < Pow2(k - 1) then low else low + TWO_TO_64 - Pow2(k)
    ensures var v := W.Make(W.T64, W.ExtendFrom(W.Num(W.Operand(x.c, 0)), k));
            Match(x.e, x.c.(stack := W.Pop(x.c, 1) + [v]), x.ts[..|x.ts| - 1] + [W.T64], t)
  {
    hide E.CodeSize, DistinctLabels, Pow2, W.ExtendFrom, EmitLeaf, W.CheckLeaf;
    var a := W.Num(W.Operand(x.c, 0));
    ExtendValue(a, k);
    MatchPush(x.e, x.c, x.ts, x.s, 1, W.Make(W.T64, W.ExtendFrom(a, k)), t);
  }

  lemma {:induction false} NarrowCode(r: RegIx, k: nat, f: Func, serial: nat)
    requires 1 <= k <= 64
    ensures NarrowExtend(r, k, f, serial)
         == MaskLines(r, k) + (SignLines(r, 27, k, NarrowName(false, f, serial), NarrowName(true, f, serial))
                               + (HighLines(r, k) + [LabelDef(NarrowName(true, f, serial))]))
  {
  }

  /** Mask, test, extend: from a full register to its low `k` bits read as signed. */
  lemma {:induction false} NarrowRun(p: Program, s: State, r: RegIx, k: nat, f: Func, serial: nat)
    returns (n: nat, t: State)
    requires 1 <= k <= 64 && 4 <= r <= 24 && s.mode == Going && DistinctLabels(p.lines)
    requires CodeAt(p.lines, s.line, NarrowExtend(r, k, f, serial))
    ensures Goes(p, s, n, t) && t == s.(line := s.line + 13, reg := t.reg)
    ensures forall j :: 0 <= j < 32 && j != r && j != 1 && !(25 <= j <= 28) ==> t.reg[j] == s.reg[j]
    ensures t.reg[r] == Exactness.Extended(s.reg[r], k)
  {
    hide Goes, Pow2, NarrowExtend, DistinctLabels;
    var sign, done := NarrowName(false, f, serial), NarrowName(true, f, serial);
    NarrowCode(r, k, f, serial);
    var tail := HighLines(r, k) + [LabelDef(done)];
    CodeAtParts(p.lines, s.line, MaskLines(r, k), SignLines(r, 27, k, sign, done) + tail);
    CodeAtParts(p.lines, s.line + 3, SignLines(r, 27, k, sign, done), tail);
    CodeAtParts(p.lines, s.line + 7, HighLines(r, k), [LabelDef(done)]);
    CodeAtLine(p.lines, s.line + 12, [LabelDef(done)], 0);
    var s1 := MaskRun(p, s, r, k);
    var a, s2 := SignTest(p, s1, r, 27, k, sign, done, s.line + 12);
    GoesTrans(p, s, 3, s1, a, s2);
    n := 3 + a;
    if s1.reg[r] >= Pow2(k - 1) {
      var s3 := HighRun(p, s2, r, k);
      GoesTrans(p, s, n, s2, 5, s3);
      n := n + 5;
      s2 := s3;
    }
    DoLabel(p, s2, done);
    t := s2.(line := s2.line + 1);
    GoesTrans(p, s, n, s2, 1, t);
    n := n + 1;
  }

  lemma {:induction false} NarrowLeaf(x: Case) returns (n: nat, t: State)
    requires Ready(x) && x.leaf.Narrow?
    ensures Done(x, n, t)
  {
    hide E.CodeSize, DistinctLabels, Goes, Pow2, NarrowExtend, W.ExtendFrom;
    var Case(e, leaf, c, ts, st, s, code, st', sc, ctx) := x;
    MatchOperand(e, c, ts, s, 0);
    n, t := NarrowRun(e.p, s, Top(st, 0), leaf.bits, e.f, st.shifts);
    NarrowLength(Top(st, 0), leaf.bits, e.f, st.shifts);
    ExtendPush(x, leaf.bits, t);
  }

  lemma {:induction false} NarrowLength(r: RegIx, k: nat, f: Func, serial: nat)
    requires 1 <= k <= 64
    ensures |NarrowExtend(r, k, f, serial)| == 13 && |ExtendSigned(r, f, serial)| == 11
  {
  }

  lemma {:induction false} Shl32()
    ensures BitOp(SHL, TWO_TO_64 - 1, 32) == TWO_TO_64 - TWO_TO_32
  {
    hide Pow2;
    PowValues();
    assert (TWO_TO_64 - 1) * TWO_TO_32 == TWO_TO_64 * (TWO_TO_32 - 1) + (TWO_TO_64 - TWO_TO_32);
    ModUnique((TWO_TO_64 - 1) * TWO_TO_32, TWO_TO_64, TWO_TO_32 - 1, TWO_TO_64 - TWO_TO_32);
  }

  function High32Lines(r: RegIx): seq<Line> { [LoadImm(28, -1), RI(SHL, 28, 28, 32), RR(OR, r, r, 28)] }

  lemma {:induction false} High32Run(p: Program, s: State, r: RegIx) returns (t: State)
    requires 4 <= r <= 24 && s.mode == Going && CodeAt(p.lines, s.line, High32Lines(r))
    requires s.reg[r] < TWO_TO_32
    ensures Goes(p, s, 3, t) && t == s.(line := s.line + 3, reg := t.reg)
    ensures t.reg[r] == s.reg[r] + TWO_TO_64 - TWO_TO_32
    ensures forall j :: 0 <= j < 32 && j != r && j != 28 ==> t.reg[j] == s.reg[j]
  {
    hide Goes, Pow2, Alu, BitOp, Bits;
    CodeAtLine(p.lines, s.line, High32Lines(r), 0);
    CodeAtLine(p.lines, s.line, High32Lines(r), 1);
    CodeAtLine(p.lines, s.line, High32Lines(r), 2);
    DoImm(p, s, 28, -1);
    var s1 := After(s, 28, TWO_TO_64 - 1);
    DoBit(p, s1, SHL, 28, 28, 32);
    Shl32();
    var s2 := After(s1, 28, TWO_TO_64 - TWO_TO_32);
    DoAlu(p, s2, OR, r, r, 28);
    OrOp(s2.reg[r], s2.reg[28]);
    PowValues();
    OrHighBits(s.reg[r], 32);
    t := After(s2, r, s.reg[r] + TWO_TO_64 - TWO_TO_32);
    GoesTrans(p, s, 1, s1, 1, s2);
    GoesTrans(p, s, 2, s2, 1, t);
  }

  lemma {:induction false} ExtendCode(r: RegIx, f: Func, serial: nat)
    ensures ExtendSigned(r, f, serial)
         == MaskLines(r, 32) + (SignLines(r, 25, 32, ExtendName(false, f, serial), ExtendName(true, f, serial))
                                + (High32Lines(r) + [LabelDef(ExtendName(true, f, serial))]))
  {
  }

  lemma {:induction false} ExtendRun(p: Program, s: State, r: RegIx, f: Func, serial: nat) returns (n: nat, t: State)
    requires 4 <= r <= 24 && s.mode == Going && DistinctLabels(p.lines)
    requires CodeAt(p.lines, s.line, ExtendSigned(r, f, serial))
    ensures Goes(p, s, n, t) && t == s.(line := s.line + 11, reg := t.reg)
    ensures forall j :: 0 <= j < 32 && j != r && j != 1 && !(25 <= j <= 28) ==> t.reg[j] == s.reg[j]
    ensures var low := s.reg[r] % Pow2(32);
            t.reg[r] == if low < Pow2(31) then low else low + TWO_TO_64 - Pow2(32)
  {
    hide Goes, Pow2, ExtendSigned, DistinctLabels;
    PowValues();
    var sign, done := ExtendName(false, f, serial), ExtendName(true, f, serial);
    ExtendCode(r, f, serial);
    var tail := High32Lines(r) + [LabelDef(done)];
    CodeAtParts(p.lines, s.line, MaskLines(r, 32), SignLines(r, 25, 32, sign, done) + tail);
    CodeAtParts(p.lines, s.line + 3, SignLines(r, 25, 32, sign, done), tail);
    CodeAtParts(p.lines, s.line + 7, High32Lines(r), [LabelDef(done)]);
    CodeAtLine(p.lines, s.line + 10, [LabelDef(done)], 0);
    var s1 := MaskRun(p, s, r, 32);
    var a, s2 := SignTest(p, s1, r, 25, 32, sign, done, s.line + 10);
    GoesTrans(p, s, 3, s1, a, s2);
    n := 3 + a;
    if s1.reg[r] >= Pow2(31) {
      var s3 := High32Run(p, s2, r);
      GoesTrans(p, s, n, s2, 3, s3);
      n := n + 3;
      s2 := s3;
    }
    DoLabel(p, s2, done);
    t := s2.(line := s2.line + 1);
    GoesTrans(p, s, n, s2, 1, t);
    n := n + 1;
  }

  lemma {:induction false} ExtendLeaf(x: Case) returns (n: nat, t: State)
    requires Ready(x) && x.leaf.ExtendS?
    ensures Done(x, n, t)
  {
    hide E.CodeSize, DistinctLabels, Goes, Pow2, ExtendSigned;
    var Case(e, leaf, c, ts, st, s, code, st', sc, ctx) := x;
    MatchOperand(e, c, ts, s, 0);
    n, t := ExtendRun(e.p, s, Top(st, 0), e.f, st.shifts);
    NarrowLength(Top(st, 0), 32, e.f, st.shifts);
    PowValues();
    SignedIsExtend(W.Num(W.Operand(c, 0)));
    ExtendPush(x, 32, t);
  }

  lemma {:induction false} SignedIsExtend(a: nat)
    requires a < TWO_TO_32
    ensures W.ExtendFrom(a, 32) == W.SignedAt(W.T32, a)
  {
    hide Pow2;
    PowValues();
  }

  // ----- select and branches -----

  function SelectLines(r: RegIx, no: Name, done: Name): seq<Line>
    requires r >= 2
  {
    [JumpZ(r, no), Jump(done), LabelDef(no), Mov(r - 2, r - 1), LabelDef(done)]
  }

  lemma {:induction false} SelectRun(p: Program, s: State, r: RegIx, no: Name, done: Name) returns (n: nat, t: State)
    requires 6 <= r <= 24 && s.mode == Going && DistinctLabels(p.lines)
    requires CodeAt(p.lines, s.line, SelectLines(r, no, done))
    ensures Goes(p, s, n, t) && t == s.(line := s.line + 5, reg := t.reg)
    ensures t.reg[r - 2] == if s.reg[r] != 0 then s.reg[r - 2] else s.reg[r - 1]
    ensures forall j :: 0 <= j < 32 && j != r - 2 && j != 1 && j != 27 && j != 28 ==> t.reg[j] == s.reg[j]
  {
    hide Goes, DistinctLabels;
    var code := SelectLines(r, no, done);
    CodeAtLine(p.lines, s.line, code, 0);
    CodeAtLine(p.lines, s.line, code, 1);
    CodeAtLine(p.lines, s.line, code, 2);
    CodeAtLine(p.lines, s.line, code, 3);
    CodeAtLine(p.lines, s.line, code, 4);
    var s1 := DoJumpIf(p, s, r, no, s.line + 2);
    var s2: State;
    if s.reg[r] != 0 {
      s2 := DoJump(p, s1, done, s.line + 4);
      GoesTrans(p, s, 1, s1, 1, s2);
      n := 2;
    } else {
      DoLabel(p, s1, no);
      var s1' := s1.(line := s1.line + 1);
      DoMov(p, s1', r - 2, r - 1);
      s2 := After(s1', r - 2, s1'.reg[r - 1]);
      GoesTrans(p, s, 1, s1, 1, s1');
      GoesTrans(p, s, 2, s1', 1, s2);
      n := 3;
    }
    DoLabel(p, s2, done);
    t := s2.(line := s2.line + 1);
    GoesTrans(p, s, n, s2, 1, t);
    n := n + 1;
  }

  lemma {:induction false} SelectConfig(e: Site, c: W.Config, ts: seq<W.ValType>, s: State, t: State)
    requires GoodSite(e) && Match(e, c, ts, s) && |ts| >= 3
    requires var d := |ts|; ts[d - 1] == W.T32 && ts[d - 2] == ts[d - 3]
    requires t == s.(line := t.line, reg := t.reg) && Keeps(s.reg, t.reg, |ts| - 3)
    requires var d := |ts|; t.reg[1 + d] == if s.reg[3 + d] != 0 then s.reg[1 + d] else s.reg[2 + d]
    ensures var o := W.ExecLeaf(W.Select, c);
            o.Normal? && Match(e, o.c, ts[..|ts| - 2], t) && |o.c.stack| == |ts| - 2
  {
    hide E.CodeSize, DistinctLabels;
    MatchOperand(e, c, ts, s, 0);
    MatchOperand(e, c, ts, s, 1);
    MatchOperand(e, c, ts, s, 2);
    var v := if W.Operand(c, 0).u != 0 then W.Operand(c, 2) else W.Operand(c, 1);
    MatchPush(e, c, ts, s, 3, v, t);
    assert ts[..|ts| - 3] + [W.TypeOf(v)] == ts[..|ts| - 2];
    assert W.Pop(c, 3) + [W.Operand(c, 2)] == W.Pop(c, 2);
  }

  lemma {:induction false} SelectLeaf(x: Case) returns (n: nat, t: State)
    requires Ready(x) && x.leaf.Select?
    ensures Done(x, n, t)
  {
    hide E.CodeSize, DistinctLabels, Goes, W.ExecLeaf, Match;
    var Case(e, leaf, c, ts, st, s, code, st', sc, ctx) := x;
    assert s.mode == Going by { MatchGoing(x); }
    var no, done := SelectName(false, e.f, st.labels), SelectName(true, e.f, st.labels);
    assert code == SelectLines(Top(st, 0), no, done);
    n, t := SelectRun(e.p, s, Top(st, 0), no, done);
    SelectConfig(e, c, ts, s, t);
  }

  lemma {:induction false} MatchGoing(x: Case)
    requires Ready(x)
    ensures x.s.mode == Going
  {
  }

  /** Arriving by a jump keeps everything a configuration needs. */
  lemma {:induction false} ArriveMatch(e: Site, c: W.Config, ts: seq<W.ValType>, s: State, pops: nat, k: nat, t: State)
    requires GoodSite(e) && Match(e, c, ts, s) && pops <= |ts| && Arrives(e.p, s, k, t)
    ensures Match(e, c.(stack := W.Pop(c, pops)), ts[..|ts| - pops], t) && t.line == k
  {
    MatchPop(e, c, ts, s, pops, t);
  }

  lemma {:induction false} BranchLeaf(x: Case) returns (n: nat, t: State)
    requires Ready(x) && (x.leaf.Br? || x.leaf.BrIf?)
    ensures Done(x, n, t) && n >= 1
  {
    hide E.CodeSize, DistinctLabels, Goes;
    var Case(e, leaf, c, ts, st, s, code, st', sc, ctx) := x;
    CodeAtLine(e.p.lines, s.line, code, 0);
    n := 1;
    var fr, want := st.ctrl[leaf.depth], sc.labels[leaf.depth];
    assert TargetAt(e, fr, sc.targets[leaf.depth]);
    if leaf.Br? {
      t := DoJump(e.p, s, BranchName(e.f, fr), sc.targets[leaf.depth]);
      ArriveMatch(e, c, ts, s, 0, sc.targets[leaf.depth], t);
      assert W.Pop(c, 0) == c.stack && ts[..|ts|] == ts;
      MatchBottom(e, c, ts, want, t);
    } else {
      MatchOperand(e, c, ts, s, 0);
      t := DoBranch(e.p, s, BNE, Top(st, 0), 0, BranchName(e.f, fr), sc.targets[leaf.depth]);
      ArriveMatch(e, c, ts, s, 1, t.line, t);
      MatchBottom(e, c.(stack := W.Pop(c, 1)), ts[..|ts| - 1], want, t);
    }
  }

  /** The registers of the lower operands do not depend on those above. */
  lemma MatchBottom(e: Site, c: W.Config, ts: seq<W.ValType>, want: seq<W.ValType>, t: State)
    requires GoodSite(e) && Match(e, c, ts, t) && want <= ts
    ensures |want| <= |c.stack| && Match(e, W.Unwind(c, |want|), want, t)
  {
  }

  lemma {:induction false} ReturnLeaf(x: Case) returns (n: nat, t: State)
    requires Ready(x) && x.leaf.Return?
    ensures Done(x, n, t) && n >= 1
  {
    hide E.CodeSize, DistinctLabels, Goes;
    var Case(e, leaf, c, ts, st, s, code, st', sc, ctx) := x;
    CodeAtLine(e.p.lines, s.line, code, 0);
    if e.f.hasResult {
      CodeAtLine(e.p.lines, s.line, code, 1);
      MatchOperand(e, c, ts, s, 0);
      DoMov(e.p, s, 7, Top(st, 0));
      var s1 := After(s, 7, s.reg[Top(st, 0)]);
      t := DoJump(e.p, s1, ReturnName(e.f), e.ret);
      GoesTrans(e.p, s, 1, s1, 1, t);
      n := 2;
    } else {
      t := DoJump(e.p, s, ReturnName(e.f), e.ret);
      n := 1;
    }
  }

  lemma {:induction false} DoMovi28(p: Program, s: State, v: Imm64) returns (t: State)
    requires v >= 0 && OnLine(p, s, Movi(28, v))
    ensures Goes(p, s, 1, t) && t == s.(line := s.line + 1, reg := t.reg)
    ensures t.reg[28] == v && forall j :: 0 <= j < 32 && j != 27 && j != 28 ==> t.reg[j] == s.reg[j]
  {
    hide Pow2, MoviBytes, AddressOf, LineOf;
    t := Meaning(p, s);
    MoviKeeps(v);
    WrapWord(v);
    GoesOne(p, s);
  }

  function TableTarget(ls: seq<nat>, dflt: nat, u: nat): nat { if u < |ls| then ls[u] else dflt }

  /** The chain of comparisons reaches the target the selector names. */
  lemma {:induction false} TableRun(e: Site, ctrl: seq<Frame>, targets: seq<nat>, ls: seq<nat>, dflt: nat,
                                    k: nat, sel: RegIx, s: State)
    returns (n: nat, t: State)
    requires GoodSite(e) && s.mode == Going && 4 <= sel <= 24
    requires k <= |ls| <= 0x1_0000_0000 && dflt < |ctrl| && |targets| == |ctrl|
    requires forall l :: l in ls ==> l < |ctrl|
    requires forall l :: 0 <= l < |ctrl| ==> TargetAt(e, ctrl[l], targets[l])
    requires CodeAt(e.p.lines, s.line, TableLines(ls, k, sel, e.f, ctrl) + [Jump(BranchName(e.f, ctrl[dflt]))])
    requires s.reg[sel] >= k
    ensures n >= 1 && Goes(e.p, s, n, t) && t == s.(line := t.line, reg := t.reg) && SameBut(s.reg, t.reg)
    ensures TableTarget(ls, dflt, s.reg[sel]) < |targets|
    ensures t.line == targets[TableTarget(ls, dflt, s.reg[sel])]
    decreases |ls| - k
  {
    hide Goes, DistinctLabels, E.CodeSize, BranchName, CodeAt;
    var last := [Jump(BranchName(e.f, ctrl[dflt]))];
    var code := TableLines(ls, k, sel, e.f, ctrl) + last;
    if k == |ls| {
      assert TargetAt(e, ctrl[dflt], targets[dflt]);
      CodeAtLine(e.p.lines, s.line, code, 0);
      t := DoJump(e.p, s, BranchName(e.f, ctrl[dflt]), targets[dflt]);
      n := 1;
    } else {
      assert ls[k] in ls && TargetAt(e, ctrl[ls[k]], targets[ls[k]]);
      var name := BranchName(e.f, ctrl[ls[k]]);
      var head := TableEntry(k, sel, name);
      var tail := TableLines(ls, k + 1, sel, e.f, ctrl) + last;
      assert code == head + tail;
      CodeAtParts(e.p.lines, s.line, head, tail);
      t := TableStep(e.p, s, k, sel, name, targets[ls[k]]);
      n := 3;
      if s.reg[sel] != k {
        var m, u := TableRun(e, ctrl, targets, ls, dflt, k + 1, sel, t);
        GoesTrans(e.p, s, 3, t, m, u);
        n, t := 3 + m, u;
      }
    }
  }

  function TableEntry(k: Imm64, sel: RegIx, name: Name): seq<Line> {
    [Movi(28, k), RR(CMPEQ, 28, sel, 28), JumpNZ(28, name)]
  }

  lemma {:induction false} TableStep(p: Program, s: State, k: nat, sel: RegIx, name: Name, target: nat)
    returns (t: State)
    requires k < 0x1_0000_0000 && 4 <= sel <= 24 && s.mode == Going && DistinctLabels(p.lines)
    requires CodeAt(p.lines, s.line, TableEntry(k, sel, name))
    requires target < |p.lines| && p.lines[target] == LabelDef(name)
    ensures Goes(p, s, 3, t) && t == s.(line := t.line, reg := t.reg) && SameBut(s.reg, t.reg)
    ensures t.line == if s.reg[sel] == k then target else s.line + 3
  {
    hide Goes, DistinctLabels;
    CodeAtLine(p.lines, s.line, TableEntry(k, sel, name), 0);
    CodeAtLine(p.lines, s.line, TableEntry(k, sel, name), 1);
    CodeAtLine(p.lines, s.line, TableEntry(k, sel, name), 2);
    var s1 := DoMovi28(p, s, k);
    DoAlu(p, s1, CMPEQ, 28, sel, 28);
    var s2 := After(s1, 28, Flag(s.reg[sel] == k));
    GoesTrans(p, s, 1, s1, 1, s2);
    t := DoJumpIf(p, s2, 28, name, target);
    GoesTrans(p, s, 2, s2, 1, t);
  }

  lemma {:induction false} TableLeaf(x: Case) returns (n: nat, t: State)
    requires Ready(x) && x.leaf.BrTable?
    ensures Done(x, n, t) && n >= 1
  {
    hide E.CodeSize, DistinctLabels, Goes, TableLines;
    var Case(e, leaf, c, ts, st, s, code, st', sc, ctx) := x;
    MatchOperand(e, c, ts, s, 0);
    n, t := TableRun(e, st.ctrl, sc.targets, leaf.depths, leaf.default, 0, Top(st, 0), s);
    MatchPop(e, c, ts, s, 1, t);
    var u := W.Operand(c, 0).u;
    TableTypes(leaf.depths, leaf.default, u, sc.labels, ts[..|ts| - 1]);
    MatchBottom(e, c.(stack := W.Pop(c, 1)), ts[..|ts| - 1], sc.labels[TableTarget(leaf.depths, leaf.default, u)], t);
  }

  lemma {:induction false} TableTypes(ls: seq<nat>, dflt: nat, u: nat, labels: seq<seq<W.ValType>>, ts: seq<W.ValType>)
    requires W.Reaches(dflt, ts, labels) && !(exists k :: 0 <= k < |ls| && !W.Reaches(ls[k], ts, labels))
    ensures W.Reaches(TableTarget(ls, dflt, u), ts, labels)
  {
    if u < |ls| { assert W.Reaches(ls[u], ts, labels); }
  }

  /** Every unstructured instruction without a shift. */
  lemma {:induction false} LeafSimulated(x: Case) returns (n: nat, t: State)
    requires Ready(x) && !(x.leaf.Bin? && W.IsShift(x.leaf.bin))
    ensures Done(x, n, t) && (x.leaf.Br? || x.leaf.BrIf? || x.leaf.BrTable? ==> n >= 1)
  {
    hide Ready, Done;
    match x.leaf
    case Nop => n, t := SimpleLeaf(x);
    case Unreachable => n, t := SimpleLeaf(x);
    case Return => n, t := ReturnLeaf(x);
    case Drop => n, t := SimpleLeaf(x);
    case Select => n, t := SelectLeaf(x);
    case LocalGet(_) => n, t := LocalGetLeaf(x);
    case LocalSet(_) => n, t := LocalStoreLeaf(x);
    case LocalTee(_) => n, t := LocalStoreLeaf(x);
    case Const(_, _) => n, t := ConstLeaf(x);
    case Bin(_, _) => n, t := BinLeaf(x);
    case Rel(_, _) => n, t := RelLeaf(x);
    case Eqz(_) => n, t := EqzLeaf(x);
    case WrapI64 => n, t := MaskLeaf(x);
    case ExtendU => n, t := MaskLeaf(x);
    case ExtendS => n, t := ExtendLeaf(x);
    case Narrow(_, _) => n, t := NarrowLeaf(x);
    case Br(_) => n, t := BranchLeaf(x);
    case BrIf(_) => n, t := BranchLeaf(x);
    case BrTable(_, _) => n, t := TableLeaf(x);
  }
}
