/** The WebAssembly function translator: one pass over the instruction stream, keeping the
    depth of the operand stack, a stack of control frames and two label counters.

    Operand `k` of the stack lives in register `R(4 + k)`; locals live in the frame R29 points
    to, from word 2 on.  Instructions are already decoded here: reading their
    bytes is not modelled. */
module Translator {
  import opened Machine
  import opened Assembly
  import W = Wasm

  const FRAME_WORDS: int := 1024
  const OUTGOING_BASE: int := 896
  const MAX_CONTROLS: nat := 256

  /** The flat instruction stream of a function body. */
  datatype Op = Plain(leaf: W.Leaf) | OpBlock | OpLoop | OpIf | OpElse | OpEnd

  datatype Kind = FuncFrame | BlockFrame | LoopFrame | IfFrame

  datatype Frame = Frame(id: nat, kind: Kind, sawElse: bool)

  /** `ctrl` is innermost first; the source's `controls[control_depth - 1]` is `ctrl[0]`. */
  datatype TState = TState(depth: nat, labels: nat, shifts: nat, ctrl: seq<Frame>)

  /** `slots` counts parameters and locals. */
  datatype Func = Func(index: nat, slots: nat, hasResult: bool)

  type Output = Option<(seq<Line>, TState)>

  // ----- names -----

  function EndName(f: Func, fr: Frame): Name {
    if fr.kind.FuncFrame? then ReturnName(f) else Name("wasm_end", f.index, fr.id)
  }

  function ReturnName(f: Func): Name { Name("wasm_return", f.index, 0) }

  function StartName(f: Func, fr: Frame): Name { Name("wasm_start", f.index, fr.id) }

  function ElseName(f: Func, fr: Frame): Name { Name("wasm_else", f.index, fr.id) }

  /** Where a branch to the frame goes: a loop's start, any other frame's end. */
  function BranchName(f: Func, fr: Frame): Name {
    if fr.kind.LoopFrame? then StartName(f, fr) else EndName(f, fr)
  }

  // ----- registers and small pieces -----

  /** The register of the operand `k` below the top: `R(3 + depth - k)`. */
  function Top(ts: TState, k: nat): RegIx
    requires ts.depth <= 21 && k <= 2
  {
    3 + ts.depth - k
  }

  function PopOne(d: nat): nat { if d > 0 then d - 1 else d }

  function ConstLine(rd: RegIx, v: Imm64): Line {
    if -1024 <= v <= 1023 then LoadImm(rd, v) else Movi(rd, v)
  }

  function OpcodeFor(op: W.BinOp): Opcode {
    match op
    case Add => ADD
    case Sub => SUB
    case Mul => MUL
    case DivS => DIV
    case DivU => DIVU
    case RemS => REM
    case RemU => REMU
    case AndB => AND
    case OrB => OR
    case _ => XOR
  }

  /** Comparison opcode and whether the operands are exchanged. */
  function CompareFor(op: W.RelOp): (Opcode, bool) {
    match op
    case Eq => (CMPEQ, false)
    case Ne => (CMPNE, false)
    case LtS => (CMPLT, false)
    case LtU => (CMPLTU, false)
    case GtS => (CMPLT, true)
    case GtU => (CMPLTU, true)
    case LeS => (CMPLE, false)
    case LeU => (CMPLEU, false)
    case GeS => (CMPLE, true)
    case GeU => (CMPLEU, true)
  }

  datatype ShiftMode = ShiftLeft | ShiftRightU | ShiftRightS | RotateL | RotateR

  function ModeOf(op: W.BinOp): ShiftMode {
    match op
    case ShlB => ShiftLeft
    case ShrU => ShiftRightU
    case ShrS => ShiftRightS
    case Rotl => RotateL
    case _ => RotateR
  }

  function ShiftName(part: string, f: Func, serial: nat): Name { Name("wasm_shift_" + part, f.index, serial) }

  /** `LI R28, -1; SHR R28, R28, 32; AND R27, R27, R28`, at width 32 only. */
  function Mask32(width: nat): seq<Line> {
    if width == 32 then [LoadImm(28, -1), RI(SHR, 28, 28, 32), RR(AND, 27, 27, 28)] else []
  }

  function ShiftBody(width: nat, mode: ShiftMode, f: Func, serial: nat): seq<Line>
    requires width >= 1
  {
    var nofill := ShiftName("nofill", f, serial);
    match mode
    case ShiftLeft => [RI(SHL, 27, 27, 1)]
    case ShiftRightU => [RI(SHR, 27, 27, 1)]
    case ShiftRightS =>
      [RI(SHR, 27, 27, 1), JumpZ(25, nofill), RI(BSET, 27, 27, width - 1), LabelDef(nofill)]
    case RotateL =>
      [RI(BTEST, 25, 27, width - 1), RI(SHL, 27, 27, 1), JumpZ(25, nofill), RI(BSET, 27, 27, 0),
       LabelDef(nofill)]
    case RotateR =>
      [RI(BTEST, 25, 27, 0), RI(SHR, 27, 27, 1), JumpZ(25, nofill), RI(BSET, 27, 27, width - 1),
       LabelDef(nofill)]
  }

  function ShiftHead(value: RegIx, count: RegIx, width: nat, mode: ShiftMode): seq<Line>
    requires 1 <= width <= 64
  {
    [Mov(26, count), Mov(27, value), LoadImm(28, width - 1), RR(AND, 26, 26, 28)] + Mask32(width) +
    if mode.ShiftRightS? then [RI(BTEST, 25, 27, 31)] else []
  }

  function ShiftLoop(width: nat, mode: ShiftMode, f: Func, serial: nat): seq<Line>
    requires 1 <= width <= 64
  {
    [LabelDef(ShiftName("loop", f, serial)), RR(CMPEQ, 28, 26, 0), JumpNZ(28, ShiftName("end", f, serial))] +
    ShiftBody(width, mode, f, serial) +
    [Dec(26), Jump(ShiftName("loop", f, serial)), LabelDef(ShiftName("end", f, serial))]
  }

  /** The loop emitted for a shift by a run-time count. */
  function VariableShift(dst: RegIx, value: RegIx, count: RegIx, width: nat, mode: ShiftMode, f: Func,
                         serial: nat): seq<Line>
    requires 1 <= width <= 64
  {
    ShiftHead(value, count, width, mode) + ShiftLoop(width, mode, f, serial) + Mask32(width) + [Mov(dst, 27)]
  }

  function NarrowName(done: bool, f: Func, serial: nat): Name {
    Name(if done then "wasm_sign_done" else "wasm_sign", f.index, serial)
  }

  function NarrowExtend(r: RegIx, bits: nat, f: Func, serial: nat): seq<Line>
    requires 1 <= bits <= 64
  {
    var sign, done := NarrowName(false, f, serial), NarrowName(true, f, serial);
    [LoadImm(28, -1), RI(SHR, 28, 28, 64 - bits), RR(AND, r, r, 28), RI(BTEST, 27, r, bits - 1),
     JumpNZ(27, sign), Jump(done), LabelDef(sign), LoadImm(28, -1), LoadImm(26, -1),
     RI(SHR, 26, 26, 64 - bits), RR(XOR, 28, 28, 26), RR(OR, r, r, 28), LabelDef(done)]
  }

  function ExtendName(done: bool, f: Func, serial: nat): Name {
    Name(if done then "wasm_extend_done" else "wasm_extend_sign", f.index, serial)
  }

  function ExtendSigned(r: RegIx, f: Func, serial: nat): seq<Line> {
    var sign, done := ExtendName(false, f, serial), ExtendName(true, f, serial);
    [LoadImm(28, -1), RI(SHR, 28, 28, 32), RR(AND, r, r, 28), RI(BTEST, 25, r, 31),
     JumpNZ(25, sign), Jump(done), LabelDef(sign), LoadImm(28, -1), RI(SHL, 28, 28, 32),
     RR(OR, r, r, 28), LabelDef(done)]
  }

  function SelectName(done: bool, f: Func, id: nat): Name {
    Name(if done then "wasm_select_done" else "wasm_select_false", f.index, id)
  }

  /** The compare-and-jump triples of br_table, from entry `k` on. */
  function TableLines(depths: seq<nat>, k: nat, selector: RegIx, f: Func, ctrl: seq<Frame>): seq<Line>
    requires k <= |depths| <= 0x1_0000_0000 && forall d :: d in depths ==> d < |ctrl|
    decreases |depths| - k
  {
    if k == |depths| then []
    else
      assert depths[k] in depths;
      [Movi(28, k), RR(CMPEQ, 28, selector, 28), JumpNZ(28, BranchName(f, ctrl[depths[k]]))]
         + TableLines(depths, k + 1, selector, f, ctrl)
  }

  // ----- one instruction -----

  function EmitLeaf(leaf: W.Leaf, ts: TState, f: Func): Output
    requires ts.depth <= 20
  {
    var d := ts.depth;
    match leaf
    case Nop => Some(([RI(NOP, 0, 0, 0)], ts))
    case Unreachable => Some(([RI(HALT, 0, 0, 0)], ts))
    case Return =>
      if f.hasResult && d == 0 then None
      else Some(((if f.hasResult then [Mov(7, Top(ts, 0))] else []) + [Jump(ReturnName(f))], ts.(depth := 0)))
    case Drop => if d == 0 then None else Some(([], ts.(depth := d - 1)))
    case Select =>
      if d < 3 then None
      else
        var no, done := SelectName(false, f, ts.labels), SelectName(true, f, ts.labels);
        Some(([JumpZ(Top(ts, 0), no), Jump(done), LabelDef(no), Mov(Top(ts, 2), Top(ts, 1)), LabelDef(done)],
              ts.(depth := d - 2, labels := ts.labels + 1)))
    case LocalGet(i) =>
      if i >= f.slots then None
      else
        var ts' := ts.(depth := d + 1);
        Some(([RI(LOAD, Top(ts', 0), 29, 2 + i)], ts'))
    case LocalSet(i) =>
      if i >= f.slots || d == 0 then None
      else Some(([RI(STORE, Top(ts, 0), 29, 2 + i)], ts.(depth := d - 1)))
    case LocalTee(i) =>
      if i >= f.slots || d == 0 then None else Some(([RI(STORE, Top(ts, 0), 29, 2 + i)], ts))
    case Const(_, v) =>
      var ts' := ts.(depth := d + 1);
      Some(([ConstLine(Top(ts', 0), v)], ts'))
    case Bin(ty, op) =>
      var ts' := ts.(depth := PopOne(d));
      if W.IsShift(op) then
        Some((VariableShift(Top(ts, 1), Top(ts, 1), Top(ts, 0), W.Width(ty), ModeOf(op), f, ts.shifts),
              ts'.(shifts := ts.shifts + 1)))
      else Some(([RR(OpcodeFor(op), Top(ts, 1), Top(ts, 1), Top(ts, 0))], ts'))
    case Rel(ty, op) =>
      var (code, swap) := CompareFor(op);
      Some(([if swap then RR(code, Top(ts, 1), Top(ts, 0), Top(ts, 1))
             else RR(code, Top(ts, 1), Top(ts, 1), Top(ts, 0))], ts.(depth := PopOne(d))))
    case Eqz(_) => Some(([RR(CMPEQ, Top(ts, 0), Top(ts, 0), 0)], ts))
    case WrapI64 => Some(([LoadImm(28, -1), RI(SHR, 28, 28, 32), RR(AND, Top(ts, 0), Top(ts, 0), 28)], ts))
    case ExtendU => Some(([LoadImm(28, -1), RI(SHR, 28, 28, 32), RR(AND, Top(ts, 0), Top(ts, 0), 28)], ts))
    case ExtendS => Some((ExtendSigned(Top(ts, 0), f, ts.shifts), ts.(shifts := ts.shifts + 1)))
    case Narrow(ty, bits) =>
      if bits !in {8, 16, 32} || (ty.T32? && bits == 32) then None
      else Some((NarrowExtend(Top(ts, 0), bits, f, ts.shifts), ts.(shifts := ts.shifts + 1)))
    case Br(l) =>
      if l >= |ts.ctrl| then None else Some(([Jump(BranchName(f, ts.ctrl[l]))], ts))
    case BrIf(l) =>
      if d == 0 || l >= |ts.ctrl| then None
      else Some(([Branch(BNE, Top(ts, 0), 0, BranchName(f, ts.ctrl[l]))], ts.(depth := d - 1)))
    case BrTable(ls, dflt) =>
      if d == 0 || |ls| > 0x1_0000_0000 || dflt >= |ts.ctrl| || !(forall l :: l in ls ==> l < |ts.ctrl|)
      then None
      else Some((TableLines(ls, 0, Top(ts, 0), f, ts.ctrl) + [Jump(BranchName(f, ts.ctrl[dflt]))],
                 ts.(depth := d - 1)))
  }

  function EmitOp(op: Op, ts: TState, f: Func): Output {
    if ts.depth > 20 then None
    else
      match op
      case Plain(leaf) => EmitLeaf(leaf, ts, f)
      case OpBlock => EmitOpen(BlockFrame, ts, f)
      case OpLoop => EmitOpen(LoopFrame, ts, f)
      case OpIf =>
        if ts.depth == 0 || |ts.ctrl| >= MAX_CONTROLS then None
        else
          var fr := Frame(ts.labels, IfFrame, false);
          Some(([Branch(BEQ, Top(ts, 0), 0, ElseName(f, fr))],
                ts.(depth := ts.depth - 1, labels := ts.labels + 1, ctrl := [fr] + ts.ctrl)))
      case OpElse =>
        if |ts.ctrl| <= 1 || !ts.ctrl[0].kind.IfFrame? || ts.ctrl[0].sawElse then None
        else
          var fr := ts.ctrl[0];
          Some(([Jump(EndName(f, fr)), LabelDef(ElseName(f, fr))],
                ts.(ctrl := [fr.(sawElse := true)] + ts.ctrl[1..])))
      case OpEnd =>
        if ts.ctrl == [] then None else Some((Closing(f, ts.ctrl[0]), ts.(ctrl := ts.ctrl[1..])))
  }

  function Closing(f: Func, fr: Frame): seq<Line> {
    if fr.kind.FuncFrame? then []
    else (if fr.kind.IfFrame? && !fr.sawElse then [LabelDef(ElseName(f, fr))] else []) + [LabelDef(EndName(f, fr))]
  }

  function EmitOpen(kind: Kind, ts: TState, f: Func): Output {
    if |ts.ctrl| >= MAX_CONTROLS then None
    else
      var fr := Frame(ts.labels, kind, false);
      Some((if kind.LoopFrame? then [LabelDef(StartName(f, fr))] else [],
            ts.(labels := ts.labels + 1, ctrl := [fr] + ts.ctrl)))
  }

  /** Everything the loop over the body emits. */
  function EmitAll(ops: seq<Op>, ts: TState, f: Func): Output {
    if ops == [] then Some(([], ts))
    else
      match EmitOp(ops[0], ts, f)
      case None => None
      case Some(first) =>
        match EmitAll(ops[1..], first.1, f)
        case None => None
        case Some(rest) => Some((first.0 + rest.0, rest.1))
  }

  // ----- the whole function -----

  const MAX_PARAMS: nat := 16

  function ParamLines(i: nat, count: nat): seq<Line>
    requires i <= count <= MAX_PARAMS
    decreases count - i
  {
    if i == count then []
    else
      (if i < 4 then [RI(STORE, i + 1, 29, 2 + i)]
       else [Movi(28, FRAME_WORDS + OUTGOING_BASE + i), RR(ADD, 28, 31, 28), RI(LOAD, 28, 28, 0),
             RI(STORE, 28, 29, 2 + i)])
      + ParamLines(i + 1, count)
  }

  function EntryName(f: Func): Name { Name("wasm_func", f.index, 0) }

  const ENTER: seq<Line> :=
    [LoadImm(28, -1024), RR(ADD, 31, 31, 28), RI(STORE, 30, 31, 0), RI(STORE, 29, 31, 1), Mov(29, 31)]

  const LEAVE: seq<Line> :=
    [RI(LOAD, 30, 29, 0), RI(LOAD, 28, 29, 1), Movi(1, 1024), RR(ADD, 31, 31, 1), Mov(29, 28), RI(JALR, 0, 30, 0)]

  function Start(): TState { TState(0, 1, 0, [Frame(0, FuncFrame, false)]) }

  function Translated(ops: seq<Op>, f: Func, params: nat): Option<seq<Line>> {
    if params > MAX_PARAMS then None
    else
      match EmitAll(ops, Start(), f)
      case None => None
      case Some(out) =>
        Some([LabelDef(EntryName(f))] + ENTER + ParamLines(0, params) + out.0 + [LabelDef(ReturnName(f))] + LEAVE)
  }

  lemma {:induction false} EmitAppend(a: seq<Op>, b: seq<Op>, ts: TState, f: Func)
    ensures EmitAll(a + b, ts, f)
         == match EmitAll(a, ts, f)
            case None => None
            case Some(x) =>
              match EmitAll(b, x.1, f)
              case None => None
              case Some(y) => Some((x.0 + y.0, y.1))
    decreases |a|
  {
    hide EmitOp;
    if a == [] {
      assert a + b == b;
      if EmitAll(b, ts, f).Some? { assert [] + EmitAll(b, ts, f).value.0 == EmitAll(b, ts, f).value.0; }
    } else {
      assert (a + b)[1..] == a[1..] + b;
      var e := EmitOp(a[0], ts, f);
      if e.Some? {
        EmitAppend(a[1..], b, e.value.1, f);
        var x := EmitAll(a[1..], e.value.1, f);
        if x.Some? && EmitAll(b, x.value.1, f).Some? {
          var y := EmitAll(b, x.value.1, f).value.0;
          assert e.value.0 + (x.value.0 + y) == (e.value.0 + x.value.0) + y;
        }
      }
    }
  }

  /** The translator's loop over a function body. */
  method TranslateFunction(ops: seq<Op>, f: Func, params: nat) returns (r: Option<seq<Line>>)
    ensures r == Translated(ops, f, params)
  {
    hide EmitOp;
    var out := [LabelDef(EntryName(f))] + ENTER;
    if params > MAX_PARAMS { return None; }
    var i := 0;
    while i < params
      invariant 0 <= i <= params
      invariant out + ParamLines(i, params) == [LabelDef(EntryName(f))] + ENTER + ParamLines(0, params)
    {
      if i < 4 {
        out := out + [RI(STORE, i + 1, 29, 2 + i)];
      } else {
        out := out + [Movi(28, FRAME_WORDS + OUTGOING_BASE + i), RR(ADD, 28, 31, 28), RI(LOAD, 28, 28, 0),
                      RI(STORE, 28, 29, 2 + i)];
      }
      i := i + 1;
    }
    assert out + [] == out;
    ghost var head := out;
    var ts := Start();
    var pos := 0;
    assert ops[0..] == ops && out[|head|..] == [];
    ghost var all := EmitAll(ops, Start(), f);
    assert all.Some? ==> [] + all.value.0 == all.value.0;
    while pos < |ops|
      invariant 0 <= pos <= |ops|
      invariant head <= out
      invariant EmitAll(ops, Start(), f)
             == match EmitAll(ops[pos..], ts, f)
                case None => None
                case Some(x) => Some((out[|head|..] + x.0, x.1))
    {
      var e := EmitOp(ops[pos], ts, f);
      if e.None? { return None; }
      assert ops[pos..][1..] == ops[pos + 1..];
      ghost var x := EmitAll(ops[pos + 1..], e.value.1, f);
      assert x.Some? ==> out[|head|..] + (e.value.0 + x.value.0) == (out + e.value.0)[|head|..] + x.value.0;
      out := out + e.value.0;
      ts := e.value.1;
      pos := pos + 1;
    }
    assert ops[pos..] == [] && out == head + out[|head|..] && out[|head|..] + [] == out[|head|..];
    out := out + [LabelDef(ReturnName(f))] + LEAVE;
    return Some(out);
  }
}
