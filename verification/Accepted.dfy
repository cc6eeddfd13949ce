/** The assembler accepts what the WebAssembly translator prints. */
module Accepted {
  import opened Machine
  import opened Assembly
  import opened Translator
  import opened FreshLabels
  import Assembler
  import W = Wasm

  /** No line needs a label that might be missing. */
  predicate Free(code: seq<Line>) { forall k :: 0 <= k < |code| ==> !Assembler.NeedsLabel(code[k]) }

  /** The translator's own names do not look like the C compiler's. */
  predicate Ours(n: Name) { n.base != "" && n.base[0] == 'w' }

  predicate Jumps(line: Line) { line.Jump? || line.JumpZ? || line.JumpNZ? || line.Branch? }

  lemma OursFree(line: Line)
    requires Target(line).Some? ==> Jumps(line) && Ours(Target(line).value)
    ensures !Assembler.NeedsLabel(line)
  {
  }

  lemma FreeJoin(a: seq<Line>, b: seq<Line>)
    requires Free(a) && Free(b)
    ensures Free(a + b)
  {
  }

  lemma Names(f: Func, fr: Frame, part: string, n: nat, done: bool)
    ensures Ours(EndName(f, fr)) && Ours(ReturnName(f)) && Ours(StartName(f, fr)) && Ours(ElseName(f, fr))
    ensures Ours(BranchName(f, fr)) && Ours(ShiftName(part, f, n)) && Ours(NarrowName(done, f, n))
    ensures Ours(ExtendName(done, f, n)) && Ours(SelectName(done, f, n)) && Ours(EntryName(f))
  {
  }

  lemma MaskFree(width: nat)
    ensures Free(Mask32(width))
  {
  }

  lemma ShiftFree(dst: RegIx, value: RegIx, count: RegIx, width: nat, mode: ShiftMode, f: Func, n: nat)
    requires 1 <= width <= 64
    ensures Free(VariableShift(dst, value, count, width, mode, f, n))
  {
    hide ShiftName, ShiftBody, Mask32, Assembler.NeedsLabel;
    var fr := Frame(0, FuncFrame, false);
    Names(f, fr, "loop", n, true);
    Names(f, fr, "end", n, true);
    MaskFree(width);
    BodyFree(width, mode, f, n);
    HeadFree(value, count, width, mode);
    var a := [LabelDef(ShiftName("loop", f, n)), RR(CMPEQ, 28, 26, 0), JumpNZ(28, ShiftName("end", f, n))];
    var b := [Dec(26), Jump(ShiftName("loop", f, n)), LabelDef(ShiftName("end", f, n))];
    forall k | 0 <= k < 3 ensures !Assembler.NeedsLabel(a[k]) && !Assembler.NeedsLabel(b[k]) {
      OursFree(a[k]);
      OursFree(b[k]);
    }
    FreeJoin(a, ShiftBody(width, mode, f, n));
    FreeJoin(a + ShiftBody(width, mode, f, n), b);
    FreeJoin(ShiftHead(value, count, width, mode), ShiftLoop(width, mode, f, n));
    FreeJoin(ShiftHead(value, count, width, mode) + ShiftLoop(width, mode, f, n), Mask32(width));
    OursFree(Mov(dst, 27));
    FreeJoin(ShiftHead(value, count, width, mode) + ShiftLoop(width, mode, f, n) + Mask32(width), [Mov(dst, 27)]);
  }

  lemma HeadFree(value: RegIx, count: RegIx, width: nat, mode: ShiftMode)
    requires 1 <= width <= 64
    ensures Free(ShiftHead(value, count, width, mode))
  {
  }

  lemma BodyFree(width: nat, mode: ShiftMode, f: Func, n: nat)
    requires width >= 1
    ensures Free(ShiftBody(width, mode, f, n))
  {
    hide ShiftName;
    Names(f, Frame(0, FuncFrame, false), "nofill", n, true);
    match mode
    case ShiftLeft =>
    case ShiftRightU =>
    case ShiftRightS =>
    case RotateL =>
    case RotateR =>
  }

  lemma NarrowFree(r: RegIx, bits: nat, f: Func, n: nat)
    requires 1 <= bits <= 64
    ensures Free(NarrowExtend(r, bits, f, n)) && Free(ExtendSigned(r, f, n))
  {
    hide NarrowName, ExtendName;
    Names(f, Frame(0, FuncFrame, false), "", n, true);
    Names(f, Frame(0, FuncFrame, false), "", n, false);
  }

  lemma {:induction false} TableFree(depths: seq<nat>, k: nat, selector: RegIx, f: Func, ctrl: seq<Frame>)
    requires k <= |depths| <= 0x1_0000_0000 && forall d :: d in depths ==> d < |ctrl|
    ensures Free(TableLines(depths, k, selector, f, ctrl))
    decreases |depths| - k
  {
    if k < |depths| {
      hide BranchName;
      assert depths[k] in depths;
      Names(f, ctrl[depths[k]], "", 0, true);
      TableFree(depths, k + 1, selector, f, ctrl);
    }
  }

  lemma LeafFree(leaf: W.Leaf, ts: TState, f: Func)
    requires ts.depth <= 20 && EmitLeaf(leaf, ts, f).Some?
    ensures Free(EmitLeaf(leaf, ts, f).value.0)
  {
    if leaf.BrTable? || leaf.Br? || leaf.BrIf? { BranchFree(leaf, ts, f); return; }
    hide VariableShift, NarrowExtend, ExtendSigned, TableLines, BranchName, ReturnName, SelectName, ConstLine;
    var fr0 := Frame(0, FuncFrame, false);
    Names(f, fr0, "", ts.labels, true);
    Names(f, fr0, "", ts.labels, false);
    match leaf
    case Const(_, v) => ConstFree(Top(ts.(depth := ts.depth + 1), 0), v);
    case Bin(ty, op) =>
      if W.IsShift(op) {
        ShiftFree(Top(ts, 1), Top(ts, 1), Top(ts, 0), W.Width(ty), ModeOf(op), f, ts.shifts);
      }
    case ExtendS => NarrowFree(Top(ts, 0), 8, f, ts.shifts);
    case Narrow(_, bits) => NarrowFree(Top(ts, 0), bits, f, ts.shifts);
    case _ =>
  }

  lemma BranchFree(leaf: W.Leaf, ts: TState, f: Func)
    requires ts.depth <= 20 && EmitLeaf(leaf, ts, f).Some? && (leaf.BrTable? || leaf.Br? || leaf.BrIf?)
    ensures Free(EmitLeaf(leaf, ts, f).value.0)
  {
    hide VariableShift, NarrowExtend, ExtendSigned, TableLines, BranchName, ReturnName, SelectName, ConstLine;
    match leaf
    case Br(l) => Names(f, ts.ctrl[l], "", 0, true);
    case BrIf(l) => Names(f, ts.ctrl[l], "", 0, true);
    case BrTable(ls, dflt) =>
      TableFree(ls, 0, Top(ts, 0), f, ts.ctrl);
      Names(f, ts.ctrl[dflt], "", 0, true);
      OursFree(Jump(BranchName(f, ts.ctrl[dflt])));
      FreeJoin(TableLines(ls, 0, Top(ts, 0), f, ts.ctrl), [Jump(BranchName(f, ts.ctrl[dflt]))]);
  }

  lemma ConstFree(r: RegIx, v: Imm64)
    ensures Free([ConstLine(r, v)])
  {
  }

  lemma OpFree(op: Op, ts: TState, f: Func)
    requires EmitOp(op, ts, f).Some?
    ensures Free(EmitOp(op, ts, f).value.0)
  {
    hide EmitLeaf, ElseName, EndName, StartName;
    match op
    case Plain(leaf) => LeafFree(leaf, ts, f);
    case OpBlock =>
    case OpLoop =>
    case OpIf => Names(f, Frame(ts.labels, IfFrame, false), "", 0, true);
    case OpElse => Names(f, ts.ctrl[0], "", 0, true);
    case OpEnd =>
  }

  lemma {:induction false} AllFree(ops: seq<Op>, ts: TState, f: Func)
    requires EmitAll(ops, ts, f).Some?
    ensures Free(EmitAll(ops, ts, f).value.0)
    decreases |ops|
  {
    hide EmitOp, Free;
    if ops == [] {
      NothingFree();
    } else {
      OpFree(ops[0], ts, f);
      var first := EmitOp(ops[0], ts, f).value;
      AllFree(ops[1..], first.1, f);
      FreeJoin(first.0, EmitAll(ops[1..], first.1, f).value.0);
    }
  }

  lemma NothingFree()
    ensures Free([])
  {
  }

  lemma {:induction false} ParamsFree(i: nat, count: nat)
    requires i <= count <= MAX_PARAMS
    ensures Free(ParamLines(i, count))
    decreases count - i
  {
    if i < count { ParamsFree(i + 1, count); }
  }

  /** Within the assembler's limits on labels and words, a translated function is accepted. */
  lemma TranslatedAccepted(ops: seq<Op>, f: Func, params: nat)
    requires Translated(ops, f, params).Some?
    requires var lines := Translated(ops, f, params).value;
             Assembler.LabelCount(lines, |lines|) <= Assembler.MAX_LABELS &&
             AddressOf(lines, |lines|) <= Assembler.MAX_INSNS
    ensures Assembler.Assembled(Translated(ops, f, params).value).Some?
  {
    hide EmitAll, Free, AddressOf, Assembler.LabelCount, Assembler.Assembled, DistinctLabels, LineOf;
    var out := EmitAll(ops, Start(), f).value.0;
    var lines := Translated(ops, f, params).value;
    TranslatedDistinct(ops, f, params);
    AllFree(ops, Start(), f);
    ParamsFree(0, params);
    EndsFree(f);
    FreeJoin([LabelDef(EntryName(f))] + ENTER, ParamLines(0, params));
    FreeJoin([LabelDef(EntryName(f))] + ENTER + ParamLines(0, params), out);
    FreeJoin([LabelDef(EntryName(f))] + ENTER + ParamLines(0, params) + out, [LabelDef(ReturnName(f))] + LEAVE);
    assert lines == [LabelDef(EntryName(f))] + ENTER + ParamLines(0, params) + out
           + ([LabelDef(ReturnName(f))] + LEAVE);
    FreeResolved(lines);
    Assembler.AssembledExact(lines);
  }

  lemma EndsFree(f: Func)
    ensures Free([LabelDef(EntryName(f))] + ENTER) && Free([LabelDef(ReturnName(f))] + LEAVE)
  {
  }

  lemma FreeResolved(lines: seq<Line>)
    requires Free(lines)
    ensures Assembler.Resolved(lines)
  {
  }
}
