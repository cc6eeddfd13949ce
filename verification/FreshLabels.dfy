/** No label is defined twice in the translator's output, so the assembler accepts it and every
    branch has one place to go.

    Labels are numbered from two counters.  A name is issued when the counter has passed its
    number and the frame it may belong to no longer waits to print it; an instruction prints
    only names that were not issued before it and are issued after it. */
module FreshLabels {
  import opened Machine
  import opened Assembly
  import opened Labels
  import opened Translator
  import W = Wasm

  predicate Serial(base: string) {
    base in {"wasm_shift_loop", "wasm_shift_nofill", "wasm_shift_end", "wasm_sign", "wasm_sign_done",
             "wasm_extend_sign", "wasm_extend_done"}
  }

  predicate Numbered(base: string) {
    base in {"wasm_end", "wasm_start", "wasm_else", "wasm_select_false", "wasm_select_done"}
  }

  /** A name an open frame will still print. */
  predicate Awaited(n: Name, fr: Frame) {
    n.b == fr.id && ((n.base == "wasm_end" && !fr.kind.FuncFrame?) ||
                     (n.base == "wasm_else" && fr.kind.IfFrame? && !fr.sawElse))
  }

  predicate Issued(n: Name, st: TState, f: Func) {
    n.a == f.index &&
    ((Serial(n.base) && n.b < st.shifts) ||
     (Numbered(n.base) && n.b < st.labels && !(exists fr :: fr in st.ctrl && Awaited(n, fr))))
  }

  /** Frames carry their own numbers, inner ones larger. */
  predicate Stacked(st: TState) {
    (forall i :: 0 <= i < |st.ctrl| ==> st.ctrl[i].id < st.labels) &&
    forall i, j :: 0 <= i < j < |st.ctrl| ==> st.ctrl[i].id > st.ctrl[j].id
  }

  /** Between two translator states `code` prints each of its labels for the first time. */
  ghost predicate PrintsFresh(code: seq<Line>, st: TState, st': TState, f: Func) {
    DistinctLabels(code) && Stacked(st') &&
    (forall n :: Defines(code, n) ==> !Issued(n, st, f) && Issued(n, st', f)) &&
    forall n :: Issued(n, st, f) ==> Issued(n, st', f)
  }

  lemma {:induction false} JoinFresh(a: seq<Line>, b: seq<Line>, st: TState, st1: TState, st2: TState, f: Func)
    requires PrintsFresh(a, st, st1, f) && PrintsFresh(b, st1, st2, f)
    ensures PrintsFresh(a + b, st, st2, f)
  {
    hide Issued, Stacked, DistinctLabels;
    DistinctJoin(a, b);
    forall n | Defines(a + b, n) ensures !Issued(n, st, f) && Issued(n, st2, f) {
      assert Defines(a, n) || Defines(b, n);
    }
  }

  // ----- one instruction -----

  /** Code without labels. */
  lemma {:induction false} PlainFresh(code: seq<Line>, st: TState, st': TState, f: Func)
    requires Prints(code, {})
    requires Stacked(st) && st'.ctrl == st.ctrl && st'.labels == st.labels && st'.shifts == st.shifts
    ensures PrintsFresh(code, st, st', f)
  {
    forall n ensures !Defines(code, n) {
      assert forall k :: 0 <= k < |code| ==> code[k] != LabelDef(n);
    }
  }

  predicate AllSerial(names: set<Name>, f: Func, serial: nat) {
    forall n :: n in names ==> Serial(n.base) && n.a == f.index && n.b == serial
  }

  /** Code whose labels carry the next serial number. */
  lemma {:induction false} SerialFresh(code: seq<Line>, names: set<Name>, st: TState, st': TState, f: Func)
    requires Prints(code, names) && AllSerial(names, f, st.shifts) && Stacked(st)
    requires st'.ctrl == st.ctrl && st'.labels == st.labels && st'.shifts == st.shifts + 1
    ensures PrintsFresh(code, st, st', f)
  {
    hide DistinctLabels, Serial, Numbered, Awaited;
    BasesApart();
    forall n | Defines(code, n) ensures !Issued(n, st, f) && Issued(n, st', f) {
      assert n in names;
    }
  }

  lemma {:induction false} BasesApart()
    ensures forall b :: Serial(b) ==> !Numbered(b)
  {
    assert |"wasm_end"| == 8 && |"wasm_start"| == 10 && |"wasm_else"| == 9;
    assert |"wasm_select_false"| == 17 && |"wasm_select_done"| == 16;
    assert "wasm_sign"[5] != "wasm_else"[5] && "wasm_shift_nofill"[6] != "wasm_select_false"[6];
    assert "wasm_extend_sign"[5] != "wasm_select_done"[5];
  }

  lemma {:induction false} BodyPrints(width: nat, mode: ShiftMode, f: Func, serial: nat)
    requires width == 32 || width == 64
    ensures Prints(ShiftBody(width, mode, f, serial), {ShiftName("nofill", f, serial)})
  {
    hide ShiftName;
    match mode
    case ShiftLeft =>
    case ShiftRightU =>
    case ShiftRightS =>
    case RotateL =>
    case RotateR =>
  }

  lemma {:induction false} ShiftNames(f: Func, serial: nat)
    ensures var l, n, e := ShiftName("loop", f, serial), ShiftName("nofill", f, serial), ShiftName("end", f, serial);
            l != n && n != e && l != e && AllSerial({l, n, e}, f, serial)
  {
    assert ShiftName("loop", f, serial).base == "wasm_shift_loop";
    assert ShiftName("nofill", f, serial).base == "wasm_shift_nofill";
    assert ShiftName("end", f, serial).base == "wasm_shift_end";
    assert |"wasm_shift_loop"| == 15 && |"wasm_shift_nofill"| == 17 && |"wasm_shift_end"| == 14;
  }

  lemma {:induction false} ShiftPrints(dst: RegIx, value: RegIx, count: RegIx, width: nat, mode: ShiftMode, f: Func,
                                       serial: nat)
    requires width == 32 || width == 64
    ensures Prints(VariableShift(dst, value, count, width, mode, f, serial),
                   {ShiftName("loop", f, serial), ShiftName("nofill", f, serial), ShiftName("end", f, serial)})
  {
    hide Prints, ShiftName, ShiftBody;
    ShiftNames(f, serial);
    var l, n, e := ShiftName("loop", f, serial), ShiftName("nofill", f, serial), ShiftName("end", f, serial);
    var head, tail := ShiftHead(value, count, width, mode), Mask32(width) + [Mov(dst, 27)];
    var open := [LabelDef(l), RR(CMPEQ, 28, 26, 0), JumpNZ(28, e)];
    var close := [Dec(26), Jump(l), LabelDef(e)];
    var body := ShiftBody(width, mode, f, serial);
    NoLabels(head);
    NoLabels(tail);
    OneLabel(open, l, 0);
    OneLabel(close, e, 2);
    BodyPrints(width, mode, f, serial);
    PrintsJoin(open, body, {l}, {n});
    PrintsJoin(open + body, close, {l} + {n}, {e});
    PrintsJoin(head, open + body + close, {}, {l} + {n} + {e});
    PrintsJoin(head + (open + body + close), tail, {} + ({l} + {n} + {e}), {});
    assert {} + ({l} + {n} + {e}) + {} == {l, n, e};
    assert VariableShift(dst, value, count, width, mode, f, serial) == head + (open + body + close) + tail;
  }

  lemma {:induction false} TableHasNoLabels(ls: seq<nat>, k: nat, sel: RegIx, f: Func, ctrl: seq<Frame>)
    requires k <= |ls| <= 0x1_0000_0000 && forall d :: d in ls ==> d < |ctrl|
    ensures Prints(TableLines(ls, k, sel, f, ctrl), {})
    decreases |ls| - k
  {
    hide DistinctLabels, BranchName;
    if k == |ls| {
      NoLabels([]);
    } else {
      TableHasNoLabels(ls, k + 1, sel, f, ctrl);
      assert ls[k] in ls;
      var first := [Movi(28, k), RR(CMPEQ, 28, sel, 28), JumpNZ(28, BranchName(f, ctrl[ls[k]]))];
      NoLabels(first);
      PlainJoin(first, TableLines(ls, k + 1, sel, f, ctrl));
    }
  }

  lemma {:induction false} NarrowFresh(leaf: W.Leaf, st: TState, f: Func)
    requires st.depth <= 20 && Stacked(st) && EmitLeaf(leaf, st, f).Some? && (leaf.Narrow? || leaf.ExtendS?)
    ensures var out := EmitLeaf(leaf, st, f).value; PrintsFresh(out.0, st, out.1, f)
  {
    hide PrintsFresh, Stacked;
    var out := EmitLeaf(leaf, st, f).value;
    assert |"wasm_sign"| == 9 && |"wasm_sign_done"| == 14;
    assert |"wasm_extend_sign"| == 16 && "wasm_extend_sign"[12] != "wasm_extend_done"[12];
    var a, b := if leaf.Narrow? then NarrowName(false, f, st.shifts) else ExtendName(false, f, st.shifts),
                if leaf.Narrow? then NarrowName(true, f, st.shifts) else ExtendName(true, f, st.shifts);
    TwoLabels(out.0, a, b, 6, |out.0| - 1);
    SerialFresh(out.0, {a, b}, st, out.1, f);
  }

  lemma {:induction false} SelectFresh(st: TState, f: Func)
    requires st.depth <= 20 && Stacked(st) && EmitLeaf(W.Select, st, f).Some?
    ensures var out := EmitLeaf(W.Select, st, f).value; PrintsFresh(out.0, st, out.1, f)
  {
    hide DistinctLabels;
    var out := EmitLeaf(W.Select, st, f).value;
    var a, b := SelectName(false, f, st.labels), SelectName(true, f, st.labels);
    assert |"wasm_select_false"| == 17 && |"wasm_select_done"| == 16 && |"wasm_end"| == 8 && |"wasm_else"| == 9;
    BasesApart();
    TwoLabels(out.0, a, b, 2, 4);
    forall n | Defines(out.0, n) ensures !Issued(n, st, f) && Issued(n, out.1, f) {
      assert n == a || n == b;
    }
  }

  lemma {:induction false} LeafFresh(leaf: W.Leaf, st: TState, f: Func)
    requires st.depth <= 20 && Stacked(st) && EmitLeaf(leaf, st, f).Some?
    ensures var out := EmitLeaf(leaf, st, f).value; PrintsFresh(out.0, st, out.1, f)
  {
    hide PrintsFresh, Stacked, VariableShift, Prints, W.Width, TableLines, BranchName;
    var out := EmitLeaf(leaf, st, f).value;
    if leaf.Narrow? || leaf.ExtendS? {
      NarrowFresh(leaf, st, f);
    } else if leaf.Select? {
      SelectFresh(st, f);
    } else if leaf.Bin? && W.IsShift(leaf.bin) {
      WidthIs(leaf.ty);
      ShiftPrints(Top(st, 1), Top(st, 1), Top(st, 0), W.Width(leaf.ty), ModeOf(leaf.bin), f, st.shifts);
      ShiftNames(f, st.shifts);
      SerialFresh(out.0, {ShiftName("loop", f, st.shifts), ShiftName("nofill", f, st.shifts),
                          ShiftName("end", f, st.shifts)}, st, out.1, f);
    } else if leaf.BrTable? {
      TableHasNoLabels(leaf.depths, 0, Top(st, 0), f, st.ctrl);
      var last := [Jump(BranchName(f, st.ctrl[leaf.default]))];
      NoLabels(last);
      PlainJoin(TableLines(leaf.depths, 0, Top(st, 0), f, st.ctrl), last);
      PlainFresh(out.0, st, out.1, f);
    } else {
      NoLabels(out.0);
      PlainFresh(out.0, st, out.1, f);
    }
  }

  lemma {:induction false} WidthIs(ty: W.ValType)
    ensures W.Width(ty) == 32 || W.Width(ty) == 64
  {
  }

  /** Opening a frame issues its number; only a loop's start is printed at once. */
  lemma {:induction false} OpenFresh(code: seq<Line>, fr: Frame, st: TState, st': TState, f: Func)
    requires Stacked(st) && fr.id == st.labels && st'.labels == st.labels + 1 && st'.shifts == st.shifts
    requires st'.ctrl == [fr] + st.ctrl && (Prints(code, {}) || Prints(code, {StartName(f, fr)}))
    ensures PrintsFresh(code, st, st', f)
  {
    hide Serial, DistinctLabels;
    assert |"wasm_start"| == 10 && |"wasm_end"| == 8 && |"wasm_else"| == 9;
    BasesApart();
    forall n | Issued(n, st, f) ensures Issued(n, st', f) {
      assert forall fr' :: fr' in st'.ctrl && Awaited(n, fr') && !Serial(n.base) ==> fr' in st.ctrl;
    }
    forall n | Defines(code, n) ensures !Issued(n, st, f) && Issued(n, st', f) {
      assert n == StartName(f, fr);
    }
  }

  /** The innermost frame prints what it was waiting to print. */
  lemma {:induction false} CloseFresh(code: seq<Line>, names: set<Name>, st: TState, st': TState, f: Func)
    requires Stacked(st) && st.ctrl != [] && st'.labels == st.labels && st'.shifts == st.shifts
    requires st'.ctrl == st.ctrl[1..] ||
             (st'.ctrl == [st.ctrl[0].(sawElse := true)] + st.ctrl[1..])
    requires Prints(code, names)
    requires forall n :: n in names ==>
               n.a == f.index && Awaited(n, st.ctrl[0]) &&
               (st'.ctrl == st.ctrl[1..] || !Awaited(n, st.ctrl[0].(sawElse := true)))
    ensures PrintsFresh(code, st, st', f)
  {
    hide Serial, DistinctLabels;
    BasesApart();
    assert Stacked(st');
    forall n | Issued(n, st, f) ensures Issued(n, st', f) {
      forall fr | fr in st'.ctrl && Numbered(n.base) ensures !Awaited(n, fr) {
        if fr !in st.ctrl { assert fr == st.ctrl[0].(sawElse := true); assert st.ctrl[0] in st.ctrl; }
      }
    }
    forall n | Defines(code, n) ensures !Issued(n, st, f) && Issued(n, st', f) {
      assert n in names && Numbered(n.base) && st.ctrl[0] in st.ctrl;
      forall fr | fr in st'.ctrl ensures !Awaited(n, fr) {
        if fr in st.ctrl[1..] {
          var k :| 0 <= k < |st.ctrl[1..]| && st.ctrl[1..][k] == fr;
          assert st.ctrl[0].id > st.ctrl[k + 1].id;
        }
      }
    }
  }

  lemma {:induction false} EndFresh(st: TState, f: Func)
    requires Stacked(st) && st.ctrl != []
    ensures PrintsFresh(Closing(f, st.ctrl[0]), st, st.(ctrl := st.ctrl[1..]), f)
  {
    hide PrintsFresh, Stacked;
    var fr := st.ctrl[0];
    var code, st' := Closing(f, fr), st.(ctrl := st.ctrl[1..]);
    assert |"wasm_end"| == 8 && |"wasm_else"| == 9;
    if fr.kind.FuncFrame? {
      NoLabels(code);
      CloseFresh(code, {}, st, st', f);
    } else if fr.kind.IfFrame? && !fr.sawElse {
      TwoLabels(code, ElseName(f, fr), EndName(f, fr), 0, 1);
      CloseFresh(code, {ElseName(f, fr), EndName(f, fr)}, st, st', f);
    } else {
      OneLabel(code, EndName(f, fr), 0);
      CloseFresh(code, {EndName(f, fr)}, st, st', f);
    }
  }

  lemma {:induction false} OpFresh(op: Op, st: TState, f: Func)
    requires Stacked(st) && EmitOp(op, st, f).Some?
    ensures var out := EmitOp(op, st, f).value; PrintsFresh(out.0, st, out.1, f)
  {
    hide PrintsFresh, Stacked, EmitLeaf, Prints;
    var out := EmitOp(op, st, f).value;
    match op
    case Plain(leaf) => LeafFresh(leaf, st, f);
    case OpBlock => NoLabels(out.0); OpenFresh(out.0, out.1.ctrl[0], st, out.1, f);
    case OpLoop =>
      OneLabel(out.0, StartName(f, out.1.ctrl[0]), 0);
      OpenFresh(out.0, out.1.ctrl[0], st, out.1, f);
    case OpIf => NoLabels(out.0); OpenFresh(out.0, out.1.ctrl[0], st, out.1, f);
    case OpElse =>
      assert |"wasm_end"| == 8 && |"wasm_else"| == 9;
      OneLabel(out.0, ElseName(f, st.ctrl[0]), 1);
      CloseFresh(out.0, {ElseName(f, st.ctrl[0])}, st, out.1, f);
    case OpEnd => EndFresh(st, f);
  }

  // ----- a whole body -----

  lemma {:induction false} BodyFresh(ops: seq<Op>, st: TState, f: Func)
    requires Stacked(st) && EmitAll(ops, st, f).Some?
    ensures var out := EmitAll(ops, st, f).value; PrintsFresh(out.0, st, out.1, f)
    decreases |ops|
  {
    hide Issued, DistinctLabels, EmitOp;
    if ops == [] {
      assert forall n :: !Defines([], n);
      NoLabels([]);
    } else {
      OpFresh(ops[0], st, f);
      var first := EmitOp(ops[0], st, f).value;
      BodyFresh(ops[1..], first.1, f);
      var rest := EmitAll(ops[1..], first.1, f).value;
      JoinFresh(first.0, rest.0, st, first.1, rest.1, f);
    }
  }

  lemma {:induction false} ParamsPrintNothing(i: nat, count: nat)
    requires i <= count <= MAX_PARAMS
    ensures Prints(ParamLines(i, count), {})
    decreases count - i
  {
    hide DistinctLabels;
    if i == count {
      NoLabels([]);
    } else {
      ParamsPrintNothing(i + 1, count);
      var first := ParamLines(i, count)[..|ParamLines(i, count)| - |ParamLines(i + 1, count)|];
      assert ParamLines(i, count) == first + ParamLines(i + 1, count);
      NoLabels(first);
      PlainJoin(first, ParamLines(i + 1, count));
    }
  }

  /** The translator never defines a label twice, whatever the body. */
  lemma {:induction false} TranslatedDistinct(ops: seq<Op>, f: Func, params: nat)
    requires Translated(ops, f, params).Some?
    ensures DistinctLabels(Translated(ops, f, params).value)
  {
    hide EmitAll, DistinctLabels, Issued;
    var out := EmitAll(ops, Start(), f).value;
    BodyFresh(ops, Start(), f);
    var head := [LabelDef(EntryName(f))] + ENTER;
    var tail := [LabelDef(ReturnName(f))] + LEAVE;
    OneLabel(head, EntryName(f), 0);
    OneLabel(tail, ReturnName(f), 0);
    ParamsPrintNothing(0, params);
    PrintsJoin(head, ParamLines(0, params), {EntryName(f)}, {});
    var front := head + ParamLines(0, params);
    IssuedBase(f, out.1);
    forall n | Defines(front, n) ensures !Defines(out.0, n) { assert n == EntryName(f); }
    DistinctJoin(front, out.0);
    forall n | Defines(front + out.0, n) ensures !Defines(tail, n) {
      assert Defines(front, n) || Defines(out.0, n);
      assert Defines(tail, n) ==> n == ReturnName(f);
    }
    DistinctJoin(front + out.0, tail);
    assert Translated(ops, f, params).value == front + out.0 + tail;
  }

  lemma {:induction false} IssuedBase(f: Func, st: TState)
    ensures !Issued(EntryName(f), st, f) && !Issued(ReturnName(f), st, f) && EntryName(f) != ReturnName(f)
  {
    assert "wasm_func"[5] == 'f' && "wasm_return"[5] == 'r';
    assert |"wasm_end"| == 8 && |"wasm_start"| == 10 && |"wasm_else"| == 9;
    assert |"wasm_select_false"| == 17 && |"wasm_select_done"| == 16;
    assert |"wasm_sign"| == 9 && "wasm_sign"[5] == 's' && "wasm_else"[5] == 'e';
  }
}
