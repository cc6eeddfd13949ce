/** Which function bodies the WebAssembly translator translates.

    The translator gives up where its count of operands is too high or too low, where control
    frames are nested too deeply, and where an index is out of range.  The counts are those of
    `Wasm.DeadSeq`, which follows the tree; the translator counts the same (`Translation.DeadState`). */
module Limits {
  import opened Machine
  import opened Assembly
  import opened Translator
  import opened Translation
  import W = Wasm

  // ----- room: operands and frames -----

  /** At most 20 operands are counted before every instruction, `else` and `end` included, and no frame is
      opened inside 256 others.  `d` operands are counted before the code, which lies in `frames` frames. */
  predicate RoomSeq(code: seq<W.Instr>, d: nat, frames: nat)
    decreases code, 0
  {
    code == [] || (RoomInstr(code[0], d, frames) && RoomSeq(code[1..], W.DeadInstr(code[0], d), frames))
  }

  predicate RoomInstr(i: W.Instr, d: nat, frames: nat)
    decreases i, 0
  {
    d <= 20 &&
    match i
    case Do(leaf) => leaf.BrTable? ==> |leaf.depths| <= 0x1_0000_0000
    case Block(body) => frames < 256 && RoomFrame(body, d, frames + 1)
    case Loop(body) => frames < 256 && RoomFrame(body, d, frames + 1)
    case If(thn) => frames < 256 && RoomFrame(thn, W.Less(d, 1), frames + 1)
    case IfElse(thn, els) =>
      frames < 256 && RoomFrame(thn, W.Less(d, 1), frames + 1) &&
      RoomFrame(els, W.DeadSeq(thn, W.Less(d, 1)), frames + 1)
  }

  /** The code of a frame and the `else` or `end` behind it. */
  predicate RoomFrame(body: seq<W.Instr>, d: nat, frames: nat)
    decreases body, 1
  {
    RoomSeq(body, d, frames) && W.DeadSeq(body, d) <= 20
  }

  // ----- operands and indices that are there -----

  /** Every instruction finds counted what the translator asks for, and every index is in range. */
  predicate FedSeq(code: seq<W.Instr>, d: nat, frames: nat, f: Func)
    decreases code
  {
    code == [] || (FedInstr(code[0], d, frames, f) && FedSeq(code[1..], W.DeadInstr(code[0], d), frames, f))
  }

  predicate FedInstr(i: W.Instr, d: nat, frames: nat, f: Func)
    decreases i
  {
    match i
    case Do(leaf) => FedLeaf(leaf, d, frames, f)
    case Block(body) => FedSeq(body, d, frames + 1, f)
    case Loop(body) => FedSeq(body, d, frames + 1, f)
    case If(thn) => d >= 1 && FedSeq(thn, d - 1, frames + 1, f)
    case IfElse(thn, els) =>
      d >= 1 && FedSeq(thn, d - 1, frames + 1, f) && FedSeq(els, W.DeadSeq(thn, d - 1), frames + 1, f)
  }

  predicate FedLeaf(leaf: W.Leaf, d: nat, frames: nat, f: Func) {
    match leaf
    case Return => f.hasResult ==> d >= 1
    case Drop => d >= 1
    case Select => d >= 3
    case LocalGet(i) => i < f.slots
    case LocalSet(i) => i < f.slots && d >= 1
    case LocalTee(i) => i < f.slots && d >= 1
    case Narrow(ty, bits) => bits == 8 || bits == 16 || (bits == 32 && ty.T64?)
    case Br(l) => l < frames
    case BrIf(l) => d >= 1 && l < frames
    case BrTable(ls, l) => d >= 1 && l < frames && forall k :: k in ls ==> k < frames
    case _ => true
  }

  // ----- what the translator takes -----

  lemma LeafTaken(leaf: W.Leaf, st: TState, f: Func)
    ensures EmitOp(Translator.Plain(leaf), st, f).Some?
       <==> RoomInstr(W.Do(leaf), st.depth, |st.ctrl|) && FedLeaf(leaf, st.depth, |st.ctrl|, f)
  {
    hide VariableShift, NarrowExtend, ExtendSigned, TableLines, ConstLine, OpcodeFor, CompareFor, BranchName;
  }

  lemma OpTaken(op: Op, st: TState, f: Func)
    ensures op == OpBlock || op == OpLoop ==> (EmitOp(op, st, f).Some? <==> st.depth <= 20 && |st.ctrl| < 256)
    ensures op == OpIf ==> (EmitOp(op, st, f).Some? <==> 1 <= st.depth <= 20 && |st.ctrl| < 256)
    ensures op == OpBlock || op == OpLoop || op == OpIf ==> EmitOp(op, st, f).Some? ==>
              var t := EmitOp(op, st, f).value.1;
              |t.ctrl| == |st.ctrl| + 1 && t.ctrl[1..] == st.ctrl && !t.ctrl[0].sawElse &&
              (op == OpIf <==> t.ctrl[0].kind.IfFrame?) && t.depth == st.depth - if op == OpIf then 1 else 0
    ensures op == OpEnd ==> (EmitOp(op, st, f).Some? <==> st.depth <= 20 && st.ctrl != [])
    ensures op == OpElse && |st.ctrl| >= 2 && st.ctrl[0].kind.IfFrame? && !st.ctrl[0].sawElse ==>
              (EmitOp(op, st, f).Some? <==> st.depth <= 20) &&
              (EmitOp(op, st, f).Some? ==> EmitOp(op, st, f).value.1.depth == st.depth &&
                                           |EmitOp(op, st, f).value.1.ctrl| == |st.ctrl|)
  {
  }

  /** Code in a frame is translated exactly when its parts are. */
  lemma {:induction false} SplitTaken(op: Op, body: seq<Op>, tail: seq<Op>, st: TState, f: Func)
    ensures EmitAll([op] + (body + tail), st, f).Some?
       <==> EmitOp(op, st, f).Some? && EmitAll(body, EmitOp(op, st, f).value.1, f).Some? &&
            EmitAll(tail, EmitAll(body, EmitOp(op, st, f).value.1, f).value.1, f).Some?
  {
    hide EmitOp, EmitAll;
    EmitAppend([op], body + tail, st, f);
    OneTaken(op, st, f);
    if EmitOp(op, st, f).Some? { EmitAppend(body, tail, EmitOp(op, st, f).value.1, f); }
  }

  lemma OneTaken(op: Op, st: TState, f: Func)
    ensures EmitAll([op], st, f).Some? == EmitOp(op, st, f).Some?
    ensures EmitOp(op, st, f).Some? ==> EmitAll([op], st, f).value.1 == EmitOp(op, st, f).value.1
  {
    hide EmitOp;
    assert [op][1..] == [];
    if EmitOp(op, st, f).Some? { assert EmitAll([], EmitOp(op, st, f).value.1, f).Some?; }
  }

  /** All code, validated or not: it is translated exactly when there is room and it is fed. */
  lemma {:induction false} SeqTaken(code: seq<W.Instr>, st: TState, f: Func)
    requires st.ctrl != []
    ensures EmitAll(Flatten(code), st, f).Some?
       <==> RoomSeq(code, st.depth, |st.ctrl|) && FedSeq(code, st.depth, |st.ctrl|, f)
    decreases code, 0
  {
    hide EmitOp, EmitAll, FlattenOne, W.DeadInstr, RoomInstr, FedInstr;
    if code == [] {
      assert EmitAll([], st, f).Some? by { NothingTaken(st, f); }
    } else {
      EmitAppend(FlattenOne(code[0]), Flatten(code[1..]), st, f);
      InstrTaken(code[0], st, f);
      if EmitAll(FlattenOne(code[0]), st, f).Some? {
        DeadInstrState(code[0], st, f);
        SeqTaken(code[1..], EmitAll(FlattenOne(code[0]), st, f).value.1, f);
      }
    }
  }

  lemma NothingTaken(st: TState, f: Func)
    ensures EmitAll([], st, f) == Some(([], st))
  {
  }

  lemma {:induction false} InstrTaken(i: W.Instr, st: TState, f: Func)
    requires st.ctrl != []
    ensures EmitAll(FlattenOne(i), st, f).Some?
       <==> RoomInstr(i, st.depth, |st.ctrl|) && FedInstr(i, st.depth, |st.ctrl|, f)
    decreases i, 2
  {
    hide EmitOp, EmitAll, Flatten, W.DeadSeq, RoomSeq, FedSeq, FedLeaf;
    match i
    case Do(leaf) =>
      OneTaken(Translator.Plain(leaf), st, f);
      LeafTaken(leaf, st, f);
    case Block(body) => FrameTaken(OpBlock, body, st, f);
    case Loop(body) => FrameTaken(OpLoop, body, st, f);
    case If(thn) => FrameTaken(OpIf, thn, st, f);
    case IfElse(thn, els) => ArmsTaken(thn, els, st, f);
  }

  lemma {:induction false} FrameTaken(op: Op, body: seq<W.Instr>, st: TState, f: Func)
    requires op == OpBlock || op == OpLoop || op == OpIf
    requires st.ctrl != []
    ensures var d := W.Less(st.depth, if op == OpIf then 1 else 0);
            EmitAll([op] + (Flatten(body) + [OpEnd]), st, f).Some?
            <==> st.depth <= 20 && (op == OpIf ==> st.depth >= 1) && |st.ctrl| < 256 &&
                 RoomFrame(body, d, |st.ctrl| + 1) && FedSeq(body, d, |st.ctrl| + 1, f)
    decreases body, 1
  {
    hide EmitOp, EmitAll, Flatten, W.DeadSeq, RoomSeq, FedSeq;
    SplitTaken(op, Flatten(body), [OpEnd], st, f);
    OpTaken(op, st, f);
    if EmitOp(op, st, f).Some? {
      var st1 := EmitOp(op, st, f).value.1;
      SeqTaken(body, st1, f);
      if EmitAll(Flatten(body), st1, f).Some? {
        DeadState(body, st1, f);
        var st2 := EmitAll(Flatten(body), st1, f).value.1;
        OneTaken(OpEnd, st2, f);
        OpTaken(OpEnd, st2, f);
      }
    }
  }

  lemma {:induction false} ArmsTaken(thn: seq<W.Instr>, els: seq<W.Instr>, st: TState, f: Func)
    requires st.ctrl != []
    ensures var d, n := W.Less(st.depth, 1), |st.ctrl| + 1;
            EmitAll([OpIf] + (Flatten(thn) + ([OpElse] + (Flatten(els) + [OpEnd]))), st, f).Some?
            <==> 1 <= st.depth <= 20 && |st.ctrl| < 256 &&
                 RoomFrame(thn, d, n) && FedSeq(thn, d, n, f) &&
                 RoomFrame(els, W.DeadSeq(thn, d), n) && FedSeq(els, W.DeadSeq(thn, d), n, f)
    decreases W.IfElse(thn, els), 1
  {
    hide EmitOp, EmitAll, Flatten, W.DeadSeq, RoomSeq, FedSeq;
    SplitTaken(OpIf, Flatten(thn), [OpElse] + (Flatten(els) + [OpEnd]), st, f);
    OpTaken(OpIf, st, f);
    if EmitOp(OpIf, st, f).Some? {
      var st1 := EmitOp(OpIf, st, f).value.1;
      SeqTaken(thn, st1, f);
      if EmitAll(Flatten(thn), st1, f).Some? {
        DeadState(thn, st1, f);
        var st2 := EmitAll(Flatten(thn), st1, f).value.1;
        SplitTaken(OpElse, Flatten(els), [OpEnd], st2, f);
        OpTaken(OpElse, st2, f);
        if EmitOp(OpElse, st2, f).Some? {
          var st3 := EmitOp(OpElse, st2, f).value.1;
          SeqTaken(els, st3, f);
          if EmitAll(Flatten(els), st3, f).Some? {
            DeadState(els, st3, f);
            var st4 := EmitAll(Flatten(els), st3, f).value.1;
            OneTaken(OpEnd, st4, f);
            OpTaken(OpEnd, st4, f);
          }
        }
      }
    }
  }

  // ----- validated code is fed, except where control does not come -----

  /** Code that control does not reach is not validated; there the translator's demands remain. */
  predicate LostSeq(code: seq<W.Instr>, h: W.Height, labels: seq<seq<W.ValType>>, ctx: W.Context, f: Func)
    decreases code, 0
  {
    code != [] ==>
      LostInstr(code[0], h, labels, ctx, f) &&
      match W.Check(code[0], h, labels, ctx)
      case None => true
      case Some(h1) => LostSeq(code[1..], h1, labels, ctx, f)
  }

  predicate LostInstr(i: W.Instr, h: W.Height, labels: seq<seq<W.ValType>>, ctx: W.Context, f: Func)
    decreases i, 0
  {
    if h.Dead? then FedInstr(i, h.count, |labels|, f)
    else
      match i
      case Do(_) => true
      case Block(body) => LostSeq(body, h, [h.ts] + labels, ctx, f)
      case Loop(body) => LostSeq(body, h, [h.ts] + labels, ctx, f)
      case If(thn) => h.ts != [] ==> LostArm(thn, h, labels, ctx, f)
      case IfElse(thn, els) => h.ts != [] ==> LostArm(thn, h, labels, ctx, f) && LostArm(els, h, labels, ctx, f)
  }

  predicate LostArm(arm: seq<W.Instr>, h: W.Height, labels: seq<seq<W.ValType>>, ctx: W.Context, f: Func)
    requires h.Live? && h.ts != []
    decreases arm, 1
  {
    var ts := h.ts[..|h.ts| - 1];
    LostSeq(arm, W.Live(ts), [ts] + labels, ctx, f)
  }

  /** The validator's operand count is the one computed from the tree alone. */
  lemma {:induction false} CheckCount(code: seq<W.Instr>, h: W.Height, labels: seq<seq<W.ValType>>, ctx: W.Context)
    requires W.CheckSeq(code, h, labels, ctx).Some?
    ensures W.Depth(W.CheckSeq(code, h, labels, ctx).value) == W.DeadSeq(code, W.Depth(h))
    decreases code
  {
    hide W.Check, W.DeadInstr;
    if code != [] {
      CheckInstrCount(code[0], h, labels, ctx);
      CheckCount(code[1..], W.Check(code[0], h, labels, ctx).value, labels, ctx);
    }
  }

  lemma {:induction false} CheckInstrCount(i: W.Instr, h: W.Height, labels: seq<seq<W.ValType>>, ctx: W.Context)
    requires W.Check(i, h, labels, ctx).Some?
    ensures W.Depth(W.Check(i, h, labels, ctx).value) == W.DeadInstr(i, W.Depth(h))
    decreases i
  {
    hide W.CheckSeq, W.DeadSeq, W.Aims, W.CheckLeaf, W.DeadLeaf;
    if h.Live? {
      match i
      case Do(leaf) => LeafCount(leaf, h.ts, labels, ctx);
      case Block(body) => CheckCount(body, h, [h.ts] + labels, ctx);
      case Loop(body) => CheckCount(body, h, [h.ts] + labels, ctx);
      case If(thn) =>
        var ts := h.ts[..|h.ts| - 1];
        CheckCount(thn, W.Live(ts), [ts] + labels, ctx);
      case IfElse(thn, els) =>
        var ts := h.ts[..|h.ts| - 1];
        CheckCount(thn, W.Live(ts), [ts] + labels, ctx);
        CheckCount(els, W.Live(ts), [ts] + labels, ctx);
    }
  }

  lemma LeafCount(leaf: W.Leaf, ts: seq<W.ValType>, labels: seq<seq<W.ValType>>, ctx: W.Context)
    requires W.CheckLeaf(leaf, ts, labels, ctx).Some?
    ensures |W.CheckLeaf(leaf, ts, labels, ctx).value| == W.DeadLeaf(leaf, |ts|)
  {
    hide W.FaithfulConst, W.Faithful, W.FaithfulShift, W.FaithfulRel;
  }

  lemma LeafFed(leaf: W.Leaf, ts: seq<W.ValType>, labels: seq<seq<W.ValType>>, ctx: W.Context, f: Func)
    requires W.CheckLeaf(leaf, ts, labels, ctx).Some?
    requires |ctx.locals| <= f.slots && ctx.result.Some? == f.hasResult
    ensures FedLeaf(leaf, |ts|, |labels|, f)
  {
    hide W.FaithfulConst, W.Faithful, W.FaithfulShift, W.FaithfulRel;
    if leaf.BrTable? {
      forall l | l in leaf.depths ensures l < |labels| {
        var k :| 0 <= k < |leaf.depths| && leaf.depths[k] == l;
        assert W.Reaches(leaf.depths[k], ts[..|ts| - 1], labels);
      }
    }
  }

  lemma {:induction false} ValidFed(code: seq<W.Instr>, h: W.Height, labels: seq<seq<W.ValType>>, ctx: W.Context,
                                    f: Func)
    requires W.CheckSeq(code, h, labels, ctx).Some?
    requires |ctx.locals| <= f.slots && ctx.result.Some? == f.hasResult
    ensures FedSeq(code, W.Depth(h), |labels|, f) <==> LostSeq(code, h, labels, ctx, f)
    decreases code, 0
  {
    hide W.Check, W.DeadInstr, FedInstr, LostInstr;
    if code != [] {
      CheckInstrCount(code[0], h, labels, ctx);
      ValidInstrFed(code[0], h, labels, ctx, f);
      ValidFed(code[1..], W.Check(code[0], h, labels, ctx).value, labels, ctx, f);
    }
  }

  lemma {:induction false} ValidInstrFed(i: W.Instr, h: W.Height, labels: seq<seq<W.ValType>>, ctx: W.Context, f: Func)
    requires W.Check(i, h, labels, ctx).Some?
    requires |ctx.locals| <= f.slots && ctx.result.Some? == f.hasResult
    ensures FedInstr(i, W.Depth(h), |labels|, f) <==> LostInstr(i, h, labels, ctx, f)
    decreases i, 2
  {
    hide W.CheckSeq, W.DeadSeq, W.Aims, W.CheckLeaf, FedLeaf, FedSeq, LostSeq;
    if h.Live? {
      match i
      case Do(leaf) => LeafFed(leaf, h.ts, labels, ctx, f);
      case Block(body) => ValidFed(body, h, [h.ts] + labels, ctx, f);
      case Loop(body) => ValidFed(body, h, [h.ts] + labels, ctx, f);
      case If(thn) => ValidFed(thn, W.Live(h.ts[..|h.ts| - 1]), [h.ts[..|h.ts| - 1]] + labels, ctx, f);
      case IfElse(thn, els) =>
        var ts := h.ts[..|h.ts| - 1];
        CheckCount(thn, W.Live(ts), [ts] + labels, ctx);
        ValidFed(thn, W.Live(ts), [ts] + labels, ctx, f);
        ValidFed(els, W.Live(ts), [ts] + labels, ctx, f);
    }
  }

  // ----- whole functions -----

  /** There is room for the body and the `end` behind it, and code that control does not reach is fed. */
  predicate Fits(code: seq<W.Instr>, ctx: W.Context, f: Func) {
    RoomFrame(code, 0, 1) && LostSeq(code, W.Live([]), [[]], ctx, f)
  }

  /** A validated body is translated exactly when it fits and has at most 16 parameters. */
  lemma {:induction false} TranslatedExact(code: seq<W.Instr>, ctx: W.Context, f: Func, params: nat)
    requires W.CheckSeq(code, W.Live([]), [[]], ctx).Some?
    requires |ctx.locals| <= f.slots && ctx.result.Some? == f.hasResult
    ensures Translated(Flatten(code) + [OpEnd], f, params).Some? <==> params <= 16 && Fits(code, ctx, f)
    ensures EmitAll(Flatten(code) + [OpEnd], Start(), f).Some? <==> Fits(code, ctx, f)
  {
    hide EmitOp, EmitAll, Flatten, W.CheckSeq, W.DeadSeq, RoomSeq, FedSeq, LostSeq;
    EmitAppend(Flatten(code), [OpEnd], Start(), f);
    SeqTaken(code, Start(), f);
    ValidFed(code, W.Live([]), [[]], ctx, f);
    if EmitAll(Flatten(code), Start(), f).Some? {
      DeadState(code, Start(), f);
      var st := EmitAll(Flatten(code), Start(), f).value.1;
      OneTaken(OpEnd, st, f);
      OpTaken(OpEnd, st, f);
    }
  }

  /** The lines of a function that the translator takes. */
  function Printed(code: seq<W.Instr>, ctx: W.Context, f: Func, params: nat): (lines: seq<Line>)
    requires W.CheckSeq(code, W.Live([]), [[]], ctx).Some? && Fits(code, ctx, f) && params <= 16
    requires |ctx.locals| <= f.slots && ctx.result.Some? == f.hasResult
    ensures Translated(Flatten(code) + [OpEnd], f, params) == Some(lines)
  {
    TranslatedExact(code, ctx, f, params);
    Translated(Flatten(code) + [OpEnd], f, params).value
  }

  /** `return` and then `drop`: whatever is behind a `return` is valid, but the translator counts no operand
      there and gives up. */
  lemma DropRefused(ctx: W.Context, f: Func, params: nat)
    requires ctx.result.None? && !f.hasResult && |ctx.locals| <= f.slots
    ensures var code := [W.Do(W.Return), W.Do(W.Drop)];
            W.CheckSeq(code, W.Live([]), [[]], ctx) == Some(W.Dead(0)) &&
            Translated(Flatten(code) + [OpEnd], f, params).None?
  {
    var code := [W.Do(W.Return), W.Do(W.Drop)];
    assert code[1..] == [W.Do(W.Drop)] && code[1..][1..] == [];
    assert W.Check(code[0], W.Live([]), [[]], ctx) == Some(W.Dead(0));
    assert W.Check(code[1], W.Dead(0), [[]], ctx) == Some(W.Dead(0));
    assert W.CheckSeq(code[1..], W.Dead(0), [[]], ctx) == Some(W.Dead(0));
    TranslatedExact(code, ctx, f, params);
    assert !FedInstr(W.Do(W.Drop), 0, 1, f);
    assert !LostSeq(code[1..], W.Dead(0), [[]], ctx, f);
  }
}
