/** The translator preserves meaning: every run of a checked body is carried out by the
    assembly it emits. */
module Translation {
  import opened Words
  import opened Machine
  import opened Assembly
  import E = Expansion
  import opened Translator
  import opened Runs
  import opened Simulation
  import opened Leaves
  import Shifts
  import W = Wasm

  // ----- the flat stream -----

  function Flatten(code: seq<W.Instr>): seq<Op>
    decreases code
  {
    if code == [] then [] else FlattenOne(code[0]) + Flatten(code[1..])
  }

  function FlattenOne(i: W.Instr): seq<Op>
    decreases i
  {
    match i
    case Do(leaf) => [Translator.Plain(leaf)]
    case Block(body) => [OpBlock] + (Flatten(body) + [OpEnd])
    case Loop(body) => [OpLoop] + (Flatten(body) + [OpEnd])
    case If(thn) => [OpIf] + (Flatten(thn) + [OpEnd])
    case IfElse(thn, els) => [OpIf] + (Flatten(thn) + ([OpElse] + (Flatten(els) + [OpEnd])))
  }

  // ----- what emission does to the translator's state -----

  lemma {:induction false} LeafState(leaf: W.Leaf, ts: seq<W.ValType>, labels: seq<seq<W.ValType>>, ctx: W.Context,
                                     st: TState, f: Func)
    requires st.depth == |ts| <= 20 && W.CheckLeaf(leaf, ts, labels, ctx).Some? && EmitLeaf(leaf, st, f).Some?
    ensures var st' := EmitLeaf(leaf, st, f).value.1;
            st'.depth == |W.CheckLeaf(leaf, ts, labels, ctx).value| && st'.ctrl == st.ctrl
  {
    hide VariableShift, NarrowExtend, ExtendSigned, TableLines, W.FaithfulConst, W.Faithful, W.FaithfulShift,
         W.FaithfulRel;
  }

  lemma {:induction false} EmitOne(op: Op, st: TState, f: Func)
    ensures EmitAll([op], st, f) == EmitOp(op, st, f)
  {
    hide EmitOp;
    var e := EmitOp(op, st, f);
    assert [op][1..] == [];
    if e.Some? { assert e.value.0 + [] == e.value.0; }
  }

  /** Splitting the emission of an operator, a body and what follows. */
  lemma {:induction false} EmitSplit(op: Op, body: seq<Op>, tail: seq<Op>, st: TState, f: Func)
    requires EmitAll([op] + (body + tail), st, f).Some?
    ensures EmitOp(op, st, f).Some? && EmitAll(body, EmitOp(op, st, f).value.1, f).Some?
    ensures EmitAll(tail, EmitAll(body, EmitOp(op, st, f).value.1, f).value.1, f).Some?
    ensures var a := EmitOp(op, st, f).value;
            var b := EmitAll(body, a.1, f).value;
            var c := EmitAll(tail, b.1, f).value;
            EmitAll([op] + (body + tail), st, f) == Some((a.0 + (b.0 + c.0), c.1))
  {
    hide EmitOp, EmitAll;
    EmitAppend([op], body + tail, st, f);
    EmitOne(op, st, f);
    EmitAppend(body, tail, EmitOp(op, st, f).value.1, f);
  }

  // ----- code that control does not reach -----

  lemma DeadLeafState(leaf: W.Leaf, st: TState, f: Func)
    requires st.depth <= 20 && EmitLeaf(leaf, st, f).Some?
    ensures EmitLeaf(leaf, st, f).value.1.depth == W.DeadLeaf(leaf, st.depth)
    ensures EmitLeaf(leaf, st, f).value.1.ctrl == st.ctrl
  {
    hide VariableShift, NarrowExtend, ExtendSigned, TableLines;
  }

  /** Whatever the code, the translator's count behind it is the one computed from the tree. */
  lemma {:induction false} DeadState(code: seq<W.Instr>, st: TState, f: Func)
    requires EmitAll(Flatten(code), st, f).Some?
    ensures var st' := EmitAll(Flatten(code), st, f).value.1;
            st'.depth == W.DeadSeq(code, st.depth) && st'.ctrl == st.ctrl
    decreases code, 0
  {
    hide EmitOp, FlattenOne, W.DeadInstr;
    if code != [] {
      EmitAppend(FlattenOne(code[0]), Flatten(code[1..]), st, f);
      DeadInstrState(code[0], st, f);
      DeadState(code[1..], EmitAll(FlattenOne(code[0]), st, f).value.1, f);
    }
  }

  lemma {:induction false} DeadInstrState(i: W.Instr, st: TState, f: Func)
    requires EmitAll(FlattenOne(i), st, f).Some?
    ensures var st' := EmitAll(FlattenOne(i), st, f).value.1;
            st'.depth == W.DeadInstr(i, st.depth) && st'.ctrl == st.ctrl
    decreases i, 2
  {
    hide EmitLeaf, EmitAll, Flatten, Closing, W.DeadLeaf, W.DeadSeq;
    match i
    case Do(leaf) =>
      EmitOne(Translator.Plain(leaf), st, f);
      DeadLeafState(leaf, st, f);
    case Block(body) => DeadBodyState(OpBlock, body, st, f);
    case Loop(body) => DeadBodyState(OpLoop, body, st, f);
    case If(thn) => DeadBodyState(OpIf, thn, st, f);
    case IfElse(thn, els) =>
      EmitSplit(OpIf, Flatten(thn), [OpElse] + (Flatten(els) + [OpEnd]), st, f);
      var st1 := EmitOp(OpIf, st, f).value.1;
      DeadState(thn, st1, f);
      var st2 := EmitAll(Flatten(thn), st1, f).value.1;
      EmitSplit(OpElse, Flatten(els), [OpEnd], st2, f);
      var st3 := EmitOp(OpElse, st2, f).value.1;
      DeadState(els, st3, f);
      EmitOne(OpEnd, EmitAll(Flatten(els), st3, f).value.1, f);
  }

  lemma {:induction false} DeadBodyState(op: Op, body: seq<W.Instr>, st: TState, f: Func)
    requires op == OpBlock || op == OpLoop || op == OpIf
    requires EmitAll([op] + (Flatten(body) + [OpEnd]), st, f).Some?
    ensures var st' := EmitAll([op] + (Flatten(body) + [OpEnd]), st, f).value.1;
            st'.depth == W.DeadSeq(body, W.Less(st.depth, if op == OpIf then 1 else 0)) && st'.ctrl == st.ctrl
    decreases body, 1
  {
    hide EmitLeaf, EmitAll, Flatten, Closing, W.DeadSeq;
    EmitSplit(op, Flatten(body), [OpEnd], st, f);
    var st1 := EmitOp(op, st, f).value.1;
    DeadState(body, st1, f);
    EmitOne(OpEnd, EmitAll(Flatten(body), st1, f).value.1, f);
  }

  // ----- code that control reaches -----

  lemma {:induction false} SeqState(code: seq<W.Instr>, h: W.Height, labels: seq<seq<W.ValType>>,
                                    ctx: W.Context, st: TState, f: Func)
    requires st.depth == W.Depth(h) && W.CheckSeq(code, h, labels, ctx).Some? && EmitAll(Flatten(code), st, f).Some?
    ensures var st' := EmitAll(Flatten(code), st, f).value.1;
            st'.depth == W.Depth(W.CheckSeq(code, h, labels, ctx).value) && st'.ctrl == st.ctrl
    decreases code, 0
  {
    hide EmitOp, FlattenOne, W.Check;
    if code != [] {
      EmitAppend(FlattenOne(code[0]), Flatten(code[1..]), st, f);
      InstrState(code[0], h, labels, ctx, st, f);
      SeqState(code[1..], W.Check(code[0], h, labels, ctx).value, labels, ctx,
               EmitAll(FlattenOne(code[0]), st, f).value.1, f);
    }
  }

  lemma {:induction false} InstrState(i: W.Instr, h: W.Height, labels: seq<seq<W.ValType>>,
                                      ctx: W.Context, st: TState, f: Func)
    requires st.depth == W.Depth(h) && W.Check(i, h, labels, ctx).Some? && EmitAll(FlattenOne(i), st, f).Some?
    ensures var st' := EmitAll(FlattenOne(i), st, f).value.1;
            st'.depth == W.Depth(W.Check(i, h, labels, ctx).value) && st'.ctrl == st.ctrl
    decreases i, 2
  {
    hide EmitLeaf, EmitAll, Flatten, FlattenOne, W.CheckLeaf, W.CheckSeq, W.Aims, W.DeadInstr;
    if h.Dead? {
      DeadInstrState(i, st, f);
    } else {
      match i
      case Do(leaf) =>
        FlattenLeaf(leaf);
        EmitOne(Translator.Plain(leaf), st, f);
        LeafState(leaf, h.ts, labels, ctx, st, f);
      case Block(body) => FlattenBody(i); BodyState(OpBlock, body, h.ts, labels, ctx, st, f);
      case Loop(body) => FlattenBody(i); BodyState(OpLoop, body, h.ts, labels, ctx, st, f);
      case If(thn) => FlattenBody(i); BodyState(OpIf, thn, h.ts[..|h.ts| - 1], labels, ctx, st, f);
      case IfElse(thn, els) => ArmsState(thn, els, h.ts, labels, ctx, st, f);
    }
  }

  lemma FlattenLeaf(leaf: W.Leaf)
    ensures FlattenOne(W.Do(leaf)) == [Translator.Plain(leaf)]
  {
  }

  lemma FlattenBody(i: W.Instr)
    requires i.Block? || i.Loop? || i.If?
    ensures FlattenOne(i) == if i.Block? then [OpBlock] + (Flatten(i.body) + [OpEnd])
                             else if i.Loop? then [OpLoop] + (Flatten(i.body) + [OpEnd])
                             else [OpIf] + (Flatten(i.thn) + [OpEnd])
  {
  }

  lemma {:induction false} ArmsState(thn: seq<W.Instr>, els: seq<W.Instr>, ts: seq<W.ValType>,
                                     labels: seq<seq<W.ValType>>, ctx: W.Context, st: TState, f: Func)
    requires st.depth == |ts| && W.Check(W.IfElse(thn, els), W.Live(ts), labels, ctx).Some?
    requires EmitAll(FlattenOne(W.IfElse(thn, els)), st, f).Some?
    ensures var st' := EmitAll(FlattenOne(W.IfElse(thn, els)), st, f).value.1;
            st'.depth == W.Depth(W.Check(W.IfElse(thn, els), W.Live(ts), labels, ctx).value) && st'.ctrl == st.ctrl
    decreases W.IfElse(thn, els), 1
  {
    hide EmitLeaf, EmitAll, Flatten, W.CheckLeaf, W.CheckSeq, W.Aims;
    var ts' := ts[..|ts| - 1];
    EmitSplit(OpIf, Flatten(thn), [OpElse] + (Flatten(els) + [OpEnd]), st, f);
    var st1 := EmitOp(OpIf, st, f).value.1;
    SeqState(thn, W.Live(ts'), [ts'] + labels, ctx, st1, f);
    var st2 := EmitAll(Flatten(thn), st1, f).value.1;
    EmitSplit(OpElse, Flatten(els), [OpEnd], st2, f);
    var st3 := EmitOp(OpElse, st2, f).value.1;
    SeqState(els, W.Live(ts'), [ts'] + labels, ctx, st3, f);
    EmitOne(OpEnd, EmitAll(Flatten(els), st3, f).value.1, f);
  }

  lemma {:induction false} BodyState(op: Op, body: seq<W.Instr>, ts: seq<W.ValType>, labels: seq<seq<W.ValType>>,
                                     ctx: W.Context, st: TState, f: Func)
    requires op == OpBlock || op == OpLoop || op == OpIf
    requires st.depth == |ts| + if op == OpIf then 1 else 0
    requires W.CheckSeq(body, W.Live(ts), [ts] + labels, ctx).Some?
    requires EmitAll([op] + (Flatten(body) + [OpEnd]), st, f).Some?
    ensures var st' := EmitAll([op] + (Flatten(body) + [OpEnd]), st, f).value.1;
            st'.depth == W.Depth(W.CheckSeq(body, W.Live(ts), [ts] + labels, ctx).value) && st'.ctrl == st.ctrl
    decreases body, 1
  {
    hide EmitLeaf, EmitAll, Flatten, Closing;
    EmitSplit(op, Flatten(body), [OpEnd], st, f);
    var st1 := EmitOp(op, st, f).value.1;
    SeqState(body, W.Live(ts), [ts] + labels, ctx, st1, f);
    EmitOne(OpEnd, EmitAll(Flatten(body), st1, f).value.1, f);
  }

  // ----- simulation -----

  /** A run about to start: the emitted lines sit at the current line, the stack matches. */
  datatype Job = Job(e: Site, c: W.Config, ts: seq<W.ValType>, st: TState, s: State,
                     out: seq<Line>, st': TState, sc: Scope, ctx: W.Context)

  predicate Placed(j: Job) {
    Aligned(j.e, j.st, j.sc, j.ctx) && Match(j.e, j.c, j.ts, j.s) && j.st.depth == |j.ts| &&
    CodeAt(j.e.p.lines, j.s.line, j.out)
  }

  predicate SeqJob(code: seq<W.Instr>, j: Job) {
    Placed(j) && EmitAll(Flatten(code), j.st, j.e.f) == Some((j.out, j.st')) &&
    W.CheckSeq(code, W.Live(j.ts), j.sc.labels, j.ctx).Some?
  }

  predicate InstrJob(i: W.Instr, j: Job) {
    Placed(j) && EmitAll(FlattenOne(i), j.st, j.e.f) == Some((j.out, j.st')) &&
    W.Check(i, W.Live(j.ts), j.sc.labels, j.ctx).Some?
  }

  /** `n` steps from the job's state represent outcome `o`; a branch takes at least one step, and
      running out of `fuel` means at least that many steps were taken. */
  ghost predicate Outcome(j: Job, o: W.Outcome, h: W.Height, q: Word, fuel: nat, n: nat, t: State)
    requires Placed(j)
  {
    (o.Normal? || o.Branching? ==> t.reg[7] == q) &&
    Goes(j.e.p, j.s, n, t) && Represents(j.e, o, h, j.sc, j.s.line + |j.out|, t) &&
    (o.Branching? ==> n >= 1) && (o.Timeout? ==> n >= fuel)
  }

  lemma {:induction false} SimulateSeq(code: seq<W.Instr>, j: Job, fuel: nat) returns (n: nat, t: State)
    requires SeqJob(code, j)
    ensures Outcome(j, W.ExecSeq(code, j.c, fuel), W.CheckSeq(code, W.Live(j.ts), j.sc.labels, j.ctx).value,
                    W.FourthSeq(code, j.c, fuel, j.s.reg[7]), fuel, n, t)
    decreases fuel, code, 0, 0
  {
    hide Goes, Aligned, Match, CodeAt, FlattenOne, W.Check, W.Exec, EmitAll, GoodSite;
    if code == [] {
      GoesZero(j.e.p, j.s);
      EmitNothing(j.st, j.e.f);
      n, t := 0, j.s;
    } else {
      EmitAppend(FlattenOne(code[0]), Flatten(code[1..]), j.st, j.e.f);
      var x := EmitAll(FlattenOne(code[0]), j.st, j.e.f).value;
      var y := EmitAll(Flatten(code[1..]), x.1, j.e.f).value;
      CodeAtParts(j.e.p.lines, j.s.line, x.0, y.0);
      var first := j.(out := x.0, st' := x.1);
      var a, u := SimulateInstr(code[0], first, fuel);
      n, t := a, u;
      var o := W.Exec(code[0], j.c, fuel);
      if o.Normal? {
        InstrState(code[0], W.Live(j.ts), j.sc.labels, j.ctx, j.st, j.e.f);
        AlignedSame(j.e, j.st, x.1, j.sc, j.ctx);
        var h1 := W.Check(code[0], W.Live(j.ts), j.sc.labels, j.ctx).value;
        var rest := Job(j.e, o.c, h1.ts, x.1, u, y.0, j.st', j.sc, j.ctx);
        var b, v := SimulateSeq(code[1..], rest, fuel);
        GoesTrans(j.e.p, j.s, a, u, b, v);
        n, t := a + b, v;
      }
    }
  }

  lemma {:induction false} EmitNothing(st: TState, f: Func)
    ensures EmitAll([], st, f) == Some(([], st))
  {
  }

  lemma {:induction false} AlignedSame(e: Site, st: TState, st': TState, sc: Scope, ctx: W.Context)
    requires Aligned(e, st, sc, ctx) && st'.ctrl == st.ctrl
    ensures Aligned(e, st', sc, ctx)
  {
  }

  /** The scope inside a frame whose branch label is on line `target`. */
  function Inner(sc: Scope, ts: seq<W.ValType>, target: nat): Scope {
    Scope([ts] + sc.labels, [target] + sc.targets)
  }

  lemma {:induction false} AlignedInner(e: Site, st: TState, fr: Frame, st1: TState, sc: Scope, ctx: W.Context,
                     ts: seq<W.ValType>, target: nat)
    requires Aligned(e, st, sc, ctx) && st1.ctrl == [fr] + st.ctrl && TargetAt(e, fr, target)
    ensures Aligned(e, st1, Inner(sc, ts, target), ctx)
  {
    forall l | 0 <= l < |st1.ctrl| ensures TargetAt(e, st1.ctrl[l], Inner(sc, ts, target).targets[l]) {
      if l > 0 { assert TargetAt(e, st.ctrl[l - 1], sc.targets[l - 1]); }
    }
  }

  lemma {:induction false} PlacedFacts(j: Job)
    requires Placed(j)
    ensures GoodSite(j.e) && DistinctLabels(j.e.p.lines) && j.s.mode == Going && j.s.reg[0] == 0
    ensures |j.c.stack| == |j.ts| && |j.sc.labels| == |j.sc.targets|
    ensures |j.ts| >= 1 ==> j.s.reg[3 + |j.ts|] == W.Raw(W.Operand(j.c, 0))
    ensures |j.ts| >= 1 ==> W.TypeOf(W.Operand(j.c, 0)) == j.ts[|j.ts| - 1]
  {
    if |j.ts| >= 1 { MatchOperand(j.e, j.c, j.ts, j.s, 0); }
  }

  lemma {:induction false} SimulateInstr(i: W.Instr, j: Job, fuel: nat) returns (n: nat, t: State)
    requires InstrJob(i, j)
    ensures Outcome(j, W.Exec(i, j.c, fuel), W.Check(i, W.Live(j.ts), j.sc.labels, j.ctx).value,
                    W.FourthInstr(i, j.c, fuel, j.s.reg[7]), fuel, n, t)
    decreases fuel, i, 2, 0
  {
    hide Goes, Aligned, Match, CodeAt, EmitAll, GoodSite, Outcome;
    match i
    case Do(leaf) => n, t := SimulateLeaf(leaf, j, fuel);
    case Block(body) => n, t := SimulateBlock(body, j, fuel);
    case Loop(body) => n, t := SimulateLoop(body, j, fuel);
    case If(thn) => n, t := SimulateIf(thn, j, fuel);
    case IfElse(thn, els) => n, t := SimulateIfElse(thn, els, j, fuel);
  }

  lemma {:induction false} SimulateLeaf(leaf: W.Leaf, j: Job, fuel: nat) returns (n: nat, t: State)
    requires InstrJob(W.Do(leaf), j)
    ensures Outcome(j, W.Exec(W.Do(leaf), j.c, fuel), W.Check(W.Do(leaf), W.Live(j.ts), j.sc.labels, j.ctx).value,
                    W.FourthLeaf(leaf, j.c, j.s.reg[7]), fuel, n, t)
  {
    hide Goes, Aligned, Match, CodeAt, EmitLeaf, EmitAll, W.CheckLeaf, W.ExecLeaf;
    EmitOne(Translator.Plain(leaf), j.st, j.e.f);
    var x := Case(j.e, leaf, j.c, j.ts, j.st, j.s, j.out, j.st', j.sc, j.ctx);
    if leaf.Bin? && W.IsShift(leaf.bin) {
      n, t := Shifts.ShiftLeaf(x);
    } else {
      n, t := LeafSimulated(x);
    }
    LeafOutcome(leaf, j.c);
    LeafFourth(x, n, t);
  }

  lemma LeafFourth(x: Case, n: nat, t: State)
    requires Ready(x) && Done(x, n, t)
    ensures var o := W.ExecLeaf(x.leaf, x.c);
            o.Normal? || o.Branching? ==> t.reg[7] == W.FourthLeaf(x.leaf, x.c, x.s.reg[7])
  {
    hide Goes, Aligned, CodeAt, EmitLeaf, W.CheckLeaf, W.ExecLeaf, E.CodeSize, DistinctLabels;
  }

  lemma {:induction false} LeafOutcome(leaf: W.Leaf, c: W.Config)
    ensures !W.ExecLeaf(leaf, c).Timeout? && (W.Leaps(leaf) ==> !W.ExecLeaf(leaf, c).Normal?)
    ensures W.ExecLeaf(leaf, c).Branching? ==> leaf.Br? || leaf.BrIf? || leaf.BrTable?
  {
    hide W.EvalBin, W.EvalRel, W.ExtendFrom;
  }

  /** Leaving a frame whose end label is the next line. */
  lemma {:induction false} LeaveFrame(j: Job, o: W.Outcome, sc1: Scope, target: nat, fuel: nat, a: nat, u: State,
                                      name: Name, ts: seq<W.ValType>, h: W.Height, q: Word)
    returns (n: nat, t: State)
    requires o.Normal? || o.Branching? ==> u.reg[7] == q
    requires Placed(j) && sc1 == Inner(j.sc, ts, target) && Goes(j.e.p, j.s, a, u)
    requires Represents(j.e, o, W.Live(ts), sc1, target, u)
    requires target < |j.e.p.lines| && j.e.p.lines[target] == LabelDef(name)
    requires j.s.line + |j.out| == target + 1
    requires o.Normal? || (o.Branching? && o.depth == 0) ==> h == W.Live(ts)
    requires (o.Branching? ==> a >= 1) && (o.Timeout? ==> a >= fuel)
    ensures Outcome(j, W.Leave(o, |ts|), h, q, fuel, n, t)
  {
    hide Goes, Aligned, CodeAt, GoodSite;
    n, t := a, u;
    if o.Normal? || (o.Branching? && o.depth == 0) {
      DoLabel(j.e.p, u, name);
      t := u.(line := u.line + 1);
      GoesTrans(j.e.p, j.s, a, u, 1, t);
      n := a + 1;
    }
  }

  lemma {:induction false} CheckFrames(body: seq<W.Instr>, ts: seq<W.ValType>, labels: seq<seq<W.ValType>>,
                                       ctx: W.Context)
    ensures var h := W.CheckSeq(body, W.Live(ts), [ts] + labels, ctx);
            W.Check(W.Block(body), W.Live(ts), labels, ctx)
            == (if h.None? then None else W.Close(h.value, ts, W.Aims(body, 0))) &&
            W.Check(W.Loop(body), W.Live(ts), labels, ctx) == if h.None? then None else W.Close(h.value, ts, false)
  {
    hide W.CheckSeq, W.Aims;
  }

  /** A frame's outcome at the height its body ends with is one at the height behind it. */
  lemma CloseHeight(e: Site, o: W.Outcome, h1: W.Height, ts: seq<W.ValType>, aimed: bool, sc: Scope, end: nat, t: State)
    requires GoodSite(e) && |sc.labels| == |sc.targets| && Represents(e, o, h1, sc, end, t)
    requires W.Close(h1, ts, aimed).Some? && (o.Branching? && o.depth == 0 ==> aimed)
    ensures Represents(e, o, W.Live(ts), sc, end, t)
    ensures o.Normal? || (o.Branching? && o.depth == 0) ==> W.Close(h1, ts, aimed) == Some(W.Live(ts))
  {
  }

  lemma {:induction false} BlockShape(op: Op, body: seq<W.Instr>, j: Job)
    returns (cb: seq<Line>, st1: TState, st2: TState)
    requires op == OpBlock || op == OpLoop
    requires Placed(j) && EmitAll([op] + (Flatten(body) + [OpEnd]), j.st, j.e.f) == Some((j.out, j.st'))
    requires W.CheckSeq(body, W.Live(j.ts), [j.ts] + j.sc.labels, j.ctx).Some?
    ensures EmitAll(Flatten(body), st1, j.e.f) == Some((cb, st2)) && st1.depth == |j.ts|
    ensures st1.ctrl == [Frame(j.st.labels, if op == OpLoop then LoopFrame else BlockFrame, false)] + j.st.ctrl
    ensures var fr := st1.ctrl[0];
            j.out == (if op == OpLoop then [LabelDef(StartName(j.e.f, fr))] else [])
            + (cb + [LabelDef(EndName(j.e.f, fr))])
  {
    hide EmitAll, Flatten, EmitLeaf;
    EmitSplit(op, Flatten(body), [OpEnd], j.st, j.e.f);
    st1 := EmitOp(op, j.st, j.e.f).value.1;
    var b := EmitAll(Flatten(body), st1, j.e.f).value;
    cb, st2 := b.0, b.1;
    SeqState(body, W.Live(j.ts), [j.ts] + j.sc.labels, j.ctx, st1, j.e.f);
    EmitOne(OpEnd, st2, j.e.f);
  }

  lemma {:induction false} SimulateBlock(body: seq<W.Instr>, j: Job, fuel: nat) returns (n: nat, t: State)
    requires InstrJob(W.Block(body), j)
    ensures Outcome(j, W.Exec(W.Block(body), j.c, fuel),
                    W.Check(W.Block(body), W.Live(j.ts), j.sc.labels, j.ctx).value,
                    W.FourthInstr(W.Block(body), j.c, fuel, j.s.reg[7]), fuel, n, t)
    decreases fuel, body, 1, 0
  {
    hide Goes, Match, CodeAt, EmitAll, Flatten, GoodSite, W.Check, W.CheckSeq, W.Aims, Represents;
    PlacedFacts(j);
    CheckFrames(body, j.ts, j.sc.labels, j.ctx);
    var cb, st1, st2 := BlockShape(OpBlock, body, j);
    var fr := st1.ctrl[0];
    var last := [LabelDef(EndName(j.e.f, fr))];
    assert j.out == cb + last;
    CodeAtParts(j.e.p.lines, j.s.line, cb, last);
    CodeAtLine(j.e.p.lines, j.s.line + |cb|, last, 0);
    var target := j.s.line + |cb|;
    var sc1 := Inner(j.sc, j.ts, target);
    AlignedInner(j.e, j.st, fr, st1, j.sc, j.ctx, j.ts, target);
    var j1 := Job(j.e, j.c, j.ts, st1, j.s, cb, st2, sc1, j.ctx);
    var a, u := SimulateSeq(body, j1, fuel);
    var o, h1 := W.ExecSeq(body, j.c, fuel), W.CheckSeq(body, W.Live(j.ts), sc1.labels, j.ctx).value;
    W.BranchAims(body, j.c, fuel);
    CloseHeight(j.e, o, h1, j.ts, W.Aims(body, 0), sc1, target, u);
    n, t := LeaveFrame(j, o, sc1, target, fuel, a, u, EndName(j.e.f, fr), j.ts,
                       W.Check(W.Block(body), W.Live(j.ts), j.sc.labels, j.ctx).value,
                       W.FourthSeq(body, j.c, fuel, j.s.reg[7]));
    BlockLeaves(body, j.c, fuel);
  }

  lemma BlockLeaves(body: seq<W.Instr>, c: W.Config, fuel: nat)
    ensures W.Exec(W.Block(body), c, fuel) == W.Leave(W.ExecSeq(body, c, fuel), |c.stack|)
    ensures forall q :: W.FourthInstr(W.Block(body), c, fuel, q) == W.FourthSeq(body, c, fuel, q)
  {
  }

  /** Past the start label, on the first line of the body, inside one more frame. */
  lemma {:induction false} EnterLoop(body: seq<W.Instr>, j: Job) returns (j1: Job, name: Name)
    requires InstrJob(W.Loop(body), j)
    ensures SeqJob(body, j1)
    ensures j1.e == j.e && j1.c == j.c && j1.ts == j.ts && j1.ctx == j.ctx && j1.sc == Inner(j.sc, j.ts, j.s.line)
    ensures GoodSite(j.e) && Goes(j.e.p, j.s, 1, j1.s) && |j.out| >= 1 && j1.s.reg == j.s.reg
    ensures var last := j.s.line + |j.out| - 1;
            last == j1.s.line + |j1.out| && last < |j.e.p.lines| && j.e.p.lines[last] == LabelDef(name)
  {
    hide Goes, Match, CodeAt, EmitAll, Flatten, GoodSite, Aligned, W.Check, W.CheckSeq;
    PlacedFacts(j);
    CheckFrames(body, j.ts, j.sc.labels, j.ctx);
    var cb, st1, st2 := BlockShape(OpLoop, body, j);
    var fr := st1.ctrl[0];
    name := EndName(j.e.f, fr);
    var head, last := [LabelDef(StartName(j.e.f, fr))], [LabelDef(name)];
    CodeAtParts(j.e.p.lines, j.s.line, head, cb + last);
    CodeAtParts(j.e.p.lines, j.s.line + 1, cb, last);
    CodeAtLine(j.e.p.lines, j.s.line, head, 0);
    CodeAtLine(j.e.p.lines, j.s.line + 1 + |cb|, last, 0);
    AlignedInner(j.e, j.st, fr, st1, j.sc, j.ctx, j.ts, j.s.line);
    DoLabel(j.e.p, j.s, StartName(j.e.f, fr));
    var s1 := j.s.(line := j.s.line + 1);
    MatchMoved(j, s1);
    j1 := Job(j.e, j.c, j.ts, st1, s1, cb, st2, Inner(j.sc, j.ts, j.s.line), j.ctx);
  }

  lemma {:induction false} SimulateLoop(body: seq<W.Instr>, j: Job, fuel: nat) returns (n: nat, t: State)
    requires InstrJob(W.Loop(body), j)
    ensures Outcome(j, W.Exec(W.Loop(body), j.c, fuel),
                    W.Check(W.Loop(body), W.Live(j.ts), j.sc.labels, j.ctx).value,
                    W.FourthInstr(W.Loop(body), j.c, fuel, j.s.reg[7]), fuel, n, t)
    decreases fuel, body, 1, 0
  {
    hide Goes, Match, CodeAt, EmitAll, Flatten, FlattenOne, GoodSite, Aligned, W.Check, W.CheckSeq, W.Exec,
         W.FourthInstr;
    PlacedFacts(j);
    var j1, name := EnterLoop(body, j);
    var a, u := SimulateSeq(body, j1, fuel);
    GoesTrans(j.e.p, j.s, 1, j1.s, a, u);
    var o := W.ExecSeq(body, j.c, fuel);
    FourthLoop(body, j.c, fuel, j.s.reg[7]);
    if o.Branching? && o.depth == 0 {
      LoopAgain(body, j, fuel, o, u);
      if fuel == 0 {
        n, t := a + 1, u;
      } else {
        var b, v := SimulateLoop(body, j.(c := W.Unwind(o.c, |j.ts|), s := u), fuel - 1);
        GoesTrans(j.e.p, j.s, a + 1, u, b, v);
        n, t := a + 1 + b, v;
      }
    } else {
      LoopOnce(body, j.c, fuel);
      CheckFrames(body, j.ts, j.sc.labels, j.ctx);
      var h1 := W.CheckSeq(body, W.Live(j.ts), j1.sc.labels, j.ctx).value;
      CloseHeight(j.e, o, h1, j.ts, false, j1.sc, j1.s.line + |j1.out|, u);
      n, t := LeaveLoop(j, o, j1.sc, fuel, a + 1, u, name,
                        W.Check(W.Loop(body), W.Live(j.ts), j.sc.labels, j.ctx).value,
                        W.FourthSeq(body, j.c, fuel, j.s.reg[7]));
    }
  }

  lemma FourthLoop(body: seq<W.Instr>, c: W.Config, fuel: nat, q: Word)
    ensures var q1, o := W.FourthSeq(body, c, fuel, q), W.ExecSeq(body, c, fuel);
            W.FourthInstr(W.Loop(body), c, fuel, q)
            == if o.Branching? && o.depth == 0 && fuel > 0
               then W.FourthInstr(W.Loop(body), W.Unwind(o.c, |c.stack|), fuel - 1, q1) else q1
  {
    hide W.FourthSeq, W.ExecSeq;
  }

  lemma {:induction false} MatchMoved(j: Job, s1: State)
    requires Placed(j) && s1 == j.s.(line := s1.line)
    ensures GoodSite(j.e) && Match(j.e, j.c, j.ts, s1)
  {
  }

  lemma {:induction false} LoopOnce(body: seq<W.Instr>, c: W.Config, fuel: nat)
    requires var o := W.ExecSeq(body, c, fuel); !(o.Branching? && o.depth == 0)
    ensures W.Exec(W.Loop(body), c, fuel) == W.Leave(W.ExecSeq(body, c, fuel), |c.stack|)
  {
  }

  /** Back at the loop's start, with the operands it was entered with. */
  lemma {:induction false} LoopAgain(body: seq<W.Instr>, j: Job, fuel: nat, o: W.Outcome, u: State)
    requires InstrJob(W.Loop(body), j) && o == W.ExecSeq(body, j.c, fuel) && o.Branching? && o.depth == 0
    requires GoodSite(j.e) && Match(j.e, W.Unwind(o.c, |j.ts|), j.ts, u) && u.line == j.s.line
    ensures InstrJob(W.Loop(body), j.(c := W.Unwind(o.c, |j.ts|), s := u)) && u.mode.Going?
    ensures |j.c.stack| == |j.ts|
    ensures W.Exec(W.Loop(body), j.c, fuel)
         == if fuel == 0 then W.Timeout else W.Exec(W.Loop(body), W.Unwind(o.c, |j.ts|), fuel - 1)
  {
    hide EmitAll, FlattenOne, W.Check, GoodSite, CodeAt, W.Unwind;
  }

  lemma {:induction false} LeaveLoop(j: Job, o: W.Outcome, sc1: Scope, fuel: nat, a: nat, u: State, name: Name,
                                     h: W.Height, q: Word)
    returns (n: nat, t: State)
    requires Placed(j) && sc1 == Inner(j.sc, j.ts, j.s.line) && Goes(j.e.p, j.s, a, u)
    requires |j.out| >= 1
    requires var last := j.s.line + |j.out| - 1;
             last < |j.e.p.lines| && j.e.p.lines[last] == LabelDef(name) &&
             Represents(j.e, o, W.Live(j.ts), sc1, last, u)
    requires !(o.Branching? && o.depth == 0) && (o.Branching? ==> a >= 1) && (o.Timeout? ==> a >= fuel)
    requires (o.Normal? ==> h == W.Live(j.ts)) && (o.Normal? || o.Branching? ==> u.reg[7] == q)
    ensures Outcome(j, W.Leave(o, |j.ts|), h, q, fuel, n, t)
  {
    hide Goes, Aligned, CodeAt, GoodSite;
    n, t := a, u;
    if o.Normal? {
      DoLabel(j.e.p, u, name);
      t := u.(line := u.line + 1);
      GoesTrans(j.e.p, j.s, a, u, 1, t);
      n := a + 1;
    }
  }

  // ----- conditionals -----

  lemma {:induction false} CheckIf(thn: seq<W.Instr>, els: seq<W.Instr>, ts: seq<W.ValType>,
                                   labels: seq<seq<W.ValType>>, ctx: W.Context)
    ensures W.Check(W.If(thn), W.Live(ts), labels, ctx).Some? ==>
              |ts| >= 1 && ts[|ts| - 1] == W.T32 &&
              var rest := ts[..|ts| - 1];
              var h := W.CheckSeq(thn, W.Live(rest), [rest] + labels, ctx);
              h.Some? && W.Check(W.If(thn), W.Live(ts), labels, ctx) == W.Close(h.value, rest, true)
    ensures W.Check(W.IfElse(thn, els), W.Live(ts), labels, ctx).Some? ==>
              |ts| >= 1 && ts[|ts| - 1] == W.T32 &&
              var rest := ts[..|ts| - 1];
              var h1, h2 := W.CheckSeq(thn, W.Live(rest), [rest] + labels, ctx),
                            W.CheckSeq(els, W.Live(rest), [rest] + labels, ctx);
              h1.Some? && h2.Some? && (h1.value == W.Live(rest) || h1.value == W.Dead(|rest|)) &&
              W.Check(W.IfElse(thn, els), W.Live(ts), labels, ctx)
              == W.Close(h2.value, rest, h1.value.Live? || W.Aims(thn, 0) || W.Aims(els, 0))
  {
    hide W.CheckSeq, W.Aims;
  }

  /** The condition popped, control is on the arm's first line or at the else label. */
  lemma {:induction false} TakeArm(j: Job, name: Name, no: nat) returns (t: State)
    requires Placed(j) && |j.ts| >= 1 && j.ts[|j.ts| - 1] == W.T32
    requires OnLine(j.e.p, j.s, Branch(BEQ, 3 + |j.ts|, 0, name))
    requires no < |j.e.p.lines| && j.e.p.lines[no] == LabelDef(name)
    ensures GoodSite(j.e) && Goes(j.e.p, j.s, 1, t)
    ensures |j.c.stack| >= 1 && W.Operand(j.c, 0).I32?
    ensures Match(j.e, j.c.(stack := W.Pop(j.c, 1)), j.ts[..|j.ts| - 1], t)
    ensures t.line == (if W.Operand(j.c, 0).u != 0 then j.s.line + 1 else no) && t.reg[7] == j.s.reg[7]
  {
    hide Goes, E.CodeSize, CodeAt;
    PlacedFacts(j);
    t := DoBranch(j.e.p, j.s, BEQ, 3 + |j.ts|, 0, name, no);
    ArriveMatch(j.e, j.c, j.ts, j.s, 1, t.line, t);
  }

  lemma {:induction false} IfShape(thn: seq<W.Instr>, j: Job) returns (ct: seq<Line>, st1: TState, st2: TState)
    requires InstrJob(W.If(thn), j)
    ensures EmitAll(Flatten(thn), st1, j.e.f) == Some((ct, st2)) && st1.depth == |j.ts| - 1
    ensures 1 <= |j.ts| <= 20 && st1.ctrl == [Frame(j.st.labels, IfFrame, false)] + j.st.ctrl
    ensures var fr := st1.ctrl[0];
            j.out == [Branch(BEQ, 3 + |j.ts|, 0, ElseName(j.e.f, fr))]
                     + (ct + [LabelDef(ElseName(j.e.f, fr)), LabelDef(EndName(j.e.f, fr))])
  {
    hide EmitAll, Flatten, EmitLeaf, W.Check, Placed;
    PlacedDepth(j);
    CheckIf(thn, [], j.ts, j.sc.labels, j.ctx);
    EmitSplit(OpIf, Flatten(thn), [OpEnd], j.st, j.e.f);
    st1 := EmitOp(OpIf, j.st, j.e.f).value.1;
    var b := EmitAll(Flatten(thn), st1, j.e.f).value;
    ct, st2 := b.0, b.1;
    var rest := j.ts[..|j.ts| - 1];
    SeqState(thn, W.Live(rest), [rest] + j.sc.labels, j.ctx, st1, j.e.f);
    EmitOne(OpEnd, st2, j.e.f);
  }

  lemma {:induction false} PlacedDepth(j: Job)
    requires Placed(j)
    ensures j.st.depth == |j.ts|
  {
  }

  lemma LayIf(lines: seq<Line>, at: nat, first: Line, ct: seq<Line>, no: Line, end: Line)
    requires CodeAt(lines, at, [first] + (ct + [no, end]))
    ensures CodeAt(lines, at + 1, ct) && at + |ct| + 2 < |lines|
    ensures lines[at] == first && lines[at + 1 + |ct|] == no && lines[at + 2 + |ct|] == end
  {
    CodeAtParts(lines, at, [first], ct + [no, end]);
    CodeAtParts(lines, at + 1, ct, [no, end]);
    CodeAtLine(lines, at, [first], 0);
    CodeAtLine(lines, at + 1 + |ct|, [no, end], 0);
    CodeAtLine(lines, at + 1 + |ct|, [no, end], 1);
  }

  lemma {:induction false} SimulateIf(thn: seq<W.Instr>, j: Job, fuel: nat) returns (n: nat, t: State)
    requires InstrJob(W.If(thn), j)
    ensures Outcome(j, W.Exec(W.If(thn), j.c, fuel), W.Check(W.If(thn), W.Live(j.ts), j.sc.labels, j.ctx).value,
                    W.FourthInstr(W.If(thn), j.c, fuel, j.s.reg[7]), fuel, n, t)
    decreases fuel, thn, 1, 0
  {
    hide Goes, Match, CodeAt, EmitAll, Flatten, GoodSite, Aligned, W.Check, W.ExecSeq, Outcome, Represents;
    PlacedFacts(j);
    var p := j.e.p;
    CheckIf(thn, [], j.ts, j.sc.labels, j.ctx);
    var ct, st1, st2 := IfShape(thn, j);
    var fr := st1.ctrl[0];
    var rest := j.ts[..|j.ts| - 1];
    var no := j.s.line + 1 + |ct|;
    LayIf(p.lines, j.s.line, Branch(BEQ, 3 + |j.ts|, 0, ElseName(j.e.f, fr)), ct, LabelDef(ElseName(j.e.f, fr)),
          LabelDef(EndName(j.e.f, fr)));
    var s1 := TakeArm(j, ElseName(j.e.f, fr), no);
    var c1 := j.c.(stack := W.Pop(j.c, 1));
    var sc1 := Inner(j.sc, rest, no + 1);
    var a, u, o := 1, s1, W.Normal(c1);
    var h1 := W.CheckSeq(thn, W.Live(rest), sc1.labels, j.ctx).value;
    if W.Operand(j.c, 0).u != 0 {
      AlignedInner(j.e, j.st, fr, st1, j.sc, j.ctx, rest, no + 1);
      var j1 := Job(j.e, c1, rest, st1, s1, ct, st2, sc1, j.ctx);
      o := W.ExecSeq(thn, c1, fuel);
      a, u := SimulateArm(thn, j1, fuel);
      CloseHeight(j.e, o, h1, rest, true, sc1, no, u);
      GoesTrans(p, j.s, 1, s1, a, u);
      a := 1 + a;
    } else {
      NormalHere(j.e, c1, rest, sc1, no, s1);
    }
    var b, v := PassElse(j.e, o, rest, sc1, no, u, ElseName(j.e.f, fr));
    GoesTrans(p, j.s, a, u, b, v);
    IfLeaves(thn, j.c, fuel);
    IfCloses(h1, rest);
    n, t := LeaveFrame(j, o, sc1, no + 1, fuel, a + b, v, EndName(j.e.f, fr), rest, W.Live(rest),
                       W.FourthInstr(W.If(thn), j.c, fuel, j.s.reg[7]));
  }

  lemma IfCloses(h1: W.Height, rest: seq<W.ValType>)
    ensures W.Close(h1, rest, true).Some? ==> W.Close(h1, rest, true) == Some(W.Live(rest))
  {
  }

  lemma IfLeaves(thn: seq<W.Instr>, c: W.Config, fuel: nat)
    requires |c.stack| >= 1 && W.Operand(c, 0).I32?
    ensures var c1 := c.(stack := W.Pop(c, 1));
            W.Exec(W.If(thn), c, fuel)
            == W.Leave(if W.Operand(c, 0).u != 0 then W.ExecSeq(thn, c1, fuel) else W.Normal(c1), |c1.stack|)
    ensures var c1 := c.(stack := W.Pop(c, 1));
            forall q :: W.FourthInstr(W.If(thn), c, fuel, q)
                     == if W.Operand(c, 0).u != 0 then W.FourthSeq(thn, c1, fuel, q) else q
  {
  }

  /** One arm, as a run of its body. */
  lemma {:induction false} SimulateArm(body: seq<W.Instr>, j1: Job, fuel: nat) returns (n: nat, t: State)
    requires SeqJob(body, j1)
    ensures Goes(j1.e.p, j1.s, n, t) &&
            Represents(j1.e, W.ExecSeq(body, j1.c, fuel),
                       W.CheckSeq(body, W.Live(j1.ts), j1.sc.labels, j1.ctx).value, j1.sc, j1.s.line + |j1.out|, t)
    ensures W.ExecSeq(body, j1.c, fuel).Branching? ==> n >= 1
    ensures W.ExecSeq(body, j1.c, fuel).Timeout? ==> n >= fuel
    ensures var o := W.ExecSeq(body, j1.c, fuel);
            o.Normal? || o.Branching? ==> t.reg[7] == W.FourthSeq(body, j1.c, fuel, j1.s.reg[7])
    decreases fuel, body, 0, 1
  {
    n, t := SimulateSeq(body, j1, fuel);
  }

  lemma {:induction false} NormalHere(e: Site, c: W.Config, ts: seq<W.ValType>, sc: Scope, line: nat, u: State)
    requires GoodSite(e) && |sc.labels| == |sc.targets| && Match(e, c, ts, u) && u.line == line
    ensures Represents(e, W.Normal(c), W.Live(ts), sc, line, u)
  {
  }

  /** A normal end steps over the else label; any other outcome is already where it belongs. */
  lemma {:induction false} PassElse(e: Site, o: W.Outcome, ts: seq<W.ValType>, sc: Scope, no: nat, u: State, name: Name)
    returns (n: nat, v: State)
    requires GoodSite(e) && |sc.labels| == |sc.targets| && no < |e.p.lines| && e.p.lines[no] == LabelDef(name)
    requires Represents(e, o, W.Live(ts), sc, no, u)
    ensures Goes(e.p, u, n, v) && Represents(e, o, W.Live(ts), sc, no + 1, v) && v.reg[7] == u.reg[7]
  {
    hide Goes, E.CodeSize;
    if o.Normal? {
      DoLabel(e.p, u, name);
      n, v := 1, u.(line := u.line + 1);
    } else {
      GoesZero(e.p, u);
      n, v := 0, u;
    }
  }

  /** A normal end jumps to the end label; any other outcome is already where it belongs. */
  lemma {:induction false} JumpEnd(e: Site, o: W.Outcome, ts: seq<W.ValType>, sc: Scope, at: nat, end: nat, u: State,
                                   name: Name)
    returns (n: nat, v: State)
    requires GoodSite(e) && |sc.labels| == |sc.targets| && at < |e.p.lines| && e.p.lines[at] == Jump(name)
    requires end < |e.p.lines| && e.p.lines[end] == LabelDef(name) && Represents(e, o, W.Live(ts), sc, at, u)
    ensures Goes(e.p, u, n, v) && Represents(e, o, W.Live(ts), sc, end, v) && v.reg[7] == u.reg[7]
  {
    hide Goes, E.CodeSize;
    if o.Normal? {
      v := DoJump(e.p, u, name, end);
      n := 1;
      ArriveMatch(e, o.c, ts, u, 0, end, v);
      assert W.Pop(o.c, 0) == o.c.stack && ts[..|ts|] == ts;
    } else {
      GoesZero(e.p, u);
      n, v := 0, u;
    }
  }

  lemma {:induction false} IfElseShape(thn: seq<W.Instr>, els: seq<W.Instr>, j: Job)
    returns (ct: seq<Line>, ce: seq<Line>, st1: TState, st2: TState, st3: TState, st4: TState)
    requires InstrJob(W.IfElse(thn, els), j)
    ensures EmitAll(Flatten(thn), st1, j.e.f) == Some((ct, st2)) && st1.depth == |j.ts| - 1
    ensures EmitAll(Flatten(els), st3, j.e.f) == Some((ce, st4)) && st3.depth == |j.ts| - 1
    ensures 1 <= |j.ts| <= 20 && st1.ctrl == [Frame(j.st.labels, IfFrame, false)] + j.st.ctrl
    ensures st3.ctrl == [Frame(j.st.labels, IfFrame, true)] + j.st.ctrl
    ensures var fr := st1.ctrl[0];
            j.out == [Branch(BEQ, 3 + |j.ts|, 0, ElseName(j.e.f, fr))]
                     + (ct + ([Jump(EndName(j.e.f, fr)), LabelDef(ElseName(j.e.f, fr))]
                              + (ce + [LabelDef(EndName(j.e.f, fr))])))
  {
    hide EmitAll, Flatten, EmitLeaf, W.Check, Placed;
    PlacedDepth(j);
    CheckIf(thn, els, j.ts, j.sc.labels, j.ctx);
    var rest := j.ts[..|j.ts| - 1];
    EmitSplit(OpIf, Flatten(thn), [OpElse] + (Flatten(els) + [OpEnd]), j.st, j.e.f);
    st1 := EmitOp(OpIf, j.st, j.e.f).value.1;
    var b := EmitAll(Flatten(thn), st1, j.e.f).value;
    ct, st2 := b.0, b.1;
    SeqState(thn, W.Live(rest), [rest] + j.sc.labels, j.ctx, st1, j.e.f);
    EmitSplit(OpElse, Flatten(els), [OpEnd], st2, j.e.f);
    st3 := EmitOp(OpElse, st2, j.e.f).value.1;
    var d := EmitAll(Flatten(els), st3, j.e.f).value;
    ce, st4 := d.0, d.1;
    SeqState(els, W.Live(rest), [rest] + j.sc.labels, j.ctx, st3, j.e.f);
    EmitOne(OpEnd, st4, j.e.f);
  }

  /** Where the pieces of a two-armed conditional lie. */
  datatype Arms = Arms(ct: seq<Line>, ce: seq<Line>, no: Name, end: Name, at: nat, stop: nat)

  predicate ArmsAt(p: Program, start: nat, depth: nat, m: Arms) {
    depth <= 20 && m.at == start + 1 + |m.ct| && m.stop == m.at + 2 + |m.ce| < |p.lines| &&
    p.lines[start] == Branch(BEQ, 3 + depth, 0, m.no) && CodeAt(p.lines, start + 1, m.ct) &&
    p.lines[m.at] == Jump(m.end) && p.lines[m.at + 1] == LabelDef(m.no) &&
    CodeAt(p.lines, m.at + 2, m.ce) && p.lines[m.stop] == LabelDef(m.end)
  }

  lemma {:induction false} LayElse(p: Program, m: Arms, mid: seq<Line>, last: seq<Line>)
    requires m.stop == m.at + 2 + |m.ce| && mid == [Jump(m.end), LabelDef(m.no)] && last == [LabelDef(m.end)]
    requires CodeAt(p.lines, m.at, mid + (m.ce + last))
    ensures CodeAt(p.lines, m.at + 2, m.ce) && m.stop < |p.lines|
    ensures p.lines[m.at] == mid[0] && p.lines[m.at + 1] == mid[1] && p.lines[m.stop] == last[0]
  {
    hide CodeAt;
    CodeAtParts(p.lines, m.at, mid, m.ce + last);
    CodeAtParts(p.lines, m.at + 2, m.ce, last);
    CodeAtLine(p.lines, m.at, mid, 0);
    CodeAtLine(p.lines, m.at, mid, 1);
    CodeAtLine(p.lines, m.stop, last, 0);
  }

  lemma {:induction false} LayArms(p: Program, start: nat, depth: nat, m: Arms)
    requires depth <= 20 && m.at == start + 1 + |m.ct| && m.stop == m.at + 2 + |m.ce|
    requires CodeAt(p.lines, start, [Branch(BEQ, 3 + depth, 0, m.no)]
                                    + (m.ct + ([Jump(m.end), LabelDef(m.no)] + (m.ce + [LabelDef(m.end)]))))
    ensures ArmsAt(p, start, depth, m)
  {
    hide CodeAt;
    var head, mid, last := [Branch(BEQ, 3 + depth, 0, m.no)], [Jump(m.end), LabelDef(m.no)], [LabelDef(m.end)];
    CodeAtParts(p.lines, start, head, m.ct + (mid + (m.ce + last)));
    CodeAtParts(p.lines, start + 1, m.ct, mid + (m.ce + last));
    CodeAtLine(p.lines, start, head, 0);
    assert CodeAt(p.lines, m.at, mid + (m.ce + last));
    LayElse(p, m, mid, last);
  }

  lemma {:induction false} SimulateIfElse(thn: seq<W.Instr>, els: seq<W.Instr>, j: Job, fuel: nat)
    returns (n: nat, t: State)
    requires InstrJob(W.IfElse(thn, els), j)
    ensures Outcome(j, W.Exec(W.IfElse(thn, els), j.c, fuel),
                    W.Check(W.IfElse(thn, els), W.Live(j.ts), j.sc.labels, j.ctx).value,
                    W.FourthInstr(W.IfElse(thn, els), j.c, fuel, j.s.reg[7]), fuel, n, t)
    decreases fuel, W.IfElse(thn, els), 1, 0
  {
    hide Goes, Match, CodeAt, EmitAll, Flatten, GoodSite, Aligned, W.Check, W.ExecSeq, Outcome, ArmsAt;
    PlacedFacts(j);
    CheckIf(thn, els, j.ts, j.sc.labels, j.ctx);
    var ct, ce, st1, st2, st3, st4 := IfElseShape(thn, els, j);
    var fr := st1.ctrl[0];
    var at := j.s.line + 1 + |ct|;
    var m := Arms(ct, ce, ElseName(j.e.f, fr), EndName(j.e.f, fr), at, at + 2 + |ce|);
    LayArms(j.e.p, j.s.line, |j.ts|, m);
    var s1 := ChooseArm(j, m);
    var rest := j.ts[..|j.ts| - 1];
    var sc1 := Inner(j.sc, rest, m.stop);
    var c1 := j.c.(stack := W.Pop(j.c, 1));
    var h := W.Check(W.IfElse(thn, els), W.Live(j.ts), j.sc.labels, j.ctx).value;
    if W.Operand(j.c, 0).u != 0 {
      InnerArm(j, fr, st1, m);
      W.BranchAims(thn, c1, fuel);
      n, t := ThenArm(thn, Job(j.e, c1, rest, st1, s1, ct, st2, sc1, j.ctx), j, m, fuel, h);
    } else {
      InnerArm(j, st3.ctrl[0], st3, m);
      W.BranchAims(els, c1, fuel);
      n, t := ElseArm(els, Job(j.e, c1, rest, st3, s1.(line := at + 2), ce, st4, sc1, j.ctx), j, m, s1, fuel, h);
    }
  }

  lemma {:induction false} ChooseArm(j: Job, m: Arms) returns (t: State)
    requires Placed(j) && |j.ts| >= 1 && j.ts[|j.ts| - 1] == W.T32 && ArmsAt(j.e.p, j.s.line, |j.ts|, m)
    ensures GoodSite(j.e) && Goes(j.e.p, j.s, 1, t)
    ensures |j.c.stack| >= 1 && W.Operand(j.c, 0).I32?
    ensures Match(j.e, j.c.(stack := W.Pop(j.c, 1)), j.ts[..|j.ts| - 1], t)
    ensures t.line == (if W.Operand(j.c, 0).u != 0 then j.s.line + 1 else m.at + 1) && t.reg[7] == j.s.reg[7]
  {
    hide Goes, Match, CodeAt, GoodSite, Aligned;
    PlacedFacts(j);
    t := TakeArm(j, m.no, m.at + 1);
  }

  lemma {:induction false} InnerArm(j: Job, fr: Frame, st1: TState, m: Arms)
    requires Placed(j) && |j.ts| >= 1 && ArmsAt(j.e.p, j.s.line, |j.ts|, m) && st1.ctrl == [fr] + j.st.ctrl
    requires fr.kind == IfFrame && m.end == EndName(j.e.f, fr)
    ensures Aligned(j.e, st1, Inner(j.sc, j.ts[..|j.ts| - 1], m.stop), j.ctx)
  {
    hide Aligned, Match, CodeAt, GoodSite;
    AlignedInner(j.e, j.st, fr, st1, j.sc, j.ctx, j.ts[..|j.ts| - 1], m.stop);
  }

  lemma {:induction false} ThenArm(thn: seq<W.Instr>, j1: Job, j: Job, m: Arms, fuel: nat, h: W.Height)
    returns (n: nat, t: State)
    requires Placed(j) && |j.ts| >= 1 && ArmsAt(j.e.p, j.s.line, |j.ts|, m) && |j.out| == m.stop + 1 - j.s.line
    requires GoodSite(j.e) && Match(j.e, j1.c, j1.ts, j1.s) && j1.s.line == j.s.line + 1
    requires Aligned(j1.e, j1.st, j1.sc, j1.ctx) && j1.st.depth == |j1.ts| && j1.e == j.e
    requires EmitAll(Flatten(thn), j1.st, j1.e.f) == Some((j1.out, j1.st'))
    requires var h1 := W.CheckSeq(thn, W.Live(j1.ts), j1.sc.labels, j1.ctx);
             h1.Some? && (h1.value.Live? ==> h1.value == W.Live(j1.ts) == h)
    requires var o := W.ExecSeq(thn, j1.c, fuel); o.Branching? && o.depth == 0 ==> h == W.Live(j1.ts)
    requires j1.sc == Inner(j.sc, j1.ts, m.stop) && j1.out == m.ct
    requires Goes(j.e.p, j.s, 1, j1.s)
    ensures Outcome(j, W.Leave(W.ExecSeq(thn, j1.c, fuel), |j1.ts|), h, W.FourthSeq(thn, j1.c, fuel, j1.s.reg[7]), fuel,
                    n, t)
    decreases fuel, thn, 0, 2
  {
    hide Goes, Match, CodeAt, EmitAll, Flatten, GoodSite, Aligned, W.CheckSeq, W.ExecSeq, Outcome, Represents;
    PlacedFacts(j);
    var a, u := SimulateArm(thn, j1, fuel);
    GoesTrans(j.e.p, j.s, 1, j1.s, a, u);
    var o := W.ExecSeq(thn, j1.c, fuel);
    ArmHeight(j.e, o, W.CheckSeq(thn, W.Live(j1.ts), j1.sc.labels, j1.ctx).value, j1.ts, j1.sc, m.at, u);
    var b, v := JumpEnd(j.e, o, j1.ts, j1.sc, m.at, m.stop, u, m.end);
    GoesTrans(j.e.p, j.s, 1 + a, u, b, v);
    n, t := LeaveFrame(j, o, j1.sc, m.stop, fuel, 1 + a + b, v, m.end, j1.ts, h,
                       W.FourthSeq(thn, j1.c, fuel, j1.s.reg[7]));
  }

  lemma ArmHeight(e: Site, o: W.Outcome, h1: W.Height, ts: seq<W.ValType>, sc: Scope, end: nat, t: State)
    requires GoodSite(e) && |sc.labels| == |sc.targets| && Represents(e, o, h1, sc, end, t)
    requires h1.Live? ==> h1.ts == ts
    ensures Represents(e, o, W.Live(ts), sc, end, t) && (o.Normal? ==> h1.Live?)
  {
  }

  lemma {:induction false} ElseArm(els: seq<W.Instr>, j1: Job, j: Job, m: Arms, s1: State, fuel: nat, h: W.Height)
    returns (n: nat, t: State)
    requires Placed(j) && |j.ts| >= 1 && ArmsAt(j.e.p, j.s.line, |j.ts|, m) && |j.out| == m.stop + 1 - j.s.line
    requires GoodSite(j.e) && Match(j.e, j1.c, j1.ts, s1) && s1.line == m.at + 1 && j1.s == s1.(line := m.at + 2)
    requires Aligned(j1.e, j1.st, j1.sc, j1.ctx) && j1.st.depth == |j1.ts| && j1.e == j.e
    requires EmitAll(Flatten(els), j1.st, j1.e.f) == Some((j1.out, j1.st'))
    requires var h2 := W.CheckSeq(els, W.Live(j1.ts), j1.sc.labels, j1.ctx);
             h2.Some? && (h2.value.Live? ==> h2.value == W.Live(j1.ts) == h)
    requires var o := W.ExecSeq(els, j1.c, fuel); o.Branching? && o.depth == 0 ==> h == W.Live(j1.ts)
    requires j1.sc == Inner(j.sc, j1.ts, m.stop) && j1.out == m.ce
    requires Goes(j.e.p, j.s, 1, s1)
    ensures Outcome(j, W.Leave(W.ExecSeq(els, j1.c, fuel), |j1.ts|), h, W.FourthSeq(els, j1.c, fuel, j1.s.reg[7]), fuel,
                    n, t)
    decreases fuel, els, 0, 2
  {
    hide Goes, Match, CodeAt, EmitAll, Flatten, GoodSite, Aligned, W.CheckSeq, W.ExecSeq, Outcome, Represents;
    PlacedFacts(j);
    PassNothing(j.e, j1.c, j1.ts, m.at + 1, s1, m.no);
    GoesTrans(j.e.p, j.s, 1, s1, 1, j1.s);
    var a, u := SimulateArm(els, j1, fuel);
    GoesTrans(j.e.p, j.s, 2, j1.s, a, u);
    var o := W.ExecSeq(els, j1.c, fuel);
    ArmHeight(j.e, o, W.CheckSeq(els, W.Live(j1.ts), j1.sc.labels, j1.ctx).value, j1.ts, j1.sc, m.stop, u);
    n, t := LeaveFrame(j, o, j1.sc, m.stop, fuel, 2 + a, u, m.end, j1.ts, h,
                       W.FourthSeq(els, j1.c, fuel, j1.s.reg[7]));
  }

  lemma {:induction false} PassNothing(e: Site, c: W.Config, ts: seq<W.ValType>, at: nat, s: State, name: Name)
    requires GoodSite(e) && Match(e, c, ts, s) && s.line == at < |e.p.lines| && e.p.lines[at] == LabelDef(name)
    ensures Goes(e.p, s, 1, s.(line := at + 1)) && Match(e, c, ts, s.(line := at + 1))
  {
    hide Goes, E.CodeSize;
    DoLabel(e.p, s, name);
  }
}
