/** Whole translated functions: prologue, body and epilogue, first line by line and then as words
    run by the processor. */
module Function {
  import opened Words
  import opened Machine
  import opened Assembly
  import opened Translator
  import opened Runs
  import opened Simulation
  import opened Leaves
  import opened Translation
  import opened Limits
  import Assembler
  import E = Expansion
  import W = Wasm

  /** A call: the caller's state at the function's entry line, the arguments, and the types of
      parameters and locals. */
  datatype Call = Call(p: Program, s: State, f: Func, locals: seq<W.ValType>, args: seq<W.Val>)

  function Sp(k: Call): nat { k.s.reg[31] }

  function Fp(k: Call): nat
    requires FRAME_WORDS <= Sp(k)
  {
    Sp(k) - 1024
  }

  /** Registers R1..R4 carry the first arguments, the caller's outgoing words the rest. */
  predicate ArgIn(v: W.Val, i: nat, reg: Regs, mem: Mem, sp: nat) {
    if i < 4 then reg[1 + i] == W.Raw(v)
    else sp + 896 + i < MEM_WORDS && mem[sp + 896 + i] == W.Raw(v)
  }

  predicate ArgsIn(args: seq<W.Val>, reg: Regs, mem: Mem, sp: nat) {
    forall i :: 0 <= i < |args| ==> ArgIn(args[i], i, reg, mem, sp)
  }

  /** The state at a call: control on the function's first line, the arguments where the caller puts
      them, room for the frame. */
  predicate Entered(k: Call) {
    k.s.mode == Going && k.s.reg[0] == 0 &&
    k.f.slots == |k.locals| <= 1022 && |k.args| <= |k.locals| && |k.args| <= MAX_PARAMS &&
    E.CodeSize(k.p.lines) + 1024 <= Sp(k) <= MEM_WORDS && ArgsIn(k.args, k.s.reg, k.s.mem, Sp(k)) &&
    forall i :: 0 <= i < |k.args| ==> W.TypeOf(k.args[i]) == k.locals[i]
  }

  predicate Callable(k: Call) { Entered(k) && DistinctLabels(k.p.lines) }

  function Zero(ty: W.ValType): W.Val { W.Make(ty, 0) }

  /** Parameters hold the arguments; WebAssembly starts every other local at zero. */
  function InitialLocals(k: Call): seq<W.Val>
    requires |k.args| <= |k.locals|
  {
    k.args + seq(|k.locals| - |k.args|, j requires 0 <= j < |k.locals| - |k.args| => Zero(k.locals[|k.args| + j]))
  }

  /** What the code starts with: nothing clears the frame, so a local is the word found there. */
  function FrameLocals(k: Call): seq<W.Val>
    requires FRAME_WORDS <= Sp(k) <= MEM_WORDS && |k.args| <= |k.locals| <= 1022
  {
    k.args + seq(|k.locals| - |k.args|, j requires 0 <= j < |k.locals| - |k.args| =>
                   W.Make(k.locals[|k.args| + j], k.s.mem[Fp(k) + 2 + |k.args| + j]))
  }

  /** The words found in the frame are values of the locals' types. */
  predicate Readable(k: Call)
    requires FRAME_WORDS <= Sp(k) <= MEM_WORDS && |k.locals| <= 1022
  {
    forall a :: Fp(k) + 2 + |k.args| <= a < Fp(k) + 2 + |k.locals| ==>
                  k.s.mem[a] < W.Modulus(k.locals[a - Fp(k) - 2])
  }

  /** The words that are to hold the non-parameter locals already hold zero. */
  predicate LocalsCleared(k: Call)
    requires FRAME_WORDS <= Sp(k) <= MEM_WORDS && |k.locals| <= 1022
  {
    forall a :: Fp(k) + 2 + |k.args| <= a < Fp(k) + 2 + |k.locals| ==> k.s.mem[a] == 0
  }

  lemma {:induction false} LocalAt(k: Call, i: nat)
    requires FRAME_WORDS <= Sp(k) <= MEM_WORDS && |k.args| <= i < |k.locals| <= 1022
    ensures FrameLocals(k)[i] == W.Make(k.locals[i], k.s.mem[Fp(k) + 2 + i])
    ensures InitialLocals(k)[i] == W.Make(k.locals[i], 0)
  {
    var j := i - |k.args|;
    assert FrameLocals(k)[i] == W.Make(k.locals[|k.args| + j], k.s.mem[Fp(k) + 2 + |k.args| + j]);
    assert InitialLocals(k)[i] == Zero(k.locals[|k.args| + j]);
  }

  lemma {:induction false} SmallWord(ty: W.ValType, w: Word)
    requires w < W.Modulus(ty)
    ensures W.Raw(W.Make(ty, w)) == w && W.TypeOf(W.Make(ty, w)) == ty
  {
    ModSmall(w, W.Modulus(ty));
  }

  /** A function starts as WebAssembly asks exactly when its frame happened to be clear. */
  lemma {:induction false} ClearedExact(k: Call)
    requires Callable(k)
    ensures Readable(k) && FrameLocals(k) == InitialLocals(k) <==> LocalsCleared(k)
  {
    hide E.CodeSize, DistinctLabels, ArgsIn;
    if Readable(k) && FrameLocals(k) == InitialLocals(k) {
      forall a | Fp(k) + 2 + |k.args| <= a < Fp(k) + 2 + |k.locals| ensures k.s.mem[a] == 0 {
        var i := a - Fp(k) - 2;
        LocalAt(k, i);
        SmallWord(k.locals[i], k.s.mem[a]);
        SmallWord(k.locals[i], 0);
      }
    }
    if LocalsCleared(k) {
      forall i | 0 <= i < |k.locals| ensures FrameLocals(k)[i] == InitialLocals(k)[i] {
        if i >= |k.args| { LocalAt(k, i); assert k.s.mem[Fp(k) + 2 + i] == 0; }
      }
      assert FrameLocals(k) == InitialLocals(k);
    }
  }

  // ----- prologue -----

  lemma {:induction false} FrameAddress(sp: nat)
    requires 1024 <= sp <= MEM_WORDS
    ensures Wrap(sp + Wrap(-1024)) == sp - 1024 && Wrap((sp - 1024) + 1024) == sp
  {
  }

  /** The stack pointer moves down by a frame. */
  lemma {:induction false} MoveSp(p: Program, s: State) returns (t: State)
    requires s.mode == Going && 1024 <= s.reg[31] <= MEM_WORDS
    requires OnLine(p, s, LoadImm(28, -1024)) && OnLine(p, s.(line := s.line + 1), RR(ADD, 31, 31, 28))
    ensures Goes(p, s, 2, t) && t == s.(line := s.line + 2, reg := t.reg) && t.reg[31] == s.reg[31] - 1024
    ensures forall r :: 0 <= r < 32 && r != 28 && r != 31 ==> t.reg[r] == s.reg[r]
  {
    hide Goes, Wrap;
    FrameAddress(s.reg[31]);
    DoImm(p, s, 28, -1024);
    var s1 := After(s, 28, Wrap(-1024));
    DoAlu(p, s1, ADD, 31, 31, 28);
    t := After(s1, 31, s.reg[31] - 1024);
    GoesTrans(p, s, 1, s1, 1, t);
  }

  /** The caller's return address and frame pointer are saved, and the new frame begins. */
  lemma {:induction false} SaveFrame(p: Program, s: State) returns (t: State)
    requires s.mode == Going && E.CodeSize(p.lines) <= s.reg[31] <= MEM_WORDS - 1024
    requires OnLine(p, s, RI(STORE, 30, 31, 0)) && OnLine(p, s.(line := s.line + 1), RI(STORE, 29, 31, 1))
    requires OnLine(p, s.(line := s.line + 2), Mov(29, 31))
    ensures Goes(p, s, 3, t)
    ensures t == s.(line := s.line + 3, reg := Put(s.reg, 29, s.reg[31]),
                    mem := s.mem[s.reg[31] := s.reg[30]][s.reg[31] + 1 := s.reg[29]])
  {
    hide Goes, E.CodeSize;
    var fp := s.reg[31];
    DoStore(p, s, 30, 31, 0);
    var s1 := s.(line := s.line + 1, mem := s.mem[fp := s.reg[30]]);
    DoStore(p, s1, 29, 31, 1);
    var s2 := s1.(line := s.line + 2, mem := s1.mem[fp + 1 := s.reg[29]]);
    DoMov(p, s2, 29, 31);
    t := After(s2, 29, fp);
    GoesTrans(p, s, 1, s1, 1, s2);
    GoesTrans(p, s, 2, s2, 1, t);
  }

  lemma {:induction false} EnterRun(k: Call) returns (t: State)
    requires Callable(k) && CodeAt(k.p.lines, k.s.line, [LabelDef(EntryName(k.f))] + ENTER)
    ensures Goes(k.p, k.s, 6, t) && t == k.s.(line := k.s.line + 6, reg := t.reg, mem := t.mem)
    ensures t.reg[29] == Fp(k) && t.reg[31] == Fp(k)
    ensures forall r :: 0 <= r < 32 && r != 28 && r != 29 && r != 31 ==> t.reg[r] == k.s.reg[r]
    ensures t.mem == k.s.mem[Fp(k) := k.s.reg[30]][Fp(k) + 1 := k.s.reg[29]]
  {
    hide Goes, DistinctLabels, E.CodeSize, ArgsIn, Wrap, CodeAt;
    var code := [LabelDef(EntryName(k.f))] + ENTER;
    CodeAtLine(k.p.lines, k.s.line, code, 0);
    CodeAtLine(k.p.lines, k.s.line, code, 1);
    CodeAtLine(k.p.lines, k.s.line, code, 2);
    CodeAtLine(k.p.lines, k.s.line, code, 3);
    CodeAtLine(k.p.lines, k.s.line, code, 4);
    CodeAtLine(k.p.lines, k.s.line, code, 5);
    DoLabel(k.p, k.s, EntryName(k.f));
    var s1 := k.s.(line := k.s.line + 1);
    var s2 := MoveSp(k.p, s1);
    t := SaveFrame(k.p, s2);
    GoesTrans(k.p, k.s, 1, s1, 2, s2);
    GoesTrans(k.p, k.s, 3, s2, 3, t);
  }

  /** Memory with arguments `i..` stored in the slots at `fp + 2`. */
  function Stored(mem: Mem, fp: nat, args: seq<W.Val>, i: nat): Mem
    requires i <= |args| <= 16 && fp + 1024 <= MEM_WORDS
    decreases |args| - i
  {
    if i == |args| then mem else Stored(mem[fp + 2 + i := W.Raw(args[i])], fp, args, i + 1)
  }

  lemma {:induction false} StoredAt(mem: Mem, fp: nat, args: seq<W.Val>, i: nat, a: nat)
    requires i <= |args| <= 16 && fp + 1024 <= MEM_WORDS && a < MEM_WORDS
    ensures Stored(mem, fp, args, i)[a]
         == if fp + 2 + i <= a < fp + 2 + |args| then W.Raw(args[a - fp - 2]) else mem[a]
    decreases |args| - i
  {
    if i < |args| { StoredAt(mem[fp + 2 + i := W.Raw(args[i])], fp, args, i + 1, a); }
  }

  /** One parameter goes from its register or the caller's frame to its slot. */
  lemma {:induction false} ParamRun(p: Program, s: State, args: seq<W.Val>, i: nat, fp: nat) returns (n: nat, t: State)
    requires i < |args| <= 16 && s.mode == Going && E.CodeSize(p.lines) <= fp && fp + 1024 <= MEM_WORDS
    requires s.reg[29] == fp && s.reg[31] == fp && ArgIn(args[i], i, s.reg, s.mem, fp + 1024)
    requires CodeAt(p.lines, s.line, ParamLines(i, |args|))
    ensures Goes(p, s, n, t) && t.mode == Going
    ensures forall r :: 0 <= r < 32 && r != 27 && r != 28 ==> t.reg[r] == s.reg[r]
    ensures t.mem == s.mem[fp + 2 + i := W.Raw(args[i])]
    ensures CodeAt(p.lines, t.line, ParamLines(i + 1, |args|))
    ensures t.line + |ParamLines(i + 1, |args|)| == s.line + |ParamLines(i, |args|)|
  {
    hide Goes, E.CodeSize, CodeAt, AddressOf, ParamLines, ParamHead;
    ParamSplit(i, |args|);
    CodeAtParts(p.lines, s.line, ParamHead(i), ParamLines(i + 1, |args|));
    n, t := OneParam(p, s, args[i], i, fp);
  }

  lemma {:induction false} ParamSplit(i: nat, count: nat)
    requires i < count <= 16
    ensures ParamLines(i, count) == ParamHead(i) + ParamLines(i + 1, count)
  {
  }

  lemma {:induction false} OneParam(p: Program, s: State, v: W.Val, i: nat, fp: nat) returns (n: nat, t: State)
    requires i < 16 && s.mode == Going && E.CodeSize(p.lines) <= fp && fp + 1024 <= MEM_WORDS
    requires s.reg[29] == fp && s.reg[31] == fp && ArgIn(v, i, s.reg, s.mem, fp + 1024)
    requires CodeAt(p.lines, s.line, ParamHead(i))
    ensures Goes(p, s, n, t) && t.mode == Going && t.line == s.line + |ParamHead(i)|
    ensures forall r :: 0 <= r < 32 && r != 27 && r != 28 ==> t.reg[r] == s.reg[r]
    ensures t.mem == s.mem[fp + 2 + i := W.Raw(v)]
  {
    hide Goes, E.CodeSize, CodeAt, AddressOf;
    CodeAtLine(p.lines, s.line, ParamHead(i), 0);
    if i < 4 {
      DoStore(p, s, i + 1, 29, 2 + i);
      n, t := 1, s.(line := s.line + 1, mem := s.mem[fp + 2 + i := W.Raw(v)]);
    } else {
      CodeAtLine(p.lines, s.line, ParamHead(i), 1);
      CodeAtLine(p.lines, s.line, ParamHead(i), 2);
      CodeAtLine(p.lines, s.line, ParamHead(i), 3);
      var s3 := FromCaller(p, s, i, fp, W.Raw(v));
      DoStore(p, s3, 28, 29, 2 + i);
      n, t := 4, s3.(line := s3.line + 1, mem := s.mem[fp + 2 + i := W.Raw(v)]);
      GoesTrans(p, s, 3, s3, 1, t);
    }
  }

  /** Argument `i` of the caller's outgoing words reaches R28. */
  lemma {:induction false} FromCaller(p: Program, s: State, i: nat, fp: nat, v: Word) returns (t: State)
    requires 4 <= i < 16 && fp + 1920 + i < MEM_WORDS && s.mem[fp + 1920 + i] == v && s.reg[31] == fp
    requires OnLine(p, s, Movi(28, 1920 + i)) && OnLine(p, s.(line := s.line + 1), RR(ADD, 28, 31, 28))
    requires OnLine(p, s.(line := s.line + 2), RI(LOAD, 28, 28, 0))
    ensures Goes(p, s, 3, t) && t == s.(line := s.line + 3, reg := t.reg) && t.reg[28] == v
    ensures forall r :: 0 <= r < 32 && r != 27 && r != 28 ==> t.reg[r] == s.reg[r]
  {
    hide Goes, Wrap;
    var s1 := DoMovi28(p, s, 1920 + i);
    DoAlu(p, s1, ADD, 28, 31, 28);
    SumFits(fp, i);
    var s2 := After(s1, 28, fp + 1920 + i);
    DoLoad(p, s2, 28, 28, 0);
    t := After(s2, 28, v);
    GoesTrans(p, s, 1, s1, 1, s2);
    GoesTrans(p, s, 2, s2, 1, t);
  }

  function ParamHead(i: nat): seq<Line>
    requires i < MAX_PARAMS
  {
    if i < 4 then [RI(STORE, i + 1, 29, 2 + i)]
    else [Movi(28, FRAME_WORDS + OUTGOING_BASE + i), RR(ADD, 28, 31, 28), RI(LOAD, 28, 28, 0), RI(STORE, 28, 29, 2 + i)]
  }

  lemma {:induction false} SumFits(fp: nat, i: nat)
    requires fp + 1920 + i < MEM_WORDS
    ensures Wrap(fp + (1920 + i)) == fp + 1920 + i
    ensures Address(fp + 1920 + i, 0) == fp + 1920 + i
  {
  }

  lemma {:induction false} ParamsRun(p: Program, s: State, args: seq<W.Val>, i: nat, fp: nat) returns (n: nat, t: State)
    requires i <= |args| <= 16 && s.mode == Going && E.CodeSize(p.lines) <= fp && fp + 1024 <= MEM_WORDS
    requires s.reg[29] == fp && s.reg[31] == fp
    requires forall j :: i <= j < |args| ==> ArgIn(args[j], j, s.reg, s.mem, fp + 1024)
    requires CodeAt(p.lines, s.line, ParamLines(i, |args|))
    ensures Goes(p, s, n, t) && t.mode == Going && t.line == s.line + |ParamLines(i, |args|)|
    ensures forall r :: 0 <= r < 32 && r != 27 && r != 28 ==> t.reg[r] == s.reg[r]
    ensures t.mem == Stored(s.mem, fp, args, i)
    decreases |args| - i
  {
    hide Goes, E.CodeSize, CodeAt;
    if i == |args| {
      GoesZero(p, s);
      n, t := 0, s;
    } else {
      var a, u := ParamRun(p, s, args, i, fp);
      var b, v := ParamsRun(p, u, args, i + 1, fp);
      GoesTrans(p, s, a, u, b, v);
      n, t := a + b, v;
    }
  }

  // ----- the body -----

  datatype Body = Body(code: seq<W.Instr>, ctx: W.Context)

  /** The body checks and fits, and the program holds its translation from the caller's line on.  It may end
      anyhow: a branch to its own frame, and falling off its end, leave the result behind like any operand. */
  predicate Compiled(k: Call, b: Body) {
    b.ctx.locals == k.locals && b.ctx.result.Some? == k.f.hasResult && (b.ctx.atomic ==> k.p.atomic) &&
    W.CheckSeq(b.code, W.Live([]), [[]], b.ctx).Some? && Fits(b.code, b.ctx, k.f) &&
    |k.args| <= 16 && |b.ctx.locals| <= k.f.slots &&
    CodeAt(k.p.lines, k.s.line, Printed(b.code, b.ctx, k.f, |k.args|))
  }

  /** The lines of the body. */
  function Out(k: Call, b: Body): seq<Line> {
    match EmitAll(Flatten(b.code), Start(), k.f)
    case None => []
    case Some(o) => o.0
  }

  function BodyLine(k: Call): nat
    requires |k.args| <= MAX_PARAMS
  {
    k.s.line + 6 + |ParamLines(0, |k.args|)|
  }

  /** The translation cut at the seams between prologue, body and epilogue. */
  lemma {:induction false} Layout(k: Call, b: Body)
    requires Compiled(k, b)
    ensures CodeAt(k.p.lines, k.s.line, [LabelDef(EntryName(k.f))] + ENTER)
    ensures CodeAt(k.p.lines, k.s.line + 6, ParamLines(0, |k.args|))
    ensures CodeAt(k.p.lines, BodyLine(k), Out(k, b))
    ensures CodeAt(k.p.lines, BodyLine(k) + |Out(k, b)|, [LabelDef(ReturnName(k.f))] + LEAVE)
    ensures EmitAll(Flatten(b.code), Start(), k.f).Some?
  {
    hide CodeAt, EmitAll, Flatten, W.CheckSeq, Fits, ParamLines, Printed, Out, Translated;
    FinalEnd(k, b);
    var head, params := [LabelDef(EntryName(k.f))] + ENTER, ParamLines(0, |k.args|);
    var tail := [LabelDef(ReturnName(k.f))] + LEAVE;
    PrintedParts(k, b);
    Regrouped(head, params, Out(k, b), tail);
    CodeAtParts(k.p.lines, k.s.line, head, params + (Out(k, b) + tail));
    CodeAtParts(k.p.lines, k.s.line + 6, params, Out(k, b) + tail);
    CodeAtParts(k.p.lines, BodyLine(k), Out(k, b), tail);
  }

  lemma Regrouped<T>(a: seq<T>, b: seq<T>, c: seq<T>, d: seq<T>)
    ensures a + b + c + d == a + (b + (c + d))
  {
  }

  lemma {:induction false} PrintedParts(k: Call, b: Body)
    requires Compiled(k, b)
    ensures Printed(b.code, b.ctx, k.f, |k.args|)
         == [LabelDef(EntryName(k.f))] + ENTER + ParamLines(0, |k.args|) + Out(k, b)
            + ([LabelDef(ReturnName(k.f))] + LEAVE)
  {
    hide CodeAt, EmitAll, Flatten, W.CheckSeq, Fits, ParamLines, Printed, Out;
    FinalEnd(k, b);
    var a := [LabelDef(EntryName(k.f))] + ENTER + ParamLines(0, |k.args|) + Out(k, b);
    assert a + [LabelDef(ReturnName(k.f))] + LEAVE == a + ([LabelDef(ReturnName(k.f))] + LEAVE);
  }

  /** The last end closes the function frame and prints nothing. */
  lemma {:induction false} FinalEnd(k: Call, b: Body)
    requires W.CheckSeq(b.code, W.Live([]), [[]], b.ctx).Some? && Fits(b.code, b.ctx, k.f)
    requires |b.ctx.locals| <= k.f.slots && b.ctx.result.Some? == k.f.hasResult
    ensures EmitAll(Flatten(b.code), Start(), k.f).Some? && EmitAll(Flatten(b.code) + [OpEnd], Start(), k.f).Some?
    ensures EmitAll(Flatten(b.code) + [OpEnd], Start(), k.f).value.0 == Out(k, b)
  {
    hide EmitAll, Flatten, W.CheckSeq, Fits;
    TranslatedExact(b.code, b.ctx, k.f, 0);
    EmitAppend(Flatten(b.code), [OpEnd], Start(), k.f);
    var x := EmitAll(Flatten(b.code), Start(), k.f).value;
    SeqState(b.code, W.Live([]), [[]], b.ctx, Start(), k.f);
    EmitOne(OpEnd, x.1, k.f);
    assert x.0 + [] == x.0;
  }

  function SiteOf(k: Call, b: Body, mem: Mem): Site
    requires FRAME_WORDS <= Sp(k) && |k.args| <= MAX_PARAMS
  {
    Site(k.p, k.f, Fp(k), BodyLine(k) + |Out(k, b)|, mem, k.locals)
  }

  /** After the prologue the frame represents the initial locals and an empty stack. */
  lemma {:induction false} Prologue(k: Call, b: Body) returns (n: nat, t: State)
    requires Callable(k) && Compiled(k, b) && Readable(k)
    ensures Goes(k.p, k.s, n, t) && t.line == BodyLine(k) && GoodSite(SiteOf(k, b, t.mem))
    ensures Match(SiteOf(k, b, t.mem), W.Config([], FrameLocals(k)), [], t)
    ensures t.mem[Fp(k)] == k.s.reg[30] && t.mem[Fp(k) + 1] == k.s.reg[29]
    ensures forall a :: 0 <= a < MEM_WORDS && !(Fp(k) <= a < Fp(k) + 1024) ==> t.mem[a] == k.s.mem[a]
    ensures forall r :: 4 < r < 25 ==> t.reg[r] == k.s.reg[r]
  {
    hide Goes, E.CodeSize, CodeAt, DistinctLabels, Compiled, Match, GoodSite, FrameLocals, Readable, Stored, ArgIn;
    Layout(k, b);
    var u := EnterRun(k);
    ArgsSurvive(k, u);
    var m;
    m, t := ParamsRun(k.p, u, k.args, 0, Fp(k));
    n := 6 + m;
    GoesTrans(k.p, k.s, 6, u, m, t);
    CodeAtLine(k.p.lines, BodyLine(k) + |Out(k, b)|, [LabelDef(ReturnName(k.f))] + LEAVE, 0);
    FrameFilled(k, u.mem, t.mem);
    FrameMatches(k, b, t);
  }

  lemma {:induction false} FrameMatches(k: Call, b: Body, t: State)
    requires Callable(k) && t.mode == Going && t.reg[0] == 0 && t.reg[29] == Fp(k) && t.reg[31] == Fp(k)
    requires BodyLine(k) + |Out(k, b)| < |k.p.lines|
    requires k.p.lines[BodyLine(k) + |Out(k, b)|] == LabelDef(ReturnName(k.f))
    requires var locals := FrameLocals(k);
             |locals| == |k.locals| &&
             forall i :: 0 <= i < |locals| ==>
               W.TypeOf(locals[i]) == k.locals[i] && t.mem[Fp(k) + 2 + i] == W.Raw(locals[i])
    ensures GoodSite(SiteOf(k, b, t.mem)) && Match(SiteOf(k, b, t.mem), W.Config([], FrameLocals(k)), [], t)
  {
    hide E.CodeSize, DistinctLabels, ArgsIn, FrameLocals, Out, W.Raw;
  }

  lemma {:induction false} ArgsSurvive(k: Call, u: State)
    requires Callable(k) && u.mem == k.s.mem[Fp(k) := k.s.reg[30]][Fp(k) + 1 := k.s.reg[29]]
    requires forall r :: 0 <= r < 32 && r != 28 && r != 29 && r != 31 ==> u.reg[r] == k.s.reg[r]
    ensures forall j :: 0 <= j < |k.args| ==> ArgIn(k.args[j], j, u.reg, u.mem, Sp(k))
  {
    hide E.CodeSize, DistinctLabels;
    forall j | 0 <= j < |k.args| ensures ArgIn(k.args[j], j, u.reg, u.mem, Sp(k)) {
      assert ArgIn(k.args[j], j, k.s.reg, k.s.mem, Sp(k));
    }
  }

  lemma {:induction false} FoundWord(k: Call, um: Mem, i: nat)
    requires Callable(k) && Readable(k) && um == k.s.mem[Fp(k) := k.s.reg[30]][Fp(k) + 1 := k.s.reg[29]]
    requires |k.args| <= i < |k.locals|
    ensures um[Fp(k) + 2 + i] == W.Raw(FrameLocals(k)[i]) && W.TypeOf(FrameLocals(k)[i]) == k.locals[i]
  {
    hide E.CodeSize, DistinctLabels, ArgsIn;
    var w := k.s.mem[Fp(k) + 2 + i];
    assert w < W.Modulus(k.locals[Fp(k) + 2 + i - Fp(k) - 2]);
    LocalAt(k, i);
    SmallWord(k.locals[i], w);
  }

  lemma {:induction false} FrameFilled(k: Call, um: Mem, tm: Mem)
    requires Callable(k) && Readable(k) && um == k.s.mem[Fp(k) := k.s.reg[30]][Fp(k) + 1 := k.s.reg[29]]
    requires tm == Stored(um, Fp(k), k.args, 0)
    ensures tm[Fp(k)] == k.s.reg[30] && tm[Fp(k) + 1] == k.s.reg[29]
    ensures forall a :: 0 <= a < MEM_WORDS && !(Fp(k) <= a < Fp(k) + 1024) ==> tm[a] == k.s.mem[a]
    ensures var locals := FrameLocals(k);
            |locals| == |k.locals| &&
            forall i :: 0 <= i < |locals| ==>
              W.TypeOf(locals[i]) == k.locals[i] && tm[Fp(k) + 2 + i] == W.Raw(locals[i])
  {
    hide E.CodeSize, DistinctLabels, ArgsIn, Stored, Readable, W.Raw, W.TypeOf;
    forall a | 0 <= a < MEM_WORDS
      ensures tm[a] == if Fp(k) + 2 <= a < Fp(k) + 2 + |k.args| then W.Raw(k.args[a - Fp(k) - 2]) else um[a]
    {
      StoredAt(um, Fp(k), k.args, 0, a);
    }
    var locals := FrameLocals(k);
    forall i | 0 <= i < |locals|
      ensures W.TypeOf(locals[i]) == k.locals[i] && tm[Fp(k) + 2 + i] == W.Raw(locals[i])
    {
      if i >= |k.args| { FoundWord(k, um, i); }
    }
  }

  // ----- epilogue -----

  /** The line of the return jump. */
  function ReturnLine(k: Call, b: Body): nat
    requires |k.args| <= MAX_PARAMS
  {
    BodyLine(k) + |Out(k, b)| + 6
  }

  /** Registers and memory as the caller gets them back: only scratch registers, the operand
      registers and the words of the frame may differ. */
  predicate Restored(k: Call, mem: Mem, t: State)
    requires FRAME_WORDS <= Sp(k) <= MEM_WORDS
  {
    t.mode == Going && t.reg[0] == 0 && t.reg[29] == k.s.reg[29] && t.reg[30] == k.s.reg[30] && t.reg[31] == Sp(k) &&
    t.mem == mem
  }

  /** The seven lines after the body. */
  lemma {:induction false} LeaveLines(k: Call, b: Body)
    requires Compiled(k, b)
    ensures var at, code := BodyLine(k) + |Out(k, b)|, [LabelDef(ReturnName(k.f))] + LEAVE;
            |code| == 7 && at + 7 <= |k.p.lines| && at + 6 == ReturnLine(k, b) &&
            k.p.lines[at] == code[0] && k.p.lines[at + 1] == code[1] && k.p.lines[at + 2] == code[2] &&
            k.p.lines[at + 3] == code[3] && k.p.lines[at + 4] == code[4] && k.p.lines[at + 5] == code[5] &&
            k.p.lines[at + 6] == code[6]
  {
    hide CodeAt, EmitAll, Flatten, Translated, W.CheckSeq, DistinctLabels, E.CodeSize, ParamLines;
    Layout(k, b);
    var at, code := BodyLine(k) + |Out(k, b)|, [LabelDef(ReturnName(k.f))] + LEAVE;
    CodeAtLine(k.p.lines, at, code, 0);
    CodeAtLine(k.p.lines, at, code, 1);
    CodeAtLine(k.p.lines, at, code, 2);
    CodeAtLine(k.p.lines, at, code, 3);
    CodeAtLine(k.p.lines, at, code, 4);
    CodeAtLine(k.p.lines, at, code, 5);
    CodeAtLine(k.p.lines, at, code, 6);
  }

  lemma {:induction false} Epilogue(k: Call, b: Body, mem: Mem, u: State) returns (t: State)
    requires Callable(k) && Compiled(k, b) && GoodSite(SiteOf(k, b, mem)) && Base(SiteOf(k, b, mem), u)
    requires u.line == BodyLine(k) + |Out(k, b)|
    requires mem[Fp(k)] == k.s.reg[30] && mem[Fp(k) + 1] == k.s.reg[29]
    ensures Goes(k.p, u, 6, t) && Restored(k, u.mem, t) && t.line == ReturnLine(k, b)
    ensures t.reg[7] == u.reg[7]
  {
    hide Goes, DistinctLabels, E.CodeSize, ArgsIn, Wrap, CodeAt, Compiled;
    LeaveLines(k, b);
    var at := u.line;
    DoLabel(k.p, u, ReturnName(k.f));
    var s1 := u.(line := at + 1);
    var s2 := Reload(k.p, s1, Fp(k), k.s.reg[30], k.s.reg[29]);
    t := DropFrame(k.p, s2, Sp(k));
    GoesTrans(k.p, u, 1, s1, 2, s2);
    GoesTrans(k.p, u, 3, s2, 3, t);
  }

  lemma {:induction false} Reload(p: Program, s: State, fp: nat, ra: Word, old_fp: Word) returns (t: State)
    requires s.reg[29] == fp && fp + 1 < MEM_WORDS && s.mem[fp] == ra && s.mem[fp + 1] == old_fp
    requires OnLine(p, s, RI(LOAD, 30, 29, 0)) && OnLine(p, s.(line := s.line + 1), RI(LOAD, 28, 29, 1))
    ensures Goes(p, s, 2, t) && t == s.(line := s.line + 2, reg := Put(Put(s.reg, 30, ra), 28, old_fp))
  {
    hide Goes;
    DoLoad(p, s, 30, 29, 0);
    var s1 := After(s, 30, ra);
    DoLoad(p, s1, 28, 29, 1);
    t := After(s1, 28, old_fp);
    GoesTrans(p, s, 1, s1, 1, t);
  }

  lemma {:induction false} DropFrame(p: Program, s: State, sp: nat) returns (t: State)
    requires 1024 <= sp <= MEM_WORDS && s.reg[31] == sp - 1024
    requires OnLine(p, s, Movi(1, 1024)) && OnLine(p, s.(line := s.line + 1), RR(ADD, 31, 31, 1))
    requires OnLine(p, s.(line := s.line + 2), Mov(29, 28))
    ensures Goes(p, s, 3, t) && t == s.(line := s.line + 3, reg := t.reg)
    ensures t.reg[31] == sp && t.reg[29] == s.reg[28]
    ensures forall r :: 0 <= r < 32 && r != 1 && r != 27 && r != 29 && r != 31 ==> t.reg[r] == s.reg[r]
  {
    hide Goes, Wrap;
    FrameAddress(sp);
    var s1 := DoMovi1(p, s, 1024);
    DoAlu(p, s1, ADD, 31, 31, 1);
    var s2 := After(s1, 31, sp);
    DoMov(p, s2, 29, 28);
    t := After(s2, 29, s.reg[28]);
    GoesTrans(p, s, 1, s1, 1, s2);
    GoesTrans(p, s, 2, s2, 1, t);
  }

  lemma {:induction false} DoMovi1(p: Program, s: State, v: Imm64) returns (t: State)
    requires v >= 0 && OnLine(p, s, Movi(1, v))
    ensures Goes(p, s, 1, t) && t == s.(line := s.line + 1, reg := t.reg)
    ensures t.reg[1] == v && forall j :: 0 <= j < 32 && j != 27 && j != 1 ==> t.reg[j] == s.reg[j]
  {
    hide Pow2, MoviBytes, AddressOf, LineOf;
    t := Meaning(p, s);
    MoviKeeps(v);
    WrapWord(v);
    GoesOne(p, s);
  }

  // ----- the whole call -----

  /** What the caller finds.  A result reaches R7 only through an explicit return: the function's
      end, and a branch to its frame, leave it on the operand stack. */
  predicate Answered(k: Call, b: Body, o: W.Outcome, n: nat, fuel: nat, t: State)
    requires Callable(k)
  {
    match o
    case Normal(_) => Back(k, b, t)
    case Branching(l, _) => l == 0 && Back(k, b, t)
    case Returned(c) =>
      Back(k, b, t) && (k.f.hasResult ==> |c.stack| >= 1 && t.reg[7] == W.Raw(W.Operand(c, 0)))
    case Trap => t.mode.Stopped? || t.mode.Faulted?
    case Stuck => false
    case Timeout => n >= fuel && t.mode.Going? && t.line < |k.p.lines|
  }

  /** Control is at the return jump; the caller's frame registers and memory are as they were. */
  predicate Back(k: Call, b: Body, t: State)
    requires Callable(k)
  {
    t.mode == Going && t.line == ReturnLine(k, b) && t.reg[0] == 0 &&
    t.reg[29] == k.s.reg[29] && t.reg[30] == k.s.reg[30] && t.reg[31] == k.s.reg[31] &&
    forall a :: 0 <= a < MEM_WORDS && !(Fp(k) <= a < Fp(k) + 1024) ==> t.mem[a] == k.s.mem[a]
  }

  /** The translated function carries out every run of its body. */
  lemma {:induction false} CallSimulated(k: Call, b: Body, fuel: nat) returns (n: nat, t: State)
    requires Callable(k) && Compiled(k, b) && Readable(k)
    ensures Goes(k.p, k.s, n, t)
    ensures Answered(k, b, W.ExecSeq(b.code, W.Config([], FrameLocals(k)), fuel), n, fuel, t)
    ensures var o := W.ExecSeq(b.code, W.Config([], FrameLocals(k)), fuel);
            o.Normal? || o.Branching? ==>
              t.reg[7] == W.FourthSeq(b.code, W.Config([], FrameLocals(k)), fuel, k.s.reg[7])
  {
    hide Goes, E.CodeSize, CodeAt, DistinctLabels, Callable, Match, EmitAll, Flatten, W.CheckSeq, W.ExecSeq, GoodSite;
    var a, u := Prologue(k, b);
    ArgsAreLocals(k);
    Layout(k, b);
    var e := SiteOf(k, b, u.mem);
    var sc := Scope([[]], [e.ret]);
    StartAligned(k, b, e, sc);
    var c := W.Config([], FrameLocals(k));
    var j := Job(e, c, [], Start(), u, Out(k, b), EmitAll(Flatten(b.code), Start(), k.f).value.1, sc, b.ctx);
    var m, v := SimulateSeq(b.code, j, fuel);
    GoesTrans(k.p, k.s, a, u, m, v);
    n, t := a + m, v;
    var o := W.ExecSeq(b.code, c, fuel);
    if o.Normal? || o.Branching? || o.Returned? {
      AtReturn(e, o, W.CheckSeq(b.code, W.Live([]), [[]], b.ctx).value, sc, e.ret, v);
      t := Epilogue(k, b, u.mem, v);
      GoesTrans(k.p, k.s, n, v, 6, t);
      n := n + 6;
      CallerMemory(k, e, u.mem, v.mem);
    }
  }

  lemma {:induction false} ArgsAreLocals(k: Call)
    requires Callable(k)
    ensures |k.args| <= |k.locals| <= 1022 && |k.args| <= MAX_PARAMS && FRAME_WORDS <= Sp(k) <= MEM_WORDS
  {
    hide E.CodeSize, DistinctLabels, ArgsIn;
  }

  lemma {:induction false} StartAligned(k: Call, b: Body, e: Site, sc: Scope)
    requires Callable(k) && Compiled(k, b) && GoodSite(e) && e == SiteOf(k, b, e.mem0)
    requires sc == Scope([[]], [e.ret])
    ensures Aligned(e, Start(), sc, b.ctx)
  {
    hide E.CodeSize, CodeAt, DistinctLabels;
  }

  lemma {:induction false} AtReturn(e: Site, o: W.Outcome, h: W.Height, sc: Scope, end: nat, t: State)
    requires GoodSite(e) && |sc.labels| == |sc.targets| == 1 && Represents(e, o, h, sc, end, t)
    requires sc.targets[0] == e.ret == end && (o.Normal? || o.Branching? || o.Returned?)
    ensures Base(e, t) && t.line == e.ret && (o.Branching? ==> o.depth == 0)
  {
  }

  lemma {:induction false} CallerMemory(k: Call, e: Site, um: Mem, vm: Mem)
    requires Callable(k) && e.fp == Fp(k) && e.locals == k.locals && e.mem0 == um && OutsideKept(e, vm)
    requires forall a :: 0 <= a < MEM_WORDS && !(Fp(k) <= a < Fp(k) + 1024) ==> um[a] == k.s.mem[a]
    ensures forall a :: 0 <= a < MEM_WORDS && !(Fp(k) <= a < Fp(k) + 1024) ==> vm[a] == k.s.mem[a]
  {
    hide E.CodeSize, DistinctLabels;
  }

  // ----- as words -----

  lemma {:induction false} ReturnJump(k: Call, b: Body, t: State) returns (c: Cpu)
    requires Callable(k) && Compiled(k, b) && Back(k, b, t) && E.CodeIn(t.mem, k.p.lines)
    ensures t.line < |k.p.lines| && c == Run(E.CpuOf(k.p, t), 1)
    ensures c == E.CpuOf(k.p, t).(pc := k.s.reg[30] % 0x1_0000)
  {
    hide E.CodeSize, CodeAt, DistinctLabels, Compiled, ArgsIn, Step, E.At, E.CodeIn, Run;
    LeaveLines(k, b);
    E.ReturnLands(k.p, t, 30);
    c := Run(E.CpuOf(k.p, t), 1);
  }

  /** The processor's state after `n` steps: the call is over, or `fuel` turns of its loops were not
      enough and `n` grows with `fuel`. */
  predicate Finished(k: Call, o: W.Outcome, fuel: nat, n: nat, c: Cpu)
    requires Callable(k)
  {
    match o
    case Trap => c.status != Running
    case Stuck => false
    case Timeout => c.status == Running && fuel <= E.Span(n, |k.p.lines|) + |k.p.lines|
    case Normal(_) => CameBack(k, c)
    case Branching(l, _) => l == 0 && CameBack(k, c)
    case Returned(rc) =>
      CameBack(k, c) && (k.f.hasResult ==> |rc.stack| >= 1 && c.reg[7] == W.Raw(W.Operand(rc, 0)))
  }

  /** Running at the caller's return address, the caller's frame as it was. */
  predicate CameBack(k: Call, c: Cpu)
    requires Callable(k)
  {
    c.status == Running && c.pc == k.s.reg[30] % 0x1_0000 &&
    c.reg[0] == 0 && c.reg[29] == k.s.reg[29] && c.reg[30] == k.s.reg[30] && c.reg[31] == k.s.reg[31] &&
    forall a :: 0 <= a < MEM_WORDS && !(Fp(k) <= a < Fp(k) + 1024) ==> c.mem[a] == k.s.mem[a]
  }

  /** The assembled words of a translated function, run by the processor from the function's
      entry, do what the WebAssembly body does and come back to the caller. */
  lemma {:induction false} CallOnProcessor(k: Call, b: Body, fuel: nat) returns (n: nat, c: Cpu)
    requires Entered(k) && Compiled(k, b) && LocalsCleared(k) && !k.p.atomic
    requires Assembler.Assembled(k.p.lines).Some?
    requires Assembler.LabelCount(k.p.lines, |k.p.lines|) <= Assembler.MAX_LABELS
    requires Assembler.Loaded(k.s.mem, Assembler.Assembled(k.p.lines).value)
    ensures Callable(k) && k.s.line < |k.p.lines| && c == Run(E.CpuOf(k.p, k.s), n)
    ensures Finished(k, W.ExecSeq(b.code, W.Config([], InitialLocals(k)), fuel), fuel, n, c)
  {
    hide E.CodeSize, E.CodeIn, DistinctLabels, Compiled, ArgsIn, W.ExecSeq, Assembler.Assembled, Assembler.Loaded,
         Assembler.LabelCount, E.Contained, Steps, AddressOf, Run, Translation.Flatten, E.Span, FrameLocals,
         InitialLocals, LocalsCleared, Restored, Out;
    Assembler.AssembledExact(k.p.lines);
    CodeFits(k, b);
    ClearedExact(k);
    Assembler.AssembledCodeIn(k.p.lines, k.s.mem);
    var m, t := CallSimulated(k, b, fuel);
    n := E.RunRefines(k.p, k.s, m);
    c := E.CpuOf(k.p, t);
    var o := W.ExecSeq(b.code, W.Config([], FrameLocals(k)), fuel);
    if o.Normal? || o.Branching? || o.Returned? {
      c := ReturnJump(k, b, t);
      RunAdd(E.CpuOf(k.p, k.s), n, 1);
      n := n + 1;
    }
  }

  /** A run that ends in `return`, wherever in the body, brings its result to the caller in R7. */
  lemma {:induction false} ReturnDelivers(k: Call, b: Body, fuel: nat) returns (n: nat)
    requires Entered(k) && Compiled(k, b) && LocalsCleared(k) && !k.p.atomic && k.f.hasResult
    requires Assembler.Assembled(k.p.lines).Some?
    requires Assembler.LabelCount(k.p.lines, |k.p.lines|) <= Assembler.MAX_LABELS
    requires Assembler.Loaded(k.s.mem, Assembler.Assembled(k.p.lines).value)
    requires W.ExecSeq(b.code, W.Config([], InitialLocals(k)), fuel).Returned?
    ensures Callable(k) && k.s.line < |k.p.lines|
    ensures var c, rc := Run(E.CpuOf(k.p, k.s), n), W.ExecSeq(b.code, W.Config([], InitialLocals(k)), fuel).c;
            CameBack(k, c) && |rc.stack| >= 1 && c.reg[7] == W.Raw(W.Operand(rc, 0))
  {
    hide E.CodeSize, Compiled, ArgsIn, W.ExecSeq, Assembler.Assembled, Assembler.Loaded, Assembler.LabelCount, Run,
         CameBack, Entered, LocalsCleared;
    var c;
    n, c := CallOnProcessor(k, b, fuel);
  }

  /** A body that no number of loop turns brings to an end keeps the processor running for ever. */
  lemma {:induction false} NeverStops(k: Call, b: Body, m: nat)
    requires Entered(k) && Compiled(k, b) && LocalsCleared(k) && !k.p.atomic
    requires Assembler.Assembled(k.p.lines).Some?
    requires Assembler.LabelCount(k.p.lines, |k.p.lines|) <= Assembler.MAX_LABELS
    requires Assembler.Loaded(k.s.mem, Assembler.Assembled(k.p.lines).value)
    requires forall fuel :: W.ExecSeq(b.code, W.Config([], InitialLocals(k)), fuel).Timeout?
    ensures k.s.line < |k.p.lines| && Run(E.CpuOf(k.p, k.s), m).status == Running
  {
    hide E.CodeSize, Compiled, ArgsIn, W.ExecSeq, Assembler.Assembled, Assembler.Loaded, Assembler.LabelCount, Run,
         CameBack, LocalsCleared, E.Span;
    var lines := |k.p.lines|;
    var n, c := CallOnProcessor(k, b, E.Span(m, lines) + lines + 1);
    E.SpanMore(m, n, lines);
    E.RunningBefore(E.CpuOf(k.p, k.s), m, n);
  }

  lemma {:induction false} CodeFits(k: Call, b: Body)
    requires Callable(k) && Compiled(k, b)
    ensures E.CodeSize(k.p.lines) < MEM_WORDS && k.s.line < |k.p.lines|
  {
    hide E.CodeSize, DistinctLabels, ArgsIn, EmitAll, Translation.Flatten, W.CheckSeq;
  }

  // ----- what the translation gets wrong -----

  /** Neither the function's end nor a branch to its frame moves the result to R7: R7 is the register of
      the fourth operand, and comes back with the last value that was one, or as it was at entry.  The
      answer is right exactly when that is the result. */
  lemma {:induction false} FallThroughResult(k: Call, b: Body, fuel: nat) returns (n: nat, t: State)
    requires Callable(k) && Compiled(k, b) && Readable(k) && k.f.hasResult
    requires var o := W.ExecSeq(b.code, W.Config([], FrameLocals(k)), fuel); o.Normal? || o.Branching?
    ensures Goes(k.p, k.s, n, t) && Back(k, b, t)
    ensures var c := W.Config([], FrameLocals(k));
            var o, q := W.ExecSeq(b.code, c, fuel), W.FourthSeq(b.code, c, fuel, k.s.reg[7]);
            t.reg[7] == q && (|o.c.stack| >= 1 ==>
              (t.reg[7] == W.Raw(W.Operand(o.c, 0)) <==> q == W.Raw(W.Operand(o.c, 0))))
  {
    hide Callable, Compiled, Readable, W.ExecSeq, W.FourthSeq, FrameLocals, Back, W.Raw;
    n, t := CallSimulated(k, b, fuel);
  }

  /** `return` sets the translator's operand count to zero and no frame sets it back: behind a block that
      ends in `return`, the count is that of the operands exactly when the block was entered without any. */
  lemma {:induction false} ReturnBlockCount(code: seq<W.Instr>, ts: seq<W.ValType>, st: TState, f: Func)
    requires st.depth == |ts| && EmitAll(FlattenOne(W.Block(code + [W.Do(W.Return)])), st, f).Some?
    ensures var d := EmitAll(FlattenOne(W.Block(code + [W.Do(W.Return)])), st, f).value.1.depth;
            d == 0 && (d == |ts| <==> ts == [])
  {
    hide EmitAll, FlattenOne;
    DeadInstrState(W.Block(code + [W.Do(W.Return)]), st, f);
    W.DeadAppend(code, [W.Do(W.Return)], st.depth);
    assert [W.Do(W.Return)][1..] == [];
    assert W.DeadSeq([W.Do(W.Return)], W.DeadSeq(code, st.depth)) == W.DeadSeq([], 0) == 0;
  }

  /** The same for an arm of `if`: what follows it, the code behind `end` or the `else` arm, is translated
      from count zero, which is right exactly when the condition was the only operand. */
  lemma {:induction false} ReturnArmCount(thn: seq<W.Instr>, els: seq<W.Instr>, ts: seq<W.ValType>, st: TState, f: Func)
    requires st.depth == |ts| && ts != []
    requires EmitAll(FlattenOne(W.If(thn + [W.Do(W.Return)])), st, f).Some?
    requires EmitAll(FlattenOne(W.IfElse(thn + [W.Do(W.Return)], els)), st, f).Some?
    ensures var d := EmitAll(FlattenOne(W.If(thn + [W.Do(W.Return)])), st, f).value.1.depth;
            d == 0 && (d == |ts| - 1 <==> |ts| == 1)
    ensures EmitAll(FlattenOne(W.IfElse(thn + [W.Do(W.Return)], els)), st, f).value.1.depth == W.DeadSeq(els, 0)
  {
    hide EmitAll, FlattenOne;
    DeadInstrState(W.If(thn + [W.Do(W.Return)]), st, f);
    DeadInstrState(W.IfElse(thn + [W.Do(W.Return)], els), st, f);
    W.DeadAppend(thn, [W.Do(W.Return)], |ts| - 1);
    assert [W.Do(W.Return)][1..] == [];
    assert W.DeadSeq([W.Do(W.Return)], W.DeadSeq(thn, |ts| - 1)) == W.DeadSeq([], 0) == 0;
  }

  /** Where control finds the operands `ts` but the translator counts `st.depth`, a constant goes to the
      wrong register: the operands are in place exactly when the two agree or the registers already held
      the right values. */
  lemma {:induction false} PushExact(e: Site, c: W.Config, ts: seq<W.ValType>, s: State, st: TState, v: Imm64)
    returns (t: State)
    requires GoodSite(e) && Match(e, c, ts, s) && |ts| <= 20 && st.depth <= 20 && Fits11(v)
    requires EmitLeaf(W.Const(W.T64, v), st, e.f).Some?
    requires CodeAt(e.p.lines, s.line, EmitLeaf(W.Const(W.T64, v), st, e.f).value.0)
    ensures Goes(e.p, s, 1, t)
    ensures StackIn(c.stack + [W.Make(W.T64, v)], ts + [W.T64], t.reg)
       <==> st.depth == |ts|
            || (s.reg[4 + |ts|] == Wrap(v) && (st.depth < |ts| ==> W.Raw(c.stack[st.depth]) == Wrap(v)))
  {
    hide Goes, E.CodeSize, DistinctLabels, MoviBytes;
    var line := ConstLine(4 + st.depth, v);
    CodeAtLine(e.p.lines, s.line, [line], 0);
    DoImm(e.p, s, 4 + st.depth, v);
    t := After(s, 4 + st.depth, Wrap(v));
    var stack, types := c.stack + [W.Make(W.T64, v)], ts + [W.T64];
    assert stack[|ts|] == W.Make(W.T64, v) && W.Raw(W.Make(W.T64, v)) == Wrap(v);
    if st.depth < |ts| { assert stack[st.depth] == c.stack[st.depth]; }
  }
}
