/** The code emitted for an expression computes its value, updates exactly the variables it
    assigns, and leaves every temporary that was in use alone. */
module CExpressions {
  import opened Words
  import opened Machine
  import opened Assembly
  import opened CSyntax
  import opened CMeaning
  import opened CUses
  import C = CCode
  import E = Expansion
  import opened Runs

  /** What stays fixed while a function body runs: program, frame, the rest of memory, and how many
      words of the frame are variables. */
  datatype Frame = Frame(p: Program, fp: nat, mem0: Mem, size: nat)

  predicate Good(k: Frame) {
    DistinctLabels(k.p.lines) && E.CodeSize(k.p.lines) <= k.fp && k.fp + 2 + k.size <= MEM_WORDS && k.size <= 1000
  }

  /** The frame holds the variables; nothing else in memory has changed. */
  predicate InMemory(k: Frame, env: Env, mem: Mem) {
    |env| == k.size && k.fp + 2 + k.size <= MEM_WORDS &&
    (forall j :: 0 <= j < |env| ==> mem[k.fp + 2 + j] == env[j]) &&
    forall a :: 0 <= a < MEM_WORDS && !(k.fp + 2 <= a < k.fp + 2 + k.size) ==> mem[a] == k.mem0[a]
  }

  predicate Held(k: Frame, env: Env, s: State) {
    s.mode == Going && s.reg[0] == 0 && s.reg[C.FP] == k.fp && InMemory(k, env, s.mem)
  }

  predicate KeepsFrame(a: Regs, b: Regs) { a[0] == b[0] && a[29] == b[29] && a[30] == b[30] && a[31] == b[31] }

  /** R0, the frame registers and every temporary outside `w` are unchanged. */
  predicate KeepsRegs(a: Regs, b: Regs, w: Span) {
    KeepsFrame(a, b) && forall q :: 5 <= q <= 27 && !Covers(w, q) ==> a[q] == b[q]
  }

  /** After `n` steps control is `len` lines further on, the variables are `env`. */
  ghost predicate Reach(k: Frame, s: State, len: nat, env: Env, w: Span, n: nat, t: State) {
    Goes(k.p, s, n, t) && t.line == s.line + len && Held(k, env, t) && KeepsRegs(s.reg, t.reg, w)
  }

  lemma {:induction false} KeepsTrans(a: Regs, b: Regs, c: Regs, w1: Span, w2: Span, w: Span)
    requires KeepsRegs(a, b, w1) && KeepsRegs(b, c, w2) && Within(w1, w) && Within(w2, w)
    ensures KeepsRegs(a, c, w)
  {
    forall q | 5 <= q <= 27 && !Covers(w, q) ensures a[q] == c[q] {
      assert !Covers(w1, q) && !Covers(w2, q);
    }
  }

  lemma {:induction false} ReachTrans(k: Frame, s: State, len1: nat, env1: Env, w1: Span, n1: nat, t: State,
                                      len2: nat, env2: Env, w2: Span, n2: nat, u: State, w: Span)
    requires Reach(k, s, len1, env1, w1, n1, t) && Reach(k, t, len2, env2, w2, n2, u) && Within(w1, w) && Within(w2, w)
    ensures Reach(k, s, len1 + len2, env2, w, n1 + n2, u)
  {
    hide Goes, Held, KeepsRegs, Within;
    GoesTrans(k.p, s, n1, t, n2, u);
    KeepsTrans(s.reg, t.reg, u.reg, w1, w2, w);
  }

  /** One line that only writes scratch or registers of `w`. */
  lemma {:induction false} ReachOne(k: Frame, env: Env, s: State, w: Span, t: State)
    requires Goes(k.p, s, 1, t) && Held(k, env, s) && t.mode == Going && t.line == s.line + 1 && t.mem == s.mem
    requires KeepsRegs(s.reg, t.reg, w)
    ensures Reach(k, s, 1, env, w, 1, t)
  {
    hide Goes, InMemory;
  }

  predicate InFrame(syms: C.Symbols, size: nat) {
    forall i :: 0 <= i < |syms| ==> 2 <= syms[i].1 < 2 + size
  }

  lemma {:induction false} FindInFrame(syms: C.Symbols, size: nat, x: string)
    requires InFrame(syms, size) && C.Find(syms, x).Some?
    ensures 2 <= C.Find(syms, x).value < 2 + size
    decreases |syms|
  {
    if syms != [] && syms[|syms| - 1].0 != x { FindInFrame(syms[..|syms| - 1], size, x); }
  }

  // ----- a job and its outcome -----

  datatype Job = Job(k: Frame, e: Expr, top: nat, labels: nat, syms: C.Symbols, o: C.Out, env: Env, s: State)

  predicate Ready(j: Job) {
    Good(j.k) && Assignable(j.e) && Intact(j.e, j.top) && C.Gen(j.e, j.top, j.labels, j.syms) == Some(j.o) &&
    InFrame(j.syms, j.k.size) && CodeAt(j.k.p.lines, j.s.line, j.o.code) && Held(j.k, j.env, j.s)
  }

  /** The remembered address register holds the variable's address. */
  predicate AddressHeld(j: Job, reg: Regs) {
    Place(j.e).Some? ==>
      C.Find(j.syms, Place(j.e).value).Some? && j.o.addr.Some? &&
      reg[j.o.addr.value] == j.k.fp + C.Find(j.syms, Place(j.e).value).value
  }

  ghost predicate Done(j: Job, n: nat, t: State) {
    match Eval(j.e, j.syms, j.env)
    case Ok(v, env') =>
      Reach(j.k, j.s, |j.o.code|, env', Uses(j.e, j.top).w, n, t) && t.reg[j.o.r] == v && AddressHeld(j, t.reg)
    case DivFault => Goes(j.k.p, j.s, n, t) && t.mode == Faulted
    case Wrong => false
  }

  // ----- leaves -----

  /** A wide constant is built with a second register, which keeps its last byte. */
  lemma {:induction false} DoWide(p: Program, s: State, rd: RegIx, v: Literal) returns (t: State)
    requires 5 <= rd <= 27 && OnLine(p, s, LoadImm(rd, v))
    ensures Goes(p, s, 1, t) && t == s.(line := s.line + 1, reg := t.reg) && t.reg[rd] == v
    ensures forall q :: 0 <= q < 32 && q != rd && (Fits11(v) || q != Temp(rd)) ==> t.reg[q] == s.reg[q]
    ensures !Fits11(v) ==> t.reg[Temp(rd)] == v % 256
  {
    hide Pow2, MoviBytes, AddressOf, LineOf;
    t := Meaning(p, s);
    MoviKeeps(v);
    WrapWord(v);
    WideBytes(v);
    GoesOne(p, s);
  }

  lemma {:induction false} WideBytes(v: Literal)
    ensures !Fits11(v) ==> MoviBytes(v) >= 2
  {
    PowValues();
    assert Pow2(7) == 128;
  }

  /** A wide constant going to R27 leaves its last byte in R26: a value kept there survives only if
      it is that byte. */
  lemma {:induction false} WideAtTop(p: Program, s: State, v: Literal) returns (t: State)
    requires !Fits11(v) && OnLine(p, s, LoadImm(27, v))
    ensures Goes(p, s, 1, t) && t.reg[27] == v && (t.reg[26] == s.reg[26] <==> s.reg[26] == v % 256)
  {
    t := DoWide(p, s, 27, v);
  }

  lemma {:induction false} NumRuns(j: Job) returns (n: nat, t: State)
    requires Ready(j) && j.e.Num?
    ensures Done(j, n, t)
  {
    hide Goes, E.CodeSize, DistinctLabels, InMemory;
    CodeAtLine(j.k.p.lines, j.s.line, j.o.code, 0);
    t := DoWide(j.k.p, j.s, j.o.r, j.e.n);
    ReachOne(j.k, j.env, j.s, Uses(j.e, j.top).w, t);
    n := 1;
  }

  lemma {:induction false} OffsetAddress(k: Frame, off: nat)
    requires Good(k) && 2 <= off < 2 + k.size
    ensures Fits11(off) && Wrap(off) == off && Wrap(k.fp + off) == k.fp + off && k.fp + off < MEM_WORDS
    ensures Address(k.fp + off, 0) == k.fp + off && E.CodeSize(k.p.lines) <= k.fp + off
  {
    hide E.CodeSize, DistinctLabels;
  }

  lemma {:induction false} VarRuns(j: Job) returns (n: nat, t: State)
    requires Ready(j) && j.e.Var?
    ensures Done(j, n, t)
  {
    hide Goes, E.CodeSize, DistinctLabels, Address, C.Find, Wrap;
    var p, s := j.k.p, j.s;
    var off := C.Find(j.syms, j.e.x).value;
    FindInFrame(j.syms, j.k.size, j.e.x);
    OffsetAddress(j.k, off);
    var a := j.o.addr.value;
    CodeAtLine(p.lines, s.line, j.o.code, 0);
    CodeAtLine(p.lines, s.line, j.o.code, 1);
    CodeAtLine(p.lines, s.line, j.o.code, 2);
    DoImm(p, s, 28, off);
    var s1 := After(s, 28, off);
    DoAlu(p, s1, ADD, a, 29, 28);
    var s2 := After(s1, a, j.k.fp + off);
    DoLoad(p, s2, j.o.r, a, 0);
    t := After(s2, j.o.r, s.mem[j.k.fp + off]);
    n := 3;
    assert s.mem[j.k.fp + 2 + (off - 2)] == j.env[off - 2];
    GoesTrans(p, s, 1, s1, 1, s2);
    GoesTrans(p, s, 2, s2, 1, t);
  }

  // ----- stores -----

  lemma {:induction false} StoreHeld(k: Frame, env: Env, mem: Mem, off: nat, v: Word)
    requires InMemory(k, env, mem) && 2 <= off < 2 + k.size
    ensures InMemory(k, env[off - 2 := v], mem[k.fp + off := v])
  {
  }

  /** STORE through a remembered address. */
  lemma {:induction false} StoreRun(k: Frame, env: Env, s: State, r: RegIx, a: RegIx, off: nat, w: Span)
    returns (t: State)
    requires Good(k) && Held(k, env, s) && 2 <= off < 2 + k.size && s.reg[a] == k.fp + off
    requires OnLine(k.p, s, RI(STORE, r, a, 0))
    ensures Reach(k, s, 1, env[off - 2 := s.reg[r]], w, 1, t) && t.reg == s.reg
  {
    hide Goes, E.CodeSize, DistinctLabels, Address, InMemory, Wrap;
    OffsetAddress(k, off);
    DoStore(k.p, s, r, a, 0);
    t := s.(line := s.line + 1, mem := s.mem[k.fp + off := s.reg[r]]);
    StoreHeld(k, env, s.mem, off, s.reg[r]);
  }

  lemma {:induction false} StepValue(inc: bool, v: Word)
    ensures Alu(C.StepOp(inc), v, 1) == Some(Stepped(inc, v))
  {
  }

  /** What is known of an lvalue expression that has just run. */
  lemma {:induction false} LvalueFacts(j: Job, t: State)
    requires Ready(j) && Place(j.e).Some? && AddressHeld(j, t.reg)
    ensures C.Find(j.syms, Place(j.e).value).Some? && j.o.addr.Some?
    ensures var off := C.Find(j.syms, Place(j.e).value).value;
            2 <= off < 2 + j.k.size && t.reg[j.o.addr.value] == j.k.fp + off
    ensures j.o.addr.value == C.TEMP_BASE + j.top < j.o.r <= 27 && j.o.top >= j.top + 2
    ensures Foretold(Uses(j.e, j.top), j.o) && Known(Uses(j.e, j.top), j.top)
  {
    hide E.CodeSize, DistinctLabels, InMemory, C.Find, C.Gen, CodeAt;
    FindInFrame(j.syms, j.k.size, Place(j.e).value);
    UseFacts(j.e, j.top);
    GenUses(j.e, j.top, j.labels, j.syms);
  }

  lemma {:induction false} StoreToSlot(l: Expr, v: Word, result: Word, syms: C.Symbols, env: Env)
    requires Place(l).Some? && C.Find(syms, Place(l).value).Some?
    requires 2 <= C.Find(syms, Place(l).value).value < 2 + |env|
    ensures StoreTo(l, v, result, syms, env) == Ok(result, env[C.Find(syms, Place(l).value).value - 2 := v])
  {
  }

  lemma {:induction false} HeldSize(k: Frame, env: Env, s: State)
    requires Held(k, env, s)
    ensures |env| == k.size
  {
  }

  // ----- ++ and -- -----

  /** `LI one, 1; ADD sum, r, one; STORE sum, [a]` */
  lemma {:induction false} StepRun(k: Frame, env: Env, s: State, inc: bool, one: RegIx, sum: RegIx, r: RegIx, a: RegIx,
                                   off: nat, w: Span)
    returns (t: State)
    requires Good(k) && Held(k, env, s) && 2 <= off < 2 + k.size && s.reg[a] == k.fp + off
    requires 5 <= a <= 27 && 5 <= r <= 27 && 5 <= sum <= 27 && 5 <= one <= 28
    requires r != one && a != one && sum != a && Covers(w, sum) && (one == 28 || Covers(w, one))
    requires CodeAt(k.p.lines, s.line, [LoadImm(one, 1), RR(C.StepOp(inc), sum, r, one), RI(STORE, sum, a, 0)])
    ensures Reach(k, s, 3, env[off - 2 := Stepped(inc, s.reg[r])], w, 3, t)
    ensures t.reg[sum] == Stepped(inc, s.reg[r])
    ensures forall q :: 0 <= q < 32 && q != one && q != sum ==> t.reg[q] == s.reg[q]
  {
    hide Goes, E.CodeSize, DistinctLabels, InMemory, Address, Wrap, Stepped, CodeAt;
    var code := [LoadImm(one, 1), RR(C.StepOp(inc), sum, r, one), RI(STORE, sum, a, 0)];
    var v := Stepped(inc, s.reg[r]);
    HeldSize(k, env, s);
    CodeAtLine(k.p.lines, s.line, code, 0);
    CodeAtLine(k.p.lines, s.line, code, 1);
    CodeAtLine(k.p.lines, s.line, code, 2);
    DoImm(k.p, s, one, 1);
    WrapWord(1);
    var s1 := After(s, one, 1);
    StepValue(inc, s.reg[r]);
    DoAlu(k.p, s1, C.StepOp(inc), sum, r, one);
    var s2 := After(s1, sum, v);
    ReachOne(k, env, s, w, s1);
    ReachOne(k, env, s1, w, s2);
    t := StoreRun(k, env, s2, sum, a, off, w);
    ReachTrans(k, s, 1, env, w, 1, s1, 1, env, w, 1, s2, w);
    ReachTrans(k, s, 2, env, w, 2, s2, 1, env[off - 2 := v], w, 1, t, w);
  }

  lemma {:induction false} PostRuns(j: Job) returns (n: nat, t: State)
    requires Ready(j) && j.e.Post?
    ensures Done(j, n, t)
    decreases j.e, 0
  {
    hide Goes, E.CodeSize, DistinctLabels, InMemory, C.Find, C.Gen, CodeAt, Eval, StoreTo, Stepped, Intact;
    var x := j.e.e;
    PostGen(j);
    var o := C.Gen(x, j.top, j.labels, j.syms).value;
    var one := C.TEMP_BASE + o.top;
    var tail := [LoadImm(one, 1), RR(C.StepOp(j.e.inc), one + 1, o.r, one), RI(STORE, one + 1, o.addr.value, 0)];
    var j1 := j.(e := x, o := o);
    CodeAtParts(j.k.p.lines, j.s.line, o.code, tail);
    n, t := ExprRuns(j1);
    PostEval(j);
    var w := Eval(x, j.syms, j.env);
    if w.Ok? {
      LvalueFacts(j1, t);
      HeldSize(j.k, w.env, t);
      var off := C.Find(j.syms, Place(x).value).value;
      var span := Uses(j.e, j.top).w;
      var u := StepRun(j.k, w.env, t, j.e.inc, one, one + 1, o.r, o.addr.value, off, span);
      StoreToSlot(x, Stepped(j.e.inc, w.v), w.v, j.syms, w.env);
      ReachTrans(j.k, j.s, |o.code|, w.env, Uses(x, j.top).w, n, t, 3, w.env[off - 2 := Stepped(j.e.inc, w.v)], span,
                 3, u, span);
      n, t := n + 3, u;
    }
  }

  lemma {:induction false} PostGen(j: Job)
    requires Ready(j) && j.e.Post?
    ensures Assignable(j.e.e) && Intact(j.e.e, j.top) && Place(j.e.e).Some? &&
            C.Gen(j.e.e, j.top, j.labels, j.syms).Some?
    ensures var o := C.Gen(j.e.e, j.top, j.labels, j.syms).value;
            o.addr.Some? && C.TEMP_BASE + o.top + 1 <= C.TEMP_TOP && o.r != C.TEMP_BASE + o.top &&
            o.r != C.TEMP_BASE + o.top + 1 &&
            var one := C.TEMP_BASE + o.top;
            j.o == o.(code := o.code + [LoadImm(one, 1), RR(C.StepOp(j.e.inc), one + 1, o.r, one),
                                        RI(STORE, one + 1, o.addr.value, 0)])
  {
    hide E.CodeSize, DistinctLabels, InMemory, C.Find, CodeAt;
    GenUses(j.e.e, j.top, j.labels, j.syms);
  }

  lemma {:induction false} PostEval(j: Job)
    requires j.e.Post? || j.e.Pre?
    ensures var w := Eval(j.e.e, j.syms, j.env);
            if w.Ok? then
              var result := if j.e.Post? then w.v else Stepped(j.e.inc, w.v);
              Eval(j.e, j.syms, j.env) == StoreTo(j.e.e, Stepped(j.e.inc, w.v), result, j.syms, w.env)
            else Eval(j.e, j.syms, j.env) == w
    ensures Place(j.e) == Place(j.e.e)
  {
    hide StoreTo, Stepped;
  }

  lemma {:induction false} PreRuns(j: Job) returns (n: nat, t: State)
    requires Ready(j) && j.e.Pre?
    ensures Done(j, n, t)
    decreases j.e, 0
  {
    hide Goes, E.CodeSize, DistinctLabels, InMemory, C.Find, C.Gen, CodeAt, Eval, StoreTo, Stepped, Intact;
    var x := j.e.e;
    PreGen(j);
    var o := C.Gen(x, j.top, j.labels, j.syms).value;
    var tail := [LoadImm(28, 1), RR(C.StepOp(j.e.inc), o.r, o.r, 28), RI(STORE, o.r, o.addr.value, 0)];
    var j1 := j.(e := x, o := o);
    CodeAtParts(j.k.p.lines, j.s.line, o.code, tail);
    n, t := ExprRuns(j1);
    PostEval(j);
    var w := Eval(x, j.syms, j.env);
    if w.Ok? {
      LvalueFacts(j1, t);
      HeldSize(j.k, w.env, t);
      var off := C.Find(j.syms, Place(x).value).value;
      var span := Uses(j.e, j.top).w;
      var u := StepRun(j.k, w.env, t, j.e.inc, 28, o.r, o.r, o.addr.value, off, span);
      StoreToSlot(x, Stepped(j.e.inc, w.v), Stepped(j.e.inc, w.v), j.syms, w.env);
      ReachTrans(j.k, j.s, |o.code|, w.env, span, n, t, 3, w.env[off - 2 := Stepped(j.e.inc, w.v)], span, 3, u, span);
      n, t := n + 3, u;
    }
  }

  lemma {:induction false} PreGen(j: Job)
    requires Ready(j) && j.e.Pre?
    ensures Assignable(j.e.e) && Intact(j.e.e, j.top) && Place(j.e.e).Some? &&
            C.Gen(j.e.e, j.top, j.labels, j.syms).Some?
    ensures var o := C.Gen(j.e.e, j.top, j.labels, j.syms).value;
            o.addr.Some? &&
            j.o == o.(code := o.code + [LoadImm(28, 1), RR(C.StepOp(j.e.inc), o.r, o.r, 28),
                                        RI(STORE, o.r, o.addr.value, 0)])
  {
    hide E.CodeSize, DistinctLabels, InMemory, C.Find, CodeAt;
  }

  // ----- using an operand as a value -----

  /** The code of an operand together with the move that drops its address. */
  lemma {:induction false} ValueRuns(j: Job) returns (n: nat, t: State)
    requires Good(j.k) && Assignable(j.e) && Intact(j.e, j.top) && C.Gen(j.e, j.top, j.labels, j.syms) == Some(j.o)
    requires InFrame(j.syms, j.k.size) && Held(j.k, j.env, j.s)
    requires CodeAt(j.k.p.lines, j.s.line, C.AsValue(j.o).code)
    ensures var v := C.AsValue(j.o);
            match Eval(j.e, j.syms, j.env)
            case Ok(w, env') => Reach(j.k, j.s, |v.code|, env', Uses(j.e, j.top).w, n, t) && t.reg[v.r] == w
            case DivFault => Goes(j.k.p, j.s, n, t) && t.mode == Faulted
            case Wrong => false
    decreases j.e, 2
  {
    hide Goes, E.CodeSize, DistinctLabels, InMemory, C.Find, C.Gen, CodeAt, Eval, Intact;
    UseFacts(j.e, j.top);
    GenUses(j.e, j.top, j.labels, j.syms);
    var v := C.AsValue(j.o);
    if j.o.addr.None? || j.o.addr.value == j.o.r {
      n, t := ExprRuns(j);
    } else {
      var tail := [RR(ADD, v.r, j.o.r, 0)];
      CodeAtParts(j.k.p.lines, j.s.line, j.o.code, tail);
      n, t := ExprRuns(j);
      var w := Eval(j.e, j.syms, j.env);
      if w.Ok? {
        var span := Uses(j.e, j.top).w;
        CodeAtLine(j.k.p.lines, j.s.line + |j.o.code|, tail, 0);
        var u := MoveRun(j.k, w.env, t, v.r, j.o.r, span);
        ReachTrans(j.k, j.s, |j.o.code|, w.env, span, n, t, 1, w.env, span, 1, u, span);
        n, t := n + 1, u;
      }
    }
  }

  /** `ADD rd, rs, R0` */
  lemma {:induction false} MoveRun(k: Frame, env: Env, s: State, rd: RegIx, rs: RegIx, w: Span) returns (t: State)
    requires Held(k, env, s) && 5 <= rd <= 27 && Covers(w, rd) && OnLine(k.p, s, RR(ADD, rd, rs, 0))
    ensures Reach(k, s, 1, env, w, 1, t) && t == After(s, rd, s.reg[rs])
  {
    hide Goes, InMemory, Wrap;
    WrapWord(s.reg[rs]);
    DoAlu(k.p, s, ADD, rd, rs, 0);
    t := After(s, rd, s.reg[rs]);
    ReachOne(k, env, s, w, t);
  }

  lemma {:induction false} ExprRuns(j: Job) returns (n: nat, t: State)
    requires Ready(j)
    ensures Done(j, n, t)
    decreases j.e, 1
  {
    hide Goes, Good, Held, C.Gen, CodeAt, Eval, Intact, InFrame, Uses, Assignable;
    match j.e
    case Num(_) => n, t := NumRuns(j);
    case Var(_) => n, t := VarRuns(j);
    case Paren(x) => n, t := ParenRuns(j);
    case Post(_, _) => n, t := PostRuns(j);
    case Pre(_, _) => n, t := PreRuns(j);
    case Bin(_, _, _) => n, t := BinRuns(j);
    case Cond(_, _, _) => n, t := CondRuns(j);
    case Assign(_, _, _) => n, t := AssignRuns(j);
    case _ => n, t := UnaryRuns(j);
  }

  lemma {:induction false} ParenRuns(j: Job) returns (n: nat, t: State)
    requires Ready(j) && j.e.Paren?
    ensures Done(j, n, t)
    decreases j.e, 0
  {
    hide Goes, E.CodeSize, DistinctLabels, InMemory, C.Find, CodeAt;
    n, t := ExprRuns(j.(e := j.e.e));
  }

  // ----- unary operators -----

  lemma {:induction false} UnaryRuns(j: Job) returns (n: nat, t: State)
    requires Ready(j) && (j.e.Neg? || j.e.Not? || j.e.Com?)
    ensures Done(j, n, t)
    decreases j.e, 0
  {
    hide Goes, E.CodeSize, DistinctLabels, InMemory, C.Find, C.Gen, CodeAt, Eval, C.AsValue, AsValue, Intact;
    UnaryGen(j);
    var o := C.Gen(j.e.e, j.top, j.labels, j.syms).value;
    var v := C.AsValue(o);
    var tail := UnaryTail(j.e, v.r);
    ValueKnown(j.e.e, j.top, j.labels, j.syms);
    CodeAtParts(j.k.p.lines, j.s.line, v.code, tail);
    n, t := ValueRuns(j.(e := j.e.e, o := o));
    UnaryEval(j);
    var w := Eval(j.e.e, j.syms, j.env);
    if w.Ok? {
      var span := Uses(j.e.e, j.top).w;
      var m, u := UnaryTailRun(j.k, w.env, t, j.e, v.r, span);
      ReachTrans(j.k, j.s, |v.code|, w.env, span, n, t, |tail|, w.env, span, m, u, span);
      n, t := n + m, u;
    }
  }

  /** An operand as a value, in code and in the tree's account of it. */
  lemma {:induction false} ValueKnown(e: Expr, top: nat, labels: nat, syms: C.Symbols)
    requires C.Gen(e, top, labels, syms).Some?
    ensures var u, v := AsValue(Uses(e, top)), C.AsValue(C.Gen(e, top, labels, syms).value);
            u.w == Uses(e, top).w && Known(u, top) && v.r == u.r && v.top == u.top && v.addr.None? && u.w.hi <= 27 &&
            labels <= v.labels && 5 <= v.r <= 27 && Covers(u.w, v.r)
  {
    hide AsValue, C.AsValue, C.Gen;
    UseFacts(e, top);
    GenUses(e, top, labels, syms);
    ValueFacts(Uses(e, top), top);
    ValueForetold(Uses(e, top), C.Gen(e, top, labels, syms).value);
  }

  function UnaryTail(e: Expr, r: RegIx): seq<Line> {
    if e.Neg? then [RR(SUB, r, 0, r)]
    else if e.Not? then [RR(CMPEQ, r, r, 0)]
    else [LoadImm(28, -1), RR(XOR, r, r, 28)]
  }

  function UnaryValue(e: Expr, v: Word): Word {
    if e.Neg? then Wrap(-(v as int)) else if e.Not? then Truth(v == 0) else TWO_TO_64 - 1 - v
  }

  lemma {:induction false} UnaryGen(j: Job)
    requires Ready(j) && (j.e.Neg? || j.e.Not? || j.e.Com?)
    ensures Assignable(j.e.e) && Intact(j.e.e, j.top) && C.Gen(j.e.e, j.top, j.labels, j.syms).Some?
    ensures var v := C.AsValue(C.Gen(j.e.e, j.top, j.labels, j.syms).value);
            j.o == v.(code := v.code + UnaryTail(j.e, v.r))
    ensures Place(j.e).None? && Uses(j.e, j.top) == AsValue(Uses(j.e.e, j.top))
  {
    hide E.CodeSize, DistinctLabels, InMemory, C.Find, CodeAt, C.AsValue, AsValue;
  }

  lemma {:induction false} UnaryEval(j: Job)
    requires j.e.Neg? || j.e.Not? || j.e.Com?
    ensures var w := Eval(j.e.e, j.syms, j.env);
            Eval(j.e, j.syms, j.env) == if w.Ok? then Ok(UnaryValue(j.e, w.v), w.env) else w
  {
    hide Wrap;
  }

  lemma {:induction false} UnaryTailRun(k: Frame, env: Env, s: State, e: Expr, r: RegIx, w: Span)
    returns (n: nat, t: State)
    requires (e.Neg? || e.Not? || e.Com?) && Held(k, env, s) && 5 <= r <= 27 && Covers(w, r)
    requires CodeAt(k.p.lines, s.line, UnaryTail(e, r))
    ensures Reach(k, s, |UnaryTail(e, r)|, env, w, n, t) && t.reg[r] == UnaryValue(e, s.reg[r])
  {
    hide Goes, InMemory, Wrap, CodeAt, Xor;
    CodeAtLine(k.p.lines, s.line, UnaryTail(e, r), 0);
    if e.Com? {
      CodeAtLine(k.p.lines, s.line, UnaryTail(e, r), 1);
      DoImm(k.p, s, 28, -1);
      AllOnes();
      var s1 := After(s, 28, TWO_TO_64 - 1);
      E.XorAllOnes(s.reg[r]);
      DoAlu(k.p, s1, XOR, r, r, 28);
      t := After(s1, r, TWO_TO_64 - 1 - s.reg[r]);
      ReachOne(k, env, s, w, s1);
      ReachOne(k, env, s1, w, t);
      ReachTrans(k, s, 1, env, w, 1, s1, 1, env, w, 1, t, w);
      n := 2;
    } else {
      n := 1;
      if e.Neg? { DoAlu(k.p, s, SUB, r, 0, r); } else { DoAlu(k.p, s, CMPEQ, r, r, 0); }
      t := After(s, r, UnaryValue(e, s.reg[r]));
      ReachOne(k, env, s, w, t);
    }
  }

  lemma {:induction false} AllOnes()
    ensures Wrap(-1) == TWO_TO_64 - 1
  {
  }

  // ----- binary operators -----

  /** Two temporaries that may be written, perhaps the same one. */
  predicate Operands(l: RegIx, r: RegIx, w: Span) { 5 <= l <= 27 && 5 <= r <= 27 && Covers(w, l) && Covers(w, r) }

  lemma {:induction false} OrZeroIff(a: Word, b: Word)
    ensures Or(a, b) == 0 <==> a == 0 && b == 0
  {
    hide Or;
    OrBitsZero(a, b);
    assert Or(a, b) == Bits(BitFn.BitOr, a, b) by { OrIs(a, b); }
  }

  lemma {:induction false} OrIs(a: Word, b: Word)
    ensures Or(a, b) == Bits(BitFn.BitOr, a, b)
  {
    hide Bits;
  }

  lemma {:induction false} OrBitsZero(a: nat, b: nat)
    ensures Bits(BitFn.BitOr, a, b) == 0 <==> a == 0 && b == 0
    decreases a + b
  {
    if a != 0 || b != 0 { OrBitsZero(a / 2, b / 2); }
  }

  lemma {:induction false} AndTruth(a: bool, b: bool)
    ensures And(Truth(a), Truth(b)) == Truth(a && b)
  {
    assert Bits(BitFn.BitAnd, 0, 0) == 0;
    assert Bits(BitFn.BitAnd, Truth(a), Truth(b)) == Truth(a && b);
  }

  /** Combining two temporaries into the left one gives the operator's value. */
  lemma {:induction false} CombineRun(k: Frame, env: Env, s: State, op: CSyntax.BinOp, l: RegIx, r: RegIx, w: Span)
    returns (n: nat, t: State)
    requires op != Mod && Held(k, env, s) && Operands(l, r, w) && CodeAt(k.p.lines, s.line, C.Combine(op, l, r))
    ensures match Apply(op, s.reg[l], s.reg[r])
            case Some(v) => Reach(k, s, |C.Combine(op, l, r)|, env, w, n, t) && t.reg[l] == v
            case None => Goes(k.p, s, n, t) && t.mode == Faulted
  {
    hide Goes, Held, CodeAt, Apply, C.Combine;
    if op == LogAnd { n, t := LogAndRun(k, env, s, l, r, w); }
    else if op == LogOr { n, t := LogOrRun(k, env, s, l, r, w); }
    else { n, t := OneOpRun(k, env, s, op, l, r, w); }
    LogicalCode(op, l, r);
    LogicalValue(op, s.reg[l], s.reg[r]);
  }

  lemma {:induction false} LogicalCode(op: CSyntax.BinOp, l: RegIx, r: RegIx)
    ensures |C.Combine(op, l, r)| == if op == LogAnd then 3 else if op == LogOr then 2 else 1
  {
  }

  lemma {:induction false} LogicalValue(op: CSyntax.BinOp, a: Word, b: Word)
    ensures op == LogAnd ==> Apply(op, a, b) == Some(Truth(a != 0 && b != 0))
    ensures op == LogOr ==> Apply(op, a, b) == Some(Truth(a != 0 || b != 0))
  {
  }

  predicate Flipped(op: CSyntax.BinOp) { op == CmpGt || op == CmpGe }

  lemma {:induction false} ApplyIsAlu(op: CSyntax.BinOp, a: Word, b: Word)
    requires op !in {Mod, LogAnd, LogOr}
    ensures IsAlu(C.OpcodeOf(op))
    ensures Apply(op, a, b) == if Flipped(op) then Alu(C.OpcodeOf(op), b, a) else Alu(C.OpcodeOf(op), a, b)
  {
    hide TruncDiv, Signed, And, Or, Xor, SignedDivisionDefined;
    if op == Div && SignedDivisionDefined(a, b) { Defined(a, b); }
  }

  lemma {:induction false} OneOpRun(k: Frame, env: Env, s: State, op: CSyntax.BinOp, l: RegIx, r: RegIx, w: Span)
    returns (n: nat, t: State)
    requires op !in {Mod, LogAnd, LogOr}
    requires Held(k, env, s) && Operands(l, r, w) && CodeAt(k.p.lines, s.line, C.Combine(op, l, r))
    ensures match Apply(op, s.reg[l], s.reg[r])
            case Some(v) => Reach(k, s, 1, env, w, n, t) && t.reg[l] == v
            case None => Goes(k.p, s, n, t) && t.mode == Faulted
  {
    hide Goes, InMemory, CodeAt, Apply, Alu;
    ApplyIsAlu(op, s.reg[l], s.reg[r]);
    var code := C.OpcodeOf(op);
    CodeAtLine(k.p.lines, s.line, C.Combine(op, l, r), 0);
    if Flipped(op) { DoAlu(k.p, s, code, l, r, l); } else { DoAlu(k.p, s, code, l, l, r); }
    n := 1;
    var v := Apply(op, s.reg[l], s.reg[r]);
    if v.None? {
      t := s.(line := s.line + 1, mode := Faulted);
    } else {
      t := After(s, l, v.value);
      ReachOne(k, env, s, w, t);
    }
  }

  lemma {:induction false} LogAndRun(k: Frame, env: Env, s: State, l: RegIx, r: RegIx, w: Span)
    returns (n: nat, t: State)
    requires Held(k, env, s) && Operands(l, r, w) && CodeAt(k.p.lines, s.line, C.Combine(LogAnd, l, r))
    ensures Reach(k, s, 3, env, w, n, t) && t.reg[l] == Truth(s.reg[l] != 0 && s.reg[r] != 0)
  {
    hide Goes, Held, CodeAt, And, Reach, Alu;
    CodeAtLine(k.p.lines, s.line, C.Combine(LogAnd, l, r), 0);
    CodeAtLine(k.p.lines, s.line, C.Combine(LogAnd, l, r), 1);
    CodeAtLine(k.p.lines, s.line, C.Combine(LogAnd, l, r), 2);
    var s1 := NonZero(k, env, s, l, w);
    var s2 := NonZero(k, env, s1, r, w);
    AndTruth(s.reg[l] != 0, s.reg[r] != 0);
    AndIs(Truth(s.reg[l] != 0), Truth(s.reg[r] != 0));
    HeldGoing(k, env, s2);
    DoAlu(k.p, s2, AND, l, l, r);
    t := After(s2, l, Truth(s.reg[l] != 0 && s.reg[r] != 0));
    ReachOne(k, env, s2, w, t);
    ReachTrans(k, s, 1, env, w, 1, s1, 1, env, w, 1, s2, w);
    ReachTrans(k, s, 2, env, w, 2, s2, 1, env, w, 1, t, w);
    n := 3;
  }

  lemma {:induction false} AndIs(a: Word, b: Word)
    ensures Alu(AND, a, b) == Some(And(a, b))
  {
    hide And;
  }

  lemma {:induction false} HeldGoing(k: Frame, env: Env, s: State)
    requires Held(k, env, s)
    ensures s.mode == Going
  {
  }

  /** `CMPNE r, r, R0` */
  lemma {:induction false} NonZero(k: Frame, env: Env, s: State, r: RegIx, w: Span) returns (t: State)
    requires Held(k, env, s) && 5 <= r <= 27 && Covers(w, r) && OnLine(k.p, s.(mode := Going), RR(CMPNE, r, r, 0))
    ensures Reach(k, s, 1, env, w, 1, t) && t == After(s, r, Truth(s.reg[r] != 0)) && Held(k, env, t)
  {
    hide Goes, InMemory;
    DoAlu(k.p, s, CMPNE, r, r, 0);
    t := After(s, r, Truth(s.reg[r] != 0));
    ReachOne(k, env, s, w, t);
  }

  lemma {:induction false} LogOrRun(k: Frame, env: Env, s: State, l: RegIx, r: RegIx, w: Span)
    returns (n: nat, t: State)
    requires Held(k, env, s) && Operands(l, r, w) && CodeAt(k.p.lines, s.line, C.Combine(LogOr, l, r))
    ensures Reach(k, s, 2, env, w, n, t) && t.reg[l] == Truth(s.reg[l] != 0 || s.reg[r] != 0)
  {
    hide Goes, InMemory, Wrap, CodeAt, Or;
    CodeAtLine(k.p.lines, s.line, C.Combine(LogOr, l, r), 0);
    CodeAtLine(k.p.lines, s.line, C.Combine(LogOr, l, r), 1);
    var either := Or(s.reg[l], s.reg[r]);
    OrZeroIff(s.reg[l], s.reg[r]);
    DoAlu(k.p, s, OR, l, l, r);
    var s1 := After(s, l, either);
    DoAlu(k.p, s1, CMPNE, l, l, 0);
    t := After(s1, l, Truth(either != 0));
    ReachOne(k, env, s, w, s1);
    ReachOne(k, env, s1, w, t);
    ReachTrans(k, s, 1, env, w, 1, s1, 1, env, w, 1, t, w);
    n := 2;
  }

  /** `a - (a / b) * b`, each step wrapped, is the remainder. */
  lemma {:induction false} RemainderWraps(a: Word, b: Word)
    requires SignedDivisionDefined(a, b)
    ensures var q := Quotient(a, b);
            Wrap(a - Product(q, b)) == Wrap(Signed(a) - Signed(b) * TruncDiv(Signed(a), Signed(b)))
  {
    hide TruncDiv;
    var t := TruncDiv(Signed(a), Signed(b));
    var q := Quotient(a, b);
    var i, j := t / TWO_TO_64, (b - Signed(b)) / TWO_TO_64;
    assert t == q + TWO_TO_64 * i && b == Signed(b) + TWO_TO_64 * j;
    ProductCongruent(q, Signed(b), j, t, i);
    WrapDifference(a, Signed(a), q * b, Signed(b) * t);
  }

  /** `q * (sb + M j)` and `sb * (q + M i)` differ by a multiple of M. */
  lemma {:induction false} ProductCongruent(q: int, sb: int, j: int, t: int, i: int)
    requires t == q + TWO_TO_64 * i
    ensures Wrap(q * (sb + TWO_TO_64 * j)) == Wrap(sb * t)
  {
    assert q * (sb + TWO_TO_64 * j) == sb * t + TWO_TO_64 * (q * j - sb * i) by {
      Spread(q, sb, TWO_TO_64, j, i);
    }
    WrapMultiple(sb * t, q * j - sb * i);
  }

  lemma {:induction false} Spread(q: int, sb: int, m: int, j: int, i: int)
    ensures q * (sb + m * j) == sb * (q + m * i) + m * (q * j - sb * i)
  {
    calc {
      q * (sb + m * j);
      q * sb + q * (m * j);
      q * sb + m * (q * j);
      sb * q + m * (sb * i) + (m * (q * j) - m * (sb * i));
      sb * (q + m * i) + m * (q * j - sb * i);
    }
  }

  lemma {:induction false} WrapMultiple(x: int, d: int)
    ensures Wrap(x + TWO_TO_64 * d) == Wrap(x)
  {
    ModUnique(x + TWO_TO_64 * d, TWO_TO_64, x / TWO_TO_64 + d, x % TWO_TO_64);
  }

  lemma {:induction false} WrapDifference(a: int, a': int, x: int, x': int)
    requires Wrap(a) == Wrap(a') && Wrap(x) == Wrap(x')
    ensures Wrap(a - Wrap(x)) == Wrap(a' - x')
  {
    var d := a / TWO_TO_64 - a' / TWO_TO_64 + x' / TWO_TO_64;
    assert a - Wrap(x) == (a' - x') + TWO_TO_64 * d;
    WrapMultiple(a' - x', d);
  }

  /** The three lines of `%`. */
  lemma {:induction false} ModuloRun(k: Frame, env: Env, s: State, l: RegIx, r: RegIx, q: RegIx, w: Span)
    returns (n: nat, t: State)
    requires Held(k, env, s) && Operands(l, r, w) && 5 <= q <= 27 && q != l && q != r && Covers(w, q) &&
             CodeAt(k.p.lines, s.line, C.Modulo(l, r, q))
    ensures match Apply(Mod, s.reg[l], s.reg[r])
            case Some(v) => Reach(k, s, 3, env, w, n, t) && t.reg[l] == v
            case None => Goes(k.p, s, n, t) && t.mode == Faulted
  {
    hide Goes, InMemory, Wrap, CodeAt, Apply, Alu, SignedDivisionDefined, Quotient, Product, TruncDiv;
    CodeAtLine(k.p.lines, s.line, C.Modulo(l, r, q), 0);
    CodeAtLine(k.p.lines, s.line, C.Modulo(l, r, q), 1);
    CodeAtLine(k.p.lines, s.line, C.Modulo(l, r, q), 2);
    DoAlu(k.p, s, DIV, q, l, r);
    ModuloValue(s.reg[l], s.reg[r]);
    if SignedDivisionDefined(s.reg[l], s.reg[r]) {
      var d := Quotient(s.reg[l], s.reg[r]);
      var s1 := After(s, q, d);
      ReachOne(k, env, s, w, s1);
      t := TakeAway(k, env, s1, l, r, q, w);
      ReachTrans(k, s, 1, env, w, 1, s1, 2, env, w, 2, t, w);
      n := 3;
    } else {
      n, t := 1, s.(line := s.line + 1, mode := Faulted);
    }
  }

  lemma {:induction false} ModuloValue(a: Word, b: Word)
    ensures SignedDivisionDefined(a, b) ==>
              b != 0 && Alu(DIV, a, b) == Some(Quotient(a, b)) &&
              Apply(Mod, a, b) == Some(Wrap(a - Product(Quotient(a, b), b)))
    ensures !SignedDivisionDefined(a, b) ==> Alu(DIV, a, b) == None && Apply(Mod, a, b) == None
  {
    hide TruncDiv, Signed, Wrap, Product;
    if SignedDivisionDefined(a, b) {
      Defined(a, b);
      RemainderWraps(a, b);
    }
  }

  /** `MUL q, q, r; SUB l, l, q` */
  lemma {:induction false} TakeAway(k: Frame, env: Env, s: State, l: RegIx, r: RegIx, q: RegIx, w: Span)
    returns (t: State)
    requires Held(k, env, s) && Operands(l, r, w) && 5 <= q <= 27 && q != l && Covers(w, q)
    requires OnLine(k.p, s, RR(MUL, q, q, r)) && OnLine(k.p, s.(line := s.line + 1), RR(SUB, l, l, q))
    ensures Reach(k, s, 2, env, w, 2, t) && t.reg[l] == Wrap(s.reg[l] - Product(s.reg[q], s.reg[r]))
  {
    hide Goes, InMemory, Wrap, Product;
    DoAlu(k.p, s, MUL, q, q, r);
    var s1 := After(s, q, Product(s.reg[q], s.reg[r]));
    DoAlu(k.p, s1, SUB, l, l, q);
    t := After(s1, l, Wrap(s.reg[l] - Product(s.reg[q], s.reg[r])));
    ReachOne(k, env, s, w, s1);
    ReachOne(k, env, s1, w, t);
    ReachTrans(k, s, 1, env, w, 1, s1, 1, env, w, 1, t, w);
  }

  lemma {:induction false} Defined(a: Word, b: Word)
    requires SignedDivisionDefined(a, b)
    ensures b != 0 && Signed(b) != 0
  {
  }

  /** The parts of a binary operator's code. */
  lemma {:induction false} BinGen(j: Job) returns (lo: C.Out, right: C.Out, tail: seq<Line>)
    requires C.Gen(j.e, j.top, j.labels, j.syms) == Some(j.o) && j.e.Bin?
    ensures C.Gen(j.e.l, j.top, j.labels, j.syms) == Some(lo)
    ensures var left := C.AsValue(lo);
            C.Gen(j.e.r, left.top, left.labels, j.syms) == Some(right) && j.o.r == left.r &&
            j.o.code == left.code + right.code + tail &&
            (j.e.op != Mod ==> tail == C.Combine(j.e.op, left.r, right.r)) &&
            (j.e.op == Mod ==> 5 + right.top <= 27 && tail == C.Modulo(left.r, right.r, 5 + right.top))
  {
    hide C.Find, C.AsValue, C.Combine, C.Modulo;
    lo := C.Gen(j.e.l, j.top, j.labels, j.syms).value;
    var left := C.AsValue(lo);
    right := C.Gen(j.e.r, left.top, left.labels, j.syms).value;
    tail := if j.e.op == Mod then C.Modulo(left.r, right.r, 5 + right.top) else C.Combine(j.e.op, left.r, right.r);
  }

  /** The registers of a binary operator's parts. */
  lemma {:induction false} BinKnown(j: Job, lo: C.Out, right: C.Out)
    requires j.e.Bin? && C.Gen(j.e.l, j.top, j.labels, j.syms) == Some(lo)
    requires C.Gen(j.e.r, C.AsValue(lo).top, C.AsValue(lo).labels, j.syms) == Some(right)
    ensures var left, u := C.AsValue(lo), AsValue(Uses(j.e.l, j.top));
            var v, w := Uses(j.e.r, left.top), Uses(j.e, j.top).w;
            u.w == Uses(j.e.l, j.top).w && Known(u, j.top) && Known(v, left.top) && left.r == u.r &&
            left.top == u.top &&
            right.r == v.r && right.top == v.top && 5 <= left.r <= 27 && 5 <= right.r <= 27 &&
            Within(u.w, w) && Within(v.w, w) && Covers(w, left.r) && Covers(w, right.r) &&
            (j.e.op == Mod ==> Covers(w, 5 + right.top))
  {
    hide AsValue, C.AsValue, C.Gen;
    var left := C.AsValue(lo);
    ValueKnown(j.e.l, j.top, j.labels, j.syms);
    UseFacts(j.e.r, left.top);
    GenUses(j.e.r, left.top, left.labels, j.syms);
    BinFacts(j.e.op, AsValue(Uses(j.e.l, j.top)), Uses(j.e.r, left.top), j.top);
  }

  lemma {:induction false} BinEval(j: Job)
    requires j.e.Bin?
    ensures var a := Eval(j.e.l, j.syms, j.env);
            if !a.Ok? then Eval(j.e, j.syms, j.env) == a
            else
              var b := Eval(j.e.r, j.syms, a.env);
              if !b.Ok? then Eval(j.e, j.syms, j.env) == b
              else
                match Apply(j.e.op, a.v, b.v)
                case None => Eval(j.e, j.syms, j.env) == DivFault
                case Some(v) => Eval(j.e, j.syms, j.env) == Ok(v, b.env)
  {
    hide Apply;
  }

  /** Both operands evaluated: the registers are where the parts' code leaves them. */
  lemma {:induction false} OperandsRun(j: Job, lo: C.Out, right: C.Out) returns (n: nat, t: State)
    requires j.e.Bin? && Good(j.k) && InFrame(j.syms, j.k.size) && Held(j.k, j.env, j.s) && Assignable(j.e)
    requires Intact(j.e.l, j.top) && C.Gen(j.e.l, j.top, j.labels, j.syms) == Some(lo)
    requires var left := C.AsValue(lo);
             Intact(j.e.r, left.top) && C.Gen(j.e.r, left.top, left.labels, j.syms) == Some(right) &&
             CodeAt(j.k.p.lines, j.s.line, left.code + right.code)
    ensures var left, a := C.AsValue(lo), Eval(j.e.l, j.syms, j.env);
            match if a.Ok? then Eval(j.e.r, j.syms, a.env) else a
            case Ok(b, env) =>
              Reach(j.k, j.s, |left.code| + |right.code|, env, Uses(j.e, j.top).w, n, t) && t.reg[right.r] == b &&
              (Kept(left.r, Uses(j.e.r, left.top).w) ==> t.reg[left.r] == a.v) &&
              AddressHeld(Job(j.k, j.e.r, left.top, left.labels, j.syms, right, a.env, j.s), t.reg)
            case DivFault => Goes(j.k.p, j.s, n, t) && t.mode == Faulted
            case Wrong => false
    decreases j.e, 0, 0
  {
    hide Goes, E.CodeSize, DistinctLabels, InMemory, C.Find, C.Gen, CodeAt, Eval, C.AsValue, AsValue, Intact, Uses,
         Covers, Within;
    var left := C.AsValue(lo);
    BinKnown(j, lo, right);
    var p, s, w := j.k.p, j.s, Uses(j.e, j.top).w;
    CodeAtParts(p.lines, s.line, left.code, right.code);
    n, t := ValueRuns(j.(e := j.e.l, o := lo));
    var a := Eval(j.e.l, j.syms, j.env);
    if a.Ok? {
      var m, u := ExprRuns(Job(j.k, j.e.r, left.top, left.labels, j.syms, right, a.env, t));
      var b := Eval(j.e.r, j.syms, a.env);
      GoesTrans(p, s, n, t, m, u);
      if b.Ok? {
        ReachTrans(j.k, s, |left.code|, a.env, Uses(j.e.l, j.top).w, n, t, |right.code|, b.env,
                   Uses(j.e.r, left.top).w, m, u, w);
      }
      n, t := n + m, u;
    }
  }

  lemma {:induction false} BinRuns(j: Job) returns (n: nat, t: State)
    requires Ready(j) && j.e.Bin?
    ensures Done(j, n, t)
    decreases j.e, 0, 1
  {
    hide Goes, E.CodeSize, DistinctLabels, InMemory, C.Find, C.Gen, CodeAt, Eval, C.AsValue, AsValue, Apply, C.Combine,
         C.Modulo, Uses, Covers, Within;
    var lo, right, tail := BinGen(j);
    var left := C.AsValue(lo);
    BinIntact(j, lo, right);
    BinEval(j);
    BinKnown(j, lo, right);
    CodeAtParts(j.k.p.lines, j.s.line, left.code + right.code, tail);
    n, t := OperandsRun(j, lo, right);
    var a := Eval(j.e.l, j.syms, j.env);
    if a.Ok? {
      var b := Eval(j.e.r, j.syms, a.env);
      if b.Ok? { n, t := BinTail(j, left, right, tail, b.env, t, n, a.v, b.v); }
    }
  }

  lemma {:induction false} BinIntact(j: Job, lo: C.Out, right: C.Out)
    requires Ready(j) && j.e.Bin? && C.Gen(j.e.l, j.top, j.labels, j.syms) == Some(lo)
    requires C.Gen(j.e.r, C.AsValue(lo).top, C.AsValue(lo).labels, j.syms) == Some(right)
    ensures var left := C.AsValue(lo);
            Intact(j.e.l, j.top) && Intact(j.e.r, left.top) && Kept(left.r, Uses(j.e.r, left.top).w) &&
            left.r != right.r &&
            (j.e.op == Mod ==> 5 + right.top != left.r && 5 + right.top != right.r)
  {
    hide AsValue, C.AsValue, C.Gen, Uses;
    BinKnown(j, lo, right);
  }

  lemma {:induction false} BinTail(j: Job, left: C.Out, right: C.Out, tail: seq<Line>, env: Env, u: State, n: nat,
                                   a: Word, b: Word)
    returns (m: nat, t: State)
    requires j.e.Bin? && Operands(left.r, right.r, Uses(j.e, j.top).w)
    requires j.e.op != Mod ==> tail == C.Combine(j.e.op, left.r, right.r)
    requires j.e.op == Mod ==>
               5 + right.top <= 27 && tail == C.Modulo(left.r, right.r, 5 + right.top) && 5 + right.top != left.r &&
               5 + right.top != right.r && Covers(Uses(j.e, j.top).w, 5 + right.top)
    requires Reach(j.k, j.s, |left.code| + |right.code|, env, Uses(j.e, j.top).w, n, u) &&
             CodeAt(j.k.p.lines, u.line, tail)
    requires u.reg[left.r] == a && u.reg[right.r] == b
    ensures match Apply(j.e.op, a, b)
            case Some(v) =>
              Reach(j.k, j.s, |left.code| + |right.code| + |tail|, env, Uses(j.e, j.top).w, m, t) && t.reg[left.r] == v
            case None => Goes(j.k.p, j.s, m, t) && t.mode == Faulted
  {
    hide Goes, InMemory, CodeAt, Apply, C.Combine, Uses, Covers;
    var w := Uses(j.e, j.top).w;
    var i;
    if j.e.op == Mod {
      i, t := ModuloRun(j.k, env, u, left.r, right.r, 5 + right.top, w);
    } else {
      i, t := CombineRun(j.k, env, u, j.e.op, left.r, right.r, w);
    }
    m := n + i;
    GoesTrans(j.k.p, j.s, n, u, i, t);
    if Apply(j.e.op, a, b).Some? {
      ReachTrans(j.k, j.s, |left.code| + |right.code|, env, w, n, u, |tail|, env, w, i, t, w);
    }
  }

  // ----- assignment -----

  lemma {:induction false} AssignGen(j: Job) returns (lo: C.Out, xo: C.Out, mid: seq<Line>)
    requires Ready(j) && j.e.Assign?
    ensures Assignable(j.e.l) && Place(j.e.l).Some? && Intact(j.e.l, j.top) &&
            C.Gen(j.e.l, j.top, j.labels, j.syms) == Some(lo)
    ensures lo.addr.Some? && C.Gen(j.e.e, lo.top, lo.labels, j.syms) == Some(xo)
    ensures j.o.code == lo.code + xo.code + (mid + [RI(STORE, j.o.r, lo.addr.value, 0)]) && j.o.addr == lo.addr
    ensures j.e.with.None? ==> mid == [] && j.o.r == xo.r
    ensures j.e.with.Some? ==>
              AssignOp(j.e.with.value) && j.o.r == 5 + xo.top && 5 + xo.top <= 27 &&
              mid == [RR(C.OpcodeOf(j.e.with.value), j.o.r, lo.r, xo.r)]
  {
    hide E.CodeSize, DistinctLabels, InMemory, C.Find, CodeAt;
    lo := C.Gen(j.e.l, j.top, j.labels, j.syms).value;
    xo := C.Gen(j.e.e, lo.top, lo.labels, j.syms).value;
    mid := if j.e.with.Some? then [RR(C.OpcodeOf(j.e.with.value), j.o.r, lo.r, xo.r)] else [];
    var last := [RI(STORE, j.o.r, lo.addr.value, 0)];
    assert lo.code + xo.code + (mid + last) == lo.code + xo.code + mid + last;
  }

  /** The registers of an assignment's parts: the address is out of reach of the code of the value. */
  lemma {:induction false} AssignKnown(j: Job, lo: C.Out, xo: C.Out)
    requires Ready(j) && j.e.Assign? && C.Gen(j.e.l, j.top, j.labels, j.syms) == Some(lo) && lo.addr.Some?
    requires C.Gen(j.e.e, lo.top, lo.labels, j.syms) == Some(xo)
    ensures var u, v, w := Uses(j.e.l, j.top), Uses(j.e.e, lo.top), Uses(j.e, j.top).w;
            Intact(j.e.e, lo.top) && Assignable(j.e.e) && Within(u.w, w) && Within(v.w, w) &&
            lo.addr.value == 5 + j.top < lo.r <= 27 && !Covers(v.w, lo.addr.value) && 5 <= xo.r <= 27 &&
            xo.r != lo.addr.value &&
            (j.e.with.Some? ==> !Covers(v.w, lo.r) && 5 + xo.top != lo.addr.value && Covers(w, 5 + xo.top))
  {
    hide C.Gen;
    UseFacts(j.e.l, j.top);
    GenUses(j.e.l, j.top, j.labels, j.syms);
    UseFacts(j.e.e, lo.top);
    GenUses(j.e.e, lo.top, lo.labels, j.syms);
  }

  lemma {:induction false} AssignEval(j: Job)
    requires j.e.Assign?
    ensures var a := Eval(j.e.l, j.syms, j.env);
            if !a.Ok? then Eval(j.e, j.syms, j.env) == a
            else
              var b := Eval(j.e.e, j.syms, a.env);
              if !b.Ok? then Eval(j.e, j.syms, j.env) == b
              else
                match if j.e.with.Some? then Apply(j.e.with.value, a.v, b.v) else Some(b.v)
                case None => Eval(j.e, j.syms, j.env) == DivFault
                case Some(v) => Eval(j.e, j.syms, j.env) == StoreTo(j.e.l, v, v, j.syms, b.env)
    ensures Place(j.e) == Place(j.e.l)
  {
    hide Apply, StoreTo;
  }

  lemma {:induction false} AssignRuns(j: Job) returns (n: nat, t: State)
    requires Ready(j) && j.e.Assign?
    ensures Done(j, n, t)
    decreases j.e, 0
  {
    hide Goes, E.CodeSize, DistinctLabels, InMemory, C.Find, C.Gen, CodeAt, Eval, Apply, StoreTo, Uses, Covers,
         Within, Intact;
    var lo, xo, mid := AssignGen(j);
    AssignEval(j);
    AssignKnown(j, lo, xo);
    WithinSelf(Uses(j.e, j.top).w);
    var p, s, span := j.k.p, j.s, Uses(j.e, j.top).w;
    var tail := mid + [RI(STORE, j.o.r, lo.addr.value, 0)];
    CodeAtParts(p.lines, s.line, lo.code + xo.code, tail);
    CodeAtParts(p.lines, s.line, lo.code, xo.code);
    var j1 := j.(e := j.e.l, o := lo);
    n, t := ExprRuns(j1);
    var a := Eval(j.e.l, j.syms, j.env);
    if a.Ok? {
      LvalueFacts(j1, t);
      var m, u := ExprRuns(Job(j.k, j.e.e, lo.top, lo.labels, j.syms, xo, a.env, t));
      var b := Eval(j.e.e, j.syms, a.env);
      GoesTrans(p, s, n, t, m, u);
      if b.Ok? {
        ReachTrans(j.k, s, |lo.code|, a.env, Uses(j.e.l, j.top).w, n, t, |xo.code|, b.env, Uses(j.e.e, lo.top).w, m,
                   u, span);
        HeldSize(j.k, b.env, u);
        var off := C.Find(j.syms, Place(j.e.l).value).value;
        var i, v := AssignTail(j, lo, xo, mid, b.env, u, off, a.v, b.v, span);
        GoesTrans(p, s, n + m, u, i, v);
        var w := if j.e.with.Some? then Apply(j.e.with.value, a.v, b.v) else Some(b.v);
        if w.Some? {
          StoreToSlot(j.e.l, w.value, w.value, j.syms, b.env);
          ReachTrans(j.k, s, |lo.code| + |xo.code|, b.env, span, n + m, u, |tail|, b.env[off - 2 := w.value], span,
                     i, v, span);
        }
        n, t := n + m + i, v;
      } else {
        n, t := n + m, u;
      }
    }
  }

  /** The operator of a compound assignment, and the store. */
  lemma {:induction false} AssignTail(j: Job, lo: C.Out, xo: C.Out, mid: seq<Line>, env: Env, u: State, off: nat,
                                      a: Word, b: Word, w: Span)
    returns (n: nat, t: State)
    requires j.e.Assign? && Good(j.k) && Held(j.k, env, u) && 2 <= off < 2 + j.k.size && lo.addr.Some?
    requires 5 <= lo.addr.value <= 27 && 5 <= lo.r <= 27 && 5 <= xo.r <= 27 && u.reg[lo.addr.value] == j.k.fp + off
    requires (j.e.with.Some? ==> u.reg[lo.r] == a) && u.reg[xo.r] == b
    requires j.e.with.None? ==> mid == [] && j.o.r == xo.r
    requires j.e.with.Some? ==>
               AssignOp(j.e.with.value) && j.o.r == 5 + xo.top && 5 + xo.top <= 27 && Covers(w, 5 + xo.top) &&
               5 + xo.top != lo.addr.value && mid == [RR(C.OpcodeOf(j.e.with.value), j.o.r, lo.r, xo.r)]
    requires CodeAt(j.k.p.lines, u.line, mid + [RI(STORE, j.o.r, lo.addr.value, 0)])
    ensures match if j.e.with.Some? then Apply(j.e.with.value, a, b) else Some(b)
            case None => Goes(j.k.p, u, n, t) && t.mode == Faulted
            case Some(v) =>
              Reach(j.k, u, |mid| + 1, env[off - 2 := v], w, n, t) && t.reg[j.o.r] == v &&
              t.reg[lo.addr.value] == j.k.fp + off
  {
    hide Goes, E.CodeSize, DistinctLabels, InMemory, CodeAt, Apply, Alu, Covers;
    var last := [RI(STORE, j.o.r, lo.addr.value, 0)];
    HeldSize(j.k, env, u);
    CodeAtParts(j.k.p.lines, u.line, mid, last);
    CodeAtLine(j.k.p.lines, u.line + |mid|, last, 0);
    if j.e.with.None? {
      t := StoreRun(j.k, env, u, j.o.r, lo.addr.value, off, w);
      n := 1;
    } else {
      var op := j.e.with.value;
      CodeAtLine(j.k.p.lines, u.line, mid, 0);
      ApplyIsAlu(op, a, b);
      DoAlu(j.k.p, u, C.OpcodeOf(op), j.o.r, lo.r, xo.r);
      var v := Apply(op, a, b);
      if v.None? {
        n, t := 1, u.(line := u.line + 1, mode := Faulted);
      } else {
        var s1 := After(u, j.o.r, v.value);
        ReachOne(j.k, env, u, w, s1);
        t := StoreRun(j.k, env, s1, j.o.r, lo.addr.value, off, w);
        ReachTrans(j.k, u, 1, env, w, 1, s1, 1, env[off - 2 := v.value], w, 1, t, w);
        n := 2;
      }
    }
  }

  // ----- the conditional operator -----

  /** Where the pieces of `c ? a : b` lie. */
  datatype Fork = Fork(co: C.Out, ao: C.Out, bo: C.Out, result: RegIx, at: nat)

  function AMove(f: Fork): nat { f.at + 1 + |f.ao.code| }

  function BMove(f: Fork): nat { AMove(f) + 3 + |f.bo.code| }

  predicate Laid(p: Program, f: Fork) {
    BMove(f) + 1 < |p.lines| && p.lines[f.at] == JumpZ(f.co.r, C.L(f.co.labels)) &&
    CodeAt(p.lines, f.at + 1, f.ao.code) && p.lines[AMove(f)] == RR(ADD, f.result, f.ao.r, 0) &&
    p.lines[AMove(f) + 1] == Jump(C.L(f.co.labels + 1)) && p.lines[AMove(f) + 2] == LabelDef(C.L(f.co.labels)) &&
    CodeAt(p.lines, AMove(f) + 3, f.bo.code) && p.lines[BMove(f)] == RR(ADD, f.result, f.bo.r, 0) &&
    p.lines[BMove(f) + 1] == LabelDef(C.L(f.co.labels + 1))
  }

  lemma {:induction false} CondGen(j: Job) returns (f: Fork)
    requires Ready(j) && j.e.Cond?
    ensures Assignable(j.e.c) && Assignable(j.e.a) && Assignable(j.e.b) &&
            C.Gen(j.e.c, j.top, j.labels, j.syms) == Some(f.co)
    ensures C.Gen(j.e.a, C.FreeOne(f.co.top) + 1, f.co.labels + 2, j.syms) == Some(f.ao)
    ensures C.Gen(j.e.b, C.FreeOne(f.co.top) + 1, f.ao.labels, j.syms) == Some(f.bo)
    ensures f.result == j.o.r == 5 + C.FreeOne(f.co.top) && f.at == j.s.line + |f.co.code|
    ensures CodeAt(j.k.p.lines, j.s.line, f.co.code) && Laid(j.k.p, f) && BMove(f) + 2 == j.s.line + |j.o.code|
  {
    hide E.CodeSize, DistinctLabels, InMemory, C.Find, CodeAt;
    var co := C.Gen(j.e.c, j.top, j.labels, j.syms).value;
    var ao := C.Gen(j.e.a, C.FreeOne(co.top) + 1, co.labels + 2, j.syms).value;
    var bo := C.Gen(j.e.b, C.FreeOne(co.top) + 1, ao.labels, j.syms).value;
    f := Fork(co, ao, bo, j.o.r, j.s.line + |co.code|);
    LayFork(j.k.p, j.s.line, f, j.o.code);
  }

  lemma {:induction false} LayFork(p: Program, start: nat, f: Fork, code: seq<Line>)
    requires f.at == start + |f.co.code| && CodeAt(p.lines, start, code)
    requires code == f.co.code + [JumpZ(f.co.r, C.L(f.co.labels))] + f.ao.code
                     + [RR(ADD, f.result, f.ao.r, 0), Jump(C.L(f.co.labels + 1)), LabelDef(C.L(f.co.labels))]
                     + f.bo.code + [RR(ADD, f.result, f.bo.r, 0), LabelDef(C.L(f.co.labels + 1))]
    ensures CodeAt(p.lines, start, f.co.code) && Laid(p, f) && BMove(f) + 2 == start + |code|
  {
    hide CodeAt;
    var jz := [JumpZ(f.co.r, C.L(f.co.labels))];
    var mid := [RR(ADD, f.result, f.ao.r, 0), Jump(C.L(f.co.labels + 1)), LabelDef(C.L(f.co.labels))];
    var last := [RR(ADD, f.result, f.bo.r, 0), LabelDef(C.L(f.co.labels + 1))];
    SixParts(p.lines, start, f.co.code, jz, f.ao.code, mid, f.bo.code, last);
    CodeAtLine(p.lines, f.at, jz, 0);
    CodeAtLine(p.lines, AMove(f), mid, 0);
    CodeAtLine(p.lines, AMove(f), mid, 1);
    CodeAtLine(p.lines, AMove(f), mid, 2);
    CodeAtLine(p.lines, BMove(f), last, 0);
    CodeAtLine(p.lines, BMove(f), last, 1);
  }

  lemma {:induction false} SixParts(lines: seq<Line>, at: nat, a: seq<Line>, b: seq<Line>, c: seq<Line>,
                                    d: seq<Line>, e: seq<Line>, f: seq<Line>)
    requires CodeAt(lines, at, a + b + c + d + e + f)
    ensures CodeAt(lines, at, a) && CodeAt(lines, at + |a|, b) && CodeAt(lines, at + |a| + |b|, c)
    ensures CodeAt(lines, at + |a| + |b| + |c|, d) && CodeAt(lines, at + |a| + |b| + |c| + |d|, e)
    ensures CodeAt(lines, at + |a| + |b| + |c| + |d| + |e|, f)
  {
    hide CodeAt;
    CodeAtParts(lines, at, a + b + c + d + e, f);
    CodeAtParts(lines, at, a + b + c + d, e);
    CodeAtParts(lines, at, a + b + c, d);
    CodeAtParts(lines, at, a + b, c);
    CodeAtParts(lines, at, a, b);
  }

  lemma {:induction false} CondEval(j: Job)
    requires j.e.Cond?
    ensures var w := Eval(j.e.c, j.syms, j.env);
            Eval(j.e, j.syms, j.env)
            == if !w.Ok? then w else if w.v != 0 then Eval(j.e.a, j.syms, w.env) else Eval(j.e.b, j.syms, w.env)
    ensures Place(j.e).None?
  {
  }

  /** A jump loses R1, R27 and R28 only. */
  lemma {:induction false} JumpKeeps(k: Frame, env: Env, s: State, line: nat, t: State)
    requires Held(k, env, s) && Arrives(k.p, s, line, t)
    ensures Held(k, env, t) && KeepsRegs(s.reg, t.reg, Just(27)) && forall q :: 2 <= q < 27 ==> t.reg[q] == s.reg[q]
  {
    hide InMemory;
  }

  /** The registers of a conditional's parts. */
  lemma {:induction false} CondKnown(j: Job, f: Fork)
    requires j.e.Cond? && Intact(j.e, j.top) && C.Gen(j.e.c, j.top, j.labels, j.syms) == Some(f.co)
    requires C.Gen(j.e.a, C.FreeOne(f.co.top) + 1, f.co.labels + 2, j.syms) == Some(f.ao)
    requires C.Gen(j.e.b, C.FreeOne(f.co.top) + 1, f.ao.labels, j.syms) == Some(f.bo)
    ensures var base, w := C.FreeOne(f.co.top), Uses(j.e, j.top).w;
            Intact(j.e.c, j.top) && Intact(j.e.a, base + 1) && Intact(j.e.b, base + 1) && base <= 21 &&
            Within(Uses(j.e.c, j.top).w, w) && Within(Uses(j.e.a, base + 1).w, w) &&
            Within(Uses(j.e.b, base + 1).w, w) &&
            Covers(w, 5 + base) && w.r27 && 5 <= f.co.r <= 27 && 5 <= f.ao.r <= 27 && 5 <= f.bo.r <= 27
  {
    hide C.Gen, Intact, Uses;
    CondUnfold(j.e, j.top);
    UseFacts(j.e.c, j.top);
    GenUses(j.e.c, j.top, j.labels, j.syms);
    var base := C.FreeOne(f.co.top);
    UseFacts(j.e.a, base + 1);
    GenUses(j.e.a, base + 1, f.co.labels + 2, j.syms);
    UseFacts(j.e.b, base + 1);
    GenUses(j.e.b, base + 1, f.ao.labels, j.syms);
  }

  lemma CondUnfold(e: Expr, top: nat)
    requires e.Cond?
    ensures var u := Uses(e.c, top);
            var base := C.FreeOne(u.top);
            Uses(e, top) == CondUse(u, Uses(e.a, base + 1), Uses(e.b, base + 1)) &&
            (Intact(e, top) <==> Intact(e.c, top) && Intact(e.a, base + 1) && Intact(e.b, base + 1))
  {
    hide CondUse;
  }

  lemma {:induction false} CondRuns(j: Job) returns (n: nat, t: State)
    requires Ready(j) && j.e.Cond?
    ensures Done(j, n, t)
    decreases j.e, 0
  {
    hide Goes, Held, Good, C.Find, C.Gen, CodeAt, Eval, Laid, Uses, Covers, Within, KeepsRegs, Intact;
    var f := CondGen(j);
    CondEval(j);
    CondKnown(j, f);
    var base, span := C.FreeOne(f.co.top), Uses(j.e, j.top).w;
    n, t := ExprRuns(j.(e := j.e.c, o := f.co));
    var w := Eval(j.e.c, j.syms, j.env);
    if w.Ok? {
      var u := ChooseArm(j.k, f, w.env, t, span);
      GoesTrans(j.k.p, j.s, n, t, 1, u);
      WithinSelf(span);
      KeepsTrans(j.s.reg, t.reg, u.reg, Uses(j.e.c, j.top).w, span, span);
      var m, v;
      if w.v != 0 { m, v := TrueArm(j, f, w.env, u, base); } else { m, v := FalseArm(j, f, w.env, u, base); }
      GoesTrans(j.k.p, j.s, n + 1, u, m, v);
      if Eval(j.e, j.syms, j.env).Ok? { KeepsTrans(j.s.reg, u.reg, v.reg, span, span, span); }
      n, t := n + 1 + m, v;
    }
  }

  lemma {:induction false} WithinSelf(w: Span)
    ensures Within(w, w)
  {
  }

  lemma {:induction false} KeepsWider(a: Regs, b: Regs, w1: Span, w: Span)
    requires KeepsRegs(a, b, w1) && (w1 == Just(27) || Within(w1, w)) && w.r27
    ensures KeepsRegs(a, b, w)
  {
    forall q | 5 <= q <= 27 && !Covers(w, q) ensures a[q] == b[q] { assert !Covers(w1, q); }
  }

  lemma {:induction false} ChooseArm(k: Frame, f: Fork, env: Env, s: State, w: Span) returns (t: State)
    requires Good(k) && Held(k, env, s) && Laid(k.p, f) && s.line == f.at && w.r27
    ensures Goes(k.p, s, 1, t) && Held(k, env, t) && KeepsRegs(s.reg, t.reg, w)
    ensures t.line == if s.reg[f.co.r] != 0 then f.at + 1 else AMove(f) + 2
  {
    hide Goes, E.CodeSize, CodeAt, InMemory;
    t := DoJumpIf(k.p, s, f.co.r, C.L(f.co.labels), AMove(f) + 2);
    if s.reg[f.co.r] == 0 {
      JumpKeeps(k, env, s, AMove(f) + 2, t);
      KeepsWider(s.reg, t.reg, Just(27), w);
    }
  }

  /** `n` steps bring an arm's value to the end of the whole conditional. */
  ghost predicate ArmDone(j: Job, f: Fork, x: Expr, env: Env, s: State, n: nat, t: State) {
    match Eval(x, j.syms, env)
    case Ok(v, env') =>
      Goes(j.k.p, s, n, t) && t.line == BMove(f) + 2 && Held(j.k, env', t) &&
      KeepsRegs(s.reg, t.reg, Uses(j.e, j.top).w) && t.reg[f.result] == v
    case DivFault => Goes(j.k.p, s, n, t) && t.mode == Faulted
    case Wrong => false
  }

  /** An arm that lies within the conditional's registers. */
  predicate ArmReady(j: Job, f: Fork, x: Expr, base: nat) {
    j.e.Cond? && Good(j.k) && InFrame(j.syms, j.k.size) && Laid(j.k.p, f) && Assignable(x) && Intact(x, base + 1) &&
    f.result == 5 + base && base <= 21 && Uses(j.e, j.top).w.r27 && Covers(Uses(j.e, j.top).w, f.result) &&
    Within(Uses(x, base + 1).w, Uses(j.e, j.top).w)
  }

  lemma {:induction false} TrueArm(j: Job, f: Fork, env: Env, s: State, base: nat) returns (n: nat, t: State)
    requires j.e.Cond? && ArmReady(j, f, j.e.a, base) && C.Gen(j.e.a, base + 1, f.co.labels + 2, j.syms) == Some(f.ao)
    requires Held(j.k, env, s) && s.line == f.at + 1
    ensures ArmDone(j, f, j.e.a, env, s, n, t)
    decreases j.e.a, 3
  {
    hide Goes, E.CodeSize, C.Find, C.Gen, CodeAt, Eval, InMemory, DistinctLabels, Uses, Covers, Within, KeepsRegs,
         Intact;
    var span := Uses(j.e, j.top).w;
    n, t := ExprRuns(Job(j.k, j.e.a, base + 1, f.co.labels + 2, j.syms, f.ao, env, s));
    var w := Eval(j.e.a, j.syms, env);
    if w.Ok? {
      var t1 := MoveRun(j.k, w.env, t, f.result, f.ao.r, span);
      WithinSelf(span);
      ReachTrans(j.k, s, |f.ao.code|, w.env, Uses(j.e.a, base + 1).w, n, t, 1, w.env, span, 1, t1, span);
      var t2 := DoJump(j.k.p, t1, C.L(f.co.labels + 1), BMove(f) + 1);
      JumpKeeps(j.k, w.env, t1, BMove(f) + 1, t2);
      KeepsWider(t1.reg, t2.reg, Just(27), span);
      KeepsTrans(s.reg, t1.reg, t2.reg, span, span, span);
      t := PassLabel(j.k, w.env, t2, C.L(f.co.labels + 1));
      GoesTrans(j.k.p, s, n + 1, t1, 1, t2);
      GoesTrans(j.k.p, s, n + 2, t2, 1, t);
      n := n + 3;
    }
  }

  lemma {:induction false} PassLabel(k: Frame, env: Env, s: State, name: Name) returns (t: State)
    requires Held(k, env, s) && OnLine(k.p, s, LabelDef(name))
    ensures Goes(k.p, s, 1, t) && t == s.(line := s.line + 1) && Held(k, env, t)
  {
    hide Goes, InMemory;
    DoLabel(k.p, s, name);
    t := s.(line := s.line + 1);
  }

  lemma {:induction false} FalseArm(j: Job, f: Fork, env: Env, s: State, base: nat) returns (n: nat, t: State)
    requires j.e.Cond? && ArmReady(j, f, j.e.b, base) && C.Gen(j.e.b, base + 1, f.ao.labels, j.syms) == Some(f.bo)
    requires Held(j.k, env, s) && s.line == AMove(f) + 2
    ensures ArmDone(j, f, j.e.b, env, s, n, t)
    decreases j.e.b, 3
  {
    hide Goes, E.CodeSize, C.Find, C.Gen, CodeAt, Eval, InMemory, DistinctLabels, Uses, Covers, Within, KeepsRegs,
         Intact;
    var span := Uses(j.e, j.top).w;
    var s1 := PassLabel(j.k, env, s, C.L(f.co.labels));
    n, t := ExprRuns(Job(j.k, j.e.b, base + 1, f.ao.labels, j.syms, f.bo, env, s1));
    GoesTrans(j.k.p, s, 1, s1, n, t);
    n := 1 + n;
    var w := Eval(j.e.b, j.syms, env);
    if w.Ok? {
      var t1 := MoveRun(j.k, w.env, t, f.result, f.bo.r, span);
      var t2 := PassLabel(j.k, w.env, t1, C.L(f.co.labels + 1));
      WithinSelf(span);
      KeepsTrans(s.reg, t.reg, t1.reg, Uses(j.e.b, base + 1).w, span, span);
      GoesTrans(j.k.p, s, n, t, 1, t1);
      GoesTrans(j.k.p, s, n + 1, t1, 1, t2);
      n, t := n + 2, t2;
    }
  }
}
