/** The code emitted for statements carries out every run of them: straight-line code, branches,
    loops with `break` and `continue`, and `return`. */
module CStatementRuns {
  import opened Words
  import opened Machine
  import opened Assembly
  import opened Runs
  import opened CSyntax
  import opened CUses
  import opened CMeaning
  import opened CExpressions
  import opened CStatements
  import C = CCode
  import E = Expansion

  /** The lines of the labels `break`, `continue` and `return` jump to. */
  datatype Where = Where(brk: nat, cont: nat, end: nat)

  predicate LabelOn(p: Program, line: nat, id: nat) {
    line < |p.lines| && p.lines[line] == LabelDef(C.L(id))
  }

  predicate TargetsOn(p: Program, tg: Targets, wh: Where) {
    (tg.brk.Some? ==> LabelOn(p, wh.brk, tg.brk.value)) && (tg.cont.Some? ==> LabelOn(p, wh.cont, tg.cont.value)) &&
    LabelOn(p, wh.end, tg.end)
  }

  /** Control is on `line` with the variables `env`; the frame registers are as they were. */
  ghost predicate Lands(k: Frame, s: State, line: nat, env: Env, n: nat, t: State) {
    Goes(k.p, s, n, t) && t.line == line && Held(k, env, t) && KeepsFrame(s.reg, t.reg)
  }

  /** `n` steps from `s` end the way the statement does; `len` lines of code follow one another. */
  ghost predicate Flows(k: Frame, s: State, len: nat, o: Flow, tg: Targets, wh: Where, fuel: nat, n: nat, t: State) {
    match o
    case Fall(env) => Lands(k, s, s.line + len, env, n, t)
    case Broke(env) => tg.brk.Some? && Lands(k, s, wh.brk, env, n, t)
    case Continued(env) => tg.cont.Some? && Lands(k, s, wh.cont, env, n, t)
    case Returned(v, env) => Lands(k, s, wh.end, env, n, t) && (v.Some? ==> t.reg[C.RET] == v.value)
    case Undefined => Goes(k.p, s, n, t) && t.mode == Faulted
    case Bad => false
    case Timeout => Goes(k.p, s, n, t) && n >= fuel && t.mode == Going && t.line < |k.p.lines|
  }

  predicate Part(p: Program, at: nat, code: seq<Line>) { CodeAt(p.lines, at, code) }

  lemma {:induction false} PartSplit(p: Program, at: nat, a: seq<Line>, b: seq<Line>)
    requires Part(p, at, a + b)
    ensures Part(p, at, a) && Part(p, at + |a|, b)
  {
    hide CodeAt;
    CodeAtParts(p.lines, at, a, b);
  }

  lemma {:induction false} PartLine(p: Program, at: nat, code: seq<Line>, k: nat)
    requires Part(p, at, code) && k < |code|
    ensures at + k < |p.lines| && p.lines[at + k] == code[k]
  {
    CodeAtLine(p.lines, at, code, k);
  }

  lemma {:induction false} LandsTrans(k: Frame, s: State, l1: nat, e1: Env, n1: nat, t: State, l2: nat, e2: Env,
                                      n2: nat, u: State)
    requires Lands(k, s, l1, e1, n1, t) && Lands(k, t, l2, e2, n2, u)
    ensures Lands(k, s, l2, e2, n1 + n2, u)
  {
    hide Goes, Held;
    GoesTrans(k.p, s, n1, t, n2, u);
  }

  /** What comes after a landing decides the outcome. */
  lemma {:induction false} FlowAfter(k: Frame, s: State, l1: nat, e1: Env, n1: nat, t: State, len: nat, o: Flow,
                                     tg: Targets, wh: Where, fuel: nat, n2: nat, u: State, len2: nat)
    requires Lands(k, s, l1, e1, n1, t) && Flows(k, t, len, o, tg, wh, fuel, n2, u)
    requires t.line + len == s.line + len2
    ensures Flows(k, s, len2, o, tg, wh, fuel, n1 + n2, u)
  {
    hide Goes, Held;
    GoesTrans(k.p, s, n1, t, n2, u);
  }

  lemma {:induction false} DropTemps(k: Frame, s: State, len: nat, env: Env, w: Span, n: nat, t: State)
    requires Reach(k, s, len, env, w, n, t)
    ensures Lands(k, s, s.line + len, env, n, t)
  {
  }

  lemma {:induction false} PassLabelLands(k: Frame, env: Env, s: State, id: nat) returns (t: State)
    requires Held(k, env, s) && LabelOn(k.p, s.line, id)
    ensures Lands(k, s, s.line + 1, env, 1, t)
  {
    hide Goes, InMemory;
    t := PassLabel(k, env, s, C.L(id));
  }

  lemma {:induction false} JumpLands(k: Frame, env: Env, s: State, id: nat, line: nat) returns (t: State)
    requires Good(k) && Held(k, env, s) && LabelOn(k.p, line, id) && OnLine(k.p, s, Jump(C.L(id)))
    ensures Lands(k, s, line, env, 1, t)
    ensures t.reg[C.RET] == s.reg[C.RET]
  {
    hide Goes, InMemory, E.CodeSize;
    t := DoJump(k.p, s, C.L(id), line);
    JumpKeeps(k, env, s, line, t);
  }

  lemma {:induction false} StayLands(k: Frame, env: Env, s: State)
    requires Held(k, env, s)
    ensures Lands(k, s, s.line, env, 0, s)
  {
    GoesZero(k.p, s);
  }

  // ----- expressions at statement level -----

  /** A tidy expression compiled from an empty stack of temporaries, about to run. */
  predicate ExprReady(k: Frame, e: Expr, labels: nat, syms: C.Symbols, o: C.Out, env: Env, s: State) {
    Good(k) && Tidy(e) && C.Gen(e, 0, labels, syms) == Some(o) && InFrame(syms, k.size) &&
    Part(k.p, s.line, o.code) && Held(k, env, s)
  }

  lemma {:induction false} StatementExpr(k: Frame, e: Expr, labels: nat, syms: C.Symbols, o: C.Out, env: Env, s: State)
    returns (n: nat, t: State)
    requires ExprReady(k, e, labels, syms, o, env, s)
    ensures match Eval(e, syms, env)
            case Ok(v, env') => Lands(k, s, s.line + |o.code|, env', n, t) && t.reg[o.r] == v && 5 <= o.r <= 27
            case DivFault => Goes(k.p, s, n, t) && t.mode == Faulted
            case Wrong => false
  {
    hide Goes, Good, Held, C.Gen, CodeAt, Eval, InFrame;
    UseFacts(e, 0);
    GenUses(e, 0, labels, syms);
    n, t := ExprRuns(Job(k, e, 0, labels, syms, o, env, s));
    var w := Eval(e, syms, env);
    if w.Ok? { DropTemps(k, s, |o.code|, w.env, Uses(e, 0).w, n, t); }
  }

  predicate TidyAll(es: seq<Expr>) { forall i :: 0 <= i < |es| ==> Tidy(es[i]) }

  /** A comma list runs left to right; the last value is in the register reported. */
  lemma {:induction false} ListRuns(k: Frame, es: seq<Expr>, labels: nat, syms: C.Symbols, q: (RegIx, Out), env: Env,
                                    s: State)
    returns (n: nat, t: State)
    requires Good(k) && TidyAll(es) && GenList(es, labels, syms) == Some(q) && InFrame(syms, k.size)
    requires Part(k.p, s.line, q.1.code) && Held(k, env, s)
    ensures match EvalList(es, syms, env)
            case Ok(v, env') =>
              Lands(k, s, s.line + |q.1.code|, env', n, t) && (es != [] ==> t.reg[q.0] == v && 5 <= q.0 <= 27)
            case DivFault => Goes(k.p, s, n, t) && t.mode == Faulted
            case Wrong => false
    decreases |es|
  {
    hide Goes, Good, Held, C.Gen, Part, Eval, InFrame, Lands;
    if es == [] {
      StayLands(k, env, s);
      n, t := 0, s;
    } else {
      var o := C.Gen(es[0], 0, labels, syms).value;
      if |es| == 1 {
        n, t := StatementExpr(k, es[0], labels, syms, o, env, s);
      } else {
        var r := GenList(es[1..], o.labels, syms).value;
        PartSplit(k.p, s.line, o.code, r.1.code);
        n, t := StatementExpr(k, es[0], labels, syms, o, env, s);
        var w := Eval(es[0], syms, env);
        if w.Ok? {
          LandsFacts(k, s, s.line + |o.code|, w.env, n, t);
          var m, u := ListRuns(k, es[1..], o.labels, syms, r, w.env, t);
          var v := EvalList(es[1..], syms, w.env);
          if v.Ok? { LandsTrans(k, s, t.line, w.env, n, t, t.line + |r.1.code|, v.env, m, u); }
          if v.DivFault? { GoesTrans(k.p, s, n, t, m, u); }
          n, t := n + m, u;
        }
      }
    }
  }

  lemma {:induction false} LandsFacts(k: Frame, s: State, line: nat, env: Env, n: nat, t: State)
    requires Lands(k, s, line, env, n, t)
    ensures Goes(k.p, s, n, t) && t.line == line && Held(k, env, t)
  {
  }

  // ----- declarations -----

  predicate TidyItems(items: seq<Item>) {
    forall i :: 0 <= i < |items| && items[i].init.Some? ==> Tidy(items[i].init.value)
  }

  lemma {:induction false} DeclareInFrame(sc: Scope, x: string, size: nat)
    requires InFrame(sc.syms, size) && 2 <= sc.next && Declare(sc, x).next <= 2 + size && sc.next < MAX_OFFSET
    ensures InFrame(Declare(sc, x).syms, size)
  {
  }

  /** `STORE r, FP, next` */
  lemma {:induction false} InitStore(k: Frame, env: Env, s: State, r: RegIx, off: nat) returns (t: State)
    requires Good(k) && Held(k, env, s) && 2 <= off < 2 + k.size && OnLine(k.p, s, RI(STORE, r, C.FP, off))
    ensures |env| == k.size && Lands(k, s, s.line + 1, env[off - 2 := s.reg[r]], 1, t)
  {
    hide Goes, E.CodeSize, InMemory, Address, DistinctLabels;
    OffsetAddress(k, off);
    HeldSize(k, env, s);
    FrameAddress(k, off);
    DoStore(k.p, s, r, 29, off);
    t := s.(line := s.line + 1, mem := s.mem[k.fp + off := s.reg[r]]);
    StoreHeld(k, env, s.mem, off, s.reg[r]);
  }

  lemma {:induction false} FrameAddress(k: Frame, off: nat)
    requires Good(k) && 2 <= off < 2 + k.size
    ensures Address(k.fp, off) == k.fp + off
  {
    hide E.CodeSize, DistinctLabels;
  }

  lemma {:induction false} ItemRuns(k: Frame, i: Item, sc: Scope, labels: nat, o: Out, env: Env, s: State,
                                    tg: Targets, wh: Where, fuel: nat)
    returns (n: nat, t: State)
    requires Good(k) && (i.init.Some? ==> Tidy(i.init.value)) && GenItem(i, sc, labels) == Some(o)
    requires InFrame(sc.syms, k.size) && 2 <= sc.next && Declare(sc, i.x).next <= 2 + k.size
    requires Part(k.p, s.line, o.code) && Held(k, env, s)
    ensures Flows(k, s, |o.code|, ExecItem(i, sc, env), tg, wh, fuel, n, t)
  {
    hide Goes, Good, C.Gen, Part, Eval, InFrame, Lands, InMemory;
    if i.init.None? {
      StayLands(k, env, s);
      n, t := 0, s;
    } else {
      DeclareInFrame(sc, i.x, k.size);
      var e := i.init.value;
      var syms := Declare(sc, i.x).syms;
      var x := C.Gen(e, 0, labels, syms).value;
      var last := [RI(STORE, x.r, C.FP, sc.next)];
      PartSplit(k.p, s.line, x.code, last);
      n, t := StatementExpr(k, e, labels, syms, x, env, s);
      var w := Eval(e, syms, env);
      if w.Ok? {
        LandsFacts(k, s, s.line + |x.code|, w.env, n, t);
        PartLine(k.p, s.line + |x.code|, last, 0);
        var u := InitStore(k, w.env, t, x.r, sc.next);
        LandsTrans(k, s, t.line, w.env, n, t, t.line + 1, w.env[sc.next - 2 := w.v], 1, u);
        n, t := n + 1, u;
      }
    }
  }

  lemma {:induction false} ItemsRuns(k: Frame, items: seq<Item>, sc: Scope, labels: nat, o: Out, env: Env, s: State,
                                     tg: Targets, wh: Where, fuel: nat)
    returns (n: nat, t: State)
    requires Good(k) && TidyItems(items) && GenItems(items, sc, labels) == Some(o)
    requires InFrame(sc.syms, k.size) && 2 <= sc.next && ItemsScope(items, sc).next <= 2 + k.size
    requires Part(k.p, s.line, o.code) && Held(k, env, s)
    ensures Flows(k, s, |o.code|, ExecItems(items, sc, env), tg, wh, fuel, n, t)
    decreases |items|
  {
    hide Goes, Good, Part, InFrame, Lands, Held, GenItem, ExecItem;
    if items == [] {
      StayLands(k, env, s);
      n, t := 0, s;
    } else {
      var x := GenItem(items[0], sc, labels).value;
      var sc1 := Declare(sc, items[0].x);
      var r := GenItems(items[1..], sc1, x.labels).value;
      ItemsNext(items[1..], sc1);
      SmallOffset(items[0], sc, labels);
      DeclareInFrame(sc, items[0].x, k.size);
      PartSplit(k.p, s.line, x.code, r.code);
      n, t := ItemRuns(k, items[0], sc, labels, x, env, s, tg, wh, fuel);
      var w := ExecItem(items[0], sc, env);
      if w.Fall? {
        LandsFacts(k, s, s.line + |x.code|, w.env, n, t);
        var m, u := ItemsRuns(k, items[1..], sc1, x.labels, r, w.env, t, tg, wh, fuel);
        FlowAfter(k, s, t.line, w.env, n, t, |r.code|, ExecItems(items[1..], sc1, w.env), tg, wh, fuel, m, u, |o.code|);
        n, t := n + m, u;
      }
    }
  }

  lemma {:induction false} SmallOffset(i: Item, sc: Scope, labels: nat)
    requires GenItem(i, sc, labels).Some?
    ensures sc.next < MAX_OFFSET
  {
    hide C.Gen;
  }

  // ----- a statement and its surroundings -----

  /** The surroundings of a statement about to run, and the code emitted for it. */
  datatype Task = Task(k: Frame, sc: Scope, labels: nat, tg: Targets, wh: Where, env: Env, s: State, o: Out)

  predicate Set(x: Task) {
    Good(x.k) && InFrame(x.sc.syms, x.k.size) && 2 <= x.sc.next && TargetsOn(x.k.p, x.tg, x.wh) &&
    Part(x.k.p, x.s.line, x.o.code) && Held(x.k, x.env, x.s)
  }

  predicate TidyInit(i: Init) { if i.Decls? then TidyItems(i.items) else TidyAll(i.es) }

  /** Every expression of a statement is tidy. */
  predicate TidyStmt(s: Stmt)
    decreases s, 0
  {
    match s
    case Block(b) => TidyBody(b)
    case Decl(items) => TidyItems(items)
    case Return(es) => TidyAll(es)
    case If(c, t) => Tidy(c) && TidyStmt(t)
    case IfElse(c, t, e) => Tidy(c) && TidyStmt(t) && TidyStmt(e)
    case While(c, b) => Tidy(c) && TidyStmt(b)
    case For(i, c, e, b) => TidyInit(i) && (c.Some? ==> Tidy(c.value)) && TidyAll(e) && TidyStmt(b)
    case Do(e) => Tidy(e)
    case _ => true
  }

  predicate TidyBody(b: seq<Stmt>)
    decreases b, 1
  {
    b == [] || (TidyStmt(b[0]) && TidyBody(b[1..]))
  }

  predicate StmtReady(s: Stmt, x: Task) {
    Set(x) && TidyStmt(s) && GenStmt(s, x.sc, x.labels, x.tg) == Some(x.o) && StmtScope(s, x.sc).next <= 2 + x.k.size
  }

  predicate BodyReady(b: seq<Stmt>, x: Task) {
    Set(x) && TidyBody(b) && GenBody(b, x.sc, x.labels, x.tg) == Some(x.o) && BodyScope(b, x.sc).next <= 2 + x.k.size
  }

  ghost predicate Done(x: Task, o: Flow, fuel: nat, n: nat, t: State) {
    Flows(x.k, x.s, |x.o.code|, o, x.tg, x.wh, fuel, n, t)
  }

  // ----- names stay inside the frame -----

  lemma {:induction false} ItemsInFrame(items: seq<Item>, sc: Scope, size: nat)
    requires InFrame(sc.syms, size) && 2 <= sc.next && ItemsScope(items, sc).next <= 2 + size && size <= 1000
    ensures InFrame(ItemsScope(items, sc).syms, size)
    decreases |items|
  {
    if items != [] {
      ItemsNext(items[1..], Declare(sc, items[0].x));
      ItemsInFrame(items[1..], Declare(sc, items[0].x), size);
    }
  }

  lemma {:induction false} StmtInFrame(s: Stmt, sc: Scope, size: nat)
    requires InFrame(sc.syms, size) && 2 <= sc.next && StmtScope(s, sc).next <= 2 + size && size <= 1000
    ensures InFrame(StmtScope(s, sc).syms, size) && 2 <= StmtScope(s, sc).next
    decreases s
  {
    hide InFrame;
    StmtNext(s, sc);
    match s
    case Decl(items) => ItemsInFrame(items, sc, size);
    case If(_, t) => StmtInFrame(t, sc, size);
    case IfElse(_, t, e) =>
      StmtNext(e, StmtScope(t, sc));
      StmtInFrame(t, sc, size);
      StmtInFrame(e, StmtScope(t, sc), size);
    case While(_, b) => StmtInFrame(b, sc, size);
    case _ =>
  }

  // ----- straight-line statements -----

  lemma {:induction false} JumpTask(x: Task, id: nat, line: nat) returns (t: State)
    requires Set(x) && x.o.code == [Jump(C.L(id))] && LabelOn(x.k.p, line, id)
    ensures Lands(x.k, x.s, line, x.env, 1, t)
  {
    hide Goes, Good, InFrame, InMemory;
    PartLine(x.k.p, x.s.line, x.o.code, 0);
    t := JumpLands(x.k, x.env, x.s, id, line);
  }

  lemma {:induction false} ReturnRuns(es: seq<Expr>, x: Task, fuel: nat) returns (n: nat, t: State)
    requires StmtReady(Return(es), x)
    ensures Done(x, Exec(Return(es), x.sc, x.env, fuel), fuel, n, t)
  {
    hide Goes, Good, InFrame, InMemory, Part, Lands, GenList, EvalList, TidyAll;
    var k, s := x.k, x.s;
    var q := GenList(es, x.labels, x.sc.syms).value;
    var move := if es == [] then [] else [RR(ADD, C.RET, q.0, 0)];
    var jump := [Jump(C.L(x.tg.end))];
    var at := s.line + |q.1.code|;
    PartSplit(k.p, s.line, q.1.code + move, jump);
    PartSplit(k.p, s.line, q.1.code, move);
    PartLine(k.p, at + |move|, jump, 0);
    n, t := ListRuns(k, es, x.labels, x.sc.syms, q, x.env, s);
    var w := EvalList(es, x.sc.syms, x.env);
    if w.Ok? {
      LandsFacts(k, s, at, w.env, n, t);
      if es != [] {
        PartLine(k.p, at, move, 0);
        var u := ReturnMove(k, w.env, t, q.0);
        LandsTrans(k, s, at, w.env, n, t, at + 1, w.env, 1, u);
        n, t := n + 1, u;
        LandsFacts(k, s, at + 1, w.env, n, t);
      }
      var v := JumpLands(k, w.env, t, x.tg.end, x.wh.end);
      LandsTrans(k, s, t.line, w.env, n, t, x.wh.end, w.env, 1, v);
      n, t := n + 1, v;
    }
  }

  /** `ADD R7, r, R0` */
  lemma {:induction false} ReturnMove(k: Frame, env: Env, s: State, r: RegIx) returns (t: State)
    requires Held(k, env, s) && OnLine(k.p, s, RR(ADD, C.RET, r, 0))
    ensures Lands(k, s, s.line + 1, env, 1, t) && t.reg[C.RET] == s.reg[r]
  {
    hide Goes, InMemory, Wrap;
    WrapWord(s.reg[r]);
    DoAlu(k.p, s, ADD, 7, r, 0);
    t := After(s, 7, s.reg[r]);
  }

  lemma {:induction false} DoRuns(e: Expr, x: Task, fuel: nat) returns (n: nat, t: State)
    requires StmtReady(Do(e), x)
    ensures Done(x, Exec(Do(e), x.sc, x.env, fuel), fuel, n, t)
  {
    hide Goes, Good, InFrame, InMemory, Part, Lands, C.Gen, Eval;
    n, t := StatementExpr(x.k, e, x.labels, x.sc.syms, C.Gen(e, 0, x.labels, x.sc.syms).value, x.env, x.s);
  }

  // ----- conditional jumps -----

  /** `JZ r, label` after a condition. */
  lemma {:induction false} TestLands(k: Frame, env: Env, s: State, r: RegIx, id: nat, line: nat) returns (t: State)
    requires Good(k) && Held(k, env, s) && OnLine(k.p, s, JumpZ(r, C.L(id))) && LabelOn(k.p, line, id)
    ensures Lands(k, s, if s.reg[r] == 0 then line else s.line + 1, env, 1, t)
  {
    hide Goes, InMemory, E.CodeSize;
    t := DoJumpIf(k.p, s, r, C.L(id), line);
    if s.reg[r] == 0 { JumpKeeps(k, env, s, line, t); }
  }

  /** A condition and the jump on zero that follows it. */
  lemma {:induction false} GuardRuns(k: Frame, c: Expr, labels: nat, syms: C.Symbols, o: C.Out, env: Env, s: State,
                                     id: nat, line: nat)
    returns (n: nat, t: State)
    requires ExprReady(k, c, labels, syms, o, env, s) && LabelOn(k.p, line, id)
    requires Part(k.p, s.line + |o.code|, [JumpZ(o.r, C.L(id))])
    ensures match Eval(c, syms, env)
            case Ok(v, env') => Lands(k, s, if v == 0 then line else s.line + |o.code| + 1, env', n, t)
            case DivFault => Goes(k.p, s, n, t) && t.mode == Faulted
            case Wrong => false
  {
    hide Goes, Good, InFrame, Held, Part, Lands, C.Gen, Eval;
    PartLine(k.p, s.line + |o.code|, [JumpZ(o.r, C.L(id))], 0);
    n, t := StatementExpr(k, c, labels, syms, o, env, s);
    var w := Eval(c, syms, env);
    if w.Ok? {
      LandsFacts(k, s, s.line + |o.code|, w.env, n, t);
      MatchMode(k, w.env, t);
      var u := TestLands(k, w.env, t, o.r, id, line);
      LandsTrans(k, s, t.line, w.env, n, t, if w.v == 0 then line else t.line + 1, w.env, 1, u);
      n, t := n + 1, u;
    }
  }

  lemma {:induction false} MatchMode(k: Frame, env: Env, s: State)
    requires Held(k, env, s)
    ensures s.mode == Going
  {
  }

  /** An arm that ends normally jumps over what follows, to the label on `end`. */
  lemma {:induction false} ThenJump(k: Frame, s: State, len: nat, o: Flow, tg: Targets, wh: Where, fuel: nat, n: nat,
                                    t: State,
                 id: nat, end: nat, len2: nat)
    returns (m: nat, u: State)
    requires Good(k) && Flows(k, s, len, o, tg, wh, fuel, n, t) && LabelOn(k.p, end, id) && s.line + len2 == end + 1
    requires s.line + len < |k.p.lines| && k.p.lines[s.line + len] == Jump(C.L(id))
    ensures Flows(k, s, len2, o, tg, wh, fuel, m, u)
  {
    hide Goes, Good, Held, Lands;
    m, u := n, t;
    if o.Fall? {
      LandsFacts(k, s, s.line + len, o.env, n, t);
      MatchMode(k, o.env, t);
      var v := JumpLands(k, o.env, t, id, end);
      LandsTrans(k, s, t.line, o.env, n, t, end, o.env, 1, v);
      LandsFacts(k, t, end, o.env, 1, v);
      u := PassLabelLands(k, o.env, v, id);
      LandsTrans(k, s, end, o.env, n + 1, v, end + 1, o.env, 1, u);
      m := n + 2;
    }
  }

  /** An arm that ends normally walks over the label behind it. */
  lemma {:induction false} ThenLabel(k: Frame, s: State, len: nat, o: Flow, tg: Targets, wh: Where, fuel: nat,
                                     n: nat, t: State, id: nat)
    returns (m: nat, u: State)
    requires Flows(k, s, len, o, tg, wh, fuel, n, t) && LabelOn(k.p, s.line + len, id)
    ensures Flows(k, s, len + 1, o, tg, wh, fuel, m, u)
  {
    hide Goes, Held, Lands;
    m, u := n, t;
    if o.Fall? {
      LandsFacts(k, s, s.line + len, o.env, n, t);
      u := PassLabelLands(k, o.env, t, id);
      LandsTrans(k, s, t.line, o.env, n, t, t.line + 1, o.env, 1, u);
      m := n + 1;
    }
  }

  // ----- if -----

  /** The arms of an `if`; a missing `else` is empty code. */
  datatype Branches = Branches(co: C.Out, to: Out, eo: Out, l: nat, at: nat)

  function ElseLabel(b: Branches): nat { b.at + |b.co.code| + 1 + |b.to.code| + 1 }

  function EndLabel(b: Branches): nat { ElseLabel(b) + 1 + |b.eo.code| }

  predicate BranchesOn(p: Program, b: Branches) {
    Part(p, b.at, b.co.code) && Part(p, b.at + |b.co.code|, [JumpZ(b.co.r, C.L(b.l))]) &&
    Part(p, b.at + |b.co.code| + 1, b.to.code) && Part(p, ElseLabel(b) + 1, b.eo.code) &&
    EndLabel(b) < |p.lines| && p.lines[ElseLabel(b) - 1] == Jump(C.L(b.l + 1)) &&
    LabelOn(p, ElseLabel(b), b.l) && LabelOn(p, EndLabel(b), b.l + 1)
  }

  lemma {:induction false} LayBranches(p: Program, b: Branches)
    requires Part(p, b.at, GenIf(b.l, b.co, b.to, b.eo).code)
    ensures BranchesOn(p, b) && |GenIf(b.l, b.co, b.to, b.eo).code| == EndLabel(b) + 1 - b.at
  {
    hide Part;
    var jz, mid, last := [JumpZ(b.co.r, C.L(b.l))], [Jump(C.L(b.l + 1)), LabelDef(C.L(b.l))], [LabelDef(C.L(b.l + 1))];
    PartSplit(p, b.at, b.co.code + jz + b.to.code + mid + b.eo.code, last);
    PartSplit(p, b.at, b.co.code + jz + b.to.code + mid, b.eo.code);
    PartSplit(p, b.at, b.co.code + jz + b.to.code, mid);
    PartSplit(p, b.at, b.co.code + jz, b.to.code);
    PartSplit(p, b.at, b.co.code, jz);
    PartLine(p, ElseLabel(b) - 1, mid, 0);
    PartLine(p, ElseLabel(b) - 1, mid, 1);
    PartLine(p, EndLabel(b), last, 0);
  }

  /** The shape shared by `if` with and without `else`. */
  predicate IfReady(c: Expr, t: Stmt, b: Branches, x: Task) {
    Set(x) && Tidy(c) && TidyStmt(t) && C.Gen(c, 0, x.labels + 2, x.sc.syms) == Some(b.co) &&
    GenStmt(t, x.sc, b.co.labels, x.tg) == Some(b.to) && StmtScope(t, x.sc).next <= 2 + x.k.size &&
    b.at == x.s.line && b.l == x.labels && x.o.code == GenIf(b.l, b.co, b.to, b.eo).code
  }

  /** The condition is evaluated and the right arm entered. */
  lemma {:induction false} EnterArm(c: Expr, t: Stmt, b: Branches, x: Task) returns (n: nat, u: State)
    requires IfReady(c, t, b, x)
    ensures BranchesOn(x.k.p, b) && |x.o.code| == EndLabel(b) + 1 - x.s.line
    ensures match Eval(c, x.sc.syms, x.env)
            case Ok(v, env) => Lands(x.k, x.s, if v == 0 then ElseLabel(b) else b.at + |b.co.code| + 1, env, n, u)
            case DivFault => Goes(x.k.p, x.s, n, u) && u.mode == Faulted
            case Wrong => false
  {
    hide Goes, Good, InFrame, Held, Part, Lands, C.Gen, Eval, GenStmt, TidyStmt;
    LayBranches(x.k.p, b);
    n, u := GuardRuns(x.k, c, x.labels + 2, x.sc.syms, b.co, x.env, x.s, b.l, ElseLabel(b));
  }

  lemma {:induction false} ThenRuns(c: Expr, t: Stmt, b: Branches, x: Task, fuel: nat, env: Env, n: nat, u: State)
    returns (m: nat, v: State)
    requires IfReady(c, t, b, x) && BranchesOn(x.k.p, b) && |x.o.code| == EndLabel(b) + 1 - x.s.line
    requires Lands(x.k, x.s, b.at + |b.co.code| + 1, env, n, u)
    ensures Done(x, Exec(t, x.sc, env, fuel), fuel, m, v)
    decreases fuel, t, 4
  {
    hide Goes, Good, InFrame, Held, Part, Lands, C.Gen, Exec, GenStmt, TidyStmt, Flows;
    LandsFacts(x.k, x.s, b.at + |b.co.code| + 1, env, n, u);
    var y := Task(x.k, x.sc, b.co.labels, x.tg, x.wh, env, u, b.to);
    var i, w := StmtRuns(t, y, fuel);
    var o := Exec(t, x.sc, env, fuel);
    var len := EndLabel(b) + 1 - u.line;
    i, w := ThenJump(x.k, u, |b.to.code|, o, x.tg, x.wh, fuel, i, w, b.l + 1, EndLabel(b), len);
    FlowAfter(x.k, x.s, u.line, env, n, u, len, o, x.tg, x.wh, fuel, i, w, |x.o.code|);
    m, v := n + i, w;
  }

  lemma {:induction false} IfRuns(c: Expr, t: Stmt, x: Task, fuel: nat) returns (n: nat, u: State)
    requires StmtReady(If(c, t), x)
    ensures Done(x, Exec(If(c, t), x.sc, x.env, fuel), fuel, n, u)
    decreases fuel, If(c, t), 1
  {
    hide Goes, Good, InFrame, Held, Part, Lands, C.Gen, Eval, BranchesOn, TargetsOn, Tidy;
    var co := C.Gen(c, 0, x.labels + 2, x.sc.syms).value;
    var to := GenStmt(t, x.sc, co.labels, x.tg).value;
    var b := Branches(co, to, Out(to.labels, []), x.labels, x.s.line);
    n, u := EnterArm(c, t, b, x);
    var w := Eval(c, x.sc.syms, x.env);
    if w.Ok? {
      if w.v != 0 { n, u := ThenRuns(c, t, b, x, fuel, w.env, n, u); }
      else { n, u := SkipElse(x, b, w.env, n, u, fuel); }
    }
  }

  lemma {:induction false} SkipElse(x: Task, b: Branches, env: Env, n: nat, u: State, fuel: nat)
    returns (m: nat, v: State)
    requires BranchesOn(x.k.p, b) && |x.o.code| == EndLabel(b) + 1 - x.s.line && b.eo.code == []
    requires Lands(x.k, x.s, ElseLabel(b), env, n, u)
    ensures Done(x, Fall(env), fuel, m, v)
  {
    hide Goes, Held, Part, Lands;
    LandsFacts(x.k, x.s, ElseLabel(b), env, n, u);
    var u1 := PassLabelLands(x.k, env, u, b.l);
    LandsTrans(x.k, x.s, ElseLabel(b), env, n, u, EndLabel(b), env, 1, u1);
    LandsFacts(x.k, u, EndLabel(b), env, 1, u1);
    v := PassLabelLands(x.k, env, u1, b.l + 1);
    LandsTrans(x.k, x.s, EndLabel(b), env, n + 1, u1, EndLabel(b) + 1, env, 1, v);
    m := n + 2;
  }

  lemma {:induction false} IfElseRuns(c: Expr, t: Stmt, e: Stmt, x: Task, fuel: nat) returns (n: nat, u: State)
    requires StmtReady(IfElse(c, t, e), x)
    ensures Done(x, Exec(IfElse(c, t, e), x.sc, x.env, fuel), fuel, n, u)
    decreases fuel, IfElse(c, t, e), 1
  {
    hide Goes, Good, InFrame, Held, Part, Lands, C.Gen, Eval, BranchesOn, TargetsOn, Tidy;
    var co := C.Gen(c, 0, x.labels + 2, x.sc.syms).value;
    var to := GenStmt(t, x.sc, co.labels, x.tg).value;
    var sc1 := StmtScope(t, x.sc);
    var eo := GenStmt(e, sc1, to.labels, x.tg).value;
    var b := Branches(co, to, eo, x.labels, x.s.line);
    StmtNext(e, sc1);
    n, u := EnterArm(c, t, b, x);
    var w := Eval(c, x.sc.syms, x.env);
    if w.Ok? {
      if w.v != 0 { n, u := ThenRuns(c, t, b, x, fuel, w.env, n, u); }
      else { n, u := ElseRuns(t, e, x, b, w.env, n, u, fuel); }
    }
  }

  lemma {:induction false} ElseRuns(t: Stmt, e: Stmt, x: Task, b: Branches, env: Env, n: nat, u: State, fuel: nat)
    returns (m: nat, v: State)
    requires Set(x) && BranchesOn(x.k.p, b) && |x.o.code| == EndLabel(b) + 1 - x.s.line && TidyStmt(e)
    requires GenStmt(e, StmtScope(t, x.sc), b.to.labels, x.tg) == Some(b.eo)
    requires StmtScope(t, x.sc).next <= 2 + x.k.size && StmtScope(e, StmtScope(t, x.sc)).next <= 2 + x.k.size
    requires Lands(x.k, x.s, ElseLabel(b), env, n, u)
    ensures Done(x, Exec(e, StmtScope(t, x.sc), env, fuel), fuel, m, v)
    decreases fuel, e, 4
  {
    hide Goes, InFrame, InMemory, Part, Lands, GenStmt, TidyStmt, Flows, Exec, TargetsOn, StmtScope, DistinctLabels,
         E.CodeSize;
    var sc1 := StmtScope(t, x.sc);
    StmtInFrame(t, x.sc, x.k.size);
    LandsFacts(x.k, x.s, ElseLabel(b), env, n, u);
    var u1 := PassLabelLands(x.k, env, u, b.l);
    LandsTrans(x.k, x.s, ElseLabel(b), env, n, u, ElseLabel(b) + 1, env, 1, u1);
    LandsFacts(x.k, u, ElseLabel(b) + 1, env, 1, u1);
    var i, w := StmtRuns(e, Task(x.k, sc1, b.to.labels, x.tg, x.wh, env, u1, b.eo), fuel);
    var o := Exec(e, sc1, env, fuel);
    i, w := ThenLabel(x.k, u1, |b.eo.code|, o, x.tg, x.wh, fuel, i, w, b.l + 1);
    FlowAfter(x.k, x.s, ElseLabel(b) + 1, env, n + 1, u1, |b.eo.code| + 1, o, x.tg, x.wh, fuel, i, w, |x.o.code|);
    m, v := n + 1 + i, w;
  }

  // ----- all statements -----

  lemma {:induction false} StmtRuns(s: Stmt, x: Task, fuel: nat) returns (n: nat, t: State)
    requires StmtReady(s, x)
    ensures Done(x, Exec(s, x.sc, x.env, fuel), fuel, n, t)
    decreases fuel, s, 3
  {
    hide Goes, Good, InFrame, Held, Part, Lands, TargetsOn;
    match s
    case Skip => StayLands(x.k, x.env, x.s); n, t := 0, x.s;
    case Block(b) => n, t := BodyRuns(b, x, fuel);
    case Decl(items) =>
      n, t := ItemsRuns(x.k, items, x.sc, x.labels, x.o, x.env, x.s, x.tg, x.wh, fuel);
    case Return(es) => n, t := ReturnRuns(es, x, fuel);
    case If(c, a) => n, t := IfRuns(c, a, x, fuel);
    case IfElse(c, a, b) => n, t := IfElseRuns(c, a, b, x, fuel);
    case While(c, b) => n, t := WhileRuns(c, b, x, fuel);
    case For(_, _, _, _) => n, t := ForRuns(s, x, fuel);
    case Break => n := 1; t := JumpOut(x, x.tg.brk.value, x.wh.brk);
    case Continue => n := 1; t := JumpOut(x, x.tg.cont.value, x.wh.cont);
    case Do(e) => n, t := DoRuns(e, x, fuel);
  }

  lemma {:induction false} JumpOut(x: Task, id: nat, line: nat) returns (t: State)
    requires Set(x) && x.o.code == [Jump(C.L(id))]
    requires (x.tg.brk == Some(id) && line == x.wh.brk) || (x.tg.cont == Some(id) && line == x.wh.cont)
    ensures Lands(x.k, x.s, line, x.env, 1, t)
  {
    hide Goes, Good, InFrame, Held, Part, Lands;
    t := JumpTask(x, id, line);
  }

  lemma {:induction false} BodyRuns(b: seq<Stmt>, x: Task, fuel: nat) returns (n: nat, t: State)
    requires BodyReady(b, x)
    ensures Done(x, ExecBody(b, x.sc, x.env, fuel), fuel, n, t)
    decreases fuel, b, 2
  {
    hide Goes, InFrame, Held, Part, Lands, TargetsOn, DistinctLabels, E.CodeSize, StmtScope, Exec, GenStmt, TidyStmt;
    if b == [] {
      StayLands(x.k, x.env, x.s);
      n, t := 0, x.s;
    } else {
      var o := GenStmt(b[0], x.sc, x.labels, x.tg).value;
      var sc1 := StmtScope(b[0], x.sc);
      var r := GenBody(b[1..], sc1, o.labels, x.tg).value;
      BodyNext(b[1..], sc1);
      PartSplit(x.k.p, x.s.line, o.code, r.code);
      n, t := StmtRuns(b[0], x.(o := o), fuel);
      var w := Exec(b[0], x.sc, x.env, fuel);
      if w.Fall? {
        LandsFacts(x.k, x.s, x.s.line + |o.code|, w.env, n, t);
        StmtInFrame(b[0], x.sc, x.k.size);
        var m, u := BodyRuns(b[1..], Task(x.k, sc1, o.labels, x.tg, x.wh, w.env, t, r), fuel);
        FlowAfter(x.k, x.s, t.line, w.env, n, t, |r.code|, ExecBody(b[1..], sc1, w.env, fuel), x.tg, x.wh, fuel, m, u,
                  |x.o.code|);
        n, t := n + m, u;
      }
    }
  }

  // ----- while -----

  datatype Ring = Ring(co: C.Out, bo: Out, l: nat, at: nat)

  /** The line behind the loop, which carries its end label. */
  function RingEnd(r: Ring): nat { r.at + 1 + |r.co.code| + 1 + |r.bo.code| + 1 }

  predicate RingOn(p: Program, r: Ring) {
    LabelOn(p, r.at, r.l) && Part(p, r.at + 1, r.co.code) &&
    Part(p, r.at + 1 + |r.co.code|, [JumpZ(r.co.r, C.L(r.l + 1))]) &&
    Part(p, r.at + 1 + |r.co.code| + 1, r.bo.code) && LabelOn(p, RingEnd(r), r.l + 1) &&
    p.lines[RingEnd(r) - 1] == Jump(C.L(r.l))
  }

  lemma RingLine(p: Program, r: Ring)
    requires RingOn(p, r)
    ensures r.at < |p.lines|
  {
  }

  lemma {:induction false} LayRing(p: Program, r: Ring)
    requires Part(p, r.at, GenWhile(r.l, r.co, r.bo).code)
    ensures RingOn(p, r) && |GenWhile(r.l, r.co, r.bo).code| == RingEnd(r) + 1 - r.at
  {
    hide Part;
    var top, jz, last := [LabelDef(C.L(r.l))], [JumpZ(r.co.r, C.L(r.l + 1))], [Jump(C.L(r.l)), LabelDef(C.L(r.l + 1))];
    PartSplit(p, r.at, top + r.co.code + jz + r.bo.code, last);
    PartSplit(p, r.at, top + r.co.code + jz, r.bo.code);
    PartSplit(p, r.at, top + r.co.code, jz);
    PartSplit(p, r.at, top, r.co.code);
    PartLine(p, r.at, top, 0);
    PartLine(p, RingEnd(r) - 1, last, 0);
    PartLine(p, RingEnd(r) - 1, last, 1);
  }

  lemma {:induction false} WhileRuns(c: Expr, b: Stmt, x: Task, fuel: nat) returns (n: nat, t: State)
    requires StmtReady(While(c, b), x)
    ensures Done(x, Exec(While(c, b), x.sc, x.env, fuel), fuel, n, t)
    decreases fuel, While(c, b), 1
  {
    hide Goes, Good, InFrame, Held, Part, Lands, C.Gen, Eval, RingOn, TargetsOn, Tidy, Exec;
    var co := C.Gen(c, 0, x.labels + 2, x.sc.syms).value;
    var bo := GenStmt(b, x.sc, co.labels, Targets(Some(x.labels + 1), Some(x.labels), x.tg.end)).value;
    var r := Ring(co, bo, x.labels, x.s.line);
    LayRing(x.k.p, r);
    n, t := LoopRuns(c, b, x, r, fuel);
  }

  predicate RingReady(c: Expr, b: Stmt, x: Task, r: Ring) {
    Set(x) && Tidy(c) && TidyStmt(b) && RingOn(x.k.p, r) && r.l == x.labels &&
    C.Gen(c, 0, x.labels + 2, x.sc.syms) == Some(r.co) &&
    GenStmt(b, x.sc, r.co.labels, Targets(Some(r.l + 1), Some(r.l), x.tg.end)) == Some(r.bo) &&
    StmtScope(b, x.sc).next <= 2 + x.k.size && x.s.line == r.at && |x.o.code| == RingEnd(r) + 1 - r.at
  }

  /** From the loop's label on: one round, and then the rest. */
  lemma {:induction false} LoopRuns(c: Expr, b: Stmt, x: Task, r: Ring, fuel: nat) returns (n: nat, t: State)
    requires RingReady(c, b, x, r)
    ensures Done(x, Exec(While(c, b), x.sc, x.env, fuel), fuel, n, t)
    decreases fuel, While(c, b), 0
  {
    hide Goes, Good, InFrame, Held, Part, Lands, C.Gen, Eval, RingOn, TargetsOn, Tidy, GenStmt, TidyStmt, StmtScope;
    n, t := EnterRound(c, b, x, r);
    var w := Eval(c, x.sc.syms, x.env);
    if w.Ok? {
      if w.v == 0 {
        n, t := LeaveRing(x, r, w.env, n, t, fuel);
      } else {
        var m, u := RoundBody(c, b, x, r, fuel, w.env, n, t);
        var o := Exec(b, x.sc, w.env, fuel);
        n, t := m, u;
        if o.Fall? || o.Continued? {
          if fuel > 0 {
            var y := x.(env := o.env, s := u);
            AgainReady(c, b, x, r, o.env, m, u);
            var i, v := LoopRuns(c, b, y, r, fuel - 1);
            var rest := Exec(While(c, b), x.sc, o.env, fuel - 1);
            MoreRounds(x, o.env, m, u, rest, fuel, i, v);
            n, t := m + i, v;
          } else {
            LandsGoing(x.k, x.s, r.at, o.env, m, u);
            RingLine(x.k.p, r);
          }
        } else if o.Broke? {
          n, t := LeaveRing(x, r, o.env, m, u, fuel);
        }
      }
    }
  }

  lemma {:induction false} LandsGoing(k: Frame, s: State, line: nat, env: Env, n: nat, t: State)
    requires Lands(k, s, line, env, n, t)
    ensures Goes(k.p, s, n, t) && t.mode == Going && t.line == line
  {
    hide Goes;
  }

  lemma {:induction false} EnterRound(c: Expr, b: Stmt, x: Task, r: Ring) returns (n: nat, t: State)
    requires RingReady(c, b, x, r)
    ensures match Eval(c, x.sc.syms, x.env)
            case Ok(v, env) =>
              n >= 1 && Lands(x.k, x.s, if v == 0 then RingEnd(r) else r.at + 1 + |r.co.code| + 1, env, n, t)
            case DivFault => Goes(x.k.p, x.s, n, t) && t.mode == Faulted
            case Wrong => false
  {
    hide Goes, Good, InFrame, Held, Part, Lands, C.Gen, Eval, GenStmt, TidyStmt, Tidy, TargetsOn;
    var u := PassLabelLands(x.k, x.env, x.s, r.l);
    LandsFacts(x.k, x.s, r.at + 1, x.env, 1, u);
    var m, v := GuardRuns(x.k, c, x.labels + 2, x.sc.syms, r.co, x.env, u, r.l + 1, RingEnd(r));
    var w := Eval(c, x.sc.syms, x.env);
    if w.Ok? {
      var line := if w.v == 0 then RingEnd(r) else r.at + 1 + |r.co.code| + 1;
      LandsTrans(x.k, x.s, r.at + 1, x.env, 1, u, line, w.env, m, v);
    } else {
      GoesTrans(x.k.p, x.s, 1, u, m, v);
    }
    n, t := 1 + m, v;
  }

  /** How a round's body ends: back at the loop's label, at the end label, or out of the loop. */
  ghost predicate RoundDone(x: Task, again: nat, end: nat, o: Flow, fuel: nat, m: nat, u: State) {
    m >= 1 &&
    match o
    case Fall(e) => Lands(x.k, x.s, again, e, m, u)
    case Continued(e) => Lands(x.k, x.s, again, e, m, u)
    case Broke(e) => Lands(x.k, x.s, end, e, m, u)
    case _ => Flows(x.k, x.s, |x.o.code|, o, x.tg, x.wh, fuel, m, u)
  }

  lemma {:induction false} RoundBody(c: Expr, b: Stmt, x: Task, r: Ring, fuel: nat, env: Env, n: nat, t: State)
    returns (m: nat, u: State)
    requires RingReady(c, b, x, r) && n >= 1 && Lands(x.k, x.s, r.at + 1 + |r.co.code| + 1, env, n, t)
    ensures RoundDone(x, r.at, RingEnd(r), Exec(b, x.sc, env, fuel), fuel, m, u)
    decreases fuel, b, 5
  {
    hide Goes, InFrame, Held, Part, Lands, C.Gen, Exec, GenStmt, TidyStmt, Tidy, DistinctLabels, E.CodeSize;
    var tg1, wh1 := Targets(Some(r.l + 1), Some(r.l), x.tg.end), Where(RingEnd(r), r.at, x.wh.end);
    LandsFacts(x.k, x.s, r.at + 1 + |r.co.code| + 1, env, n, t);
    var y := Task(x.k, x.sc, r.co.labels, tg1, wh1, env, t, r.bo);
    var i, v := StmtRuns(b, y, fuel);
    var o := Exec(b, x.sc, env, fuel);
    m, u := InsideOut(x, y, env, n, t, o, fuel, i, v);
    if o.Fall? {
      LandsFacts(x.k, x.s, RingEnd(r) - 1, o.env, m, u);
      MatchMode(x.k, o.env, u);
      var w := JumpLands(x.k, o.env, u, r.l, r.at);
      LandsTrans(x.k, x.s, RingEnd(r) - 1, o.env, m, u, r.at, o.env, 1, w);
      m, u := m + 1, w;
    }
  }

  /** An outcome of a loop's body, seen from the loop. */
  lemma {:induction false} InsideOut(x: Task, y: Task, env: Env, n: nat, t: State, o: Flow, fuel: nat, i: nat, v: State)
    returns (m: nat, u: State)
    requires Lands(x.k, x.s, t.line, env, n, t) && n >= 1 && y.k == x.k && y.s == t && Done(y, o, fuel, i, v)
    requires y.tg.end == x.tg.end && y.wh.end == x.wh.end
    ensures m >= 1 &&
            match o
            case Fall(e) => Lands(x.k, x.s, t.line + |y.o.code|, e, m, u)
            case Broke(e) => Lands(x.k, x.s, y.wh.brk, e, m, u)
            case Continued(e) => Lands(x.k, x.s, y.wh.cont, e, m, u)
            case _ => Flows(x.k, x.s, |x.o.code|, o, x.tg, x.wh, fuel, m, u)
  {
    hide Goes, Held;
    GoesTrans(x.k.p, x.s, n, t, i, v);
    m, u := n + i, v;
  }

  lemma {:induction false} LeaveRing(x: Task, r: Ring, env: Env, n: nat, t: State, fuel: nat) returns (m: nat, u: State)
    requires RingOn(x.k.p, r) && x.s.line == r.at && |x.o.code| == RingEnd(r) + 1 - r.at
    requires Lands(x.k, x.s, RingEnd(r), env, n, t)
    ensures Done(x, Fall(env), fuel, m, u)
  {
    hide Goes, Held, Part, Lands;
    LandsFacts(x.k, x.s, RingEnd(r), env, n, t);
    u := PassLabelLands(x.k, env, t, r.l + 1);
    LandsTrans(x.k, x.s, RingEnd(r), env, n, t, RingEnd(r) + 1, env, 1, u);
    m := n + 1;
  }

  lemma {:induction false} AgainReady(c: Expr, b: Stmt, x: Task, r: Ring, env: Env, m: nat, u: State)
    requires RingReady(c, b, x, r) && Lands(x.k, x.s, r.at, env, m, u)
    ensures RingReady(c, b, x.(env := env, s := u), r)
  {
    hide Goes, InFrame, Held, C.Gen, GenStmt, TidyStmt, Tidy, DistinctLabels, E.CodeSize, StmtScope;
  }

  /** The outcome of the remaining rounds is the outcome of the loop; every round takes a step. */
  lemma {:induction false} MoreRounds(x: Task, env: Env, m: nat, u: State, rest: Flow, fuel: nat, i: nat, v: State)
    requires m >= 1 && fuel >= 1 && Lands(x.k, x.s, u.line, env, m, u) && u.line == x.s.line
    requires Flows(x.k, u, |x.o.code|, rest, x.tg, x.wh, fuel - 1, i, v)
    ensures Flows(x.k, x.s, |x.o.code|, rest, x.tg, x.wh, fuel, m + i, v)
  {
    hide Goes, Held;
    GoesTrans(x.k.p, x.s, m, u, i, v);
  }

  // ----- for -----

  datatype Wheel = Wheel(io: Out, co: Out, so: Out, bo: Out, l: nat, at: nat)

  function TestLine(w: Wheel): nat { w.at + |w.io.code| }
  function StepLine(w: Wheel): nat { TestLine(w) + 1 + |w.co.code| + 1 }
  function LoopLine(w: Wheel): nat { StepLine(w) + 1 + |w.so.code| + 1 }
  function DoneLine(w: Wheel): nat { LoopLine(w) + 1 + |w.bo.code| + 1 }

  predicate WheelOn(p: Program, w: Wheel) {
    Part(p, w.at, w.io.code) && LabelOn(p, TestLine(w), w.l) && Part(p, TestLine(w) + 1, w.co.code) &&
    LabelOn(p, StepLine(w), w.l + 2) && p.lines[StepLine(w) - 1] == Jump(C.L(w.l + 1)) &&
    Part(p, StepLine(w) + 1, w.so.code) && LabelOn(p, LoopLine(w), w.l + 1) &&
    p.lines[LoopLine(w) - 1] == Jump(C.L(w.l)) && Part(p, LoopLine(w) + 1, w.bo.code) &&
    LabelOn(p, DoneLine(w), w.l + 3) && p.lines[DoneLine(w) - 1] == Jump(C.L(w.l + 2))
  }

  lemma WheelLine(p: Program, w: Wheel)
    requires WheelOn(p, w)
    ensures TestLine(w) < |p.lines|
  {
  }

  lemma {:induction false} LayWheel(p: Program, w: Wheel)
    requires Part(p, w.at, GenFor(w.l, w.io, w.co, w.so, w.bo).code)
    ensures WheelOn(p, w) && |GenFor(w.l, w.io, w.co, w.so, w.bo).code| == DoneLine(w) + 1 - w.at
  {
    hide Part;
    var j1, j2, j3 := [Jump(C.L(w.l + 1)), LabelDef(C.L(w.l + 2))], [Jump(C.L(w.l)), LabelDef(C.L(w.l + 1))],
                      [Jump(C.L(w.l + 2)), LabelDef(C.L(w.l + 3))];
    var top := [LabelDef(C.L(w.l))];
    var c3 := w.io.code + top + w.co.code;
    PartSplit(p, w.at, c3 + j1 + w.so.code + j2 + w.bo.code, j3);
    PartSplit(p, w.at, c3 + j1 + w.so.code + j2, w.bo.code);
    PartSplit(p, w.at, c3 + j1 + w.so.code, j2);
    PartSplit(p, w.at, c3 + j1, w.so.code);
    PartSplit(p, w.at, c3, j1);
    PartSplit(p, w.at, w.io.code + top, w.co.code);
    PartSplit(p, w.at, w.io.code, top);
    PartLine(p, TestLine(w), top, 0);
    PartLine(p, StepLine(w) - 1, j1, 0);
    PartLine(p, StepLine(w) - 1, j1, 1);
    PartLine(p, LoopLine(w) - 1, j2, 0);
    PartLine(p, LoopLine(w) - 1, j2, 1);
    PartLine(p, DoneLine(w) - 1, j3, 0);
    PartLine(p, DoneLine(w) - 1, j3, 1);
  }

  /** A `for` statement whose initialization is done: `x.sc` is the scope inside the header. */
  predicate WheelReady(f: Stmt, x: Task, w: Wheel) {
    f.For? && Set(x) && (f.test.Some? ==> Tidy(f.test.value)) && TidyAll(f.step) && TidyStmt(f.loop) &&
    WheelOn(x.k.p, w) && GenTest(f.test, w.l + 3, w.io.labels, x.sc.syms) == Some(w.co) &&
    GenList(f.step, w.co.labels, x.sc.syms).Some? && GenList(f.step, w.co.labels, x.sc.syms).value.1 == w.so &&
    GenStmt(f.loop, x.sc, w.so.labels, Targets(Some(w.l + 3), Some(w.l + 2), x.tg.end)) == Some(w.bo) &&
    StmtScope(f.loop, x.sc).next <= 2 + x.k.size && x.s.line == TestLine(w) &&
    |x.o.code| == DoneLine(w) + 1 - TestLine(w)
  }

  lemma {:induction false} ForRuns(f: Stmt, x: Task, fuel: nat) returns (n: nat, t: State)
    requires f.For? && StmtReady(f, x)
    ensures Done(x, Exec(f, x.sc, x.env, fuel), fuel, n, t)
    decreases fuel, f, 2
  {
    hide Goes, InFrame, Held, Part, Lands, WheelOn, TargetsOn, Tidy, ExecFor, GenTest, GenInit, ExecInit,
         TidyAll, TidyInit, DistinctLabels, E.CodeSize, InitScope;
    var sc1 := InitScope(f.init, x.sc);
    var io := GenInit(f.init, x.sc, x.labels + 4).value;
    var co := GenTest(f.test, x.labels + 3, io.labels, sc1.syms).value;
    var so := GenList(f.step, co.labels, sc1.syms).value.1;
    var bo := GenStmt(f.loop, sc1, so.labels, Targets(Some(x.labels + 3), Some(x.labels + 2), x.tg.end)).value;
    var w := Wheel(io, co, so, bo, x.labels, x.s.line);
    LayWheel(x.k.p, w);
    WheelParts(x.k.p, w);
    StmtNext(f.loop, sc1);
    n, t := InitRuns(f.init, x, io, fuel);
    var o := ExecInit(f.init, x.sc, x.env);
    if o.Fall? {
      LandsFacts(x.k, x.s, TestLine(w), o.env, n, t);
      InitInFrame(f.init, x.sc, x.k.size);
      var y := x.(sc := sc1, env := o.env, s := t, o := x.o.(code := x.o.code[|io.code|..]));
      PartTail(x.k.p, x.s.line, x.o.code, |io.code|);
      var m, u := TurnRuns(f, y, w, fuel);
      FlowAfter(x.k, x.s, t.line, o.env, n, t, |y.o.code|, ExecFor(f, sc1, o.env, fuel), x.tg, x.wh, fuel, m, u,
                |x.o.code|);
      n, t := n + m, u;
    }
  }

  lemma {:induction false} PartTail(p: Program, at: nat, code: seq<Line>, k: nat)
    requires Part(p, at, code) && k <= |code|
    ensures Part(p, at + k, code[k..])
  {
    hide CodeAt;
    assert code == code[..k] + code[k..];
    PartSplit(p, at, code[..k], code[k..]);
  }

  lemma {:induction false} WheelParts(p: Program, w: Wheel)
    requires WheelOn(p, w)
    ensures Part(p, w.at, w.io.code)
  {
    hide Part;
  }

  lemma {:induction false} InitInFrame(i: Init, sc: Scope, size: nat)
    requires InFrame(sc.syms, size) && 2 <= sc.next && InitScope(i, sc).next <= 2 + size && size <= 1000
    ensures InFrame(InitScope(i, sc).syms, size) && 2 <= InitScope(i, sc).next
  {
    hide InFrame;
    if i.Decls? { ItemsNext(i.items, sc); ItemsInFrame(i.items, sc, size); }
  }

  lemma {:induction false} InitRuns(i: Init, x: Task, io: Out, fuel: nat) returns (n: nat, t: State)
    requires Good(x.k) && Held(x.k, x.env, x.s) && InFrame(x.sc.syms, x.k.size) && 2 <= x.sc.next && TidyInit(i)
    requires GenInit(i, x.sc, x.labels + 4) == Some(io) && InitScope(i, x.sc).next <= 2 + x.k.size
    requires Part(x.k.p, x.s.line, io.code)
    ensures Flows(x.k, x.s, |io.code|, ExecInit(i, x.sc, x.env), x.tg, x.wh, fuel, n, t)
    ensures var o := ExecInit(i, x.sc, x.env); o.Fall? || o.Undefined?
  {
    hide Goes, Good, InFrame, Held, Part, Lands, TidyItems, TidyAll;
    match i
    case Decls(items) =>
      n, t := ItemsRuns(x.k, items, x.sc, x.labels + 4, io, x.env, x.s, x.tg, x.wh, fuel);
      ItemsFlow(items, x.sc, x.env);
    case Exprs(es) =>
      var q := GenList(es, x.labels + 4, x.sc.syms).value;
      n, t := ListRuns(x.k, es, x.labels + 4, x.sc.syms, q, x.env, x.s);
  }

  lemma {:induction false} ItemsFlow(items: seq<Item>, sc: Scope, env: Env)
    ensures var o := ExecItems(items, sc, env); o.Fall? || o.Undefined? || o.Bad?
    decreases |items|
  {
    hide Eval;
    if items != [] {
      var o := ExecItem(items[0], sc, env);
      if o.Fall? { ItemsFlow(items[1..], Declare(sc, items[0].x), o.env); }
    }
  }

  /** The condition of a `for`: on to the body, or out. */
  lemma {:induction false} TestRuns(f: Stmt, x: Task, w: Wheel) returns (n: nat, t: State)
    requires WheelReady(f, x, w)
    ensures match EvalTest(f.test, x.sc.syms, x.env)
            case Ok(v, env) => n >= 1 && Lands(x.k, x.s, if v == 0 then DoneLine(w) else StepLine(w) - 1, env, n, t)
            case DivFault => Goes(x.k.p, x.s, n, t) && t.mode == Faulted
            case Wrong => false
  {
    hide Goes, Good, InFrame, Held, Part, Lands, C.Gen, Eval, GenStmt, GenList, TidyStmt, Tidy, TidyAll, TargetsOn;
    var u := PassLabelLands(x.k, x.env, x.s, w.l);
    n, t := 1, u;
    if f.test.Some? {
      LandsFacts(x.k, x.s, TestLine(w) + 1, x.env, 1, u);
      var o := C.Gen(f.test.value, 0, w.io.labels, x.sc.syms).value;
      PartSplit(x.k.p, u.line, o.code, [JumpZ(o.r, C.L(w.l + 3))]);
      var m, v := GuardRuns(x.k, f.test.value, w.io.labels, x.sc.syms, o, x.env, u, w.l + 3, DoneLine(w));
      var e := Eval(f.test.value, x.sc.syms, x.env);
      if e.Ok? {
        var line := if e.v == 0 then DoneLine(w) else StepLine(w) - 1;
        LandsTrans(x.k, x.s, TestLine(w) + 1, x.env, 1, u, line, e.env, m, v);
      } else {
        GoesTrans(x.k.p, x.s, 1, u, m, v);
      }
      n, t := 1 + m, v;
    }
  }

  /** From the body's jump in front of the increment to the body, and through it. */
  lemma {:induction false} TurnBody(f: Stmt, x: Task, w: Wheel, fuel: nat, env: Env, n: nat, t: State)
    returns (m: nat, u: State)
    requires WheelReady(f, x, w) && n >= 1 && Lands(x.k, x.s, StepLine(w) - 1, env, n, t)
    ensures RoundDone(x, StepLine(w), DoneLine(w), Exec(f.loop, x.sc, env, fuel), fuel, m, u)
    decreases fuel, f.loop, 5
  {
    hide Goes, InFrame, Held, Part, Lands, C.Gen, Exec, GenStmt, GenList, GenTest, TidyStmt, TidyAll, Tidy,
         DistinctLabels, E.CodeSize;
    LandsFacts(x.k, x.s, StepLine(w) - 1, env, n, t);
    MatchMode(x.k, env, t);
    var t1 := JumpLands(x.k, env, t, w.l + 1, LoopLine(w));
    LandsFacts(x.k, t, LoopLine(w), env, 1, t1);
    var t2 := PassLabelLands(x.k, env, t1, w.l + 1);
    LandsTrans(x.k, x.s, StepLine(w) - 1, env, n, t, LoopLine(w), env, 1, t1);
    LandsTrans(x.k, x.s, LoopLine(w), env, n + 1, t1, LoopLine(w) + 1, env, 1, t2);
    LandsFacts(x.k, t1, LoopLine(w) + 1, env, 1, t2);
    var tg1 := Targets(Some(w.l + 3), Some(w.l + 2), x.tg.end);
    var y := Task(x.k, x.sc, w.so.labels, tg1, Where(DoneLine(w), StepLine(w), x.wh.end), env, t2, w.bo);
    var i, v := StmtRuns(f.loop, y, fuel);
    var o := Exec(f.loop, x.sc, env, fuel);
    m, u := InsideOut(x, y, env, n + 2, t2, o, fuel, i, v);
    if o.Fall? {
      LandsFacts(x.k, x.s, DoneLine(w) - 1, o.env, m, u);
      MatchMode(x.k, o.env, u);
      var z := JumpLands(x.k, o.env, u, w.l + 2, StepLine(w));
      LandsTrans(x.k, x.s, DoneLine(w) - 1, o.env, m, u, StepLine(w), o.env, 1, z);
      m, u := m + 1, z;
    }
  }

  /** The increment, and back to the condition. */
  lemma {:induction false} StepRuns(f: Stmt, x: Task, w: Wheel, env: Env, n: nat, t: State) returns (m: nat, u: State)
    requires WheelReady(f, x, w) && n >= 1 && Lands(x.k, x.s, StepLine(w), env, n, t)
    ensures match EvalList(f.step, x.sc.syms, env)
            case Ok(_, env') => m >= 1 && Lands(x.k, x.s, TestLine(w), env', m, u)
            case DivFault => Goes(x.k.p, x.s, m, u) && u.mode == Faulted
            case Wrong => false
  {
    hide Goes, Good, InFrame, Held, Part, Lands, C.Gen, GenStmt, GenList, GenTest, TidyStmt, TidyAll, Tidy, TargetsOn,
         EvalList;
    LandsFacts(x.k, x.s, StepLine(w), env, n, t);
    var t1 := PassLabelLands(x.k, env, t, w.l + 2);
    LandsTrans(x.k, x.s, StepLine(w), env, n, t, StepLine(w) + 1, env, 1, t1);
    LandsFacts(x.k, x.s, StepLine(w) + 1, env, n + 1, t1);
    var q := GenList(f.step, w.co.labels, x.sc.syms).value;
    var i, v := ListRuns(x.k, f.step, w.co.labels, x.sc.syms, q, env, t1);
    var e := EvalList(f.step, x.sc.syms, env);
    m, u := n + 1 + i, v;
    if e.Ok? {
      LandsTrans(x.k, x.s, StepLine(w) + 1, env, n + 1, t1, LoopLine(w) - 1, e.env, i, v);
      LandsFacts(x.k, x.s, LoopLine(w) - 1, e.env, m, u);
      MatchMode(x.k, e.env, u);
      var z := JumpLands(x.k, e.env, u, w.l, TestLine(w));
      LandsTrans(x.k, x.s, LoopLine(w) - 1, e.env, m, u, TestLine(w), e.env, 1, z);
      m, u := m + 1, z;
    } else {
      GoesTrans(x.k.p, x.s, n + 1, t1, i, v);
    }
  }

  lemma {:induction false} LeaveWheel(x: Task, w: Wheel, env: Env, n: nat, t: State, fuel: nat)
    returns (m: nat, u: State)
    requires WheelOn(x.k.p, w) && x.s.line == TestLine(w) && |x.o.code| == DoneLine(w) + 1 - TestLine(w)
    requires Lands(x.k, x.s, DoneLine(w), env, n, t)
    ensures Done(x, Fall(env), fuel, m, u)
  {
    hide Goes, Held, Part, Lands;
    LandsFacts(x.k, x.s, DoneLine(w), env, n, t);
    u := PassLabelLands(x.k, env, t, w.l + 3);
    LandsTrans(x.k, x.s, DoneLine(w), env, n, t, DoneLine(w) + 1, env, 1, u);
    m := n + 1;
  }

  lemma {:induction false} TurnAgain(f: Stmt, x: Task, w: Wheel, env: Env, m: nat, u: State)
    requires WheelReady(f, x, w) && Lands(x.k, x.s, TestLine(w), env, m, u)
    ensures WheelReady(f, x.(env := env, s := u), w)
  {
    hide Goes, InFrame, Held, C.Gen, GenStmt, GenList, GenTest, TidyStmt, TidyAll, Tidy, DistinctLabels, E.CodeSize,
         StmtScope, WheelOn;
  }

  /** From the condition's label on: one turn, and then the rest. */
  lemma {:induction false} TurnRuns(f: Stmt, x: Task, w: Wheel, fuel: nat) returns (n: nat, t: State)
    requires WheelReady(f, x, w)
    ensures Done(x, ExecFor(f, x.sc, x.env, fuel), fuel, n, t)
    decreases fuel, f, 1
  {
    hide Goes, Good, InFrame, Held, Part, Lands, C.Gen, WheelOn, TargetsOn, Tidy, GenStmt, GenList, GenTest, TidyStmt,
         TidyAll, StmtScope, EvalTest, EvalList, Exec;
    n, t := TestRuns(f, x, w);
    var e := EvalTest(f.test, x.sc.syms, x.env);
    if e.Ok? {
      if e.v == 0 {
        n, t := LeaveWheel(x, w, e.env, n, t, fuel);
      } else {
        n, t := TurnBody(f, x, w, fuel, e.env, n, t);
        var o := Exec(f.loop, x.sc, e.env, fuel);
        if o.Fall? || o.Continued? {
          n, t := NextTurn(f, x, w, o.env, n, t, fuel);
        } else if o.Broke? {
          n, t := LeaveWheel(x, w, o.env, n, t, fuel);
        }
      }
    }
  }

  lemma {:induction false} NextTurn(f: Stmt, x: Task, w: Wheel, env: Env, n: nat, t: State, fuel: nat)
    returns (m: nat, u: State)
    requires WheelReady(f, x, w) && n >= 1 && Lands(x.k, x.s, StepLine(w), env, n, t)
    ensures Done(x, AfterBody(f, x.sc, env, fuel), fuel, m, u)
    decreases fuel, f, 0
  {
    hide Goes, Good, InFrame, Held, Part, Lands, C.Gen, WheelOn, TargetsOn, Tidy, GenStmt, GenList, GenTest, TidyStmt,
         TidyAll, StmtScope, EvalList, ExecFor;
    m, u := StepRuns(f, x, w, env, n, t);
    var e := EvalList(f.step, x.sc.syms, env);
    if e.Ok? {
      if fuel == 0 {
        LandsGoing(x.k, x.s, TestLine(w), e.env, m, u);
        WheelLine(x.k.p, w);
      } else {
        TurnAgain(f, x, w, e.env, m, u);
        LandsFacts(x.k, x.s, TestLine(w), e.env, m, u);
        var i, v := TurnRuns(f, x.(env := e.env, s := u), w, fuel - 1);
        MoreRounds(x, e.env, m, u, ExecFor(f, x.sc, e.env, fuel - 1), fuel, i, v);
        m, u := m + i, v;
      }
    }
  }
}
