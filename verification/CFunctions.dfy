/** Whole C functions: entry, body and exit, line by line and then as words run by the processor;
    and that no internal label is defined twice. */
module CFunctions {
  import opened Words
  import opened Machine
  import opened Assembly
  import opened Labels
  import opened Runs
  import opened CSyntax
  import opened CUses
  import opened CMeaning
  import opened CExpressions
  import opened CStatements
  import opened CStatementRuns
  import Assembler
  import C = CCode
  import E = Expansion

  // ----- the function -----

  /** `before` are names still in the symbol table: leaving a function keeps its parameters there. */
  datatype Function = Function(name: string, params: seq<string>, body: seq<Stmt>, before: C.Symbols)

  const LOCAL_WORDS: nat := 32
  const MAX_PARAMS: nat := 16

  /** Return address, old frame pointer, parameters, and 32 words for locals. */
  function FrameTotal(f: Function): nat { 2 + |f.params| + LOCAL_WORDS }

  function Enter(f: Function): seq<Line>
    requires |f.params| <= MAX_PARAMS
  {
    [LabelDef(Name(f.name, 0, 0)), LoadImm(28, -(FrameTotal(f) as int)), RR(ADD, 30, 30, 28), RI(STORE, 31, 30, 0),
     RI(STORE, 29, 30, 1), RR(ADD, 29, 30, 0)]
  }

  function ParamStores(i: nat, n: nat): seq<Line>
    requires i <= n <= C.MAX_ARG_REGS
    decreases n - i
  {
    if i == n then [] else [RI(STORE, i + 1, 29, 2 + i)] + ParamStores(i + 1, n)
  }

  function InRegisters(f: Function): nat { if |f.params| < C.MAX_ARG_REGS then |f.params| else C.MAX_ARG_REGS }

  function Leave(f: Function, end: nat): seq<Line>
    requires |f.params| <= MAX_PARAMS
  {
    [LabelDef(C.L(end)), RI(LOAD, 31, 29, 0), RI(LOAD, 29, 29, 1), LoadImm(28, FrameTotal(f)), RR(ADD, 30, 30, 28),
     if f.name == "main" then RI(HALT, 0, 0, 0) else RI(JALR, 0, 31, 0)]
  }

  /** Parameter `i` is at offset `2 + i`. */
  function ParamScope(before: C.Symbols, params: seq<string>, n: nat): Scope
    requires n <= |params|
  {
    if n == 0 then Scope(before, 2) else Declare(ParamScope(before, params, n - 1), params[n - 1])
  }

  function StartScope(f: Function): Scope { ParamScope(f.before, f.params, |f.params|) }

  function GenFunction(f: Function, labels: nat): Option<Out> {
    if !RoomFor(labels, 1) || |f.params| > MAX_PARAMS then None
    else
      match GenBody(f.body, StartScope(f), labels + 1, Targets(None, None, labels))
      case None => None
      case Some(o) =>
        Some(Out(o.labels, Enter(f) + ParamStores(0, InRegisters(f)) + o.code + Leave(f, labels)))
  }

  // ----- every internal label is defined once -----

  /** `code` defines labels numbered in `[lo, hi)` and those of `more`, all below `lo`, each once. */
  predicate Span(code: seq<Line>, lo: nat, hi: nat, more: set<nat>) {
    lo <= hi && DistinctLabels(code) && (forall x :: x in more ==> x < lo) &&
    forall k :: 0 <= k < |code| && code[k].LabelDef? ==>
      code[k].name.base == "_L" && code[k].name.b == 0 && (code[k].name.a in more || lo <= code[k].name.a < hi)
  }

  lemma {:induction false} SpanJoin(a: seq<Line>, b: seq<Line>, lo: nat, mid: nat, hi: nat, ma: set<nat>, mb: set<nat>)
    requires Span(a, lo, mid, ma) && Span(b, mid, hi, mb) && ma !! mb && forall x :: x in mb ==> x < lo
    ensures Span(a + b, lo, hi, ma + mb)
  {
    forall n | Defines(a, n) ensures !Defines(b, n) {
      assert n.a in ma || lo <= n.a < mid;
      assert forall k :: 0 <= k < |b| ==> b[k] != LabelDef(n);
    }
    DistinctJoin(a, b);
  }

  /** Pieces that add no further labels. */
  lemma {:induction false} SpanPlain(code: seq<Line>, lo: nat)
    requires forall k :: 0 <= k < |code| ==> !code[k].LabelDef?
    ensures Span(code, lo, lo, {})
  {
  }

  lemma {:induction false} SpanOne(code: seq<Line>, at: nat, id: nat, lo: nat)
    requires at < |code| && code[at] == LabelDef(C.L(id)) && id < lo
    requires forall k :: 0 <= k < |code| && k != at ==> !code[k].LabelDef?
    ensures Span(code, lo, lo, {id})
  {
  }

  /** The extra labels are just below the range. */
  lemma {:induction false} SpanClose(code: seq<Line>, lo: nat, hi: nat, n: nat, more: set<nat>)
    requires Span(code, lo, hi, more) && n <= lo && forall x :: x in more ==> n <= x
    ensures Span(code, n, hi, {})
  {
  }

  lemma {:induction false} JoinPlain(a: seq<Line>, b: seq<Line>, lo: nat, hi: nat, more: set<nat>)
    requires Span(a, lo, hi, more) && forall k :: 0 <= k < |b| ==> !b[k].LabelDef?
    ensures Span(a + b, lo, hi, more)
  {
    SpanPlain(b, hi);
    SpanJoin(a, b, lo, hi, hi, more, {});
    assert more + {} == more;
  }

  lemma {:induction false} JoinOne(a: seq<Line>, b: seq<Line>, at: nat, id: nat, lo: nat, hi: nat, more: set<nat>)
    requires Span(a, lo, hi, more) && at < |b| && b[at] == LabelDef(C.L(id)) && id < lo && id !in more
    requires forall k :: 0 <= k < |b| && k != at ==> !b[k].LabelDef?
    ensures Span(a + b, lo, hi, more + {id})
  {
    hide DistinctLabels;
    SpanOne(b, at, id, hi);
    SpanJoin(a, b, lo, hi, hi, more, {id});
  }

  lemma {:induction false} JoinNext(a: seq<Line>, b: seq<Line>, lo: nat, mid: nat, hi: nat, more: set<nat>)
    requires Span(a, lo, mid, more) && Span(b, mid, hi, {})
    ensures Span(a + b, lo, hi, more)
  {
    SpanJoin(a, b, lo, mid, hi, more, {});
    assert more + {} == more;
  }

  lemma {:induction false} CombineSpan(op: CSyntax.BinOp, l: RegIx, r: RegIx)
    ensures forall k :: 0 <= k < |C.Combine(op, l, r)| ==> !C.Combine(op, l, r)[k].LabelDef?
  {
  }

  lemma {:induction false} ValueSpan(o: C.Out, lo: nat)
    requires Span(o.code, lo, o.labels, {})
    ensures Span(C.AsValue(o).code, lo, o.labels, {}) && C.AsValue(o).labels == o.labels
  {
    hide Span;
    if o.addr.Some? && o.addr.value != o.r { JoinPlain(o.code, [RR(ADD, o.addr.value, o.r, 0)], lo, o.labels, {}); }
  }

  /** An expression's labels are the ones it took. */
  lemma {:induction false} GenSpan(e: Expr, top: nat, labels: nat, syms: C.Symbols)
    requires C.Gen(e, top, labels, syms).Some?
    ensures var o := C.Gen(e, top, labels, syms).value; Span(o.code, labels, o.labels, {})
    decreases e
  {
    hide Span, C.Find, C.AsValue, C.Combine, C.GenCond, C.GenBin, C.GenAssign, C.GenUnary;
    var o := C.Gen(e, top, labels, syms).value;
    match e
    case Num(_) => SpanPlain(o.code, labels);
    case Var(_) => SpanPlain(o.code, labels);
    case Paren(x) => GenSpan(x, top, labels, syms);
    case Post(inc, x) =>
      GenSpan(x, top, labels, syms);
      var p := C.Gen(x, top, labels, syms).value;
      JoinPlain(p.code, o.code[|p.code|..], labels, p.labels, {});
      assert o.code == p.code + o.code[|p.code|..];
    case Pre(inc, x) =>
      GenSpan(x, top, labels, syms);
      var p := C.Gen(x, top, labels, syms).value;
      JoinPlain(p.code, o.code[|p.code|..], labels, p.labels, {});
      assert o.code == p.code + o.code[|p.code|..];
    case Bin(op, l, r) =>
      GenSpan(l, top, labels, syms);
      var lo := C.Gen(l, top, labels, syms).value;
      ValueSpan(lo, labels);
      var left := C.AsValue(lo);
      GenSpan(r, left.top, left.labels, syms);
      BinSpan(op, left, C.Gen(r, left.top, left.labels, syms).value, labels);
    case Cond(c, a, b) =>
      GenSpan(c, top, labels, syms);
      var co := C.Gen(c, top, labels, syms).value;
      GenSpan(a, C.FreeOne(co.top) + 1, co.labels + 2, syms);
      var ao := C.Gen(a, C.FreeOne(co.top) + 1, co.labels + 2, syms).value;
      GenSpan(b, C.FreeOne(co.top) + 1, ao.labels, syms);
      CondSpan(co, ao, C.Gen(b, C.FreeOne(co.top) + 1, ao.labels, syms).value, labels);
    case Assign(w, l, x) =>
      GenSpan(l, top, labels, syms);
      var lo := C.Gen(l, top, labels, syms).value;
      GenSpan(x, lo.top, lo.labels, syms);
      AssignSpan(w, lo, C.Gen(x, lo.top, lo.labels, syms).value, labels);
    case _ =>
      GenSpan(e.e, top, labels, syms);
      UnarySpan(e, C.Gen(e.e, top, labels, syms).value, labels);
  }

  lemma {:induction false} UnarySpan(e: Expr, x: C.Out, labels: nat)
    requires Span(x.code, labels, x.labels, {})
    ensures Span(C.GenUnary(e, x).code, labels, C.GenUnary(e, x).labels, {})
  {
    hide Span, C.AsValue;
    ValueSpan(x, labels);
    var v, o := C.AsValue(x), C.GenUnary(e, x);
    JoinPlain(v.code, o.code[|v.code|..], labels, x.labels, {});
    assert o.code == v.code + o.code[|v.code|..];
  }

  lemma {:induction false} BinSpan(op: CSyntax.BinOp, left: C.Out, right: C.Out, labels: nat)
    requires Span(left.code, labels, left.labels, {}) && Span(right.code, left.labels, right.labels, {})
    requires C.GenBin(op, left, right).Some?
    ensures Span(C.GenBin(op, left, right).value.code, labels, C.GenBin(op, left, right).value.labels, {})
  {
    hide Span, C.Combine;
    JoinNext(left.code, right.code, labels, left.labels, right.labels, {});
    CombineSpan(op, left.r, right.r);
    var o := C.GenBin(op, left, right).value;
    var both := left.code + right.code;
    JoinPlain(both, o.code[|both|..], labels, right.labels, {});
    assert o.code == both + o.code[|both|..];
  }

  lemma {:induction false} AssignSpan(w: Option<CSyntax.BinOp>, lo: C.Out, xo: C.Out, labels: nat)
    requires Span(lo.code, labels, lo.labels, {}) && Span(xo.code, lo.labels, xo.labels, {})
    requires C.GenAssign(w, lo, xo).Some?
    ensures Span(C.GenAssign(w, lo, xo).value.code, labels, C.GenAssign(w, lo, xo).value.labels, {})
  {
    hide Span;
    JoinNext(lo.code, xo.code, labels, lo.labels, xo.labels, {});
    var o := C.GenAssign(w, lo, xo).value;
    var both := lo.code + xo.code;
    JoinPlain(both, o.code[|both|..], labels, xo.labels, {});
    assert o.code == both + o.code[|both|..];
  }

  lemma {:induction false} CondSpan(co: C.Out, ao: C.Out, bo: C.Out, labels: nat)
    requires Span(co.code, labels, co.labels, {}) && Span(ao.code, co.labels + 2, ao.labels, {})
    requires Span(bo.code, ao.labels, bo.labels, {}) && C.Alloc(C.FreeOne(co.top)).Some?
    ensures Span(C.GenCond(co, ao, bo).code, labels, bo.labels, {}) && C.GenCond(co, ao, bo).labels == bo.labels
  {
    hide Span;
    var l := co.labels;
    var result := C.GenCond(co, ao, bo).r;
    var mid := [RR(ADD, result, ao.r, 0), Jump(C.L(l + 1)), LabelDef(C.L(l))];
    var last := [RR(ADD, result, bo.r, 0), LabelDef(C.L(l + 1))];
    JoinOne(ao.code, mid, 2, l, l + 2, ao.labels, {});
    JoinNext(ao.code + mid, bo.code, l + 2, ao.labels, bo.labels, {} + {l});
    JoinOne(ao.code + mid + bo.code, last, 1, l + 1, l + 2, bo.labels, {} + {l});
    SpanClose(ao.code + mid + bo.code + last, l + 2, bo.labels, l, {} + {l} + {l + 1});
    var head := co.code + [JumpZ(co.r, C.L(l))];
    JoinPlain(co.code, [JumpZ(co.r, C.L(l))], labels, l, {});
    JoinNext(head, ao.code + mid + bo.code + last, labels, l, bo.labels, {});
    assert C.GenCond(co, ao, bo).code == head + (ao.code + mid + bo.code + last);
  }

  lemma {:induction false} ListSpan(es: seq<Expr>, labels: nat, syms: C.Symbols)
    requires GenList(es, labels, syms).Some?
    ensures var q := GenList(es, labels, syms).value; Span(q.1.code, labels, q.1.labels, {})
    decreases |es|
  {
    hide Span, C.Gen;
    if es == [] {
      SpanPlain([], labels);
    } else {
      GenSpan(es[0], 0, labels, syms);
      var o := C.Gen(es[0], 0, labels, syms).value;
      if |es| > 1 {
        ListSpan(es[1..], o.labels, syms);
        var q := GenList(es[1..], o.labels, syms).value;
        JoinNext(o.code, q.1.code, labels, o.labels, q.1.labels, {});
      }
    }
  }

  lemma {:induction false} ItemsSpan(items: seq<Item>, sc: Scope, labels: nat)
    requires GenItems(items, sc, labels).Some?
    ensures var q := GenItems(items, sc, labels).value; Span(q.code, labels, q.labels, {})
    decreases |items|
  {
    hide Span, C.Gen;
    if items == [] {
      SpanPlain([], labels);
    } else {
      var o := GenItem(items[0], sc, labels).value;
      if items[0].init.None? {
        SpanPlain([], labels);
      } else {
        GenSpan(items[0].init.value, 0, labels, Declare(sc, items[0].x).syms);
        var x := C.Gen(items[0].init.value, 0, labels, Declare(sc, items[0].x).syms).value;
        JoinPlain(x.code, [RI(STORE, x.r, C.FP, sc.next)], labels, x.labels, {});
      }
      ItemsSpan(items[1..], Declare(sc, items[0].x), o.labels);
      var q := GenItems(items[1..], Declare(sc, items[0].x), o.labels).value;
      JoinNext(o.code, q.code, labels, o.labels, q.labels, {});
    }
  }

  lemma {:induction false} InitSpan(i: Init, sc: Scope, labels: nat)
    requires GenInit(i, sc, labels).Some?
    ensures var q := GenInit(i, sc, labels).value; Span(q.code, labels, q.labels, {})
  {
    hide Span;
    match i
    case Decls(items) => ItemsSpan(items, sc, labels);
    case Exprs(es) => ListSpan(es, labels, sc.syms);
  }

  lemma {:induction false} TestSpan(c: Option<Expr>, end: nat, labels: nat, syms: C.Symbols)
    requires GenTest(c, end, labels, syms).Some?
    ensures var q := GenTest(c, end, labels, syms).value; Span(q.code, labels, q.labels, {})
  {
    hide Span;
    if c.None? {
      SpanPlain([], labels);
    } else {
      GenSpan(c.value, 0, labels, syms);
      var o := C.Gen(c.value, 0, labels, syms).value;
      JoinPlain(o.code, [JumpZ(o.r, C.L(end))], labels, o.labels, {});
    }
  }

  /** A statement's labels are the ones it took. */
  lemma {:induction false} StmtSpan(s: Stmt, sc: Scope, labels: nat, tg: Targets)
    requires GenStmt(s, sc, labels, tg).Some?
    ensures var q := GenStmt(s, sc, labels, tg).value; Span(q.code, labels, q.labels, {})
    decreases s, 0
  {
    hide Span, C.Gen, GenIf, GenWhile, GenFor, StmtScope, InitScope, GenList, GenInit, GenTest;
    var q := GenStmt(s, sc, labels, tg).value;
    match s
    case Skip => SpanPlain([], labels);
    case Block(b) => BodySpan(b, sc, labels, tg);
    case Decl(items) => ItemsSpan(items, sc, labels);
    case Return(es) =>
      ListSpan(es, labels, sc.syms);
      var o := GenList(es, labels, sc.syms).value.1;
      JoinPlain(o.code, q.code[|o.code|..], labels, o.labels, {});
      assert q.code == o.code + q.code[|o.code|..];
    case If(c, t) =>
      GenSpan(c, 0, labels + 2, sc.syms);
      var co := C.Gen(c, 0, labels + 2, sc.syms).value;
      StmtSpan(t, sc, co.labels, tg);
      var to := GenStmt(t, sc, co.labels, tg).value;
      SpanPlain([], to.labels);
      IfSpan(labels, co, to, Out(to.labels, []));
    case IfElse(c, t, e) =>
      GenSpan(c, 0, labels + 2, sc.syms);
      var co := C.Gen(c, 0, labels + 2, sc.syms).value;
      StmtSpan(t, sc, co.labels, tg);
      var to := GenStmt(t, sc, co.labels, tg).value;
      StmtSpan(e, StmtScope(t, sc), to.labels, tg);
      IfSpan(labels, co, to, GenStmt(e, StmtScope(t, sc), to.labels, tg).value);
    case While(c, b) =>
      GenSpan(c, 0, labels + 2, sc.syms);
      var co := C.Gen(c, 0, labels + 2, sc.syms).value;
      var tg1 := Targets(Some(labels + 1), Some(labels), tg.end);
      StmtSpan(b, sc, co.labels, tg1);
      WhileSpan(labels, co, GenStmt(b, sc, co.labels, tg1).value);
    case For(i, c, e, b) =>
      var sc1 := InitScope(i, sc);
      InitSpan(i, sc, labels + 4);
      var io := GenInit(i, sc, labels + 4).value;
      TestSpan(c, labels + 3, io.labels, sc1.syms);
      var co := GenTest(c, labels + 3, io.labels, sc1.syms).value;
      ListSpan(e, co.labels, sc1.syms);
      var so := GenList(e, co.labels, sc1.syms).value.1;
      var tg1 := Targets(Some(labels + 3), Some(labels + 2), tg.end);
      StmtSpan(b, sc1, so.labels, tg1);
      ForSpan(labels, io, co, so, GenStmt(b, sc1, so.labels, tg1).value);
    case Break => SpanPlain(q.code, labels);
    case Continue => SpanPlain(q.code, labels);
    case Do(e) => GenSpan(e, 0, labels, sc.syms);
  }

  lemma {:induction false} BodySpan(b: seq<Stmt>, sc: Scope, labels: nat, tg: Targets)
    requires GenBody(b, sc, labels, tg).Some?
    ensures var q := GenBody(b, sc, labels, tg).value; Span(q.code, labels, q.labels, {})
    decreases b, 1
  {
    hide Span, StmtScope, GenStmt;
    if b == [] {
      SpanPlain([], labels);
    } else {
      StmtSpan(b[0], sc, labels, tg);
      var o := GenStmt(b[0], sc, labels, tg).value;
      BodySpan(b[1..], StmtScope(b[0], sc), o.labels, tg);
      var q := GenBody(b[1..], StmtScope(b[0], sc), o.labels, tg).value;
      JoinNext(o.code, q.code, labels, o.labels, q.labels, {});
    }
  }

  lemma {:induction false} IfSpan(l: nat, co: C.Out, to: Out, eo: Out)
    requires Span(co.code, l + 2, co.labels, {}) && Span(to.code, co.labels, to.labels, {})
    requires Span(eo.code, to.labels, eo.labels, {})
    ensures Span(GenIf(l, co, to, eo).code, l, eo.labels, {}) && GenIf(l, co, to, eo).labels == eo.labels
  {
    hide Span;
    var c1 := co.code + [JumpZ(co.r, C.L(l))];
    var mid, last := [Jump(C.L(l + 1)), LabelDef(C.L(l))], [LabelDef(C.L(l + 1))];
    JoinPlain(co.code, [JumpZ(co.r, C.L(l))], l + 2, co.labels, {});
    JoinNext(c1, to.code, l + 2, co.labels, to.labels, {});
    JoinOne(c1 + to.code, mid, 1, l, l + 2, to.labels, {});
    JoinNext(c1 + to.code + mid, eo.code, l + 2, to.labels, eo.labels, {} + {l});
    JoinOne(c1 + to.code + mid + eo.code, last, 0, l + 1, l + 2, eo.labels, {} + {l});
    SpanClose(c1 + to.code + mid + eo.code + last, l + 2, eo.labels, l, {} + {l} + {l + 1});
  }

  lemma {:induction false} WhileSpan(l: nat, co: C.Out, bo: Out)
    requires Span(co.code, l + 2, co.labels, {}) && Span(bo.code, co.labels, bo.labels, {})
    ensures Span(GenWhile(l, co, bo).code, l, bo.labels, {}) && GenWhile(l, co, bo).labels == bo.labels
  {
    hide Span;
    var top, jz, last := [LabelDef(C.L(l))], [JumpZ(co.r, C.L(l + 1))], [Jump(C.L(l)), LabelDef(C.L(l + 1))];
    SpanOne(top, 0, l, l + 2);
    JoinNext(top, co.code, l + 2, l + 2, co.labels, {l});
    JoinPlain(top + co.code, jz, l + 2, co.labels, {l});
    JoinNext(top + co.code + jz, bo.code, l + 2, co.labels, bo.labels, {l});
    JoinOne(top + co.code + jz + bo.code, last, 1, l + 1, l + 2, bo.labels, {l});
    SpanClose(top + co.code + jz + bo.code + last, l + 2, bo.labels, l, {l} + {l + 1});
  }

  lemma {:induction false} ForSpan(l: nat, io: Out, co: Out, so: Out, bo: Out)
    requires Span(io.code, l + 4, io.labels, {}) && Span(co.code, io.labels, co.labels, {})
    requires Span(so.code, co.labels, so.labels, {}) && Span(bo.code, so.labels, bo.labels, {})
    ensures Span(GenFor(l, io, co, so, bo).code, l, bo.labels, {}) && GenFor(l, io, co, so, bo).labels == bo.labels
  {
    hide Span;
    var top := [LabelDef(C.L(l))];
    var j1, j2, j3 := [Jump(C.L(l + 1)), LabelDef(C.L(l + 2))], [Jump(C.L(l)), LabelDef(C.L(l + 1))],
                      [Jump(C.L(l + 2)), LabelDef(C.L(l + 3))];
    var m1 := {} + {l};
    var m2 := m1 + {l + 2};
    var m3 := m2 + {l + 1};
    JoinOne(io.code, top, 0, l, l + 4, io.labels, {});
    var c1 := io.code + top;
    JoinNext(c1, co.code, l + 4, io.labels, co.labels, m1);
    JoinOne(c1 + co.code, j1, 1, l + 2, l + 4, co.labels, m1);
    var c2 := c1 + co.code + j1;
    JoinNext(c2, so.code, l + 4, co.labels, so.labels, m2);
    JoinOne(c2 + so.code, j2, 1, l + 1, l + 4, so.labels, m2);
    var c3 := c2 + so.code + j2;
    JoinNext(c3, bo.code, l + 4, so.labels, bo.labels, m3);
    JoinOne(c3 + bo.code, j3, 1, l + 3, l + 4, bo.labels, m3);
    SpanClose(c3 + bo.code + j3, l + 4, bo.labels, l, m3 + {l + 3});
  }

  lemma {:induction false} StoresPlain(i: nat, n: nat)
    requires i <= n <= C.MAX_ARG_REGS
    ensures forall k :: 0 <= k < |ParamStores(i, n)| ==> !ParamStores(i, n)[k].LabelDef?
    ensures |ParamStores(i, n)| == n - i
    decreases n - i
  {
    if i < n { StoresPlain(i + 1, n); }
  }

  /** The only label a function defines besides its own numbered ones is its name. */
  predicate Owns(code: seq<Line>, name: string, lo: nat, hi: nat) {
    lo <= hi && forall k :: 0 <= k < |code| && code[k].LabelDef? ==>
      code[k].name == Name(name, 0, 0) || (code[k].name == C.L(code[k].name.a) && lo <= code[k].name.a < hi)
  }

  /** A compiled function defines no label twice, and only labels of its own. */
  lemma {:induction false} FunctionDistinct(f: Function, labels: nat)
    requires GenFunction(f, labels).Some? && f.name != "_L"
    ensures DistinctLabels(GenFunction(f, labels).value.code)
    ensures Owns(GenFunction(f, labels).value.code, f.name, labels, GenFunction(f, labels).value.labels)
  {
    hide Span, DistinctLabels, GenBody, Owns;
    var sc, tg := StartScope(f), Targets(None, None, labels);
    BodySpan(f.body, sc, labels + 1, tg);
    var o := GenBody(f.body, sc, labels + 1, tg).value;
    JoinOne(o.code, Leave(f, labels), 0, labels, labels + 1, o.labels, {});
    var rest := o.code + Leave(f, labels);
    var head := Enter(f) + ParamStores(0, InRegisters(f));
    StoresPlain(0, InRegisters(f));
    HeadDistinct(head, Name(f.name, 0, 0), rest, labels + 1, o.labels, {} + {labels});
    SpanClose(rest, labels + 1, o.labels, labels, {} + {labels});
    HeadOwns(head, f.name, rest, labels, o.labels);
    assert GenFunction(f, labels).value.code == head + rest;
  }

  lemma HeadOwns(head: seq<Line>, name: string, rest: seq<Line>, lo: nat, hi: nat)
    requires Span(rest, lo, hi, {}) && head != [] && head[0] == LabelDef(Name(name, 0, 0))
    requires forall k :: 1 <= k < |head| ==> !head[k].LabelDef?
    ensures Owns(head + rest, name, lo, hi)
  {
  }

  lemma {:induction false} HeadDistinct(head: seq<Line>, n: Name, rest: seq<Line>, lo: nat, hi: nat, more: set<nat>)
    requires Span(rest, lo, hi, more) && n.base != "_L" && head != [] && head[0] == LabelDef(n)
    requires forall k :: 1 <= k < |head| ==> !head[k].LabelDef?
    ensures DistinctLabels(head + rest)
  {
    assert DistinctLabels(head);
    forall m | Defines(head, m) ensures !Defines(rest, m) {
      assert m == n;
      assert forall k :: 0 <= k < |rest| ==> rest[k] != LabelDef(n);
    }
    DistinctJoin(head, rest);
  }

  // ----- a call -----

  /** A function about to be called: the program, the caller's state at its entry line. */
  datatype Call = Call(p: Program, s: State, f: Function, labels: nat, out: Out)

  function Sp(k: Call): nat { k.s.reg[30] }

  /** The new frame lies between the program and the caller's stack pointer; the compiler reserves
      32 words for locals without counting them, so the body may not declare more. */
  predicate Entered(k: Call) {
    k.s.mode == Going && k.s.reg[0] == 0 &&
    GenFunction(k.f, k.labels) == Some(k.out) && Part(k.p, k.s.line, k.out.code) && TidyBody(k.f.body) &&
    E.CodeSize(k.p.lines) + FrameTotal(k.f) <= Sp(k) <= MEM_WORDS && |k.f.params| <= MAX_PARAMS &&
    InFrame(k.f.before, MAX_PARAMS) && BodyScope(k.f.body, StartScope(k.f)).next <= FrameTotal(k.f)
  }

  predicate Callable(k: Call) { Entered(k) && DistinctLabels(k.p.lines) }

  function Fp(k: Call): nat
    requires FrameTotal(k.f) <= Sp(k)
  {
    Sp(k) - FrameTotal(k.f)
  }

  /** The variables at entry: parameters passed in R1..R4, and whatever the rest of the frame holds. */
  function StartEnv(k: Call): Env
    requires FrameTotal(k.f) <= Sp(k) <= MEM_WORDS
  {
    seq(|k.f.params| + LOCAL_WORDS, j requires 0 <= j < |k.f.params| + LOCAL_WORDS =>
          if j < InRegisters(k.f) then k.s.reg[1 + j] else k.s.mem[Fp(k) + 2 + j])
  }

  /** The frame pointer's neighbours: the saved return address and frame pointer. */
  function SavedMem(k: Call): Mem
    requires FrameTotal(k.f) <= Sp(k) <= MEM_WORDS
  {
    k.s.mem[Fp(k) := k.s.reg[31]][Fp(k) + 1 := k.s.reg[29]]
  }

  function Ground(k: Call, mem: Mem): Frame
    requires FrameTotal(k.f) <= Sp(k)
  {
    Frame(k.p, Fp(k), mem, |k.f.params| + LOCAL_WORDS)
  }

  function BodyCode(k: Call): Option<Out>
  {
    GenBody(k.f.body, StartScope(k.f), k.labels + 1, Targets(None, None, k.labels))
  }

  function BodyLine(k: Call): nat { k.s.line + 6 + InRegisters(k.f) }

  lemma {:induction false} Pieces(k: Call)
    requires Callable(k)
    ensures BodyCode(k).Some? && Part(k.p, k.s.line, Enter(k.f)) &&
            Part(k.p, k.s.line + 6, ParamStores(0, InRegisters(k.f)))
    ensures Part(k.p, BodyLine(k), BodyCode(k).value.code)
    ensures Part(k.p, BodyLine(k) + |BodyCode(k).value.code|, Leave(k.f, k.labels))
  {
    hide Part, DistinctLabels, E.CodeSize, GenBody, TidyBody, BodyScope, ParamStores;
    StoresPlain(0, InRegisters(k.f));
    var a, b, c, d := Enter(k.f), ParamStores(0, InRegisters(k.f)), BodyCode(k).value.code, Leave(k.f, k.labels);
    PartSplit(k.p, k.s.line, a + b + c, d);
    PartSplit(k.p, k.s.line, a + b, c);
    PartSplit(k.p, k.s.line, a, b);
  }

  lemma {:induction false} SpMoves(sp: nat, total: nat)
    requires total <= sp <= MEM_WORDS
    ensures Wrap(sp + Wrap(-(total as int))) == sp - total && Wrap((sp - total) + total) == sp && Wrap(total) == total
  {
  }

  lemma {:induction false} EnterRun(k: Call) returns (t: State)
    requires Callable(k)
    ensures Goes(k.p, k.s, 6, t) && t == k.s.(line := k.s.line + 6, reg := t.reg, mem := SavedMem(k))
    ensures t.reg[29] == Fp(k) && t.reg[30] == Fp(k)
    ensures forall r :: 0 <= r < 32 && r != 28 && r != 29 && r != 30 ==> t.reg[r] == k.s.reg[r]
  {
    hide Goes, DistinctLabels, E.CodeSize, Part, GenFunction, TidyBody, BodyScope, Wrap;
    Pieces(k);
    PartLine(k.p, k.s.line, Enter(k.f), 0);
    PartLine(k.p, k.s.line, Enter(k.f), 1);
    PartLine(k.p, k.s.line, Enter(k.f), 2);
    PartLine(k.p, k.s.line, Enter(k.f), 3);
    PartLine(k.p, k.s.line, Enter(k.f), 4);
    PartLine(k.p, k.s.line, Enter(k.f), 5);
    DoLabel(k.p, k.s, Name(k.f.name, 0, 0));
    var s1 := k.s.(line := k.s.line + 1);
    var s2 := PushFrame(k.p, s1, FrameTotal(k.f));
    t := SaveLinks(k.p, s2);
    GoesTrans(k.p, k.s, 1, s1, 2, s2);
    GoesTrans(k.p, k.s, 3, s2, 3, t);
  }

  lemma {:induction false} PushFrame(p: Program, s: State, total: nat) returns (t: State)
    requires total <= 1000 && total <= s.reg[30] <= MEM_WORDS
    requires OnLine(p, s, LoadImm(28, -(total as int))) && OnLine(p, s.(line := s.line + 1), RR(ADD, 30, 30, 28))
    ensures Goes(p, s, 2, t) && t == s.(line := s.line + 2, reg := t.reg) && t.reg[30] == s.reg[30] - total
    ensures forall r :: 0 <= r < 32 && r != 28 && r != 30 ==> t.reg[r] == s.reg[r]
  {
    hide Goes, Wrap;
    SpMoves(s.reg[30], total);
    DoImm(p, s, 28, -(total as int));
    var s1 := After(s, 28, Wrap(-(total as int)));
    DoAlu(p, s1, ADD, 30, 30, 28);
    t := After(s1, 30, s.reg[30] - total);
    GoesTrans(p, s, 1, s1, 1, t);
  }

  lemma {:induction false} SaveLinks(p: Program, s: State) returns (t: State)
    requires E.CodeSize(p.lines) <= s.reg[30] < MEM_WORDS - 1
    requires OnLine(p, s, RI(STORE, 31, 30, 0)) && OnLine(p, s.(line := s.line + 1), RI(STORE, 29, 30, 1))
    requires OnLine(p, s.(line := s.line + 2), RR(ADD, 29, 30, 0)) && s.reg[0] == 0
    ensures Goes(p, s, 3, t)
    ensures t == s.(line := s.line + 3, reg := Put(s.reg, 29, s.reg[30]),
                    mem := s.mem[s.reg[30] := s.reg[31]][s.reg[30] + 1 := s.reg[29]])
  {
    hide Goes, E.CodeSize, Wrap;
    var fp := s.reg[30];
    WrapWord(fp);
    DoStore(p, s, 31, 30, 0);
    var s1 := s.(line := s.line + 1, mem := s.mem[fp := s.reg[31]]);
    DoStore(p, s1, 29, 30, 1);
    var s2 := s1.(line := s.line + 2, mem := s1.mem[fp + 1 := s.reg[29]]);
    DoAlu(p, s2, ADD, 29, 30, 0);
    t := After(s2, 29, fp);
    GoesTrans(p, s, 1, s1, 1, s2);
    GoesTrans(p, s, 2, s2, 1, t);
  }

  lemma {:induction false} ParamsRun(p: Program, s: State, i: nat, n: nat, fp: nat) returns (t: State)
    requires i <= n <= C.MAX_ARG_REGS && s.mode == Going && s.reg[29] == fp && E.CodeSize(p.lines) <= fp
    requires fp + 2 + n <= MEM_WORDS && Part(p, s.line, ParamStores(i, n))
    ensures Goes(p, s, n - i, t) && t == s.(line := s.line + (n - i), mem := t.mem)
    ensures forall a :: 0 <= a < MEM_WORDS ==>
              t.mem[a] == if fp + 2 + i <= a < fp + 2 + n then s.reg[1 + (a - fp - 2)] else s.mem[a]
    decreases n - i
  {
    hide Goes, E.CodeSize, Part;
    if i == n {
      GoesZero(p, s);
      t := s;
    } else {
      var first := [RI(STORE, i + 1, 29, 2 + i)];
      PartSplit(p, s.line, first, ParamStores(i + 1, n));
      PartLine(p, s.line, first, 0);
      DoStore(p, s, i + 1, 29, 2 + i);
      var s1 := s.(line := s.line + 1, mem := s.mem[fp + 2 + i := s.reg[i + 1]]);
      t := ParamsRun(p, s1, i + 1, n, fp);
      GoesTrans(p, s, 1, s1, n - i - 1, t);
    }
  }

  /** After the entry code the frame holds the parameters and the body is next. */
  lemma {:induction false} Prologue(k: Call) returns (n: nat, t: State)
    requires Callable(k)
    ensures Goes(k.p, k.s, n, t) && t.line == BodyLine(k) && Good(Ground(k, SavedMem(k)))
    ensures Held(Ground(k, SavedMem(k)), StartEnv(k), t)
    ensures t.reg[30] == Fp(k) && t.reg[29] == Fp(k)
  {
    hide Goes, DistinctLabels, E.CodeSize, Part, GenFunction, TidyBody, BodyScope, ParamStores;
    Pieces(k);
    StoresPlain(0, InRegisters(k.f));
    var u := EnterRun(k);
    t := ParamsRun(k.p, u, 0, InRegisters(k.f), Fp(k));
    GoesTrans(k.p, k.s, 6, u, InRegisters(k.f), t);
    n := 6 + InRegisters(k.f);
    FrameHolds(k, u.reg, t.mem);
  }

  lemma {:induction false} FrameHolds(k: Call, reg: Regs, mem: Mem)
    requires Callable(k) && forall r :: 1 <= r <= 4 ==> reg[r] == k.s.reg[r]
    requires forall a :: 0 <= a < MEM_WORDS ==>
               mem[a] == if Fp(k) + 2 <= a < Fp(k) + 2 + InRegisters(k.f) then reg[1 + (a - Fp(k) - 2)]
               else SavedMem(k)[a]
    ensures InMemory(Ground(k, SavedMem(k)), StartEnv(k), mem)
  {
    hide DistinctLabels, E.CodeSize, Part, GenFunction, TidyBody, BodyScope;
  }

  /** The line of the final HALT or return jump. */
  function LastLine(k: Call): nat
    requires BodyCode(k).Some?
  {
    BodyLine(k) + |BodyCode(k).value.code| + 5
  }

  /** The six lines after the body. */
  lemma {:induction false} LeaveLines(k: Call)
    requires Callable(k) && BodyCode(k).Some?
    ensures var at, code := BodyLine(k) + |BodyCode(k).value.code|, Leave(k.f, k.labels);
            |code| == 6 && at + 6 <= |k.p.lines| && at + 5 == LastLine(k) &&
            k.p.lines[at] == code[0] && k.p.lines[at + 1] == code[1] && k.p.lines[at + 2] == code[2] &&
            k.p.lines[at + 3] == code[3] && k.p.lines[at + 4] == code[4] && k.p.lines[at + 5] == code[5]
  {
    hide DistinctLabels, E.CodeSize, Part, GenBody, TidyBody, BodyScope;
    Pieces(k);
    var code, at := Leave(k.f, k.labels), BodyLine(k) + |BodyCode(k).value.code|;
    PartLine(k.p, at, code, 0);
    PartLine(k.p, at, code, 1);
    PartLine(k.p, at, code, 2);
    PartLine(k.p, at, code, 3);
    PartLine(k.p, at, code, 4);
    PartLine(k.p, at, code, 5);
  }

  lemma {:induction false} Epilogue(k: Call, env: Env, u: State) returns (t: State)
    requires Callable(k) && BodyCode(k).Some? && Held(Ground(k, SavedMem(k)), env, u)
    requires u.line == BodyLine(k) + |BodyCode(k).value.code| && u.reg[30] == Fp(k)
    ensures Goes(k.p, u, 5, t) && t.mode == Going && t.line == LastLine(k) && t.mem == u.mem && t.reg[0] == 0
    ensures t.reg[29] == k.s.reg[29] && t.reg[30] == Sp(k) && t.reg[31] == k.s.reg[31] && t.reg[C.RET] == u.reg[C.RET]
    ensures LastLine(k) < |k.p.lines|
    ensures k.p.lines[LastLine(k)] == if k.f.name == "main" then RI(HALT, 0, 0, 0) else RI(JALR, 0, 31, 0)
  {
    hide Goes, DistinctLabels, E.CodeSize, Part, GenFunction, TidyBody, BodyScope, Wrap, BodyCode, Held;
    LeaveLines(k);
    SavedLinks(k, env, u);
    var at := u.line;
    DoLabel(k.p, u, C.L(k.labels));
    var s1 := u.(line := at + 1);
    var s2 := Restore(k.p, s1, Fp(k), k.s.reg[31], k.s.reg[29]);
    var s3 := PopFrame(k.p, s2, FrameTotal(k.f), Sp(k));
    GoesTrans(k.p, u, 1, s1, 2, s2);
    GoesTrans(k.p, u, 3, s2, 2, s3);
    t := s3;
  }

  lemma {:induction false} SavedLinks(k: Call, env: Env, u: State)
    requires Callable(k) && Held(Ground(k, SavedMem(k)), env, u)
    ensures u.mode == Going && u.reg[0] == 0 && u.reg[29] == Fp(k)
    ensures u.mem[Fp(k)] == k.s.reg[31] && u.mem[Fp(k) + 1] == k.s.reg[29]
  {
    hide DistinctLabels, E.CodeSize, Part, GenFunction, TidyBody, BodyScope;
  }

  lemma {:induction false} Restore(p: Program, s: State, fp: nat, ra: Word, oldFp: Word) returns (t: State)
    requires s.reg[29] == fp && fp + 1 < MEM_WORDS && s.mem[fp] == ra && s.mem[fp + 1] == oldFp
    requires OnLine(p, s, RI(LOAD, 31, 29, 0)) && OnLine(p, s.(line := s.line + 1), RI(LOAD, 29, 29, 1))
    ensures Goes(p, s, 2, t) && t == s.(line := s.line + 2, reg := Put(Put(s.reg, 31, ra), 29, oldFp))
  {
    hide Goes;
    DoLoad(p, s, 31, 29, 0);
    var s1 := After(s, 31, ra);
    DoLoad(p, s1, 29, 29, 1);
    t := After(s1, 29, oldFp);
    GoesTrans(p, s, 1, s1, 1, t);
  }

  lemma {:induction false} PopFrame(p: Program, s: State, total: nat, sp: nat) returns (t: State)
    requires total <= sp <= MEM_WORDS && s.reg[30] == sp - total && total <= 1000
    requires OnLine(p, s, LoadImm(28, total)) && OnLine(p, s.(line := s.line + 1), RR(ADD, 30, 30, 28))
    ensures Goes(p, s, 2, t) && t == s.(line := s.line + 2, reg := t.reg) && t.reg[30] == sp
    ensures forall r :: 0 <= r < 32 && r != 28 && r != 30 ==> t.reg[r] == s.reg[r]
  {
    hide Goes, Wrap;
    SpMoves(sp, total);
    DoImm(p, s, 28, total);
    var s1 := After(s, 28, total);
    DoAlu(p, s1, ADD, 30, 30, 28);
    t := After(s1, 30, sp);
    GoesTrans(p, s, 1, s1, 1, t);
  }

  // ----- what the caller finds -----

  /** Control is at the function's last line: the caller's registers are back, the variables are in
      the frame, no other word of memory but the two saved links has changed. */
  predicate Back(k: Call, env: Env, t: State)
    requires Callable(k) && BodyCode(k).Some?
  {
    t.mode == Going && t.line == LastLine(k) && t.reg[0] == 0 && t.reg[29] == k.s.reg[29] && t.reg[30] == Sp(k) &&
    t.reg[31] == k.s.reg[31] && InMemory(Ground(k, SavedMem(k)), env, t.mem)
  }

  ghost predicate Answered(k: Call, o: Flow, fuel: nat, n: nat, t: State)
    requires Callable(k) && BodyCode(k).Some?
  {
    match o
    case Fall(env) => Back(k, env, t)
    case Returned(v, env) => Back(k, env, t) && (v.Some? ==> t.reg[C.RET] == v.value)
    case Undefined => t.mode == Faulted
    case Timeout => n >= fuel && t.mode == Going && t.line < |k.p.lines|
    case _ => false
  }

  lemma {:induction false} ParamScopeFits(before: C.Symbols, params: seq<string>, n: nat)
    requires n <= |params| <= MAX_PARAMS && InFrame(before, MAX_PARAMS)
    ensures ParamScope(before, params, n).next == 2 + n
    ensures InFrame(ParamScope(before, params, n).syms, MAX_PARAMS)
    decreases n
  {
    if n > 0 { ParamScopeFits(before, params, n - 1); }
  }

  /** A compiled function carries out every run of its body. */
  lemma {:induction false} CallRuns(k: Call, fuel: nat) returns (n: nat, t: State)
    requires Callable(k)
    ensures BodyCode(k).Some? && Goes(k.p, k.s, n, t)
    ensures Answered(k, ExecBody(k.f.body, StartScope(k.f), StartEnv(k), fuel), fuel, n, t)
  {
    hide Goes, DistinctLabels, E.CodeSize, Part, GenBody, TidyBody, BodyScope, ExecBody, InMemory, ParamScope, StartEnv,
         SavedMem;
    Pieces(k);
    var a, u := Prologue(k);
    var g := Ground(k, SavedMem(k));
    var x := Task(g, StartScope(k.f), k.labels + 1, Targets(None, None, k.labels),
                  Where(0, 0, BodyLine(k) + |BodyCode(k).value.code|), StartEnv(k), u, BodyCode(k).value);
    StartSet(k, x);
    var m, v := BodyRuns(k.f.body, x, fuel);
    GoesBody(k, x, a, u, ExecBody(k.f.body, StartScope(k.f), StartEnv(k), fuel), fuel, m, v);
    n, t := a + m, v;
    var o := ExecBody(k.f.body, StartScope(k.f), StartEnv(k), fuel);
    if o.Fall? || o.Returned? {
      LandsFacts(g, u, x.wh.end, o.env, m, v);
      t := Epilogue(k, o.env, v);
      GoesTrans(k.p, k.s, n, v, 5, t);
      n := n + 5;
    }
  }

  lemma {:induction false} StartSet(k: Call, x: Task)
    requires Callable(k) && BodyCode(k) == Some(x.o) && Good(x.k) && Held(x.k, x.env, x.s) &&
             x.k == Ground(k, SavedMem(k))
    requires x.sc == StartScope(k.f) && x.labels == k.labels + 1 && x.tg == Targets(None, None, k.labels)
    requires x.wh.end == BodyLine(k) + |x.o.code| && x.s.line == BodyLine(k)
    ensures BodyReady(k.f.body, x)
  {
    hide Goes, DistinctLabels, E.CodeSize, Part, GenBody, TidyBody, BodyScope, InMemory, ParamScope, SavedMem, InFrame;
    Pieces(k);
    PartLine(k.p, x.wh.end, Leave(k.f, k.labels), 0);
    ParamScopeFits(k.f.before, k.f.params, |k.f.params|);
    WiderFrame(StartScope(k.f).syms, MAX_PARAMS, x.k.size);
  }

  lemma {:induction false} WiderFrame(syms: C.Symbols, a: nat, b: nat)
    requires InFrame(syms, a) && a <= b
    ensures InFrame(syms, b)
  {
  }

  lemma {:induction false} GoesBody(k: Call, x: Task, a: nat, u: State, o: Flow, fuel: nat, m: nat, v: State)
    requires Goes(k.p, k.s, a, u) && x.s == u && x.k.p == k.p && CStatementRuns.Done(x, o, fuel, m, v)
    requires x.tg.brk.None? && x.tg.cont.None? && x.wh.end == x.s.line + |x.o.code|
    ensures Goes(k.p, k.s, a + m, v) && !o.Broke? && !o.Continued? && !o.Bad?
    ensures o.Fall? || o.Returned? ==> Lands(x.k, u, x.wh.end, o.env, m, v) && v.reg[30] == u.reg[30]
    ensures o.Returned? && o.v.Some? ==> v.reg[C.RET] == o.v.value
    ensures o.Undefined? ==> v.mode == Faulted
    ensures o.Timeout? ==> m >= fuel && v.mode == Going && v.line < |k.p.lines|
  {
    hide Goes, Held;
    GoesTrans(k.p, k.s, a, u, m, v);
  }

  // ----- as words -----

  /** The processor's state after `n` steps: `main` has halted, any other function returned, or `fuel`
      rounds of its loops were not enough and `n` grows with `fuel`. */
  ghost predicate Finished(k: Call, o: Flow, fuel: nat, n: nat, c: Cpu)
    requires Callable(k)
  {
    match o
    case Fall(env) => CameBack(k, env, c)
    case Returned(v, env) => CameBack(k, env, c) && (v.Some? ==> c.reg[C.RET] == v.value)
    case Undefined => c.status != Running
    case Timeout => c.status == Running && fuel <= E.Span(n, |k.p.lines|) + |k.p.lines|
    case _ => false
  }

  predicate CameBack(k: Call, env: Env, c: Cpu)
    requires Callable(k)
  {
    c.reg[0] == 0 && c.reg[29] == k.s.reg[29] && c.reg[30] == Sp(k) && c.reg[31] == k.s.reg[31] &&
    InMemory(Ground(k, SavedMem(k)), env, c.mem) &&
    if k.f.name == "main" then c.status == Halted else c.status == Running && c.pc == k.s.reg[31] % 0x1_0000
  }

  /** The assembled words of a compiled function, run by the processor from the function's entry,
      leave the variables and the return value that evaluating its body gives. */
  lemma {:induction false} CallOnProcessor(k: Call, fuel: nat) returns (n: nat, c: Cpu)
    requires Entered(k) && !k.p.atomic && Assembler.Assembled(k.p.lines).Some?
    requires Assembler.LabelCount(k.p.lines, |k.p.lines|) <= Assembler.MAX_LABELS
    requires Assembler.Loaded(k.s.mem, Assembler.Assembled(k.p.lines).value)
    ensures Callable(k) && k.s.line < |k.p.lines| && c == Run(E.CpuOf(k.p, k.s), n)
    ensures Finished(k, ExecBody(k.f.body, StartScope(k.f), StartEnv(k), fuel), fuel, n, c)
  {
    hide E.CodeSize, E.CodeIn, DistinctLabels, ExecBody, Assembler.Assembled, Assembler.Loaded, InMemory, StartEnv,
         Assembler.LabelCount, E.Contained, Steps, AddressOf, Run, GenBody, TidyBody, BodyScope, ParamScope, Part,
         SavedMem, E.Span;
    Assembler.AssembledExact(k.p.lines);
    CodeFits(k);
    Assembler.AssembledCodeIn(k.p.lines, k.s.mem);
    var m, t := CallRuns(k, fuel);
    var o := ExecBody(k.f.body, StartScope(k.f), StartEnv(k), fuel);
    if o.Fall? || o.Returned? {
      n, c := ReturnStep(k, o.env, m, t);
    } else {
      n := E.RunRefines(k.p, k.s, m);
      c := E.CpuOf(k.p, t);
    }
  }

  /** A body that no number of loop rounds brings to an end keeps the processor running for ever. */
  lemma {:induction false} NeverStops(k: Call, m: nat)
    requires Entered(k) && !k.p.atomic && Assembler.Assembled(k.p.lines).Some?
    requires Assembler.LabelCount(k.p.lines, |k.p.lines|) <= Assembler.MAX_LABELS
    requires Assembler.Loaded(k.s.mem, Assembler.Assembled(k.p.lines).value)
    requires forall fuel :: ExecBody(k.f.body, StartScope(k.f), StartEnv(k), fuel).Timeout?
    ensures k.s.line < |k.p.lines| && Run(E.CpuOf(k.p, k.s), m).status == Running
  {
    hide E.CodeSize, DistinctLabels, ExecBody, Assembler.Assembled, Assembler.Loaded, InMemory, StartEnv, StartScope,
         Assembler.LabelCount, Run, GenBody, TidyBody, BodyScope, Part, SavedMem, E.Span, InFrame;
    var lines := |k.p.lines|;
    var n, c := CallOnProcessor(k, E.Span(m, lines) + lines + 1);
    E.SpanMore(m, n, lines);
    E.RunningBefore(E.CpuOf(k.p, k.s), m, n);
  }

  lemma {:induction false} CodeFits(k: Call)
    requires Callable(k)
    ensures E.CodeSize(k.p.lines) < MEM_WORDS && k.s.line < |k.p.lines|
  {
    hide E.CodeSize, DistinctLabels, GenBody, TidyBody, BodyScope, ParamScope;
  }

  lemma {:induction false} ReturnStep(k: Call, env: Env, m: nat, t: State) returns (n: nat, c: Cpu)
    requires Callable(k) && !k.p.atomic && E.CodeIn(k.s.mem, k.p.lines) && BodyCode(k).Some?
    requires Goes(k.p, k.s, m, t) && Back(k, env, t)
    ensures k.s.line < |k.p.lines| && c == Run(E.CpuOf(k.p, k.s), n) && CameBack(k, env, c)
    ensures c.reg[C.RET] == t.reg[C.RET]
  {
    hide E.CodeSize, E.CodeIn, DistinctLabels, InMemory, E.Contained, Steps, AddressOf, Run, GenBody, TidyBody,
         BodyScope, ParamScope, Part, SavedMem, BodyCode;
    CodeFits(k);
    LastIs(k);
    if k.f.name == "main" {
      DoHalt(k.p, t);
      var u := t.(line := t.line + 1, mode := Stopped);
      GoesTrans(k.p, k.s, m, t, 1, u);
      n := E.RunRefines(k.p, k.s, m + 1);
      c := E.CpuOf(k.p, u);
    } else {
      n := E.RunRefines(k.p, k.s, m);
      E.ReturnLands(k.p, t, 31);
      RunAdd(E.CpuOf(k.p, k.s), n, 1);
      c := Run(E.CpuOf(k.p, t), 1);
      n := n + 1;
    }
  }

  lemma {:induction false} LastIs(k: Call)
    requires Callable(k) && BodyCode(k).Some?
    ensures LastLine(k) < |k.p.lines|
    ensures k.p.lines[LastLine(k)] == if k.f.name == "main" then RI(HALT, 0, 0, 0) else RI(JALR, 0, 31, 0)
  {
    hide DistinctLabels, E.CodeSize, Part, GenFunction, TidyBody, BodyScope, BodyCode;
    Pieces(k);
    PartLine(k.p, BodyLine(k) + |BodyCode(k).value.code|, Leave(k.f, k.labels), 5);
  }
}
