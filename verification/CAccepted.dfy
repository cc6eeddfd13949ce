/** The assembler accepts what the C compiler prints: every label it issues is defined, and every
    branch goes to a label it issued. */
module CAccepted {
  import opened Machine
  import opened Assembly
  import opened Labels
  import opened CSyntax
  import opened CStatements
  import opened CFunctions
  import Assembler
  import C = CCode

  /** A line names at most one of the labels in `open`. */
  predicate Aims(line: Line, open: set<nat>) {
    Target(line).Some? ==>
      (line.Jump? || line.JumpZ?) && Target(line).value == C.L(Target(line).value.a) && Target(line).value.a in open
  }

  predicate Between(lo: nat, n: nat, hi: nat) { lo <= n < hi }

  function Issued(lo: nat, hi: nat): set<nat> { set n: nat | lo <= n < hi && Between(lo, n, hi) }

  /** The labels from `lo` to `hi` are all defined, and branches go to them or to labels of `open`. */
  predicate Full(code: seq<Line>, lo: nat, hi: nat, open: set<nat>) {
    lo <= hi && (forall n :: lo <= n < hi ==> Defines(code, C.L(n))) &&
    forall k :: 0 <= k < |code| ==> Aims(code[k], Issued(lo, hi) + open)
  }

  lemma FullJoin(a: seq<Line>, b: seq<Line>, lo: nat, mid: nat, hi: nat, open: set<nat>)
    requires Full(a, lo, mid, open) && Full(b, mid, hi, open)
    ensures Full(a + b, lo, hi, open)
  {
    assert Issued(lo, mid) + open <= Issued(lo, hi) + open && Issued(mid, hi) + open <= Issued(lo, hi) + open;
  }

  lemma FullJoin4(a: seq<Line>, b: seq<Line>, c: seq<Line>, d: seq<Line>, at: seq<nat>, open: set<nat>)
    requires |at| == 5 && Full(a, at[0], at[1], open) && Full(b, at[1], at[2], open)
    requires Full(c, at[2], at[3], open) && Full(d, at[3], at[4], open)
    ensures Full(a + b + c + d, at[0], at[4], open)
  {
    hide Full;
    FullJoin(a, b, at[0], at[1], at[2], open);
    FullJoin(a + b, c, at[0], at[2], at[3], open);
    FullJoin(a + b + c, d, at[0], at[3], at[4], open);
  }

  lemma FullWiden(a: seq<Line>, lo: nat, hi: nat, open: set<nat>, more: set<nat>)
    requires Full(a, lo, hi, open) && open <= more
    ensures Full(a, lo, hi, more)
  {
    assert Issued(lo, hi) + open <= Issued(lo, hi) + more;
  }

  /** Lines that issue nothing. */
  lemma FullAim(a: seq<Line>, lo: nat, open: set<nat>)
    requires forall k :: 0 <= k < |a| ==> Aims(a[k], open)
    ensures Full(a, lo, lo, open)
  {
    assert open <= Issued(lo, lo) + open;
  }

  /** Labels reserved before the pieces were compiled, and defined by now. */
  lemma FullClose(a: seq<Line>, l: nat, k: nat, hi: nat, open: set<nat>)
    requires Full(a, l + k, hi, open + Issued(l, l + k)) && forall n :: l <= n < l + k ==> Defines(a, C.L(n))
    ensures Full(a, l, hi, open)
  {
    assert Issued(l + k, hi) + (open + Issued(l, l + k)) <= Issued(l, hi) + open;
  }

  lemma DefinesIn(a: seq<Line>, b: seq<Line>, c: seq<Line>, n: nat)
    requires LabelDef(C.L(n)) in b
    ensures Defines(a + b + c, C.L(n))
  {
    assert LabelDef(C.L(n)) in a + b + c;
  }

  lemma CombineAims(op: CSyntax.BinOp, l: RegIx, r: RegIx, lo: nat)
    ensures Full(C.Combine(op, l, r), lo, lo, {})
  {
    FullAim(C.Combine(op, l, r), lo, {});
  }

  lemma ValueFull(o: C.Out, lo: nat)
    requires Full(o.code, lo, o.labels, {})
    ensures Full(C.AsValue(o).code, lo, o.labels, {}) && C.AsValue(o).labels == o.labels
  {
    if o.addr.Some? && o.addr.value != o.r {
      FullAim([RR(ADD, o.addr.value, o.r, 0)], o.labels, {});
      hide Full;
      FullJoin(o.code, [RR(ADD, o.addr.value, o.r, 0)], lo, o.labels, o.labels, {});
    }
  }

  lemma {:induction false} GenFull(e: Expr, top: nat, labels: nat, syms: C.Symbols)
    requires C.Gen(e, top, labels, syms).Some?
    ensures var o := C.Gen(e, top, labels, syms).value; Full(o.code, labels, o.labels, {})
    decreases e
  {
    hide Full, C.Find, C.AsValue, C.Combine, C.GenCond, C.GenBin, C.GenAssign, C.GenUnary, C.GenPost, C.GenPre, Aims;
    match e
    case Num(_) => LeafFull(e, top, labels, syms);
    case Var(_) => LeafFull(e, top, labels, syms);
    case Paren(x) => GenFull(x, top, labels, syms);
    case Post(inc, x) =>
      GenFull(x, top, labels, syms);
      StepFull(inc, C.Gen(x, top, labels, syms).value, labels);
    case Pre(inc, x) =>
      GenFull(x, top, labels, syms);
      StepFull(inc, C.Gen(x, top, labels, syms).value, labels);
    case Bin(op, l, r) =>
      GenFull(l, top, labels, syms);
      ValueFull(C.Gen(l, top, labels, syms).value, labels);
      var left := C.AsValue(C.Gen(l, top, labels, syms).value);
      GenFull(r, left.top, left.labels, syms);
      BinFull(op, left, C.Gen(r, left.top, left.labels, syms).value, labels);
    case Cond(c, a, b) =>
      GenFull(c, top, labels, syms);
      var co := C.Gen(c, top, labels, syms).value;
      GenFull(a, C.FreeOne(co.top) + 1, co.labels + 2, syms);
      var ao := C.Gen(a, C.FreeOne(co.top) + 1, co.labels + 2, syms).value;
      GenFull(b, C.FreeOne(co.top) + 1, ao.labels, syms);
      CondFull(co, ao, C.Gen(b, C.FreeOne(co.top) + 1, ao.labels, syms).value, labels);
    case Assign(w, l, x) =>
      GenFull(l, top, labels, syms);
      var lo := C.Gen(l, top, labels, syms).value;
      GenFull(x, lo.top, lo.labels, syms);
      AssignFull(w, lo, C.Gen(x, lo.top, lo.labels, syms).value, labels);
    case _ =>
      GenFull(e.e, top, labels, syms);
      UnaryFull(e, C.Gen(e.e, top, labels, syms).value, labels);
  }

  lemma LeafFull(e: Expr, top: nat, labels: nat, syms: C.Symbols)
    requires (e.Num? || e.Var?) && C.Gen(e, top, labels, syms).Some?
    ensures var o := C.Gen(e, top, labels, syms).value; Full(o.code, labels, o.labels, {})
  {
    hide Full, C.Find;
    FullAim(C.Gen(e, top, labels, syms).value.code, labels, {});
  }

  lemma StepFull(inc: bool, o: C.Out, labels: nat)
    requires Full(o.code, labels, o.labels, {})
    ensures C.GenPost(inc, o).Some? ==>
              Full(C.GenPost(inc, o).value.code, labels, o.labels, {}) && C.GenPost(inc, o).value.labels == o.labels
    ensures C.GenPre(inc, o).Some? ==>
              Full(C.GenPre(inc, o).value.code, labels, o.labels, {}) && C.GenPre(inc, o).value.labels == o.labels
  {
    hide Full;
    if C.GenPost(inc, o).Some? {
      var tail := C.GenPost(inc, o).value.code[|o.code|..];
      FullAim(tail, o.labels, {});
      FullJoin(o.code, tail, labels, o.labels, o.labels, {});
      assert C.GenPost(inc, o).value.code == o.code + tail;
    }
    if C.GenPre(inc, o).Some? {
      var tail := C.GenPre(inc, o).value.code[|o.code|..];
      FullAim(tail, o.labels, {});
      FullJoin(o.code, tail, labels, o.labels, o.labels, {});
      assert C.GenPre(inc, o).value.code == o.code + tail;
    }
  }

  lemma UnaryFull(e: Expr, o: C.Out, labels: nat)
    requires Full(o.code, labels, o.labels, {})
    ensures Full(C.GenUnary(e, o).code, labels, C.GenUnary(e, o).labels, {})
  {
    hide Full, C.AsValue;
    ValueFull(o, labels);
    var v := C.AsValue(o);
    var tail := C.GenUnary(e, o).code[|v.code|..];
    FullAim(tail, o.labels, {});
    FullJoin(v.code, tail, labels, o.labels, o.labels, {});
    assert C.GenUnary(e, o).code == v.code + tail;
  }

  lemma BinFull(op: CSyntax.BinOp, left: C.Out, right: C.Out, labels: nat)
    requires Full(left.code, labels, left.labels, {}) && Full(right.code, left.labels, right.labels, {})
    requires C.GenBin(op, left, right).Some?
    ensures var o := C.GenBin(op, left, right).value; Full(o.code, labels, o.labels, {})
  {
    hide Full, C.Combine;
    FullJoin(left.code, right.code, labels, left.labels, right.labels, {});
    var both := left.code + right.code;
    if op == Mod {
      var tail := C.Modulo(left.r, right.r, C.TEMP_BASE + right.top);
      FullAim(tail, right.labels, {});
      FullJoin(both, tail, labels, right.labels, right.labels, {});
    } else {
      CombineAims(op, left.r, right.r, right.labels);
      FullJoin(both, C.Combine(op, left.r, right.r), labels, right.labels, right.labels, {});
    }
  }

  lemma AssignFull(w: Option<CSyntax.BinOp>, lo: C.Out, xo: C.Out, labels: nat)
    requires Full(lo.code, labels, lo.labels, {}) && Full(xo.code, lo.labels, xo.labels, {})
    requires C.GenAssign(w, lo, xo).Some?
    ensures var o := C.GenAssign(w, lo, xo).value; Full(o.code, labels, o.labels, {})
  {
    hide Full;
    FullJoin(lo.code, xo.code, labels, lo.labels, xo.labels, {});
    var o, both := C.GenAssign(w, lo, xo).value, lo.code + xo.code;
    var tail := o.code[|both|..];
    FullAim(tail, xo.labels, {});
    FullJoin(both, tail, labels, xo.labels, xo.labels, {});
    assert o.code == both + tail;
  }

  lemma CondFull(co: C.Out, ao: C.Out, bo: C.Out, labels: nat)
    requires Full(co.code, labels, co.labels, {}) && Full(ao.code, co.labels + 2, ao.labels, {})
    requires Full(bo.code, ao.labels, bo.labels, {}) && C.Alloc(C.FreeOne(co.top)).Some?
    ensures var o := C.GenCond(co, ao, bo); Full(o.code, labels, o.labels, {})
  {
    hide Full, Issued, Aims, Defines;
    var l := co.labels;
    var result := C.GenCond(co, ao, bo).r;
    var jz, mid, last := [JumpZ(co.r, C.L(l))], [RR(ADD, result, ao.r, 0), Jump(C.L(l + 1)), LabelDef(C.L(l))],
                         [RR(ADD, result, bo.r, 0), LabelDef(C.L(l + 1))];
    var all := jz + ao.code + mid + bo.code + last;
    CondPieces(l, co, ao, bo, result);
    assert mid[2] == LabelDef(C.L(l)) && last[1] == LabelDef(C.L(l + 1));
    DefinesIn(jz + ao.code, mid, bo.code + last, l);
    DefinesIn(jz + ao.code + mid + bo.code, last, [], l + 1);
    assert all == jz + ao.code + mid + (bo.code + last) && all == jz + ao.code + mid + bo.code + last + [];
    FullClose(all, l, 2, bo.labels, {});
    FullJoin(co.code, all, labels, l, bo.labels, {});
    assert C.GenCond(co, ao, bo).code == co.code + all;
  }

  lemma CondPieces(l: nat, co: C.Out, ao: C.Out, bo: C.Out, result: RegIx)
    requires Full(ao.code, l + 2, ao.labels, {}) && Full(bo.code, ao.labels, bo.labels, {})
    ensures Full([JumpZ(co.r, C.L(l))] + ao.code + [RR(ADD, result, ao.r, 0), Jump(C.L(l + 1)), LabelDef(C.L(l))]
                 + bo.code + [RR(ADD, result, bo.r, 0), LabelDef(C.L(l + 1))], l + 2, bo.labels, {} + Issued(l, l + 2))
  {
    hide Full, Issued, Aims;
    var two := {} + Issued(l, l + 2);
    var jz, mid, last := [JumpZ(co.r, C.L(l))], [RR(ADD, result, ao.r, 0), Jump(C.L(l + 1)), LabelDef(C.L(l))],
                         [RR(ADD, result, bo.r, 0), LabelDef(C.L(l + 1))];
    InTwo(l, two);
    AimsHere(jz, two);
    AimsHere(mid, two);
    AimsHere(last, two);
    FullAim(jz, l + 2, two);
    FullAim(mid, ao.labels, two);
    FullAim(last, bo.labels, two);
    FullWiden(ao.code, l + 2, ao.labels, {}, two);
    FullWiden(bo.code, ao.labels, bo.labels, {}, two);
    FullJoin4(jz, ao.code, mid, bo.code, [l + 2, l + 2, ao.labels, ao.labels, bo.labels], two);
    FullJoin(jz + ao.code + mid + bo.code, last, l + 2, bo.labels, bo.labels, two);
  }

  lemma InTwo(l: nat, two: set<nat>)
    requires Issued(l, l + 2) <= two
    ensures l in two && l + 1 in two
  {
    assert l in Issued(l, l + 2) && l + 1 in Issued(l, l + 2);
  }

  /** Lines whose branches, if any, are to labels of `open`. */
  lemma AimsHere(a: seq<Line>, open: set<nat>)
    requires forall k :: 0 <= k < |a| ==>
               Target(a[k]).None?
               || ((a[k].Jump? || a[k].JumpZ?) && a[k].name == C.L(a[k].name.a) && a[k].name.a in open)
    ensures forall k :: 0 <= k < |a| ==> Aims(a[k], open)
  {
  }

  // ----- statements -----

  lemma {:induction false} ListFull(es: seq<Expr>, labels: nat, syms: C.Symbols)
    requires GenList(es, labels, syms).Some?
    ensures var q := GenList(es, labels, syms).value; Full(q.1.code, labels, q.1.labels, {})
    decreases |es|
  {
    if es == [] {
      FullAim([], labels, {});
    } else {
      hide Full, C.Gen;
      GenFull(es[0], 0, labels, syms);
      var o := C.Gen(es[0], 0, labels, syms).value;
      if |es| > 1 {
        ListFull(es[1..], o.labels, syms);
        var q := GenList(es[1..], o.labels, syms).value;
        FullJoin(o.code, q.1.code, labels, o.labels, q.1.labels, {});
      }
    }
  }

  lemma ItemFull(i: Item, sc: Scope, labels: nat)
    requires GenItem(i, sc, labels).Some?
    ensures var q := GenItem(i, sc, labels).value; Full(q.code, labels, q.labels, {})
  {
    hide Full, C.Gen;
    if i.init.None? {
      FullAim([], labels, {});
    } else {
      GenFull(i.init.value, 0, labels, Declare(sc, i.x).syms);
      var x := C.Gen(i.init.value, 0, labels, Declare(sc, i.x).syms).value;
      FullAim([RI(STORE, x.r, C.FP, sc.next)], x.labels, {});
      FullJoin(x.code, [RI(STORE, x.r, C.FP, sc.next)], labels, x.labels, x.labels, {});
    }
  }

  lemma {:induction false} ItemsFull(items: seq<Item>, sc: Scope, labels: nat)
    requires GenItems(items, sc, labels).Some?
    ensures var q := GenItems(items, sc, labels).value; Full(q.code, labels, q.labels, {})
    decreases |items|
  {
    hide Full, GenItem;
    if items == [] {
      FullAim([], labels, {});
    } else {
      ItemFull(items[0], sc, labels);
      var o := GenItem(items[0], sc, labels).value;
      ItemsFull(items[1..], Declare(sc, items[0].x), o.labels);
      var q := GenItems(items[1..], Declare(sc, items[0].x), o.labels).value;
      FullJoin(o.code, q.code, labels, o.labels, q.labels, {});
    }
  }

  lemma InitFull(i: Init, sc: Scope, labels: nat)
    requires GenInit(i, sc, labels).Some?
    ensures var q := GenInit(i, sc, labels).value; Full(q.code, labels, q.labels, {})
  {
    hide Full;
    match i
    case Decls(items) => ItemsFull(items, sc, labels);
    case Exprs(es) => ListFull(es, labels, sc.syms);
  }

  lemma TestFull(c: Option<Expr>, end: nat, labels: nat, syms: C.Symbols)
    requires GenTest(c, end, labels, syms).Some?
    ensures var q := GenTest(c, end, labels, syms).value; Full(q.code, labels, q.labels, {end})
  {
    hide Full, C.Gen;
    if c.None? {
      FullAim([], labels, {end});
    } else {
      GenFull(c.value, 0, labels, syms);
      var o := C.Gen(c.value, 0, labels, syms).value;
      FullWiden(o.code, labels, o.labels, {}, {end});
      FullAim([JumpZ(o.r, C.L(end))], o.labels, {end});
      FullJoin(o.code, [JumpZ(o.r, C.L(end))], labels, o.labels, o.labels, {end});
    }
  }

  /** The labels a statement may branch to besides its own. */
  function Outside(tg: Targets): set<nat> {
    {tg.end} + (if tg.brk.Some? then {tg.brk.value} else {}) + (if tg.cont.Some? then {tg.cont.value} else {})
  }

  lemma {:induction false} StmtFull(s: Stmt, sc: Scope, labels: nat, tg: Targets)
    requires GenStmt(s, sc, labels, tg).Some?
    ensures var q := GenStmt(s, sc, labels, tg).value; Full(q.code, labels, q.labels, Outside(tg))
    decreases s, 0
  {
    hide Full, C.Gen, GenIf, GenWhile, GenFor, StmtScope, InitScope, GenList, GenInit, GenTest, GenItems;
    var q, out := GenStmt(s, sc, labels, tg).value, Outside(tg);
    match s
    case Skip => FullAim([], labels, out);
    case Block(b) => BodyFull(b, sc, labels, tg);
    case Decl(items) => ItemsFull(items, sc, labels); FullWiden(q.code, labels, q.labels, {}, out);
    case Return(es) => ReturnFull(es, sc, labels, tg);
    case If(c, t) =>
      GenFull(c, 0, labels + 2, sc.syms);
      var co := C.Gen(c, 0, labels + 2, sc.syms).value;
      StmtFull(t, sc, co.labels, tg);
      var to := GenStmt(t, sc, co.labels, tg).value;
      FullAim([], to.labels, out);
      IfFull(labels, co, to, Out(to.labels, []), out);
    case IfElse(c, t, e) =>
      GenFull(c, 0, labels + 2, sc.syms);
      var co := C.Gen(c, 0, labels + 2, sc.syms).value;
      StmtFull(t, sc, co.labels, tg);
      var to := GenStmt(t, sc, co.labels, tg).value;
      StmtFull(e, StmtScope(t, sc), to.labels, tg);
      IfFull(labels, co, to, GenStmt(e, StmtScope(t, sc), to.labels, tg).value, out);
    case While(c, b) =>
      GenFull(c, 0, labels + 2, sc.syms);
      var co := C.Gen(c, 0, labels + 2, sc.syms).value;
      var tg1 := Targets(Some(labels + 1), Some(labels), tg.end);
      StmtFull(b, sc, co.labels, tg1);
      WhileFull(labels, co, GenStmt(b, sc, co.labels, tg1).value, tg);
    case For(i, c, e, b) =>
      var sc1 := InitScope(i, sc);
      InitFull(i, sc, labels + 4);
      var io := GenInit(i, sc, labels + 4).value;
      TestFull(c, labels + 3, io.labels, sc1.syms);
      var co := GenTest(c, labels + 3, io.labels, sc1.syms).value;
      ListFull(e, co.labels, sc1.syms);
      var so := GenList(e, co.labels, sc1.syms).value.1;
      var tg1 := Targets(Some(labels + 3), Some(labels + 2), tg.end);
      StmtFull(b, sc1, so.labels, tg1);
      ForFull(labels, io, co, so, GenStmt(b, sc1, so.labels, tg1).value, tg);
    case Break => FullAim(q.code, labels, out);
    case Continue => FullAim(q.code, labels, out);
    case Do(e) =>
      GenFull(e, 0, labels, sc.syms);
      FullWiden(q.code, labels, q.labels, {}, out);
  }

  lemma {:induction false} BodyFull(b: seq<Stmt>, sc: Scope, labels: nat, tg: Targets)
    requires GenBody(b, sc, labels, tg).Some?
    ensures var q := GenBody(b, sc, labels, tg).value; Full(q.code, labels, q.labels, Outside(tg))
    decreases b, 1
  {
    hide Full, StmtScope, GenStmt, Outside;
    if b == [] {
      FullAim([], labels, Outside(tg));
    } else {
      StmtFull(b[0], sc, labels, tg);
      var o := GenStmt(b[0], sc, labels, tg).value;
      BodyFull(b[1..], StmtScope(b[0], sc), o.labels, tg);
      var q := GenBody(b[1..], StmtScope(b[0], sc), o.labels, tg).value;
      FullJoin(o.code, q.code, labels, o.labels, q.labels, Outside(tg));
    }
  }

  lemma ReturnFull(es: seq<Expr>, sc: Scope, labels: nat, tg: Targets)
    requires GenStmt(Stmt.Return(es), sc, labels, tg).Some?
    ensures var q := GenStmt(Stmt.Return(es), sc, labels, tg).value; Full(q.code, labels, q.labels, Outside(tg))
  {
    hide Full, GenList;
    ListFull(es, labels, sc.syms);
    var q := GenStmt(Stmt.Return(es), sc, labels, tg).value;
    var o := GenList(es, labels, sc.syms).value.1;
    var tail := q.code[|o.code|..];
    FullWiden(o.code, labels, o.labels, {}, Outside(tg));
    FullAim(tail, o.labels, Outside(tg));
    FullJoin(o.code, tail, labels, o.labels, o.labels, Outside(tg));
    assert q.code == o.code + tail;
  }

  lemma IfFull(l: nat, co: C.Out, to: Out, eo: Out, out: set<nat>)
    requires Full(co.code, l + 2, co.labels, {}) && Full(to.code, co.labels, to.labels, out)
    requires Full(eo.code, to.labels, eo.labels, out)
    ensures Full(GenIf(l, co, to, eo).code, l, eo.labels, out) && GenIf(l, co, to, eo).labels == eo.labels
  {
    hide Full, Issued, Aims;
    var two := out + Issued(l, l + 2);
    InTwo(l, two);
    var jz, mid, last := [JumpZ(co.r, C.L(l))], [Jump(C.L(l + 1)), LabelDef(C.L(l))], [LabelDef(C.L(l + 1))];
    AimsHere(jz, two);
    AimsHere(mid, two);
    AimsHere(last, two);
    FullAim(jz, co.labels, two);
    FullAim(mid, to.labels, two);
    FullAim(last, eo.labels, two);
    FullWiden(co.code, l + 2, co.labels, {}, two);
    FullWiden(to.code, co.labels, to.labels, out, two);
    FullWiden(eo.code, to.labels, eo.labels, out, two);
    FullJoin(co.code, jz, l + 2, co.labels, co.labels, two);
    var c1 := co.code + jz;
    FullJoin(c1, to.code, l + 2, co.labels, to.labels, two);
    FullJoin(c1 + to.code, mid, l + 2, to.labels, to.labels, two);
    FullJoin(c1 + to.code + mid, eo.code, l + 2, to.labels, eo.labels, two);
    FullJoin(c1 + to.code + mid + eo.code, last, l + 2, eo.labels, eo.labels, two);
    var all := c1 + to.code + mid + eo.code + last;
    assert mid[1] == LabelDef(C.L(l)) && last[0] == LabelDef(C.L(l + 1));
    DefinesIn(c1 + to.code, mid, eo.code + last, l);
    DefinesIn(c1 + to.code + mid + eo.code, last, [], l + 1);
    assert all == c1 + to.code + mid + (eo.code + last) && all == c1 + to.code + mid + eo.code + last + [];
    FullClose(all, l, 2, eo.labels, out);
  }

  lemma WhileFull(l: nat, co: C.Out, bo: Out, tg: Targets)
    requires Full(co.code, l + 2, co.labels, {})
    requires Full(bo.code, co.labels, bo.labels, Outside(Targets(Some(l + 1), Some(l), tg.end)))
    ensures Full(GenWhile(l, co, bo).code, l, bo.labels, Outside(tg)) && GenWhile(l, co, bo).labels == bo.labels
  {
    hide Full, Issued, Aims;
    var out := Outside(tg);
    var two := out + Issued(l, l + 2);
    InTwo(l, two);
    var top, jz, last := [LabelDef(C.L(l))], [JumpZ(co.r, C.L(l + 1))], [Jump(C.L(l)), LabelDef(C.L(l + 1))];
    AimsHere(top, two);
    AimsHere(jz, two);
    AimsHere(last, two);
    FullAim(top, l + 2, two);
    FullAim(jz, co.labels, two);
    FullAim(last, bo.labels, two);
    FullWiden(co.code, l + 2, co.labels, {}, two);
    FullWiden(bo.code, co.labels, bo.labels, Outside(Targets(Some(l + 1), Some(l), tg.end)), two);
    FullJoin(top, co.code, l + 2, l + 2, co.labels, two);
    FullJoin(top + co.code, jz, l + 2, co.labels, co.labels, two);
    FullJoin(top + co.code + jz, bo.code, l + 2, co.labels, bo.labels, two);
    FullJoin(top + co.code + jz + bo.code, last, l + 2, bo.labels, bo.labels, two);
    var all := top + co.code + jz + bo.code + last;
    assert top[0] == LabelDef(C.L(l)) && last[1] == LabelDef(C.L(l + 1));
    DefinesIn([], top, co.code + jz + bo.code + last, l);
    DefinesIn(top + co.code + jz + bo.code, last, [], l + 1);
    assert all == [] + top + (co.code + jz + bo.code + last) && all == top + co.code + jz + bo.code + last + [];
    FullClose(all, l, 2, bo.labels, out);
  }

  lemma InFour(l: nat, four: set<nat>)
    requires Issued(l, l + 4) <= four
    ensures l in four && l + 1 in four && l + 2 in four && l + 3 in four
  {
    assert l in Issued(l, l + 4) && l + 1 in Issued(l, l + 4);
    assert l + 2 in Issued(l, l + 4) && l + 3 in Issued(l, l + 4);
  }

  lemma ForFull(l: nat, io: Out, co: Out, so: Out, bo: Out, tg: Targets)
    requires Full(io.code, l + 4, io.labels, {}) && Full(co.code, io.labels, co.labels, {l + 3})
    requires Full(so.code, co.labels, so.labels, {})
    requires Full(bo.code, so.labels, bo.labels, Outside(Targets(Some(l + 3), Some(l + 2), tg.end)))
    ensures Full(GenFor(l, io, co, so, bo).code, l, bo.labels, Outside(tg))
    ensures GenFor(l, io, co, so, bo).labels == bo.labels
  {
    hide Full, Issued, Aims, Defines;
    ForPieces(l, io, co, so, bo, tg);
    ForDefines(l, io, co, so, bo);
    forall n | l <= n < l + 4 ensures Defines(GenFor(l, io, co, so, bo).code, C.L(n)) {
      if n == l {} else if n == l + 1 {} else if n == l + 2 {} else { assert n == l + 3; }
    }
    FullClose(GenFor(l, io, co, so, bo).code, l, 4, bo.labels, Outside(tg));
  }

  lemma ForPieces(l: nat, io: Out, co: Out, so: Out, bo: Out, tg: Targets)
    requires Full(io.code, l + 4, io.labels, {}) && Full(co.code, io.labels, co.labels, {l + 3})
    requires Full(so.code, co.labels, so.labels, {})
    requires Full(bo.code, so.labels, bo.labels, Outside(Targets(Some(l + 3), Some(l + 2), tg.end)))
    ensures Full(GenFor(l, io, co, so, bo).code, l + 4, bo.labels, Outside(tg) + Issued(l, l + 4))
  {
    hide Full, Issued, Aims;
    var four := Outside(tg) + Issued(l, l + 4);
    InFour(l, four);
    var top := [LabelDef(C.L(l))];
    var j1, j2, j3 := [Jump(C.L(l + 1)), LabelDef(C.L(l + 2))], [Jump(C.L(l)), LabelDef(C.L(l + 1))],
                      [Jump(C.L(l + 2)), LabelDef(C.L(l + 3))];
    ForJumps(l, top, j1, j2, j3, four);
    FullAim(top, io.labels, four);
    FullAim(j1, co.labels, four);
    FullAim(j2, so.labels, four);
    FullAim(j3, bo.labels, four);
    FullWiden(io.code, l + 4, io.labels, {}, four);
    FullWiden(co.code, io.labels, co.labels, {l + 3}, four);
    FullWiden(so.code, co.labels, so.labels, {}, four);
    FullWiden(bo.code, so.labels, bo.labels, Outside(Targets(Some(l + 3), Some(l + 2), tg.end)), four);
    FullJoin4(io.code, top, co.code, j1, [l + 4, io.labels, io.labels, co.labels, co.labels], four);
    FullJoin4(so.code, j2, bo.code, j3, [co.labels, so.labels, so.labels, bo.labels, bo.labels], four);
    var c1, c2 := io.code + top + co.code + j1, so.code + j2 + bo.code + j3;
    FullJoin(c1, c2, l + 4, co.labels, bo.labels, four);
    assert GenFor(l, io, co, so, bo).code == c1 + c2;
  }

  lemma ForJumps(l: nat, top: seq<Line>, j1: seq<Line>, j2: seq<Line>, j3: seq<Line>, open: set<nat>)
    requires top == [LabelDef(C.L(l))] && j1 == [Jump(C.L(l + 1)), LabelDef(C.L(l + 2))]
    requires j2 == [Jump(C.L(l)), LabelDef(C.L(l + 1))] && j3 == [Jump(C.L(l + 2)), LabelDef(C.L(l + 3))]
    requires l in open && l + 1 in open && l + 2 in open
    ensures forall k :: 0 <= k < 1 ==> Aims(top[k], open)
    ensures forall k :: 0 <= k < 2 ==> Aims(j1[k], open) && Aims(j2[k], open) && Aims(j3[k], open)
  {
  }

  lemma ForDefines(l: nat, io: Out, co: Out, so: Out, bo: Out)
    ensures var code := GenFor(l, io, co, so, bo).code;
            Defines(code, C.L(l)) && Defines(code, C.L(l + 1)) && Defines(code, C.L(l + 2)) && Defines(code, C.L(l + 3))
  {
    hide Defines;
    var code := GenFor(l, io, co, so, bo).code;
    DefinesAt(code, |io.code|, l);
    DefinesAt(code, |io.code| + |co.code| + 2, l + 2);
    DefinesAt(code, |io.code| + |co.code| + |so.code| + 4, l + 1);
    DefinesAt(code, |code| - 1, l + 3);
  }

  lemma DefinesAt(a: seq<Line>, k: nat, n: nat)
    requires k < |a| && a[k] == LabelDef(C.L(n))
    ensures Defines(a, C.L(n))
  {
  }

  // ----- a whole function -----

  lemma {:induction false} StoresAim(i: nat, n: nat, open: set<nat>)
    requires i <= n <= C.MAX_ARG_REGS
    ensures forall k :: 0 <= k < |ParamStores(i, n)| ==> Aims(ParamStores(i, n)[k], open)
    decreases n - i
  {
    if i < n { StoresAim(i + 1, n, open); }
  }

  /** A compiled function branches only to labels it defines. */
  lemma FunctionResolved(f: Function, labels: nat)
    requires GenFunction(f, labels).Some?
    ensures Assembler.Resolved(GenFunction(f, labels).value.code)
  {
    hide Full, Issued, GenBody, AddressOf, LineOf, Assembler.Resolved;
    var out := GenFunction(f, labels).value;
    var tg := Targets(None, None, labels);
    BodyFull(f.body, StartScope(f), labels + 1, tg);
    var o := GenBody(f.body, StartScope(f), labels + 1, tg).value;
    var one := {} + Issued(labels, labels + 1);
    OutsideOne(labels, one);
    FullWiden(o.code, labels + 1, o.labels, Outside(tg), one);
    var head, tail := Enter(f) + ParamStores(0, InRegisters(f)), Leave(f, labels);
    StoresAim(0, InRegisters(f), one);
    FullAim(head, labels + 1, one);
    FullAim(tail, o.labels, one);
    FullJoin(head, o.code, labels + 1, labels + 1, o.labels, one);
    FullJoin(head + o.code, tail, labels + 1, o.labels, o.labels, one);
    assert tail[0] == LabelDef(C.L(labels));
    DefinesIn(head + o.code, tail, [], labels);
    assert head + o.code + tail + [] == head + o.code + tail;
    FullClose(head + o.code + tail, labels, 1, o.labels, {});
    assert out.code == head + o.code + tail;
    FullResolved(out.code, labels, o.labels);
  }

  /** Within the assembler's limits on labels and words, a compiled function is accepted. */
  lemma FunctionAccepted(f: Function, labels: nat)
    requires GenFunction(f, labels).Some? && f.name != "_L"
    requires var lines := GenFunction(f, labels).value.code;
             Assembler.LabelCount(lines, |lines|) <= Assembler.MAX_LABELS &&
             AddressOf(lines, |lines|) <= Assembler.MAX_INSNS
    ensures Assembler.Assembled(GenFunction(f, labels).value.code).Some?
  {
    hide GenFunction, AddressOf, Assembler.LabelCount, Assembler.Assembled, Assembler.Resolved, DistinctLabels;
    FunctionDistinct(f, labels);
    FunctionResolved(f, labels);
    Assembler.AssembledExact(GenFunction(f, labels).value.code);
  }

  lemma OutsideOne(labels: nat, one: set<nat>)
    requires Issued(labels, labels + 1) <= one
    ensures Outside(Targets(None, None, labels)) <= one
  {
    assert labels in Issued(labels, labels + 1);
  }

  lemma FullResolved(lines: seq<Line>, lo: nat, hi: nat)
    requires Full(lines, lo, hi, {})
    ensures Assembler.Resolved(lines)
  {
    forall k | 0 <= k < |lines| && Assembler.NeedsLabel(lines[k])
      ensures LineOf(lines, Target(lines[k]).value).Some?
    {
      assert Aims(lines[k], Issued(lo, hi) + {});
      assert Defines(lines, Target(lines[k]).value);
    }
  }
}
