/** Where the emitted code loses an operand, and what it computes then. */
module COperands {
  import opened Words
  import opened Machine
  import opened Assembly
  import opened Runs
  import opened CSyntax
  import opened CUses
  import opened CMeaning
  import opened CExpressions
  import C = CCode
  import E = Expansion

  // ----- the condition, read off the emitted lines -----

  /** In the emitted code no line between an operand and the operator that uses it writes the
      operand's register. */
  ghost predicate Preserved(e: Expr, top: nat, labels: nat, syms: C.Symbols)
    requires C.Gen(e, top, labels, syms).Some?
    decreases e
  {
    match e
    case Num(_) => true
    case Var(_) => true
    case Paren(x) => Preserved(x, top, labels, syms)
    case Post(inc, x) =>
      var o := C.Gen(x, top, labels, syms).value;
      var one, sum := C.TEMP_BASE + o.top, C.TEMP_BASE + o.top + 1;
      Preserved(x, top, labels, syms) && !Hits([LoadImm(one, 1), RR(C.StepOp(inc), sum, o.r, one)], o.r)
    case Pre(_, x) => Preserved(x, top, labels, syms)
    case Bin(op, l, r) =>
      var left := C.AsValue(C.Gen(l, top, labels, syms).value);
      var right := C.Gen(r, left.top, left.labels, syms).value;
      Preserved(l, top, labels, syms) && Preserved(r, left.top, left.labels, syms) && !Hits(right.code, left.r) &&
      (op == Mod ==>
         var q := C.TEMP_BASE + right.top;
         !Hits([RR(DIV, q, left.r, right.r)], right.r) &&
         !Hits([RR(DIV, q, left.r, right.r), RR(MUL, q, q, right.r)], left.r))
    case Cond(c, a, b) =>
      var co := C.Gen(c, top, labels, syms).value;
      var base := C.FreeOne(co.top);
      Preserved(c, top, labels, syms) && Preserved(a, base + 1, co.labels + 2, syms) &&
      Preserved(b, base + 1, C.Gen(a, base + 1, co.labels + 2, syms).value.labels, syms)
    case Assign(with, l, x) =>
      var lo := C.Gen(l, top, labels, syms).value;
      Preserved(l, top, labels, syms) && Preserved(x, lo.top, lo.labels, syms) &&
      (with.Some? ==> !Hits(C.Gen(x, lo.top, lo.labels, syms).value.code, lo.r))
    case _ => Preserved(e.e, top, labels, syms)
  }

  /** The condition on the tree holds exactly when the emitted code loses no operand. */
  lemma {:induction false} IntactExact(e: Expr, top: nat, labels: nat, syms: C.Symbols)
    requires C.Gen(e, top, labels, syms).Some? && SmallOffsets(syms)
    ensures Intact(e, top) <==> Preserved(e, top, labels, syms)
    decreases e
  {
    hide C.Find, C.AsValue, AsValue, Hits, C.GenBin, C.GenCond, C.GenAssign, C.GenUnary, C.GenPost, C.GenPre, Uses,
         Covers, C.Variable, LineWrites;
    match e
    case Num(_) =>
    case Var(_) =>
    case Paren(x) => IntactExact(x, top, labels, syms);
    case Post(inc, x) =>
      IntactExact(x, top, labels, syms);
      GenUses(x, top, labels, syms);
      StepHits(inc, C.Gen(x, top, labels, syms).value);
    case Pre(_, x) => IntactExact(x, top, labels, syms);
    case Bin(op, l, r) =>
      IntactExact(l, top, labels, syms);
      ValueKnown(l, top, labels, syms);
      var left := C.AsValue(C.Gen(l, top, labels, syms).value);
      IntactExact(r, left.top, left.labels, syms);
      GenUses(r, left.top, left.labels, syms);
      HitsExact(r, left.top, left.labels, syms, left.r);
      var right := C.Gen(r, left.top, left.labels, syms).value;
      if op == Mod { QuotientHits(left.r, right.r, QuotientOf(op, left, right)); }
    case Cond(c, a, b) =>
      IntactExact(c, top, labels, syms);
      GenUses(c, top, labels, syms);
      var co := C.Gen(c, top, labels, syms).value;
      var base := C.FreeOne(co.top);
      IntactExact(a, base + 1, co.labels + 2, syms);
      IntactExact(b, base + 1, C.Gen(a, base + 1, co.labels + 2, syms).value.labels, syms);
    case Assign(w, l, x) =>
      IntactExact(l, top, labels, syms);
      GenUses(l, top, labels, syms);
      UseFacts(l, top);
      var lo := C.Gen(l, top, labels, syms).value;
      IntactExact(x, lo.top, lo.labels, syms);
      HitsExact(x, lo.top, lo.labels, syms, lo.r);
    case _ => IntactExact(e.e, top, labels, syms);
  }

  function QuotientOf(op: CSyntax.BinOp, left: C.Out, right: C.Out): RegIx
    requires op == Mod && C.GenBin(op, left, right).Some?
  {
    C.TEMP_BASE + right.top
  }

  lemma StepHits(inc: bool, o: C.Out)
    requires C.GenPost(inc, o).Some?
    ensures var one: RegIx, sum: RegIx := C.TEMP_BASE + o.top, C.TEMP_BASE + o.top + 1;
            Hits([LoadImm(one, 1), RR(C.StepOp(inc), sum, o.r, one)], o.r) <==> o.r == one || o.r == sum
  {
    hide Hits;
    var one: RegIx, sum: RegIx := C.TEMP_BASE + o.top, C.TEMP_BASE + o.top + 1;
    HitsTwo(LoadImm(one, 1), RR(C.StepOp(inc), sum, o.r, one), o.r);
  }

  lemma QuotientHits(l: RegIx, r: RegIx, q: RegIx)
    ensures Hits([RR(DIV, q, l, r)], r) <==> q == r
    ensures Hits([RR(DIV, q, l, r), RR(MUL, q, q, r)], l) <==> q == l
  {
    hide Hits;
    HitsOne(RR(DIV, q, l, r), r);
    HitsTwo(RR(DIV, q, l, r), RR(MUL, q, q, r), l);
  }

  // ----- what is computed when the left operand is lost -----

  /** A binary operator on operands that are themselves sound, about to run. */
  predicate Node(j: Job, lo: C.Out, right: C.Out) {
    j.e.Bin? && Good(j.k) && InFrame(j.syms, j.k.size) && Held(j.k, j.env, j.s) && Assignable(j.e) &&
    C.Gen(j.e, j.top, j.labels, j.syms) == Some(j.o) && CodeAt(j.k.p.lines, j.s.line, j.o.code) &&
    C.Gen(j.e.l, j.top, j.labels, j.syms) == Some(lo) && Intact(j.e.l, j.top) &&
    C.Gen(j.e.r, C.AsValue(lo).top, C.AsValue(lo).labels, j.syms) == Some(right) && Intact(j.e.r, C.AsValue(lo).top)
  }

  /** What the operator finds in the left operand's register: the operand if the right one's code
      does not write there, otherwise something the right operand's code has left, its own value or
      the address of its variable for instance. */
  ghost predicate Found(j: Job, lo: C.Out, right: C.Out, w: Word) {
    j.e.Bin? &&
    var left, a := C.AsValue(lo), Eval(j.e.l, j.syms, j.env);
    a.Ok? && Eval(j.e.r, j.syms, a.env).Ok? &&
    (Kept(left.r, Uses(j.e.r, left.top).w) ==> w == a.v) &&
    (left.r == right.r ==> w == Eval(j.e.r, j.syms, a.env).v) &&
    (Place(j.e.r).Some? && right.addr == Some(left.r) ==>
       C.Find(j.syms, Place(j.e.r).value).Some? && w == j.k.fp + C.Find(j.syms, Place(j.e.r).value).value)
  }

  /** For every operator and any operands: the result is the operator applied to what is found in
      the left operand's register, so it is right exactly when that makes no difference. */
  lemma {:induction false} NodeRuns(j: Job, lo: C.Out, right: C.Out) returns (n: nat, t: State, w: Word)
    requires Node(j, lo, right) && (j.e.op == Mod ==> C.TEMP_BASE + right.top !in {C.AsValue(lo).r, right.r})
    requires var a := Eval(j.e.l, j.syms, j.env); a.Ok? && Eval(j.e.r, j.syms, a.env).Ok?
    ensures Found(j, lo, right, w) && Goes(j.k.p, j.s, n, t)
    ensures var a := Eval(j.e.l, j.syms, j.env);
            var b := Eval(j.e.r, j.syms, a.env).v;
            match Apply(j.e.op, w, b)
            case None => t.mode == Faulted
            case Some(v) =>
              t.mode == Going && t.line == j.s.line + |j.o.code| && t.reg[j.o.r] == v &&
              (Eval(j.e, j.syms, j.env).Ok? ==>
                 (t.reg[j.o.r] == Eval(j.e, j.syms, j.env).v <==> Apply(j.e.op, w, b) == Apply(j.e.op, a.v, b)))
  {
    hide Goes, E.CodeSize, DistinctLabels, InMemory, C.Find, C.Gen, CodeAt, Eval, C.AsValue, AsValue, Apply, C.Combine,
         C.Modulo, Uses, Covers, Within, Intact;
    var left := C.AsValue(lo);
    var lo', right', tail := BinGen(j);
    BinEval(j);
    BinKnown(j, lo, right);
    CodeAtParts(j.k.p.lines, j.s.line, left.code + right.code, tail);
    n, t := OperandsRun(j, lo, right);
    var a := Eval(j.e.l, j.syms, j.env);
    var b := Eval(j.e.r, j.syms, a.env);
    w := t.reg[left.r];
    n, t := BinTail(j, left, right, tail, b.env, t, n, w, b.v);
  }

  /** After a remainder by a variable every further operator loses the remainder, whatever its right
      operand is: the remainder, as a value, is in a register that counts as free. */
  lemma RemainderLost(op: CSyntax.BinOp, x: Expr, y: string, e: Expr, top: nat)
    ensures !Intact(Bin(op, Bin(Mod, x, Var(y)), e), top)
    ensures Intact(Bin(Mod, x, Var(y)), top) ==>
              var m := AsValue(Uses(Bin(Mod, x, Var(y)), top)); m.r == C.TEMP_BASE + m.top
  {
    hide AsValue, Uses;
    UseFacts(x, top);
    ValueFacts(Uses(x, top), top);
    var left := AsValue(Uses(x, top));
    VariableUse(y, left.top);
    RemainderValue(x, y, top);
    var m := AsValue(Uses(Bin(Mod, x, Var(y)), top));
    UseFacts(e, m.top);
  }

  lemma VariableUse(y: string, top: nat)
    ensures Uses(Var(y), top) == Use(C.TEMP_BASE + top + 1, top + 2, Some(C.TEMP_BASE + top),
                                     Span(C.TEMP_BASE + top, C.TEMP_BASE + top + 1, false, false))
  {
  }

  lemma RemainderValue(x: Expr, y: string, top: nat)
    ensures var left, m := AsValue(Uses(x, top)), AsValue(Uses(Bin(Mod, x, Var(y)), top));
            left.r != C.TEMP_BASE + left.top ==> m.r == C.TEMP_BASE + m.top
  {
    var left := AsValue(Uses(x, top));
    assert Uses(Bin(Mod, x, Var(y)), top) == BinUse(Mod, left, Uses(Var(y), left.top));
  }

  /** Using the remainder once, negated or tested, loses nothing, nor does a remainder by a literal. */
  lemma RemainderKept(x: string, y: string, n: Literal, op: CSyntax.BinOp, top: nat)
    requires op != Mod
    ensures var m := Bin(Mod, Var(x), Var(y));
            Intact(Expr.Not(m), top) && Intact(Expr.Neg(m), top) && Intact(Bin(op, Var(x), m), top) &&
            Intact(Cond(m, Var(x), Var(y)), top)
    ensures Fits11(n) ==> Intact(Bin(op, Bin(Mod, Var(x), Num(n)), Var(y)), top)
  {
  }

  /** A quotient register that is the divisor's own: `1 % -(x % y)`. */
  lemma QuotientClash(x: string, y: string, n: Literal, top: nat)
    requires Fits11(n)
    ensures var l, r := Num(n), Expr.Neg(Bin(Mod, Var(x), Var(y)));
            var left := AsValue(Uses(l, top));
            Intact(r, left.top) && Uses(r, left.top).r == C.TEMP_BASE + Uses(r, left.top).top &&
            !Intact(Bin(Mod, l, r), top)
  {
  }

  /** What the three lines of `%` compute when the quotient overwrites the divisor. */
  lemma ClashRuns(k: Frame, env: Env, s: State, l: RegIx, r: RegIx, w: Span) returns (n: nat, t: State)
    requires Held(k, env, s) && Operands(l, r, w) && l != r && CodeAt(k.p.lines, s.line, C.Modulo(l, r, r))
    requires SignedDivisionDefined(s.reg[l], s.reg[r])
    ensures var d := Quotient(s.reg[l], s.reg[r]);
            Reach(k, s, 3, env, w, n, t) && t.reg[l] == Wrap(s.reg[l] - Product(d, d))
  {
    hide Goes, InMemory, Wrap, CodeAt, Apply, Alu, SignedDivisionDefined, Quotient, Product, TruncDiv, Covers;
    CodeAtLine(k.p.lines, s.line, C.Modulo(l, r, r), 0);
    CodeAtLine(k.p.lines, s.line, C.Modulo(l, r, r), 1);
    CodeAtLine(k.p.lines, s.line, C.Modulo(l, r, r), 2);
    DoAlu(k.p, s, DIV, r, l, r);
    ModuloValue(s.reg[l], s.reg[r]);
    var d := Quotient(s.reg[l], s.reg[r]);
    var s1 := After(s, r, d);
    ReachOne(k, env, s, w, s1);
    t := TakeAway(k, env, s1, l, r, r, w);
    WithinSelf(w);
    ReachTrans(k, s, 1, env, w, 1, s1, 2, env, w, 2, t, w);
    n := 3;
  }
}
