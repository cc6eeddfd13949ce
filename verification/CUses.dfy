/** Which registers an expression's code uses, computed from the tree alone, and the condition under
    which every operator still finds its left operand where it was left.

    The condition can fail in two ways.  After `a % b` the compiler still remembers the address of
    `b`; using the remainder as a value then moves it into a temporary that has been given back, and
    whatever is compiled next may overwrite it there.  And a constant too wide for one instruction
    needs a second register, R27 or, when it goes to R27 itself, R26. */
module CUses {
  import opened Machine
  import opened Assembly
  import opened CSyntax
  import C = CCode

  /** The variable an expression stands for as the target of an assignment. */
  function Place(e: Expr): Option<string> {
    match e
    case Var(x) => Some(x)
    case Paren(x) => Place(x)
    case Post(_, x) => Place(x)
    case Pre(_, x) => Place(x)
    case Assign(_, l, _) => Place(l)
    case _ => None
  }

  /** Only variables are assigned to: what the language demands of a program.  (The compiler lets a
      remainder `a % b` through as well and stores into `b`.) */
  predicate Assignable(e: Expr) {
    match e
    case Num(_) => true
    case Var(_) => true
    case Paren(x) => Assignable(x)
    case Post(_, x) => Place(x).Some? && Assignable(x)
    case Pre(_, x) => Place(x).Some? && Assignable(x)
    case Bin(_, l, r) => Assignable(l) && Assignable(r)
    case Cond(c, a, b) => Assignable(c) && Assignable(a) && Assignable(b)
    case Assign(_, l, x) => Place(l).Some? && Assignable(l) && Assignable(x)
    case _ => Assignable(e.e)
  }

  // ----- register use -----

  /** Registers `lo` to `hi`, and R26 or R27 where they are needed as scratch. */
  datatype Span = Span(lo: nat, hi: nat, r26: bool, r27: bool)

  predicate Covers(w: Span, q: nat) { w.lo <= q <= w.hi || (q == 26 && w.r26) || (q == 27 && w.r27) }

  predicate Within(a: Span, b: Span) { b.lo <= a.lo && a.hi <= b.hi && (a.r26 ==> b.r26) && (a.r27 ==> b.r27) }

  function Just(q: nat): Span { Span(q, q, false, false) }

  function Max(a: nat, b: nat): nat { if a > b then a else b }

  /** `a` first, then `b` with its registers from further up. */
  function Join(a: Span, b: Span): Span { Span(a.lo, Max(a.hi, b.hi), a.r26 || b.r26, a.r27 || b.r27) }

  function UpTo(a: Span, hi: nat): Span { a.(hi := Max(a.hi, hi)) }

  /** The register with the value, the temporaries in use afterwards, the register with the remembered
      address, and the registers written. */
  datatype Use = Use(r: nat, top: nat, addr: Option<nat>, w: Span)

  function AsValue(u: Use): Use {
    match u.addr
    case None => u
    case Some(a) => if a == u.r then u.(addr := None) else u.(r := a, top := C.FreeOne(u.top), addr := None)
  }

  function PostUse(u: Use): Use { u.(w := UpTo(u.w, C.TEMP_BASE + u.top + 1)) }

  function BinUse(op: BinOp, left: Use, right: Use): Use {
    var w := Join(left.w, right.w);
    if op == Mod then Use(left.r, C.FreeOne(right.top), right.addr, UpTo(w, C.TEMP_BASE + right.top))
    else Use(left.r, C.FreeOne(right.top), None, w)
  }

  function CondUse(u: Use, v: Use, w: Use): Use {
    var base := C.FreeOne(u.top);
    Use(C.TEMP_BASE + base, base + 1, None, Join(Join(u.w, v.w), w.w).(r27 := true))
  }

  function AssignUse(with: Option<BinOp>, u: Use, v: Use): Use {
    var w := Join(u.w, v.w);
    if with.Some? then Use(C.TEMP_BASE + v.top, v.top + 1, u.addr, UpTo(w, C.TEMP_BASE + v.top))
    else Use(v.r, v.top, u.addr, w)
  }

  function Uses(e: Expr, top: nat): Use
    decreases e
  {
    var first := C.TEMP_BASE + top;
    match e
    case Num(n) =>
      var wide := !Fits11(n);
      Use(first, top + 1, None, Span(first, first, wide && first == 27, wide && first != 27))
    case Var(_) => Use(first + 1, top + 2, Some(first), Span(first, first + 1, false, false))
    case Paren(x) => Uses(x, top)
    case Post(_, x) => PostUse(Uses(x, top))
    case Pre(_, x) => Uses(x, top)
    case Bin(op, l, r) => var left := AsValue(Uses(l, top)); BinUse(op, left, Uses(r, left.top))
    case Cond(c, a, b) =>
      var u := Uses(c, top);
      var base := C.FreeOne(u.top);
      CondUse(u, Uses(a, base + 1), Uses(b, base + 1))
    case Assign(with, l, x) => var u := Uses(l, top); AssignUse(with, u, Uses(x, u.top))
    case _ => AsValue(Uses(e.e, top))
  }

  /** A value in register `r` is still there after code that writes `w`. */
  predicate Kept(r: nat, w: Span) { !Covers(w, r) }

  /** Whether `%` finds a register for the quotient that is neither of its operands. */
  predicate QuotientApart(left: Use, right: Use) {
    var q := C.TEMP_BASE + right.top; q != left.r && q != right.r
  }

  /** Every operator finds its operands intact. */
  predicate Intact(e: Expr, top: nat)
    decreases e
  {
    match e
    case Num(_) => true
    case Var(_) => true
    case Post(_, x) =>
      Intact(x, top) &&
      var u := Uses(x, top); u.r != C.TEMP_BASE + u.top && u.r != C.TEMP_BASE + u.top + 1
    case Bin(op, l, r) =>
      Intact(l, top) &&
      var left := AsValue(Uses(l, top));
      var right := Uses(r, left.top);
      Intact(r, left.top) && Kept(left.r, right.w) && (op == Mod ==> QuotientApart(left, right))
    case Cond(c, a, b) =>
      var base := C.FreeOne(Uses(c, top).top);
      Intact(c, top) && Intact(a, base + 1) && Intact(b, base + 1)
    case Assign(with, l, x) =>
      var u := Uses(l, top);
      Intact(l, top) && Intact(x, u.top) && (with.Some? ==> Kept(u.r, Uses(x, u.top).w))
    case _ => Intact(e.e, top)
  }

  /** An expression at statement level, where no temporary is in use. */
  predicate Tidy(e: Expr) { Assignable(e) && Intact(e, 0) }

  /** At least one temporary is taken, and everything in use has been written. */
  predicate Known(u: Use, top: nat) {
    top + 1 <= u.top && u.w.lo == C.TEMP_BASE + top <= u.r <= u.w.hi && C.TEMP_BASE + u.top <= u.w.hi + 1 &&
    (u.addr.Some? ==> C.TEMP_BASE + top <= u.addr.value <= u.w.hi && top + 2 <= u.top)
  }

  /** A variable's address is in the first temporary taken, its value further up. */
  predicate Addressed(u: Use, top: nat) { u.addr == Some(C.TEMP_BASE + top) && u.r > C.TEMP_BASE + top }

  lemma ValueFacts(u: Use, top: nat)
    requires Known(u, top)
    ensures Known(AsValue(u), top) && AsValue(u).w == u.w && AsValue(u).addr.None?
  {
  }

  lemma BinFacts(op: BinOp, u: Use, v: Use, top: nat)
    requires Known(u, top) && Known(v, u.top)
    ensures Known(BinUse(op, u, v), top) && Within(u.w, BinUse(op, u, v).w) &&
            Within(v.w.(lo := u.w.lo), BinUse(op, u, v).w)
  {
  }

  lemma CondFacts(u: Use, v: Use, w: Use, top: nat)
    requires Known(u, top) && Known(v, C.FreeOne(u.top) + 1) && Known(w, C.FreeOne(u.top) + 1)
    ensures Known(CondUse(u, v, w), top)
  {
  }

  lemma AssignFacts(with: Option<BinOp>, u: Use, v: Use, top: nat)
    requires Known(u, top) && Known(v, u.top)
    ensures Known(AssignUse(with, u, v), top) && (Addressed(u, top) ==> Addressed(AssignUse(with, u, v), top))
  {
  }

  lemma {:induction false} UseFacts(e: Expr, top: nat)
    ensures Known(Uses(e, top), top)
    ensures Place(e).Some? && Assignable(e) ==> Addressed(Uses(e, top), top)
    decreases e
  {
    hide BinUse, CondUse, AssignUse, AsValue;
    match e
    case Num(_) =>
    case Var(_) =>
    case Bin(op, l, r) =>
      hide Known;
      UseFacts(l, top);
      ValueFacts(Uses(l, top), top);
      UseFacts(r, AsValue(Uses(l, top)).top);
      BinFacts(op, AsValue(Uses(l, top)), Uses(r, AsValue(Uses(l, top)).top), top);
    case Cond(c, a, b) =>
      hide Known;
      UseFacts(c, top);
      UseFacts(a, C.FreeOne(Uses(c, top).top) + 1);
      UseFacts(b, C.FreeOne(Uses(c, top).top) + 1);
      CondFacts(Uses(c, top), Uses(a, C.FreeOne(Uses(c, top).top) + 1), Uses(b, C.FreeOne(Uses(c, top).top) + 1), top);
    case Assign(with, l, x) =>
      hide Known;
      UseFacts(l, top);
      UseFacts(x, Uses(l, top).top);
      AssignFacts(with, Uses(l, top), Uses(x, Uses(l, top).top), top);
    case Paren(x) => UseFacts(x, top);
    case Post(_, x) => UseFacts(x, top);
    case Pre(_, x) => UseFacts(x, top);
    case _ =>
      UseFacts(e.e, top);
      ValueFacts(Uses(e.e, top), top);
  }

  /** The emitted code is the one the tree foretells. */
  predicate Foretold(u: Use, o: C.Out) {
    o.r == u.r && o.top == u.top && (o.addr.Some? <==> u.addr.Some?) &&
    (u.addr.Some? ==> o.addr.value == u.addr.value) && u.w.hi <= C.TEMP_TOP
  }

  lemma ValueForetold(u: Use, o: C.Out)
    requires Foretold(u, o)
    ensures Foretold(AsValue(u), C.AsValue(o)) && C.AsValue(o).addr.None? && C.AsValue(o).labels == o.labels
    ensures C.AsValue(o).top == AsValue(u).top && C.AsValue(o).r == AsValue(u).r
  {
  }

  lemma BinForetold(op: BinOp, u: Use, v: Use, left: C.Out, right: C.Out)
    requires Foretold(u, left) && Foretold(v, right) && C.GenBin(op, left, right).Some?
    ensures Foretold(BinUse(op, u, v), C.GenBin(op, left, right).value)
    ensures C.GenBin(op, left, right).value.labels == right.labels
  {
    hide C.Combine, C.Modulo;
  }

  lemma CondForetold(u: Use, v: Use, w: Use, co: C.Out, ao: C.Out, bo: C.Out)
    requires Foretold(u, co) && Foretold(v, ao) && Foretold(w, bo) && C.Alloc(C.FreeOne(co.top)).Some?
    ensures Foretold(CondUse(u, v, w), C.GenCond(co, ao, bo)) && C.GenCond(co, ao, bo).labels == bo.labels
  {
  }

  lemma AssignForetold(with: Option<BinOp>, u: Use, v: Use, lo: C.Out, xo: C.Out)
    requires Foretold(u, lo) && Foretold(v, xo) && C.GenAssign(with, lo, xo).Some?
    ensures Foretold(AssignUse(with, u, v), C.GenAssign(with, lo, xo).value)
    ensures C.GenAssign(with, lo, xo).value.labels == xo.labels
  {
  }

  lemma UnaryForetold(e: Expr, u: Use, o: C.Out)
    requires Foretold(u, o)
    ensures Foretold(AsValue(u), C.GenUnary(e, o)) && C.GenUnary(e, o).labels == o.labels
  {
  }

  lemma {:induction false} GenUses(e: Expr, top: nat, labels: nat, syms: C.Symbols)
    requires C.Gen(e, top, labels, syms).Some?
    ensures var o := C.Gen(e, top, labels, syms).value; Foretold(Uses(e, top), o) && labels <= o.labels
    decreases e
  {
    hide C.Find, C.AsValue, AsValue, C.Variable, C.GenBin, C.GenCond, C.GenAssign, C.GenUnary, BinUse, CondUse,
         AssignUse;
    match e
    case Num(_) =>
    case Var(_) =>
    case Paren(x) => GenUses(x, top, labels, syms);
    case Post(_, x) => GenUses(x, top, labels, syms);
    case Pre(_, x) => GenUses(x, top, labels, syms);
    case Bin(op, l, r) =>
      hide Foretold;
      GenUses(l, top, labels, syms);
      var o := C.Gen(l, top, labels, syms).value;
      ValueForetold(Uses(l, top), o);
      var left := C.AsValue(o);
      GenUses(r, left.top, left.labels, syms);
      BinForetold(op, AsValue(Uses(l, top)), Uses(r, left.top), left, C.Gen(r, left.top, left.labels, syms).value);
    case Cond(c, a, b) =>
      hide Foretold;
      GenUses(c, top, labels, syms);
      var co := C.Gen(c, top, labels, syms).value;
      SameTop(Uses(c, top), co);
      var base := C.FreeOne(co.top);
      GenUses(a, base + 1, co.labels + 2, syms);
      var ao := C.Gen(a, base + 1, co.labels + 2, syms).value;
      GenUses(b, base + 1, ao.labels, syms);
      CondForetold(Uses(c, top), Uses(a, base + 1), Uses(b, base + 1), co, ao,
                   C.Gen(b, base + 1, ao.labels, syms).value);
    case Assign(w, l, x) =>
      hide Foretold;
      GenUses(l, top, labels, syms);
      var lo := C.Gen(l, top, labels, syms).value;
      SameTop(Uses(l, top), lo);
      GenUses(x, lo.top, lo.labels, syms);
      AssignForetold(w, Uses(l, top), Uses(x, lo.top), lo, C.Gen(x, lo.top, lo.labels, syms).value);
    case _ =>
      GenUses(e.e, top, labels, syms);
      UnaryForetold(e, Uses(e.e, top), C.Gen(e.e, top, labels, syms).value);
  }

  lemma SameTop(u: Use, o: C.Out)
    requires Foretold(u, o)
    ensures o.top == u.top && o.r == u.r
  {
  }

  // ----- exactness: the registers foretold are the registers written -----

  /** A line changes register `q` (of the temporaries). */
  predicate LineWrites(line: Line, q: nat) {
    match line
    case Plain(i) => i.op != STORE && q == i.fd
    case LoadImm(rd, v) => q == rd || (!Fits11(v) && q == Temp(rd))
    case Jump(_) => q == 27
    case JumpZ(_, _) => q == 27
    case _ => false
  }

  ghost predicate Hits(code: seq<Line>, q: nat) { exists i :: 0 <= i < |code| && LineWrites(code[i], q) }

  lemma HitsJoin(a: seq<Line>, b: seq<Line>, q: nat)
    ensures Hits(a + b, q) <==> Hits(a, q) || Hits(b, q)
  {
    hide LineWrites;
    if Hits(a, q) {
      var i :| 0 <= i < |a| && LineWrites(a[i], q);
      assert (a + b)[i] == a[i];
    }
    if Hits(b, q) {
      var i :| 0 <= i < |b| && LineWrites(b[i], q);
      assert (a + b)[|a| + i] == b[i];
    }
    if Hits(a + b, q) {
      var i :| 0 <= i < |a + b| && LineWrites((a + b)[i], q);
      if i < |a| { assert LineWrites(a[i], q); } else { assert LineWrites(b[i - |a|], q); }
    }
  }

  lemma HitsOne(line: Line, q: nat)
    ensures Hits([line], q) <==> LineWrites(line, q)
  {
    assert [line][0] == line;
  }

  lemma HitsTwo(x: Line, y: Line, q: nat)
    ensures Hits([x, y], q) <==> LineWrites(x, q) || LineWrites(y, q)
  {
    HitsOne(x, q);
    HitsOne(y, q);
    HitsJoin([x], [y], q);
    assert [x] + [y] == [x, y];
  }

  lemma HitsThree(x: Line, y: Line, z: Line, q: nat)
    ensures Hits([x, y, z], q) <==> LineWrites(x, q) || LineWrites(y, q) || LineWrites(z, q)
  {
    HitsOne(x, q);
    HitsTwo(y, z, q);
    HitsJoin([x], [y, z], q);
    assert [x] + [y, z] == [x, y, z];
  }

  predicate SmallOffsets(syms: C.Symbols) { forall i :: 0 <= i < |syms| ==> Fits11(syms[i].1) }

  lemma {:induction false} FindSmall(syms: C.Symbols, x: string)
    requires SmallOffsets(syms) && C.Find(syms, x).Some?
    ensures Fits11(C.Find(syms, x).value)
    decreases |syms|
  {
    if syms[|syms| - 1].0 != x { FindSmall(syms[..|syms| - 1], x); }
  }

  /** A temporary is changed by a line of the code exactly when the tree says so. */
  lemma {:induction false} HitsExact(e: Expr, top: nat, labels: nat, syms: C.Symbols, q: nat)
    requires C.Gen(e, top, labels, syms).Some? && SmallOffsets(syms) && 5 <= q <= 27
    ensures Hits(C.Gen(e, top, labels, syms).value.code, q) <==> Covers(Uses(e, top).w, q)
    decreases e, 0
  {
    hide C.Find, C.AsValue, AsValue, Hits, LineWrites, C.GenBin, C.GenCond, C.GenAssign, C.GenUnary, C.GenPost,
         C.GenPre, C.Variable, Covers, BinUse, CondUse, AssignUse, PostUse, Known, Foretold;
    match e
    case Num(n) => NumHits(e, top, labels, syms, q);
    case Var(x) => VarHits(e, top, labels, syms, q);
    case Paren(x) => HitsExact(x, top, labels, syms, q);
    case Post(inc, x) =>
      PartHits(x, top, labels, syms, q);
      PostHits(inc, C.Gen(x, top, labels, syms).value, Uses(x, top), top, q);
    case Pre(inc, x) =>
      PartHits(x, top, labels, syms, q);
      PreHits(inc, C.Gen(x, top, labels, syms).value, Uses(x, top), top, q);
    case Bin(op, l, r) =>
      PartHits(l, top, labels, syms, q);
      var o := C.Gen(l, top, labels, syms).value;
      ValueHits(o, Uses(l, top), top, q);
      ValueForetold(Uses(l, top), o);
      ValueFacts(Uses(l, top), top);
      var left := C.AsValue(o);
      PartHits(r, left.top, left.labels, syms, q);
      BinHits(op, left, C.Gen(r, left.top, left.labels, syms).value, AsValue(Uses(l, top)), Uses(r, left.top), top, q);
    case Cond(c, a, b) =>
      PartHits(c, top, labels, syms, q);
      var co := C.Gen(c, top, labels, syms).value;
      SameTop(Uses(c, top), co);
      var base := C.FreeOne(co.top);
      PartHits(a, base + 1, co.labels + 2, syms, q);
      var ao := C.Gen(a, base + 1, co.labels + 2, syms).value;
      PartHits(b, base + 1, ao.labels, syms, q);
      CondHits(co, ao, C.Gen(b, base + 1, ao.labels, syms).value, Uses(c, top), Uses(a, base + 1), Uses(b, base + 1),
               top, q);
    case Assign(w, l, x) =>
      PartHits(l, top, labels, syms, q);
      var lo := C.Gen(l, top, labels, syms).value;
      SameTop(Uses(l, top), lo);
      PartHits(x, lo.top, lo.labels, syms, q);
      AssignHits(w, lo, C.Gen(x, lo.top, lo.labels, syms).value, Uses(l, top), Uses(x, lo.top), top, q);
    case _ =>
      PartHits(e.e, top, labels, syms, q);
      UnaryHits(e, C.Gen(e.e, top, labels, syms).value, Uses(e.e, top), top, q);
      ValueFacts(Uses(e.e, top), top);
  }

  lemma {:induction false} PartHits(e: Expr, top: nat, labels: nat, syms: C.Symbols, q: nat)
    requires C.Gen(e, top, labels, syms).Some? && SmallOffsets(syms) && 5 <= q <= 27
    ensures var o, u := C.Gen(e, top, labels, syms).value, Uses(e, top);
            Foretold(u, o) && Known(u, top) && (Hits(o.code, q) <==> Covers(u.w, q))
    decreases e, 1
  {
    UseFacts(e, top);
    GenUses(e, top, labels, syms);
    HitsExact(e, top, labels, syms, q);
  }

  lemma NumHits(e: Expr, top: nat, labels: nat, syms: C.Symbols, q: nat)
    requires e.Num? && C.Gen(e, top, labels, syms).Some? && 5 <= q <= 27
    ensures Hits(C.Gen(e, top, labels, syms).value.code, q) <==> Covers(Uses(e, top).w, q)
  {
    hide Hits;
    HitsOne(LoadImm(C.TEMP_BASE + top, e.n), q);
  }

  lemma VarHits(e: Expr, top: nat, labels: nat, syms: C.Symbols, q: nat)
    requires e.Var? && C.Gen(e, top, labels, syms).Some? && SmallOffsets(syms) && 5 <= q <= 27
    ensures Hits(C.Gen(e, top, labels, syms).value.code, q) <==> Covers(Uses(e, top).w, q)
  {
    hide Hits, C.Find;
    FindSmall(syms, e.x);
    var a: RegIx, r: RegIx := C.TEMP_BASE + top, C.TEMP_BASE + top + 1;
    HitsThree(LoadImm(28, C.Find(syms, e.x).value), RR(ADD, a, 29, 28), RI(LOAD, r, a, 0), q);
  }

  lemma ValueHits(o: C.Out, u: Use, top: nat, q: nat)
    requires Foretold(u, o) && Known(u, top) && (Hits(o.code, q) <==> Covers(u.w, q))
    ensures Hits(C.AsValue(o).code, q) <==> Covers(u.w, q)
  {
    hide Hits;
    if o.addr.Some? && o.addr.value != o.r {
      HitsOne(RR(ADD, o.addr.value, o.r, 0), q);
      HitsJoin(o.code, [RR(ADD, o.addr.value, o.r, 0)], q);
    }
  }

  lemma PostHits(inc: bool, o: C.Out, u: Use, top: nat, q: nat)
    requires C.GenPost(inc, o).Some? && Foretold(u, o) && Known(u, top) && (Hits(o.code, q) <==> Covers(u.w, q))
    ensures Hits(C.GenPost(inc, o).value.code, q) <==> Covers(PostUse(u).w, q)
  {
    hide Hits;
    var one: RegIx, sum: RegIx := C.TEMP_BASE + o.top, C.TEMP_BASE + o.top + 1;
    var x, y, z := LoadImm(one, 1), RR(C.StepOp(inc), sum, o.r, one), RI(STORE, sum, o.addr.value, 0);
    HitsThree(x, y, z, q);
    HitsJoin(o.code, [x, y, z], q);
  }

  lemma PreHits(inc: bool, o: C.Out, u: Use, top: nat, q: nat)
    requires C.GenPre(inc, o).Some? && Foretold(u, o) && Known(u, top) && (Hits(o.code, q) <==> Covers(u.w, q)) &&
             5 <= q <= 27
    ensures Hits(C.GenPre(inc, o).value.code, q) <==> Covers(u.w, q)
  {
    hide Hits;
    var x, y, z := LoadImm(28, 1), RR(C.StepOp(inc), o.r, o.r, 28), RI(STORE, o.r, o.addr.value, 0);
    HitsThree(x, y, z, q);
    HitsJoin(o.code, [x, y, z], q);
  }

  lemma UnaryHits(e: Expr, o: C.Out, u: Use, top: nat, q: nat)
    requires Foretold(u, o) && Known(u, top) && (Hits(o.code, q) <==> Covers(u.w, q)) && 5 <= q <= 27
    ensures Hits(C.GenUnary(e, o).code, q) <==> Covers(u.w, q)
  {
    hide Hits, C.AsValue, AsValue;
    ValueHits(o, u, top, q);
    ValueForetold(u, o);
    ValueFacts(u, top);
    var v := C.AsValue(o);
    if e.Neg? {
      HitsOne(RR(SUB, v.r, 0, v.r), q);
      HitsJoin(v.code, [RR(SUB, v.r, 0, v.r)], q);
    } else if e.Not? {
      HitsOne(RR(CMPEQ, v.r, v.r, 0), q);
      HitsJoin(v.code, [RR(CMPEQ, v.r, v.r, 0)], q);
    } else {
      HitsTwo(LoadImm(28, -1), RR(XOR, v.r, v.r, 28), q);
      HitsJoin(v.code, [LoadImm(28, -1), RR(XOR, v.r, v.r, 28)], q);
    }
  }

  lemma CombineHits(op: BinOp, l: RegIx, r: RegIx, q: nat)
    ensures Hits(C.Combine(op, l, r), q) <==> q == l || (op == LogAnd && q == r)
  {
    hide Hits;
    match op
    case CmpGt => HitsOne(RR(CMPLT, l, r, l), q);
    case CmpGe => HitsOne(RR(CMPLE, l, r, l), q);
    case LogAnd => HitsThree(RR(CMPNE, l, l, 0), RR(CMPNE, r, r, 0), RR(AND, l, l, r), q);
    case LogOr => HitsTwo(RR(OR, l, l, r), RR(CMPNE, l, l, 0), q);
    case _ => HitsOne(RR(C.OpcodeOf(op), l, l, r), q);
  }

  lemma BinHits(op: BinOp, left: C.Out, right: C.Out, u: Use, v: Use, top: nat, q: nat)
    requires C.GenBin(op, left, right).Some? && Foretold(u, left) && Foretold(v, right) && Known(u, top) &&
             Known(v, left.top)
    requires (Hits(left.code, q) <==> Covers(u.w, q)) && (Hits(right.code, q) <==> Covers(v.w, q))
    ensures Hits(C.GenBin(op, left, right).value.code, q)
       <==> Covers(BinUse(op, u, v).w, q)
  {
    hide Hits, C.Combine, LineWrites;
    HitsJoin(left.code, right.code, q);
    if op == Mod {
      var k: RegIx := C.TEMP_BASE + right.top;
      HitsThree(RR(DIV, k, left.r, right.r), RR(MUL, k, k, right.r), RR(SUB, left.r, left.r, k), q);
      PlainWrites(DIV, k, left.r, right.r, q);
      PlainWrites(MUL, k, k, right.r, q);
      PlainWrites(SUB, left.r, left.r, k, q);
      HitsJoin(left.code + right.code, C.Modulo(left.r, right.r, k), q);
    } else {
      CombineHits(op, left.r, right.r, q);
      HitsJoin(left.code + right.code, C.Combine(op, left.r, right.r), q);
    }
  }

  lemma PlainWrites(op: Opcode, fd: RegIx, fa: RegIx, fb: RegIx, q: nat)
    requires op != STORE
    ensures LineWrites(RR(op, fd, fa, fb), q) <==> q == fd
  {
  }

  lemma CondHits(co: C.Out, ao: C.Out, bo: C.Out, u: Use, v: Use, w: Use, top: nat, q: nat)
    requires Foretold(u, co) && Foretold(v, ao) && Foretold(w, bo) && Known(u, top) && C.Alloc(C.FreeOne(co.top)).Some?
    requires Known(v, C.FreeOne(co.top) + 1) && Known(w, C.FreeOne(co.top) + 1) && 5 <= q <= 27
    requires Hits(co.code, q) <==> Covers(u.w, q)
    requires Hits(ao.code, q) <==> Covers(v.w, q)
    requires Hits(bo.code, q) <==> Covers(w.w, q)
    ensures Hits(C.GenCond(co, ao, bo).code, q) <==> Covers(CondUse(u, v, w).w, q)
  {
    hide Hits, LineWrites;
    var result: RegIx := C.TEMP_BASE + C.FreeOne(co.top);
    var no, end := C.L(co.labels), C.L(co.labels + 1);
    var jz := [JumpZ(co.r, no)];
    var mid := [RR(ADD, result, ao.r, 0), Jump(end), LabelDef(no)];
    var last := [RR(ADD, result, bo.r, 0), LabelDef(end)];
    HitsOne(jz[0], q);
    HitsThree(mid[0], mid[1], mid[2], q);
    HitsTwo(last[0], last[1], q);
    PlainWrites(ADD, result, ao.r, 0, q);
    PlainWrites(ADD, result, bo.r, 0, q);
    assert (LineWrites(jz[0], q) <==> q == 27) && (LineWrites(mid[1], q) <==> q == 27) && !LineWrites(mid[2], q) &&
           !LineWrites(last[1], q) by {
      JumpWrites(co.r, no, end, q);
    }
    HitsJoin(co.code, jz, q);
    HitsJoin(co.code + jz, ao.code, q);
    HitsJoin(co.code + jz + ao.code, mid, q);
    HitsJoin(co.code + jz + ao.code + mid, bo.code, q);
    HitsJoin(co.code + jz + ao.code + mid + bo.code, last, q);
  }

  lemma JumpWrites(r: RegIx, no: Name, end: Name, q: nat)
    ensures (LineWrites(JumpZ(r, no), q) <==> q == 27) && (LineWrites(Jump(end), q) <==> q == 27)
    ensures !LineWrites(LabelDef(no), q) && !LineWrites(LabelDef(end), q)
  {
  }

  lemma AssignHits(w: Option<BinOp>, lo: C.Out, xo: C.Out, u: Use, v: Use, top: nat, q: nat)
    requires C.GenAssign(w, lo, xo).Some? && Foretold(u, lo) && Foretold(v, xo) && Known(u, top) && Known(v, lo.top)
    requires (Hits(lo.code, q) <==> Covers(u.w, q)) && (Hits(xo.code, q) <==> Covers(v.w, q))
    ensures Hits(C.GenAssign(w, lo, xo).value.code, q)
       <==> Covers(AssignUse(w, u, v).w, q)
  {
    hide Hits;
    HitsJoin(lo.code, xo.code, q);
    var o := C.GenAssign(w, lo, xo).value;
    var store := RI(STORE, o.r, lo.addr.value, 0);
    HitsOne(store, q);
    if w.Some? {
      var step := RR(C.OpcodeOf(w.value), o.r, lo.r, xo.r);
      HitsOne(step, q);
      HitsJoin(lo.code + xo.code, [step], q);
      HitsJoin(lo.code + xo.code + [step], [store], q);
      assert o.code == lo.code + xo.code + [step] + [store];
    } else {
      HitsJoin(lo.code + xo.code, [store], q);
      assert lo.code + xo.code + [] + [store] == lo.code + xo.code + [store];
    }
  }
}
