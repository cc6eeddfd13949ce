/** What a C function means in terms of its variables' names.

    The meaning in `CMeaning` and `CStatements` speaks of words of the frame.  Here a variable is a name with a
    value: the newest of a name is the visible one, a block's and a `for` statement's variables end with it, and
    one that was never assigned has no value.  Wherever this meaning is defined, the other agrees with it. */
module CNames {
  import opened Words
  import opened Machine
  import opened CSyntax
  import opened CUses
  import opened CMeaning
  import opened CStatements
  import C = CCode

  /** `v` is None until the variable is assigned. */
  datatype Cell = Cell(x: string, v: Option<Word>)

  /** Newest last. */
  type Vars = seq<Cell>

  /** `Nothing` is a name that is not declared, a variable without a value, or an assignment to no variable. */
  datatype Result = Value(v: Word, vars: Vars) | Division | Nothing

  function Newest(vars: Vars, x: string): (r: Option<nat>)
    ensures r.Some? ==> r.value < |vars| && vars[r.value].x == x && forall j :: r.value < j < |vars| ==> vars[j].x != x
    ensures r.None? ==> forall j :: 0 <= j < |vars| ==> vars[j].x != x
  {
    if vars == [] then None
    else if vars[|vars| - 1].x == x then Some(|vars| - 1)
    else Newest(vars[..|vars| - 1], x)
  }

  function Assigned(l: Expr, v: Word, result: Word, vars: Vars): Result {
    match Place(l)
    case None => Nothing
    case Some(x) =>
      match Newest(vars, x)
      case None => Nothing
      case Some(i) => Value(result, vars[i := Cell(x, Some(v))])
  }

  /** The left side of a plain assignment is not read. */
  function Touched(l: Expr, vars: Vars): Result
    decreases l, 1
  {
    match l
    case Var(x) => if Newest(vars, x).Some? then Value(0, vars) else Nothing
    case Paren(y) => Touched(y, vars)
    case _ => Meant(l, vars)
  }

  function Meant(e: Expr, vars: Vars): Result
    decreases e, 0
  {
    match e
    case Num(n) => Value(n, vars)
    case Var(x) =>
      (match Newest(vars, x)
       case None => Nothing
       case Some(i) => if vars[i].v.Some? then Value(vars[i].v.value, vars) else Nothing)
    case Paren(x) => Meant(x, vars)
    case Post(inc, x) =>
      var w := Meant(x, vars);
      if w.Value? then Assigned(x, Stepped(inc, w.v), w.v, w.vars) else w
    case Pre(inc, x) =>
      var w := Meant(x, vars);
      if w.Value? then Assigned(x, Stepped(inc, w.v), Stepped(inc, w.v), w.vars) else w
    case Neg(x) =>
      var w := Meant(x, vars);
      if w.Value? then Value(Wrap(-(w.v as int)), w.vars) else w
    case Not(x) =>
      var w := Meant(x, vars);
      if w.Value? then Value(Truth(w.v == 0), w.vars) else w
    case Com(x) =>
      var w := Meant(x, vars);
      if w.Value? then Value(TWO_TO_64 - 1 - w.v, w.vars) else w
    case Bin(op, l, r) =>
      var a := Meant(l, vars);
      if !a.Value? then a
      else
        var b := Meant(r, a.vars);
        if !b.Value? then b
        else (match Apply(op, a.v, b.v) case None => Division case Some(v) => Value(v, b.vars))
    case Cond(c, a, b) =>
      var w := Meant(c, vars);
      if !w.Value? then w else if w.v != 0 then Meant(a, w.vars) else Meant(b, w.vars)
    case Assign(with, l, x) =>
      var a := if with.None? then Touched(l, vars) else Meant(l, vars);
      if !a.Value? then a
      else
        var b := Meant(x, a.vars);
        if !b.Value? then b
        else
          match with
          case None => Assigned(l, b.v, b.v, b.vars)
          case Some(op) =>
            match Apply(op, a.v, b.v)
            case None => Division
            case Some(v) => Assigned(l, v, v, b.vars)
  }

  // ----- statements -----

  datatype Ending =
    | Through(vars: Vars) | Left(vars: Vars) | Again(vars: Vars) | Gave(v: Option<Word>, vars: Vars)
    | Faulty | Unclear | Endless

  function Troubled(w: Result): Ending { if w.Division? then Faulty else Unclear }

  /** Variables declared since there were `n` are gone. */
  function Cut(o: Ending, n: nat): Ending {
    match o
    case Through(vs) => Through(if n <= |vs| then vs[..n] else vs)
    case Left(vs) => Left(if n <= |vs| then vs[..n] else vs)
    case Again(vs) => Again(if n <= |vs| then vs[..n] else vs)
    case Gave(v, vs) => Gave(v, if n <= |vs| then vs[..n] else vs)
    case _ => o
  }

  function MeantList(es: seq<Expr>, vars: Vars): Result {
    if es == [] then Value(0, vars)
    else
      var w := Meant(es[0], vars);
      if !w.Value? || |es| == 1 then w else MeantList(es[1..], w.vars)
  }

  /** A variable is visible in its own initializer, without a value. */
  function DoItem(i: Item, vars: Vars): Ending {
    var with := vars + [Cell(i.x, None)];
    match i.init
    case None => Through(with)
    case Some(e) =>
      var w := Meant(e, with);
      if !w.Value? then Troubled(w)
      else if |w.vars| == |vars| + 1 then Through(w.vars[|vars| := Cell(i.x, Some(w.v))]) else Unclear
  }

  function DoItems(items: seq<Item>, vars: Vars): Ending {
    if items == [] then Through(vars)
    else
      match DoItem(items[0], vars)
      case Through(vs) => DoItems(items[1..], vs)
      case o => o
  }

  function DoInit(i: Init, vars: Vars): Ending {
    match i
    case Decls(items) => DoItems(items, vars)
    case Exprs(es) => var w := MeantList(es, vars); if w.Value? then Through(w.vars) else Troubled(w)
  }

  function MeantTest(c: Option<Expr>, vars: Vars): Result {
    match c
    case None => Value(1, vars)
    case Some(e) => Meant(e, vars)
  }

  function DoStmt(s: Stmt, vars: Vars, fuel: nat): Ending
    decreases fuel, s, 1
  {
    match s
    case Skip => Through(vars)
    case Block(b) => Cut(DoBody(b, vars, fuel), |vars|)
    case Decl(items) => DoItems(items, vars)
    case Return(es) =>
      var w := MeantList(es, vars);
      if w.Value? then Gave(if es == [] then None else Some(w.v), w.vars) else Troubled(w)
    case If(c, t) =>
      var w := Meant(c, vars);
      if !w.Value? then Troubled(w) else if w.v != 0 then DoStmt(t, w.vars, fuel) else Through(w.vars)
    case IfElse(c, t, e) =>
      var w := Meant(c, vars);
      if !w.Value? then Troubled(w) else if w.v != 0 then DoStmt(t, w.vars, fuel) else DoStmt(e, w.vars, fuel)
    case While(c, b) =>
      var w := Meant(c, vars);
      if !w.Value? then Troubled(w)
      else if w.v == 0 then Through(w.vars)
      else (
        match Cut(DoStmt(b, w.vars, fuel), |vars|)
        case Through(vs) => if fuel == 0 then Endless else DoStmt(s, vs, fuel - 1)
        case Again(vs) => if fuel == 0 then Endless else DoStmt(s, vs, fuel - 1)
        case Left(vs) => Through(vs)
        case o => o)
    case For(i, _, _, _) =>
      (match DoInit(i, vars)
       case Through(vs) => Cut(DoFor(s, vs, fuel), |vars|)
       case o => Cut(o, |vars|))
    case Break => Left(vars)
    case Continue => Again(vars)
    case Do(e) => var w := Meant(e, vars); if w.Value? then Through(w.vars) else Troubled(w)
  }

  function DoFor(s: Stmt, vars: Vars, fuel: nat): Ending
    requires s.For?
    decreases fuel, s, 0
  {
    var w := MeantTest(s.test, vars);
    if !w.Value? then Troubled(w)
    else if w.v == 0 then Through(w.vars)
    else
      match Cut(DoStmt(s.loop, w.vars, fuel), |vars|)
      case Through(vs) => DoStep(s, vs, fuel)
      case Again(vs) => DoStep(s, vs, fuel)
      case Left(vs) => Through(vs)
      case o => o
  }

  function DoStep(s: Stmt, vars: Vars, fuel: nat): Ending
    requires s.For?
    decreases fuel, s.loop, 2
  {
    var w := MeantList(s.step, vars);
    if !w.Value? then Troubled(w) else if fuel == 0 then Endless else DoFor(s, w.vars, fuel - 1)
  }

  function DoBody(b: seq<Stmt>, vars: Vars, fuel: nat): Ending
    decreases fuel, b, 0
  {
    if b == [] then Through(vars)
    else
      match DoStmt(b[0], vars, fuel)
      case Through(vs) => DoBody(b[1..], vs, fuel)
      case o => o
  }

  // ----- statements of the language -----

  /** In C a declaration is not a statement: it stands in a block or in a `for` header, not alone as an arm or a
      loop's body. */
  predicate Enclosed(s: Stmt)
    decreases s
  {
    match s
    case Decl(_) => false
    case If(_, t) => Enclosed(t)
    case IfElse(_, t, e) => Enclosed(t) && Enclosed(e)
    case While(_, b) => Enclosed(b)
    case _ => true
  }

  predicate Standard(s: Stmt)
    decreases s, 0
  {
    match s
    case Block(b) => StandardBody(b)
    case If(_, t) => Enclosed(t) && Standard(t)
    case IfElse(_, t, e) => Enclosed(t) && Enclosed(e) && Standard(t) && Standard(e)
    case While(_, b) => Enclosed(b) && Standard(b)
    case For(_, _, _, b) => Enclosed(b) && Standard(b)
    case _ => true
  }

  predicate StandardBody(b: seq<Stmt>)
    decreases b, 1
  {
    b == [] || (Standard(b[0]) && StandardBody(b[1..]))
  }

  // ----- names and words -----

  /** The variables are the symbols from entry `b` on: each has a word of its own in the frame, later ones further
      up, and a variable with a value has it there.  The entries below `b` stand for nothing. */
  predicate Placed(syms: C.Symbols, env: Env, vars: Vars, b: nat) {
    |syms| == b + |vars| &&
    (forall i :: 0 <= i < |vars| ==> CellAt(syms[b + i], env, vars[i])) &&
    forall i, j :: b <= i < j < |syms| ==> syms[i].1 < syms[j].1
  }

  predicate CellAt(sym: (string, C.Offset), env: Env, c: Cell) {
    sym.0 == c.x && 2 <= sym.1 < 2 + |env| && (c.v.Some? ==> env[sym.1 - 2] == c.v.value)
  }

  /** The next free word is above those of the variables. */
  predicate Stacked(sc: Scope, b: nat) { forall i :: b <= i < |sc.syms| ==> sc.syms[i].1 < sc.next }

  lemma {:induction false} FindNewest(syms: C.Symbols, env: Env, vars: Vars, b: nat, x: string)
    requires Placed(syms, env, vars, b) && Newest(vars, x).Some?
    ensures C.Find(syms, x) == Some(syms[b + Newest(vars, x).value].1)
    ensures SlotOf(syms, x, env) == Some(syms[b + Newest(vars, x).value].1 - 2)
    decreases |vars|
  {
    var n := |vars| - 1;
    assert CellAt(syms[b + n], env, vars[n]);
    assert CellAt(syms[b + Newest(vars, x).value], env, vars[Newest(vars, x).value]);
    if vars[n].x != x {
      var s2 := syms[..|syms| - 1];
      forall i | 0 <= i < n ensures CellAt(s2[b + i], env, vars[..n][i]) { assert CellAt(syms[b + i], env, vars[i]); }
      FindNewest(s2, env, vars[..n], b, x);
    }
  }

  /** What was found for a result. */
  predicate SameValue(syms: C.Symbols, env: Env, b: nat, w: Value, r: Result) {
    match r
    case Value(v, vs) => w.Ok? && w.v == v && |w.env| == |env| && Placed(syms, w.env, vs, b)
    case Division => w == DivFault
    case Nothing => true
  }

  /** Writing one variable leaves the others alone. */
  lemma WriteOne(syms: C.Symbols, env: Env, vars: Vars, b: nat, i: nat, v: Word)
    requires Placed(syms, env, vars, b) && i < |vars|
    ensures CellAt(syms[b + i], env, vars[i])
    ensures Placed(syms, env[syms[b + i].1 - 2 := v], vars[i := Cell(vars[i].x, Some(v))], b)
  {
    assert CellAt(syms[b + i], env, vars[i]);
    var e2, vs := env[syms[b + i].1 - 2 := v], vars[i := Cell(vars[i].x, Some(v))];
    forall j | 0 <= j < |vs| ensures CellAt(syms[b + j], e2, vs[j]) {
      assert CellAt(syms[b + j], env, vars[j]);
      if j < i { assert syms[b + j].1 < syms[b + i].1; }
      if j > i { assert syms[b + i].1 < syms[b + j].1; }
    }
  }

  lemma AssignedSame(l: Expr, v: Word, result: Word, syms: C.Symbols, env: Env, vars: Vars, b: nat)
    requires Placed(syms, env, vars, b)
    ensures SameValue(syms, env, b, StoreTo(l, v, result, syms, env), Assigned(l, v, result, vars))
  {
    hide Placed;
    if Place(l).Some? && Newest(vars, Place(l).value).Some? {
      FindNewest(syms, env, vars, b, Place(l).value);
      WriteOne(syms, env, vars, b, Newest(vars, Place(l).value).value, v);
    }
  }

  lemma {:induction false} TouchedSame(l: Expr, syms: C.Symbols, env: Env, vars: Vars, b: nat)
    requires Placed(syms, env, vars, b)
    ensures var r, w := Touched(l, vars), Eval(l, syms, env);
            match r
            case Value(_, vs) => w.Ok? && |w.env| == |env| && Placed(syms, w.env, vs, b)
            case Division => w == DivFault
            case Nothing => true
    decreases l, 1
  {
    hide Placed;
    match l
    case Var(x) => if Newest(vars, x).Some? { FindNewest(syms, env, vars, b, x); }
    case Paren(y) => TouchedSame(y, syms, env, vars, b);
    case _ => MeantSame(l, syms, env, vars, b);
  }

  /** Expressions. */
  lemma {:induction false} MeantSame(e: Expr, syms: C.Symbols, env: Env, vars: Vars, b: nat)
    requires Placed(syms, env, vars, b)
    ensures SameValue(syms, env, b, Eval(e, syms, env), Meant(e, vars))
    decreases e, 0
  {
    hide Placed, Apply, StoreTo, Assigned, Touched;
    match e
    case Num(_) =>
    case Var(x) =>
      if Newest(vars, x).Some? {
        FindNewest(syms, env, vars, b, x);
        ValueAt(syms, env, vars, b, Newest(vars, x).value);
      }
    case Paren(x) => MeantSame(x, syms, env, vars, b);
    case Post(inc, x) =>
      MeantSame(x, syms, env, vars, b);
      var w, r := Eval(x, syms, env), Meant(x, vars);
      if r.Value? { AssignedSame(x, Stepped(inc, r.v), r.v, syms, w.env, r.vars, b); }
    case Pre(inc, x) =>
      MeantSame(x, syms, env, vars, b);
      var w, r := Eval(x, syms, env), Meant(x, vars);
      if r.Value? { AssignedSame(x, Stepped(inc, r.v), Stepped(inc, r.v), syms, w.env, r.vars, b); }
    case Neg(x) => MeantSame(x, syms, env, vars, b);
    case Not(x) => MeantSame(x, syms, env, vars, b);
    case Com(x) => MeantSame(x, syms, env, vars, b);
    case Bin(_, l, r) =>
      MeantSame(l, syms, env, vars, b);
      var w, q := Eval(l, syms, env), Meant(l, vars);
      if q.Value? { MeantSame(r, syms, w.env, q.vars, b); }
    case Cond(c, x, y) =>
      MeantSame(c, syms, env, vars, b);
      var w, q := Eval(c, syms, env), Meant(c, vars);
      if q.Value? {
        if q.v != 0 { MeantSame(x, syms, w.env, q.vars, b); } else { MeantSame(y, syms, w.env, q.vars, b); }
      }
    case Assign(with, l, x) =>
      if with.None? { TouchedSame(l, syms, env, vars, b); } else { MeantSame(l, syms, env, vars, b); }
      var w, q := Eval(l, syms, env), if with.None? then Touched(l, vars) else Meant(l, vars);
      if q.Value? {
        MeantSame(x, syms, w.env, q.vars, b);
        var w2, q2 := Eval(x, syms, w.env), Meant(x, q.vars);
        if q2.Value? { AssignBoth(with, l, q.v, w.v, syms, w2.v, w2.env, q2.vars, b); }
      }
  }

  lemma AssignBoth(with: Option<BinOp>, l: Expr, u: Word, v: Word, syms: C.Symbols, x: Word, env: Env, vars: Vars,
                   b: nat)
    requires Placed(syms, env, vars, b) && (with.Some? ==> u == v)
    ensures with.None? ==> SameValue(syms, env, b, StoreTo(l, x, x, syms, env), Assigned(l, x, x, vars))
    ensures with.Some? && Apply(with.value, v, x).Some? ==>
              var y := Apply(with.value, v, x).value;
              SameValue(syms, env, b, StoreTo(l, y, y, syms, env), Assigned(l, y, y, vars))
  {
    hide Placed, Apply, StoreTo, Assigned, SameValue;
    if with.None? {
      AssignedSame(l, x, x, syms, env, vars, b);
    } else if Apply(with.value, v, x).Some? {
      AssignedSame(l, Apply(with.value, v, x).value, Apply(with.value, v, x).value, syms, env, vars, b);
    }
  }

  lemma ValueAt(syms: C.Symbols, env: Env, vars: Vars, b: nat, i: nat)
    requires Placed(syms, env, vars, b) && i < |vars|
    ensures CellAt(syms[b + i], env, vars[i])
  {
  }

  lemma {:induction false} ListSame(es: seq<Expr>, syms: C.Symbols, env: Env, vars: Vars, b: nat)
    requires Placed(syms, env, vars, b)
    ensures SameValue(syms, env, b, EvalList(es, syms, env), MeantList(es, vars))
    decreases |es|
  {
    hide Placed, Eval, Meant;
    if es != [] {
      MeantSame(es[0], syms, env, vars, b);
      var w, r := Eval(es[0], syms, env), Meant(es[0], vars);
      if r.Value? && |es| > 1 { ListSame(es[1..], syms, w.env, r.vars, b); }
    }
  }

  // ----- flows -----

  /** The oldest variables, those of `syms`, are as they should be. */
  predicate Kept(syms: C.Symbols, env: Env, vars: Vars, b: nat) {
    b <= |syms| <= b + |vars| && Placed(syms, env, vars[..|syms| - b], b)
  }

  predicate Ran(o: Flow, q: Ending, before: C.Symbols, after: C.Symbols, b: nat, size: nat) {
    match q
    case Through(vs) => o.Fall? && |o.env| == size && Placed(after, o.env, vs, b)
    case Left(vs) => o.Broke? && |o.env| == size && Kept(before, o.env, vs, b)
    case Again(vs) => o.Continued? && |o.env| == size && Kept(before, o.env, vs, b)
    case Gave(v, vs) => o.Returned? && o.v == v && |o.env| == size && Kept(before, o.env, vs, b)
    case Faulty => o == Undefined
    case Endless => o == Flow.Timeout
    case Unclear => true
  }

  lemma {:induction false} Shorter(s1: C.Symbols, s2: C.Symbols, env: Env, vars: Vars, b: nat)
    requires Kept(s2, env, vars, b) && s1 <= s2 && b <= |s1|
    ensures Kept(s1, env, vars, b)
  {
    var v1, v2 := vars[..|s1| - b], vars[..|s2| - b];
    forall i | 0 <= i < |v1| ensures CellAt(s1[b + i], env, v1[i]) { assert CellAt(s2[b + i], env, v2[i]); }
  }

  lemma AllKept(syms: C.Symbols, env: Env, vars: Vars, b: nat)
    requires Placed(syms, env, vars, b)
    ensures Kept(syms, env, vars, b) && |vars| == |syms| - b
  {
    assert vars[..|syms| - b] == vars;
  }

  lemma RanWider(o: Flow, q: Ending, s1: C.Symbols, s2: C.Symbols, after: C.Symbols, b: nat, size: nat)
    requires Ran(o, q, s2, after, b, size) && s1 <= s2 && b <= |s1|
    ensures Ran(o, q, s1, after, b, size)
  {
    hide Kept, Placed;
    match q
    case Left(vs) => Shorter(s1, s2, o.env, vs, b);
    case Again(vs) => Shorter(s1, s2, o.env, vs, b);
    case Gave(_, vs) => Shorter(s1, s2, o.env, vs, b);
    case _ =>
  }

  /** Leaving a block: what was declared in it is gone. */
  lemma CutRan(o: Flow, q: Ending, before: C.Symbols, inner: C.Symbols, b: nat, size: nat)
    requires Ran(o, q, before, inner, b, size) && before <= inner && b <= |before|
    ensures Ran(o, Cut(q, |before| - b), before, before, b, size)
    ensures var c := Cut(q, |before| - b); c.Again? || c.Left? ==> Placed(before, o.env, c.vars, b)
  {
    hide Placed;
    match q
    case Through(vs) => AllKept(inner, o.env, vs, b); Shorter(before, inner, o.env, vs, b);
    case Left(vs) => assert vs[..|before| - b][..|before| - b] == vs[..|before| - b];
    case Again(vs) => assert vs[..|before| - b][..|before| - b] == vs[..|before| - b];
    case Gave(_, vs) => assert vs[..|before| - b][..|before| - b] == vs[..|before| - b];
    case _ =>
  }

  // ----- scopes -----

  lemma {:induction false} ItemsGrow(items: seq<Item>, sc: Scope, b: nat)
    ensures sc.syms <= ItemsScope(items, sc).syms && (Stacked(sc, b) ==> Stacked(ItemsScope(items, sc), b))
    decreases |items|
  {
    if items != [] { ItemsGrow(items[1..], Declare(sc, items[0].x), b); }
  }

  /** Declarations add names; every other statement of the language leaves them as they were. */
  lemma {:induction false} StmtGrows(s: Stmt, sc: Scope, b: nat)
    requires Standard(s)
    ensures sc.syms <= StmtScope(s, sc).syms && (Enclosed(s) ==> StmtScope(s, sc).syms == sc.syms)
    ensures Stacked(sc, b) ==> Stacked(StmtScope(s, sc), b)
    decreases s
  {
    StmtNext(s, sc);
    match s
    case Decl(items) => ItemsGrow(items, sc, b);
    case If(_, t) => StmtGrows(t, sc, b);
    case IfElse(_, t, e) => StmtGrows(t, sc, b); StmtGrows(e, StmtScope(t, sc), b);
    case While(_, y) => StmtGrows(y, sc, b);
    case _ =>
  }

  lemma {:induction false} BodyGrows(body: seq<Stmt>, sc: Scope, b: nat)
    requires StandardBody(body)
    ensures sc.syms <= BodyScope(body, sc).syms && (Stacked(sc, b) ==> Stacked(BodyScope(body, sc), b))
    decreases |body|
  {
    hide StmtScope, Standard, Stacked;
    if body != [] {
      StmtGrows(body[0], sc, b);
      BodyGrows(body[1..], StmtScope(body[0], sc), b);
    }
  }

  /** A new variable is given a word that no visible one has. */
  lemma Declared(sc: Scope, x: string, v: Option<Word>, env: Env, vars: Vars, b: nat)
    requires Placed(sc.syms, env, vars, b) && Stacked(sc, b) && 2 <= sc.next < 2 + |env| && sc.next < MAX_OFFSET
    requires v.Some? ==> env[sc.next - 2] == v.value
    ensures Placed(Declare(sc, x).syms, env, vars + [Cell(x, v)], b) && Stacked(Declare(sc, x), b)
  {
    var s2, vs := Declare(sc, x).syms, vars + [Cell(x, v)];
    forall i | 0 <= i < |vs| ensures CellAt(s2[b + i], env, vs[i]) {
      if i < |vars| { assert CellAt(sc.syms[b + i], env, vars[i]); }
    }
  }

  /** The frame is large enough for what a scope declares. */
  predicate Roomy(sc: Scope, env: Env) { 2 <= sc.next && sc.next <= 2 + |env| <= MAX_OFFSET }

  lemma ItemSame(i: Item, sc: Scope, env: Env, vars: Vars, b: nat)
    requires Placed(sc.syms, env, vars, b) && Stacked(sc, b) && 2 <= sc.next < 2 + |env| <= MAX_OFFSET
    ensures Ran(ExecItem(i, sc, env), DoItem(i, vars), sc.syms, Declare(sc, i.x).syms, b, |env|)
    ensures Stacked(Declare(sc, i.x), b)
  {
    hide Placed, Eval, Meant, Stacked;
    Declared(sc, i.x, None, env, vars, b);
    if i.init.Some? {
      var with, s2 := vars + [Cell(i.x, None)], Declare(sc, i.x).syms;
      MeantSame(i.init.value, s2, env, with, b);
      var w, r := Eval(i.init.value, s2, env), Meant(i.init.value, with);
      if r.Value? && |r.vars| == |vars| + 1 { InitWritten(sc, i.x, w.env, vars, r.vars, r.v, b); }
    }
  }

  lemma InitWritten(sc: Scope, x: string, env: Env, vars: Vars, vs: Vars, v: Word, b: nat)
    requires 2 <= sc.next < 2 + |env| && sc.next < MAX_OFFSET && |vs| == |vars| + 1
    requires |sc.syms| == b + |vars| && Placed(Declare(sc, x).syms, env, vs, b)
    ensures Placed(Declare(sc, x).syms, env[sc.next - 2 := v], vs[|vars| := Cell(x, Some(v))], b)
  {
    WriteOne(Declare(sc, x).syms, env, vs, b, |vars|, v);
  }

  lemma {:induction false} ItemsSame(items: seq<Item>, sc: Scope, env: Env, vars: Vars, b: nat)
    requires Placed(sc.syms, env, vars, b) && Stacked(sc, b) && 2 <= sc.next && Roomy(ItemsScope(items, sc), env)
    ensures Ran(ExecItems(items, sc, env), DoItems(items, vars), sc.syms, ItemsScope(items, sc).syms, b, |env|)
    decreases |items|
  {
    hide Placed, ExecItem, DoItem, Stacked;
    if items != [] {
      var sc1 := Declare(sc, items[0].x);
      ItemsNext(items[1..], sc1);
      ItemSame(items[0], sc, env, vars, b);
      var o, q := ExecItem(items[0], sc, env), DoItem(items[0], vars);
      if q.Through? {
        ItemsSame(items[1..], sc1, o.env, q.vars, b);
        PlacedSize(sc, env, vars, b);
        RanWider(ExecItems(items[1..], sc1, o.env), DoItems(items[1..], q.vars), sc.syms, sc1.syms,
                 ItemsScope(items, sc).syms, b, |env|);
      }
    }
  }

  lemma PlacedSize(sc: Scope, env: Env, vars: Vars, b: nat)
    requires Placed(sc.syms, env, vars, b)
    ensures b <= |sc.syms| && |vars| == |sc.syms| - b
  {
  }

  lemma InitSame(i: Init, sc: Scope, env: Env, vars: Vars, b: nat)
    requires Placed(sc.syms, env, vars, b) && Stacked(sc, b) && 2 <= sc.next && Roomy(InitScope(i, sc), env)
    ensures Ran(ExecInit(i, sc, env), DoInit(i, vars), sc.syms, InitScope(i, sc).syms, b, |env|)
    ensures sc.syms <= InitScope(i, sc).syms && Stacked(InitScope(i, sc), b)
  {
    hide Placed, ExecItems, DoItems, EvalList, MeantList, Stacked;
    match i
    case Decls(items) =>
      ItemsSame(items, sc, env, vars, b);
      ItemsGrow(items, sc, b);
    case Exprs(es) => ListSame(es, sc.syms, env, vars, b);
  }

  // ----- statements -----

  /** What a statement starts from. */
  predicate Begins(sc: Scope, env: Env, vars: Vars, b: nat) {
    Placed(sc.syms, env, vars, b) && Stacked(sc, b) && 2 <= sc.next
  }

  /** A statement of the language does to the words of the frame what it does to the variables by name. */
  lemma {:induction false} StmtSame(s: Stmt, sc: Scope, env: Env, vars: Vars, b: nat, fuel: nat)
    requires Begins(sc, env, vars, b) && Standard(s) && Roomy(StmtScope(s, sc), env)
    ensures Ran(Exec(s, sc, env, fuel), DoStmt(s, vars, fuel), sc.syms, StmtScope(s, sc).syms, b, |env|)
    decreases fuel, s, 1
  {
    hide Placed, Stacked, Eval, Meant, EvalList, MeantList, ExecItems, DoItems, Kept;
    PlacedSize(sc, env, vars, b);
    match s
    case Skip =>
    case Block(y) =>
      BodySame(y, sc, env, vars, b, fuel);
      BodyGrows(y, sc, b);
      CutRan(ExecBody(y, sc, env, fuel), DoBody(y, vars, fuel), sc.syms, BodyScope(y, sc).syms, b, |env|);
    case Decl(items) => ItemsSame(items, sc, env, vars, b);
    case Return(es) =>
      ListSame(es, sc.syms, env, vars, b);
      var w, r := EvalList(es, sc.syms, env), MeantList(es, vars);
      if r.Value? { AllKept(sc.syms, w.env, r.vars, b); }
    case If(_, _) => IfSame(s, sc, env, vars, b, fuel);
    case IfElse(_, _, _) => IfElseSame(s, sc, env, vars, b, fuel);
    case While(_, _) => WhileSame(s, sc, env, vars, b, fuel);
    case For(_, _, _, _) => ForSame(s, sc, env, vars, b, fuel);
    case Break => AllKept(sc.syms, env, vars, b);
    case Continue => AllKept(sc.syms, env, vars, b);
    case Do(e) => MeantSame(e, sc.syms, env, vars, b);
  }

  lemma {:induction false} IfSame(s: Stmt, sc: Scope, env: Env, vars: Vars, b: nat, fuel: nat)
    requires s.If? && Begins(sc, env, vars, b) && Standard(s) && Roomy(StmtScope(s, sc), env)
    ensures Ran(Exec(s, sc, env, fuel), DoStmt(s, vars, fuel), sc.syms, StmtScope(s, sc).syms, b, |env|)
    decreases fuel, s, 0
  {
    hide Placed, Stacked, Eval, Meant, Kept;
    MeantSame(s.c, sc.syms, env, vars, b);
    var w, r := Eval(s.c, sc.syms, env), Meant(s.c, vars);
    if r.Value? {
      StmtGrows(s.thn, sc, b);
      if r.v != 0 { StmtSame(s.thn, sc, w.env, r.vars, b, fuel); }
    }
  }

  lemma {:induction false} IfElseSame(s: Stmt, sc: Scope, env: Env, vars: Vars, b: nat, fuel: nat)
    requires s.IfElse? && Begins(sc, env, vars, b) && Standard(s) && Roomy(StmtScope(s, sc), env)
    ensures Ran(Exec(s, sc, env, fuel), DoStmt(s, vars, fuel), sc.syms, StmtScope(s, sc).syms, b, |env|)
    decreases fuel, s, 0
  {
    hide Placed, Stacked, Eval, Meant, Kept;
    MeantSame(s.c, sc.syms, env, vars, b);
    var w, r := Eval(s.c, sc.syms, env), Meant(s.c, vars);
    if r.Value? {
      var sc1 := StmtScope(s.thn, sc);
      StmtGrows(s.thn, sc, b);
      StmtGrows(s.els, sc1, b);
      StmtNext(s.thn, sc);
      StmtNext(s.els, sc1);
      if r.v != 0 {
        StmtSame(s.thn, sc, w.env, r.vars, b, fuel);
      } else {
        StmtSame(s.els, sc1, w.env, r.vars, b, fuel);
      }
    }
  }

  lemma {:induction false} WhileSame(s: Stmt, sc: Scope, env: Env, vars: Vars, b: nat, fuel: nat)
    requires s.While? && Begins(sc, env, vars, b) && Standard(s) && Roomy(StmtScope(s, sc), env)
    ensures Ran(Exec(s, sc, env, fuel), DoStmt(s, vars, fuel), sc.syms, StmtScope(s, sc).syms, b, |env|)
    decreases fuel, s, 0
  {
    hide Placed, Stacked, Eval, Meant, Kept;
    MeantSame(s.c, sc.syms, env, vars, b);
    var w, r := Eval(s.c, sc.syms, env), Meant(s.c, vars);
    StmtGrows(s.loop, sc, b);
    if r.Value? && r.v != 0 {
      StmtSame(s.loop, sc, w.env, r.vars, b, fuel);
      var o, q := Exec(s.loop, sc, w.env, fuel), DoStmt(s.loop, r.vars, fuel);
      PlacedSize(sc, env, vars, b);
      CutRan(o, q, sc.syms, sc.syms, b, |env|);
      match Cut(q, |vars|)
      case Through(vs) => if fuel > 0 { StmtSame(s, sc, o.env, vs, b, fuel - 1); }
      case Again(vs) => if fuel > 0 { StmtSame(s, sc, o.env, vs, b, fuel - 1); }
      case _ =>
    }
  }

  lemma {:induction false} ForSame(s: Stmt, sc: Scope, env: Env, vars: Vars, b: nat, fuel: nat)
    requires s.For? && Begins(sc, env, vars, b) && Standard(s) && Roomy(StmtScope(s, sc), env)
    ensures Ran(Exec(s, sc, env, fuel), DoStmt(s, vars, fuel), sc.syms, StmtScope(s, sc).syms, b, |env|)
    decreases fuel, s, 0
  {
    hide Placed, Stacked, ExecInit, DoInit, Kept, InitScope, ExecFor, DoFor;
    var sc1 := InitScope(s.init, sc);
    InitNext(s.init, sc);
    StmtNext(s.loop, sc1);
    InitSame(s.init, sc, env, vars, b);
    PlacedSize(sc, env, vars, b);
    var o, q := ExecInit(s.init, sc, env), DoInit(s.init, vars);
    if q.Through? {
      TurnSame(s, sc1, o.env, q.vars, b, fuel);
      var o2, q2 := ExecFor(s, sc1, o.env, fuel), DoFor(s, q.vars, fuel);
      RanWider(o2, q2, sc.syms, sc1.syms, sc1.syms, b, |env|);
      CutRan(o2, q2, sc.syms, sc1.syms, b, |env|);
    } else {
      CutRan(o, q, sc.syms, sc1.syms, b, |env|);
    }
  }

  lemma InitNext(i: Init, sc: Scope)
    ensures sc.next <= InitScope(i, sc).next
  {
    if i.Decls? { ItemsNext(i.items, sc); }
  }

  lemma {:induction false} TurnSame(s: Stmt, sc: Scope, env: Env, vars: Vars, b: nat, fuel: nat)
    requires s.For? && Begins(sc, env, vars, b) && Standard(s) && Roomy(StmtScope(s.loop, sc), env)
    ensures Ran(ExecFor(s, sc, env, fuel), DoFor(s, vars, fuel), sc.syms, sc.syms, b, |env|)
    decreases fuel, s.loop, 3
  {
    hide Placed, Stacked, EvalTest, MeantTest, Kept;
    TestSame(s.test, sc.syms, env, vars, b);
    var w, r := EvalTest(s.test, sc.syms, env), MeantTest(s.test, vars);
    StmtGrows(s.loop, sc, b);
    if r.Value? && r.v != 0 {
      StmtSame(s.loop, sc, w.env, r.vars, b, fuel);
      var o, q := Exec(s.loop, sc, w.env, fuel), DoStmt(s.loop, r.vars, fuel);
      PlacedSize(sc, env, vars, b);
      CutRan(o, q, sc.syms, sc.syms, b, |env|);
      match Cut(q, |vars|)
      case Through(vs) => StepSame(s, sc, o.env, vs, b, fuel);
      case Again(vs) => StepSame(s, sc, o.env, vs, b, fuel);
      case _ =>
    }
  }

  lemma {:induction false} StepSame(s: Stmt, sc: Scope, env: Env, vars: Vars, b: nat, fuel: nat)
    requires s.For? && Begins(sc, env, vars, b) && Standard(s) && Roomy(StmtScope(s.loop, sc), env)
    ensures Ran(AfterBody(s, sc, env, fuel), DoStep(s, vars, fuel), sc.syms, sc.syms, b, |env|)
    decreases fuel, s.loop, 2
  {
    hide Placed, Stacked, EvalList, MeantList, Kept, ExecFor, DoFor;
    ListSame(s.step, sc.syms, env, vars, b);
    var w, r := EvalList(s.step, sc.syms, env), MeantList(s.step, vars);
    if r.Value? && fuel > 0 { TurnSame(s, sc, w.env, r.vars, b, fuel - 1); }
  }

  lemma TestSame(c: Option<Expr>, syms: C.Symbols, env: Env, vars: Vars, b: nat)
    requires Placed(syms, env, vars, b)
    ensures SameValue(syms, env, b, EvalTest(c, syms, env), MeantTest(c, vars))
  {
    if c.Some? { MeantSame(c.value, syms, env, vars, b); }
  }

  lemma {:induction false} BodySame(body: seq<Stmt>, sc: Scope, env: Env, vars: Vars, b: nat, fuel: nat)
    requires Begins(sc, env, vars, b) && StandardBody(body) && Roomy(BodyScope(body, sc), env)
    ensures Ran(ExecBody(body, sc, env, fuel), DoBody(body, vars, fuel), sc.syms, BodyScope(body, sc).syms, b, |env|)
    decreases fuel, body, 0
  {
    hide Placed, Stacked, Kept, Exec, DoStmt, StmtScope, Standard;
    if body != [] {
      var sc1 := StmtScope(body[0], sc);
      StmtGrows(body[0], sc, b);
      StmtNext(body[0], sc);
      BodyNext(body[1..], sc1);
      StmtSame(body[0], sc, env, vars, b, fuel);
      var o, q := Exec(body[0], sc, env, fuel), DoStmt(body[0], vars, fuel);
      if q.Through? {
        BodySame(body[1..], sc1, o.env, q.vars, b, fuel);
        PlacedSize(sc, env, vars, b);
        RanWider(ExecBody(body[1..], sc1, o.env, fuel), DoBody(body[1..], q.vars, fuel), sc.syms, sc1.syms,
                 BodyScope(body, sc).syms, b, |env|);
      }
    }
  }
}
