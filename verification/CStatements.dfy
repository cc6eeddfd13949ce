/** Statements of the C subset: trees, the recursive descent, the code emitted, and their meaning.

    Declarations take the next word of the frame; leaving a block or a `for` makes its names
    invisible again but does not give their words back. */
module CStatements {
  import opened Words
  import opened Machine
  import opened Assembly
  import opened CSyntax
  import opened CMeaning
  import C = CCode

  datatype Item = Item(x: string, init: Option<Expr>)

  datatype Init = Decls(items: seq<Item>) | Exprs(es: seq<Expr>)

  datatype Stmt =
    | Skip
    | Block(body: seq<Stmt>)
    | Decl(items: seq<Item>)
    | Return(es: seq<Expr>)
    | If(c: Expr, thn: Stmt)
    | IfElse(c: Expr, thn: Stmt, els: Stmt)
    | While(c: Expr, loop: Stmt)
    | For(init: Init, test: Option<Expr>, step: seq<Expr>, loop: Stmt)
    | Break
    | Continue
    | Do(e: Expr)

  // ----- recursive descent -----

  function ParseList(t: seq<Tok>): (r: Option<(seq<Expr>, seq<Tok>)>)
    ensures r.Some? ==> |r.value.1| < |t| && r.value.0 != []
    decreases |t|
  {
    match ParseExpr(t)
    case None => None
    case Some(p) =>
      if !NextIs(p.1, Comma) then Some(([p.0], p.1))
      else
        match ParseList(p.1[1..])
        case None => None
        case Some(q) => Some(([p.0] + q.0, q.1))
  }

  /** The expression list of a `for` header, which may be missing. */
  function ParseForList(t: seq<Tok>): (r: Option<(seq<Expr>, seq<Tok>)>)
    ensures r.Some? ==> |r.value.1| <= |t|
  {
    if NextIs(t, Semi) || NextIs(t, RParen) then Some(([], t)) else ParseList(t)
  }

  function ParseItems(t: seq<Tok>): (r: Option<(seq<Item>, seq<Tok>)>)
    ensures r.Some? ==> |r.value.1| < |t| && r.value.0 != []
    decreases |t|
  {
    match ParseItem(t)
    case None => None
    case Some(p) =>
      if !NextIs(p.1, Comma) then Some(([p.0], p.1))
      else
        match ParseItems(p.1[1..])
        case None => None
        case Some(q) => Some(([p.0] + q.0, q.1))
  }

  function ParseItem(t: seq<Tok>): (r: Option<(Item, seq<Tok>)>)
    ensures r.Some? ==> |r.value.1| < |t|
  {
    if t == [] || !t[0].TId? then None
    else if !NextIs(t[1..], TAssign(None)) then Some((Item(t[0].x, None), t[1..]))
    else
      match ParseExpr(t[2..])
      case None => None
      case Some(p) => Some((Item(t[0].x, Some(p.0)), p.1))
  }

  function Expect(x: Tok, t: seq<Tok>): (r: Option<seq<Tok>>)
    ensures r.Some? ==> |r.value| < |t|
  {
    if NextIs(t, x) then Some(t[1..]) else None
  }

  type StmtResult = Option<(Stmt, seq<Tok>)>

  function ParseStmt(t: seq<Tok>): (r: StmtResult)
    ensures r.Some? ==> |r.value.1| < |t|
    decreases |t|, 0
  {
    if t == [] then None
    else
      match t[0]
      case Semi => Some((Skip, t[1..]))
      case LBrace =>
        (match ParseBody(t[1..])
         case None => None
         case Some(p) => Closed(Block(p.0), Expect(RBrace, p.1)))
      case TKey(KInt) =>
        (match ParseItems(t[1..])
         case None => None
         case Some(p) => Closed(Decl(p.0), Expect(Semi, p.1)))
      case TKey(KReturn) =>
        if NextIs(t[1..], Semi) then Some((Return([]), t[2..]))
        else (
          match ParseList(t[1..])
          case None => None
          case Some(p) => Closed(Return(p.0), Expect(Semi, p.1)))
      case TKey(KBreak) => Closed(Break, Expect(Semi, t[1..]))
      case TKey(KContinue) => Closed(Continue, Expect(Semi, t[1..]))
      case TKey(KIf) => ParseIf(t[1..])
      case TKey(KWhile) => ParseWhile(t[1..])
      case TKey(KFor) => ParseFor(t[1..])
      case _ =>
        match ParseExpr(t)
        case None => None
        case Some(p) => Closed(Do(p.0), Expect(Semi, p.1))
  }

  function Closed(s: Stmt, rest: Option<seq<Tok>>): (r: StmtResult)
    ensures r.Some? <==> rest.Some?
    ensures r.Some? ==> r.value == (s, rest.value)
  {
    match rest
    case None => None
    case Some(t) => Some((s, t))
  }

  /** Statements up to a closing brace or the end of the source. */
  function ParseBody(t: seq<Tok>): (r: Option<(seq<Stmt>, seq<Tok>)>)
    ensures r.Some? ==> |r.value.1| <= |t|
    decreases |t|, 1
  {
    if t == [] || t[0] == RBrace then Some(([], t))
    else
      match ParseStmt(t)
      case None => None
      case Some(p) =>
        match ParseBody(p.1)
        case None => None
        case Some(q) => Some(([p.0] + q.0, q.1))
  }

  /** `( expr )` */
  function ParseGuard(t: seq<Tok>): (r: ExprResult)
    ensures r.Some? ==> |r.value.1| < |t|
  {
    match Expect(LParen, t)
    case None => None
    case Some(u) =>
      match ParseExpr(u)
      case None => None
      case Some(p) =>
        match Expect(RParen, p.1)
        case None => None
        case Some(v) => Some((p.0, v))
  }

  function ParseIf(t: seq<Tok>): (r: StmtResult)
    ensures r.Some? ==> |r.value.1| < |t|
    decreases |t|, 0
  {
    match ParseGuard(t)
    case None => None
    case Some(c) =>
      match ParseStmt(c.1)
      case None => None
      case Some(p) =>
        if !NextIs(p.1, TKey(KElse)) then Some((If(c.0, p.0), p.1))
        else
          match ParseStmt(p.1[1..])
          case None => None
          case Some(q) => Some((IfElse(c.0, p.0, q.0), q.1))
  }

  function ParseWhile(t: seq<Tok>): (r: StmtResult)
    ensures r.Some? ==> |r.value.1| < |t|
    decreases |t|, 0
  {
    match ParseGuard(t)
    case None => None
    case Some(c) =>
      match ParseStmt(c.1)
      case None => None
      case Some(p) => Some((While(c.0, p.0), p.1))
  }

  function ParseInit(t: seq<Tok>): (r: Option<(Init, seq<Tok>)>)
    ensures r.Some? ==> |r.value.1| < |t|
  {
    if NextIs(t, TKey(KInt)) then
      match ParseItems(t[1..])
      case None => None
      case Some(p) => (match Expect(Semi, p.1) case None => None case Some(u) => Some((Decls(p.0), u)))
    else
      match ParseForList(t)
      case None => None
      case Some(p) => (match Expect(Semi, p.1) case None => None case Some(u) => Some((Exprs(p.0), u)))
  }

  function ParseTest(t: seq<Tok>): (r: Option<(Option<Expr>, seq<Tok>)>)
    ensures r.Some? ==> |r.value.1| < |t|
  {
    if NextIs(t, Semi) then Some((None, t[1..]))
    else
      match ParseExpr(t)
      case None => None
      case Some(p) => (match Expect(Semi, p.1) case None => None case Some(u) => Some((Some(p.0), u)))
  }

  function ParseFor(t: seq<Tok>): (r: StmtResult)
    ensures r.Some? ==> |r.value.1| < |t|
    decreases |t|, 0
  {
    match Expect(LParen, t)
    case None => None
    case Some(t1) =>
      match ParseInit(t1)
      case None => None
      case Some(i) =>
        match ParseTest(i.1)
        case None => None
        case Some(c) =>
          match ParseForList(c.1)
          case None => None
          case Some(e) =>
            match Expect(RParen, e.1)
            case None => None
            case Some(t2) =>
              match ParseStmt(t2)
              case None => None
              case Some(b) => Some((For(i.0, c.0, e.0, b.0), b.1))
  }

  // ----- scopes -----

  /** The visible names, and the offset of the next free word of the frame. */
  datatype Scope = Scope(syms: C.Symbols, next: nat)

  const MAX_OFFSET: nat := 0x8000_0000

  function Declare(sc: Scope, x: string): Scope {
    if sc.next < MAX_OFFSET then Scope(sc.syms + [(x, sc.next)], sc.next + 1) else sc.(next := sc.next + 1)
  }

  function ItemsScope(items: seq<Item>, sc: Scope): Scope {
    if items == [] then sc else ItemsScope(items[1..], Declare(sc, items[0].x))
  }

  function InitScope(i: Init, sc: Scope): Scope { if i.Decls? then ItemsScope(i.items, sc) else sc }

  /** What is declared after a statement.  An arm of an `if` or the body of a `while` that is a bare
      declaration stays visible. */
  function StmtScope(s: Stmt, sc: Scope): Scope
    decreases s, 0
  {
    match s
    case Block(b) => Scope(sc.syms, BodyScope(b, sc).next)
    case Decl(items) => ItemsScope(items, sc)
    case If(_, t) => StmtScope(t, sc)
    case IfElse(_, t, e) => StmtScope(e, StmtScope(t, sc))
    case While(_, b) => StmtScope(b, sc)
    case For(i, _, _, b) => Scope(sc.syms, StmtScope(b, InitScope(i, sc)).next)
    case _ => sc
  }

  function BodyScope(b: seq<Stmt>, sc: Scope): Scope
    decreases b, 1
  {
    if b == [] then sc else BodyScope(b[1..], StmtScope(b[0], sc))
  }

  lemma {:induction false} ItemsNext(items: seq<Item>, sc: Scope)
    ensures sc.next <= ItemsScope(items, sc).next
    decreases |items|
  {
    if items != [] { ItemsNext(items[1..], Declare(sc, items[0].x)); }
  }

  lemma {:induction false} StmtNext(s: Stmt, sc: Scope)
    ensures sc.next <= StmtScope(s, sc).next
    decreases s, 0
  {
    match s
    case Block(b) => BodyNext(b, sc);
    case Decl(items) => ItemsNext(items, sc);
    case If(_, t) => StmtNext(t, sc);
    case IfElse(_, t, e) => StmtNext(t, sc); StmtNext(e, StmtScope(t, sc));
    case While(_, b) => StmtNext(b, sc);
    case For(i, _, _, b) =>
      if i.Decls? { ItemsNext(i.items, sc); }
      StmtNext(b, InitScope(i, sc));
    case _ =>
  }

  lemma {:induction false} BodyNext(b: seq<Stmt>, sc: Scope)
    ensures sc.next <= BodyScope(b, sc).next
    decreases b, 1
  {
    if b != [] { StmtNext(b[0], sc); BodyNext(b[1..], StmtScope(b[0], sc)); }
  }

  // ----- code -----

  /** Labels in use and lines emitted. */
  datatype Out = Out(labels: nat, code: seq<Line>)

  /** The labels `break`, `continue` and `return` jump to. */
  datatype Targets = Targets(brk: Option<nat>, cont: Option<nat>, end: nat)

  /** Expressions separated by commas, each from an empty stack of temporaries; the register of the last. */
  function GenList(es: seq<Expr>, labels: nat, syms: C.Symbols): Option<(RegIx, Out)> {
    if es == [] then Some((0, Out(labels, [])))
    else
      match C.Gen(es[0], 0, labels, syms)
      case None => None
      case Some(o) =>
        if |es| == 1 then Some((o.r, Out(o.labels, o.code)))
        else
          match GenList(es[1..], o.labels, syms)
          case None => None
          case Some(q) => Some((q.0, Out(q.1.labels, o.code + q.1.code)))
  }

  /** The name is visible in its own initializer. */
  function GenItem(i: Item, sc: Scope, labels: nat): Option<Out> {
    if sc.next >= MAX_OFFSET then None
    else if i.init.None? then Some(Out(labels, []))
    else
      match C.Gen(i.init.value, 0, labels, Declare(sc, i.x).syms)
      case None => None
      case Some(o) => Some(Out(o.labels, o.code + [RI(STORE, o.r, C.FP, sc.next)]))
  }

  function GenItems(items: seq<Item>, sc: Scope, labels: nat): Option<Out> {
    if items == [] then Some(Out(labels, []))
    else
      match GenItem(items[0], sc, labels)
      case None => None
      case Some(o) =>
        match GenItems(items[1..], Declare(sc, items[0].x), o.labels)
        case None => None
        case Some(q) => Some(Out(q.labels, o.code + q.code))
  }

  function GenInit(i: Init, sc: Scope, labels: nat): Option<Out> {
    match i
    case Decls(items) => GenItems(items, sc, labels)
    case Exprs(es) => (match GenList(es, labels, sc.syms) case None => None case Some(q) => Some(q.1))
  }

  function GenTest(c: Option<Expr>, end: nat, labels: nat, syms: C.Symbols): Option<Out> {
    match c
    case None => Some(Out(labels, []))
    case Some(e) =>
      match C.Gen(e, 0, labels, syms)
      case None => None
      case Some(o) => Some(Out(o.labels, o.code + [JumpZ(o.r, C.L(end))]))
  }

  /** Fewer than 4096 labels, `n` more of them. */
  predicate RoomFor(labels: nat, n: nat) { labels + n <= C.MAX_LABELS }

  function GenStmt(s: Stmt, sc: Scope, labels: nat, tg: Targets): Option<Out>
    decreases s, 0
  {
    match s
    case Skip => Some(Out(labels, []))
    case Block(b) => GenBody(b, sc, labels, tg)
    case Decl(items) => GenItems(items, sc, labels)
    case Return(es) =>
      (match GenList(es, labels, sc.syms)
       case None => None
       case Some(q) =>
         Some(Out(q.1.labels, q.1.code + (if es == [] then [] else [RR(ADD, C.RET, q.0, 0)]) + [Jump(C.L(tg.end))])))
    case If(c, t) =>
      if !RoomFor(labels, 2) then None
      else (
        match C.Gen(c, 0, labels + 2, sc.syms)
        case None => None
        case Some(co) =>
          match GenStmt(t, sc, co.labels, tg)
          case None => None
          case Some(to) => Some(GenIf(labels, co, to, Out(to.labels, []))))
    case IfElse(c, t, e) =>
      if !RoomFor(labels, 2) then None
      else (
        match C.Gen(c, 0, labels + 2, sc.syms)
        case None => None
        case Some(co) =>
          match GenStmt(t, sc, co.labels, tg)
          case None => None
          case Some(to) =>
            match GenStmt(e, StmtScope(t, sc), to.labels, tg)
            case None => None
            case Some(eo) => Some(GenIf(labels, co, to, eo)))
    case While(c, b) =>
      if !RoomFor(labels, 2) then None
      else (
        match C.Gen(c, 0, labels + 2, sc.syms)
        case None => None
        case Some(co) =>
          match GenStmt(b, sc, co.labels, Targets(Some(labels + 1), Some(labels), tg.end))
          case None => None
          case Some(bo) => Some(GenWhile(labels, co, bo)))
    case For(i, c, e, b) =>
      if !RoomFor(labels, 4) then None
      else (
        match GenInit(i, sc, labels + 4)
        case None => None
        case Some(io) =>
          match GenTest(c, labels + 3, io.labels, InitScope(i, sc).syms)
          case None => None
          case Some(co) =>
            match GenList(e, co.labels, InitScope(i, sc).syms)
            case None => None
            case Some(so) =>
              match GenStmt(b, InitScope(i, sc), so.1.labels, Targets(Some(labels + 3), Some(labels + 2), tg.end))
              case None => None
              case Some(bo) => Some(GenFor(labels, io, co, so.1, bo)))
    case Break => if tg.brk.None? then None else Some(Out(labels, [Jump(C.L(tg.brk.value))]))
    case Continue => if tg.cont.None? then None else Some(Out(labels, [Jump(C.L(tg.cont.value))]))
    case Do(e) =>
      match C.Gen(e, 0, labels, sc.syms)
      case None => None
      case Some(o) => Some(Out(o.labels, o.code))
  }

  function GenBody(b: seq<Stmt>, sc: Scope, labels: nat, tg: Targets): Option<Out>
    decreases b, 1
  {
    if b == [] then Some(Out(labels, []))
    else
      match GenStmt(b[0], sc, labels, tg)
      case None => None
      case Some(o) =>
        match GenBody(b[1..], StmtScope(b[0], sc), o.labels, tg)
        case None => None
        case Some(q) => Some(Out(q.labels, o.code + q.code))
  }

  function GenIf(l: nat, co: C.Out, to: Out, eo: Out): Out {
    Out(eo.labels, co.code + [JumpZ(co.r, C.L(l))] + to.code + [Jump(C.L(l + 1)), LabelDef(C.L(l))]
                   + eo.code + [LabelDef(C.L(l + 1))])
  }

  function GenWhile(l: nat, co: C.Out, bo: Out): Out {
    Out(bo.labels, [LabelDef(C.L(l))] + co.code + [JumpZ(co.r, C.L(l + 1))] + bo.code
                   + [Jump(C.L(l)), LabelDef(C.L(l + 1))])
  }

  /** Labels: condition, body, increment, end. */
  function GenFor(l: nat, io: Out, co: Out, so: Out, bo: Out): Out {
    Out(bo.labels, io.code + [LabelDef(C.L(l))] + co.code + [Jump(C.L(l + 1)), LabelDef(C.L(l + 2))] + so.code
                   + [Jump(C.L(l)), LabelDef(C.L(l + 1))] + bo.code + [Jump(C.L(l + 2)), LabelDef(C.L(l + 3))])
  }

  // ----- meaning -----

  /** How a statement ends.  `Timeout` says a loop was re-entered more often than the fuel allows. */
  datatype Flow =
    | Fall(env: Env) | Broke(env: Env) | Continued(env: Env) | Returned(v: Option<Word>, env: Env)
    | Undefined | Bad | Timeout

  function Failed(w: Value): Flow { if w.DivFault? then Undefined else Bad }

  function EvalList(es: seq<Expr>, syms: C.Symbols, env: Env): Value {
    if es == [] then Ok(0, env)
    else
      var w := Eval(es[0], syms, env);
      if !w.Ok? || |es| == 1 then w else EvalList(es[1..], syms, w.env)
  }

  function ExecItem(i: Item, sc: Scope, env: Env): Flow {
    if i.init.None? then Fall(env)
    else
      var w := Eval(i.init.value, Declare(sc, i.x).syms, env);
      if !w.Ok? then Failed(w)
      else if 2 <= sc.next < 2 + |w.env| then Fall(w.env[sc.next - 2 := w.v])
      else Bad
  }

  function ExecItems(items: seq<Item>, sc: Scope, env: Env): Flow {
    if items == [] then Fall(env)
    else
      match ExecItem(items[0], sc, env)
      case Fall(e) => ExecItems(items[1..], Declare(sc, items[0].x), e)
      case o => o
  }

  function ExecInit(i: Init, sc: Scope, env: Env): Flow {
    match i
    case Decls(items) => ExecItems(items, sc, env)
    case Exprs(es) => (var w := EvalList(es, sc.syms, env); if w.Ok? then Fall(w.env) else Failed(w))
  }

  function EvalTest(c: Option<Expr>, syms: C.Symbols, env: Env): Value {
    match c
    case None => Ok(1, env)
    case Some(e) => Eval(e, syms, env)
  }

  function Exec(s: Stmt, sc: Scope, env: Env, fuel: nat): Flow
    decreases fuel, s, 1
  {
    match s
    case Skip => Fall(env)
    case Block(b) => ExecBody(b, sc, env, fuel)
    case Decl(items) => ExecItems(items, sc, env)
    case Return(es) =>
      var w := EvalList(es, sc.syms, env);
      if w.Ok? then Returned(if es == [] then None else Some(w.v), w.env) else Failed(w)
    case If(c, t) =>
      var w := Eval(c, sc.syms, env);
      if !w.Ok? then Failed(w) else if w.v != 0 then Exec(t, sc, w.env, fuel) else Fall(w.env)
    case IfElse(c, t, e) =>
      var w := Eval(c, sc.syms, env);
      if !w.Ok? then Failed(w)
      else if w.v != 0 then Exec(t, sc, w.env, fuel)
      else Exec(e, StmtScope(t, sc), w.env, fuel)
    case While(c, b) =>
      var w := Eval(c, sc.syms, env);
      if !w.Ok? then Failed(w)
      else if w.v == 0 then Fall(w.env)
      else (
        match Exec(b, sc, w.env, fuel)
        case Fall(e) => if fuel == 0 then Timeout else Exec(s, sc, e, fuel - 1)
        case Continued(e) => if fuel == 0 then Timeout else Exec(s, sc, e, fuel - 1)
        case Broke(e) => Fall(e)
        case o => o)
    case For(i, _, _, _) =>
      (match ExecInit(i, sc, env)
       case Fall(e) => ExecFor(s, InitScope(i, sc), e, fuel)
       case o => o)
    case Break => Broke(env)
    case Continue => Continued(env)
    case Do(e) => var w := Eval(e, sc.syms, env); if w.Ok? then Fall(w.env) else Failed(w)
  }

  /** A `for` statement from its condition on. */
  function ExecFor(s: Stmt, sc: Scope, env: Env, fuel: nat): Flow
    requires s.For?
    decreases fuel, s, 0
  {
    var w := EvalTest(s.test, sc.syms, env);
    if !w.Ok? then Failed(w)
    else if w.v == 0 then Fall(w.env)
    else
      match Exec(s.loop, sc, w.env, fuel)
      case Fall(e) => AfterBody(s, sc, e, fuel)
      case Continued(e) => AfterBody(s, sc, e, fuel)
      case Broke(e) => Fall(e)
      case o => o
  }

  function AfterBody(s: Stmt, sc: Scope, env: Env, fuel: nat): Flow
    requires s.For?
    decreases fuel, s.loop, 2
  {
    var w := EvalList(s.step, sc.syms, env);
    if !w.Ok? then Failed(w) else if fuel == 0 then Timeout else ExecFor(s, sc, w.env, fuel - 1)
  }

  function ExecBody(b: seq<Stmt>, sc: Scope, env: Env, fuel: nat): Flow
    decreases fuel, b, 0
  {
    if b == [] then Fall(env)
    else
      match Exec(b[0], sc, env, fuel)
      case Fall(e) => ExecBody(b[1..], StmtScope(b[0], sc), e, fuel)
      case o => o
  }
}
