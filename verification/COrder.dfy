/** Statements and functions in the order the one-pass compiler meets them.

    `Compile...` reads a tree and then generates its code; each `...Order` lemma unfolds that into
    the steps the compiler takes, token by token. */
module COrder {
  import opened Machine
  import opened Assembly
  import opened CSyntax
  import opened CStatements
  import opened CFunctions
  import C = CCode

  /** Reading an expression and generating its code; None where the compiler gives up. */
  function Compile(p: ExprResult, top: nat, labels: nat, syms: C.Symbols): Option<(C.Out, seq<Tok>)> {
    match p
    case None => None
    case Some(q) =>
      match C.Gen(q.0, top, labels, syms)
      case None => None
      case Some(o) => Some((o, q.1))
  }

  // ----- expressions separated by commas -----

  type ListCode = Option<(RegIx, Out, seq<Tok>)>

  function CompileList(t: seq<Tok>, labels: nat, syms: C.Symbols): ListCode {
    match ParseList(t)
    case None => None
    case Some(p) =>
      match GenList(p.0, labels, syms)
      case None => None
      case Some(q) => Some((q.0, q.1, p.1))
  }

  /** After an expression: its register, what was emitted so far, what is left. */
  function ListRest(r: RegIx, o: Out, t: seq<Tok>, syms: C.Symbols): ListCode {
    if !NextIs(t, Comma) then Some((r, o, t))
    else
      match CompileList(t[1..], o.labels, syms)
      case None => None
      case Some(q) => Some((q.0, Out(q.1.labels, o.code + q.1.code), q.2))
  }

  lemma ListOrder(t: seq<Tok>, labels: nat, syms: C.Symbols)
    ensures CompileList(t, labels, syms)
         == match Compile(ParseExpr(t), 0, labels, syms)
            case None => None
            case Some(e) => ListRest(e.0.r, Out(e.0.labels, e.0.code), e.1, syms)
  {
    hide ParseExpr, C.Gen;
    var p := ParseExpr(t);
    if p.Some? && !NextIs(p.value.1, Comma) {
      assert ParseList(t) == Some(([p.value.0], p.value.1));
    } else if p.Some? && ParseList(p.value.1[1..]).Some? {
      var q := ParseList(p.value.1[1..]).value;
      assert ([p.value.0] + q.0)[1..] == q.0 && ([p.value.0] + q.0)[0] == p.value.0;
    }
  }

  lemma ListNext(r: RegIx, o: Out, t: seq<Tok>, syms: C.Symbols)
    ensures !NextIs(t, Comma) ==> ListRest(r, o, t, syms) == Some((r, o, t))
    ensures NextIs(t, Comma) ==>
              ListRest(r, o, t, syms)
              == match Compile(ParseExpr(t[1..]), 0, o.labels, syms)
                 case None => None
                 case Some(e) => ListRest(e.0.r, Out(e.0.labels, o.code + e.0.code), e.1, syms)
  {
    hide ParseExpr, C.Gen, CompileList;
    if NextIs(t, Comma) {
      ListOrder(t[1..], o.labels, syms);
      var e := Compile(ParseExpr(t[1..]), 0, o.labels, syms);
      if e.Some? && NextIs(e.value.1, Comma) {
        var q := CompileList(e.value.1[1..], e.value.0.labels, syms);
        if q.Some? {
          assert o.code + (e.value.0.code + q.value.1.code) == o.code + e.value.0.code + q.value.1.code;
        }
      }
    }
  }

  // ----- declarations -----

  /** Lines and labels, the scope afterwards, and what is left to read. */
  type Code = Option<(Out, Scope, seq<Tok>)>

  function Prepend(code: seq<Line>, c: Code): Code {
    match c
    case None => None
    case Some(q) => Some((Out(q.0.labels, code + q.0.code), q.1, q.2))
  }

  lemma PrependTwice(a: seq<Line>, b: seq<Line>, c: Code)
    ensures Prepend(a, Prepend(b, c)) == Prepend(a + b, c)
  {
    if c.Some? { assert a + (b + c.value.0.code) == a + b + c.value.0.code; }
  }

  function CompileItem(t: seq<Tok>, sc: Scope, labels: nat): Code {
    match ParseItem(t)
    case None => None
    case Some(p) =>
      match GenItem(p.0, sc, labels)
      case None => None
      case Some(o) => Some((o, Declare(sc, p.0.x), p.1))
  }

  function CompileItems(t: seq<Tok>, sc: Scope, labels: nat): Code {
    match ParseItems(t)
    case None => None
    case Some(p) =>
      match GenItems(p.0, sc, labels)
      case None => None
      case Some(o) => Some((o, ItemsScope(p.0, sc), p.1))
  }

  lemma ItemOrder(t: seq<Tok>, sc: Scope, labels: nat)
    ensures CompileItem(t, sc, labels)
         == if t == [] || !t[0].TId? || sc.next >= MAX_OFFSET then None
            else if !NextIs(t[1..], TAssign(None)) then Some((Out(labels, []), Declare(sc, t[0].x), t[1..]))
            else (
              match Compile(ParseExpr(t[2..]), 0, labels, Declare(sc, t[0].x).syms)
              case None => None
              case Some(e) =>
                Some((Out(e.0.labels, e.0.code + [RI(STORE, e.0.r, C.FP, sc.next)]), Declare(sc, t[0].x), e.1)))
  {
    hide ParseExpr, C.Gen;
  }

  /** After a declared name. */
  function ItemsRest(o: Out, sc: Scope, t: seq<Tok>): Code {
    if !NextIs(t, Comma) then Some((o, sc, t)) else Prepend(o.code, CompileItems(t[1..], sc, o.labels))
  }

  lemma ItemsOrder(t: seq<Tok>, sc: Scope, labels: nat)
    ensures CompileItems(t, sc, labels)
         == match CompileItem(t, sc, labels)
            case None => None
            case Some(i) => ItemsRest(i.0, i.1, i.2)
  {
    hide ParseItem, GenItem;
    var p := ParseItem(t);
    if p.Some? && !NextIs(p.value.1, Comma) {
      OneItem(p.value.0, sc, labels);
    } else if p.Some? && ParseItems(p.value.1[1..]).Some? {
      var q := ParseItems(p.value.1[1..]).value;
      assert ([p.value.0] + q.0)[1..] == q.0 && ([p.value.0] + q.0)[0] == p.value.0;
    }
  }

  lemma OneItem(i: Item, sc: Scope, labels: nat)
    ensures GenItems([i], sc, labels) == GenItem(i, sc, labels) && ItemsScope([i], sc) == Declare(sc, i.x)
  {
    hide GenItem, Declare;
    assert [i][1..] == [];
    var o := GenItem(i, sc, labels);
    assert GenItems([], Declare(sc, i.x), if o.Some? then o.value.labels else 0)
        == Some(Out(if o.Some? then o.value.labels else 0, []));
    assert ItemsScope([], Declare(sc, i.x)) == Declare(sc, i.x);
    if o.Some? { assert o.value.code + [] == o.value.code; }
  }

  lemma ItemsNextStep(o: Out, sc: Scope, t: seq<Tok>)
    ensures !NextIs(t, Comma) ==> ItemsRest(o, sc, t) == Some((o, sc, t))
    ensures NextIs(t, Comma) ==>
              ItemsRest(o, sc, t)
              == match CompileItem(t[1..], sc, o.labels)
                 case None => None
                 case Some(i) => ItemsRest(Out(i.0.labels, o.code + i.0.code), i.1, i.2)
  {
    hide CompileItem, CompileItems;
    if NextIs(t, Comma) {
      ItemsOrder(t[1..], sc, o.labels);
      var i := CompileItem(t[1..], sc, o.labels);
      if i.Some? && NextIs(i.value.2, Comma) {
        PrependTwice(o.code, i.value.0.code, CompileItems(i.value.2[1..], i.value.1, i.value.0.labels));
      }
    }
  }

  // ----- statements -----

  function Whole(p: StmtResult, sc: Scope, labels: nat, tg: Targets): Code {
    match p
    case None => None
    case Some(q) =>
      match GenStmt(q.0, sc, labels, tg)
      case None => None
      case Some(o) => Some((o, StmtScope(q.0, sc), q.1))
  }

  function CompileStmt(t: seq<Tok>, sc: Scope, labels: nat, tg: Targets): Code { Whole(ParseStmt(t), sc, labels, tg) }

  function CompileBody(t: seq<Tok>, sc: Scope, labels: nat, tg: Targets): Code {
    match ParseBody(t)
    case None => None
    case Some(p) =>
      match GenBody(p.0, sc, labels, tg)
      case None => None
      case Some(o) => Some((o, BodyScope(p.0, sc), p.1))
  }

  lemma BodyOrder(t: seq<Tok>, sc: Scope, labels: nat, tg: Targets)
    ensures CompileBody(t, sc, labels, tg)
         == if t == [] || t[0] == RBrace then Some((Out(labels, []), sc, t))
            else (
              match CompileStmt(t, sc, labels, tg)
              case None => None
              case Some(s) => Prepend(s.0.code, CompileBody(s.2, s.1, s.0.labels, tg)))
  {
    hide ParseStmt, GenStmt, StmtScope;
    if t != [] && t[0] != RBrace && ParseStmt(t).Some? {
      var p := ParseStmt(t).value;
      if ParseBody(p.1).Some? {
        var q := ParseBody(p.1).value;
        assert ([p.0] + q.0)[1..] == q.0 && ([p.0] + q.0)[0] == p.0;
      }
    }
  }

  /** A closing token behind a finished piece. */
  function Ended(o: Out, sc: Scope, rest: Option<seq<Tok>>): Code {
    match rest
    case None => None
    case Some(t) => Some((o, sc, t))
  }

  /** The kinds of statement that are not control structures. */
  function SimpleInOrder(t: seq<Tok>, sc: Scope, labels: nat, tg: Targets): Code
    requires t != []
  {
    match t[0]
    case Semi => Some((Out(labels, []), sc, t[1..]))
    case LBrace =>
      (match CompileBody(t[1..], sc, labels, tg)
       case None => None
       case Some(b) => Ended(b.0, Scope(sc.syms, b.1.next), Expect(RBrace, b.2)))
    case TKey(KInt) =>
      (match CompileItems(t[1..], sc, labels)
       case None => None
       case Some(d) => Ended(d.0, d.1, Expect(Semi, d.2)))
    case TKey(KReturn) =>
      if NextIs(t[1..], Semi) then Some((Out(labels, [Jump(C.L(tg.end))]), sc, t[2..]))
      else (
        match CompileList(t[1..], labels, sc.syms)
        case None => None
        case Some(q) =>
          Ended(Out(q.1.labels, q.1.code + [RR(ADD, C.RET, q.0, 0)] + [Jump(C.L(tg.end))]), sc, Expect(Semi, q.2)))
    case TKey(KBreak) =>
      if tg.brk.None? then None else Ended(Out(labels, [Jump(C.L(tg.brk.value))]), sc, Expect(Semi, t[1..]))
    case TKey(KContinue) =>
      if tg.cont.None? then None else Ended(Out(labels, [Jump(C.L(tg.cont.value))]), sc, Expect(Semi, t[1..]))
    case _ =>
      match Compile(ParseExpr(t), 0, labels, sc.syms)
      case None => None
      case Some(e) => Ended(Out(e.0.labels, e.0.code), sc, Expect(Semi, e.1))
  }

  predicate Control(t: seq<Tok>) { t != [] && t[0] in {TKey(KIf), TKey(KWhile), TKey(KFor)} }

  lemma SimpleOrder(t: seq<Tok>, sc: Scope, labels: nat, tg: Targets)
    ensures t == [] ==> CompileStmt(t, sc, labels, tg).None?
    ensures t != [] && !Control(t) ==> CompileStmt(t, sc, labels, tg) == SimpleInOrder(t, sc, labels, tg)
  {
    hide CompileStmt, SimpleInOrder;
    if t == [] {
      NoStatement(sc, labels, tg);
    } else if t[0] == TKey(KReturn) {
      if NextIs(t[1..], Semi) { ReturnNothing(t, sc, labels, tg); } else { ReturnOrder(t, sc, labels, tg); }
    } else if t[0] in {Semi, LBrace, TKey(KInt)} {
      BlockOrder(t, sc, labels, tg);
    } else if !Control(t) {
      if t[0] == TKey(KBreak) || t[0] == TKey(KContinue) { LeaveOrder(t, sc, labels, tg); }
      else { ExprOrder(t, sc, labels, tg); }
    }
  }

  lemma NoStatement(sc: Scope, labels: nat, tg: Targets)
    ensures CompileStmt([], sc, labels, tg).None?
  {
  }

  lemma BlockOrder(t: seq<Tok>, sc: Scope, labels: nat, tg: Targets)
    requires t != [] && t[0] in {Semi, LBrace, TKey(KInt)}
    ensures CompileStmt(t, sc, labels, tg) == SimpleInOrder(t, sc, labels, tg)
  {
    hide ParseExpr, ParseBody, ParseItems, GenBody, GenItems, C.Gen, BodyScope, ItemsScope, ParseList, GenList, ParseIf,
         ParseWhile, ParseFor;
  }

  lemma LeaveOrder(t: seq<Tok>, sc: Scope, labels: nat, tg: Targets)
    requires t != [] && t[0] in {TKey(KBreak), TKey(KContinue)}
    ensures CompileStmt(t, sc, labels, tg) == SimpleInOrder(t, sc, labels, tg)
  {
    hide ParseExpr, ParseBody, ParseItems, GenBody, GenItems, C.Gen, BodyScope, ItemsScope, ParseList, GenList, ParseIf,
         ParseWhile, ParseFor;
  }

  lemma ExprOrder(t: seq<Tok>, sc: Scope, labels: nat, tg: Targets)
    requires t != [] && !Control(t)
    requires t[0] !in {Semi, LBrace, TKey(KInt), TKey(KReturn), TKey(KBreak), TKey(KContinue)}
    ensures CompileStmt(t, sc, labels, tg) == SimpleInOrder(t, sc, labels, tg)
  {
    hide ParseExpr, ParseBody, ParseItems, GenBody, GenItems, C.Gen, BodyScope, ItemsScope, ParseList, GenList, ParseIf,
         ParseWhile, ParseFor;
  }

  lemma ReturnNothing(t: seq<Tok>, sc: Scope, labels: nat, tg: Targets)
    requires t != [] && t[0] == TKey(KReturn) && NextIs(t[1..], Semi)
    ensures CompileStmt(t, sc, labels, tg) == SimpleInOrder(t, sc, labels, tg)
  {
    hide ParseExpr, ParseBody, ParseItems, ParseList, ParseIf, ParseWhile, ParseFor;
    assert ParseStmt(t) == Some((Stmt.Return([]), t[2..]));
    assert GenList([], labels, sc.syms) == Some((0, Out(labels, [])));
    assert [] + [] + [Jump(C.L(tg.end))] == [Jump(C.L(tg.end))];
  }

  lemma ReturnOrder(t: seq<Tok>, sc: Scope, labels: nat, tg: Targets)
    requires t != [] && t[0] == TKey(KReturn) && !NextIs(t[1..], Semi)
    ensures CompileStmt(t, sc, labels, tg) == SimpleInOrder(t, sc, labels, tg)
  {
    hide ParseList, GenList, ParseExpr, ParseBody, ParseItems, ParseIf, ParseWhile, ParseFor;
  }

  function CompileGuard(t: seq<Tok>, labels: nat, syms: C.Symbols): Option<(C.Out, seq<Tok>)> {
    Compile(ParseGuard(t), 0, labels, syms)
  }

  function IfInOrder(t: seq<Tok>, sc: Scope, labels: nat, tg: Targets): Code {
    if !RoomFor(labels, 2) then None
    else
      match CompileGuard(t, labels + 2, sc.syms)
      case None => None
      case Some(c) =>
        match CompileStmt(c.1, sc, c.0.labels, tg)
        case None => None
        case Some(a) =>
          match ElseInOrder(a.2, a.1, a.0.labels, tg)
          case None => None
          case Some(b) => Some((GenIf(labels, c.0, a.0, b.0), b.1, b.2))
  }

  function ElseInOrder(t: seq<Tok>, sc: Scope, labels: nat, tg: Targets): Code {
    if NextIs(t, TKey(KElse)) then CompileStmt(t[1..], sc, labels, tg) else Some((Out(labels, []), sc, t))
  }

  lemma IfOrder(t: seq<Tok>, sc: Scope, labels: nat, tg: Targets)
    requires NextIs(t, TKey(KIf))
    ensures CompileStmt(t, sc, labels, tg) == IfInOrder(t[1..], sc, labels, tg)
  {
    hide ParseGuard, ParseStmt, C.Gen, GenIf;
    StmtIs(t);
    var c := ParseGuard(t[1..]);
    if c.Some? && ParseStmt(c.value.1).Some? {
      var a := ParseStmt(c.value.1).value;
      if NextIs(a.1, TKey(KElse)) {
        if ParseStmt(a.1[1..]).Some? { IfElseGen(c.value.0, a.0, ParseStmt(a.1[1..]).value.0, sc, labels, tg); }
        else { assert ParseIf(t[1..]).None?; }
      } else {
        IfGen(c.value.0, a.0, sc, labels, tg);
      }
    }
  }

  lemma StmtIs(t: seq<Tok>)
    requires Control(t)
    ensures ParseStmt(t) == if t[0] == TKey(KIf) then ParseIf(t[1..])
                            else if t[0] == TKey(KWhile) then ParseWhile(t[1..]) else ParseFor(t[1..])
  {
    hide ParseIf, ParseWhile, ParseFor, ParseBody, ParseItems, ParseList, ParseExpr;
  }

  lemma IfGen(c: Expr, a: Stmt, sc: Scope, labels: nat, tg: Targets)
    ensures GenStmt(If(c, a), sc, labels, tg)
         == if !RoomFor(labels, 2) || C.Gen(c, 0, labels + 2, sc.syms).None? then None
            else
              var co := C.Gen(c, 0, labels + 2, sc.syms).value;
              if GenStmt(a, sc, co.labels, tg).None? then None
              else Some(GenIf(labels, co, GenStmt(a, sc, co.labels, tg).value,
                              Out(GenStmt(a, sc, co.labels, tg).value.labels, [])))
    ensures StmtScope(If(c, a), sc) == StmtScope(a, sc)
  {
    hide C.Gen, GenIf;
  }

  lemma IfElseGen(c: Expr, a: Stmt, b: Stmt, sc: Scope, labels: nat, tg: Targets)
    ensures GenStmt(IfElse(c, a, b), sc, labels, tg)
         == if !RoomFor(labels, 2) || C.Gen(c, 0, labels + 2, sc.syms).None? then None
            else
              var co := C.Gen(c, 0, labels + 2, sc.syms).value;
              if GenStmt(a, sc, co.labels, tg).None? then None
              else
                var ao := GenStmt(a, sc, co.labels, tg).value;
                if GenStmt(b, StmtScope(a, sc), ao.labels, tg).None? then None
                else Some(GenIf(labels, co, ao, GenStmt(b, StmtScope(a, sc), ao.labels, tg).value))
    ensures StmtScope(IfElse(c, a, b), sc) == StmtScope(b, StmtScope(a, sc))
  {
    hide C.Gen, GenIf;
  }

  function WhileInOrder(t: seq<Tok>, sc: Scope, labels: nat, tg: Targets): Code {
    if !RoomFor(labels, 2) then None
    else
      match CompileGuard(t, labels + 2, sc.syms)
      case None => None
      case Some(c) =>
        match CompileStmt(c.1, sc, c.0.labels, Targets(Some(labels + 1), Some(labels), tg.end))
        case None => None
        case Some(b) => Some((GenWhile(labels, c.0, b.0), b.1, b.2))
  }

  lemma WhileOrder(t: seq<Tok>, sc: Scope, labels: nat, tg: Targets)
    requires NextIs(t, TKey(KWhile))
    ensures CompileStmt(t, sc, labels, tg) == WhileInOrder(t[1..], sc, labels, tg)
  {
    hide ParseGuard, ParseStmt, C.Gen, GenWhile;
    StmtIs(t);
    var c := ParseGuard(t[1..]);
    if c.Some? && ParseStmt(c.value.1).Some? {
      WhileGen(c.value.0, ParseStmt(c.value.1).value.0, sc, labels, tg);
    }
  }

  lemma WhileGen(c: Expr, b: Stmt, sc: Scope, labels: nat, tg: Targets)
    ensures GenStmt(While(c, b), sc, labels, tg)
         == if !RoomFor(labels, 2) || C.Gen(c, 0, labels + 2, sc.syms).None? then None
            else
              var co := C.Gen(c, 0, labels + 2, sc.syms).value;
              var bo := GenStmt(b, sc, co.labels, Targets(Some(labels + 1), Some(labels), tg.end));
              if bo.None? then None else Some(GenWhile(labels, co, bo.value))
    ensures StmtScope(While(c, b), sc) == StmtScope(b, sc)
  {
    hide C.Gen, GenWhile;
  }

  function CompileInit(t: seq<Tok>, sc: Scope, labels: nat): Code {
    match ParseInit(t)
    case None => None
    case Some(p) =>
      match GenInit(p.0, sc, labels)
      case None => None
      case Some(o) => Some((o, InitScope(p.0, sc), p.1))
  }

  lemma InitOrder(t: seq<Tok>, sc: Scope, labels: nat)
    ensures CompileInit(t, sc, labels)
         == if NextIs(t, TKey(KInt)) then
              (match CompileItems(t[1..], sc, labels)
               case None => None
               case Some(d) => Ended(d.0, d.1, Expect(Semi, d.2)))
            else if NextIs(t, Semi) || NextIs(t, RParen) then Ended(Out(labels, []), sc, Expect(Semi, t))
            else (
              match CompileList(t, labels, sc.syms)
              case None => None
              case Some(q) => Ended(q.1, sc, Expect(Semi, q.2)))
  {
    hide ParseItems, GenItems, ParseList, ItemsScope, C.Gen;
  }

  function CompileTest(t: seq<Tok>, end: nat, labels: nat, syms: C.Symbols): Option<(Out, seq<Tok>)> {
    match ParseTest(t)
    case None => None
    case Some(p) =>
      match GenTest(p.0, end, labels, syms)
      case None => None
      case Some(o) => Some((o, p.1))
  }

  lemma TestOrder(t: seq<Tok>, end: nat, labels: nat, syms: C.Symbols)
    ensures CompileTest(t, end, labels, syms)
         == if NextIs(t, Semi) then Some((Out(labels, []), t[1..]))
            else (
              match Compile(ParseExpr(t), 0, labels, syms)
              case None => None
              case Some(e) =>
                match Expect(Semi, e.1)
                case None => None
                case Some(u) => Some((Out(e.0.labels, e.0.code + [JumpZ(e.0.r, C.L(end))]), u)))
  {
    hide ParseExpr, C.Gen;
  }

  function CompileForList(t: seq<Tok>, labels: nat, syms: C.Symbols): ListCode {
    match ParseForList(t)
    case None => None
    case Some(p) =>
      match GenList(p.0, labels, syms)
      case None => None
      case Some(q) => Some((q.0, q.1, p.1))
  }

  lemma ForListOrder(t: seq<Tok>, labels: nat, syms: C.Symbols)
    ensures CompileForList(t, labels, syms)
         == if NextIs(t, Semi) || NextIs(t, RParen) then Some((0, Out(labels, []), t)) else CompileList(t, labels, syms)
  {
    hide ParseList, C.Gen;
  }

  /** The header of a `for`, from behind the parenthesis: start, test, step. */
  datatype Header = Header(start: Out, sc: Scope, test: Out, step: Out, rest: seq<Tok>)

  function HeaderInOrder(t: seq<Tok>, sc: Scope, labels: nat): Option<Header> {
    match CompileInit(t, sc, labels + 4)
    case None => None
    case Some(i) =>
      match CompileTest(i.2, labels + 3, i.0.labels, i.1.syms)
      case None => None
      case Some(c) =>
        match CompileForList(c.1, c.0.labels, i.1.syms)
        case None => None
        case Some(e) =>
          match Expect(RParen, e.2)
          case None => None
          case Some(u) => Some(Header(i.0, i.1, c.0, e.1, u))
  }

  function ForInOrder(t: seq<Tok>, sc: Scope, labels: nat, tg: Targets): Code {
    if !RoomFor(labels, 4) then None
    else
      match Expect(LParen, t)
      case None => None
      case Some(u) =>
        match HeaderInOrder(u, sc, labels)
        case None => None
        case Some(h) =>
          match CompileStmt(h.rest, h.sc, h.step.labels, Targets(Some(labels + 3), Some(labels + 2), tg.end))
          case None => None
          case Some(b) => Some((GenFor(labels, h.start, h.test, h.step, b.0), Scope(sc.syms, b.1.next), b.2))
  }

  lemma ForOrder(t: seq<Tok>, sc: Scope, labels: nat, tg: Targets)
    requires NextIs(t, TKey(KFor))
    ensures CompileStmt(t, sc, labels, tg) == ForInOrder(t[1..], sc, labels, tg)
  {
    hide ParseInit, ParseTest, ParseForList, ParseStmt, GenInit, GenTest, GenList, InitScope, GenFor, StmtScope;
    StmtIs(t);
    var t0 := Expect(LParen, t[1..]);
    if t0.None? || ParseInit(t0.value).None? { return; }
    var i := ParseInit(t0.value).value;
    if ParseTest(i.1).None? { return; }
    var c := ParseTest(i.1).value;
    if ParseForList(c.1).None? { return; }
    var e := ParseForList(c.1).value;
    if Expect(RParen, e.1).None? { return; }
    var u := Expect(RParen, e.1).value;
    if ParseStmt(u).None? { return; }
    ForGen(i.0, c.0, e.0, ParseStmt(u).value.0, sc, labels, tg);
  }

  lemma ForGen(i: Init, c: Option<Expr>, e: seq<Expr>, b: Stmt, sc: Scope, labels: nat, tg: Targets)
    ensures var sc1 := InitScope(i, sc);
            GenStmt(For(i, c, e, b), sc, labels, tg)
            == if !RoomFor(labels, 4) || GenInit(i, sc, labels + 4).None? then None
               else
                 var io := GenInit(i, sc, labels + 4).value;
                 if GenTest(c, labels + 3, io.labels, sc1.syms).None? then None
                 else
                   var co := GenTest(c, labels + 3, io.labels, sc1.syms).value;
                   if GenList(e, co.labels, sc1.syms).None? then None
                   else
                     var so := GenList(e, co.labels, sc1.syms).value.1;
                     var bo := GenStmt(b, sc1, so.labels, Targets(Some(labels + 3), Some(labels + 2), tg.end));
                     if bo.None? then None else Some(GenFor(labels, io, co, so, bo.value))
    ensures StmtScope(For(i, c, e, b), sc) == Scope(sc.syms, StmtScope(b, InitScope(i, sc)).next)
  {
    hide GenInit, GenTest, GenList, InitScope, GenFor;
  }

  // ----- functions -----

  /** `int a, int b`, from the first `int`. */
  function ParseParamList(t: seq<Tok>): (r: Option<(seq<string>, seq<Tok>)>)
    ensures r.Some? ==> |r.value.1| < |t|
    decreases |t|
  {
    if |t| < 2 || t[0] != TKey(KInt) || !t[1].TId? then None
    else if !NextIs(t[2..], Comma) then Some(([t[1].x], t[2..]))
    else
      match ParseParamList(t[3..])
      case None => None
      case Some(q) => Some(([t[1].x] + q.0, q.1))
  }

  /** `( params )`; parameters beyond the sixteenth are read and forgotten. */
  function ParseParams(t: seq<Tok>): (r: Option<(seq<string>, seq<Tok>)>)
    ensures r.Some? ==> |r.value.1| < |t| && |r.value.0| <= MAX_PARAMS
  {
    match Expect(LParen, t)
    case None => None
    case Some(u) =>
      match (if NextIs(u, RParen) then Some(([], u)) else ParseParamList(u))
      case None => None
      case Some(p) =>
        match Expect(RParen, p.1)
        case None => None
        case Some(v) => Some((FirstParams(p.0), v))
  }

  function FirstParams(ps: seq<string>): (r: seq<string>)
    ensures |r| <= MAX_PARAMS
  {
    if |ps| <= MAX_PARAMS then ps else ps[..MAX_PARAMS]
  }

  /** A function's code, the names visible afterwards, and what is left to read. */
  type FunctionCode = Option<(Out, C.Symbols, seq<Tok>)>

  /** From the parenthesis behind the name: a prototype, or a function with its body. */
  function CompileFunction(name: string, t: seq<Tok>, labels: nat, before: C.Symbols): (r: FunctionCode)
    ensures r.Some? ==> |r.value.2| < |t|
  {
    match ParseParams(t)
    case None => None
    case Some(p) =>
      if !RoomFor(labels, 1) then None
      else if NextIs(p.1, Semi) then Some((Out(labels + 1, []), before, p.1[1..]))
      else if !NextIs(p.1, LBrace) then None
      else
        match ParseBody(p.1[1..])
        case None => None
        case Some(b) =>
          var f := Function(name, p.0, b.0, before);
          match GenFunction(f, labels)
          case None => None
          case Some(o) => if NextIs(b.1, RBrace) then Some((o, StartScope(f).syms, b.1[1..])) else None
  }

  lemma FunctionOrder(name: string, t: seq<Tok>, labels: nat, before: C.Symbols)
    requires ParseParams(t).Some? && RoomFor(labels, 1) && NextIs(ParseParams(t).value.1, LBrace)
    ensures var p := ParseParams(t).value;
            var f, sc := Function(name, p.0, [], before), ParamScope(before, p.0, |p.0|);
            CompileFunction(name, t, labels, before)
            == match CompileBody(p.1[1..], sc, labels + 1, Targets(None, None, labels))
               case None => None
               case Some(b) =>
                 if !NextIs(b.2, RBrace) then None
                 else
                   Some((Out(b.0.labels, Enter(f) + ParamStores(0, InRegisters(f)) + b.0.code + Leave(f, labels)),
                         sc.syms, b.2[1..]))
  {
    hide ParseParams, ParseBody, GenBody, ParamScope, BodyScope, ParamStores;
  }

  /** Functions one after the other, up to the end of the source. */
  function CompileUnit(t: seq<Tok>, labels: nat, before: C.Symbols): Option<(Out, C.Symbols)>
    decreases |t|
  {
    if t == [] then Some((Out(labels, []), before))
    else if |t| < 3 || t[0] != TKey(KInt) || !t[1].TId? || t[2] != LParen then None
    else
      match CompileFunction(t[1].x, t[2..], labels, before)
      case None => None
      case Some(f) =>
        match CompileUnit(f.2, f.0.labels, f.1)
        case None => None
        case Some(u) => Some((Out(u.0.labels, f.0.code + u.0.code), u.1))
  }
}
