/** Statements as they are written: the tokens of a tree, and the two laws that tie the parser to them. */
module CStatementText {
  import opened Machine
  import opened CSyntax
  import opened CPrecedence
  import opened CStatements

  // ----- the tokens of a statement -----

  function ListYield(es: seq<Expr>): seq<Tok>
    requires es != []
  {
    if |es| == 1 then Yield(es[0]) else Yield(es[0]) + [Comma] + ListYield(es[1..])
  }

  function ItemYield(i: Item): seq<Tok> {
    [TId(i.x)] + match i.init case None => [] case Some(e) => [TAssign(None)] + Yield(e)
  }

  function ItemsYield(items: seq<Item>): seq<Tok>
    requires items != []
  {
    if |items| == 1 then ItemYield(items[0]) else ItemYield(items[0]) + [Comma] + ItemsYield(items[1..])
  }

  function ForListYield(es: seq<Expr>): seq<Tok> { if es == [] then [] else ListYield(es) }

  function InitYield(i: Init): seq<Tok>
    requires i.Decls? ==> i.items != []
  {
    match i
    case Decls(items) => [TKey(KInt)] + ItemsYield(items)
    case Exprs(es) => ForListYield(es)
  }

  function TestYield(c: Option<Expr>): seq<Tok> { match c case None => [] case Some(e) => Yield(e) }

  function StmtYield(s: Stmt): (t: seq<Tok>)
    requires Writable(s)
    ensures t != [] && t[0] != TKey(KElse) && t[0] != RBrace
    decreases s, 0
  {
    match s
    case Skip => [Semi]
    case Block(b) => [LBrace] + BodyYield(b) + [RBrace]
    case Decl(items) => [TKey(KInt)] + ItemsYield(items) + [Semi]
    case Return(es) => [TKey(KReturn)] + ForListYield(es) + [Semi]
    case If(c, thn) => [TKey(KIf), LParen] + Yield(c) + [RParen] + StmtYield(thn)
    case IfElse(c, thn, els) =>
      [TKey(KIf), LParen] + Yield(c) + [RParen] + StmtYield(thn) + [TKey(KElse)] + StmtYield(els)
    case While(c, b) => [TKey(KWhile), LParen] + Yield(c) + [RParen] + StmtYield(b)
    case For(i, c, e, b) =>
      [TKey(KFor), LParen] + InitYield(i) + [Semi] + TestYield(c) + [Semi] + ForListYield(e) + [RParen] + StmtYield(b)
    case Break => [TKey(KBreak), Semi]
    case Continue => [TKey(KContinue), Semi]
    case Do(e) => FirstOf(e); Yield(e) + [Semi]
  }

  function BodyYield(b: seq<Stmt>): seq<Tok>
    requires WritableBody(b)
    decreases b, 1
  {
    if b == [] then [] else StmtYield(b[0]) + BodyYield(b[1..])
  }

  // ----- which trees can be written -----

  predicate Listed(es: seq<Expr>) { forall k :: 0 <= k < |es| ==> Grammar(es[k]) }

  predicate ItemOk(i: Item) { i.init.Some? ==> Grammar(i.init.value) }

  predicate ItemsOk(items: seq<Item>) { items != [] && forall k :: 0 <= k < |items| ==> ItemOk(items[k]) }

  predicate InitOk(i: Init) { if i.Decls? then ItemsOk(i.items) else Listed(i.es) }

  /** An `else` behind the statement would be read as part of it. */
  predicate Dangling(s: Stmt) {
    match s
    case If(_, _) => true
    case IfElse(_, _, e) => Dangling(e)
    case While(_, b) => Dangling(b)
    case For(_, _, _, b) => Dangling(b)
    case _ => false
  }

  /** Expressions are trees of the grammar, declarations declare something, and an `else` finds its `if`. */
  predicate Writable(s: Stmt)
    decreases s, 0
  {
    match s
    case Block(b) => WritableBody(b)
    case Decl(items) => ItemsOk(items)
    case Return(es) => Listed(es)
    case If(c, thn) => Grammar(c) && Writable(thn)
    case IfElse(c, thn, els) => Grammar(c) && Writable(thn) && !Dangling(thn) && Writable(els)
    case While(c, b) => Grammar(c) && Writable(b)
    case For(i, c, e, b) => InitOk(i) && (c.Some? ==> Grammar(c.value)) && Listed(e) && Writable(b)
    case Do(e) => Grammar(e)
    case _ => true
  }

  predicate WritableBody(b: seq<Stmt>)
    decreases b, 1
  {
    b == [] || (Writable(b[0]) && WritableBody(b[1..]))
  }

  /** No expression starts like another kind of statement. */
  lemma {:induction false} FirstOf(e: Expr)
    ensures Yield(e)[0] !in {Semi, LBrace, RBrace, RParen, Comma, Colon, TKey(KElse)} && !Yield(e)[0].TKey?
    decreases e
  {
    match e
    case Post(_, x) => FirstOf(x);
    case Bin(_, l, _) => FirstOf(l);
    case Cond(c, _, _) => FirstOf(c);
    case Assign(_, l, _) => FirstOf(l);
    case _ =>
  }

  // ----- what is written is what is parsed -----

  lemma {:induction false} ListBack(es: seq<Expr>, rest: seq<Tok>)
    requires es != [] && Listed(es) && Stops(rest) && !NextIs(rest, Comma)
    ensures ParseList(ListYield(es) + rest) == Some((es, rest))
    decreases |es|
  {
    hide ParseExpr, Yield;
    if |es| == 1 {
      ExprBack(es[0], rest);
      assert es == [es[0]];
    } else {
      var more := ListYield(es[1..]) + rest;
      ExprBack(es[0], [Comma] + more);
      ListBack(es[1..], rest);
      Regroup(Yield(es[0]), [Comma], ListYield(es[1..]), rest);
      assert [es[0]] + es[1..] == es && ([Comma] + more)[1..] == more;
    }
  }

  lemma ForListBack(es: seq<Expr>, rest: seq<Tok>)
    requires Listed(es) && rest != [] && rest[0] in {Semi, RParen}
    ensures ParseForList(ForListYield(es) + rest) == Some((es, rest))
  {
    hide ParseList, Yield;
    if es == [] {
      assert [] + rest == rest;
    } else {
      ListBack(es, rest);
      FirstOf(es[0]);
      assert ListYield(es)[0] == Yield(es[0])[0];
    }
  }

  lemma ItemBack(i: Item, rest: seq<Tok>)
    requires ItemOk(i) && rest != [] && rest[0] in {Comma, Semi}
    ensures ParseItem(ItemYield(i) + rest) == Some((i, rest))
  {
    hide ParseExpr, Yield;
    var t := ItemYield(i) + rest;
    match i.init
    case None => assert t[1..] == rest;
    case Some(e) =>
      assert t[1..] == [TAssign(None)] + (Yield(e) + rest) && t[2..] == Yield(e) + rest;
      ExprBack(e, rest);
  }

  lemma {:induction false} ItemsBack(items: seq<Item>, rest: seq<Tok>)
    requires ItemsOk(items) && NextIs(rest, Semi)
    ensures ParseItems(ItemsYield(items) + rest) == Some((items, rest))
    decreases |items|
  {
    hide ParseItem, ItemYield;
    if |items| == 1 {
      ItemBack(items[0], rest);
      assert items == [items[0]];
    } else {
      var more := ItemsYield(items[1..]) + rest;
      ItemBack(items[0], [Comma] + more);
      ItemsBack(items[1..], rest);
      Regroup(ItemYield(items[0]), [Comma], ItemsYield(items[1..]), rest);
      assert [items[0]] + items[1..] == items && ([Comma] + more)[1..] == more;
    }
  }

  lemma NotInt(es: seq<Expr>, rest: seq<Tok>)
    requires NextIs(rest, Semi)
    ensures !NextIs(ForListYield(es) + rest, TKey(KInt))
  {
    hide Yield;
    if es == [] {
      assert [] + rest == rest;
    } else {
      FirstOf(es[0]);
      assert ListYield(es)[0] == Yield(es[0])[0];
    }
  }

  lemma InitBack(i: Init, rest: seq<Tok>)
    requires InitOk(i)
    ensures ParseInit(InitYield(i) + ([Semi] + rest)) == Some((i, rest))
  {
    hide ParseItems, ParseForList, Yield, ItemsYield, ForListYield, Listed, ItemOk;
    var more := [Semi] + rest;
    assert more[1..] == rest;
    match i
    case Decls(items) =>
      ItemsBack(items, more);
      assert [TKey(KInt)] + ItemsYield(items) + more == [TKey(KInt)] + (ItemsYield(items) + more);
      assert (InitYield(i) + more)[1..] == ItemsYield(items) + more;
    case Exprs(es) =>
      ForListBack(es, more);
      NotInt(es, more);
  }

  lemma TestBack(c: Option<Expr>, rest: seq<Tok>)
    requires c.Some? ==> Grammar(c.value)
    ensures ParseTest(TestYield(c) + ([Semi] + rest)) == Some((c, rest))
  {
    hide ParseExpr, Yield;
    var more := [Semi] + rest;
    assert more[1..] == rest;
    match c
    case None => assert [] + more == more;
    case Some(e) =>
      FirstOf(e);
      ExprBack(e, more);
  }

  lemma GuardBack(c: Expr, rest: seq<Tok>)
    requires Grammar(c)
    ensures ParseGuard([LParen] + (Yield(c) + ([RParen] + rest))) == Some((c, rest))
  {
    hide ParseExpr, Yield;
    var more := [RParen] + rest;
    assert more[1..] == rest && ([LParen] + (Yield(c) + more))[1..] == Yield(c) + more;
    ExprBack(c, more);
  }

  /** Writing a statement and reading it back, whatever follows that is no stray `else`, gives the statement and
      leaves what followed. */
  lemma {:induction false} StmtBack(s: Stmt, rest: seq<Tok>)
    requires Writable(s) && (Dangling(s) ==> !NextIs(rest, TKey(KElse)))
    ensures ParseStmt(StmtYield(s) + rest) == Some((s, rest))
    decreases s, 0
  {
    hide ParseStmt, ParseExpr, ParseItems, ParseList, ParseIf, ParseWhile, ParseFor, ParseBody, Yield, ItemsYield,
         ListYield;
    var t := StmtYield(s) + rest;
    match s
    case Skip => SimpleStep(t, [Semi], rest);
    case Break => SimpleStep(t, [TKey(KBreak), Semi], rest);
    case Continue => SimpleStep(t, [TKey(KContinue), Semi], rest);
    case Block(b) =>
      BodyBack(b, [RBrace] + rest);
      Regroup([LBrace], BodyYield(b), [RBrace], rest);
      BlockStep(t, b, rest);
    case Decl(items) =>
      ItemsBack(items, [Semi] + rest);
      Regroup([TKey(KInt)], ItemsYield(items), [Semi], rest);
      DeclStep(t, items, rest);
    case Return(es) => ReturnBack(es, rest);
    case If(c, thn) =>
      StmtBack(thn, rest);
      IfTokens(c, StmtYield(thn), rest);
      GuardBack(c, StmtYield(thn) + rest);
      IfStep(t, c, thn, StmtYield(thn) + rest, rest);
    case IfElse(c, thn, els) =>
      var more := [TKey(KElse)] + (StmtYield(els) + rest);
      StmtBack(els, rest);
      StmtBack(thn, more);
      IfTokens(c, StmtYield(thn), more);
      Regroup([TKey(KIf), LParen] + Yield(c) + [RParen] + StmtYield(thn), [TKey(KElse)], StmtYield(els), rest);
      GuardBack(c, StmtYield(thn) + more);
      ElseStep(t, c, thn, els, StmtYield(thn) + more, StmtYield(els) + rest, rest);
    case While(c, b) =>
      StmtBack(b, rest);
      WhileTokens(c, StmtYield(b), rest);
      GuardBack(c, StmtYield(b) + rest);
      WhileStep(t, c, b, StmtYield(b) + rest, rest);
    case For(i, c, e, b) =>
      StmtBack(b, rest);
      ForBack(t, i, c, e, b, rest);
    case Do(e) =>
      ExprBack(e, [Semi] + rest);
      FirstOf(e);
      Reassoc(Yield(e), [Semi], rest);
      DoStep(t, e, rest);
  }

  lemma {:induction false} BodyBack(b: seq<Stmt>, rest: seq<Tok>)
    requires WritableBody(b) && (rest == [] || rest[0] == RBrace)
    ensures ParseBody(BodyYield(b) + rest) == Some((b, rest))
    decreases b, 1
  {
    hide ParseStmt, StmtYield;
    if b == [] {
      assert [] + rest == rest;
    } else {
      var more := BodyYield(b[1..]) + rest;
      BodyBack(b[1..], rest);
      BodyFirst(b[1..], rest);
      StmtBack(b[0], more);
      Reassoc(StmtYield(b[0]), BodyYield(b[1..]), rest);
      assert [b[0]] + b[1..] == b;
    }
  }

  lemma BodyFirst(b: seq<Stmt>, rest: seq<Tok>)
    requires WritableBody(b) && (rest == [] || rest[0] == RBrace)
    ensures !NextIs(BodyYield(b) + rest, TKey(KElse))
  {
    hide StmtYield;
    if b == [] { assert [] + rest == rest; } else { assert (BodyYield(b) + rest)[0] == StmtYield(b[0])[0]; }
  }

  lemma SimpleStep(t: seq<Tok>, head: seq<Tok>, rest: seq<Tok>)
    requires t == head + rest
    ensures head == [Semi] ==> ParseStmt(t) == Some((Skip, rest))
    ensures head == [TKey(KBreak), Semi] ==> ParseStmt(t) == Some((Break, rest))
    ensures head == [TKey(KContinue), Semi] ==> ParseStmt(t) == Some((Continue, rest))
  {
    hide ParseExpr, ParseItems, ParseList, ParseIf, ParseWhile, ParseFor, ParseBody;
    if |head| == 1 { assert t[1..] == rest; }
    if |head| == 2 { assert t[1..] == head[1..] + rest && (head[1..] + rest)[1..] == rest; }
  }

  lemma BlockStep(t: seq<Tok>, b: seq<Stmt>, rest: seq<Tok>)
    requires NextIs(t, LBrace) && ParseBody(t[1..]) == Some((b, [RBrace] + rest))
    ensures ParseStmt(t) == Some((Block(b), rest))
  {
    hide ParseExpr, ParseItems, ParseList, ParseIf, ParseWhile, ParseFor, ParseBody;
    assert ([RBrace] + rest)[1..] == rest;
  }

  lemma DeclStep(t: seq<Tok>, items: seq<Item>, rest: seq<Tok>)
    requires NextIs(t, TKey(KInt)) && ParseItems(t[1..]) == Some((items, [Semi] + rest))
    ensures ParseStmt(t) == Some((Decl(items), rest))
  {
    hide ParseExpr, ParseItems, ParseList, ParseIf, ParseWhile, ParseFor, ParseBody;
    assert ([Semi] + rest)[1..] == rest;
  }

  lemma ReturnBack(es: seq<Expr>, rest: seq<Tok>)
    requires Listed(es)
    ensures ParseStmt([TKey(KReturn)] + ForListYield(es) + [Semi] + rest) == Some((Return(es), rest))
  {
    hide ParseExpr, ParseItems, ParseList, ParseIf, ParseWhile, ParseFor, ParseBody, Yield;
    var t, more := [TKey(KReturn)] + ForListYield(es) + [Semi] + rest, [Semi] + rest;
    Regroup([TKey(KReturn)], ForListYield(es), [Semi], rest);
    assert t[1..] == ForListYield(es) + more && more[1..] == rest;
    if es == [] {
      assert t[1..] == more && t[2..] == rest;
    } else {
      ListBack(es, more);
      FirstOf(es[0]);
      assert ListYield(es)[0] == Yield(es[0])[0];
    }
  }

  lemma IfTokens(c: Expr, thn: seq<Tok>, rest: seq<Tok>)
    ensures ([TKey(KIf), LParen] + Yield(c) + [RParen] + thn) + rest
         == [TKey(KIf)] + ([LParen] + (Yield(c) + ([RParen] + (thn + rest))))
  {
    hide Yield;
  }

  lemma WhileTokens(c: Expr, b: seq<Tok>, rest: seq<Tok>)
    ensures ([TKey(KWhile), LParen] + Yield(c) + [RParen] + b) + rest
         == [TKey(KWhile)] + ([LParen] + (Yield(c) + ([RParen] + (b + rest))))
  {
    hide Yield;
  }

  lemma IfStep(t: seq<Tok>, c: Expr, thn: Stmt, inner: seq<Tok>, rest: seq<Tok>)
    requires NextIs(t, TKey(KIf)) && ParseGuard(t[1..]) == Some((c, inner)) && ParseStmt(inner) == Some((thn, rest))
    requires !NextIs(rest, TKey(KElse))
    ensures ParseStmt(t) == Some((If(c, thn), rest))
  {
    IfUnfold(t);
    hide ParseStmt, ParseGuard;
  }

  lemma IfUnfold(t: seq<Tok>)
    requires t != [] && (t[0] == TKey(KIf) || t[0] == TKey(KWhile) || t[0] == TKey(KFor))
    ensures t[0] == TKey(KIf) ==> ParseStmt(t) == ParseIf(t[1..])
    ensures t[0] == TKey(KWhile) ==> ParseStmt(t) == ParseWhile(t[1..])
    ensures t[0] == TKey(KFor) ==> ParseStmt(t) == ParseFor(t[1..])
  {
    hide ParseExpr, ParseItems, ParseList, ParseIf, ParseWhile, ParseFor, ParseBody;
  }

  lemma ElseStep(t: seq<Tok>, c: Expr, thn: Stmt, els: Stmt, inner: seq<Tok>, second: seq<Tok>, rest: seq<Tok>)
    requires NextIs(t, TKey(KIf)) && ParseGuard(t[1..]) == Some((c, inner))
    requires ParseStmt(inner) == Some((thn, [TKey(KElse)] + second)) && ParseStmt(second) == Some((els, rest))
    ensures ParseStmt(t) == Some((IfElse(c, thn, els), rest))
  {
    IfUnfold(t);
    hide ParseStmt, ParseGuard;
    assert ([TKey(KElse)] + second)[1..] == second;
  }

  lemma WhileStep(t: seq<Tok>, c: Expr, b: Stmt, inner: seq<Tok>, rest: seq<Tok>)
    requires NextIs(t, TKey(KWhile)) && ParseGuard(t[1..]) == Some((c, inner)) && ParseStmt(inner) == Some((b, rest))
    ensures ParseStmt(t) == Some((While(c, b), rest))
  {
    IfUnfold(t);
    hide ParseStmt, ParseGuard;
  }

  lemma ForBack(t: seq<Tok>, i: Init, c: Option<Expr>, e: seq<Expr>, b: Stmt, rest: seq<Tok>)
    requires Writable(For(i, c, e, b)) && t == StmtYield(For(i, c, e, b)) + rest
    requires ParseStmt(StmtYield(b) + rest) == Some((b, rest))
    ensures ParseStmt(t) == Some((For(i, c, e, b), rest))
  {
    hide ParseStmt, ParseInit, ParseTest, ParseForList, InitYield, TestYield, ForListYield;
    var t4 := StmtYield(b) + rest;
    var t3 := ForListYield(e) + ([RParen] + t4);
    var t2 := TestYield(c) + ([Semi] + t3);
    var t1 := InitYield(i) + ([Semi] + t2);
    ForTokens(InitYield(i), TestYield(c), ForListYield(e), StmtYield(b), rest);
    assert t == [TKey(KFor)] + ([LParen] + t1);
    assert t[1..] == [LParen] + t1 && t[1..][1..] == t1 && ([RParen] + t4)[1..] == t4;
    InitBack(i, t2);
    TestBack(c, t3);
    ForListBack(e, [RParen] + t4);
    IfUnfold(t);
  }

  lemma ForTokens(i: seq<Tok>, c: seq<Tok>, e: seq<Tok>, b: seq<Tok>, rest: seq<Tok>)
    ensures ([TKey(KFor), LParen] + i + [Semi] + c + [Semi] + e + [RParen] + b) + rest
         == [TKey(KFor)] + ([LParen] + (i + ([Semi] + (c + ([Semi] + (e + ([RParen] + (b + rest))))))))
  {
  }

  lemma DoStep(t: seq<Tok>, e: Expr, rest: seq<Tok>)
    requires ParseExpr(t) == Some((e, [Semi] + rest)) && t != [] && t[0] != Semi && t[0] != LBrace && !t[0].TKey?
    ensures ParseStmt(t) == Some((Do(e), rest))
  {
    hide ParseExpr, ParseItems, ParseList, ParseIf, ParseWhile, ParseFor, ParseBody;
    assert ([Semi] + rest)[1..] == rest;
  }

  // ----- what is parsed is what was written -----

  lemma ExprRead(t: seq<Tok>)
    ensures ParseExpr(t).Some? ==> t == Yield(ParseExpr(t).value.0) + ParseExpr(t).value.1 &&
                                   Grammar(ParseExpr(t).value.0)
  {
    hide ParseExpr, Yield, Grammar;
    ExprReads(t);
  }

  lemma Cut(t: seq<Tok>)
    requires t != []
    ensures t == [t[0]] + t[1..]
  {
  }

  lemma {:induction false} ListReads(t: seq<Tok>)
    ensures var r := ParseList(t); r.Some? ==> Listed(r.value.0) && t == ListYield(r.value.0) + r.value.1
    decreases |t|
  {
    hide ParseExpr, Yield, Grammar;
    ExprRead(t);
    var p := ParseExpr(t);
    if p.Some? && NextIs(p.value.1, Comma) {
      ListReads(p.value.1[1..]);
      Cut(p.value.1);
      var q := ParseList(p.value.1[1..]);
      if q.Some? {
        var es := [p.value.0] + q.value.0;
        assert es[1..] == q.value.0;
        Regroup(Yield(p.value.0), [Comma], ListYield(q.value.0), q.value.1);
      }
    }
  }

  lemma ForListReads(t: seq<Tok>)
    ensures var r := ParseForList(t); r.Some? ==> Listed(r.value.0) && t == ForListYield(r.value.0) + r.value.1
  {
    hide ParseList, ListYield;
    ListReads(t);
  }

  lemma ItemReads(t: seq<Tok>)
    ensures var r := ParseItem(t); r.Some? ==> ItemOk(r.value.0) && t == ItemYield(r.value.0) + r.value.1
  {
    hide ParseExpr, Yield, Grammar;
    if t != [] && t[0].TId? {
      Cut(t);
      if NextIs(t[1..], TAssign(None)) {
        Cut(t[1..]);
        assert t[1..][1..] == t[2..];
        ExprRead(t[2..]);
        var p := ParseExpr(t[2..]);
        if p.Some? { assert t == [t[0]] + ([TAssign(None)] + (Yield(p.value.0) + p.value.1)); }
      }
    }
  }

  lemma {:induction false} ItemsReads(t: seq<Tok>)
    ensures var r := ParseItems(t); r.Some? ==> ItemsOk(r.value.0) && t == ItemsYield(r.value.0) + r.value.1
    decreases |t|
  {
    hide ParseItem, ItemYield, ItemOk;
    ItemReads(t);
    var p := ParseItem(t);
    if p.Some? && NextIs(p.value.1, Comma) {
      ItemsReads(p.value.1[1..]);
      Cut(p.value.1);
      var q := ParseItems(p.value.1[1..]);
      if q.Some? {
        var items := [p.value.0] + q.value.0;
        assert items[1..] == q.value.0;
        Regroup(ItemYield(p.value.0), [Comma], ItemsYield(q.value.0), q.value.1);
      }
    }
  }

  lemma InitReads(t: seq<Tok>)
    ensures var r := ParseInit(t);
            r.Some? ==> InitOk(r.value.0) && t == InitYield(r.value.0) + ([Semi] + r.value.1)
  {
    hide ParseItems, ParseForList, ItemsYield, ForListYield;
    if NextIs(t, TKey(KInt)) {
      Cut(t);
      ItemsReads(t[1..]);
      var p := ParseItems(t[1..]);
      if p.Some? && NextIs(p.value.1, Semi) {
        Cut(p.value.1);
        Reassoc([TKey(KInt)], ItemsYield(p.value.0), p.value.1);
      }
    } else {
      ForListReads(t);
      var p := ParseForList(t);
      if p.Some? && NextIs(p.value.1, Semi) { Cut(p.value.1); }
    }
  }

  lemma TestReads(t: seq<Tok>)
    ensures var r := ParseTest(t);
            r.Some? ==>
              (r.value.0.Some? ==> Grammar(r.value.0.value)) && t == TestYield(r.value.0) + ([Semi] + r.value.1)
  {
    hide ParseExpr, Yield, Grammar;
    if NextIs(t, Semi) {
      Cut(t);
      assert [] + ([Semi] + t[1..]) == t;
    } else {
      ExprRead(t);
      var p := ParseExpr(t);
      if p.Some? && NextIs(p.value.1, Semi) { Cut(p.value.1); }
    }
  }

  lemma GuardReads(t: seq<Tok>)
    ensures var r := ParseGuard(t);
            r.Some? ==> Grammar(r.value.0) && t == [LParen] + (Yield(r.value.0) + ([RParen] + r.value.1))
  {
    hide ParseExpr, Yield, Grammar;
    if NextIs(t, LParen) {
      Cut(t);
      ExprRead(t[1..]);
      var p := ParseExpr(t[1..]);
      if p.Some? && NextIs(p.value.1, RParen) { Cut(p.value.1); }
    }
  }

  /** A statement that was read is one that can be written, its tokens are those read, and no `else` that
      belongs to it is left. */
  predicate Taken(t: seq<Tok>, r: StmtResult) {
    r.Some? ==> Writable(r.value.0) && t == StmtYield(r.value.0) + r.value.1 &&
                (Dangling(r.value.0) ==> !NextIs(r.value.1, TKey(KElse)))
  }

  lemma {:induction false} StmtReads(t: seq<Tok>)
    ensures Taken(t, ParseStmt(t))
    decreases |t|, 0
  {
    hide ParseStmt, Taken;
    if t == [] {
      NothingTaken();
    } else {
      Cut(t);
      if t[0] == TKey(KIf) {
        IfUnfold(t);
        IfReads(t);
      } else if t[0] == TKey(KWhile) {
        IfUnfold(t);
        WhileReads(t);
      } else if t[0] == TKey(KFor) {
        IfUnfold(t);
        ForReads(t);
      } else if t[0] == LBrace {
        BodyReads(t[1..]);
        BlockReads(t);
      } else {
        SimpleReads(t);
      }
    }
  }

  lemma NothingTaken()
    ensures Taken([], ParseStmt([]))
  {
    hide Writable;
  }

  lemma {:induction false} BodyReads(t: seq<Tok>)
    ensures var r := ParseBody(t); r.Some? ==> WritableBody(r.value.0) && t == BodyYield(r.value.0) + r.value.1
    decreases |t|, 1
  {
    hide ParseStmt, StmtYield, Writable, Dangling;
    if t == [] || t[0] == RBrace {
      assert [] + t == t;
    } else {
      StmtReads(t);
      var p := ParseStmt(t);
      if p.Some? {
        BodyReads(p.value.1);
        var q := ParseBody(p.value.1);
        if q.Some? {
          var b := [p.value.0] + q.value.0;
          assert b[1..] == q.value.0;
          Reassoc(StmtYield(p.value.0), BodyYield(q.value.0), q.value.1);
        }
      }
    }
  }

  lemma BlockReads(t: seq<Tok>)
    requires NextIs(t, LBrace)
    requires var r := ParseBody(t[1..]);
             r.Some? ==> WritableBody(r.value.0) && t[1..] == BodyYield(r.value.0) + r.value.1
    ensures Taken(t, ParseStmt(t))
  {
    hide ParseExpr, ParseItems, ParseList, ParseIf, ParseWhile, ParseFor, ParseBody, BodyYield;
    Cut(t);
    var r := ParseBody(t[1..]);
    if r.Some? && NextIs(r.value.1, RBrace) {
      Cut(r.value.1);
      Regroup([LBrace], BodyYield(r.value.0), [RBrace], r.value.1[1..]);
    }
  }

  /** Statements without statements inside. */
  lemma SimpleReads(t: seq<Tok>)
    requires t != [] && t[0] !in {LBrace, TKey(KIf), TKey(KWhile), TKey(KFor)}
    ensures Taken(t, ParseStmt(t))
  {
    hide ParseStmt, Taken;
    if t[0] == TKey(KInt) {
      DeclReads(t);
    } else if t[0] == TKey(KReturn) {
      ReturnReads(t);
    } else if t[0] == TKey(KBreak) || t[0] == TKey(KContinue) || t[0] == Semi {
      WordReads(t);
    } else {
      DoReads(t);
    }
  }

  lemma DeclReads(t: seq<Tok>)
    requires NextIs(t, TKey(KInt))
    ensures Taken(t, ParseStmt(t))
  {
    hide ParseExpr, ParseItems, ParseList, ParseIf, ParseWhile, ParseFor, ParseBody, ItemsYield, ItemOk;
    Cut(t);
    ItemsReads(t[1..]);
    var p := ParseItems(t[1..]);
    if p.Some? && NextIs(p.value.1, Semi) {
      Cut(p.value.1);
      Regroup([TKey(KInt)], ItemsYield(p.value.0), [Semi], p.value.1[1..]);
    }
  }

  lemma ReturnReads(t: seq<Tok>)
    requires NextIs(t, TKey(KReturn))
    ensures Taken(t, ParseStmt(t))
  {
    hide ParseExpr, ParseItems, ParseList, ParseIf, ParseWhile, ParseFor, ParseBody, ListYield, Grammar;
    Cut(t);
    if NextIs(t[1..], Semi) {
      Cut(t[1..]);
      assert t == [TKey(KReturn)] + [] + [Semi] + t[2..];
    } else {
      ListReads(t[1..]);
      var p := ParseList(t[1..]);
      if p.Some? && NextIs(p.value.1, Semi) {
        Cut(p.value.1);
        Regroup([TKey(KReturn)], ListYield(p.value.0), [Semi], p.value.1[1..]);
      }
    }
  }

  lemma WordParsed(t: seq<Tok>)
    requires t != [] && (t[0] == TKey(KBreak) || t[0] == TKey(KContinue) || t[0] == Semi)
    ensures ParseStmt(t)
         == if t[0] == Semi then Some((Skip, t[1..]))
            else if !NextIs(t[1..], Semi) then None
            else Some((if t[0] == TKey(KBreak) then Break else Continue, t[2..]))
  {
    hide ParseExpr, ParseItems, ParseList, ParseIf, ParseWhile, ParseFor, ParseBody;
    if NextIs(t[1..], Semi) { assert t[1..][1..] == t[2..]; }
  }

  lemma WordTaken(s: Stmt, t: seq<Tok>, rest: seq<Tok>)
    requires s.Skip? || s.Break? || s.Continue?
    requires t == (if s.Skip? then [Semi] else [if s.Break? then TKey(KBreak) else TKey(KContinue), Semi]) + rest
    ensures Taken(t, Some((s, rest)))
  {
  }

  lemma WordReads(t: seq<Tok>)
    requires t != [] && (t[0] == TKey(KBreak) || t[0] == TKey(KContinue) || t[0] == Semi)
    ensures Taken(t, ParseStmt(t))
  {
    WordParsed(t);
    hide ParseStmt, Taken;
    if t[0] == Semi {
      WordTaken(Skip, t, t[1..]);
    } else if NextIs(t[1..], Semi) {
      WordTaken(if t[0] == TKey(KBreak) then Break else Continue, t, t[2..]);
    } else {
      NoneTaken(t);
    }
  }

  lemma NoneTaken(t: seq<Tok>)
    ensures Taken(t, None)
  {
  }

  lemma DoReads(t: seq<Tok>)
    requires t != [] && t[0] !in {LBrace, Semi} && (t[0].TKey? ==> t[0].k == KElse)
    ensures Taken(t, ParseStmt(t))
  {
    hide ParseExpr, ParseItems, ParseList, ParseIf, ParseWhile, ParseFor, ParseBody, Yield, Grammar;
    ExprRead(t);
    var p := ParseExpr(t);
    if p.Some? && NextIs(p.value.1, Semi) {
      Cut(p.value.1);
      Reassoc(Yield(p.value.0), [Semi], p.value.1[1..]);
    }
  }

  lemma {:induction false} IfReads(t: seq<Tok>)
    requires NextIs(t, TKey(KIf))
    ensures Taken(t, ParseIf(t[1..]))
    decreases |t| - 1, 1
  {
    hide ParseGuard, ParseStmt, Yield, Grammar;
    Cut(t);
    GuardReads(t[1..]);
    var c := ParseGuard(t[1..]);
    if c.Some? {
      StmtReads(c.value.1);
      var p := ParseStmt(c.value.1);
      if p.Some? {
        IfTokens(c.value.0, StmtYield(p.value.0), p.value.1);
        if NextIs(p.value.1, TKey(KElse)) {
          Cut(p.value.1);
          StmtReads(p.value.1[1..]);
          var q := ParseStmt(p.value.1[1..]);
          if q.Some? {
            Regroup([TKey(KIf), LParen] + Yield(c.value.0) + [RParen] + StmtYield(p.value.0), [TKey(KElse)],
                    StmtYield(q.value.0), q.value.1);
          }
        }
      }
    }
  }

  lemma {:induction false} WhileReads(t: seq<Tok>)
    requires NextIs(t, TKey(KWhile))
    ensures Taken(t, ParseWhile(t[1..]))
    decreases |t| - 1, 1
  {
    hide ParseGuard, ParseStmt, Yield, Grammar;
    Cut(t);
    GuardReads(t[1..]);
    var c := ParseGuard(t[1..]);
    if c.Some? {
      StmtReads(c.value.1);
      var p := ParseStmt(c.value.1);
      if p.Some? { WhileTokens(c.value.0, StmtYield(p.value.0), p.value.1); }
    }
  }

  lemma {:induction false} ForReads(t: seq<Tok>)
    requires NextIs(t, TKey(KFor))
    ensures Taken(t, ParseFor(t[1..]))
    decreases |t| - 1, 1
  {
    hide ParseInit, ParseTest, ParseForList, ParseStmt, InitYield, TestYield, ForListYield, Grammar, Listed;
    Cut(t);
    if NextIs(t[1..], LParen) {
      Cut(t[1..]);
      var t1 := t[1..][1..];
      InitReads(t1);
      var i := ParseInit(t1);
      if i.Some? {
        TestReads(i.value.1);
        var c := ParseTest(i.value.1);
        if c.Some? {
          ForListReads(c.value.1);
          var e := ParseForList(c.value.1);
          if e.Some? && NextIs(e.value.1, RParen) {
            Cut(e.value.1);
            StmtReads(e.value.1[1..]);
            var b := ParseStmt(e.value.1[1..]);
            if b.Some? {
              ForTokens(InitYield(i.value.0), TestYield(c.value.0), ForListYield(e.value.0), StmtYield(b.value.0),
                        b.value.1);
            }
          }
        }
      }
    }
  }
}
