/** The language the C compiler's parse functions accept, without calls, arrays, structs, pointers
    and casts: its tokens, its trees, and the recursive descent as a function on tokens.

    The grammar is the one the code implements, not ISO C's: all comparison operators share one
    level, and the false arm of `?:` is a full expression. */
module CSyntax {
  import opened Machine

  type Literal = n: nat | n < 0x8000_0000_0000_0000

  datatype BinOp =
    | Add | Sub | Mul | Div | Mod
    | CmpEq | CmpNe | CmpLt | CmpLe | CmpGt | CmpGe
    | BitAnd | BitXor | BitOr | LogAnd | LogOr

  datatype Keyword = KInt | KReturn | KIf | KElse | KWhile | KFor | KBreak | KContinue

  datatype Tok =
    | TNum(n: Literal) | TId(x: string)
    | LParen | RParen | LBrace | RBrace | Semi | Comma | Colon | Quest
    | PlusPlus | MinusMinus | Bang | Tilde
    | TBin(op: BinOp)
    | TAssign(with: Option<BinOp>)
    | TKey(k: Keyword)

  datatype Expr =
    | Num(n: Literal)
    | Var(x: string)
    | Paren(e: Expr)
    | Post(inc: bool, e: Expr)
    | Pre(inc: bool, e: Expr)
    | Neg(e: Expr) | Not(e: Expr) | Com(e: Expr)
    | Bin(op: BinOp, l: Expr, r: Expr)
    | Cond(c: Expr, a: Expr, b: Expr)
    | Assign(with: Option<BinOp>, l: Expr, e: Expr)

  // ----- levels -----

  const UNARY: nat := 1
  const TOP_LEVEL: nat := 9
  const CONDITIONAL: nat := 10
  const ASSIGNMENT: nat := 11

  /** The parse function whose loop handles an operator; `*` is nearest the operands. */
  function LevelOf(op: BinOp): (k: nat)
    ensures UNARY < k <= TOP_LEVEL
  {
    match op
    case Mul => 2
    case Div => 2
    case Mod => 2
    case Add => 3
    case Sub => 3
    case BitAnd => 5
    case BitXor => 6
    case BitOr => 7
    case LogAnd => 8
    case LogOr => 9
    case _ => 4
  }

  /** `+= -= *= /= &= |= ^=`; there is no `%=`. */
  predicate AssignOp(op: BinOp) { op in {Add, Sub, Mul, Div, BitAnd, BitOr, BitXor} }

  predicate IsAssign(t: seq<Tok>) {
    t != [] && t[0].TAssign? && (t[0].with.Some? ==> AssignOp(t[0].with.value))
  }

  predicate IsBin(t: seq<Tok>, k: nat) { t != [] && t[0].TBin? && LevelOf(t[0].op) == k }

  predicate IsStep(t: seq<Tok>) { t != [] && (t[0] == PlusPlus || t[0] == MinusMinus) }

  predicate NextIs(t: seq<Tok>, x: Tok) { t != [] && t[0] == x }

  // ----- recursive descent -----

  type ExprResult = Option<(Expr, seq<Tok>)>

  function ParsePrimary(t: seq<Tok>): (r: ExprResult)
    ensures r.Some? ==> |r.value.1| < |t|
    decreases |t|, 0
  {
    if t == [] then None
    else
      match t[0]
      case TNum(n) => Some((Num(n), t[1..]))
      case TId(x) => Some((Var(x), t[1..]))
      case LParen =>
        (match ParseExpr(t[1..])
         case None => None
         case Some(p) => if NextIs(p.1, RParen) then Some((Paren(p.0), p.1[1..])) else None)
      case _ => None
  }

  /** Every `++` or `--` that follows applies to what was read so far. */
  function PostLoop(e: Expr, t: seq<Tok>): (r: (Expr, seq<Tok>))
    ensures |r.1| <= |t|
    decreases |t|
  {
    if IsStep(t) then PostLoop(Post(t[0] == PlusPlus, e), t[1..]) else (e, t)
  }

  function ParseUnary(t: seq<Tok>): (r: ExprResult)
    ensures r.Some? ==> |r.value.1| < |t|
    decreases |t|, 1
  {
    if t == [] then None
    else if t[0] in {PlusPlus, MinusMinus, TBin(Sub), Bang, Tilde} then
      match ParseUnary(t[1..])
      case None => None
      case Some(p) => Some((Prefixed(t[0], p.0), p.1))
    else
      match ParsePrimary(t)
      case None => None
      case Some(p) => Some(PostLoop(p.0, p.1))
  }

  function Prefixed(x: Tok, e: Expr): Expr {
    match x
    case PlusPlus => Pre(true, e)
    case MinusMinus => Pre(false, e)
    case Bang => Not(e)
    case Tilde => Com(e)
    case _ => Neg(e)
  }

  function ParseLevel(k: nat, t: seq<Tok>): (r: ExprResult)
    requires UNARY <= k <= TOP_LEVEL
    ensures r.Some? ==> |r.value.1| < |t|
    decreases |t|, 1 + k
  {
    if k == UNARY then ParseUnary(t)
    else
      match ParseLevel(k - 1, t)
      case None => None
      case Some(p) => LevelLoop(k, p.0, p.1)
  }

  /** Left-associative operators of one level. */
  function LevelLoop(k: nat, e: Expr, t: seq<Tok>): (r: ExprResult)
    requires UNARY < k <= TOP_LEVEL
    ensures r.Some? ==> |r.value.1| <= |t|
    decreases |t|, 12
  {
    if IsBin(t, k) then
      match ParseLevel(k - 1, t[1..])
      case None => None
      case Some(p) => LevelLoop(k, Bin(t[0].op, e, p.0), p.1)
    else Some((e, t))
  }

  function ParseCond(t: seq<Tok>): (r: ExprResult)
    ensures r.Some? ==> |r.value.1| < |t|
    decreases |t|, 13
  {
    match ParseLevel(TOP_LEVEL, t)
    case None => None
    case Some(p) =>
      if !NextIs(p.1, Quest) then Some(p)
      else
        match ParseExpr(p.1[1..])
        case None => None
        case Some(a) =>
          if !NextIs(a.1, Colon) then None
          else
            match ParseExpr(a.1[1..])
            case None => None
            case Some(b) => Some((Cond(p.0, a.0, b.0), b.1))
  }

  function ParseExpr(t: seq<Tok>): (r: ExprResult)
    ensures r.Some? ==> |r.value.1| < |t|
    decreases |t|, 14
  {
    match ParseCond(t)
    case None => None
    case Some(p) =>
      if !IsAssign(p.1) then Some(p)
      else
        match ParseExpr(p.1[1..])
        case None => None
        case Some(q) => Some((Assign(p.1[0].with, p.0, q.0), q.1))
  }

  // ----- the grammar as a relation -----

  function Rank(e: Expr): nat {
    match e
    case Num(_) => 0
    case Var(_) => 0
    case Paren(_) => 0
    case Post(_, _) => 0
    case Bin(op, _, _) => LevelOf(op)
    case Cond(_, _, _) => CONDITIONAL
    case Assign(_, _, _) => ASSIGNMENT
    case _ => UNARY
  }

  /** The trees the grammar derives: which subexpressions need no parentheses. */
  predicate Grammar(e: Expr) {
    match e
    case Num(_) => true
    case Var(_) => true
    case Paren(x) => Grammar(x)
    case Post(_, x) => Grammar(x) && Rank(x) == 0
    case Bin(op, l, r) => Grammar(l) && Grammar(r) && Rank(l) <= LevelOf(op) && Rank(r) < LevelOf(op)
    case Cond(c, a, b) => Grammar(c) && Grammar(a) && Grammar(b) && Rank(c) <= TOP_LEVEL
    case Assign(w, l, x) =>
      Grammar(l) && Grammar(x) && Rank(l) <= TOP_LEVEL && (w.Some? ==> AssignOp(w.value))
    case _ => Grammar(e.e) && Rank(e.e) <= UNARY
  }

  function Step(inc: bool): Tok { if inc then PlusPlus else MinusMinus }

  /** The tokens of a tree, left to right. */
  function Yield(e: Expr): (t: seq<Tok>)
    ensures t != []
  {
    match e
    case Num(n) => [TNum(n)]
    case Var(x) => [TId(x)]
    case Paren(x) => [LParen] + Yield(x) + [RParen]
    case Post(inc, x) => Yield(x) + [Step(inc)]
    case Pre(inc, x) => [Step(inc)] + Yield(x)
    case Neg(x) => [TBin(Sub)] + Yield(x)
    case Not(x) => [Bang] + Yield(x)
    case Com(x) => [Tilde] + Yield(x)
    case Bin(op, l, r) => Yield(l) + [TBin(op)] + Yield(r)
    case Cond(c, a, b) => Yield(c) + [Quest] + Yield(a) + [Colon] + Yield(b)
    case Assign(w, l, x) => Yield(l) + [TAssign(w)] + Yield(x)
  }

  // ----- what is parsed is what was written -----

  /** A parse result reads exactly the tokens it drops, as a tree of the grammar no looser than
      the level asked for. */
  predicate Reads(t: seq<Tok>, r: ExprResult, rank: nat) {
    r.Some? ==> t == Yield(r.value.0) + r.value.1 && Grammar(r.value.0) && Rank(r.value.0) <= rank
  }

  lemma {:induction false} PrimaryReads(t: seq<Tok>)
    ensures Reads(t, ParsePrimary(t), 0)
    decreases |t|, 0
  {
    if t != [] && t[0] == LParen {
      ExprReads(t[1..]);
      var p := ParseExpr(t[1..]);
      if p.Some? && NextIs(p.value.1, RParen) {
        assert t == [LParen] + (Yield(p.value.0) + p.value.1);
        assert p.value.1 == [RParen] + p.value.1[1..];
      }
    }
  }

  lemma {:induction false} PostReads(e: Expr, t: seq<Tok>)
    requires Grammar(e) && Rank(e) == 0
    ensures Yield(e) + t == Yield(PostLoop(e, t).0) + PostLoop(e, t).1
    ensures Grammar(PostLoop(e, t).0) && Rank(PostLoop(e, t).0) == 0
    decreases |t|
  {
    if IsStep(t) {
      assert t == [t[0]] + t[1..];
      PostReads(Post(t[0] == PlusPlus, e), t[1..]);
    }
  }

  lemma {:induction false} UnaryReads(t: seq<Tok>)
    ensures Reads(t, ParseUnary(t), UNARY)
    decreases |t|, 1
  {
    hide PostLoop, ParsePrimary, ParseUnary;
    if t == [] {
      EmptyUnary();
    } else if t[0] in {PlusPlus, MinusMinus, TBin(Sub), Bang, Tilde} {
      UnaryReads(t[1..]);
      UnaryOf(t);
      if ParseUnary(t[1..]).Some? { PrefixedReads(t, ParseUnary(t[1..]).value); }
    } else {
      PlainStep(t);
      PrimaryReads(t);
      var p := ParsePrimary(t);
      if p.Some? { PostReads(p.value.0, p.value.1); }
    }
  }

  lemma EmptyUnary()
    ensures ParseUnary([]).None?
  {
  }

  lemma PrefixedReads(t: seq<Tok>, p: (Expr, seq<Tok>))
    requires t != [] && t[0] in {PlusPlus, MinusMinus, TBin(Sub), Bang, Tilde}
    requires Reads(t[1..], Some(p), UNARY)
    ensures Reads(t, Some((Prefixed(t[0], p.0), p.1)), UNARY)
  {
    assert t == [t[0]] + t[1..];
    assert Yield(Prefixed(t[0], p.0)) == [t[0]] + Yield(p.0);
  }

  lemma {:induction false} LevelReads(k: nat, t: seq<Tok>)
    requires UNARY <= k <= TOP_LEVEL
    ensures Reads(t, ParseLevel(k, t), k)
    decreases |t|, 1 + k
  {
    if k == UNARY {
      UnaryReads(t);
    } else {
      LevelReads(k - 1, t);
      var p := ParseLevel(k - 1, t);
      if p.Some? { LoopReads(k, p.value.0, p.value.1); }
    }
  }

  lemma {:induction false} LoopReads(k: nat, e: Expr, t: seq<Tok>)
    requires UNARY < k <= TOP_LEVEL && Grammar(e) && Rank(e) <= k
    ensures Reads(Yield(e) + t, LevelLoop(k, e, t), k)
    decreases |t|, 12
  {
    if IsBin(t, k) {
      LevelReads(k - 1, t[1..]);
      var p := ParseLevel(k - 1, t[1..]);
      if p.Some? {
        assert t == [TBin(t[0].op)] + t[1..];
        BinYield(Bin(t[0].op, e, p.value.0), p.value.1);
        LoopReads(k, Bin(t[0].op, e, p.value.0), p.value.1);
      }
    }
  }

  lemma CondTokens(t: seq<Tok>, c: Expr, t1: seq<Tok>, a: Expr, t2: seq<Tok>, b: Expr, t3: seq<Tok>)
    requires t == Yield(c) + t1 && t1 != [] && t1 == [Quest] + t1[1..] && t1[1..] == Yield(a) + t2
    requires t2 != [] && t2 == [Colon] + t2[1..] && t2[1..] == Yield(b) + t3
    ensures t == Yield(Cond(c, a, b)) + t3
  {
    assert Yield(Cond(c, a, b)) == Yield(c) + [Quest] + Yield(a) + [Colon] + Yield(b);
  }

  lemma {:induction false} CondReads(t: seq<Tok>)
    ensures Reads(t, ParseCond(t), CONDITIONAL)
    ensures ParseCond(t).Some? && Rank(ParseCond(t).value.0) == CONDITIONAL ==> !IsAssign(ParseCond(t).value.1)
    decreases |t|, 13
  {
    hide ParseExpr, ParseLevel, Yield;
    LevelReads(TOP_LEVEL, t);
    var p := ParseLevel(TOP_LEVEL, t);
    if p.Some? && NextIs(p.value.1, Quest) {
      ExprReads(p.value.1[1..]);
      var a := ParseExpr(p.value.1[1..]);
      if a.Some? && NextIs(a.value.1, Colon) {
        ExprReads(a.value.1[1..]);
        assert p.value.1 == [Quest] + p.value.1[1..] && a.value.1 == [Colon] + a.value.1[1..];
        var b := ParseExpr(a.value.1[1..]);
        if b.Some? { CondTokens(t, p.value.0, p.value.1, a.value.0, a.value.1, b.value.0, b.value.1); }
      }
    }
  }

  lemma {:induction false} ExprReads(t: seq<Tok>)
    ensures Reads(t, ParseExpr(t), ASSIGNMENT)
    ensures ParseExpr(t).Some? ==> !IsAssign(ParseExpr(t).value.1)
    decreases |t|, 14
  {
    CondReads(t);
    var p := ParseCond(t);
    if p.Some? && IsAssign(p.value.1) {
      ExprReads(p.value.1[1..]);
      assert p.value.1 == [p.value.1[0]] + p.value.1[1..];
    }
  }

  // ----- what is written is what is parsed -----

  /** `t` does not continue an expression read at level `k`. */
  predicate Ends(t: seq<Tok>, k: nat) {
    !IsStep(t) && (forall j :: UNARY < j <= k && j <= TOP_LEVEL ==> !IsBin(t, j)) &&
    (k >= CONDITIONAL ==> !NextIs(t, Quest) && !IsAssign(t))
  }

  /** The parse function for a level. */
  function ParseAt(k: nat, t: seq<Tok>): ExprResult
    requires k <= ASSIGNMENT
  {
    if k == 0 then ParsePostfix(t)
    else if k <= TOP_LEVEL then ParseLevel(k, t)
    else if k == CONDITIONAL then ParseCond(t)
    else ParseExpr(t)
  }

  function ParsePostfix(t: seq<Tok>): ExprResult {
    match ParsePrimary(t)
    case None => None
    case Some(p) => Some(PostLoop(p.0, p.1))
  }

  /** Writing a tree of the grammar and reading it back, at its level or any looser one, gives the
      tree and leaves what followed. */
  lemma {:induction false} RoundTrip(e: Expr, k: nat, rest: seq<Tok>)
    requires Grammar(e) && Rank(e) <= k <= ASSIGNMENT && Ends(rest, k)
    ensures ParseAt(k, Yield(e) + rest) == Some((e, rest))
    decreases e, 2 * k + 1
  {
    hide PostLoop, ParsePrimary, LevelLoop, ParseUnary, ParseCond, Ends, Yield, IsBin, IsAssign;
    EndsFacts(rest, k);
    if k == 0 {
      PostSpine(e, rest);
      PostStops(e, rest);
    } else if k == UNARY {
      if Rank(e) == 0 {
        RoundTrip(e, 0, rest);
        FirstToken(e, rest);
        PlainStep(Yield(e) + rest);
      } else {
        RoundTrip(e.e, UNARY, rest);
        PrefixYield(e, rest);
        PrefixStep(Yield(e) + rest, e, Yield(e.e) + rest, rest);
      }
    } else if k <= TOP_LEVEL {
      LevelSpine(e, k, rest);
      LevelStops(e, k, rest);
    } else if k == CONDITIONAL {
      if Rank(e) <= TOP_LEVEL {
        RoundTrip(e, TOP_LEVEL, rest);
        NoQuest(Yield(e) + rest, e, rest);
      } else {
        CondTrip(e, rest);
      }
    } else {
      if Rank(e) <= CONDITIONAL { RoundTrip(e, CONDITIONAL, rest); } else { AssignTrip(e, rest); }
    }
  }

  lemma EndsFacts(t: seq<Tok>, k: nat)
    requires Ends(t, k)
    ensures forall j :: 0 <= j <= k ==> Ends(t, j)
    ensures !IsStep(t) && (UNARY < k <= TOP_LEVEL ==> !IsBin(t, k))
    ensures k >= CONDITIONAL ==> !NextIs(t, Quest) && !IsAssign(t)
  {
  }

  lemma PrefixYield(e: Expr, rest: seq<Tok>)
    requires Rank(e) == UNARY
    ensures Yield(e) + rest == [Yield(e)[0]] + (Yield(e.e) + rest)
  {
  }

  lemma PrefixStep(t: seq<Tok>, e: Expr, inner: seq<Tok>, rest: seq<Tok>)
    requires Rank(e) == UNARY && t == [Yield(e)[0]] + inner && ParseUnary(inner) == Some((e.e, rest))
    ensures ParseUnary(t) == Some((e, rest))
  {
    hide PostLoop, ParsePrimary, ParseUnary;
    assert t[1..] == inner;
    UnaryOf(t);
  }

  lemma UnaryOf(t: seq<Tok>)
    requires t != [] && t[0] in {PlusPlus, MinusMinus, TBin(Sub), Bang, Tilde}
    ensures ParseUnary(t) == match ParseUnary(t[1..]) case None => None
                                                     case Some(p) => Some((Prefixed(t[0], p.0), p.1))
  {
    hide PostLoop, ParsePrimary, Prefixed;
  }

  lemma ParenStep(t: seq<Tok>, x: Expr, inner: seq<Tok>, rest: seq<Tok>)
    requires t == [LParen] + inner && ParseExpr(inner) == Some((x, [RParen] + rest))
    ensures ParsePrimary(t) == Some((Paren(x), rest))
  {
    hide ParseExpr, ParseCond;
    assert t[1..] == inner && ([RParen] + rest)[1..] == rest;
  }

  lemma LoopStep(k: nat, e: Expr, op: BinOp, r: Expr, more: seq<Tok>, inner: seq<Tok>, rest: seq<Tok>)
    requires UNARY < k <= TOP_LEVEL && LevelOf(op) == k && more == [TBin(op)] + inner
    requires ParseLevel(k - 1, inner) == Some((r, rest))
    ensures LevelLoop(k, e, more) == LevelLoop(k, Bin(op, e, r), rest)
  {
    hide ParseLevel;
    assert more[1..] == inner;
  }

  lemma PlainStep(t: seq<Tok>)
    requires t != [] && t[0] !in {PlusPlus, MinusMinus, TBin(Sub), Bang, Tilde}
    ensures ParseUnary(t) == ParsePostfix(t) && ParseLevel(UNARY, t) == ParseUnary(t)
  {
    hide PostLoop, ParsePrimary;
  }

  lemma NoQuest(t: seq<Tok>, e: Expr, rest: seq<Tok>)
    requires ParseLevel(TOP_LEVEL, t) == Some((e, rest)) && !NextIs(rest, Quest)
    ensures ParseCond(t) == Some((e, rest))
  {
    hide ParseLevel;
  }

  lemma PostStops(e: Expr, rest: seq<Tok>)
    requires !IsStep(rest)
    ensures PostLoop(e, rest) == (e, rest)
  {
  }

  lemma LevelStops(e: Expr, k: nat, rest: seq<Tok>)
    requires UNARY < k <= TOP_LEVEL && !IsBin(rest, k)
    ensures LevelLoop(k, e, rest) == Some((e, rest))
  {
  }

  lemma {:induction false} FirstToken(e: Expr, rest: seq<Tok>)
    requires Grammar(e) && Rank(e) == 0
    ensures (Yield(e) + rest)[0] !in {PlusPlus, MinusMinus, TBin(Sub), Bang, Tilde}
    decreases e
  {
    match e
    case Num(_) =>
    case Var(_) =>
    case Paren(_) =>
    case Post(inc, x) =>
      FirstToken(x, [Step(inc)] + rest);
      assert Yield(e) + rest == Yield(x) + ([Step(inc)] + rest);
  }

  /** The postfix loop builds a chain of steps from the inside out. */
  lemma {:induction false} PostSpine(e: Expr, rest: seq<Tok>)
    requires Grammar(e) && Rank(e) == 0
    ensures ParsePrimary(Yield(e) + rest).Some?
    ensures var p := ParsePrimary(Yield(e) + rest).value; PostLoop(p.0, p.1) == PostLoop(e, rest)
    decreases e, 0
  {
    hide ParseExpr, ParseCond, PostLoop, ParsePrimary, ParseUnary, ParseLevel;
    match e
    case Num(_) => AtomStep(e, rest);
    case Var(_) => AtomStep(e, rest);
    case Paren(x) =>
      RoundTrip(x, ASSIGNMENT, [RParen] + rest);
      Regroup([LParen], Yield(x), [RParen], rest);
      ParenStep(Yield(e) + rest, x, Yield(x) + ([RParen] + rest), rest);
    case Post(inc, x) =>
      PostSpine(x, [Step(inc)] + rest);
      Reassoc(Yield(x), [Step(inc)], rest);
      PostStep(inc, x, rest);
  }

  lemma Reassoc<T>(a: seq<T>, b: seq<T>, c: seq<T>)
    ensures (a + b) + c == a + (b + c)
  {
  }

  lemma Regroup<T>(a: seq<T>, b: seq<T>, c: seq<T>, d: seq<T>)
    ensures (a + b + c) + d == a + (b + (c + d))
  {
  }

  lemma BinYield(e: Expr, rest: seq<Tok>)
    requires e.Bin?
    ensures Yield(e) + rest == Yield(e.l) + ([TBin(e.op)] + (Yield(e.r) + rest))
  {
    Regroup(Yield(e.l), [TBin(e.op)], Yield(e.r), rest);
  }

  lemma AtomStep(e: Expr, rest: seq<Tok>)
    requires e.Num? || e.Var?
    ensures ParsePrimary(Yield(e) + rest) == Some((e, rest))
  {
    hide ParseExpr;
    assert (Yield(e) + rest)[1..] == rest;
  }

  lemma PostStep(inc: bool, x: Expr, rest: seq<Tok>)
    ensures PostLoop(x, [Step(inc)] + rest) == PostLoop(Post(inc, x), rest)
  {
    assert ([Step(inc)] + rest)[1..] == rest;
  }

  /** One level's loop builds a left-leaning chain of its operators from the left end. */
  lemma {:induction false} LevelSpine(e: Expr, k: nat, rest: seq<Tok>)
    requires Grammar(e) && Rank(e) <= k && UNARY < k <= TOP_LEVEL && Ends(rest, k - 1)
    ensures ParseLevel(k - 1, Yield(e) + rest).Some?
    ensures var p := ParseLevel(k - 1, Yield(e) + rest).value; LevelLoop(k, p.0, p.1) == LevelLoop(k, e, rest)
    decreases e, 2 * k
  {
    hide ParseLevel, PostLoop, ParsePrimary, LevelLoop, ParseUnary;
    if Rank(e) < k {
      RoundTrip(e, k - 1, rest);
    } else {
      var inner := Yield(e.r) + rest;
      var more := [TBin(e.op)] + inner;
      LevelSpine(e.l, k, more);
      RoundTrip(e.r, k - 1, rest);
      BinYield(e, rest);
      LoopStep(k, e.l, e.op, e.r, more, inner, rest);
    }
  }

  lemma {:induction false} CondTrip(e: Expr, rest: seq<Tok>)
    requires Grammar(e) && e.Cond? && Ends(rest, CONDITIONAL)
    ensures ParseCond(Yield(e) + rest) == Some((e, rest))
    decreases e, 0
  {
    hide ParseLevel, ParseExpr, ParseCond;
    var third := Yield(e.b) + rest;
    var second := Yield(e.a) + ([Colon] + third);
    RoundTrip(e.c, TOP_LEVEL, [Quest] + second);
    RoundTrip(e.a, ASSIGNMENT, [Colon] + third);
    RoundTrip(e.b, ASSIGNMENT, rest);
    CondYield(e, rest);
    CondStep(Yield(e) + rest, e, second, third, rest);
  }

  lemma CondYield(e: Expr, rest: seq<Tok>)
    requires e.Cond?
    ensures Yield(e) + rest == Yield(e.c) + ([Quest] + (Yield(e.a) + ([Colon] + (Yield(e.b) + rest))))
  {
    var c, a, b := Yield(e.c), Yield(e.a), Yield(e.b);
    Regroup(c + [Quest] + a, [Colon], b, rest);
    Regroup(c, [Quest], a, [Colon] + (b + rest));
  }

  lemma CondStep(t: seq<Tok>, e: Expr, second: seq<Tok>, third: seq<Tok>, rest: seq<Tok>)
    requires e.Cond? && ParseLevel(TOP_LEVEL, t) == Some((e.c, [Quest] + second))
    requires ParseExpr(second) == Some((e.a, [Colon] + third)) && ParseExpr(third) == Some((e.b, rest))
    ensures ParseCond(t) == Some((e, rest))
  {
    hide ParseLevel, ParseExpr;
    assert ([Quest] + second)[1..] == second && ([Colon] + third)[1..] == third;
  }

  lemma {:induction false} AssignTrip(e: Expr, rest: seq<Tok>)
    requires Grammar(e) && e.Assign? && Ends(rest, ASSIGNMENT)
    ensures ParseExpr(Yield(e) + rest) == Some((e, rest))
    decreases e, 0
  {
    hide ParseLevel, ParseExpr, ParseCond;
    var inner := Yield(e.e) + rest;
    var more := [TAssign(e.with)] + inner;
    RoundTrip(e.l, TOP_LEVEL, more);
    RoundTrip(e.e, ASSIGNMENT, rest);
    AssignYield(e, rest);
    AssignStep(Yield(e) + rest, e, inner, rest);
  }

  lemma AssignYield(e: Expr, rest: seq<Tok>)
    requires e.Assign?
    ensures Yield(e) + rest == Yield(e.l) + ([TAssign(e.with)] + (Yield(e.e) + rest))
  {
    Regroup(Yield(e.l), [TAssign(e.with)], Yield(e.e), rest);
  }

  lemma AssignStep(t: seq<Tok>, e: Expr, inner: seq<Tok>, rest: seq<Tok>)
    requires e.Assign? && (e.with.Some? ==> AssignOp(e.with.value))
    requires ParseLevel(TOP_LEVEL, t) == Some((e.l, [TAssign(e.with)] + inner)) && ParseExpr(inner) == Some((e.e, rest))
    ensures ParseExpr(t) == Some((e, rest))
  {
    hide ParseLevel;
    var more := [TAssign(e.with)] + inner;
    assert more[1..] == inner && ParseCond(t) == Some((e.l, more));
    assert ParseExpr(t) == Some((Assign(more[0].with, e.l, e.e), rest));
  }
}
