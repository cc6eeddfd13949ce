/** Which operator takes its operands first, stated on tokens and without the levels the parser works by.
    An operand here is anything the unary level reads: a literal, a name, a parenthesized expression, with
    prefix and postfix operators. */
module CPrecedence {
  import opened Machine
  import opened CSyntax

  /** `t` is one operand and nothing else, read as `e`. */
  predicate Operand(t: seq<Tok>, e: Expr) { ParseUnary(t) == Some((e, [])) }

  /** Nothing that continues an expression. */
  predicate Stops(rest: seq<Tok>) { rest == [] || rest[0] in {Semi, Comma, Colon, RParen, RBrace} }

  const PRODUCTS: set<BinOp> := {Mul, Div, Mod}
  const SUMS: set<BinOp> := {Add, Sub}
  const COMPARISONS: set<BinOp> := {CmpEq, CmpNe, CmpLt, CmpLe, CmpGt, CmpGe}

  /** In `a first b second c`, whether `first` takes `b`. */
  predicate TakesMiddle(first: BinOp, second: BinOp) {
    first in PRODUCTS ||
    (first in SUMS && second !in PRODUCTS) ||
    (first in COMPARISONS && second !in PRODUCTS + SUMS) ||
    (first == BitAnd && second in {BitAnd, BitXor, BitOr, LogAnd, LogOr}) ||
    (first == BitXor && second in {BitXor, BitOr, LogAnd, LogOr}) ||
    (first == BitOr && second in {BitOr, LogAnd, LogOr}) ||
    (first == LogAnd && second in {LogAnd, LogOr}) ||
    (first == LogOr && second == LogOr)
  }

  lemma OperandWritten(t: seq<Tok>, e: Expr)
    requires Operand(t, e)
    ensures t == Yield(e) && Grammar(e) && Rank(e) <= UNARY
  {
    hide ParseUnary, Yield, Grammar;
    UnaryReads(t);
    assert Yield(e) + [] == Yield(e);
  }

  lemma StopsEnds(rest: seq<Tok>)
    requires Stops(rest)
    ensures Ends(rest, ASSIGNMENT)
  {
  }

  lemma ExprBack(e: Expr, rest: seq<Tok>)
    requires Grammar(e) && Stops(rest)
    ensures ParseExpr(Yield(e) + rest) == Some((e, rest))
  {
    hide ParseExpr, Ends, Grammar;
    StopsEnds(rest);
    RankTop(e);
    RoundTrip(e, ASSIGNMENT, rest);
  }

  lemma RankTop(e: Expr)
    ensures Rank(e) <= ASSIGNMENT
  {
  }

  lemma TakesLevels(first: BinOp, second: BinOp)
    ensures TakesMiddle(first, second) <==> LevelOf(first) <= LevelOf(second)
  {
  }

  /** Operands joined by an operator. */
  lemma Joined(op: BinOp, l: Expr, r: Expr)
    requires Grammar(l) && Grammar(r) && Rank(l) <= LevelOf(op) && Rank(r) < LevelOf(op)
    ensures Grammar(Bin(op, l, r)) && Rank(Bin(op, l, r)) == LevelOf(op)
    ensures Yield(Bin(op, l, r)) == Yield(l) + [TBin(op)] + Yield(r)
  {
  }

  lemma Chosen(c: Expr, a: Expr, b: Expr)
    requires Grammar(c) && Grammar(a) && Grammar(b) && Rank(c) <= TOP_LEVEL
    ensures Grammar(Cond(c, a, b)) && Yield(Cond(c, a, b)) == Yield(c) + [Quest] + Yield(a) + [Colon] + Yield(b)
  {
  }

  lemma Stored(w: Option<BinOp>, l: Expr, x: Expr)
    requires Grammar(l) && Grammar(x) && Rank(l) <= TOP_LEVEL && (w.Some? ==> w.value in ASSIGNED)
    ensures Grammar(Assign(w, l, x)) && Yield(Assign(w, l, x)) == Yield(l) + [TAssign(w)] + Yield(x)
  {
  }

  const ASSIGNED: set<BinOp> := {Add, Sub, Mul, Div, BitAnd, BitOr, BitXor}

  /** `a first b second c` for every pair of operators. */
  lemma Precedence(a: seq<Tok>, b: seq<Tok>, c: seq<Tok>, x: Expr, y: Expr, z: Expr, first: BinOp, second: BinOp,
                   rest: seq<Tok>)
    requires Operand(a, x) && Operand(b, y) && Operand(c, z) && Stops(rest)
    ensures ParseExpr(a + [TBin(first)] + b + [TBin(second)] + c + rest)
         == Some((if TakesMiddle(first, second) then Bin(second, Bin(first, x, y), z)
                  else Bin(first, x, Bin(second, y, z)), rest))
  {
    hide Operand, ParseExpr, TakesMiddle, LevelOf, Yield, Grammar, Rank, Stops;
    OperandWritten(a, x);
    OperandWritten(b, y);
    OperandWritten(c, z);
    TakesLevels(first, second);
    if TakesMiddle(first, second) {
      Joined(first, x, y);
      Joined(second, Bin(first, x, y), z);
      ExprBack(Bin(second, Bin(first, x, y), z), rest);
    } else {
      Joined(second, y, z);
      Joined(first, x, Bin(second, y, z));
      ExprBack(Bin(first, x, Bin(second, y, z)), rest);
      Tail3(a + [TBin(first)], b, [TBin(second)], c);
    }
  }

  /** A condition is everything up to `?`; what stands behind `:` is a whole expression, so that conditionals
      nest to the right. */
  lemma Conditional(a: seq<Tok>, b: seq<Tok>, c: seq<Tok>, d: seq<Tok>, x: Expr, y: Expr, z: Expr, v: Expr, op: BinOp,
                    with: BinOp, rest: seq<Tok>)
    requires Operand(a, x) && Operand(b, y) && Operand(c, z) && Operand(d, v) && Stops(rest)
    ensures ParseExpr(a + [TBin(op)] + b + [Quest] + c + [Colon] + d + [TBin(with)] + a + rest)
         == Some((Cond(Bin(op, x, y), z, Bin(with, v, x)), rest))
    ensures ParseExpr(a + [Quest] + b + [Colon] + c + [Quest] + d + [Colon] + a + rest)
         == Some((Cond(x, y, Cond(z, v, x)), rest))
  {
    hide Operand, ParseExpr, LevelOf, Yield, Grammar, Rank, Stops;
    OperandWritten(a, x);
    OperandWritten(b, y);
    OperandWritten(c, z);
    OperandWritten(d, v);
    Joined(op, x, y);
    Joined(with, v, x);
    Chosen(Bin(op, x, y), z, Bin(with, v, x));
    Chosen(z, v, x);
    Chosen(x, y, Cond(z, v, x));
    ExprBack(Cond(Bin(op, x, y), z, Bin(with, v, x)), rest);
    ExprBack(Cond(x, y, Cond(z, v, x)), rest);
    Tail3(a + [TBin(op)] + b + [Quest] + c + [Colon], d, [TBin(with)], a);
    Tail5(a + [Quest] + b + [Colon], c, [Quest], d, [Colon], a);
  }

  lemma Tail3<T>(head: seq<T>, a: seq<T>, b: seq<T>, c: seq<T>)
    ensures head + (a + b + c) == head + a + b + c
  {
  }

  lemma Tail5<T>(head: seq<T>, a: seq<T>, b: seq<T>, c: seq<T>, d: seq<T>, e: seq<T>)
    ensures head + (a + b + c + d + e) == head + a + b + c + d + e
  {
  }

  /** Assignments come last and associate to the right.  There are `=`, `+=`, `-=`, `*=`, `/=`, `&=`, `|=` and
      `^=`; no other token assigns. */
  lemma Assignment(a: seq<Tok>, b: seq<Tok>, c: seq<Tok>, x: Expr, y: Expr, z: Expr, w: Option<BinOp>, v: Option<BinOp>,
                   op: BinOp, rest: seq<Tok>)
    requires Operand(a, x) && Operand(b, y) && Operand(c, z) && Stops(rest)
    ensures (w.Some? ==> w.value in ASSIGNED) && (v.Some? ==> v.value in ASSIGNED) ==>
              var t := a + [TAssign(w)] + b;
              ParseExpr(t + [TAssign(v)] + c + rest) == Some((Assign(w, x, Assign(v, y, z)), rest)) &&
              ParseExpr(t + [TBin(op)] + c + rest) == Some((Assign(w, x, Bin(op, y, z)), rest))
    ensures w.Some? && w.value !in ASSIGNED ==> ParseExpr(a + [TAssign(w)] + b) == Some((x, [TAssign(w)] + b))
  {
    hide Operand, ParseExpr, LevelOf, Yield, Grammar, Rank, Stops;
    OperandWritten(a, x);
    OperandWritten(b, y);
    OperandWritten(c, z);
    if (w.Some? ==> w.value in ASSIGNED) && (v.Some? ==> v.value in ASSIGNED) {
      Joined(op, y, z);
      Stored(v, y, z);
      Stored(w, x, Assign(v, y, z));
      Stored(w, x, Bin(op, y, z));
      ExprBack(Assign(w, x, Assign(v, y, z)), rest);
      ExprBack(Assign(w, x, Bin(op, y, z)), rest);
      Tail3(a + [TAssign(w)], b, [TAssign(v)], c);
      Tail3(a + [TAssign(w)], b, [TBin(op)], c);
    }
    if w.Some? && w.value !in ASSIGNED { NoAssignment(a, b, x, w.value); }
  }

  lemma NoAssignment(a: seq<Tok>, b: seq<Tok>, x: Expr, op: BinOp)
    requires a == Yield(x) && Grammar(x) && op !in ASSIGNED
    ensures ParseExpr(a + [TAssign(Some(op))] + b) == Some((x, [TAssign(Some(op))] + b))
  {
    hide ParseExpr, Yield, Grammar;
    var more := [TAssign(Some(op))] + b;
    RankTop(x);
    RoundTrip(x, ASSIGNMENT, more);
    assert a + more == a + [TAssign(Some(op))] + b;
  }
}
