/** What a tree of the C subset means: values are 64-bit words, variables are slots of a frame,
    and every operator evaluates both operands, left first (`&&` and `||` included). */
module CMeaning {
  import opened Words
  import opened Machine
  import opened CSyntax
  import opened CUses
  import C = CCode

  /** `env[j]` is the word at offset `2 + j` of the frame. */
  type Env = seq<Word>

  /** `Wrong` is a name that is not a variable of the frame, or an assignment to something that is
      no variable; the compiler rejects both. */
  datatype Value = Ok(v: Word, env: Env) | DivFault | Wrong

  function SlotOf(syms: C.Symbols, x: string, env: Env): Option<nat> {
    match C.Find(syms, x)
    case None => None
    case Some(off) => if 2 <= off < 2 + |env| then Some(off - 2) else None
  }

  function Truth(b: bool): Word { if b then 1 else 0 }

  /** The value of an operator; None where the division is undefined. */
  function Apply(op: BinOp, a: Word, b: Word): Option<Word> {
    match op
    case Add => Some(Wrap(a + b))
    case Sub => Some(Wrap(a - b))
    case Mul => Some(Wrap(a * b))
    case Div => if SignedDivisionDefined(a, b) then Some(Wrap(TruncDiv(Signed(a), Signed(b)))) else None
    case Mod =>
      if SignedDivisionDefined(a, b) then Some(Wrap(Signed(a) - Signed(b) * TruncDiv(Signed(a), Signed(b)))) else None
    case CmpEq => Some(Truth(a == b))
    case CmpNe => Some(Truth(a != b))
    case CmpLt => Some(Truth(Signed(a) < Signed(b)))
    case CmpLe => Some(Truth(Signed(a) <= Signed(b)))
    case CmpGt => Some(Truth(Signed(a) > Signed(b)))
    case CmpGe => Some(Truth(Signed(a) >= Signed(b)))
    case BitAnd => Some(And(a, b))
    case BitXor => Some(Xor(a, b))
    case BitOr => Some(Or(a, b))
    case LogAnd => Some(Truth(a != 0 && b != 0))
    case LogOr => Some(Truth(a != 0 || b != 0))
  }

  function Stepped(inc: bool, v: Word): Word { Wrap(if inc then v + 1 else v - 1) }

  /** Storing through an lvalue. */
  function StoreTo(l: Expr, v: Word, result: Word, syms: C.Symbols, env: Env): Value {
    match Place(l)
    case None => Wrong
    case Some(x) =>
      match SlotOf(syms, x, env)
      case None => Wrong
      case Some(j) => Ok(result, env[j := v])
  }

  function Eval(e: Expr, syms: C.Symbols, env: Env): Value
    decreases e
  {
    match e
    case Num(n) => Ok(n, env)
    case Var(x) =>
      (match SlotOf(syms, x, env)
       case None => Wrong
       case Some(j) => Ok(env[j], env))
    case Paren(x) => Eval(x, syms, env)
    case Post(inc, x) =>
      var w := Eval(x, syms, env);
      if w.Ok? then StoreTo(x, Stepped(inc, w.v), w.v, syms, w.env) else w
    case Pre(inc, x) =>
      var w := Eval(x, syms, env);
      if w.Ok? then StoreTo(x, Stepped(inc, w.v), Stepped(inc, w.v), syms, w.env) else w
    case Neg(x) =>
      var w := Eval(x, syms, env);
      if w.Ok? then Ok(Wrap(-(w.v as int)), w.env) else w
    case Not(x) =>
      var w := Eval(x, syms, env);
      if w.Ok? then Ok(Truth(w.v == 0), w.env) else w
    case Com(x) =>
      var w := Eval(x, syms, env);
      if w.Ok? then Ok(TWO_TO_64 - 1 - w.v, w.env) else w
    case Bin(op, l, r) =>
      var a := Eval(l, syms, env);
      if !a.Ok? then a
      else
        var b := Eval(r, syms, a.env);
        if !b.Ok? then b
        else (
          match Apply(op, a.v, b.v)
          case None => DivFault
          case Some(v) => Ok(v, b.env)
        )
    case Cond(c, a, b) =>
      var w := Eval(c, syms, env);
      if !w.Ok? then w else if w.v != 0 then Eval(a, syms, w.env) else Eval(b, syms, w.env)
    case Assign(with, l, x) =>
      var a := Eval(l, syms, env);
      if !a.Ok? then a
      else
        var b := Eval(x, syms, a.env);
        if !b.Ok? then b
        else
          match with
          case None => StoreTo(l, b.v, b.v, syms, b.env)
          case Some(op) =>
            match Apply(op, a.v, b.v)
            case None => DivFault
            case Some(v) => StoreTo(l, v, v, syms, b.env)
  }

  /** What C asks of `&&` and `||`: the right operand is evaluated only where the left one does not decide. */
  function ShortCircuit(op: BinOp, l: Expr, r: Expr, syms: C.Symbols, env: Env): Value {
    var a := Eval(l, syms, env);
    if !a.Ok? then a
    else if op.LogAnd? && a.v == 0 then Ok(0, a.env)
    else if op.LogOr? && a.v != 0 then Ok(1, a.env)
    else
      var b := Eval(r, syms, a.env);
      if b.Ok? then Ok(Truth(b.v != 0), b.env) else b
  }

  /** The code evaluates both: right exactly when a right operand that C leaves out is evaluated without a fault
      and without an effect. */
  lemma BothEvaluated(op: BinOp, l: Expr, r: Expr, syms: C.Symbols, env: Env)
    requires (op == LogAnd || op == LogOr) && Eval(l, syms, env).Ok?
    ensures var a := Eval(l, syms, env);
            var b := Eval(r, syms, a.env);
            var decided := if op == LogAnd then a.v == 0 else a.v != 0;
            Eval(Bin(op, l, r), syms, env) == ShortCircuit(op, l, r, syms, env)
            <==> (decided ==> b.Ok? && b.env == a.env)
  {
  }
}
