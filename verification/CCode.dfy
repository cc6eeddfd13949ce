/** The code the C compiler emits for a tree: which temporaries, which labels, which lines.

    Temporaries R5..R27 are a stack with `top` of them in use.  A variable takes two, its address
    and its value; the address stays remembered (`addr`) until the expression is used as a plain
    value, so that an assignment can store through it. */
module CCode {
  import opened Words
  import opened Machine
  import opened Assembly
  import opened CSyntax

  const TEMP_BASE: nat := 5
  const TEMP_TOP: nat := 27
  const SCRATCH: nat := 28
  const FP: nat := 29
  const RET: nat := 7
  const MAX_ARG_REGS: nat := 4
  const MAX_LABELS: nat := 4096

  /** The internal label `_L<n>`. */
  function L(n: nat): Name { Name("_L", n, 0) }

  // ----- symbols -----

  /** Offsets from the frame pointer; the newest entry of a name is the visible one. */
  type Offset = n: nat | n < 0x8000_0000

  type Symbols = seq<(string, Offset)>

  function Find(syms: Symbols, x: string): Option<Offset> {
    if syms == [] then None
    else if syms[|syms| - 1].0 == x then Some(syms[|syms| - 1].1)
    else Find(syms[..|syms| - 1], x)
  }

  // ----- expressions -----

  /** After an expression: its register, the temporaries and labels in use, the register with the
      address it can be stored through, and the lines emitted. */
  datatype Out = Out(r: RegIx, top: nat, labels: nat, addr: Option<RegIx>, code: seq<Line>)

  function Alloc(top: nat): Option<RegIx> {
    if TEMP_BASE + top > TEMP_TOP then None else Some(TEMP_BASE + top)
  }

  function FreeOne(top: nat): nat { if top > 0 then top - 1 else 0 }

  /** A value that may still carry its address, moved down into the address register. */
  function AsValue(o: Out): Out {
    match o.addr
    case None => o
    case Some(a) =>
      if a == o.r then o.(addr := None)
      else Out(a, FreeOne(o.top), o.labels, None, o.code + [RR(ADD, a, o.r, 0)])
  }

  function OpcodeOf(op: BinOp): Opcode {
    match op
    case Add => ADD
    case Sub => SUB
    case Mul => MUL
    case Div => DIV
    case CmpEq => CMPEQ
    case CmpNe => CMPNE
    case CmpLt => CMPLT
    case CmpLe => CMPLE
    case CmpGt => CMPLT
    case CmpGe => CMPLE
    case BitAnd => AND
    case BitXor => XOR
    case LogAnd => AND
    case _ => OR
  }

  /** The lines that combine two registers into the left one. */
  function Combine(op: BinOp, l: RegIx, r: RegIx): seq<Line> {
    match op
    case CmpGt => [RR(CMPLT, l, r, l)]
    case CmpGe => [RR(CMPLE, l, r, l)]
    case LogAnd => [RR(CMPNE, l, l, 0), RR(CMPNE, r, r, 0), RR(AND, l, l, r)]
    case LogOr => [RR(OR, l, l, r), RR(CMPNE, l, l, 0)]
    case _ => [RR(OpcodeOf(op), l, l, r)]
  }

  /** `%` takes one more temporary for the quotient, and does not forget the right operand's address. */
  function Modulo(l: RegIx, r: RegIx, q: RegIx): seq<Line> {
    [RR(DIV, q, l, r), RR(MUL, q, q, r), RR(SUB, l, l, q)]
  }

  function StepOp(inc: bool): Opcode { if inc then ADD else SUB }

  function Gen(e: Expr, top: nat, labels: nat, syms: Symbols): Option<Out>
    decreases e
  {
    match e
    case Num(n) =>
      (match Alloc(top)
       case None => None
       case Some(r) => Some(Out(r, top + 1, labels, None, [LoadImm(r, n)])))
    case Var(x) =>
      if Find(syms, x).None? || Alloc(top + 1).None? then None
      else
        var a, r := TEMP_BASE + top, TEMP_BASE + top + 1;
        Some(Out(r, top + 2, labels, Some(a), Variable(a, r, Find(syms, x).value)))
    case Paren(x) => Gen(x, top, labels, syms)
    case Post(inc, x) =>
      (match Gen(x, top, labels, syms)
       case None => None
       case Some(o) => GenPost(inc, o))
    case Pre(inc, x) =>
      (match Gen(x, top, labels, syms)
       case None => None
       case Some(o) => GenPre(inc, o))
    case Neg(x) =>
      (match Gen(x, top, labels, syms)
       case None => None
       case Some(o) => Some(GenUnary(e, o)))
    case Not(x) =>
      (match Gen(x, top, labels, syms)
       case None => None
       case Some(o) => Some(GenUnary(e, o)))
    case Com(x) =>
      (match Gen(x, top, labels, syms)
       case None => None
       case Some(o) => Some(GenUnary(e, o)))
    case Bin(op, l, r) =>
      (match Gen(l, top, labels, syms)
       case None => None
       case Some(o) =>
         var left := AsValue(o);
         match Gen(r, left.top, left.labels, syms)
         case None => None
         case Some(right) => GenBin(op, left, right))
    case Cond(c, a, b) =>
      (match Gen(c, top, labels, syms)
       case None => None
       case Some(co) =>
         var base := FreeOne(co.top);
         if co.labels + 1 >= MAX_LABELS || Alloc(base).None? then None
         else
           match Gen(a, base + 1, co.labels + 2, syms)
           case None => None
           case Some(ao) =>
             match Gen(b, base + 1, ao.labels, syms)
             case None => None
             case Some(bo) => Some(GenCond(co, ao, bo)))
    case Assign(w, l, x) =>
      (match Gen(l, top, labels, syms)
       case None => None
       case Some(lo) =>
         match Gen(x, lo.top, lo.labels, syms)
         case None => None
         case Some(xo) => GenAssign(w, lo, xo))
  }

  /** The address of a local, then its value. */
  function Variable(a: RegIx, r: RegIx, offset: Offset): seq<Line> {
    [LoadImm(SCRATCH, offset), RR(ADD, a, FP, SCRATCH), RI(LOAD, r, a, 0)]
  }

  function GenPost(inc: bool, o: Out): Option<Out> {
    if o.addr.None? || Alloc(o.top + 1).None? then None
    else
      var one, sum := TEMP_BASE + o.top, TEMP_BASE + o.top + 1;
      Some(o.(code := o.code + [LoadImm(one, 1), RR(StepOp(inc), sum, o.r, one), RI(STORE, sum, o.addr.value, 0)]))
  }

  function GenPre(inc: bool, o: Out): Option<Out> {
    if o.addr.None? then None
    else
      Some(o.(code := o.code + [LoadImm(SCRATCH, 1), RR(StepOp(inc), o.r, o.r, SCRATCH),
                                RI(STORE, o.r, o.addr.value, 0)]))
  }

  /** `-`, `!` and `~`. */
  function GenUnary(e: Expr, o: Out): Out {
    var v := AsValue(o);
    v.(code := v.code + if e.Neg? then [RR(SUB, v.r, 0, v.r)]
                        else if e.Not? then [RR(CMPEQ, v.r, v.r, 0)]
                        else [LoadImm(SCRATCH, -1), RR(XOR, v.r, v.r, SCRATCH)])
  }

  function GenBin(op: BinOp, left: Out, right: Out): Option<Out> {
    if op != Mod then
      Some(Out(left.r, FreeOne(right.top), right.labels, None, left.code + right.code + Combine(op, left.r, right.r)))
    else
      match Alloc(right.top)
      case None => None
      case Some(q) =>
        Some(Out(left.r, FreeOne(right.top), right.labels, right.addr,
                 left.code + right.code + Modulo(left.r, right.r, q)))
  }

  /** Both arms are computed above the result register and moved into it. */
  function GenCond(co: Out, ao: Out, bo: Out): Out
    requires Alloc(FreeOne(co.top)).Some?
  {
    var base := FreeOne(co.top);
    var result := TEMP_BASE + base;
    var no, end := co.labels, co.labels + 1;
    Out(result, base + 1, bo.labels, None,
        co.code + [JumpZ(co.r, L(no))] + ao.code + [RR(ADD, result, ao.r, 0), Jump(L(end)), LabelDef(L(no))]
        + bo.code + [RR(ADD, result, bo.r, 0), LabelDef(L(end))])
  }

  function GenAssign(w: Option<BinOp>, lo: Out, xo: Out): Option<Out> {
    if lo.addr.None? || (w.Some? && (!AssignOp(w.value) || Alloc(xo.top).None?)) then None
    else
      var r := if w.Some? then TEMP_BASE + xo.top else xo.r;
      Some(Out(r, if w.Some? then xo.top + 1 else xo.top, xo.labels, lo.addr,
               lo.code + xo.code + (if w.Some? then [RR(OpcodeOf(w.value), r, lo.r, xo.r)] else [])
               + [RI(STORE, r, lo.addr.value, 0)]))
  }
}
