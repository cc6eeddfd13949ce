/** The WebAssembly fragment the translator is proved for: structured control with empty block
    types, locals, constants, integer arithmetic, comparisons and conversions, with the
    meaning of sections 4.3 and 4.4 of the WebAssembly Core Specification. */
module Wasm {
  import opened Words
  import opened Machine
  import opened Assembly

  datatype ValType = T32 | T64

  datatype Val = I32(u: Half) | I64(w: Word)

  function TypeOf(v: Val): ValType { if v.I32? then T32 else T64 }

  /** The value as the bits of a 64-bit register. */
  function Raw(v: Val): Word { if v.I32? then v.u else v.w }

  function Bool(b: bool): Val { I32(if b then 1 else 0) }

  datatype BinOp = Add | Sub | Mul | DivS | DivU | RemS | RemU | AndB | OrB | XorB
                 | ShlB | ShrS | ShrU | Rotl | Rotr

  datatype RelOp = Eq | Ne | LtS | LtU | GtS | GtU | LeS | LeU | GeS | GeU

  datatype Leaf =
    | Nop | Unreachable | Return | Drop | Select
    | LocalGet(ix: nat) | LocalSet(ix: nat) | LocalTee(ix: nat)
    | Const(ty: ValType, value: Imm64)
    | Bin(ty: ValType, bin: BinOp) | Rel(ty: ValType, rel: RelOp) | Eqz(ty: ValType)
    | WrapI64 | ExtendU | ExtendS | Narrow(ty: ValType, bits: nat)
    | Br(depth: nat) | BrIf(depth: nat) | BrTable(depths: seq<nat>, default: nat)

  datatype Instr =
    | Do(leaf: Leaf)
    | Block(body: seq<Instr>)
    | Loop(body: seq<Instr>)
    | If(thn: seq<Instr>)
    | IfElse(thn: seq<Instr>, els: seq<Instr>)

  // ----- numbers -----

  function Width(ty: ValType): nat { if ty.T32? then 32 else 64 }

  function Modulus(ty: ValType): nat { if ty.T32? then 0x1_0000_0000 else 0x1_0000_0000_0000_0000 }

  /** The value `v mod 2^N`. */
  function Make(ty: ValType, v: int): Val {
    if ty.T32? then I32(v % 0x1_0000_0000) else I64(v % 0x1_0000_0000_0000_0000)
  }

  /** Two's complement reading at width N. */
  function SignedAt(ty: ValType, x: nat): int
    requires x < Modulus(ty)
  {
    if x < Modulus(ty) / 2 then x else x - Modulus(ty)
  }

  function Num(v: Val): (x: nat)
    ensures x < Modulus(TypeOf(v))
  {
    Raw(v)
  }

  /** Section 4.3.2; None is a trap. */
  function EvalBin(ty: ValType, op: BinOp, a: nat, b: nat): Option<Val>
    requires a < Modulus(ty) && b < Modulus(ty)
  {
    var n := Modulus(ty);
    var sa, sb := SignedAt(ty, a), SignedAt(ty, b);
    var k := b % Width(ty);
    match op
    case Add => Some(Make(ty, a + b))
    case Sub => Some(Make(ty, a - b))
    case Mul => Some(Make(ty, a * b))
    case DivS => if b == 0 || (sa == -(n / 2) && sb == -1) then None else Some(Make(ty, TruncDiv(sa, sb)))
    case DivU => if b == 0 then None else Some(Make(ty, a / b))
    case RemS => if b == 0 then None else Some(Make(ty, sa - sb * TruncDiv(sa, sb)))
    case RemU => if b == 0 then None else Some(Make(ty, a % b))
    case AndB => Some(Make(ty, Bits(BitAnd, a, b)))
    case OrB => Some(Make(ty, Bits(BitOr, a, b)))
    case XorB => Some(Make(ty, Bits(BitXor, a, b)))
    case ShlB => Some(Make(ty, a * Pow2(k)))
    case ShrS => Some(Make(ty, FloorDiv(sa, Pow2(k))))
    case ShrU => Some(Make(ty, a / Pow2(k)))
    case Rotl => Some(Make(ty, RotateLeft(ty, a, k)))
    case Rotr => Some(Make(ty, RotateLeft(ty, a, Width(ty) - k)))
  }

  function FloorDiv(x: int, d: nat): int
    requires d >= 1
  {
    x / d
  }

  /** The low `N - k` bits move up by `k`, the high `k` bits come in below. */
  function RotateLeft(ty: ValType, a: nat, k: nat): int
    requires k <= Width(ty)
  {
    a * Pow2(k) % Modulus(ty) + a / Pow2(Width(ty) - k)
  }

  predicate EvalRel(ty: ValType, op: RelOp, a: nat, b: nat)
    requires a < Modulus(ty) && b < Modulus(ty)
  {
    var sa, sb := SignedAt(ty, a), SignedAt(ty, b);
    match op
    case Eq => a == b
    case Ne => a != b
    case LtS => sa < sb
    case LtU => a < b
    case GtS => sa > sb
    case GtU => a > b
    case LeS => sa <= sb
    case LeU => a <= b
    case GeS => sa >= sb
    case GeU => a >= b
  }

  /** The low `bits` bits read as two's complement. */
  function ExtendFrom(x: nat, bits: nat): int
    requires bits >= 1
  {
    var low := x % Pow2(bits);
    if low < Pow2(bits - 1) then low else low - Pow2(bits)
  }

  // ----- execution -----

  datatype Config = Config(stack: seq<Val>, locals: seq<Val>)

  /** `Stuck` is an operand of the wrong type or a missing one; validation excludes it. */
  datatype Outcome =
    | Normal(c: Config)
    | Branching(depth: nat, c: Config)
    | Returned(c: Config)
    | Trap
    | Stuck
    | Timeout

  function Push(c: Config, v: Val): Outcome { Normal(c.(stack := c.stack + [v])) }

  function Pop(c: Config, k: nat): seq<Val>
    requires k <= |c.stack|
  {
    c.stack[..|c.stack| - k]
  }

  /** The operand `k` below the top. */
  function Operand(c: Config, k: nat): Val
    requires k < |c.stack|
  {
    c.stack[|c.stack| - 1 - k]
  }

  function ExecLeaf(leaf: Leaf, c: Config): Outcome {
    var n := |c.stack|;
    match leaf
    case Nop => Normal(c)
    case Unreachable => Trap
    case Return => Returned(c)
    case Drop => if n < 1 then Stuck else Normal(c.(stack := Pop(c, 1)))
    case Select =>
      if n < 3 || !Operand(c, 0).I32? then Stuck
      else if Operand(c, 0).u != 0 then Normal(c.(stack := Pop(c, 2)))
      else Normal(c.(stack := Pop(c, 3) + [Operand(c, 1)]))
    case LocalGet(i) => if i >= |c.locals| then Stuck else Push(c, c.locals[i])
    case LocalSet(i) =>
      if i >= |c.locals| || n < 1 then Stuck
      else Normal(Config(Pop(c, 1), c.locals[i := Operand(c, 0)]))
    case LocalTee(i) =>
      if i >= |c.locals| || n < 1 then Stuck
      else Normal(c.(locals := c.locals[i := Operand(c, 0)]))
    case Const(ty, v) => Push(c, Make(ty, v))
    case Bin(ty, op) =>
      if n < 2 || TypeOf(Operand(c, 0)) != ty || TypeOf(Operand(c, 1)) != ty then Stuck
      else (
        match EvalBin(ty, op, Num(Operand(c, 1)), Num(Operand(c, 0)))
        case None => Trap
        case Some(v) => Normal(c.(stack := Pop(c, 2) + [v]))
      )
    case Rel(ty, op) =>
      if n < 2 || TypeOf(Operand(c, 0)) != ty || TypeOf(Operand(c, 1)) != ty then Stuck
      else Normal(c.(stack := Pop(c, 2) + [Bool(EvalRel(ty, op, Num(Operand(c, 1)), Num(Operand(c, 0))))]))
    case Eqz(ty) =>
      if n < 1 || TypeOf(Operand(c, 0)) != ty then Stuck
      else Normal(c.(stack := Pop(c, 1) + [Bool(Num(Operand(c, 0)) == 0)]))
    case WrapI64 => if n < 1 || !Operand(c, 0).I64? then Stuck else Unary(c, T32, Num(Operand(c, 0)))
    case ExtendU => if n < 1 || !Operand(c, 0).I32? then Stuck else Unary(c, T64, Num(Operand(c, 0)))
    case ExtendS =>
      if n < 1 || !Operand(c, 0).I32? then Stuck else Unary(c, T64, SignedAt(T32, Num(Operand(c, 0))))
    case Narrow(ty, bits) =>
      if n < 1 || bits < 1 || TypeOf(Operand(c, 0)) != ty then Stuck
      else Unary(c, ty, ExtendFrom(Num(Operand(c, 0)), bits))
    case Br(l) => Branching(l, c)
    case BrIf(l) =>
      if n < 1 || !Operand(c, 0).I32? then Stuck
      else if Operand(c, 0).u != 0 then Branching(l, c.(stack := Pop(c, 1)))
      else Normal(c.(stack := Pop(c, 1)))
    case BrTable(ls, d) =>
      if n < 1 || !Operand(c, 0).I32? then Stuck
      else
        var u := Operand(c, 0).u;
        Branching(if u < |ls| then ls[u] else d, c.(stack := Pop(c, 1)))
  }

  function Unary(c: Config, ty: ValType, v: int): Outcome
    requires |c.stack| >= 1
  {
    Normal(c.(stack := Pop(c, 1) + [Make(ty, v)]))
  }

  /** Operands above the height at which the block was entered are dropped. */
  function Unwind(c: Config, height: nat): Config {
    if height <= |c.stack| then c.(stack := c.stack[..height]) else c
  }

  /** A block ends normally, or by a branch to its own label. */
  function Leave(o: Outcome, height: nat): Outcome {
    match o
    case Branching(l, c) => if l == 0 then Normal(Unwind(c, height)) else Branching(l - 1, c)
    case _ => o
  }

  /** `fuel` bounds how often a loop is re-entered; `Timeout` says the bound was met. */
  function ExecSeq(code: seq<Instr>, c: Config, fuel: nat): Outcome
    decreases fuel, code
  {
    if code == [] then Normal(c)
    else
      match Exec(code[0], c, fuel)
      case Normal(c') => ExecSeq(code[1..], c', fuel)
      case o => o
  }

  function Exec(i: Instr, c: Config, fuel: nat): Outcome
    decreases fuel, i
  {
    match i
    case Do(leaf) => ExecLeaf(leaf, c)
    case Block(body) => Leave(ExecSeq(body, c, fuel), |c.stack|)
    case Loop(body) =>
      var o := ExecSeq(body, c, fuel);
      if o.Branching? && o.depth == 0
      then if fuel == 0 then Timeout else Exec(i, Unwind(o.c, |c.stack|), fuel - 1)
      else Leave(o, |c.stack|)
    case If(thn) =>
      if |c.stack| < 1 || !Operand(c, 0).I32? then Stuck
      else
        var c' := c.(stack := Pop(c, 1));
        if Operand(c, 0).u != 0 then Leave(ExecSeq(thn, c', fuel), |c'.stack|) else Normal(c')
    case IfElse(thn, els) =>
      if |c.stack| < 1 || !Operand(c, 0).I32? then Stuck
      else
        var c' := c.(stack := Pop(c, 1));
        Leave(if Operand(c, 0).u != 0 then ExecSeq(thn, c', fuel) else ExecSeq(els, c', fuel), |c'.stack|)
  }

  // ----- the fourth operand -----

  /** The last value that was the fourth operand from the bottom, or `q` if there was none. */
  function FourthLeaf(leaf: Leaf, c: Config, q: Word): Word {
    match ExecLeaf(leaf, c)
    case Normal(after) => if |after.stack| >= 4 then Raw(after.stack[3]) else q
    case _ => q
  }

  function FourthSeq(code: seq<Instr>, c: Config, fuel: nat, q: Word): Word
    decreases fuel, code
  {
    if code == [] then q
    else
      var q1 := FourthInstr(code[0], c, fuel, q);
      match Exec(code[0], c, fuel)
      case Normal(after) => FourthSeq(code[1..], after, fuel, q1)
      case _ => q1
  }

  function FourthInstr(i: Instr, c: Config, fuel: nat, q: Word): Word
    decreases fuel, i
  {
    match i
    case Do(leaf) => FourthLeaf(leaf, c, q)
    case Block(body) => FourthSeq(body, c, fuel, q)
    case Loop(body) =>
      var q1, o := FourthSeq(body, c, fuel, q), ExecSeq(body, c, fuel);
      if o.Branching? && o.depth == 0 && fuel > 0
      then FourthInstr(i, Unwind(o.c, |c.stack|), fuel - 1, q1) else q1
    case If(thn) =>
      if |c.stack| < 1 || !Operand(c, 0).I32? || Operand(c, 0).u == 0 then q
      else FourthSeq(thn, c.(stack := Pop(c, 1)), fuel, q)
    case IfElse(thn, els) =>
      if |c.stack| < 1 || !Operand(c, 0).I32? then q
      else FourthSeq(if Operand(c, 0).u != 0 then thn else els, c.(stack := Pop(c, 1)), fuel, q)
  }

  // ----- fuel does not change a finished run -----

  lemma {:induction false} MoreFuel(code: seq<Instr>, c: Config, fuel: nat, more: nat)
    requires fuel <= more && !ExecSeq(code, c, fuel).Timeout?
    ensures ExecSeq(code, c, more) == ExecSeq(code, c, fuel)
    decreases fuel, code
  {
    hide ExecLeaf;
    if code != [] {
      MoreFuelInstr(code[0], c, fuel, more);
      var o := Exec(code[0], c, fuel);
      if o.Normal? { MoreFuel(code[1..], o.c, fuel, more); }
    }
  }

  lemma {:induction false} MoreFuelInstr(i: Instr, c: Config, fuel: nat, more: nat)
    requires fuel <= more && !Exec(i, c, fuel).Timeout?
    ensures Exec(i, c, more) == Exec(i, c, fuel)
    decreases fuel, i
  {
    hide ExecLeaf;
    match i
    case Do(_) =>
    case Block(body) => MoreFuel(body, c, fuel, more);
    case Loop(body) =>
      MoreFuel(body, c, fuel, more);
      var o := ExecSeq(body, c, fuel);
      if o.Branching? && o.depth == 0 {
        MoreFuelInstr(i, Unwind(o.c, |c.stack|), fuel - 1, more - 1);
      }
    case If(thn) =>
      if |c.stack| >= 1 && Operand(c, 0).I32? && Operand(c, 0).u != 0 {
        MoreFuel(thn, c.(stack := Pop(c, 1)), fuel, more);
      }
    case IfElse(thn, els) =>
      if |c.stack| >= 1 && Operand(c, 0).I32? {
        var c' := c.(stack := Pop(c, 1));
        if Operand(c, 0).u != 0 { MoreFuel(thn, c', fuel, more); } else { MoreFuel(els, c', fuel, more); }
      }
  }

  // ----- validation of one instruction -----

  /** What validation knows of the enclosing function; `atomic` admits the shift instructions,
      whose generated loops need jumps that keep R27. */
  datatype Context = Context(locals: seq<ValType>, result: Option<ValType>, atomic: bool)

  /** The operators whose one-instruction translation is right for all operands. */
  predicate Faithful(ty: ValType, op: BinOp) {
    match op
    case Add => ty.T64?
    case Sub => ty.T64?
    case Mul => ty.T64?
    case DivS => ty.T64?
    case DivU => true
    case RemS => false
    case RemU => true
    case AndB => true
    case OrB => true
    case XorB => true
    case _ => false
  }

  predicate IsShift(op: BinOp) { op in {ShlB, ShrS, ShrU, Rotl, Rotr} }

  /** The shifts whose generated loop is right for all operands. */
  predicate FaithfulShift(ty: ValType, op: BinOp) {
    IsShift(op) && !(ty.T64? && op.ShrS?)
  }

  predicate FaithfulRel(ty: ValType, op: RelOp) {
    ty.T64? || op in {Eq, Ne, LtU, GtU, LeU, GeU}
  }

  /** MOVI zero-extends the bytes it needs; see `Exactness.ConstantExact`. */
  predicate FaithfulConst(ty: ValType, v: Imm64) {
    if ty.T64? then v >= -1024 || MoviBytes(v) == 8 else 0 <= v < 0x8000_0000
  }

  /** Operand types are listed bottom first. */
  function CheckLeaf(leaf: Leaf, ts: seq<ValType>, labels: seq<seq<ValType>>, ctx: Context): Option<seq<ValType>> {
    var n := |ts|;
    match leaf
    case Nop => Some(ts)
    case Unreachable => Some(ts)
    case Return =>
      if ctx.result.None? || (n >= 1 && ts[n - 1] == ctx.result.value) then Some([]) else None
    case Drop => if n < 1 then None else Some(ts[..n - 1])
    case Select =>
      if n < 3 || ts[n - 1] != T32 || ts[n - 2] != ts[n - 3] then None else Some(ts[..n - 2])
    case LocalGet(i) => if i >= |ctx.locals| then None else Some(ts + [ctx.locals[i]])
    case LocalSet(i) =>
      if i >= |ctx.locals| || n < 1 || ts[n - 1] != ctx.locals[i] then None else Some(ts[..n - 1])
    case LocalTee(i) => if i >= |ctx.locals| || n < 1 || ts[n - 1] != ctx.locals[i] then None else Some(ts)
    case Const(ty, v) => if FaithfulConst(ty, v) then Some(ts + [ty]) else None
    case Bin(ty, op) =>
      if n < 2 || ts[n - 1] != ty || ts[n - 2] != ty then None
      else if Faithful(ty, op) || (ctx.atomic && FaithfulShift(ty, op)) then Some(ts[..n - 1]) else None
    case Rel(ty, op) =>
      if n < 2 || ts[n - 1] != ty || ts[n - 2] != ty || !FaithfulRel(ty, op) then None
      else Some(ts[..n - 2] + [T32])
    case Eqz(ty) => if n < 1 || ts[n - 1] != ty then None else Some(ts[..n - 1] + [T32])
    case WrapI64 => if n < 1 || ts[n - 1] != T64 then None else Some(ts[..n - 1] + [T32])
    case ExtendU => if n < 1 || ts[n - 1] != T32 then None else Some(ts[..n - 1] + [T64])
    case ExtendS => if n < 1 || ts[n - 1] != T32 then None else Some(ts[..n - 1] + [T64])
    case Narrow(ty, bits) =>
      if n < 1 || ty != T64 || ts[n - 1] != T64 || bits !in {8, 16, 32} then None else Some(ts)
    case Br(l) => if !Reaches(l, ts, labels) then None else Some(ts)
    case BrIf(l) =>
      if n < 1 || ts[n - 1] != T32 || !Reaches(l, ts[..n - 1], labels) then None else Some(ts[..n - 1])
    case BrTable(ls, d) =>
      if n < 1 || ts[n - 1] != T32 || !Reaches(d, ts[..n - 1], labels) then None
      else if exists k :: 0 <= k < |ls| && !Reaches(ls[k], ts[..n - 1], labels) then None
      else Some(ts[..n - 1])
  }

  /** A branch finds its target's operands at the bottom of the stack; those above are dropped. */
  predicate Reaches(l: nat, ts: seq<ValType>, labels: seq<seq<ValType>>) { l < |labels| && labels[l] <= ts }

  // ----- code that control reaches, and code that it does not -----

  /** The operands where control can be, or the number of operands the translator counts where it
      cannot: behind `return`, `unreachable`, `br` and `br_table`. */
  datatype Height = Live(ts: seq<ValType>) | Dead(count: nat)

  function Depth(h: Height): nat { if h.Live? then |h.ts| else h.count }

  predicate Leaps(leaf: Leaf) { leaf.Return? || leaf.Unreachable? || leaf.Br? || leaf.BrTable? }

  function Less(d: nat, k: nat): nat { if d >= k then d - k else 0 }

  function DeadLeaf(leaf: Leaf, d: nat): nat {
    match leaf
    case Return => 0
    case Drop => Less(d, 1)
    case Select => Less(d, 2)
    case LocalGet(_) => d + 1
    case LocalSet(_) => Less(d, 1)
    case Const(_, _) => d + 1
    case Bin(_, _) => Less(d, 1)
    case Rel(_, _) => Less(d, 1)
    case BrIf(_) => Less(d, 1)
    case BrTable(_, _) => Less(d, 1)
    case _ => d
  }

  /** The operand count behind code that control does not reach; no frame changes it back. */
  function DeadSeq(code: seq<Instr>, d: nat): nat
    decreases code
  {
    if code == [] then d else DeadSeq(code[1..], DeadInstr(code[0], d))
  }

  function DeadInstr(i: Instr, d: nat): nat
    decreases i
  {
    match i
    case Do(leaf) => DeadLeaf(leaf, d)
    case Block(body) => DeadSeq(body, d)
    case Loop(body) => DeadSeq(body, d)
    case If(thn) => DeadSeq(thn, Less(d, 1))
    case IfElse(thn, els) => DeadSeq(els, DeadSeq(thn, Less(d, 1)))
  }

  /** Some branch in the code goes to the frame `l` levels out. */
  predicate Aims(code: seq<Instr>, l: nat)
    decreases code
  {
    code != [] && (AimsInstr(code[0], l) || Aims(code[1..], l))
  }

  predicate AimsInstr(i: Instr, l: nat)
    decreases i
  {
    match i
    case Do(leaf) =>
      (match leaf
       case Br(k) => k == l
       case BrIf(k) => k == l
       case BrTable(ls, k) => k == l || l in ls
       case _ => false)
    case Block(body) => Aims(body, l + 1)
    case Loop(body) => Aims(body, l + 1)
    case If(thn) => Aims(thn, l + 1)
    case IfElse(thn, els) => Aims(thn, l + 1) || Aims(els, l + 1)
  }

  lemma {:induction false} BranchAims(code: seq<Instr>, c: Config, fuel: nat)
    ensures var o := ExecSeq(code, c, fuel); o.Branching? ==> Aims(code, o.depth)
    decreases fuel, code
  {
    hide ExecLeaf;
    if code != [] {
      BranchAimsInstr(code[0], c, fuel);
      var o := Exec(code[0], c, fuel);
      if o.Normal? { BranchAims(code[1..], o.c, fuel); }
    }
  }

  lemma {:induction false} BranchAimsInstr(i: Instr, c: Config, fuel: nat)
    ensures var o := Exec(i, c, fuel); o.Branching? ==> AimsInstr(i, o.depth)
    decreases fuel, i
  {
    hide ExecLeaf;
    match i
    case Do(leaf) => LeafAims(leaf, c);
    case Block(body) => BranchAims(body, c, fuel);
    case Loop(body) =>
      BranchAims(body, c, fuel);
      var o := ExecSeq(body, c, fuel);
      if o.Branching? && o.depth == 0 && fuel > 0 { BranchAimsInstr(i, Unwind(o.c, |c.stack|), fuel - 1); }
    case If(thn) =>
      if |c.stack| >= 1 && Operand(c, 0).I32? { BranchAims(thn, c.(stack := Pop(c, 1)), fuel); }
    case IfElse(thn, els) =>
      if |c.stack| >= 1 && Operand(c, 0).I32? {
        BranchAims(thn, c.(stack := Pop(c, 1)), fuel);
        BranchAims(els, c.(stack := Pop(c, 1)), fuel);
      }
  }

  lemma LeafAims(leaf: Leaf, c: Config)
    ensures var o := ExecLeaf(leaf, c); o.Branching? ==> AimsInstr(Do(leaf), o.depth)
  {
    hide EvalBin, EvalRel, ExtendFrom;
  }

  // ----- validation -----

  /** A frame entered with `ts` and ended at height `h`.  If control arrives behind it, by the end of
      its body or by a branch, the translator's count must be that of `ts` again. */
  function Close(h: Height, ts: seq<ValType>, aimed: bool): Option<Height> {
    if h.Dead? && !aimed then Some(h)
    else if h == Live(ts) || h == Dead(|ts|) then Some(Live(ts))
    else None
  }

  function CheckSeq(code: seq<Instr>, h: Height, labels: seq<seq<ValType>>, ctx: Context): Option<Height>
    decreases code
  {
    if code == [] then Some(h)
    else
      match Check(code[0], h, labels, ctx)
      case None => None
      case Some(h1) => CheckSeq(code[1..], h1, labels, ctx)
  }

  lemma {:induction false} CheckAppend(a: seq<Instr>, b: seq<Instr>, h: Height, labels: seq<seq<ValType>>, ctx: Context)
    ensures CheckSeq(a + b, h, labels, ctx)
         == match CheckSeq(a, h, labels, ctx)
            case None => None
            case Some(h1) => CheckSeq(b, h1, labels, ctx)
    decreases |a|
  {
    hide Check;
    if a == [] {
      assert a + b == b;
    } else {
      assert (a + b)[1..] == a[1..] + b && (a + b)[0] == a[0];
      if Check(a[0], h, labels, ctx).Some? { CheckAppend(a[1..], b, Check(a[0], h, labels, ctx).value, labels, ctx); }
    }
  }

  /** Code whose last operand is the result may end with `return`, whatever lies below that operand. */
  lemma EndsInReturn(code: seq<Instr>, ts: seq<ValType>, ctx: Context)
    requires CheckSeq(code, Live([]), [[]], ctx) == Some(Live(ts))
    requires ctx.result.Some? ==> ts != [] && ts[|ts| - 1] == ctx.result.value
    ensures CheckSeq(code + [Do(Return)], Live([]), [[]], ctx) == Some(Dead(0))
  {
    CheckAppend(code, [Do(Return)], Live([]), [[]], ctx);
    assert [Do(Return)][1..] == [];
    assert Check(Do(Return), Live(ts), [[]], ctx) == Some(Dead(0));
    assert CheckSeq([], Dead(0), [[]], ctx) == Some(Dead(0));
  }

  lemma {:induction false} DeadAppend(a: seq<Instr>, b: seq<Instr>, d: nat)
    ensures DeadSeq(a + b, d) == DeadSeq(b, DeadSeq(a, d))
    decreases |a|
  {
    hide DeadInstr;
    if a == [] {
      assert a + b == b;
    } else {
      assert (a + b)[1..] == a[1..] + b && (a + b)[0] == a[0];
      DeadAppend(a[1..], b, DeadInstr(a[0], d));
    }
  }

  /** An `else` arm starts at the height the first arm ended with. */
  function Check(i: Instr, h: Height, labels: seq<seq<ValType>>, ctx: Context): Option<Height>
    decreases i
  {
    if h.Dead? then Some(Dead(DeadInstr(i, h.count)))
    else
      match i
      case Do(leaf) =>
        (match CheckLeaf(leaf, h.ts, labels, ctx)
         case None => None
         case Some(after) => Some(if Leaps(leaf) then Dead(|after|) else Live(after)))
      case Block(body) =>
        (match CheckSeq(body, h, [h.ts] + labels, ctx)
         case None => None
         case Some(h1) => Close(h1, h.ts, Aims(body, 0)))
      case Loop(body) =>
        (match CheckSeq(body, h, [h.ts] + labels, ctx)
         case None => None
         case Some(h1) => Close(h1, h.ts, false))
      case If(thn) =>
        if |h.ts| < 1 || h.ts[|h.ts| - 1] != T32 then None
        else (
          var ts := h.ts[..|h.ts| - 1];
          match CheckSeq(thn, Live(ts), [ts] + labels, ctx)
          case None => None
          case Some(h1) => Close(h1, ts, true))
      case IfElse(thn, els) =>
        if |h.ts| < 1 || h.ts[|h.ts| - 1] != T32 then None
        else
          var ts := h.ts[..|h.ts| - 1];
          match CheckSeq(thn, Live(ts), [ts] + labels, ctx)
          case None => None
          case Some(h1) =>
            if h1 != Live(ts) && h1 != Dead(|ts|) then None
            else
              match CheckSeq(els, Live(ts), [ts] + labels, ctx)
              case None => None
              case Some(h2) => Close(h2, ts, h1.Live? || Aims(thn, 0) || Aims(els, 0))
  }
}
