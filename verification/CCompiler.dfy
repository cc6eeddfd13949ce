/** The one-pass compiler itself: recursive descent over the remaining tokens, emitting lines as it
    reads.  Each method does what parsing the tree first and generating its code afterwards does. */
module CCompiler {
  import opened Machine
  import opened Assembly
  import opened CSyntax
  import opened CStatements
  import opened CFunctions
  import opened COrder
  import C = CCode

  /** A tree the compiler cannot generate code for does not become one by growing to the right. */
  lemma {:induction false} LoopKeepsNone(k: nat, e: Expr, t: seq<Tok>, top: nat, labels: nat, syms: C.Symbols)
    requires UNARY < k <= TOP_LEVEL && C.Gen(e, top, labels, syms).None?
    ensures Compile(LevelLoop(k, e, t), top, labels, syms).None?
    decreases |t|
  {
    hide ParseLevel;
    if IsBin(t, k) && ParseLevel(k - 1, t[1..]).Some? {
      var p := ParseLevel(k - 1, t[1..]).value;
      LoopKeepsNone(k, Bin(t[0].op, e, p.0), p.1, top, labels, syms);
    }
  }

  lemma {:induction false} PostKeepsNone(e: Expr, t: seq<Tok>, top: nat, labels: nat, syms: C.Symbols)
    requires C.Gen(e, top, labels, syms).None?
    ensures Compile(Some(PostLoop(e, t)), top, labels, syms).None?
    decreases |t|
  {
    if IsStep(t) { PostKeepsNone(Post(t[0] == PlusPlus, e), t[1..], top, labels, syms); }
  }

  class Compiler {
    var toks: seq<Tok>
    var regTop: nat
    var labelCnt: nat
    var exprAddr: Option<RegIx>
    var out: seq<Line>
    var scope: Scope

    constructor (tokens: seq<Tok>)
      ensures toks == tokens && regTop == 0 && labelCnt == 0 && exprAddr == None && out == [] && scope == Scope([], 2)
    {
      toks, regTop, labelCnt, exprAddr, out, scope := tokens, 0, 0, None, [], Scope([], 2);
    }

    /** What a method that reads an expression has done to the compiler. */
    twostate predicate Did(c: Option<(C.Out, seq<Tok>)>, ok: bool, r: RegIx)
      reads this
    {
      scope == old(scope) && ok == c.Some? &&
      (ok ==> var o := c.value.0;
              toks == c.value.1 && r == o.r && regTop == o.top && labelCnt == o.labels && exprAddr == o.addr &&
              out == old(out) + o.code)
    }

    method AllocReg() returns (ok: bool, r: RegIx)
      modifies this`regTop
      ensures ok == C.Alloc(old(regTop)).Some?
      ensures ok ==> r == C.Alloc(old(regTop)).value && regTop == old(regTop) + 1
      ensures !ok ==> regTop == old(regTop)
    {
      r := 0;
      ok := C.TEMP_BASE + regTop <= C.TEMP_TOP;
      if ok {
        r := C.TEMP_BASE + regTop;
        regTop := regTop + 1;
      }
    }

    method FreeReg()
      modifies this`regTop
      ensures regTop == C.FreeOne(old(regTop))
    {
      if regTop > 0 { regTop := regTop - 1; }
    }

    method Emit(line: Line)
      modifies this`out
      ensures out == old(out) + [line]
    {
      out := out + [line];
    }

    method NewLabel() returns (ok: bool, n: nat)
      modifies this`labelCnt
      ensures ok == (old(labelCnt) < C.MAX_LABELS) && n == old(labelCnt)
      ensures labelCnt == if ok then old(labelCnt) + 1 else old(labelCnt)
    {
      n := labelCnt;
      ok := labelCnt < C.MAX_LABELS;
      if ok { labelCnt := labelCnt + 1; }
    }

    /** The pending expression becomes a plain value; `code` is what was emitted for it. */
    method ExprAsValue(r: RegIx, ghost code: seq<Line>) returns (v: RegIx)
      requires |code| <= |out| && out[|out| - |code|..] == code
      modifies this`regTop, this`exprAddr, this`out
      ensures var o := C.AsValue(C.Out(r, old(regTop), labelCnt, old(exprAddr), code));
              v == o.r && regTop == o.top && exprAddr == None && o.addr == None &&
              out == old(out[..|out| - |code|]) + o.code
    {
      v := r;
      assert out == out[..|out| - |code|] + code;
      if exprAddr.Some? && exprAddr.value != r {
        v := exprAddr.value;
        Emit(RR(ADD, v, r, 0));
        FreeReg();
      }
      exprAddr := None;
    }

    method ParsePrimary() returns (ok: bool, r: RegIx)
      modifies this
      ensures Did(Compile(CSyntax.ParsePrimary(old(toks)), old(regTop), old(labelCnt), old(scope.syms)), ok, r)
      decreases |toks|, 0
    {
      exprAddr := None;
      ok, r := false, 0;
      if toks == [] { return; }
      match toks[0]
      case TNum(n) =>
        toks := toks[1..];
        ok, r := AllocReg();
        if ok { Emit(LoadImm(r, n)); }
      case TId(x) =>
        toks := toks[1..];
        var off := C.Find(scope.syms, x);
        if off.None? { return; }
        var a;
        ok, a := AllocReg();
        if !ok { return; }
        Emit(LoadImm(C.SCRATCH, off.value));
        Emit(RR(ADD, a, C.FP, C.SCRATCH));
        ok, r := AllocReg();
        if !ok { return; }
        Emit(RI(LOAD, r, a, 0));
        exprAddr := Some(a);
        assert out == old(out) + C.Variable(a, r, off.value);
      case LParen =>
        toks := toks[1..];
        ok, r := ParseExpr();
        if !ok { return; }
        if toks == [] || toks[0] != RParen { ok := false; return; }
        toks := toks[1..];
      case _ =>
    }

    method ParsePostfix() returns (ok: bool, r: RegIx)
      modifies this
      ensures Did(Compile(CSyntax.ParsePostfix(old(toks)), old(regTop), old(labelCnt), old(scope.syms)), ok, r)
      decreases |toks|, 1
    {
      hide CSyntax.ParsePrimary, PostLoop, C.Gen;
      ghost var t0, top0, labels0, out0 := toks, regTop, labelCnt, out;
      ok, r := ParsePrimary();
      if !ok { PrimaryFails(t0, top0, labels0, scope.syms); return; }
      ghost var e := CSyntax.ParsePrimary(t0).value.0;
      assert out[|out0|..] == Compile(CSyntax.ParsePrimary(t0), top0, labels0, scope.syms).value.0.code;
      while IsStep(toks)
        invariant scope == old(scope) && out0 <= out && ok && |toks| < |t0|
        invariant CSyntax.ParsePostfix(t0) == Some(PostLoop(e, toks))
        invariant C.Gen(e, top0, labels0, scope.syms) == Some(C.Out(r, regTop, labelCnt, exprAddr, out[|out0|..]))
        decreases |toks|
      {
        PostStepSpec(e, toks, top0, labels0, scope.syms);
        var inc := toks[0] == PlusPlus;
        ghost var code := out[|out0|..];
        toks := toks[1..];
        ok := EmitStep(inc, r);
        if !ok { return; }
        e := Post(inc, e);
        assert out[|out0|..] == C.Gen(e, top0, labels0, scope.syms).value.code;
      }
      assert out == out0 + out[|out0|..];
      PostEnds(e, toks);
    }

    /** `x++` or `x--` on the value in `r`: the variable changes, the value does not. */
    method EmitStep(inc: bool, r: RegIx) returns (ok: bool)
      modifies this`regTop, this`out
      ensures regTop == old(regTop) || !ok
      ensures ok == (exprAddr.Some? && C.Alloc(old(regTop) + 1).Some?)
      ensures ok ==> out == old(out) + [LoadImm(C.TEMP_BASE + regTop, 1),
                                        RR(C.StepOp(inc), C.TEMP_BASE + regTop + 1, r, C.TEMP_BASE + regTop),
                                        RI(STORE, C.TEMP_BASE + regTop + 1, exprAddr.value, 0)]
    {
      var one, sum;
      ok, one := AllocReg();
      if !ok { return; }
      ok, sum := AllocReg();
      if !ok { return; }
      if exprAddr.None? { return false; }
      Emit(LoadImm(one, 1));
      Emit(RR(C.StepOp(inc), sum, r, one));
      Emit(RI(STORE, sum, exprAddr.value, 0));
      FreeReg();
      FreeReg();
    }

    method ParseUnary() returns (ok: bool, r: RegIx)
      modifies this
      ensures Did(Compile(CSyntax.ParseUnary(old(toks)), old(regTop), old(labelCnt), old(scope.syms)), ok, r)
      decreases |toks|, 2
    {
      hide CSyntax.ParseUnary, C.Gen, C.AsValue;
      ghost var out0, t0 := out, toks;
      ok, r := false, 0;
      if toks == [] { EmptyUnary(); return; }
      var x := toks[0];
      if x in {PlusPlus, MinusMinus, TBin(Sub), Bang, Tilde} {
        PrefixSpec(toks, regTop, labelCnt, scope.syms);
        toks := toks[1..];
        ok, r := ParseUnary();
        if !ok { return; }
        ghost var o := C.Out(r, regTop, labelCnt, exprAddr, out[|out0|..]);
        assert out == out0 + o.code;
        if x == PlusPlus || x == MinusMinus {
          if exprAddr.None? { return false, r; }
          Emit(LoadImm(C.SCRATCH, 1));
          Emit(RR(C.StepOp(x == PlusPlus), r, r, C.SCRATCH));
          Emit(RI(STORE, r, exprAddr.value, 0));
          assert out == out0 + C.GenPre(x == PlusPlus, o).value.code;
        } else {
          ValueLabels(o);
          r := ExprAsValue(r, o.code);
          assert out == out0 + C.AsValue(o).code;
          EmitUnary(x, r);
          assert out == out0 + C.GenUnary(Prefixed(x, Num(0)), o).code;
        }
      } else {
        UnaryIsPostfix(toks);
        ok, r := ParsePostfix();
      }
    }

    /** The instructions of `-`, `!` and `~`. */
    method EmitUnary(x: Tok, r: RegIx)
      requires x in {TBin(Sub), Bang, Tilde}
      modifies this`out
      ensures out == old(out) + if x == TBin(Sub) then [RR(SUB, r, 0, r)]
                                else if x == Bang then [RR(CMPEQ, r, r, 0)]
                                else [LoadImm(C.SCRATCH, -1), RR(XOR, r, r, C.SCRATCH)]
    {
      if x == TBin(Sub) {
        Emit(RR(SUB, r, 0, r));
      } else if x == Bang {
        Emit(RR(CMPEQ, r, r, 0));
      } else {
        Emit(LoadImm(C.SCRATCH, -1));
        Emit(RR(XOR, r, r, C.SCRATCH));
      }
    }

    /** One precedence level: `parse_mul`, `parse_add`, ..., `parse_lor`. */
    method ParseLevel(k: nat) returns (ok: bool, r: RegIx)
      requires UNARY <= k <= TOP_LEVEL
      modifies this
      ensures Did(Compile(CSyntax.ParseLevel(k, old(toks)), old(regTop), old(labelCnt), old(scope.syms)), ok, r)
      decreases |toks|, 2 + k
    {
      hide CSyntax.ParseLevel, CSyntax.ParseUnary, LevelLoop, C.Gen, C.GenBin, C.AsValue, C.Combine;
      ghost var t0, top0, labels0, out0 := toks, regTop, labelCnt, out;
      if k == UNARY { LowestLevel(t0); ok, r := ParseUnary(); return; }
      NextLevel(k, t0);
      ok, r := ParseLevel(k - 1);
      if !ok { LowerFails(k, t0, top0, labels0, scope.syms); return; }
      ghost var e := CSyntax.ParseLevel(k - 1, t0).value.0;
      assert out[|out0|..] == Compile(CSyntax.ParseLevel(k - 1, t0), top0, labels0, scope.syms).value.0.code;
      while IsBin(toks, k)
        invariant scope == old(scope) && out0 <= out && ok && |toks| < |t0|
        invariant CSyntax.ParseLevel(k, t0) == LevelLoop(k, e, toks)
        invariant C.Gen(e, top0, labels0, scope.syms) == Some(C.Out(r, regTop, labelCnt, exprAddr, out[|out0|..]))
        decreases |toks|
      {
        LevelStep(k, e, toks, top0, labels0, scope.syms);
        ValueLabels(C.Out(r, regTop, labelCnt, exprAddr, out[|out0|..]));
        var op := toks[0].op;
        ghost var rest, o := toks[1..], C.Out(r, regTop, labelCnt, exprAddr, out[|out0|..]);
        ghost var left := C.AsValue(o);
        toks := toks[1..];
        r := ExprAsValue(r, o.code);
        assert out == out0 + left.code;
        var r2;
        ok, r2 := ParseLevel(k - 1);
        if !ok { return; }
        ghost var right := Compile(CSyntax.ParseLevel(k - 1, rest), left.top, left.labels, scope.syms).value.0;
        assert out == out0 + (left.code + right.code);
        ok := EmitOperator(op, r, r2);
        OperatorOut(op, left, right);
        if !ok { return; }
        e := Bin(op, e, CSyntax.ParseLevel(k - 1, rest).value.0);
        assert out[|out0|..] == C.GenBin(op, left, right).value.code;
      }
      assert out == out0 + out[|out0|..];
      LevelEnds(k, e, toks);
    }

    /** The instructions of one binary operator; the result stays in the left register. */
    method EmitOperator(op: CSyntax.BinOp, l: RegIx, r: RegIx) returns (ok: bool)
      modifies this`regTop, this`exprAddr, this`out
      ensures ok == (op != Mod || C.Alloc(old(regTop)).Some?)
      ensures ok ==> regTop == C.FreeOne(old(regTop))
      ensures ok ==> exprAddr == if op == Mod then old(exprAddr) else None
      ensures ok ==>
                out == old(out) + if op == Mod then C.Modulo(l, r, C.Alloc(old(regTop)).value) else C.Combine(op, l, r)
    {
      ok := true;
      if op == Mod {
        var q;
        ok, q := AllocReg();
        if !ok { return; }
        Emit(RR(DIV, q, l, r));
        Emit(RR(MUL, q, q, r));
        Emit(RR(SUB, l, l, q));
        FreeReg();
      } else {
        if op == CmpGt || op == CmpGe {
          Emit(RR(C.OpcodeOf(op), l, r, l));
        } else if op == LogAnd {
          Emit(RR(CMPNE, l, l, 0));
          Emit(RR(CMPNE, r, r, 0));
          Emit(RR(AND, l, l, r));
        } else if op == LogOr {
          Emit(RR(OR, l, l, r));
          Emit(RR(CMPNE, l, l, 0));
        } else {
          Emit(RR(C.OpcodeOf(op), l, l, r));
        }
        exprAddr := None;
      }
      FreeReg();
    }

    /** One arm of `?:`, its value moved into the common result register. */
    method ParseArm(result: RegIx, base: nat) returns (ok: bool)
      modifies this
      ensures var c := Compile(CSyntax.ParseExpr(old(toks)), old(regTop), old(labelCnt), old(scope.syms));
              scope == old(scope) && ok == c.Some? &&
              (ok ==> toks == c.value.1 && regTop == base + 1 && labelCnt == c.value.0.labels &&
                      out == old(out) + (c.value.0.code + [RR(ADD, result, c.value.0.r, 0)]))
      decreases |toks|, 22
    {
      hide CSyntax.ParseExpr, C.Gen;
      var r;
      ok, r := ParseExpr();
      if !ok { return; }
      Emit(RR(ADD, result, r, 0));
      regTop := base + 1;
    }

    /** After the condition: two labels, the jump, and the register both arms deliver in. */
    method OpenCond(c: RegIx) returns (ok: bool, r: RegIx)
      modifies this`labelCnt, this`regTop, this`out
      ensures ok == (old(labelCnt) + 1 < C.MAX_LABELS && C.Alloc(C.FreeOne(old(regTop))).Some?)
      ensures ok ==> labelCnt == old(labelCnt) + 2 && r == C.Alloc(C.FreeOne(old(regTop))).value
      ensures ok ==> regTop == C.FreeOne(old(regTop)) + 1 && out == old(out) + [JumpZ(c, C.L(old(labelCnt)))]
    {
      r := 0;
      var no, end;
      ok, no := NewLabel();
      if !ok { return; }
      ok, end := NewLabel();
      if !ok { return; }
      Emit(JumpZ(c, C.L(no)));
      FreeReg();
      ok, r := AllocReg();
    }

    /** `a : b`, read from behind the question mark. */
    method ParseArms(r: RegIx, l: nat) returns (ok: bool)
      requires regTop >= 1
      modifies this
      ensures var a := Compile(CSyntax.ParseExpr(old(toks)), old(regTop), old(labelCnt), old(scope.syms));
              var b := if a.Some? && NextIs(a.value.1, Colon)
                       then Compile(CSyntax.ParseExpr(a.value.1[1..]), old(regTop), a.value.0.labels, old(scope.syms))
                       else None;
              scope == old(scope) && ok == b.Some? &&
              (ok ==> toks == b.value.1 && regTop == old(regTop) && labelCnt == b.value.0.labels && exprAddr == None &&
                      out == old(out) + (a.value.0.code + [RR(ADD, r, a.value.0.r, 0)]) + [Jump(C.L(l + 1))]
                             + [LabelDef(C.L(l))] + (b.value.0.code + [RR(ADD, r, b.value.0.r, 0)])
                             + [LabelDef(C.L(l + 1))])
      decreases |toks|, 23
    {
      hide CSyntax.ParseExpr, C.Gen;
      var base := regTop - 1;
      ok := ParseArm(r, base);
      if !ok { return; }
      if toks == [] || toks[0] != Colon { return false; }
      out := out + [Jump(C.L(l + 1))] + [LabelDef(C.L(l))];
      toks := toks[1..];
      ok := ParseArm(r, base);
      if !ok { return; }
      out := out + [LabelDef(C.L(l + 1))];
      exprAddr := None;
    }

    method ParseCond() returns (ok: bool, r: RegIx)
      modifies this
      ensures Did(Compile(CSyntax.ParseCond(old(toks)), old(regTop), old(labelCnt), old(scope.syms)), ok, r)
      decreases |toks|, 20
    {
      hide CSyntax.ParseCond, CSyntax.ParseLevel, CSyntax.ParseExpr, C.Gen, C.GenCond;
      ghost var out0, syms := out, scope.syms;
      CondSpec(toks, regTop, labelCnt, syms);
      ghost var cc := Compile(CSyntax.ParseLevel(TOP_LEVEL, toks), regTop, labelCnt, syms);
      var c;
      ok, c := ParseLevel(TOP_LEVEL);
      r := c;
      if !ok || toks == [] || toks[0] != Quest { return; }
      var l := labelCnt;
      toks := toks[1..];
      ok, r := OpenCond(c);
      if !ok { return; }
      ghost var ac := Compile(CSyntax.ParseExpr(toks), regTop, labelCnt, syms);
      ghost var bc := if ac.Some? && NextIs(ac.value.1, Colon)
                      then Compile(CSyntax.ParseExpr(ac.value.1[1..]), regTop, ac.value.0.labels, syms) else None;
      ok := ParseArms(r, l);
      if !ok { return; }
      CondCode(out0, cc.value.0, ac.value.0, bc.value.0, r);
    }

    method ParseExpr() returns (ok: bool, r: RegIx)
      modifies this
      ensures Did(Compile(CSyntax.ParseExpr(old(toks)), old(regTop), old(labelCnt), old(scope.syms)), ok, r)
      decreases |toks|, 21
    {
      ghost var t0, top0, labels0, out0, syms := toks, regTop, labelCnt, out, scope.syms;
      hide CSyntax.ParseCond, CSyntax.ParseExpr, C.Gen;
      AssignSpec(t0, top0, labels0, syms);
      var l;
      ok, l := ParseCond();
      r := l;
      if !ok || !IsAssign(toks) { return; }
      ghost var lo := Compile(CSyntax.ParseCond(t0), top0, labels0, syms).value.0;
      ghost var t1 := toks[1..];
      var with, lhsAddr := toks[0].with, exprAddr;
      toks := toks[1..];
      ok, r := ParseExpr();
      if !ok { return; }
      ghost var xo := Compile(CSyntax.ParseExpr(t1), lo.top, lo.labels, syms).value.0;
      if with.Some? {
        var sum;
        ok, sum := AllocReg();
        if !ok { return; }
        Emit(RR(C.OpcodeOf(with.value), sum, l, r));
        r := sum;
      }
      if lhsAddr.None? { ok := false; return; }
      Emit(RI(STORE, r, lhsAddr.value, 0));
      exprAddr := lhsAddr;
      assert out == out0 + C.GenAssign(with, lo, xo).value.code;
    }

    // ----- statements -----

    /** What a method that reads a declaration or a statement has done to the compiler. */
    twostate predicate DidStmt(c: Code, ok: bool)
      reads this
    {
      ok == c.Some? &&
      (ok ==> toks == c.value.2 && scope == c.value.1 && labelCnt == c.value.0.labels &&
              out == old(out) + c.value.0.code)
    }

    twostate predicate DidList(c: ListCode, ok: bool, r: RegIx)
      reads this
    {
      scope == old(scope) && ok == c.Some? &&
      (ok ==> toks == c.value.2 && r == c.value.0 && labelCnt == c.value.1.labels && out == old(out) + c.value.1.code)
    }

    method Eat(x: Tok) returns (ok: bool)
      modifies this`toks
      ensures ok == NextIs(old(toks), x) && toks == if ok then old(toks)[1..] else old(toks)
    {
      ok := toks != [] && toks[0] == x;
      if ok { toks := toks[1..]; }
    }

    /** Expressions separated by commas, each from an empty register stack. */
    method ParseList() returns (ok: bool, r: RegIx)
      requires regTop == 0
      modifies this
      ensures DidList(CompileList(old(toks), old(labelCnt), old(scope.syms)), ok, r) && (ok ==> regTop == 0)
      decreases |toks|, 24
    {
      hide CSyntax.ParseExpr, C.Gen, CompileList, ListRest;
      ghost var t0, labels0, out0, syms := toks, labelCnt, out, scope.syms;
      ListOrder(t0, labels0, syms);
      ok, r := ParseExpr();
      if !ok { return; }
      regTop := 0;
      assert out[|out0|..] == Compile(CSyntax.ParseExpr(t0), 0, labels0, syms).value.0.code;
      while NextIs(toks, Comma)
        invariant scope == old(scope) && out0 <= out && ok && |toks| < |t0| && regTop == 0
        invariant CompileList(t0, labels0, syms) == ListRest(r, Out(labelCnt, out[|out0|..]), toks, syms)
        decreases |toks|
      {
        ghost var code := out[|out0|..];
        ListNext(r, Out(labelCnt, code), toks, syms);
        ghost var e := Compile(CSyntax.ParseExpr(toks[1..]), 0, labelCnt, syms);
        toks := toks[1..];
        ok, r := ParseExpr();
        if !ok { return; }
        regTop := 0;
        assert out[|out0|..] == code + e.value.0.code;
      }
      ListNext(r, Out(labelCnt, out[|out0|..]), toks, syms);
      assert out == out0 + out[|out0|..];
    }

    /** One declared name: visible at once, its word taken, its value stored. */
    method ParseItem() returns (ok: bool)
      requires regTop == 0
      modifies this
      ensures DidStmt(CompileItem(old(toks), old(scope), old(labelCnt)), ok) && (ok ==> regTop == 0)
      decreases |toks|, 24
    {
      hide CSyntax.ParseExpr, C.Gen, CompileItem;
      ItemOrder(toks, scope, labelCnt);
      ghost var out0 := out;
      ok := false;
      if toks == [] || !toks[0].TId? || scope.next >= MAX_OFFSET { return; }
      var at := scope.next;
      scope := Declare(scope, toks[0].x);
      toks := toks[1..];
      ok := Eat(TAssign(None));
      if !ok { return true; }
      var r;
      ok, r := ParseExpr();
      if !ok { return; }
      ghost var e := out[|out0|..];
      Emit(RI(STORE, r, C.FP, at));
      regTop := 0;
      assert out == out0 + (e + [RI(STORE, r, C.FP, at)]);
    }

    /** The declarations of one `int`, in a statement or the header of a `for`. */
    method ParseItems() returns (ok: bool)
      requires regTop == 0
      modifies this
      ensures DidStmt(CompileItems(old(toks), old(scope), old(labelCnt)), ok) && (ok ==> regTop == 0)
      decreases |toks|, 25
    {
      hide CompileItem, CompileItems, ItemsRest;
      ghost var t0, sc0, labels0, out0 := toks, scope, labelCnt, out;
      ItemsOrder(t0, sc0, labels0);
      ItemShrinks(t0, sc0, labels0);
      ok := ParseItem();
      if !ok { return; }
      assert out[|out0|..] == CompileItem(t0, sc0, labels0).value.0.code;
      while NextIs(toks, Comma)
        invariant out0 <= out && ok && |toks| < |t0| && regTop == 0
        invariant CompileItems(t0, sc0, labels0) == ItemsRest(Out(labelCnt, out[|out0|..]), scope, toks)
        decreases |toks|
      {
        ghost var code := out[|out0|..];
        ItemsNextStep(Out(labelCnt, code), scope, toks);
        ItemShrinks(toks[1..], scope, labelCnt);
        ghost var i := CompileItem(toks[1..], scope, labelCnt);
        toks := toks[1..];
        ok := ParseItem();
        if !ok { return; }
        assert out[|out0|..] == code + i.value.0.code;
      }
      ItemsNextStep(Out(labelCnt, out[|out0|..]), scope, toks);
      assert out == out0 + out[|out0|..];
    }

    /** `parse_stmt`. */
    method ParseStmt(tg: Targets) returns (ok: bool)
      modifies this
      ensures DidStmt(CompileStmt(old(toks), old(scope), old(labelCnt), tg), ok)
      decreases |toks|, 30
    {
      hide CompileStmt;
      SimpleOrder(toks, scope, labelCnt, tg);
      regTop := 0;
      ok := false;
      if toks == [] { return; }
      match toks[0]
      case TKey(KIf) => IfOrder(toks, scope, labelCnt, tg); toks := toks[1..]; ok := ParseIf(tg);
      case TKey(KWhile) => WhileOrder(toks, scope, labelCnt, tg); toks := toks[1..]; ok := ParseWhile(tg);
      case TKey(KFor) => ForOrder(toks, scope, labelCnt, tg); toks := toks[1..]; ok := ParseFor(tg);
      case _ => ok := ParseSimple(tg);
    }

    method ParseSimple(tg: Targets) returns (ok: bool)
      requires toks != [] && !Control(toks) && regTop == 0
      modifies this
      ensures DidStmt(SimpleInOrder(old(toks), old(scope), old(labelCnt), tg), ok)
      decreases |toks|, 29
    {
      hide CSyntax.ParseExpr, C.Gen, CompileBody, CompileItems, CompileList;
      ghost var out0 := out;
      var x := toks[0];
      if x == Semi {
        toks := toks[1..];
        ok := true;
      } else if x == LBrace {
        toks := toks[1..];
        ok := ParseCompound(tg);
      } else if x == TKey(KInt) {
        toks := toks[1..];
        ok := ParseItems();
        if !ok { return; }
        ok := Eat(Semi);
      } else if x == TKey(KReturn) {
        toks := toks[1..];
        ok := ParseReturn(tg.end);
      } else if x == TKey(KBreak) || x == TKey(KContinue) {
        toks := toks[1..];
        var target := if x == TKey(KBreak) then tg.brk else tg.cont;
        if target.None? { return false; }
        Emit(Jump(C.L(target.value)));
        ok := Eat(Semi);
      } else {
        var r;
        ok, r := ParseExpr();
        if !ok { return; }
        ok := Eat(Semi);
      }
    }

    /** `{ ... }`, from behind the brace: the names it declared are forgotten, their words are not. */
    method ParseCompound(tg: Targets) returns (ok: bool)
      modifies this
      ensures var c := CompileBody(old(toks), old(scope), old(labelCnt), tg);
              DidStmt(match c
                      case None => None
                      case Some(b) => Ended(b.0, Scope(old(scope).syms, b.1.next), Expect(RBrace, b.2)), ok)
      decreases |toks|, 32
    {
      hide CompileBody;
      var mark := scope.syms;
      ok := ParseBody(tg);
      if !ok { return; }
      ok := Eat(RBrace);
      scope := Scope(mark, scope.next);
    }

    /** Statements up to a closing brace or the end of the source. */
    method ParseBody(tg: Targets) returns (ok: bool)
      modifies this
      ensures DidStmt(CompileBody(old(toks), old(scope), old(labelCnt), tg), ok)
      decreases |toks|, 31
    {
      hide CompileBody, CompileStmt;
      ghost var t0, sc0, labels0, out0 := toks, scope, labelCnt, out;
      ghost var all := CompileBody(t0, sc0, labels0, tg);
      ok := true;
      assert out[|out0|..] == [];
      PrependNothing(all);
      while toks != [] && toks[0] != RBrace
        invariant out0 <= out && ok && |toks| <= |t0|
        invariant all == Prepend(out[|out0|..], CompileBody(toks, scope, labelCnt, tg))
        decreases |toks|
      {
        ghost var code, now := out[|out0|..], CompileStmt(toks, scope, labelCnt, tg);
        BodyOrder(toks, scope, labelCnt, tg);
        StmtShrinks(toks, scope, labelCnt, tg);
        ok := ParseStmt(tg);
        if !ok { return; }
        PrependTwice(code, now.value.0.code, CompileBody(toks, scope, labelCnt, tg));
        assert out[|out0|..] == code + now.value.0.code;
      }
      BodyOrder(toks, scope, labelCnt, tg);
      assert out == out0 + (out[|out0|..] + []);
    }

    /** `return`, from behind the keyword. */
    method ParseReturn(end: nat) returns (ok: bool)
      requires regTop == 0
      modifies this
      ensures var c := CompileList(old(toks), old(labelCnt), old(scope).syms);
              DidStmt(if NextIs(old(toks), Semi)
                      then Some((Out(old(labelCnt), [Jump(C.L(end))]), old(scope), old(toks)[1..]))
                      else match c
                           case None => None
                           case Some(q) =>
                             Ended(Out(q.1.labels, q.1.code + [RR(ADD, C.RET, q.0, 0)] + [Jump(C.L(end))]),
                                   old(scope), Expect(Semi, q.2)), ok)
      decreases |toks|, 26
    {
      hide CompileList;
      ghost var out0 := out;
      if !NextIs(toks, Semi) {
        var r;
        ok, r := ParseList();
        if !ok { return; }
        ghost var code := out[|out0|..];
        Emit(RR(ADD, C.RET, r, 0));
        Emit(Jump(C.L(end)));
        assert out == out0 + (code + [RR(ADD, C.RET, r, 0)] + [Jump(C.L(end))]);
      } else {
        Emit(Jump(C.L(end)));
      }
      ok := Eat(Semi);
    }

    /** `( expr )` from an empty register stack. */
    method ParseGuard() returns (ok: bool, r: RegIx)
      requires regTop == 0
      modifies this
      ensures var c := CompileGuard(old(toks), old(labelCnt), old(scope).syms);
              scope == old(scope) && ok == c.Some? &&
              (ok ==> toks == c.value.1 && r == c.value.0.r && labelCnt == c.value.0.labels &&
                      out == old(out) + c.value.0.code)
      decreases |toks|, 26
    {
      hide CSyntax.ParseExpr, C.Gen;
      r := 0;
      ok := Eat(LParen);
      if !ok { return; }
      ok, r := ParseExpr();
      if !ok { return; }
      ok := Eat(RParen);
    }

    method ParseIf(tg: Targets) returns (ok: bool)
      requires regTop == 0
      modifies this
      ensures DidStmt(IfInOrder(old(toks), old(scope), old(labelCnt), tg), ok)
      decreases |toks|, 28
    {
      hide CompileGuard, CompileStmt;
      ghost var out0, sc0, l := out, scope, labelCnt;
      var els, end;
      ok, els := NewLabel();
      if !ok { return; }
      ok, end := NewLabel();
      if !ok { return; }
      ghost var c := CompileGuard(toks, labelCnt, scope.syms);
      GuardShrinks(toks, labelCnt, scope.syms);
      var r;
      ok, r := ParseGuard();
      if !ok { return; }
      Emit(JumpZ(r, C.L(els)));
      ghost var a := CompileStmt(toks, scope, labelCnt, tg);
      StmtShrinks(toks, scope, labelCnt, tg);
      ok := ParseStmt(tg);
      if !ok { return; }
      Emit(Jump(C.L(end)));
      Emit(LabelDef(C.L(els)));
      ghost var b := ElseInOrder(toks, scope, labelCnt, tg);
      assert out == out0 + c.value.0.code + [JumpZ(r, C.L(els))] + a.value.0.code + [Jump(C.L(end))]
             + [LabelDef(C.L(els))];
      ok := ParseElse(tg, end);
      if ok { IfLines(out0, l, c.value.0, a.value.0, b.value.0); }
    }

    /** The other arm, if there is one, and the label behind both. */
    method ParseElse(tg: Targets, end: nat) returns (ok: bool)
      modifies this
      ensures var b := ElseInOrder(old(toks), old(scope), old(labelCnt), tg);
              ok == b.Some? &&
              (ok ==> toks == b.value.2 && scope == b.value.1 && labelCnt == b.value.0.labels &&
                      out == old(out) + b.value.0.code + [LabelDef(C.L(end))])
      decreases |toks|, 31
    {
      hide CompileStmt;
      ghost var out0 := out;
      var more := Eat(TKey(KElse));
      if more {
        ok := ParseStmt(tg);
        if !ok { return; }
      }
      ok := true;
      assert !more ==> out0 + [] == out0;
      Emit(LabelDef(C.L(end)));
    }

    method ParseWhile(tg: Targets) returns (ok: bool)
      requires regTop == 0
      modifies this
      ensures DidStmt(WhileInOrder(old(toks), old(scope), old(labelCnt), tg), ok)
      decreases |toks|, 28
    {
      hide CompileGuard, CompileStmt;
      ghost var out0, l := out, labelCnt;
      var loop, end;
      ok, loop := NewLabel();
      if !ok { return; }
      ok, end := NewLabel();
      if !ok { return; }
      Emit(LabelDef(C.L(loop)));
      ghost var c := CompileGuard(toks, labelCnt, scope.syms);
      GuardShrinks(toks, labelCnt, scope.syms);
      var r;
      ok, r := ParseGuard();
      if !ok { return; }
      Emit(JumpZ(r, C.L(end)));
      var inner := Targets(Some(end), Some(loop), tg.end);
      ghost var b := CompileStmt(toks, scope, labelCnt, inner);
      ok := ParseStmt(inner);
      if !ok { return; }
      Emit(Jump(C.L(loop)));
      Emit(LabelDef(C.L(end)));
      WhileLines(out0, l, c.value.0, b.value.0);
    }

    /** What starts a `for`: declarations, expressions or nothing, and the semicolon. */
    method ParseForInit() returns (ok: bool)
      requires regTop == 0
      modifies this
      ensures DidStmt(CompileInit(old(toks), old(scope), old(labelCnt)), ok) && (ok ==> regTop == 0)
      decreases |toks|, 26
    {
      hide CompileInit, CompileItems, CompileList;
      InitOrder(toks, scope, labelCnt);
      ForListOrder(toks, labelCnt, scope.syms);
      ok := Eat(TKey(KInt));
      if ok {
        ok := ParseItems();
        if !ok { return; }
      } else if !NextIs(toks, Semi) {
        var r;
        ok, r := ParseForList();
        if !ok { return; }
      }
      ok := Eat(Semi);
    }

    /** `parse_for_expr_list`. */
    method ParseForList() returns (ok: bool, r: RegIx)
      requires regTop == 0
      modifies this
      ensures DidList(CompileForList(old(toks), old(labelCnt), old(scope.syms)), ok, r) && (ok ==> regTop == 0)
      decreases |toks|, 25
    {
      hide CompileForList, CompileList;
      ForListOrder(toks, labelCnt, scope.syms);
      if NextIs(toks, Semi) || NextIs(toks, RParen) { return true, 0; }
      ok, r := ParseList();
    }

    /** The middle of a `for`: the test, if there is one, leaves the loop on zero. */
    method ParseForTest(end: nat, body: nat) returns (ok: bool)
      requires regTop == 0
      modifies this
      ensures var c := CompileTest(old(toks), end, old(labelCnt), old(scope).syms);
              scope == old(scope) && ok == c.Some? &&
              (ok ==> regTop == 0 && toks == c.value.1 && labelCnt == c.value.0.labels &&
                      out == old(out) + (c.value.0.code + [Jump(C.L(body))]))
      decreases |toks|, 26
    {
      hide CSyntax.ParseExpr, C.Gen, CompileTest;
      TestOrder(toks, end, labelCnt, scope.syms);
      ghost var out0 := out;
      if toks == [] || toks[0] != Semi {
        var r;
        ok, r := ParseExpr();
        if !ok { return; }
        Emit(JumpZ(r, C.L(end)));
        regTop := 0;
      }
      ghost var code := out[|out0|..];
      Emit(Jump(C.L(body)));
      ok := Eat(Semi);
      assert out == out0 + (code + [Jump(C.L(body))]);
    }

    /** The header of a `for`, from behind the parenthesis. */
    method ParseHeader(l: nat) returns (ok: bool)
      requires regTop == 0 && labelCnt == l + 4
      modifies this
      ensures var h := HeaderInOrder(old(toks), old(scope), l);
              ok == h.Some? &&
              (ok ==> toks == h.value.rest && scope == h.value.sc && labelCnt == h.value.step.labels &&
                      out == old(out) + HeaderLines(l, h.value))
      decreases |toks|, 27
    {
      hide CompileInit, CompileTest, CompileForList;
      ghost var out0 := out;
      InitShrinks(toks, scope, labelCnt);
      ghost var i := CompileInit(toks, scope, labelCnt);
      ok := ParseForInit();
      if !ok { return; }
      Emit(LabelDef(C.L(l)));
      TestShrinks(toks, l + 3, labelCnt, scope.syms);
      ghost var c := CompileTest(toks, l + 3, labelCnt, scope.syms);
      ok := ParseForTest(l + 3, l + 1);
      if !ok { return; }
      Emit(LabelDef(C.L(l + 2)));
      ghost var e := CompileForList(toks, labelCnt, scope.syms);
      var r;
      ok, r := ParseForList();
      if !ok { return; }
      Emit(Jump(C.L(l)));
      ok := Eat(RParen);
      if !ok { return; }
      Emit(LabelDef(C.L(l + 1)));
      HeaderJoins(out0, l, Header(i.value.0, scope, c.value.0, e.value.1, toks));
    }

    method ParseFor(tg: Targets) returns (ok: bool)
      requires regTop == 0
      modifies this
      ensures DidStmt(ForInOrder(old(toks), old(scope), old(labelCnt), tg), ok)
      decreases |toks|, 28
    {
      hide HeaderInOrder, CompileStmt;
      ghost var out0, sc0 := out, scope;
      var l, mark := labelCnt, scope.syms;
      ok := l + 4 <= C.MAX_LABELS;
      if !ok { return; }
      labelCnt := l + 4;
      ok := Eat(LParen);
      if !ok { return; }
      ghost var h := HeaderInOrder(toks, scope, l);
      HeaderShrinks(toks, scope, l);
      ok := ParseHeader(l);
      if !ok { return; }
      var inner := Targets(Some(l + 3), Some(l + 2), tg.end);
      ghost var b := CompileStmt(toks, scope, labelCnt, inner);
      ok := ParseStmt(inner);
      if !ok { return; }
      Emit(Jump(C.L(l + 2)));
      Emit(LabelDef(C.L(l + 3)));
      scope := Scope(mark, scope.next);
      ForLines(out0, l, h.value, b.value.0);
    }

    // ----- functions -----

    /** The parameter list in parentheses. */
    method ParseParams() returns (ok: bool, names: seq<string>)
      modifies this`toks
      ensures var p := COrder.ParseParams(old(toks));
              ok == p.Some? && (ok ==> names == p.value.0 && toks == p.value.1)
    {
      hide ParseParamList;
      names := [];
      ok := Eat(LParen);
      if !ok { return; }
      if !NextIs(toks, RParen) {
        ghost var t0, all: seq<string> := toks, [];
        var more := true;
        NothingEarlier(ParseParamList(t0));
        while more
          invariant names == FirstParams(all)
          invariant ParseParamList(t0) == if more then Earlier(all, ParseParamList(toks)) else Some((all, toks))
          decreases more, |toks|
        {
          ParamStep(all, toks);
          if |toks| < 2 || toks[0] != TKey(KInt) || !toks[1].TId? { return false, names; }
          all := all + [toks[1].x];
          if |names| < MAX_PARAMS { names := names + [toks[1].x]; }
          toks := toks[2..];
          more := Eat(Comma);
        }
      }
      ok := Eat(RParen);
    }

    /** `parse_func`, from behind the name.  Its parameters stay in the symbol table. */
    method ParseFunction(name: string) returns (ok: bool)
      modifies this
      ensures var c := CompileFunction(name, old(toks), old(labelCnt), old(scope.syms));
              ok == c.Some? &&
              (ok ==> toks == c.value.2 && scope.syms == c.value.1 && labelCnt == c.value.0.labels &&
                      out == old(out) + c.value.0.code)
    {
      hide COrder.ParseParams, CStatements.ParseBody, GenFunction, CompileBody, ParamStores, ParamScope, Enter, Leave;
      ghost var t0 := toks;
      var before := scope.syms;
      regTop := 0;
      var end, names;
      ok, end := NewLabel();
      if !ok { return; }
      ok, names := ParseParams();
      if !ok { return; }
      var proto := Eat(Semi);
      if proto { return; }
      if !NextIs(toks, LBrace) { return false; }
      FunctionOrder(name, t0, end, before);
      toks := toks[1..];
      ok := ParseDefinition(Function(name, names, [], before), end);
    }

    /** A function's prologue, body and epilogue; `end` is the label of the last. */
    method ParseDefinition(f: Function, end: nat) returns (ok: bool)
      requires |f.params| <= MAX_PARAMS && f.before == scope.syms
      modifies this
      ensures var c := CompileBody(old(toks), StartScope(f), old(labelCnt), Targets(None, None, end));
              ok == (c.Some? && NextIs(c.value.2, RBrace)) &&
              (ok ==> toks == c.value.2[1..] && scope.syms == StartScope(f).syms && labelCnt == c.value.0.labels &&
                      out == old(out)
                             + (Enter(f) + ParamStores(0, InRegisters(f)) + c.value.0.code + Leave(f, end)))
    {
      hide CompileBody, ParamStores, ParamScope, Enter, Leave;
      ghost var out0 := out;
      DeclareParams(f.params);
      var mark := scope.syms;
      EmitEntry(f);
      ghost var b := CompileBody(toks, scope, labelCnt, Targets(None, None, end));
      ok := ParseBody(Targets(None, None, end));
      if !ok { return; }
      ok := Eat(RBrace);
      if !ok { return; }
      EmitExit(f, end);
      scope := Scope(mark, scope.next);
    }

    /** Parameters take the words from the second on. */
    method DeclareParams(names: seq<string>)
      modifies this`scope
      ensures scope == ParamScope(old(scope.syms), names, |names|)
    {
      ghost var before := scope.syms;
      scope := Scope(scope.syms, 2);
      for i := 0 to |names|
        invariant scope == ParamScope(before, names, i)
      {
        scope := Declare(scope, names[i]);
      }
    }

    /** The prologue, and the stores of the parameters that come in registers. */
    method EmitEntry(f: Function)
      requires |f.params| <= MAX_PARAMS
      modifies this`out
      ensures out == old(out) + (Enter(f) + ParamStores(0, InRegisters(f)))
    {
      ghost var out0 := out;
      out := out + Enter(f);
      var i := 0;
      while i < InRegisters(f)
        invariant 0 <= i <= InRegisters(f)
        invariant out + ParamStores(i, InRegisters(f)) == out0 + (Enter(f) + ParamStores(0, InRegisters(f)))
      {
        ghost var was := out;
        Emit(RI(STORE, i + 1, 29, 2 + i));
        i := i + 1;
        assert was + ([RI(STORE, i, 29, 1 + i)] + ParamStores(i, InRegisters(f)))
            == out + ParamStores(i, InRegisters(f));
      }
      assert out + [] == out;
    }

    method EmitExit(f: Function, end: nat)
      requires |f.params| <= MAX_PARAMS
      modifies this`out
      ensures out == old(out) + Leave(f, end)
    {
      ghost var out0 := out;
      Emit(LabelDef(C.L(end)));
      Emit(RI(LOAD, 31, 29, 0));
      Emit(RI(LOAD, 29, 29, 1));
      Emit(LoadImm(28, FrameTotal(f)));
      Emit(RR(ADD, 30, 30, 28));
      if f.name == "main" { Emit(RI(HALT, 0, 0, 0)); } else { Emit(RI(JALR, 0, 31, 0)); }
    }

    /** Function after function, to the end of the source. */
    method ParseUnit() returns (ok: bool)
      modifies this
      ensures var c := CompileUnit(old(toks), old(labelCnt), old(scope.syms));
              ok == c.Some? &&
              (ok ==> toks == [] && scope.syms == c.value.1 && labelCnt == c.value.0.labels &&
                      out == old(out) + c.value.0.code)
    {
      hide CompileUnit, CompileFunction;
      ghost var out0, all := out, CompileUnit(toks, labelCnt, scope.syms);
      ok := true;
      assert out[|out0|..] == [];
      NothingBefore(all);
      while toks != []
        invariant out0 <= out && ok
        invariant all == UnitRest(out[|out0|..], CompileUnit(toks, labelCnt, scope.syms))
        decreases |toks|
      {
        ghost var code := out[|out0|..];
        UnitStep(code, toks, labelCnt, scope.syms);
        if |toks| < 3 || toks[0] != TKey(KInt) || !toks[1].TId? || toks[2] != LParen { return false; }
        var name := toks[1].x;
        toks := toks[2..];
        ghost var f := CompileFunction(name, toks, labelCnt, scope.syms);
        ok := ParseFunction(name);
        if !ok { return; }
        assert out[|out0|..] == code + f.value.0.code;
      }
      UnitStep(out[|out0|..], toks, labelCnt, scope.syms);
      assert out == out0 + (out[|out0|..] + []);
    }
  }

  // ----- how reading and generating interleave -----

  /** `?:` in the order the compiler works: condition, labels, result register, arms. */
  lemma CondSpec(t: seq<Tok>, top: nat, labels: nat, syms: C.Symbols)
    ensures Compile(ParseCond(t), top, labels, syms) == CondInOrder(t, top, labels, syms)
  {
    hide ParseLevel, ParseExpr;
  }

  function CondInOrder(t: seq<Tok>, top: nat, labels: nat, syms: C.Symbols): Option<(C.Out, seq<Tok>)> {
    match Compile(ParseLevel(TOP_LEVEL, t), top, labels, syms)
    case None => None
    case Some(c) =>
      var (co, rest) := c;
      if !NextIs(rest, Quest) then Some(c)
      else if co.labels + 1 >= C.MAX_LABELS || C.Alloc(C.FreeOne(co.top)).None? then None
      else
        var base := C.FreeOne(co.top);
        match Compile(ParseExpr(rest[1..]), base + 1, co.labels + 2, syms)
        case None => None
        case Some(a) =>
          if !NextIs(a.1, Colon) then None
          else
            match Compile(ParseExpr(a.1[1..]), base + 1, a.0.labels, syms)
            case None => None
            case Some(b) => Some((C.GenCond(co, a.0, b.0), b.1))
  }

  /** Assignment in the order the compiler works. */
  lemma AssignSpec(t: seq<Tok>, top: nat, labels: nat, syms: C.Symbols)
    ensures Compile(ParseExpr(t), top, labels, syms) == AssignInOrder(t, top, labels, syms)
  {
    hide ParseCond;
  }

  function AssignInOrder(t: seq<Tok>, top: nat, labels: nat, syms: C.Symbols): Option<(C.Out, seq<Tok>)> {
    match Compile(ParseCond(t), top, labels, syms)
    case None => None
    case Some(l) =>
      if !IsAssign(l.1) then Some(l)
      else
        match Compile(ParseExpr(l.1[1..]), l.0.top, l.0.labels, syms)
        case None => None
        case Some(x) =>
          match C.GenAssign(l.1[0].with, l.0, x.0)
          case None => None
          case Some(o) => Some((o, x.1))
  }

  // ----- why a failure below is a failure here -----

  lemma PrimaryFails(t: seq<Tok>, top: nat, labels: nat, syms: C.Symbols)
    requires Compile(ParsePrimary(t), top, labels, syms).None?
    ensures Compile(ParsePostfix(t), top, labels, syms).None?
  {
    hide ParsePrimary, PostLoop;
    var p := ParsePrimary(t);
    if p.Some? { PostKeepsNone(p.value.0, p.value.1, top, labels, syms); }
  }

  lemma UnaryIsPostfix(t: seq<Tok>)
    requires t != [] && t[0] !in {PlusPlus, MinusMinus, TBin(Sub), Bang, Tilde}
    ensures ParseUnary(t) == ParsePostfix(t)
  {
    PlainStep(t);
  }

  lemma LowerFails(k: nat, t: seq<Tok>, top: nat, labels: nat, syms: C.Symbols)
    requires UNARY < k <= TOP_LEVEL && Compile(ParseLevel(k - 1, t), top, labels, syms).None?
    ensures Compile(ParseLevel(k, t), top, labels, syms).None?
  {
    var p := ParseLevel(k - 1, t);
    if p.Some? { LoopKeepsNone(k, p.value.0, p.value.1, top, labels, syms); }
  }

  /** Reading one more `++` or `--`. */
  lemma PostStepSpec(e: Expr, t: seq<Tok>, top: nat, labels: nat, syms: C.Symbols)
    requires IsStep(t) && C.Gen(e, top, labels, syms).Some?
    ensures var o := C.Gen(e, top, labels, syms).value;
            var e' := Post(t[0] == PlusPlus, e);
            PostLoop(e, t) == PostLoop(e', t[1..]) && C.Gen(e', top, labels, syms) == C.GenPost(t[0] == PlusPlus, o) &&
            (C.GenPost(t[0] == PlusPlus, o).None? ==> Compile(Some(PostLoop(e, t)), top, labels, syms).None?)
  {
    var e' := Post(t[0] == PlusPlus, e);
    if C.Gen(e', top, labels, syms).None? { PostKeepsNone(e', t[1..], top, labels, syms); }
  }

  lemma PostEnds(e: Expr, t: seq<Tok>)
    requires !IsStep(t)
    ensures PostLoop(e, t) == (e, t)
  {
  }

  lemma LowestLevel(t: seq<Tok>)
    ensures ParseLevel(UNARY, t) == ParseUnary(t)
  {
    hide ParseUnary;
  }

  lemma NextLevel(k: nat, t: seq<Tok>)
    requires UNARY < k <= TOP_LEVEL
    ensures var p := ParseLevel(k - 1, t);
            ParseLevel(k, t) == if p.None? then None else LevelLoop(k, p.value.0, p.value.1)
  {
    hide ParseUnary, LevelLoop;
  }

  /** Reading one more operator of the level and its right operand. */
  lemma LevelStep(k: nat, e: Expr, t: seq<Tok>, top: nat, labels: nat, syms: C.Symbols)
    requires UNARY < k <= TOP_LEVEL && IsBin(t, k) && C.Gen(e, top, labels, syms).Some?
    ensures var left := C.AsValue(C.Gen(e, top, labels, syms).value);
            match Compile(ParseLevel(k - 1, t[1..]), left.top, left.labels, syms)
            case None => Compile(LevelLoop(k, e, t), top, labels, syms).None?
            case Some(ro) =>
              var e' := Bin(t[0].op, e, ParseLevel(k - 1, t[1..]).value.0);
              LevelLoop(k, e, t) == LevelLoop(k, e', ro.1) &&
              C.Gen(e', top, labels, syms) == C.GenBin(t[0].op, left, ro.0) &&
              (C.GenBin(t[0].op, left, ro.0).None? ==> Compile(LevelLoop(k, e, t), top, labels, syms).None?)
  {
    hide ParseLevel, C.GenBin, C.AsValue;
    var p := ParseLevel(k - 1, t[1..]);
    if p.Some? {
      var e' := Bin(t[0].op, e, p.value.0);
      if C.Gen(e', top, labels, syms).None? { LoopKeepsNone(k, e', p.value.1, top, labels, syms); }
    }
  }

  lemma OperatorOut(op: CSyntax.BinOp, left: C.Out, right: C.Out)
    ensures C.GenBin(op, left, right).Some? <==> op != Mod || C.Alloc(right.top).Some?
    ensures C.GenBin(op, left, right).Some? ==>
              var o := C.GenBin(op, left, right).value;
              o.r == left.r && o.top == C.FreeOne(right.top) && o.labels == right.labels &&
              o.addr == (if op == Mod then right.addr else None) &&
              o.code == left.code + right.code
                        + if op == Mod then C.Modulo(left.r, right.r, C.Alloc(right.top).value)
                          else C.Combine(op, left.r, right.r)
  {
    hide C.Combine;
  }

  lemma ValueLabels(o: C.Out)
    ensures C.AsValue(o).labels == o.labels && C.AsValue(o).addr == None
  {
  }

  /** A prefix operator, in terms of the expression behind it. */
  lemma PrefixSpec(t: seq<Tok>, top: nat, labels: nat, syms: C.Symbols)
    requires t != [] && t[0] in {PlusPlus, MinusMinus, TBin(Sub), Bang, Tilde}
    ensures Compile(ParseUnary(t), top, labels, syms)
         == match Compile(ParseUnary(t[1..]), top, labels, syms)
            case None => None
            case Some(o) =>
              if t[0] == PlusPlus || t[0] == MinusMinus then
                match C.GenPre(t[0] == PlusPlus, o.0)
                case None => None
                case Some(p) => Some((p, o.1))
              else Some((C.GenUnary(Prefixed(t[0], Num(0)), o.0), o.1))
  {
    hide ParseUnary, C.GenPre;
    UnaryOf(t);
    var p := ParseUnary(t[1..]);
    if p.Some? && C.Gen(p.value.0, top, labels, syms).Some? && t[0] != PlusPlus && t[0] != MinusMinus {
      SameUnary(t[0], p.value.0, C.Gen(p.value.0, top, labels, syms).value);
    }
  }

  /** `GenUnary` looks only at the operator. */
  lemma SameUnary(x: Tok, e: Expr, o: C.Out)
    requires x in {TBin(Sub), Bang, Tilde}
    ensures C.GenUnary(Prefixed(x, e), o) == C.GenUnary(Prefixed(x, Num(0)), o)
  {
    hide C.AsValue;
  }

  /** The lines of `?:`, in the order they were emitted. */
  lemma CondCode(out0: seq<Line>, co: C.Out, ao: C.Out, bo: C.Out, r: RegIx)
    requires C.Alloc(C.FreeOne(co.top)) == Some(r)
    ensures out0 + co.code + [JumpZ(co.r, C.L(co.labels))] + (ao.code + [RR(ADD, r, ao.r, 0)])
            + [Jump(C.L(co.labels + 1))] + [LabelDef(C.L(co.labels))] + (bo.code + [RR(ADD, r, bo.r, 0)])
            + [LabelDef(C.L(co.labels + 1))]
         == out0 + C.GenCond(co, ao, bo).code
    ensures C.GenCond(co, ao, bo).r == r && C.GenCond(co, ao, bo).top == C.FreeOne(co.top) + 1
    ensures C.GenCond(co, ao, bo).labels == bo.labels && C.GenCond(co, ao, bo).addr == None
  {
    var mid := [RR(ADD, r, ao.r, 0), Jump(C.L(co.labels + 1)), LabelDef(C.L(co.labels))];
    var last := [RR(ADD, r, bo.r, 0), LabelDef(C.L(co.labels + 1))];
    assert [RR(ADD, r, ao.r, 0)] + [Jump(C.L(co.labels + 1))] + [LabelDef(C.L(co.labels))] == mid;
    assert [RR(ADD, r, bo.r, 0)] + [LabelDef(C.L(co.labels + 1))] == last;
    CondRegroup(out0, co.code, [JumpZ(co.r, C.L(co.labels))], ao.code, mid[..1], mid[1..2], mid[2..], bo.code,
                last[..1], last[1..]);
  }

  lemma CondRegroup<T>(o: seq<T>, a: seq<T>, j: seq<T>, b: seq<T>, m1: seq<T>, m2: seq<T>, m3: seq<T>, c: seq<T>,
                       l1: seq<T>, l2: seq<T>)
    ensures o + a + j + (b + m1) + m2 + m3 + (c + l1) + l2 == o + (a + j + b + (m1 + m2 + m3) + c + (l1 + l2))
  {
  }

  lemma LevelEnds(k: nat, e: Expr, t: seq<Tok>)
    requires UNARY < k <= TOP_LEVEL && !IsBin(t, k)
    ensures LevelLoop(k, e, t) == Some((e, t))
  {
  }

  // ----- statements: what is left gets shorter, and lines in the order they were emitted -----

  lemma ItemShrinks(t: seq<Tok>, sc: Scope, labels: nat)
    ensures CompileItem(t, sc, labels).Some? ==> |CompileItem(t, sc, labels).value.2| < |t|
  {
  }

  lemma StmtShrinks(t: seq<Tok>, sc: Scope, labels: nat, tg: Targets)
    ensures CompileStmt(t, sc, labels, tg).Some? ==> |CompileStmt(t, sc, labels, tg).value.2| < |t|
  {
    hide GenStmt;
  }

  lemma GuardShrinks(t: seq<Tok>, labels: nat, syms: C.Symbols)
    ensures CompileGuard(t, labels, syms).Some? ==> |CompileGuard(t, labels, syms).value.1| < |t|
  {
    hide C.Gen;
  }

  lemma InitShrinks(t: seq<Tok>, sc: Scope, labels: nat)
    ensures CompileInit(t, sc, labels).Some? ==> |CompileInit(t, sc, labels).value.2| < |t|
  {
    hide GenInit;
  }

  lemma TestShrinks(t: seq<Tok>, end: nat, labels: nat, syms: C.Symbols)
    ensures CompileTest(t, end, labels, syms).Some? ==> |CompileTest(t, end, labels, syms).value.1| < |t|
  {
    hide GenTest;
  }

  lemma HeaderShrinks(t: seq<Tok>, sc: Scope, l: nat)
    ensures HeaderInOrder(t, sc, l).Some? ==> |HeaderInOrder(t, sc, l).value.rest| < |t|
  {
    hide CompileInit, CompileTest, CompileForList;
    InitShrinks(t, sc, l + 4);
    var i := CompileInit(t, sc, l + 4);
    if i.Some? {
      TestShrinks(i.value.2, l + 3, i.value.0.labels, i.value.1.syms);
      var c := CompileTest(i.value.2, l + 3, i.value.0.labels, i.value.1.syms);
      if c.Some? { ForListShrinks(c.value.1, c.value.0.labels, i.value.1.syms); }
    }
  }

  lemma ForListShrinks(t: seq<Tok>, labels: nat, syms: C.Symbols)
    ensures CompileForList(t, labels, syms).Some? ==> |CompileForList(t, labels, syms).value.2| <= |t|
  {
    hide GenList;
  }

  lemma PrependNothing(c: Code)
    ensures Prepend([], c) == c
  {
    if c.Some? { assert [] + c.value.0.code == c.value.0.code; }
  }

  lemma IfLines(o: seq<Line>, l: nat, co: C.Out, ao: Out, bo: Out)
    ensures o + co.code + [JumpZ(co.r, C.L(l))] + ao.code + [Jump(C.L(l + 1))] + [LabelDef(C.L(l))] + bo.code
            + [LabelDef(C.L(l + 1))] == o + GenIf(l, co, ao, bo).code
  {
    assert [Jump(C.L(l + 1))] + [LabelDef(C.L(l))] == [Jump(C.L(l + 1)), LabelDef(C.L(l))];
  }

  lemma WhileLines(o: seq<Line>, l: nat, co: C.Out, bo: Out)
    ensures o + [LabelDef(C.L(l))] + co.code + [JumpZ(co.r, C.L(l + 1))] + bo.code + [Jump(C.L(l))]
            + [LabelDef(C.L(l + 1))] == o + GenWhile(l, co, bo).code
  {
    assert [Jump(C.L(l))] + [LabelDef(C.L(l + 1))] == [Jump(C.L(l)), LabelDef(C.L(l + 1))];
  }

  function HeaderLines(l: nat, h: Header): seq<Line> {
    h.start.code + [LabelDef(C.L(l))] + h.test.code + [Jump(C.L(l + 1)), LabelDef(C.L(l + 2))] + h.step.code
    + [Jump(C.L(l)), LabelDef(C.L(l + 1))]
  }

  lemma HeaderJoins(o: seq<Line>, l: nat, h: Header)
    ensures o + h.start.code + [LabelDef(C.L(l))] + (h.test.code + [Jump(C.L(l + 1))]) + [LabelDef(C.L(l + 2))]
            + h.step.code + [Jump(C.L(l))] + [LabelDef(C.L(l + 1))] == o + HeaderLines(l, h)
  {
    assert [Jump(C.L(l + 1))] + [LabelDef(C.L(l + 2))] == [Jump(C.L(l + 1)), LabelDef(C.L(l + 2))];
    assert [Jump(C.L(l))] + [LabelDef(C.L(l + 1))] == [Jump(C.L(l)), LabelDef(C.L(l + 1))];
  }

  lemma ForLines(o: seq<Line>, l: nat, h: Header, bo: Out)
    ensures o + HeaderLines(l, h) + bo.code + [Jump(C.L(l + 2))] + [LabelDef(C.L(l + 3))]
         == o + GenFor(l, h.start, h.test, h.step, bo).code
  {
    assert [Jump(C.L(l + 2))] + [LabelDef(C.L(l + 3))] == [Jump(C.L(l + 2)), LabelDef(C.L(l + 3))];
  }

  // ----- functions -----

  function Earlier(names: seq<string>, p: Option<(seq<string>, seq<Tok>)>): Option<(seq<string>, seq<Tok>)> {
    match p
    case None => None
    case Some(q) => Some((names + q.0, q.1))
  }

  lemma NothingEarlier(p: Option<(seq<string>, seq<Tok>)>)
    ensures Earlier([], p) == p
  {
    if p.Some? { assert [] + p.value.0 == p.value.0; }
  }

  lemma ParamStep(names: seq<string>, t: seq<Tok>)
    ensures |t| < 2 || t[0] != TKey(KInt) || !t[1].TId? ==> ParseParamList(t).None?
    ensures |t| >= 2 && t[0] == TKey(KInt) && t[1].TId? ==>
              Earlier(names, ParseParamList(t))
              == if NextIs(t[2..], Comma) then Earlier(names + [t[1].x], ParseParamList(t[3..]))
                 else Some((names + [t[1].x], t[2..]))
  {
    if |t| >= 2 && t[0] == TKey(KInt) && t[1].TId? && NextIs(t[2..], Comma) && ParseParamList(t[3..]).Some? {
      var q := ParseParamList(t[3..]).value;
      assert names + ([t[1].x] + q.0) == names + [t[1].x] + q.0;
    }
  }

  function UnitRest(code: seq<Line>, u: Option<(Out, C.Symbols)>): Option<(Out, C.Symbols)> {
    match u
    case None => None
    case Some(q) => Some((Out(q.0.labels, code + q.0.code), q.1))
  }

  lemma NothingBefore(u: Option<(Out, C.Symbols)>)
    ensures UnitRest([], u) == u
  {
    if u.Some? { assert [] + u.value.0.code == u.value.0.code; }
  }

  lemma UnitStep(code: seq<Line>, t: seq<Tok>, labels: nat, before: C.Symbols)
    ensures t == [] ==> UnitRest(code, CompileUnit(t, labels, before)) == Some((Out(labels, code + []), before))
    ensures |t| >= 3 && t[0] == TKey(KInt) && t[1].TId? && t[2] == LParen ==>
              UnitRest(code, CompileUnit(t, labels, before))
              == match CompileFunction(t[1].x, t[2..], labels, before)
                 case None => None
                 case Some(f) => UnitRest(code + f.0.code, CompileUnit(f.2, f.0.labels, f.1))
    ensures t != [] && !(|t| >= 3 && t[0] == TKey(KInt) && t[1].TId? && t[2] == LParen) ==>
              CompileUnit(t, labels, before).None?
  {
    hide CompileFunction;
    if |t| >= 3 && t[0] == TKey(KInt) && t[1].TId? && t[2] == LParen {
      var f := CompileFunction(t[1].x, t[2..], labels, before);
      if f.Some? && CompileUnit(f.value.2, f.value.0.labels, f.value.1).Some? {
        var u := CompileUnit(f.value.2, f.value.0.labels, f.value.1).value;
        assert code + (f.value.0.code + u.0.code) == code + f.value.0.code + u.0.code;
      }
    }
  }
}
