/** A call of a compiled function, from its arguments to its result, in terms of names and values. */
module CNamedCalls {
  import opened Machine
  import opened CStatements
  import opened CExpressions
  import opened CStatementRuns
  import opened CFunctions
  import opened CNames
  import Assembler
  import C = CCode
  import E = Expansion

  /** The parameters by name, the first four with the arguments in R1..R4.  No code passes a fifth. */
  function Passed(k: Call): Vars {
    seq(|k.f.params|, i requires 0 <= i < |k.f.params| =>
          Cell(k.f.params[i], if i < 4 then Some(k.s.reg[1 + i]) else None))
  }

  /** The first four parameters start as the arguments in R1..R4; any other as whatever lay in its word of the
      frame. */
  lemma FifthParameter(k: Call, i: nat)
    requires i < |k.f.params| && FrameTotal(k.f) <= Sp(k) <= MEM_WORDS
    ensures |StartEnv(k)| == |k.f.params| + 32
    ensures i < 4 ==> StartEnv(k)[i] == k.s.reg[1 + i]
    ensures i >= 4 ==> StartEnv(k)[i] == k.s.mem[Fp(k) + 2 + i]
  {
    var e := StartEnv(k);
    assert e[i] == if i < InRegisters(k.f) then k.s.reg[1 + i] else k.s.mem[Fp(k) + 2 + i];
    assert C.MAX_ARG_REGS == 4 && LOCAL_WORDS == 32;
  }

  lemma {:induction false} ParamsPlaced(k: Call, n: nat)
    requires n <= |k.f.params| <= MAX_PARAMS && FrameTotal(k.f) <= Sp(k) <= MEM_WORDS
    ensures var sc := ParamScope(k.f.before, k.f.params, n);
            sc.next == 2 + n && Placed(sc.syms, StartEnv(k), Passed(k)[..n], |k.f.before|) && Stacked(sc, |k.f.before|)
  {
    var b := |k.f.before|;
    if n == 0 {
      assert Passed(k)[..0] == [];
    } else {
      ParamsPlaced(k, n - 1);
      var sc, v := ParamScope(k.f.before, k.f.params, n - 1), Passed(k)[n - 1].v;
      FifthParameter(k, n - 1);
      Declared(sc, k.f.params[n - 1], v, StartEnv(k), Passed(k)[..n - 1], b);
      assert Passed(k)[..n] == Passed(k)[..n - 1] + [Cell(k.f.params[n - 1], v)];
    }
  }

  /** What the processor has done, given how the body ends. */
  ghost predicate Served(k: Call, q: Ending, fuel: nat, n: nat, c: Cpu)
    requires Callable(k)
  {
    match q
    case Through(_) => exists env :: CameBack(k, env, c)
    case Gave(v, _) => (exists env :: CameBack(k, env, c)) && (v.Some? ==> c.reg[7] == v.value)
    case Faulty => c.status != Running
    case Endless => c.status == Running && fuel <= E.Span(n, |k.p.lines|) + |k.p.lines|
    case Unclear => true
    case _ => false
  }

  /** The assembled words of a function, run by the processor, give back what its body means by name: the value it
      returns, in R7, for every body whose declarations stand in blocks and which reads no variable before
      assigning it. */
  lemma {:induction false} CallByName(k: Call, fuel: nat) returns (n: nat, c: Cpu)
    requires Entered(k) && !k.p.atomic && Assembler.Assembled(k.p.lines).Some? && StandardBody(k.f.body)
    requires Assembler.LabelCount(k.p.lines, |k.p.lines|) <= Assembler.MAX_LABELS
    requires Assembler.Loaded(k.s.mem, Assembler.Assembled(k.p.lines).value)
    ensures Callable(k) && k.s.line < |k.p.lines| && c == Run(E.CpuOf(k.p, k.s), n)
    ensures Served(k, DoBody(k.f.body, Passed(k), fuel), fuel, n, c)
  {
    hide E.CodeSize, Assembler.Assembled, Assembler.Loaded, Assembler.LabelCount, Run, ExecBody, DoBody, CameBack,
         E.Span, GenFunction, Part, TidyBody, InFrame, Placed, StartEnv, Passed, BodyScope;
    n, c := CallOnProcessor(k, fuel);
    BodyByName(k, fuel);
  }

  lemma {:induction false} BodyByName(k: Call, fuel: nat)
    requires Entered(k) && StandardBody(k.f.body)
    ensures Ran(ExecBody(k.f.body, StartScope(k.f), StartEnv(k), fuel), DoBody(k.f.body, Passed(k), fuel),
                StartScope(k.f).syms, BodyScope(k.f.body, StartScope(k.f)).syms, |k.f.before|, |StartEnv(k)|)
  {
    hide E.CodeSize, ExecBody, DoBody, GenFunction, Part, TidyBody, InFrame, Placed, BodyScope, Stacked;
    ParamsPlaced(k, |k.f.params|);
    assert Passed(k)[..|k.f.params|] == Passed(k);
    BodyNext(k.f.body, StartScope(k.f));
    BodySame(k.f.body, StartScope(k.f), StartEnv(k), Passed(k), |k.f.before|, fuel);
  }
}
