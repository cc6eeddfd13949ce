/** What it means for a machine state to represent a WebAssembly configuration. */
module Simulation {
  import opened Machine
  import opened Assembly
  import E = Expansion
  import opened Translator
  import W = Wasm

  // ----- representing a configuration -----

  /** What stays fixed while a function body runs: the program, the translated function, the
      frame and the rest of memory, the types of the locals. */
  datatype Site = Site(p: Program, f: Func, fp: nat, ret: nat, mem0: Mem, locals: seq<W.ValType>)

  /** The frame holds its 1024 words above the program and below the end of memory. */
  predicate GoodSite(e: Site) {
    DistinctLabels(e.p.lines) && e.f.slots == |e.locals| <= 1022 &&
    E.CodeSize(e.p.lines) <= e.fp && e.fp + 1024 <= MEM_WORDS &&
    e.ret < |e.p.lines| && e.p.lines[e.ret] == LabelDef(ReturnName(e.f))
  }

  /** The registers and memory the function may not disturb. */
  predicate Base(e: Site, s: State) {
    s.mode == Going && s.reg[0] == 0 && s.reg[29] == e.fp && s.reg[31] == e.fp && OutsideKept(e, s.mem)
  }

  predicate OutsideKept(e: Site, mem: Mem) {
    forall a :: 0 <= a < MEM_WORDS && !(e.fp + 2 <= a < e.fp + 2 + |e.locals|) ==> mem[a] == e.mem0[a]
  }

  predicate StackIn(stack: seq<W.Val>, ts: seq<W.ValType>, reg: Regs) {
    |stack| == |ts| <= 21 &&
    forall i :: 0 <= i < |ts| ==> W.TypeOf(stack[i]) == ts[i] && reg[4 + i] == W.Raw(stack[i])
  }

  predicate LocalsIn(e: Site, locals: seq<W.Val>, mem: Mem)
    requires e.fp + 1024 <= MEM_WORDS && |e.locals| <= 1022
  {
    |locals| == |e.locals| &&
    forall k :: 0 <= k < |locals| ==> W.TypeOf(locals[k]) == e.locals[k] && mem[e.fp + 2 + k] == W.Raw(locals[k])
  }

  /** R(4+i) holds operand `i` and the frame holds the locals. */
  predicate Match(e: Site, c: W.Config, ts: seq<W.ValType>, s: State)
    requires GoodSite(e)
  {
    Base(e, s) && StackIn(c.stack, ts, s.reg) && LocalsIn(e, c.locals, s.mem)
  }

  /** The registers of the lowest `m` operands and the fixed ones are unchanged. */
  predicate Keeps(a: Regs, b: Regs, m: nat) {
    a[0] == b[0] && a[29] == b[29] && a[31] == b[31] && m <= 21 &&
    forall r :: 4 <= r < 4 + m ==> a[r] == b[r]
  }

  lemma MatchPop(e: Site, c: W.Config, ts: seq<W.ValType>, s: State, k: nat, t: State)
    requires GoodSite(e) && Match(e, c, ts, s) && k <= |ts|
    requires t.mem == s.mem && t.mode == Going && Keeps(s.reg, t.reg, |ts| - k)
    ensures Match(e, c.(stack := W.Pop(c, k)), ts[..|ts| - k], t)
  {
  }

  lemma MatchPush(e: Site, c: W.Config, ts: seq<W.ValType>, s: State, k: nat, v: W.Val, t: State)
    requires GoodSite(e) && Match(e, c, ts, s) && k <= |ts| && |ts| - k <= 20
    requires t.mem == s.mem && t.mode == Going && Keeps(s.reg, t.reg, |ts| - k)
    requires t.reg[4 + |ts| - k] == W.Raw(v)
    ensures Match(e, c.(stack := W.Pop(c, k) + [v]), ts[..|ts| - k] + [W.TypeOf(v)], t)
  {
    MatchPop(e, c, ts, s, k, t);
  }

  lemma MatchOperand(e: Site, c: W.Config, ts: seq<W.ValType>, s: State, k: nat)
    requires GoodSite(e) && Match(e, c, ts, s) && k < |ts|
    ensures s.reg[3 + |ts| - k] == W.Raw(W.Operand(c, k))
    ensures W.TypeOf(W.Operand(c, k)) == ts[|ts| - 1 - k]
  {
    assert s.reg[4 + (|ts| - 1 - k)] == W.Raw(c.stack[|ts| - 1 - k]);
  }

  lemma MatchStore(e: Site, c: W.Config, ts: seq<W.ValType>, s: State, i: nat, v: W.Val, t: State)
    requires GoodSite(e) && Match(e, c, ts, s) && i < |c.locals| && W.TypeOf(v) == e.locals[i]
    requires t.mem == s.mem[e.fp + 2 + i := W.Raw(v)] && t.mode == Going && t.reg == s.reg
    ensures Match(e, c.(locals := c.locals[i := v]), ts, t)
  {
  }

  lemma SlotAddress(e: Site, s: State, i: nat)
    requires GoodSite(e) && Base(e, s) && i < |e.locals|
    ensures Fits11(2 + i) && Address(s.reg[29], 2 + i) == e.fp + 2 + i
    ensures E.CodeSize(e.p.lines) <= e.fp + 2 + i
  {
  }
}
