/** Whole sources: functions one after the other, as one assembly file.

    Each function's code lies in the file as if compiled alone, and the assembler accepts the file
    exactly when no two functions share a name.  A function sees its own parameters and, because they
    are never taken out of the symbol table, those of every function before it. */
module CUnits {
  import opened Machine
  import opened Assembly
  import opened Labels
  import opened Runs
  import opened CSyntax
  import opened CExpressions
  import opened CStatements
  import opened CFunctions
  import opened COrder
  import CAccepted
  import Assembler
  import C = CCode

  /** A compiled function, the first label it may use and its first line. */
  datatype Placed = Placed(f: Function, labels: nat, at: nat)

  predicate Heads(t: seq<Tok>) { |t| >= 3 && t[0] == TKey(KInt) && t[1].TId? && t[2] == LParen }

  /** The tree behind a function's name; None for a prototype. */
  function TreeOf(name: string, t: seq<Tok>, before: C.Symbols): Option<Function> {
    match ParseParams(t)
    case None => None
    case Some(p) =>
      if !NextIs(p.1, LBrace) then None
      else
        match ParseBody(p.1[1..])
        case None => None
        case Some(b) => Some(Function(name, p.0, b.0, before))
  }

  lemma TreeCompiled(name: string, t: seq<Tok>, labels: nat, before: C.Symbols)
    requires CompileFunction(name, t, labels, before).Some?
    ensures var c, f := CompileFunction(name, t, labels, before).value, TreeOf(name, t, before);
            if f.None? then c.0 == Out(labels + 1, []) && c.1 == before
            else GenFunction(f.value, labels) == Some(c.0) && c.1 == StartScope(f.value).syms &&
                 f.value.name == name && f.value.before == before && |f.value.params| <= MAX_PARAMS
  {
    hide ParseParams, CStatements.ParseBody, GenFunction, StartScope;
  }

  /** The functions of a compiled source, the first at line `at`. */
  function Functions(t: seq<Tok>, labels: nat, before: C.Symbols, at: nat): seq<Placed>
    decreases |t|
  {
    if !Heads(t) then []
    else
      match CompileFunction(t[1].x, t[2..], labels, before)
      case None => []
      case Some(c) =>
        var f := TreeOf(t[1].x, t[2..], before);
        (if f.Some? then [Placed(f.value, labels, at)] else []) + Functions(c.2, c.0.labels, c.1, at + |c.0.code|)
  }

  /** One unfolding of both. */
  lemma UnitHead(t: seq<Tok>, labels: nat, before: C.Symbols, at: nat)
    requires CompileUnit(t, labels, before).Some? && t != []
    ensures Heads(t)
    ensures var c, u := CompileFunction(t[1].x, t[2..], labels, before), CompileUnit(t, labels, before).value;
            c.Some? && CompileUnit(c.value.2, c.value.0.labels, c.value.1).Some? && |c.value.2| < |t| &&
            u.0.code == c.value.0.code + CompileUnit(c.value.2, c.value.0.labels, c.value.1).value.0.code &&
            u.0.labels == CompileUnit(c.value.2, c.value.0.labels, c.value.1).value.0.labels &&
            var f := TreeOf(t[1].x, t[2..], before);
            Functions(t, labels, before, at)
            == (if f.Some? then [Placed(f.value, labels, at)] else [])
               + Functions(c.value.2, c.value.0.labels, c.value.1, at + |c.value.0.code|)
  {
    hide CompileFunction, TreeOf;
  }

  // ----- where each function is -----

  predicate PlacedIn(d: Placed, code: seq<Line>, base: nat) {
    d.at >= base && GenFunction(d.f, d.labels).Some? && InFrame(d.f.before, MAX_PARAMS) &&
    CodeAt(code, d.at - base, GenFunction(d.f, d.labels).value.code)
  }

  /** Every function of a source is compiled as if alone and lies at its line, one behind the other; the
      names left over from earlier functions stand for words every frame has. */
  lemma {:induction false} UnitPlaces(t: seq<Tok>, labels: nat, before: C.Symbols, at: nat)
    requires CompileUnit(t, labels, before).Some? && InFrame(before, MAX_PARAMS)
    ensures var fs := Functions(t, labels, before, at);
            (forall i :: 0 <= i < |fs| ==> PlacedIn(fs[i], CompileUnit(t, labels, before).value.0.code, at)) &&
            forall i, j :: 0 <= i < j < |fs| ==> fs[i].at < fs[j].at
    decreases |t|
  {
    hide CompileFunction, CompileUnit, Functions, TreeOf, PlacedIn, InFrame, GenFunction, StartScope;
    if t == [] {
      NoFunctions(labels, before, at);
    } else {
      UnitHead(t, labels, before, at);
      TreeCompiled(t[1].x, t[2..], labels, before);
      var c, f := CompileFunction(t[1].x, t[2..], labels, before).value, TreeOf(t[1].x, t[2..], before);
      if f.Some? { StartFits(f.value); }
      UnitPlaces(c.2, c.0.labels, c.1, at + |c.0.code|);
      var rest := CompileUnit(c.2, c.0.labels, c.1).value.0.code;
      var fs, more := Functions(t, labels, before, at), Functions(c.2, c.0.labels, c.1, at + |c.0.code|);
      var k := if f.Some? then 1 else 0;
      forall i | 0 <= i < |fs| ensures PlacedIn(fs[i], c.0.code + rest, at) {
        if i < k { PlacedHead(fs[i], c.0.code, rest, at); } else { PlacedTail(more[i - k], c.0.code, rest, at); }
      }
      forall i, j | 0 <= i < j < |fs| ensures fs[i].at < fs[j].at {
        if i < k { Lower(f.value, labels, more[j - k], rest, at + |c.0.code|); }
        else { assert fs[i] == more[i - k] && fs[j] == more[j - k]; }
      }
    }
  }

  lemma NoFunctions(labels: nat, before: C.Symbols, at: nat)
    ensures Functions([], labels, before, at) == []
  {
  }

  lemma StartFits(f: Function)
    requires |f.params| <= MAX_PARAMS && InFrame(f.before, MAX_PARAMS)
    ensures InFrame(StartScope(f).syms, MAX_PARAMS)
  {
    ParamScopeFits(f.before, f.params, |f.params|);
  }

  lemma PlacedHead(d: Placed, a: seq<Line>, b: seq<Line>, at: nat)
    requires d.at == at && GenFunction(d.f, d.labels).Some? && GenFunction(d.f, d.labels).value.code == a
    requires InFrame(d.f.before, MAX_PARAMS)
    ensures PlacedIn(d, a + b, at)
  {
    hide GenFunction;
    assert (a + b)[..|a|] == a;
  }

  lemma PlacedTail(d: Placed, a: seq<Line>, b: seq<Line>, at: nat)
    requires PlacedIn(d, b, at + |a|)
    ensures PlacedIn(d, a + b, at)
  {
    hide GenFunction;
    var k, code := d.at - at - |a|, GenFunction(d.f, d.labels).value.code;
    assert (a + b)[|a| + k..|a| + k + |code|] == b[k..k + |code|];
  }

  /** A function has lines. */
  lemma Lower(f: Function, labels: nat, d: Placed, rest: seq<Line>, base: nat)
    requires GenFunction(f, labels).Some? && PlacedIn(d, rest, base)
    ensures |GenFunction(f, labels).value.code| >= 1 && d.at >= base
  {
    hide GenBody, ParamStores;
  }

  // ----- what a function sees -----

  lemma {:induction false} FindParam(before: C.Symbols, params: seq<string>, n: nat, x: string)
    requires n <= |params| <= MAX_PARAMS
    ensures C.Find(ParamScope(before, params, n).syms, x).Some? <==> x in params[..n] || C.Find(before, x).Some?
    ensures ParamScope(before, params, n).next == 2 + n
    decreases n
  {
    if n > 0 {
      FindParam(before, params, n - 1, x);
      var sc := ParamScope(before, params, n - 1);
      assert params[..n] == params[..n - 1] + [params[n - 1]];
      assert Declare(sc, params[n - 1]).syms[..|sc.syms|] == sc.syms;
    }
  }

  /** A name is known where a function's body starts exactly when it is a parameter of that function or
      of one before it. */
  lemma {:induction false} ParamsLinger(t: seq<Tok>, labels: nat, before: C.Symbols, at: nat, i: nat, x: string)
    requires CompileUnit(t, labels, before).Some? && i < |Functions(t, labels, before, at)|
    ensures var fs := Functions(t, labels, before, at);
            C.Find(StartScope(fs[i].f).syms, x).Some?
            <==> C.Find(before, x).Some? || exists j :: 0 <= j <= i && x in fs[j].f.params
    decreases |t|
  {
    hide CompileFunction, CompileUnit, Functions, TreeOf, GenFunction, C.Find;
    if t == [] {
      NoFunctions(labels, before, at);
    } else {
      UnitHead(t, labels, before, at);
      TreeCompiled(t[1].x, t[2..], labels, before);
      var c, f := CompileFunction(t[1].x, t[2..], labels, before).value, TreeOf(t[1].x, t[2..], before);
      var fs, more := Functions(t, labels, before, at), Functions(c.2, c.0.labels, c.1, at + |c.0.code|);
      if f.Some? {
        FindParam(before, f.value.params, |f.value.params|, x);
        assert f.value.params[..|f.value.params|] == f.value.params;
        assert fs == [Placed(f.value, labels, at)] + more;
        if i >= 1 { ParamsLinger(c.2, c.0.labels, c.1, at + |c.0.code|, i - 1, x); }
        LaterSees(fs[0], more, i, x);
      } else {
        assert fs == more;
        ParamsLinger(c.2, c.0.labels, c.1, at + |c.0.code|, i, x);
      }
    }
  }

  lemma LaterSees(d: Placed, more: seq<Placed>, i: nat, x: string)
    requires i <= |more|
    ensures var fs := [d] + more;
            fs[0] == d && (i >= 1 ==> fs[i] == more[i - 1]) &&
            ((exists j :: 0 <= j <= i && x in fs[j].f.params)
             <==> x in d.f.params || exists j :: 0 <= j < i && x in more[j].f.params)
  {
    var fs := [d] + more;
    if j :| 0 <= j < i && x in more[j].f.params { assert fs[j + 1] == more[j]; }
    if x in d.f.params { assert fs[0] == d; }
  }

  // ----- what the assembler says -----

  /** Labels of a source from some point on: numbered ones from `lo` on, and the names of `fs`. */
  predicate Within(code: seq<Line>, fs: seq<Placed>, lo: nat) {
    forall k :: 0 <= k < |code| && code[k].LabelDef? ==>
      (code[k].name == C.L(code[k].name.a) && lo <= code[k].name.a) || Named(fs, code[k].name)
  }

  predicate Named(fs: seq<Placed>, n: Name) { exists i :: 0 <= i < |fs| && n == Name(fs[i].f.name, 0, 0) }

  predicate DistinctNames(fs: seq<Placed>) {
    forall i, j :: 0 <= i < j < |fs| ==> fs[i].f.name != fs[j].f.name
  }

  predicate NoneInternal(fs: seq<Placed>) { forall i :: 0 <= i < |fs| ==> fs[i].f.name != "_L" }

  lemma ResolvedJoin(a: seq<Line>, b: seq<Line>)
    requires Assembler.Resolved(a) && Assembler.Resolved(b)
    ensures Assembler.Resolved(a + b)
  {
    var lines := a + b;
    forall k | 0 <= k < |lines| && Assembler.NeedsLabel(lines[k])
      ensures LineOf(lines, Target(lines[k]).value).Some?
    {
      var piece := if k < |a| then a else b;
      var line := if k < |a| then a[k] else b[k - |a|];
      assert LineOf(piece, Target(line).value).Some?;
      assert LabelDef(Target(line).value) in piece;
    }
  }

  lemma PieceApart(a: seq<Line>, b: seq<Line>, name: string, fs: seq<Placed>, lo: nat, hi: nat)
    requires DistinctLabels(a) && DistinctLabels(b) && Owns(a, name, lo, hi) && Within(b, fs, hi)
    requires name != "_L" && NoneInternal(fs) && forall i :: 0 <= i < |fs| ==> fs[i].f.name != name
    ensures DistinctLabels(a + b)
  {
    forall n | Defines(a, n) ensures !Defines(b, n) {}
    DistinctJoin(a, b);
  }

  /** Distinct function names give distinct labels, and no branch is left open. */
  lemma {:induction false} UnitSound(t: seq<Tok>, labels: nat, before: C.Symbols, at: nat)
    requires CompileUnit(t, labels, before).Some?
    requires DistinctNames(Functions(t, labels, before, at)) && NoneInternal(Functions(t, labels, before, at))
    ensures var u := CompileUnit(t, labels, before).value.0;
            DistinctLabels(u.code) && Within(u.code, Functions(t, labels, before, at), labels)
    decreases |t|
  {
    hide CompileFunction, CompileUnit, Functions, TreeOf, GenFunction, StartScope, DistinctLabels, Within, Owns,
         DistinctNames, NoneInternal;
    if t == [] {
      NothingCompiled(labels, before, at);
    } else {
      UnitHead(t, labels, before, at);
      TreeCompiled(t[1].x, t[2..], labels, before);
      var c, f := CompileFunction(t[1].x, t[2..], labels, before).value, TreeOf(t[1].x, t[2..], before);
      var rest := CompileUnit(c.2, c.0.labels, c.1).value.0.code;
      var more := Functions(c.2, c.0.labels, c.1, at + |c.0.code|);
      if f.Some? {
        NamesApart(Placed(f.value, labels, at), more);
        UnitSound(c.2, c.0.labels, c.1, at + |c.0.code|);
        FunctionDistinct(f.value, labels);
        PieceApart(c.0.code, rest, f.value.name, more, labels, c.0.labels);
        WithinJoin(c.0.code, rest, Placed(f.value, labels, at), more, labels, c.0.labels);
      } else {
        assert Functions(t, labels, before, at) == more && c.0.code + rest == rest;
        UnitSound(c.2, c.0.labels, c.1, at + |c.0.code|);
        WithinLower(rest, more, c.0.labels, labels);
      }
    }
  }

  lemma NothingCompiled(labels: nat, before: C.Symbols, at: nat)
    ensures CompileUnit([], labels, before).value.0.code == []
    ensures DistinctLabels([]) && Within([], Functions([], labels, before, at), labels) && Assembler.Resolved([])
  {
  }

  lemma NamesApart(d: Placed, more: seq<Placed>)
    requires DistinctNames([d] + more) && NoneInternal([d] + more)
    ensures DistinctNames(more) && NoneInternal(more) && d.f.name != "_L"
    ensures forall i :: 0 <= i < |more| ==> more[i].f.name != d.f.name
  {
    var fs := [d] + more;
    assert fs[0] == d;
    forall i | 0 <= i < |more|
      ensures more[i].f.name != d.f.name && more[i].f.name != "_L"
    {
      assert fs[i + 1] == more[i];
    }
    forall i, j | 0 <= i < j < |more| ensures more[i].f.name != more[j].f.name {
      assert fs[i + 1] == more[i] && fs[j + 1] == more[j];
    }
  }

  lemma WithinJoin(a: seq<Line>, b: seq<Line>, d: Placed, more: seq<Placed>, lo: nat, hi: nat)
    requires Owns(a, d.f.name, lo, hi) && Within(b, more, hi)
    ensures Within(a + b, [d] + more, lo)
  {
    var code, fs := a + b, [d] + more;
    forall k | 0 <= k < |code| && code[k].LabelDef?
      ensures (code[k].name == C.L(code[k].name.a) && lo <= code[k].name.a) || Named(fs, code[k].name)
    {
      if k < |a| {
        if code[k].name == Name(d.f.name, 0, 0) { assert fs[0] == d; }
      } else {
        assert code[k] == b[k - |a|];
        if i :| 0 <= i < |more| && code[k].name == Name(more[i].f.name, 0, 0) { assert fs[i + 1] == more[i]; }
      }
    }
  }

  lemma WithinLower(code: seq<Line>, fs: seq<Placed>, hi: nat, lo: nat)
    requires Within(code, fs, hi) && lo <= hi
    ensures Within(code, fs, lo)
  {
  }

  lemma {:induction false} UnitResolved(t: seq<Tok>, labels: nat, before: C.Symbols)
    requires CompileUnit(t, labels, before).Some?
    ensures Assembler.Resolved(CompileUnit(t, labels, before).value.0.code)
    decreases |t|
  {
    hide CompileFunction, CompileUnit, Functions, TreeOf, GenFunction, StartScope, Assembler.Resolved;
    if t == [] {
      NothingCompiled(labels, before, 0);
    } else {
      UnitHead(t, labels, before, 0);
      TreeCompiled(t[1].x, t[2..], labels, before);
      var c, f := CompileFunction(t[1].x, t[2..], labels, before).value, TreeOf(t[1].x, t[2..], before);
      UnitResolved(c.2, c.0.labels, c.1);
      if f.Some? { CAccepted.FunctionResolved(f.value, labels); } else { NothingCompiled(labels, before, 0); }
      ResolvedJoin(c.0.code, CompileUnit(c.2, c.0.labels, c.1).value.0.code);
    }
  }

  /** Within the assembler's limits, a compiled source is accepted exactly when its functions have
      different names. */
  lemma UnitAccepted(t: seq<Tok>, labels: nat, before: C.Symbols)
    requires CompileUnit(t, labels, before).Some? && InFrame(before, MAX_PARAMS)
    requires NoneInternal(Functions(t, labels, before, 0))
    requires var lines := CompileUnit(t, labels, before).value.0.code;
             Assembler.LabelCount(lines, |lines|) <= Assembler.MAX_LABELS &&
             AddressOf(lines, |lines|) <= Assembler.MAX_INSNS
    ensures Assembler.Assembled(CompileUnit(t, labels, before).value.0.code).Some?
       <==> DistinctNames(Functions(t, labels, before, 0))
  {
    hide CompileUnit, Functions, AddressOf, Assembler.LabelCount, Assembler.Assembled, Assembler.Resolved,
         DistinctLabels, DistinctNames, NoneInternal, InFrame, Within;
    var lines, fs := CompileUnit(t, labels, before).value.0.code, Functions(t, labels, before, 0);
    Assembler.AssembledExact(lines);
    UnitResolved(t, labels, before);
    if DistinctNames(fs) { UnitSound(t, labels, before, 0); }
    if DistinctLabels(lines) {
      UnitPlaces(t, labels, before, 0);
      NamesDiffer(lines, fs);
    }
  }

  lemma NamesDiffer(lines: seq<Line>, fs: seq<Placed>)
    requires DistinctLabels(lines)
    requires forall i :: 0 <= i < |fs| ==> PlacedIn(fs[i], lines, 0)
    requires forall i, j :: 0 <= i < j < |fs| ==> fs[i].at < fs[j].at
    ensures DistinctNames(fs)
  {
    hide GenFunction, DistinctLabels, PlacedIn;
    forall i | 0 <= i < |fs| ensures fs[i].at < |lines| && lines[fs[i].at] == LabelDef(Name(fs[i].f.name, 0, 0)) {
      NameLine(fs[i], lines);
    }
    TwoLines(lines, fs);
  }

  lemma NameLine(d: Placed, lines: seq<Line>)
    requires PlacedIn(d, lines, 0)
    ensures d.at < |lines| && lines[d.at] == LabelDef(Name(d.f.name, 0, 0))
  {
    hide GenBody, ParamStores;
    CodeAtLine(lines, d.at, GenFunction(d.f, d.labels).value.code, 0);
  }

  lemma TwoLines(lines: seq<Line>, fs: seq<Placed>)
    requires DistinctLabels(lines) && forall i, j :: 0 <= i < j < |fs| ==> fs[i].at < fs[j].at
    requires forall i :: 0 <= i < |fs| ==> fs[i].at < |lines| && lines[fs[i].at] == LabelDef(Name(fs[i].f.name, 0, 0))
    ensures DistinctNames(fs)
  {
    forall i, j | 0 <= i < j < |fs| ensures fs[i].f.name != fs[j].f.name {
      assert fs[i].at < fs[j].at && lines[fs[i].at].LabelDef?;
    }
  }
}
