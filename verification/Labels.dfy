/** Which labels a piece of assembly defines, and that joining pieces with different labels keeps
    every label defined once. */
module Labels {
  import opened Assembly

  predicate Defines(code: seq<Line>, n: Name) { LabelDef(n) in code }

  lemma DistinctJoin(a: seq<Line>, b: seq<Line>)
    requires DistinctLabels(a) && DistinctLabels(b)
    requires forall n :: Defines(a, n) ==> !Defines(b, n)
    ensures DistinctLabels(a + b)
  {
    forall i, j | 0 <= i < j < |a + b| && (a + b)[i].LabelDef?
      ensures (a + b)[i] != (a + b)[j]
    {
      if i < |a| && j >= |a| && (a + b)[i] == (a + b)[j] {
        var n := (a + b)[i].name;
        assert a[i] == LabelDef(n) && b[j - |a|] == LabelDef(n);
        assert Defines(a, n) && Defines(b, n);
        assert false;
      }
    }
  }

  /** `code` defines only names of `names`, each once. */
  predicate Prints(code: seq<Line>, names: set<Name>) {
    DistinctLabels(code) && forall k :: 0 <= k < |code| && code[k].LabelDef? ==> code[k].name in names
  }

  lemma PrintsJoin(a: seq<Line>, b: seq<Line>, na: set<Name>, nb: set<Name>)
    requires Prints(a, na) && Prints(b, nb) && na !! nb
    ensures Prints(a + b, na + nb)
  {
    hide DistinctLabels;
    forall n | Defines(a, n) ensures !Defines(b, n) { assert n in na; }
    DistinctJoin(a, b);
  }

  lemma NoLabels(code: seq<Line>)
    requires forall k :: 0 <= k < |code| ==> !code[k].LabelDef?
    ensures Prints(code, {})
  {
  }

  lemma OneLabel(code: seq<Line>, n: Name, at: nat)
    requires at < |code| && code[at] == LabelDef(n)
    requires forall k :: 0 <= k < |code| && k != at ==> !code[k].LabelDef?
    ensures Prints(code, {n})
  {
  }

  lemma TwoLabels(code: seq<Line>, m: Name, n: Name, i: nat, j: nat)
    requires i < j < |code| && code[i] == LabelDef(m) && code[j] == LabelDef(n) && m != n
    requires forall k :: 0 <= k < |code| && k != i && k != j ==> !code[k].LabelDef?
    ensures Prints(code, {m, n})
  {
  }

  lemma PlainJoin(a: seq<Line>, b: seq<Line>)
    requires Prints(a, {}) && Prints(b, {})
    ensures Prints(a + b, {})
  {
    var none: set<Name> := {};
    PrintsJoin(a, b, none, none);
    assert none + none == none;
  }
}
