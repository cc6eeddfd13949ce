/** The two-pass assembler: pass 1 collects label addresses, pass 2 emits words.

    Every code line has the same length in both passes, so the address pass 1 records for a
    label is the index of the first word emitted after it, and the image, loaded at word 0,
    is exactly the program the processor has to run for `Expansion.RunRefines`. */
module Assembler {
  import opened Words
  import opened Machine
  import opened Assembly
  import opened Expansion

  const MAX_LABELS: nat := 8192
  const MAX_INSNS: nat := 262144

  type Table = seq<(Name, nat)>

  /** First entry with that name, as `label_find` searches. */
  function Lookup(t: Table, name: Name): Option<nat> {
    if t == [] then None
    else if t[0].0 == name then Some(t[0].1)
    else Lookup(t[1..], name)
  }

  /** Labels `_L<number>` belong to the C compiler and must be defined. */
  predicate IsInternal(name: Name) { name.base == "_L" }

  /** The words a line contributes in pass 2; None where it is an error. */
  function Emit(line: Line, t: Table): Option<seq<nat>> {
    if line.WordData? then Some([line.value % TWO_TO_32])
    else if line.Zero? then Some(seq(line.count, i => 0))
    else if Target(line).None? then Some(Encoded(Expand(line, 0)))
    else
      match Lookup(t, Target(line).value)
      case Some(a) => Some(EmitAt(line, a))
      case None =>
        if line.MoviLabel? || IsInternal(Target(line).value) then None else Some(EmitAt(line, 0))
  }

  function EmitAt(line: Line, address: nat): seq<nat>
    requires Target(line).Some?
  {
    if line.WordLabel? then [address % TWO_TO_32] else Encoded(Expand(line, Wrap(address)))
  }

  function Encoded(s: seq<Insn>): (w: seq<nat>)
    ensures |w| == |s| && forall k :: 0 <= k < |s| ==> w[k] == Encode(s[k])
  {
    seq(|s|, k requires 0 <= k < |s| => Encode(s[k]))
  }

  lemma EmitSize(line: Line, t: Table)
    requires Emit(line, t).Some?
    ensures |Emit(line, t).value| == Size(line)
  {
    hide Expand;
    if IsCode(line) {
      ExpandSize(line, 0);
      if Target(line).Some? && Lookup(t, Target(line).value).Some? {
        ExpandSize(line, Wrap(Lookup(t, Target(line).value).value));
      }
    }
  }

  // ----- what the passes compute -----

  /** A `.ZERO` longer than any program is refused by both passes. */
  predicate TooLong(line: Line) { line.Zero? && line.count > MAX_INSNS }

  /** The label table after the first `k` lines of pass 1; None after an error. */
  function Collect(lines: seq<Line>, k: nat): Option<Table>
    requires k <= |lines|
  {
    if k == 0 then Some([])
    else
      match Collect(lines, k - 1)
      case None => None
      case Some(t) =>
        if TooLong(lines[k - 1]) then None
        else if !lines[k - 1].LabelDef? then Some(t)
        else if Lookup(t, lines[k - 1].name).Some? then None
        else if |t| >= MAX_LABELS then Some(t)
        else Some(t + [(lines[k - 1].name, AddressOf(lines, k - 1))])
  }

  /** The words of the first `k` lines in pass 2. */
  function Image(lines: seq<Line>, t: Table, k: nat): Option<seq<nat>>
    requires k <= |lines|
  {
    if k == 0 then Some([])
    else
      match Image(lines, t, k - 1)
      case None => None
      case Some(w) =>
        match Emit(lines[k - 1], t)
        case None => None
        case Some(v) => if |w| + |v| > MAX_INSNS then None else Some(w + v)
  }

  function Assembled(lines: seq<Line>): Option<seq<nat>> {
    match Collect(lines, |lines|)
    case None => None
    case Some(t) => Image(lines, t, |lines|)
  }

  /** The assembler's tables and counters. */
  class TwoPass {
    var labels: Table
    var words: seq<nat>
    var wordAddr: nat

    constructor ()
      ensures labels == [] && words == [] && wordAddr == 0
    {
      labels, words, wordAddr := [], [], 0;
    }

    /** One source line in pass 1 or pass 2; `false` reports an error. */
    method ProcessLine(line: Line, pass: int) returns (ok: bool)
      requires pass == 1 || pass == 2
      modifies this
      ensures wordAddr == if ok then old(wordAddr) + Size(line) else old(wordAddr)
      ensures pass == 1 ==> words == old(words)
      ensures pass == 1 ==> ok == !(TooLong(line) || (line.LabelDef? && Lookup(old(labels), line.name).Some?))
      ensures labels == if pass == 1 && ok && line.LabelDef? && |old(labels)| < MAX_LABELS
                        then old(labels) + [(line.name, old(wordAddr))] else old(labels)
      ensures pass == 2 ==>
                var e := Emit(line, labels);
                ok == (e.Some? && |old(words)| + |e.value| <= MAX_INSNS) &&
                words == if ok then old(words) + e.value else old(words)
    {
      if TooLong(line) { return false; }
      if pass == 1 {
        if line.LabelDef? {
          if Lookup(labels, line.name).Some? { return false; }
          if |labels| < MAX_LABELS { labels := labels + [(line.name, wordAddr)]; }
        }
      } else {
        var e := Emit(line, labels);
        if e.None? || |words| + |e.value| > MAX_INSNS { return false; }
        words := words + e.value;
      }
      wordAddr := wordAddr + Size(line);
      return true;
    }

    /** A whole pass over the source, from word address 0; stops at the first error. */
    method RunPass(lines: seq<Line>, pass: int) returns (ok: bool)
      requires pass == 1 ==> labels == []
      requires pass == 2 ==> words == []
      requires pass == 1 || pass == 2
      modifies this
      ensures ok ==> wordAddr == AddressOf(lines, |lines|)
      ensures pass == 1 ==>
                ok == Collect(lines, |lines|).Some? && words == old(words) &&
                (ok ==> Some(labels) == Collect(lines, |lines|))
      ensures pass == 2 ==>
                labels == old(labels) && ok == Image(lines, labels, |lines|).Some? &&
                (ok ==> Some(words) == Image(lines, labels, |lines|) && |words| == wordAddr)
    {
      hide Emit, Size, Lookup;
      wordAddr := 0;
      ok := true;
      var k := 0;
      while k < |lines|
        invariant 0 <= k <= |lines| && ok && wordAddr == AddressOf(lines, k)
        invariant pass == 1 ==> words == old(words) && Some(labels) == Collect(lines, k)
        invariant pass == 2 ==> labels == old(labels) && Some(words) == Image(lines, labels, k)
        invariant pass == 2 ==> |words| == wordAddr
      {
        if pass == 2 && Emit(lines[k], labels).Some? { EmitSize(lines[k], labels); }
        ok := ProcessLine(lines[k], pass);
        if !ok {
          if pass == 1 { CollectFails(lines, k + 1); } else { ImageFails(lines, labels, k + 1); }
          return;
        }
        k := k + 1;
      }
    }

    method Assemble(lines: seq<Line>) returns (r: Option<seq<nat>>)
      requires labels == [] && words == []
      modifies this
      ensures r == Assembled(lines)
      ensures r.Some? ==> Collect(lines, |lines|) == Some(labels) && |r.value| == AddressOf(lines, |lines|)
    {
      var ok := RunPass(lines, 1);
      if !ok { return None; }
      words := [];
      ok := RunPass(lines, 2);
      if !ok { return None; }
      return Some(words);
    }
  }

  lemma {:induction false} CollectFails(lines: seq<Line>, k: nat)
    requires k <= |lines| && Collect(lines, k).None?
    ensures Collect(lines, |lines|).None?
    decreases |lines| - k
  {
    if k < |lines| { CollectFails(lines, k + 1); }
  }

  lemma {:induction false} ImageFails(lines: seq<Line>, t: Table, k: nat)
    requires k <= |lines| && Image(lines, t, k).None?
    ensures Image(lines, t, |lines|).None?
    decreases |lines| - k
  {
    if k < |lines| { ImageFails(lines, t, k + 1); }
  }

  // ----- both passes agree -----

  lemma {:induction false} CollectPrefix(lines: seq<Line>, k: nat)
    requires k <= |lines| && Collect(lines, |lines|).Some?
    ensures Collect(lines, k).Some?
  {
    if Collect(lines, k).None? { CollectFails(lines, k); }
  }

  /** In pass 2 the words of line `k` start at the address pass 1 counted for it. */
  lemma {:induction false} ImageLayout(lines: seq<Line>, t: Table, k: nat, m: nat)
    requires k < m <= |lines| && Image(lines, t, m).Some?
    ensures Emit(lines[k], t).Some? && |Image(lines, t, m).value| == AddressOf(lines, m)
    ensures AddressOf(lines, k) + Size(lines[k]) <= AddressOf(lines, m)
    ensures Image(lines, t, m).value[AddressOf(lines, k)..AddressOf(lines, k) + Size(lines[k])]
         == Emit(lines[k], t).value
    decreases m
  {
    var w := Image(lines, t, m - 1).value;
    var v := Emit(lines[m - 1], t).value;
    EmitSize(lines[m - 1], t);
    if m == 1 {
      assert w == [];
    } else if k < m - 1 {
      ImageLayout(lines, t, k, m - 1);
      assert (w + v)[..|w|] == w;
    } else {
      ImageLayout(lines, t, 0, m - 1);
    }
    if k < m - 1 {
      var a := AddressOf(lines, k);
      assert (w + v)[a..a + Size(lines[k])] == w[a..a + Size(lines[k])];
    } else {
      assert (w + v)[|w|..] == v;
    }
  }

  function LabelCount(lines: seq<Line>, k: nat): nat
    requires k <= |lines|
  {
    if k == 0 then 0 else LabelCount(lines, k - 1) + if lines[k - 1].LabelDef? then 1 else 0
  }

  lemma {:induction false} LookupAppend(t: Table, e: (Name, nat), name: Name)
    ensures Lookup(t + [e], name)
         == if Lookup(t, name).Some? then Lookup(t, name) else if e.0 == name then Some(e.1) else None
  {
    if t == [] {
      assert t + [e] == [e];
      assert Lookup([e][1..], name) == None;
    } else {
      assert (t + [e])[1..] == t[1..] + [e];
      LookupAppend(t[1..], e, name);
    }
  }

  /** What pass 1 knows of a name after `k` lines: the address of the line that defines it. */
  lemma {:induction false} CollectFinds(lines: seq<Line>, k: nat, name: Name)
    requires k <= |lines| && Collect(lines, k).Some? && LabelCount(lines, |lines|) <= MAX_LABELS
    ensures |Collect(lines, k).value| == LabelCount(lines, k)
    ensures Lookup(Collect(lines, k).value, name)
         == match LineOf(lines, name) case Some(j) => if j < k then Some(AddressOf(lines, j)) else None
                                      case None => None
    decreases k
  {
    if k > 0 {
      CollectFinds(lines, k - 1, name);
      LabelCountMonotone(lines, k, |lines|);
      var t := Collect(lines, k - 1).value;
      if lines[k - 1].LabelDef? {
        var n := lines[k - 1].name;
        LookupAppend(t, (n, AddressOf(lines, k - 1)), name);
        CollectFinds(lines, k - 1, n);
        LineOfFirst(lines, k - 1);
      }
    }
  }

  lemma {:induction false} LabelCountMonotone(lines: seq<Line>, j: nat, k: nat)
    requires j <= k <= |lines|
    ensures LabelCount(lines, j) <= LabelCount(lines, k)
  {
    if j < k { LabelCountMonotone(lines, j, k - 1); }
  }

  lemma {:induction false} LineOfFirst(lines: seq<Line>, k: nat)
    requires k < |lines| && lines[k].LabelDef?
    ensures LineOf(lines, lines[k].name).Some? && LineOf(lines, lines[k].name).value <= k
  {
    assert lines[k] == LabelDef(lines[k].name);
    if lines[0] != lines[k] { LineOfFirst(lines[1..], k - 1); }
  }

  /** A source without errors defines no label twice, and the table gives every label the
      address both passes count for its line. */
  lemma ErrorFreeTable(lines: seq<Line>, k: nat)
    requires Assembled(lines).Some? && LabelCount(lines, |lines|) <= MAX_LABELS
    requires k < |lines| && lines[k].LabelDef?
    ensures Lookup(Collect(lines, |lines|).value, lines[k].name) == Some(AddressOf(lines, k))
    ensures LineOf(lines, lines[k].name) == Some(k)
  {
    hide Collect, Lookup, AddressOf, LineOf, LabelCount, Image;
    var n := lines[k].name;
    CollectPrefix(lines, k + 1);
    NewName(lines, k);
    CollectFinds(lines, k, n);
    CollectFinds(lines, |lines|, n);
    LineOfFirst(lines, k);
  }

  /** A label that was accepted was not in the table before. */
  lemma NewName(lines: seq<Line>, k: nat)
    requires k < |lines| && Collect(lines, k + 1).Some? && lines[k].LabelDef?
    ensures Collect(lines, k).Some? && Lookup(Collect(lines, k).value, lines[k].name).None?
  {
    hide Lookup, AddressOf;
  }

  // ----- which sources are accepted -----

  /** Every label that must be known is defined: those of the C compiler, and the operand of MOVI. */
  predicate Resolved(lines: seq<Line>) {
    forall k :: 0 <= k < |lines| && NeedsLabel(lines[k]) ==> LineOf(lines, Target(lines[k]).value).Some?
  }

  predicate NeedsLabel(line: Line) {
    Target(line).Some? && (line.MoviLabel? || IsInternal(Target(line).value))
  }

  lemma {:induction false} CollectExact(lines: seq<Line>, k: nat)
    requires k <= |lines| && LabelCount(lines, |lines|) <= MAX_LABELS
    ensures Collect(lines, k).Some?
       <==> (forall i, j :: 0 <= i < j < k && lines[i].LabelDef? ==> lines[i] != lines[j]) &&
            forall i :: 0 <= i < k ==> !TooLong(lines[i])
    decreases k
  {
    hide LabelCount, Lookup;
    if k > 0 {
      CollectExact(lines, k - 1);
      if Collect(lines, k - 1).Some? && lines[k - 1].LabelDef? {
        var n := lines[k - 1].name;
        CollectFinds(lines, k - 1, n);
        LineOfFirst(lines, k - 1);
        var j := LineOf(lines, n).value;
        assert j < k - 1 ==> lines[j] == lines[k - 1];
        if j == k - 1 {
          forall i | 0 <= i < k - 1 && lines[i].LabelDef? ensures lines[i] != lines[k - 1] { LineOfFirst(lines, i); }
        }
      }
    }
  }

  lemma {:induction false} ImageExact(lines: seq<Line>, t: Table, k: nat)
    requires k <= |lines|
    ensures Image(lines, t, k).Some?
       <==> (forall i :: 0 <= i < k ==> Emit(lines[i], t).Some?) && AddressOf(lines, k) <= MAX_INSNS
    ensures Image(lines, t, k).Some? ==> |Image(lines, t, k).value| == AddressOf(lines, k)
    decreases k
  {
    hide Emit, Size;
    if k > 0 {
      ImageExact(lines, t, k - 1);
      if Emit(lines[k - 1], t).Some? { EmitSize(lines[k - 1], t); }
    }
  }

  /** A source is accepted exactly when no label is defined twice, every label that must be known is
      defined, and the words fit. */
  lemma AssembledExact(lines: seq<Line>)
    requires LabelCount(lines, |lines|) <= MAX_LABELS
    ensures Assembled(lines).Some?
       <==> DistinctLabels(lines) && Resolved(lines) && AddressOf(lines, |lines|) <= 262_144
  {
    hide Collect, Image, LabelCount, Emit, Size;
    CollectExact(lines, |lines|);
    forall i | 0 <= i < |lines| && AddressOf(lines, |lines|) <= MAX_INSNS ensures !TooLong(lines[i]) {
      AddressMonotone(lines, i + 1, |lines|);
      ZeroSize(lines, i);
    }
    if Collect(lines, |lines|).Some? {
      var t := Collect(lines, |lines|).value;
      ImageExact(lines, t, |lines|);
      forall i | 0 <= i < |lines|
        ensures Emit(lines[i], t).Some? <==> (NeedsLabel(lines[i]) ==> LineOf(lines, Target(lines[i]).value).Some?)
      {
        EmitNeeds(lines, i);
      }
    }
  }

  lemma ZeroSize(lines: seq<Line>, i: nat)
    requires i < |lines|
    ensures lines[i].Zero? ==> AddressOf(lines, i + 1) >= lines[i].count
  {
  }

  lemma EmitNeeds(lines: seq<Line>, i: nat)
    requires Collect(lines, |lines|).Some? && LabelCount(lines, |lines|) <= MAX_LABELS && i < |lines|
    ensures Emit(lines[i], Collect(lines, |lines|).value).Some?
       <==> (NeedsLabel(lines[i]) ==> LineOf(lines, Target(lines[i]).value).Some?)
  {
    hide Collect, LabelCount, Lookup, AddressOf;
    if Target(lines[i]).Some? { CollectFinds(lines, |lines|, Target(lines[i]).value); }
  }

  /** The image is in memory from word 0; the upper halves of the words do not matter. */
  predicate Loaded(mem: Mem, image: seq<nat>) {
    |image| <= MEM_WORDS && forall k :: 0 <= k < |image| ==> mem[k] % 0x1_0000_0000 == image[k]
  }

  lemma TargetIsLookup(lines: seq<Line>, line: Line)
    requires Collect(lines, |lines|).Some? && LabelCount(lines, |lines|) <= MAX_LABELS
    requires CodeSize(lines) < MEM_WORDS && Target(line).Some?
    ensures match Lookup(Collect(lines, |lines|).value, Target(line).value)
            case Some(a) => TargetAddress(lines, line) == Wrap(a)
            case None => TargetAddress(lines, line) == 0
  {
    hide Collect, LabelCount, Lookup, AddressOf, LineOf, Target, Wrap;
    var name := Target(line).value;
    CollectFinds(lines, |lines|, name);
    if LineOf(lines, name).Some? {
      var a := AddressOf(lines, LineOf(lines, name).value);
      AddressMonotone(lines, LineOf(lines, name).value, |lines|);
      ModSmall(a, 0x1_0000);
      WrapWord(a);
    }
  }

  lemma EmitIsExpansion(lines: seq<Line>, k: nat)
    requires Assembled(lines).Some? && LabelCount(lines, |lines|) <= MAX_LABELS
    requires k < |lines| && IsCode(lines[k]) && CodeSize(lines) < MEM_WORDS
    ensures Emit(lines[k], Collect(lines, |lines|).value)
         == Some(Encoded(Expand(lines[k], TargetAddress(lines, lines[k]))))
  {
    hide Expand, Size, Image, Encoded, Collect, LabelCount, AddressOf, Lookup;
    ImageLayout(lines, Collect(lines, |lines|).value, k, |lines|);
    if Target(lines[k]).Some? { TargetIsLookup(lines, lines[k]); }
  }

  /** Loading the output of an error-free assembly puts every line's expansion at its address,
      with every label resolved to the line that defines it. */
  lemma AssembledCodeIn(lines: seq<Line>, mem: Mem)
    requires Assembled(lines).Some? && LabelCount(lines, |lines|) <= MAX_LABELS
    requires CodeSize(lines) < MEM_WORDS && Loaded(mem, Assembled(lines).value)
    ensures CodeIn(mem, lines)
  {
    hide Expand, TargetAddress, Emit, Size, Image, Encode, LabelCount, Collect;
    var t := Collect(lines, |lines|).value;
    var image := Assembled(lines).value;
    forall k | 0 <= k < |lines| && IsCode(lines[k]) ensures LineIn(mem, lines, k) {
      var a := AddressOf(lines, k);
      var s := Expand(lines[k], TargetAddress(lines, lines[k]));
      ImageLayout(lines, t, k, |lines|);
      EmitIsExpansion(lines, k);
      NextAddress(lines, k);
      forall j | 0 <= j < |s| ensures mem[a + j] % 0x1_0000_0000 == Encode(s[j]) {
        assert image[a..a + |s|][j] == Encoded(s)[j];
      }
    }
  }

  /** What data lines put into the image of an error-free source, at the line's address: a number's low
      32 bits, the address of the line that defines a label (0 where none does), and zeros. */
  lemma DataInImage(lines: seq<Line>, k: nat)
    requires Assembled(lines).Some? && LabelCount(lines, |lines|) <= MAX_LABELS && k < |lines|
    ensures var image, a := Assembled(lines).value, AddressOf(lines, k);
            match lines[k]
            case WordData(v) => a < |image| && image[a] == v % 0x1_0000_0000
            case WordLabel(n) =>
              a < |image| && image[a] == (match LineOf(lines, n) case Some(j) => AddressOf(lines, j) case None => 0)
            case Zero(count) => a + count <= |image| && forall i :: a <= i < a + count ==> image[i] == 0
            case _ => true
  {
    hide Collect, LabelCount, Lookup, AddressOf, LineOf, Image, Expand, Encoded;
    var t, image, a := Collect(lines, |lines|).value, Assembled(lines).value, AddressOf(lines, k);
    ImageLayout(lines, t, k, |lines|);
    var words := image[a..a + Size(lines[k])];
    match lines[k]
    case WordData(_) => assert words[0] == image[a];
    case WordLabel(n) =>
      assert words[0] == image[a];
      CollectFinds(lines, |lines|, n);
      if LineOf(lines, n).Some? {
        AddressMonotone(lines, LineOf(lines, n).value, |lines|);
        AssembledSmall(lines);
      }
    case Zero(count) => forall i | a <= i < a + count ensures image[i] == 0 { assert words[i - a] == image[i]; }
    case _ =>
  }

  lemma AssembledSmall(lines: seq<Line>)
    requires Assembled(lines).Some?
    ensures AddressOf(lines, |lines|) <= MAX_INSNS
  {
    hide Emit, Collect, AddressOf;
    ImageExact(lines, Collect(lines, |lines|).value, |lines|);
  }
}
