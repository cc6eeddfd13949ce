/** The kernel's first-fit allocator: a table of blocks in address order, split on allocation and
    merged on release.  A block that is larger than the request but not more than twice as large is
    cut down to the request; the words cut off belong to no block from then on. */
module Heap {
  import opened Machine

  const HEAP_START: nat := 0x1000
  const HEAP_SIZE: nat := 12 * 1024
  const MAX_BLOCKS: nat := 64

  datatype Block = Block(ptr: nat, size: nat, used: bool)

  type Table = seq<Block>

  // ----- the operations on the table -----

  predicate Fits(b: Block, size: nat) { !b.used && b.size >= size }

  /** The first free block large enough, from `i` on. */
  function FirstFit(t: Table, size: nat, i: nat): (k: nat)
    requires i <= |t|
    ensures i <= k <= |t| && (k < |t| ==> Fits(t[k], size)) && forall j :: i <= j < k ==> !Fits(t[j], size)
    decreases |t| - i
  {
    if i == |t| || Fits(t[i], size) then i else FirstFit(t, size, i + 1)
  }

  predicate Splits(b: Block, size: nat) { b.size > size * 2 }

  function Carve(t: Table, i: nat, size: nat): Table
    requires i < |t| && t[i].size >= size
  {
    var b := t[i];
    if Splits(b, size)
    then t[..i] + [Block(b.ptr, size, true), Block(b.ptr + size, b.size - size, false)] + t[i + 1..]
    else t[i := Block(b.ptr, size, true)]
  }

  /** The table after an allocation, and the address handed out. */
  function Malloc(t: Table, size: nat): (Table, Option<nat>) {
    if size == 0 || |t| >= MAX_BLOCKS then (t, None)
    else
      var i := FirstFit(t, size, 0);
      if i == |t| then (t, None) else (Carve(t, i, size), Some(t[i].ptr))
  }

  function Owner(t: Table, ptr: nat, i: nat): (k: nat)
    requires i <= |t|
    ensures i <= k <= |t| && (k < |t| ==> t[k].ptr == ptr && t[k].used)
    ensures forall j :: i <= j < k ==> !(t[j].ptr == ptr && t[j].used)
    decreases |t| - i
  {
    if i == |t| || (t[i].ptr == ptr && t[i].used) then i else Owner(t, ptr, i + 1)
  }

  /** Blocks `i` and `i + 1` become one. */
  function Merge(t: Table, i: nat): Table
    requires i + 1 < |t|
  {
    t[..i] + [t[i].(size := t[i].size + t[i + 1].size)] + t[i + 2..]
  }

  /** A free block takes in the next one if that is free. */
  function Absorb(t: Table, k: nat): Table
    requires k < |t|
  {
    if k + 1 < |t| && !t[k + 1].used then Merge(t, k) else t
  }

  function Release(t: Table, i: nat): Table
    requires i < |t|
  {
    var t1 := t[i := t[i].(used := false)];
    if i > 0 && !t1[i - 1].used then Absorb(Merge(t1, i - 1), i - 1) else Absorb(t1, i)
  }

  /** Address 0 is no block, and an address that is not handed out is ignored. */
  function Free(t: Table, ptr: nat): Table {
    if ptr == 0 then t
    else
      var i := Owner(t, ptr, 0);
      if i == |t| then t else Release(t, i)
  }

  // ----- what every run keeps -----

  function Total(t: Table): nat { if t == [] then 0 else t[0].size + Total(t[1..]) }

  /** Block `i` starts no earlier than the one before it ends. */
  predicate After(t: Table, i: nat)
    requires 0 < i < |t|
  {
    t[i - 1].ptr + t[i - 1].size <= t[i].ptr
  }

  predicate NotBothFree(t: Table, i: nat)
    requires 0 < i < |t|
  {
    t[i - 1].used || t[i].used
  }

  /** In address order, inside the heap, none empty. */
  predicate Ordered(t: Table) {
    1 <= |t| <= MAX_BLOCKS && t[0].ptr == HEAP_START &&
    (forall i :: 0 <= i < |t| ==> t[i].size > 0) &&
    (forall i :: 0 < i < |t| ==> After(t, i)) &&
    t[|t| - 1].ptr + t[|t| - 1].size <= HEAP_START + HEAP_SIZE
  }

  /** No two free neighbours except possibly the pairs ending at `k` and `l`. */
  predicate ApartBut(t: Table, k: nat, l: nat) {
    forall i :: 0 < i < |t| && i != k && i != l ==> NotBothFree(t, i)
  }

  predicate Valid(t: Table) { Ordered(t) && ApartBut(t, 0, 0) }

  lemma InitValid()
    ensures Valid([Block(HEAP_START, HEAP_SIZE, false)]) && Total([Block(HEAP_START, HEAP_SIZE, false)]) == HEAP_SIZE
  {
    assert [Block(HEAP_START, HEAP_SIZE, false)][1..] == [];
  }

  lemma {:induction false} TotalAppend(a: Table, b: Table)
    ensures Total(a + b) == Total(a) + Total(b)
    decreases |a|
  {
    if a == [] {
      assert a + b == b;
    } else {
      assert (a + b)[1..] == a[1..] + b;
      TotalAppend(a[1..], b);
    }
  }

  lemma TotalCons(b: Block, d: Table)
    ensures Total([b] + d) == b.size + Total(d)
  {
    assert ([b] + d)[1..] == d;
  }

  lemma TotalAround(t: Table, i: nat)
    requires i < |t|
    ensures Total(t) == Total(t[..i]) + t[i].size + Total(t[i + 1..])
  {
    hide Total;
    TotalCons(t[i], t[i + 1..]);
    TotalAppend(t[..i], [t[i]] + t[i + 1..]);
    assert t == t[..i] + ([t[i]] + t[i + 1..]);
  }

  lemma TotalPair(a: Table, b: Block, c: Block, d: Table)
    ensures Total(a + [b, c] + d) == Total(a) + b.size + c.size + Total(d)
  {
    TotalAppend(a + [b, c], d);
    TotalAppend(a, [b, c]);
    assert [c][1..] == [] && Total([c]) == c.size;
    assert [b, c][1..] == [c] && Total([b, c]) == b.size + Total([c]);
  }

  /** Allocation keeps the table valid; what it loses are the words cut off an unsplit block. */
  lemma MallocValid(t: Table, size: nat)
    requires Valid(t)
    ensures Valid(Malloc(t, size).0) && Total(Malloc(t, size).0) + Dropped(t, size) == Total(t)
  {
    if size > 0 && |t| < MAX_BLOCKS {
      var i := FirstFit(t, size, 0);
      if i < |t| { CarveValid(t, i, size); }
    }
  }

  /** The remainder that is not worth a block. */
  function Dropped(t: Table, size: nat): nat {
    if size == 0 || |t| >= MAX_BLOCKS then 0
    else
      var i := FirstFit(t, size, 0);
      if i == |t| || Splits(t[i], size) then 0 else t[i].size - size
  }

  /** The table after splitting block `i`, entry by entry. */
  lemma SplitAt(t: Table, i: nat, size: nat)
    requires i < |t| && t[i].size >= size && Splits(t[i], size)
    ensures var r, b := Carve(t, i, size), t[i];
            |r| == |t| + 1 && r[i] == Block(b.ptr, size, true) &&
            r[i + 1] == Block(b.ptr + size, b.size - size, false) &&
            (forall k :: 0 <= k < i ==> r[k] == t[k]) && forall k :: i + 1 < k < |r| ==> r[k] == t[k - 1]
  {
    hide Splits;
    var r := Carve(t, i, size);
    assert |t[..i]| == i;
    forall k | i + 1 < k < |r| ensures r[k] == t[k - 1] {
      assert r[k] == t[i + 1..][k - i - 2];
    }
  }

  lemma SplitTotal(a: Table, b: Block, d: Table, size: nat)
    requires b.size >= size
    ensures Total(a + [Block(b.ptr, size, true), Block(b.ptr + size, b.size - size, false)] + d)
         == Total(a) + b.size + Total(d)
  {
    TotalPair(a, Block(b.ptr, size, true), Block(b.ptr + size, b.size - size, false), d);
  }

  lemma CarveTotal(t: Table, i: nat, size: nat)
    requires i < |t| && t[i].size >= size
    ensures Total(Carve(t, i, size)) + (if Splits(t[i], size) then 0 else t[i].size - size) == Total(t)
  {
    hide Total, Splits;
    TotalAround(t, i);
    if Splits(t[i], size) {
      SplitTotal(t[..i], t[i], t[i + 1..], size);
    } else {
      var r := t[i := Block(t[i].ptr, size, true)];
      TotalAround(r, i);
      assert r[..i] == t[..i] && r[i + 1..] == t[i + 1..];
    }
  }

  lemma CarveValid(t: Table, i: nat, size: nat)
    requires Valid(t) && i < |t| < MAX_BLOCKS && Fits(t[i], size) && size > 0
    ensures Valid(Carve(t, i, size))
    ensures Total(Carve(t, i, size)) + (if Splits(t[i], size) then 0 else t[i].size - size) == Total(t)
  {
    CarveTotal(t, i, size);
    if Splits(t[i], size) { SplitValid(t, i, size); } else { CutValid(t, i, size); }
  }

  lemma SplitValid(t: Table, i: nat, size: nat)
    requires Valid(t) && i < |t| < MAX_BLOCKS && Fits(t[i], size) && size > 0 && Splits(t[i], size)
    ensures Valid(Carve(t, i, size))
  {
    SplitAt(t, i, size);
    hide Carve;
    var r := Carve(t, i, size);
    forall k | 0 < k < |r| ensures After(r, k) && NotBothFree(r, k) {
      if k <= i { assert After(t, k) && NotBothFree(t, k); }
      if k > i + 1 { assert After(t, k - 1) && NotBothFree(t, k - 1); }
    }
  }

  lemma CutValid(t: Table, i: nat, size: nat)
    requires Valid(t) && i < |t| && Fits(t[i], size) && size > 0
    ensures Valid(t[i := Block(t[i].ptr, size, true)])
  {
    var r := t[i := Block(t[i].ptr, size, true)];
    forall k | 0 < k < |r| ensures After(r, k) && NotBothFree(r, k) {
      assert After(t, k) && NotBothFree(t, k);
    }
  }

  /** Release keeps the table valid and loses nothing. */
  lemma FreeValid(t: Table, ptr: nat)
    requires Valid(t)
    ensures Valid(Free(t, ptr)) && Total(Free(t, ptr)) == Total(t)
  {
    if ptr != 0 {
      var i := Owner(t, ptr, 0);
      if i < |t| { ReleaseValid(t, i); }
    }
  }

  lemma MergeAt(t: Table, i: nat)
    requires i + 1 < |t|
    ensures var r := Merge(t, i);
            |r| == |t| - 1 && r[i] == t[i].(size := t[i].size + t[i + 1].size) &&
            (forall k :: 0 <= k < i ==> r[k] == t[k]) && forall k :: i < k < |r| ==> r[k] == t[k + 1]
  {
  }

  lemma MergeTotal(t: Table, i: nat)
    requires i + 1 < |t|
    ensures Total(Merge(t, i)) == Total(t)
  {
    var r := Merge(t, i);
    TotalAround(t, i);
    TotalAround(t[i + 1..], 0);
    assert t[i + 1..][1..] == t[i + 2..] && t[i + 1..][..0] == [];
    TotalAround(r, i);
    assert r[..i] == t[..i] && r[i + 1..] == t[i + 2..];
  }

  /** Merging keeps the order, and the pair that is merged away is the only one that may be free. */
  lemma MergeOrdered(t: Table, i: nat, l: nat)
    requires Ordered(t) && i + 1 < |t| && ApartBut(t, i + 1, l) && (l == i + 1 || l == i + 2)
    requires !t[i].used && !t[i + 1].used
    ensures Ordered(Merge(t, i)) && Total(Merge(t, i)) == Total(t) && |Merge(t, i)| == |t| - 1
    ensures var open := if l == i + 2 then i + 1 else 0; ApartBut(Merge(t, i), open, open) && !Merge(t, i)[i].used
  {
    MergeTotal(t, i);
    MergeAt(t, i);
    hide Merge, Total;
    var r := Merge(t, i);
    forall k | 0 < k < |r|
      ensures After(r, k) && ((k == i + 1 && l == i + 2) || NotBothFree(r, k))
    {
      if k <= i {
        assert After(t, k) && NotBothFree(t, k);
      } else {
        assert After(t, i + 1) && After(t, k + 1) && (k + 1 != l ==> NotBothFree(t, k + 1));
      }
    }
    assert After(t, i + 1);
  }

  lemma ReleaseValid(t: Table, i: nat)
    requires Valid(t) && i < |t| && t[i].used
    ensures Valid(Release(t, i)) && Total(Release(t, i)) == Total(t)
  {
    var t1 := t[i := t[i].(used := false)];
    FreedOrdered(t, i);
    hide Merge, Total, Ordered, ApartBut, Absorb, Valid;
    if i > 0 && !t1[i - 1].used {
      MergeOrdered(t1, i - 1, i + 1);
      MergeNext(Merge(t1, i - 1), i - 1);
    } else {
      Narrow(t1, i);
      MergeNext(t1, i);
    }
  }

  lemma Narrow(t: Table, i: nat)
    requires i < |t| && ApartBut(t, i, i + 1) && (i == 0 || t[i - 1].used)
    ensures ApartBut(t, i + 1, i + 1)
  {
    forall m | 0 < m < |t| && m != i + 1 ensures NotBothFree(t, m) {
      if m != i { hide NotBothFree; }
    }
  }

  /** The second merge, with the block after the freed one. */
  lemma MergeNext(t: Table, k: nat)
    requires Ordered(t) && k < |t| && ApartBut(t, k + 1, k + 1) && !t[k].used
    ensures Valid(Absorb(t, k)) && Total(Absorb(t, k)) == Total(t)
  {
    hide Merge, Total, Ordered;
    if k + 1 < |t| && !t[k + 1].used {
      MergeOrdered(t, k, k + 1);
    } else {
      forall m | 0 < m < |t| ensures NotBothFree(t, m) {
        if m != k + 1 { hide NotBothFree; }
      }
    }
  }

  /** The table with one block marked free. */
  lemma FreedOrdered(t: Table, i: nat)
    requires Valid(t) && i < |t|
    ensures var t1 := t[i := t[i].(used := false)];
            Ordered(t1) && ApartBut(t1, i, i + 1) && Total(t1) == Total(t)
  {
    var t1 := t[i := t[i].(used := false)];
    TotalAround(t, i);
    TotalAround(t1, i);
    assert t1[..i] == t[..i] && t1[i + 1..] == t[i + 1..];
    hide Total;
    forall k | 0 < k < |t1| ensures After(t1, k) && (k != i && k != i + 1 ==> NotBothFree(t1, k)) {
      assert After(t, k) && NotBothFree(t, k);
    }
  }

  /** Two blocks in use share no word. */
  lemma {:induction false} Disjoint(t: Table, i: nat, j: nat)
    requires Ordered(t) && i < j < |t|
    ensures t[i].ptr + t[i].size <= t[j].ptr
    decreases j
  {
    assert After(t, j);
    if i + 1 < j { Disjoint(t, i, j - 1); }
  }

  /** Freeing what a splitting allocation has just handed out restores the table exactly. */
  lemma FreeUndoesSplit(t: Table, size: nat)
    requires Valid(t) && Malloc(t, size).1.Some? && Splits(t[FirstFit(t, size, 0)], size)
    ensures Free(Malloc(t, size).0, Malloc(t, size).1.value) == t
  {
    var i := FirstFit(t, size, 0);
    var r := Carve(t, i, size);
    CarveValid(t, i, size);
    SplitAt(t, i, size);
    FirstAddress(t, i);
    hide Carve, Total, Splits;
    OwnerIs(r, i);
    if i > 0 { assert NotBothFree(t, i); }
    hide Ordered, ApartBut;
    Restored(t, r, i, size);
  }

  lemma FirstAddress(t: Table, i: nat)
    requires Ordered(t) && i < |t|
    ensures t[i].ptr >= HEAP_START
  {
    if i > 0 { Disjoint(t, 0, i); }
  }

  /** Marking the carved block free and merging it with its remainder. */
  lemma Restored(t: Table, r: Table, i: nat, size: nat)
    requires i < |t| && !t[i].used && t[i].size >= size && |r| == |t| + 1
    requires r[i] == Block(t[i].ptr, size, true) && r[i + 1] == Block(t[i].ptr + size, t[i].size - size, false)
    requires (forall k :: 0 <= k < i ==> r[k] == t[k]) && forall k :: i + 1 < k < |r| ==> r[k] == t[k - 1]
    requires i == 0 || t[i - 1].used
    ensures Release(r, i) == t
  {
    var t1 := r[i := r[i].(used := false)];
    MergeAt(t1, i);
    hide Merge;
    var m := Merge(t1, i);
    assert m[i] == t[i];
    forall k | 0 <= k < |t| ensures m[k] == t[k] {
      if k > i { assert m[k] == t1[k + 1] == r[k + 1]; }
    }
    assert m == t;
  }

  lemma OwnerIs(t: Table, i: nat)
    requires Ordered(t) && i < |t| && t[i].used
    ensures Owner(t, t[i].ptr, 0) == i
  {
    var k := Owner(t, t[i].ptr, 0);
    if k < i { Disjoint(t, k, i); }
  }

  // ----- whole runs -----

  datatype Request = Alloc(size: nat) | Dealloc(ptr: nat)

  function Serve(t: Table, q: Request): (Table, nat) {
    match q
    case Alloc(size) => (Malloc(t, size).0, Dropped(t, size))
    case Dealloc(ptr) => (Free(t, ptr), 0)
  }

  /** The table after a run, and all the words dropped on the way. */
  function ServeAll(t: Table, qs: seq<Request>): (Table, nat)
    decreases |qs|
  {
    if qs == [] then (t, 0)
    else
      var first := Serve(t, qs[0]);
      var rest := ServeAll(first.0, qs[1..]);
      (rest.0, first.1 + rest.1)
  }

  /** Every run keeps the table valid, and block sizes and dropped words add up to what there was. */
  lemma {:induction false} RunValid(t: Table, qs: seq<Request>)
    requires Valid(t)
    ensures Valid(ServeAll(t, qs).0) && Total(ServeAll(t, qs).0) + ServeAll(t, qs).1 == Total(t)
    decreases |qs|
  {
    hide Valid, Malloc, Free, Total, Dropped;
    if qs != [] {
      match qs[0] {
        case Alloc(size) => MallocValid(t, size);
        case Dealloc(ptr) => FreeValid(t, ptr);
      }
      RunValid(Serve(t, qs[0]).0, qs[1..]);
    }
  }

  // ----- what is handed out -----

  function Live(t: Table): set<Block> { set i | 0 <= i < |t| && t[i].used :: t[i] }

  /** An allocation succeeds exactly when the table has room for an entry and some free block is large enough.  It
      hands out the start of the lowest one: a block of the size asked for that overlaps no other in use. */
  lemma MallocHands(t: Table, size: nat)
    requires Valid(t)
    ensures Malloc(t, size).1.Some? <==> size > 0 && |t| < 64 && exists i :: 0 <= i < |t| && Fits(t[i], size)
    ensures Malloc(t, size).1.None? ==> Malloc(t, size).0 == t
    ensures Malloc(t, size).1.Some? ==>
              var b := Block(Malloc(t, size).1.value, size, true);
              b !in Live(t) && Live(Malloc(t, size).0) == Live(t) + {b} &&
              (forall i :: 0 <= i < |t| && Fits(t[i], size) ==> b.ptr <= t[i].ptr) &&
              forall c :: c in Live(t) ==> b.ptr + b.size <= c.ptr || c.ptr + c.size <= b.ptr
  {
    if size > 0 && |t| < 64 {
      var i := FirstFit(t, size, 0);
      if i < |t| {
        CarveLive(t, i, size);
        forall j | 0 <= j < |t| && j != i
          ensures if j < i then t[j].ptr + t[j].size <= t[i].ptr else t[i].ptr + t[i].size <= t[j].ptr
        {
          if j < i { Disjoint(t, j, i); } else { Disjoint(t, i, j); }
        }
      }
    }
  }

  lemma CarveLive(t: Table, i: nat, size: nat)
    requires i < |t| && t[i].size >= size && !t[i].used
    ensures Live(Carve(t, i, size)) == Live(t) + {Block(t[i].ptr, size, true)}
  {
    var r, b := Carve(t, i, size), Block(t[i].ptr, size, true);
    if Splits(t[i], size) { SplitAt(t, i, size); }
    hide Carve, Splits;
    var off := if |r| == |t| then 0 else 1;
    forall c | c in Live(t) ensures c in Live(r) {
      var j :| 0 <= j < |t| && t[j].used && t[j] == c;
      assert r[if j < i then j else j + off] == c;
    }
    forall c | c in Live(r) ensures c in Live(t) + {b} {
      var j :| 0 <= j < |r| && r[j].used && r[j] == c;
      if j < i { assert t[j] == c; } else if j > i { assert t[j - off] == c; }
    }
    assert r[i] == b;
  }

  /** A release takes the block at the address out of use and no other; an address at which none is in use is
      ignored. */
  lemma FreeTakes(t: Table, ptr: nat)
    requires Valid(t)
    ensures Live(Free(t, ptr)) == set b | b in Live(t) && b.ptr != ptr
    ensures (forall b :: b in Live(t) ==> b.ptr != ptr) ==> Free(t, ptr) == t
  {
    forall i | 0 <= i < |t| ensures t[i].ptr >= HEAP_START { FirstAddress(t, i); }
    if ptr != 0 {
      var i := Owner(t, ptr, 0);
      if i < |t| {
        assert t[i] in Live(t);
        forall j | 0 <= j < |t| && j != i ensures t[j].ptr != ptr && t[j] != t[i] {
          if j < i { Disjoint(t, j, i); } else { Disjoint(t, i, j); }
        }
        ReleaseLive(t, i);
      }
    }
  }

  lemma MergeLive(t: Table, i: nat)
    requires i + 1 < |t| && !t[i].used && !t[i + 1].used
    ensures Live(Merge(t, i)) == Live(t)
  {
    MergeAt(t, i);
    hide Merge;
    var r := Merge(t, i);
    forall c | c in Live(t) ensures c in Live(r) {
      var j :| 0 <= j < |t| && t[j].used && t[j] == c;
      assert r[if j < i then j else j - 1] == c;
    }
    forall c | c in Live(r) ensures c in Live(t) {
      var j :| 0 <= j < |r| && r[j].used && r[j] == c;
      assert t[if j < i then j else j + 1] == c;
    }
  }

  lemma ReleaseLive(t: Table, i: nat)
    requires i < |t| && t[i].used
    requires forall j :: 0 <= j < |t| && j != i ==> t[j] != t[i]
    ensures Live(Release(t, i)) == Live(t) - {t[i]}
  {
    var t1 := t[i := t[i].(used := false)];
    forall c | c in Live(t) && c != t[i] ensures c in Live(t1) {
      var j :| 0 <= j < |t| && t[j].used && t[j] == c;
      assert t1[j] == c;
    }
    forall c | c in Live(t1) ensures c in Live(t) - {t[i]} {
      var j :| 0 <= j < |t1| && t1[j].used && t1[j] == c;
      assert t[j] == c;
    }
    hide Live, Merge;
    if i > 0 && !t1[i - 1].used {
      MergeAt(t1, i - 1);
      MergeLive(t1, i - 1);
      AbsorbLive(Merge(t1, i - 1), i - 1);
    } else {
      AbsorbLive(t1, i);
    }
  }

  lemma AbsorbLive(t: Table, k: nat)
    requires k < |t| && !t[k].used
    ensures Live(Absorb(t, k)) == Live(t)
  {
    hide Live, Merge;
    if k + 1 < |t| && !t[k + 1].used { MergeLive(t, k); }
  }

  /** What the callers hold: every block handed out and not given back. */
  function Held(t: Table, qs: seq<Request>, held: set<Block>): set<Block>
    decreases |qs|
  {
    if qs == [] then held
    else
      var now :=
        match qs[0]
        case Alloc(size) =>
          (match Malloc(t, size).1 case None => held case Some(p) => held + {Block(p, size, true)})
        case Dealloc(ptr) => set b | b in held && b.ptr != ptr;
      Held(Serve(t, qs[0]).0, qs[1..], now)
  }

  /** Over every run the blocks in use are those the callers hold. */
  lemma {:induction false} RunHeld(t: Table, qs: seq<Request>)
    requires Valid(t)
    ensures Live(ServeAll(t, qs).0) == Held(t, qs, Live(t))
    decreases |qs|
  {
    hide Valid, Malloc, Free, Total, Dropped, Live;
    if qs != [] {
      match qs[0] {
        case Alloc(size) =>
          MallocValid(t, size);
          MallocHands(t, size);
        case Dealloc(ptr) =>
          FreeValid(t, ptr);
          FreeTakes(t, ptr);
      }
      RunHeld(Serve(t, qs[0]).0, qs[1..]);
    }
  }

  // ----- the loops on the array -----

  function Inserted(t: Table, at: nat, b: Block): Table
    requires at <= |t|
  {
    t[..at] + [b] + t[at..]
  }

  function Removed(t: Table, at: nat): Table
    requires at < |t|
  {
    t[..at] + t[at + 1..]
  }

  /** Inserting the remainder and shrinking the block is carving. */
  lemma CarveIs(t: Table, i: nat, size: nat)
    requires i < |t| && t[i].size >= size && Splits(t[i], size)
    ensures var b := t[i];
            var u := Inserted(t, i + 1, Block(b.ptr + size, b.size - size, false));
            |u| == |t| + 1 && u[i := Block(b.ptr, size, true)] == Carve(t, i, size)
  {
  }

  lemma CutIs(t: Table, i: nat, size: nat)
    requires i < |t| && t[i].size >= size && !Splits(t[i], size)
    ensures Carve(t, i, size) == t[i := Block(t[i].ptr, size, true)]
  {
  }

  lemma FitStep(t: Table, size: nat, i: nat)
    requires i < |t|
    ensures FirstFit(t, size, i) == if Fits(t[i], size) then i else FirstFit(t, size, i + 1)
  {
  }

  /** Growing a block and removing the next one is merging. */
  lemma MergeIs(t: Table, i: nat)
    requires i + 1 < |t|
    ensures Removed(t[i := t[i].(size := t[i].size + t[i + 1].size)], i + 1) == Merge(t, i)
  {
  }

  class Allocator {
    var blocks: array<Block>
    var count: nat

    ghost predicate Good()
      reads this, blocks
    {
      blocks.Length == MAX_BLOCKS && count <= MAX_BLOCKS && Valid(blocks[..count])
    }

    constructor ()
      ensures Good() && fresh(blocks) && blocks[..count] == [Block(HEAP_START, HEAP_SIZE, false)]
    {
      blocks := new Block[MAX_BLOCKS](i => Block(HEAP_START, HEAP_SIZE, false));
      count := 1;
      new;
      InitValid();
      assert blocks[..1] == [Block(HEAP_START, HEAP_SIZE, false)];
    }

    method Kmalloc(size: nat) returns (p: Option<nat>)
      requires Good()
      modifies this`count, blocks
      ensures Good() && blocks == old(blocks)
      ensures (blocks[..count], p) == Malloc(old(blocks[..count]), size)
    {
      ghost var t := blocks[..count];
      MallocValid(t, size);
      hide Valid, Inserted, Carve, FirstFit;
      if size == 0 || count >= MAX_BLOCKS { return None; }
      var i := 0;
      while i < count
        invariant count == old(count) <= blocks.Length && blocks[..count] == t
        invariant 0 <= i <= count && FirstFit(t, size, 0) == FirstFit(t, size, i)
      {
        assert t[i] == blocks[i];
        FitStep(t, size, i);
        if !blocks[i].used && blocks[i].size >= size {
          var ptr := blocks[i].ptr;
          CarveBlock(i, size);
          return Some(ptr);
        }
        i := i + 1;
      }
      return None;
    }

    method CarveBlock(i: nat, size: nat)
      requires blocks.Length == MAX_BLOCKS && i < count < MAX_BLOCKS && blocks[i].size >= size
      modifies this`count, blocks
      ensures count <= MAX_BLOCKS && blocks[..count] == Carve(old(blocks[..count]), i, size)
    {
      hide Carve, Inserted;
      ghost var t := blocks[..count];
      var b := blocks[i];
      if b.size > size * 2 {
        CarveIs(t, i, size);
        Insert(i + 1, Block(b.ptr + size, b.size - size, false));
      } else {
        CutIs(t, i, size);
      }
      Set(i, Block(b.ptr, size, true));
    }

    method Set(i: nat, b: Block)
      requires count <= blocks.Length && i < count
      modifies blocks
      ensures blocks[..count] == old(blocks[..count])[i := b]
    {
      blocks[i] := b;
    }

    /** Shift the tail up by one and put a block in the gap. */
    method Insert(at: nat, b: Block)
      requires blocks.Length == MAX_BLOCKS && at <= count < MAX_BLOCKS
      modifies this`count, blocks
      ensures count == old(count) + 1 && blocks[..count] == Inserted(old(blocks[..count]), at, b)
    {
      var j := count;
      while j > at
        invariant at <= j <= count == old(count) < MAX_BLOCKS
        invariant forall k :: 0 <= k < j ==> blocks[k] == old(blocks[k])
        invariant forall k :: j < k <= count ==> blocks[k] == old(blocks[k - 1])
      {
        blocks[j] := blocks[j - 1];
        j := j - 1;
      }
      blocks[at] := b;
      count := count + 1;
    }

    /** Shift the tail down by one over block `at`. */
    method Remove(at: nat)
      requires blocks.Length == MAX_BLOCKS && at < count <= MAX_BLOCKS
      modifies this`count, blocks
      ensures count == old(count) - 1 && blocks[..count] == Removed(old(blocks[..count]), at)
    {
      var j := at;
      while j < count - 1
        invariant at <= j <= count - 1 && count == old(count) && blocks == old(blocks)
        invariant forall k :: 0 <= k < at ==> blocks[k] == old(blocks[k])
        invariant forall k :: at <= k < j ==> blocks[k] == old(blocks[k + 1])
        invariant forall k :: j <= k < count ==> blocks[k] == old(blocks[k])
      {
        blocks[j] := blocks[j + 1];
        j := j + 1;
      }
      count := count - 1;
    }

    method Kfree(ptr: nat)
      requires Good()
      modifies this`count, blocks
      ensures Good() && blocks == old(blocks) && blocks[..count] == Free(old(blocks[..count]), ptr)
    {
      ghost var t := blocks[..count];
      FreeValid(t, ptr);
      if ptr == 0 { return; }
      var i := 0;
      while i < count
        invariant 0 <= i <= count && Owner(t, ptr, 0) == Owner(t, ptr, i)
        invariant blocks[..count] == t && count == old(count)
      {
        assert t[i] == blocks[i];
        if blocks[i].ptr == ptr && blocks[i].used {
          Coalesce(i);
          assert blocks[..count] == Free(t, ptr);
          return;
        }
        i := i + 1;
      }
    }

    method Coalesce(i0: nat)
      requires blocks.Length == MAX_BLOCKS && i0 < count <= MAX_BLOCKS
      modifies this`count, blocks
      ensures count <= MAX_BLOCKS && blocks[..count] == Release(old(blocks[..count]), i0)
    {
      hide Merge, Removed;
      var i := i0;
      Set(i, blocks[i].(used := false));
      ghost var t1 := blocks[..count];
      if i > 0 && !blocks[i - 1].used {
        assert t1[i - 1] == blocks[i - 1] && t1[i] == blocks[i];
        MergeIs(t1, i - 1);
        Set(i - 1, blocks[i - 1].(size := blocks[i - 1].size + blocks[i].size));
        Remove(i);
        i := i - 1;
      }
      ghost var t2 := blocks[..count];
      assert i + 1 < count ==> t2[i + 1] == blocks[i + 1];
      if i + 1 < count && !blocks[i + 1].used {
        assert t2[i] == blocks[i] && t2[i + 1] == blocks[i + 1];
        MergeIs(t2, i);
        Set(i, blocks[i].(size := blocks[i].size + blocks[i + 1].size));
        Remove(i + 1);
      }
    }
  }
}
