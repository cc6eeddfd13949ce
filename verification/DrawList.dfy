/** Assembling the triangle list of one draw call: strips and lists, primitive restart, and the
    promise that the list never outgrows the buffer allocated for it. */
module DrawList {
  import opened Machine

  const RESTART: nat := 0xFFFF_FFFF

  /** `build` is the vertex and geometry stage: the triangle for three indices and a running number,
      or nothing when the geometry stage drops it. */
  datatype Draw<!T> = Draw(strip: bool, restart: bool, indices: seq<nat>, build: (nat, nat, nat, nat) -> Option<T>)

  function Capacity<T>(d: Draw<T>): nat {
    if d.strip then (if |d.indices| > 2 then |d.indices| - 2 else 0) else (|d.indices| + 2) / 3
  }

  predicate Restarts<T>(d: Draw<T>, i: nat)
    requires i + 2 < |d.indices|
  {
    d.restart && (d.indices[i] == RESTART || d.indices[i + 1] == RESTART || d.indices[i + 2] == RESTART)
  }

  function Stride<T>(d: Draw<T>): nat { if d.strip then 1 else 3 }

  /** Every second triangle of a strip has its last two corners exchanged. */
  function Assemble<T>(d: Draw<T>, i: nat, number: nat): Option<T>
    requires i + 2 < |d.indices|
  {
    if d.strip && number % 2 == 1 then d.build(d.indices[i], d.indices[i + 2], d.indices[i + 1], number)
    else d.build(d.indices[i], d.indices[i + 1], d.indices[i + 2], number)
  }

  /** The triangles from index `i` on; a restart starts a strip's numbering again. */
  function Collect<T>(d: Draw<T>, i: nat, number: nat): seq<T>
    decreases |d.indices| - i
  {
    if i + 2 >= |d.indices| then []
    else if Restarts(d, i) then Collect(d, i + Stride(d), if d.strip then 0 else number)
    else
      (match Assemble(d, i, number) case None => [] case Some(t) => [t]) + Collect(d, i + Stride(d), number + 1)
  }

  // ----- the triangles a draw call stands for -----

  /** A strip has a window at every index with two more behind it, a list one at every third. */
  function Windows<T>(d: Draw<T>): nat {
    if d.strip then (if |d.indices| >= 2 then |d.indices| - 2 else 0) else |d.indices| / 3
  }

  function First<T>(d: Draw<T>, w: nat): nat { if d.strip then w else 3 * w }

  predicate Cut<T>(d: Draw<T>, w: nat)
    requires w < Windows(d)
  {
    d.restart && exists j :: First(d, w) <= j < First(d, w) + 3 && d.indices[j] == 0xFFFF_FFFF
  }

  /** In a strip the windows since the last one with a restart in it, in a list the windows without one so far. */
  function Number<T>(d: Draw<T>, w: nat): (k: nat)
    requires w <= Windows(d)
    ensures k <= w
  {
    if w == 0 then 0
    else if Cut(d, w - 1) then (if d.strip then 0 else Number(d, w - 1))
    else Number(d, w - 1) + 1
  }

  /** What window `w` gives: nothing when it holds a restart or the geometry stage drops the triangle; in a
      strip every second one since the restart is turned round. */
  function Given<T>(d: Draw<T>, w: nat): seq<T>
    requires w < Windows(d)
  {
    var i, k := First(d, w), Number(d, w);
    if Cut(d, w) then []
    else
      match (if d.strip && k % 2 == 1 then d.build(d.indices[i], d.indices[i + 2], d.indices[i + 1], k)
             else d.build(d.indices[i], d.indices[i + 1], d.indices[i + 2], k))
      case None => []
      case Some(t) => [t]
  }

  /** The triangles of the first `w` windows, in order. */
  function Shown<T>(d: Draw<T>, w: nat): seq<T>
    requires w <= Windows(d)
  {
    if w == 0 then [] else Shown(d, w - 1) + Given(d, w - 1)
  }

  /** The number of a strip's window counts back to the last restart, or to the start. */
  lemma {:induction false} StripNumber<T>(d: Draw<T>, w: nat, k: nat)
    requires d.strip && w <= Windows(d)
    ensures k == Number(d, w)
       <==> k <= w && (forall v :: w - k <= v < w ==> !Cut(d, v)) && (k == w || Cut(d, w - k - 1))
  {
    if w > 0 && !Cut(d, w - 1) && k > 0 { StripNumber(d, w - 1, k - 1); }
  }

  lemma StepShown<T>(d: Draw<T>, w: nat)
    requires w < Windows(d)
    ensures First(d, w) + 2 < |d.indices| && First(d, w + 1) == First(d, w) + Stride(d)
    ensures var i, k := First(d, w), Number(d, w);
            Given(d, w) == if Restarts(d, i) then []
                           else match Assemble(d, i, k) case None => [] case Some(t) => [t]
    ensures Number(d, w + 1)
         == if Restarts(d, First(d, w)) then (if d.strip then 0 else Number(d, w)) else Number(d, w) + 1
  {
    var i := First(d, w);
    if Restarts(d, i) {
      if d.indices[i] == RESTART {
      } else if d.indices[i + 1] == RESTART {
      } else {
        assert d.indices[i + 2] == RESTART;
      }
      assert Cut(d, w);
    }
  }

  /** What the loop collects is what the windows give. */
  lemma {:induction false} CollectShown<T>(d: Draw<T>, w: nat)
    requires w <= Windows(d)
    ensures Shown(d, w) + Collect(d, First(d, w), Number(d, w)) == Shown(d, Windows(d))
    decreases Windows(d) - w
  {
    hide Given, Assemble, Cut, Restarts, Number;
    if w < Windows(d) {
      StepShown(d, w);
      CollectShown(d, w + 1);
    }
  }

  lemma AllShown<T>(d: Draw<T>)
    ensures Collect(d, 0, 0) == Shown(d, Windows(d))
  {
    hide Collect, Given;
    CollectShown(d, 0);
    assert [] + Collect(d, 0, 0) == Collect(d, 0, 0);
  }

  /** At most one triangle per step of the loop. */
  lemma {:induction false} CollectFits<T>(d: Draw<T>, i: nat, number: nat)
    ensures |Collect(d, i, number)| * Stride(d)
         <= if i + 2 < |d.indices| then |d.indices| - 2 - i + Stride(d) - 1 else 0
    decreases |d.indices| - i
  {
    if i + 2 < |d.indices| {
      CollectFits(d, i + Stride(d), if Restarts(d, i) then (if d.strip then 0 else number) else number + 1);
    }
  }

  lemma NeverOverflows<T>(d: Draw<T>)
    ensures |Collect(d, 0, 0)| <= Capacity(d)
  {
    CollectFits(d, 0, 0);
  }

  lemma CollectStep<T>(d: Draw<T>, i: nat, number: nat)
    requires i + 2 < |d.indices|
    ensures Restarts(d, i) ==> Collect(d, i, number) == Collect(d, i + Stride(d), if d.strip then 0 else number)
    ensures !Restarts(d, i) ==>
              var rest := Collect(d, i + Stride(d), number + 1);
              Collect(d, i, number) == (match Assemble(d, i, number) case None => rest case Some(t) => [t] + rest)
  {
  }

  /** The draw loop.  `stored` goes to the tile rasterizer afterwards, `drawn` was drawn at once; a
      triangle that did not fit in the buffer would be drawn before the stored ones. */
  method Execute<T>(d: Draw<T>, tiled: bool) returns (stored: seq<T>, drawn: seq<T>)
    ensures tiled ==> stored == Shown(d, Windows(d)) && drawn == []
    ensures !tiled ==> stored == [] && drawn == Shown(d, Windows(d))
  {
    AllShown(d);
    hide Collect, Assemble, Shown, Windows, Restarts, Capacity;
    stored, drawn := [], [];
    var capacity := if tiled then Capacity(d) else 0;
    NeverOverflows(d);
    var i, number := 0, 0;
    while i + 2 < |d.indices|
      invariant 0 <= i && 0 <= number
      invariant tiled ==> drawn == [] && stored + Collect(d, i, number) == Collect(d, 0, 0)
      invariant !tiled ==> stored == [] && drawn + Collect(d, i, number) == Collect(d, 0, 0)
      decreases |d.indices| - i
    {
      CollectStep(d, i, number);
      if Restarts(d, i) {
        if d.strip { number := 0; }
      } else {
        var t := Assemble(d, i, number);
        number := number + 1;
        if t.Some? {
          if tiled && |stored| < capacity {
            stored := stored + [t.value];
          } else {
            drawn := drawn + [t.value];
          }
        }
      }
      i := i + Stride(d);
    }
    CollectEnd(d, i, number);
  }

  lemma CollectEnd<T>(d: Draw<T>, i: nat, number: nat)
    requires i + 2 >= |d.indices|
    ensures Collect(d, i, number) == []
  {
  }
}
