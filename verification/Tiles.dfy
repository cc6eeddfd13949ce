/** The tile rasterizer: workers draw disjoint tiles at the same time, each the whole triangle list,
    and the picture is the one drawn serially.

    What a triangle does to one pixel is a parameter: `shade` gets the triangle, the pixel's
    coordinates and its old colour and depth, nothing else.  A worker's pixel update is two steps,
    reading the old pixel and writing the new one, and any other worker may run in between. */
module Tiles {
  import opened Machine
  import Words

  /** Inclusive pixel bounds; empty when a minimum exceeds its maximum. */
  datatype Box = Box(minX: int, minY: int, maxX: int, maxY: int)

  datatype Scene<!T(!new), !P(!new)> = Scene(tris: seq<T>, box: T -> Box, shade: (T, nat, nat, P) -> P,
                                            width: nat, height: nat, requested: nat)

  datatype Op<T> = Op(tri: T, x: nat, y: nat)

  /** Rows of pixels. */
  type Picture<P> = seq<seq<P>>

  predicate Sized<P>(b: Picture<P>, width: nat, height: nat) {
    |b| == height && forall y :: 0 <= y < |b| ==> |b[y]| == width
  }

  function Max(a: int, b: int): int { if a > b then a else b }

  function Min(a: int, b: int): int { if a < b then a else b }

  // ----- which pixels, in which order -----

  function RowOps<T>(t: T, y: nat, x: nat, x1: int): (s: seq<Op<T>>)
    decreases x1 - x
  {
    if x > x1 then [] else [Op(t, x, y)] + RowOps(t, y, x + 1, x1)
  }

  function RectOps<T>(t: T, x: nat, y: nat, x1: int, y1: int): (s: seq<Op<T>>)
    decreases y1 - y
  {
    if y > y1 then [] else RowOps(t, y, x, x1) + RectOps(t, x, y + 1, x1, y1)
  }

  /** The triangle's bounds cut to the screen and to the region. */
  function Clip<T(!new), P(!new)>(s: Scene<T, P>, t: T, region: Box): Box {
    var b := s.box(t);
    Box(Max(Max(b.minX, 0), region.minX), Max(Max(b.minY, 0), region.minY),
        Min(Min(b.maxX, s.width - 1), region.maxX), Min(Min(b.maxY, s.height - 1), region.maxY))
  }

  function TriOps<T(!new), P(!new)>(s: Scene<T, P>, t: T, region: Box): seq<Op<T>> {
    var c := Clip(s, t, region);
    if c.minX > c.maxX || c.minY > c.maxY then [] else RectOps(t, c.minX, c.minY, c.maxX, c.maxY)
  }

  /** Triangles from `i` on, in list order. */
  function ListOps<T(!new), P(!new)>(s: Scene<T, P>, i: nat, region: Box): seq<Op<T>>
    requires i <= |s.tris|
    decreases |s.tris| - i
  {
    if i == |s.tris| then [] else TriOps(s, s.tris[i], region) + ListOps(s, i + 1, region)
  }

  function TileSize<T(!new), P(!new)>(s: Scene<T, P>): (n: nat)
    ensures n >= 8
  {
    var n := if s.requested == 0 then 32 else s.requested;
    if n < 8 then 8 else n
  }

  /** How many cells of `n` pixels cover a side. */
  function Cells(side: nat, n: nat): nat
    requires n >= 1
  {
    (side + n - 1) / n
  }

  function TilesX<T(!new), P(!new)>(s: Scene<T, P>): nat { Cells(s.width, TileSize(s)) }

  function TilesY<T(!new), P(!new)>(s: Scene<T, P>): nat { Cells(s.height, TileSize(s)) }

  function Times(a: nat, b: nat): nat { a * b }

  function TileCount<T(!new), P(!new)>(s: Scene<T, P>): nat { Times(TilesX(s), TilesY(s)) }

  function Region<T(!new), P(!new)>(s: Scene<T, P>, tile: nat): Box
    requires TilesX(s) >= 1
  {
    var tx, ty := tile % TilesX(s), tile / TilesX(s);
    Box(Times(tx, TileSize(s)), Times(ty, TileSize(s)),
        Min(Times(tx + 1, TileSize(s)), s.width) - 1, Min(Times(ty + 1, TileSize(s)), s.height) - 1)
  }

  /** Tiles `tile`, `tile + step`, ...: one worker's share. */
  function RangeOps<T(!new), P(!new)>(s: Scene<T, P>, tile: nat, step: nat): seq<Op<T>>
    requires step >= 1
    decreases TileCount(s) - tile
  {
    if tile >= TileCount(s) then []
    else (Positive(s); ListOps(s, 0, Region(s, tile)) + RangeOps(s, tile + step, step))
  }

  lemma Positive<T(!new), P(!new)>(s: Scene<T, P>)
    ensures TileCount(s) > 0 ==> TilesX(s) >= 1
  {
  }

  function Screen<T(!new), P(!new)>(s: Scene<T, P>): Box { Box(0, 0, s.width - 1, s.height - 1) }

  function SerialOps<T(!new), P(!new)>(s: Scene<T, P>): seq<Op<T>> { ListOps(s, 0, Screen(s)) }

  // ----- painting -----

  function Paint<T(!new), P(!new)>(s: Scene<T, P>, op: Op<T>, b: Picture<P>): Picture<P> {
    if op.y < |b| && op.x < |b[op.y]|
    then b[op.y := b[op.y][op.x := s.shade(op.tri, op.x, op.y, b[op.y][op.x])]] else b
  }

  function PaintAll<T(!new), P(!new)>(s: Scene<T, P>, ops: seq<Op<T>>, b: Picture<P>): Picture<P> {
    if ops == [] then b else PaintAll(s, ops[1..], Paint(s, ops[0], b))
  }

  lemma {:induction false} PaintAppend<T(!new), P(!new)>(s: Scene<T, P>, a: seq<Op<T>>, c: seq<Op<T>>, b: Picture<P>)
    ensures PaintAll(s, a + c, b) == PaintAll(s, c, PaintAll(s, a, b))
    decreases |a|
  {
    if a == [] {
      assert a + c == c;
    } else {
      assert (a + c)[1..] == a[1..] + c;
      PaintAppend(s, a[1..], c, Paint(s, a[0], b));
    }
  }

  /** The triangles that touch a pixel, in the order of the list. */
  function Hits<T>(ops: seq<Op<T>>, x: nat, y: nat): seq<T> {
    if ops == [] then []
    else (if ops[0].x == x && ops[0].y == y then [ops[0].tri] else []) + Hits(ops[1..], x, y)
  }

  function Layers<T(!new), P(!new)>(s: Scene<T, P>, ts: seq<T>, x: nat, y: nat, v: P): P {
    if ts == [] then v else Layers(s, ts[1..], x, y, s.shade(ts[0], x, y, v))
  }

  lemma {:induction false} HitsAppend<T>(a: seq<Op<T>>, b: seq<Op<T>>, x: nat, y: nat)
    ensures Hits(a + b, x, y) == Hits(a, x, y) + Hits(b, x, y)
    decreases |a|
  {
    if a == [] {
      assert a + b == b;
    } else {
      assert (a + b)[1..] == a[1..] + b;
      HitsAppend(a[1..], b, x, y);
    }
  }

  lemma {:induction false} LayersAppend<T(!new), P(!new)>(s: Scene<T, P>, a: seq<T>, b: seq<T>, x: nat, y: nat, v: P)
    ensures Layers(s, a + b, x, y, v) == Layers(s, b, x, y, Layers(s, a, x, y, v))
    decreases |a|
  {
    if a == [] {
      assert a + b == b;
    } else {
      assert (a + b)[1..] == a[1..] + b;
      LayersAppend(s, a[1..], b, x, y, s.shade(a[0], x, y, v));
    }
  }

  /** After any list of updates a pixel shows exactly the triangles that touched it. */
  lemma {:induction false} PixelAfter<T(!new), P(!new)>(s: Scene<T, P>, ops: seq<Op<T>>, b: Picture<P>, x: nat, y: nat)
    requires Sized(b, s.width, s.height) && x < s.width && y < s.height
    ensures Sized(PaintAll(s, ops, b), s.width, s.height)
    ensures PaintAll(s, ops, b)[y][x] == Layers(s, Hits(ops, x, y), x, y, b[y][x])
    decreases |ops|
  {
    if ops != [] {
      PixelAfter(s, ops[1..], Paint(s, ops[0], b), x, y);
      if ops[0].x == x && ops[0].y == y {
        assert Hits(ops, x, y)[1..] == Hits(ops[1..], x, y);
      } else {
        assert Hits(ops, x, y) == Hits(ops[1..], x, y);
      }
    }
  }

  // ----- one tile owns each pixel -----

  predicate In(b: Box, x: nat, y: nat) { b.minX <= x <= b.maxX && b.minY <= y <= b.maxY }

  lemma {:induction false} RowHits<T>(t: T, y: nat, x0: nat, x1: int, px: nat, py: nat)
    ensures Hits(RowOps(t, y, x0, x1), px, py) == if y == py && x0 <= px <= x1 then [t] else []
    decreases x1 - x0
  {
    if x0 <= x1 {
      RowHits(t, y, x0 + 1, x1, px, py);
      assert RowOps(t, y, x0, x1)[1..] == RowOps(t, y, x0 + 1, x1);
    }
  }

  lemma {:induction false} RectHits<T>(t: T, x: nat, y: nat, x1: int, y1: int, px: nat, py: nat)
    ensures Hits(RectOps(t, x, y, x1, y1), px, py) == if x <= px <= x1 && y <= py <= y1 then [t] else []
    decreases y1 - y
  {
    if y <= y1 {
      RowHits(t, y, x, x1, px, py);
      RectHits(t, x, y + 1, x1, y1, px, py);
      HitsAppend(RowOps(t, y, x, x1), RectOps(t, x, y + 1, x1, y1), px, py);
    }
  }

  /** The triangles from `i` on whose bounds contain the pixel. */
  function Covering<T(!new), P(!new)>(s: Scene<T, P>, i: nat, x: nat, y: nat): seq<T>
    requires i <= |s.tris|
    decreases |s.tris| - i
  {
    if i == |s.tris| then []
    else (if In(s.box(s.tris[i]), x, y) then [s.tris[i]] else []) + Covering(s, i + 1, x, y)
  }

  lemma TriHits<T(!new), P(!new)>(s: Scene<T, P>, t: T, region: Box, x: nat, y: nat)
    requires x < s.width && y < s.height
    ensures Hits(TriOps(s, t, region), x, y) == if In(region, x, y) && In(s.box(t), x, y) then [t] else []
  {
    hide RectOps;
    var c := Clip(s, t, region);
    if c.minX <= c.maxX && c.minY <= c.maxY { RectHits(t, c.minX, c.minY, c.maxX, c.maxY, x, y); }
  }

  lemma {:induction false} ListHits<T(!new), P(!new)>(s: Scene<T, P>, i: nat, region: Box, x: nat, y: nat)
    requires i <= |s.tris| && x < s.width && y < s.height
    ensures Hits(ListOps(s, i, region), x, y) == if In(region, x, y) then Covering(s, i, x, y) else []
    decreases |s.tris| - i
  {
    hide TriOps, In;
    if i < |s.tris| {
      ListHits(s, i + 1, region, x, y);
      HitsAppend(TriOps(s, s.tris[i], region), ListOps(s, i + 1, region), x, y);
      TriHits(s, s.tris[i], region, x, y);
    }
  }

  function TileOf<T(!new), P(!new)>(s: Scene<T, P>, x: nat, y: nat): nat {
    Times(y / TileSize(s), TilesX(s)) + x / TileSize(s)
  }

  lemma ColumnOf(x: nat, n: nat, width: nat, tx: nat)
    requires n >= 1 && x < width
    ensures x / n < Cells(width, n)
    ensures Times(tx, n) <= x <= Min(Times(tx + 1, n), width) - 1 <==> tx == x / n
  {
    var q := x / n;
    var w := (width + n - 1) / n;
    assert x == q * n + x % n;
    assert width + n - 1 == w * n + (width + n - 1) % n;
    if q >= w { ScaleUp(w, q, n); }
    if tx < q { ScaleUp(tx + 1, q, n); }
    if tx > q { ScaleUp(q + 1, tx, n); }
    assert (q + 1) * n == q * n + n;
  }

  lemma ScaleUp(a: nat, b: nat, n: nat)
    requires a <= b
    ensures a * n <= b * n
  {
  }

  /** Membership in a tile, column by column and row by row. */
  lemma InRegion<T(!new), P(!new)>(s: Scene<T, P>, x: nat, y: nat, tile: nat)
    requires x < s.width && y < s.height
    ensures TilesX(s) >= 1 && x / TileSize(s) < TilesX(s) && y / TileSize(s) < TilesY(s)
    ensures In(Region(s, tile), x, y)
       <==> tile % TilesX(s) == x / TileSize(s) && tile / TilesX(s) == y / TileSize(s)
  {
    hide Cells, TileSize, Times;
    var n := TileSize(s);
    ColumnOf(x, n, s.width, 0);
    var w := TilesX(s);
    ColumnOf(x, n, s.width, tile % w);
    ColumnOf(y, n, s.height, tile / w);
  }

  /** A pixel lies in exactly one tile. */
  lemma OneTile<T(!new), P(!new)>(s: Scene<T, P>, x: nat, y: nat, tile: nat)
    requires x < s.width && y < s.height
    ensures TilesX(s) >= 1 && TileOf(s, x, y) < TileCount(s)
    ensures In(Region(s, tile), x, y) <==> tile == TileOf(s, x, y)
  {
    hide TilesX, TilesY, TileSize, Times, Region, In;
    InRegion(s, x, y, tile);
    var w, tx, ty := TilesX(s), x / TileSize(s), y / TileSize(s);
    SplitTile(tx, ty, w, tile);
    TileBelow(tx, ty, w, TilesY(s));
  }

  lemma TileBelow(tx: nat, ty: nat, w: nat, h: nat)
    requires tx < w && ty < h
    ensures Times(ty, w) + tx < Times(w, h)
  {
    ScaleUp(ty + 1, h, w);
    assert (ty + 1) * w == ty * w + w;
  }

  lemma SplitTile(tx: nat, ty: nat, w: nat, tile: nat)
    requires tx < w
    ensures tile % w == tx && tile / w == ty <==> tile == Times(ty, w) + tx
  {
    assert tile == (tile / w) * w + tile % w;
    if tile == ty * w + tx { DivMod(ty, tx, w); }
  }

  lemma DivMod(q: nat, r: nat, w: nat)
    requires r < w
    ensures (q * w + r) / w == q && (q * w + r) % w == r
  {
    Words.ModUnique(q * w + r, w, q, r);
  }

  lemma NoHits<T>(x: nat, y: nat)
    ensures Hits<T>([], x, y) == []
  {
  }

  /** A worker draws the pixel if its share contains the pixel's tile: all triangles, in order. */
  lemma {:induction false} RangeHits<T(!new), P(!new)>(s: Scene<T, P>, tile: nat, step: nat, x: nat, y: nat)
    requires step >= 1 && x < s.width && y < s.height
    ensures Hits(RangeOps(s, tile, step), x, y)
         == if tile <= TileOf(s, x, y) && (TileOf(s, x, y) - tile) % step == 0 then Covering(s, 0, x, y) else []
    decreases TileCount(s) - tile
  {
    hide TileOf, Region, TileCount, TilesX, ListOps, Covering, Hits, In;
    var home := TileOf(s, x, y);
    OneTile(s, x, y, tile);
    NoHits<T>(x, y);
    if tile < TileCount(s) {
      ListHits(s, 0, Region(s, tile), x, y);
      RangeHits(s, tile + step, step, x, y);
      HitsAppend(ListOps(s, 0, Region(s, tile)), RangeOps(s, tile + step, step), x, y);
      if tile == home {
        assert (home - tile) % step == 0;
      } else if tile < home {
        StepBack(home - tile, step);
      }
    }
  }

  lemma StepBack(d: nat, step: nat)
    requires step >= 1 && d >= 1
    ensures d >= step ==> (d - step) % step == d % step
    ensures d < step ==> d % step != 0
  {
    if d >= step { Words.ModUnique(d - step, step, d / step - 1, d % step); }
    else { Words.ModSmall(d, step); }
  }

  // ----- drawn alone -----

  lemma SamePicture<P>(a: Picture<P>, b: Picture<P>, width: nat, height: nat)
    requires Sized(a, width, height) && Sized(b, width, height)
    requires forall x, y :: 0 <= x < width && 0 <= y < height ==> a[y][x] == b[y][x]
    ensures a == b
  {
    forall y | 0 <= y < height ensures a[y] == b[y] {
      assert forall x :: 0 <= x < width ==> a[y][x] == b[y][x];
    }
  }

  lemma {:induction false} PaintSized<T(!new), P(!new)>(s: Scene<T, P>, ops: seq<Op<T>>, b: Picture<P>)
    requires Sized(b, s.width, s.height)
    ensures Sized(PaintAll(s, ops, b), s.width, s.height)
    decreases |ops|
  {
    if ops != [] { PaintSized(s, ops[1..], Paint(s, ops[0], b)); }
  }

  /** Lists that touch every pixel with the same triangles in the same order paint the same picture. */
  lemma SameHits<T(!new), P(!new)>(s: Scene<T, P>, a: seq<Op<T>>, c: seq<Op<T>>, b: Picture<P>)
    requires Sized(b, s.width, s.height)
    requires forall x, y :: 0 <= x < s.width && 0 <= y < s.height ==> Hits(a, x, y) == Hits(c, x, y)
    ensures PaintAll(s, a, b) == PaintAll(s, c, b)
  {
    PaintSized(s, a, b);
    PaintSized(s, c, b);
    forall x, y | 0 <= x < s.width && 0 <= y < s.height
      ensures PaintAll(s, a, b)[y][x] == PaintAll(s, c, b)[y][x]
    {
      PixelAfter(s, a, b, x, y);
      PixelAfter(s, c, b, x, y);
    }
    SamePicture(PaintAll(s, a, b), PaintAll(s, c, b), s.width, s.height);
  }

  lemma SerialHits<T(!new), P(!new)>(s: Scene<T, P>, x: nat, y: nat)
    requires x < s.width && y < s.height
    ensures Hits(SerialOps(s), x, y) == Covering(s, 0, x, y)
  {
    ListHits(s, 0, Screen(s), x, y);
  }

  /** Tile after tile in one thread gives the serial picture. */
  lemma AloneIsSerial<T(!new), P(!new)>(s: Scene<T, P>, b: Picture<P>)
    requires Sized(b, s.width, s.height)
    ensures PaintAll(s, RangeOps(s, 0, 1), b) == PaintAll(s, SerialOps(s), b)
  {
    forall x, y | 0 <= x < s.width && 0 <= y < s.height
      ensures Hits(RangeOps(s, 0, 1), x, y) == Hits(SerialOps(s), x, y)
    {
      RangeHits(s, 0, 1, x, y);
      SerialHits(s, x, y);
    }
    SameHits(s, RangeOps(s, 0, 1), SerialOps(s), b);
  }

  // ----- drawn by workers -----

  /** The picture, how far each worker is, and the pixel it has read but not yet written. */
  datatype Pool<P> = Pool(pic: Picture<P>, pos: seq<nat>, held: seq<Option<P>>)

  predicate Shaped<T(!new), P(!new)>(s: Scene<T, P>, lists: seq<seq<Op<T>>>, m: Pool<P>) {
    Sized(m.pic, s.width, s.height) && |m.pos| == |lists| == |m.held| &&
    forall i :: 0 <= i < |lists| ==> m.pos[i] <= |lists[i]|
  }

  predicate OnScreen<T(!new), P(!new)>(s: Scene<T, P>, ops: seq<Op<T>>) {
    forall k :: 0 <= k < |ops| ==> ops[k].x < s.width && ops[k].y < s.height
  }

  /** One step of worker `i`: read the next pixel, or write it. */
  function WorkerStep<T(!new), P(!new)>(s: Scene<T, P>, lists: seq<seq<Op<T>>>, m: Pool<P>, i: nat): Pool<P>
    requires Shaped(s, lists, m) && forall j :: 0 <= j < |lists| ==> OnScreen(s, lists[j])
  {
    if i >= |lists| || m.pos[i] == |lists[i]| then m
    else
      assert OnScreen(s, lists[i]);
      var op := lists[i][m.pos[i]];
      if m.held[i].None? then m.(held := m.held[i := Some(m.pic[op.y][op.x])])
      else
        var v := s.shade(op.tri, op.x, op.y, m.held[i].value);
        Pool(m.pic[op.y := m.pic[op.y][op.x := v]], m.pos[i := m.pos[i] + 1], m.held[i := None])
  }

  predicate Touches<T>(ops: seq<Op<T>>, x: nat, y: nat) { Hits(ops, x, y) != [] }

  lemma {:induction false} TouchesAt<T>(ops: seq<Op<T>>, k: nat)
    requires k < |ops|
    ensures Touches(ops, ops[k].x, ops[k].y)
    decreases |ops|
  {
    if k > 0 {
      TouchesAt(ops[1..], k - 1);
    }
  }

  /** No pixel is in two workers' lists. */
  ghost predicate Apart<T(!new)>(lists: seq<seq<Op<T>>>) {
    forall i, j, x: nat, y: nat :: 0 <= i < j < |lists| && Touches(lists[i], x, y) ==> !Touches(lists[j], x, y)
  }

  /** Each worker's pixels show what it has done so far, the others what was there before. */
  ghost predicate Agrees<T(!new), P(!new)>(s: Scene<T, P>, lists: seq<seq<Op<T>>>, b0: Picture<P>, m: Pool<P>)
    requires Sized(b0, s.width, s.height)
  {
    Shaped(s, lists, m) &&
    (forall i :: 0 <= i < |lists| && m.held[i].Some? ==> Fresh(s, lists, m, i)) &&
    (forall i, x: nat, y: nat :: 0 <= i < |lists| && x < s.width && y < s.height && Touches(lists[i], x, y) ==>
       m.pic[y][x] == Layers(s, Hits(lists[i][..m.pos[i]], x, y), x, y, b0[y][x])) &&
    forall x: nat, y: nat :: x < s.width && y < s.height && Untouched(lists, x, y) ==> m.pic[y][x] == b0[y][x]
  }

  predicate Untouched<T>(lists: seq<seq<Op<T>>>, x: nat, y: nat) {
    forall i :: 0 <= i < |lists| ==> !Touches(lists[i], x, y)
  }

  /** The pixel a worker holds has not changed since it was read. */
  ghost predicate Fresh<T(!new), P(!new)>(s: Scene<T, P>, lists: seq<seq<Op<T>>>, m: Pool<P>, i: nat)
    requires Shaped(s, lists, m) && i < |lists| && m.held[i].Some?
  {
    m.pos[i] < |lists[i]| &&
    var op := lists[i][m.pos[i]];
    op.x < s.width && op.y < s.height && m.held[i].value == m.pic[op.y][op.x]
  }

  ghost predicate Workable<T(!new), P(!new)>(s: Scene<T, P>, lists: seq<seq<Op<T>>>) {
    Apart(lists) && forall j :: 0 <= j < |lists| ==> OnScreen(s, lists[j])
  }

  lemma HitsNext<T>(ops: seq<Op<T>>, k: nat, x: nat, y: nat)
    requires k < |ops|
    ensures Hits(ops[..k + 1], x, y)
         == Hits(ops[..k], x, y) + if ops[k].x == x && ops[k].y == y then [ops[k].tri] else []
  {
    assert ops[..k + 1] == ops[..k] + [ops[k]];
    HitsAppend(ops[..k], [ops[k]], x, y);
    assert [ops[k]][1..] == [] && Hits<T>([], x, y) == [];
  }

  lemma StepAgrees<T(!new), P(!new)>(s: Scene<T, P>, lists: seq<seq<Op<T>>>, b0: Picture<P>, m: Pool<P>, i: nat)
    requires Sized(b0, s.width, s.height) && Workable(s, lists) && Agrees(s, lists, b0, m)
    ensures Agrees(s, lists, b0, WorkerStep(s, lists, m, i))
  {
    var m' := WorkerStep(s, lists, m, i);
    if i < |lists| && m.pos[i] < |lists[i]| {
      var op := lists[i][m.pos[i]];
      TouchesAt(lists[i], m.pos[i]);
      if m.held[i].None? {
        forall j | 0 <= j < |lists| && m'.held[j].Some? ensures Fresh(s, lists, m', j) {
          if j != i { assert Fresh(s, lists, m, j); }
        }
      } else {
        assert Fresh(s, lists, m, i);
        WriteAgrees(s, lists, b0, m, i);
      }
    }
  }

  lemma WriteAgrees<T(!new), P(!new)>(s: Scene<T, P>, lists: seq<seq<Op<T>>>, b0: Picture<P>, m: Pool<P>, i: nat)
    requires Sized(b0, s.width, s.height) && Workable(s, lists) && Agrees(s, lists, b0, m)
    requires i < |lists| && m.held[i].Some?
    ensures Agrees(s, lists, b0, WorkerStep(s, lists, m, i))
  {
    hide Hits, Layers;
    var m' := WorkerStep(s, lists, m, i);
    assert Fresh(s, lists, m, i);
    var op := lists[i][m.pos[i]];
    TouchesAt(lists[i], m.pos[i]);
    forall j | 0 <= j < |lists| && m'.held[j].Some? ensures Fresh(s, lists, m', j) {
      assert Fresh(s, lists, m, j);
      TouchesAt(lists[j], m.pos[j]);
    }
    forall j, x: nat, y: nat | 0 <= j < |lists| && x < s.width && y < s.height && Touches(lists[j], x, y)
      ensures m'.pic[y][x] == Layers(s, Hits(lists[j][..m'.pos[j]], x, y), x, y, b0[y][x])
    {
      if j == i {
        HitsNext(lists[i], m.pos[i], x, y);
        var before := Hits(lists[i][..m.pos[i]], x, y);
        var more := if op.x == x && op.y == y then [op.tri] else [];
        LayersAppend(s, before, more, x, y, b0[y][x]);
        OneLayer(s, more, x, y, m.pic[y][x]);
      } else {
        assert !(x == op.x && y == op.y);
      }
    }
  }

  lemma OneLayer<T(!new), P(!new)>(s: Scene<T, P>, ts: seq<T>, x: nat, y: nat, v: P)
    requires |ts| <= 1
    ensures Layers(s, ts, x, y, v) == if ts == [] then v else s.shade(ts[0], x, y, v)
  {
    if ts != [] { assert ts[1..] == []; }
  }

  /** A whole schedule: any sequence of worker numbers. */
  function RunPool<T(!new), P(!new)>(s: Scene<T, P>, lists: seq<seq<Op<T>>>, m: Pool<P>, schedule: seq<nat>)
    : (r: Pool<P>)
    requires Shaped(s, lists, m) && forall j :: 0 <= j < |lists| ==> OnScreen(s, lists[j])
    ensures Shaped(s, lists, r)
    decreases |schedule|
  {
    if schedule == [] then m else RunPool(s, lists, WorkerStep(s, lists, m, schedule[0]), schedule[1..])
  }

  lemma {:induction false} RunAgrees<T(!new), P(!new)>(s: Scene<T, P>, lists: seq<seq<Op<T>>>, b0: Picture<P>,
                                                       m: Pool<P>, schedule: seq<nat>)
    requires Sized(b0, s.width, s.height) && Workable(s, lists) && Agrees(s, lists, b0, m)
    ensures Agrees(s, lists, b0, RunPool(s, lists, m, schedule))
    decreases |schedule|
  {
    hide Agrees, Workable, WorkerStep;
    assert Shaped(s, lists, m) && forall j :: 0 <= j < |lists| ==> OnScreen(s, lists[j])
           by { AgreesShape(s, lists, b0, m); }
    if schedule != [] {
      StepAgrees(s, lists, b0, m, schedule[0]);
      RunAgrees(s, lists, b0, WorkerStep(s, lists, m, schedule[0]), schedule[1..]);
    }
  }

  lemma AgreesShape<T(!new), P(!new)>(s: Scene<T, P>, lists: seq<seq<Op<T>>>, b0: Picture<P>, m: Pool<P>)
    requires Sized(b0, s.width, s.height) && Workable(s, lists) && Agrees(s, lists, b0, m)
    ensures Shaped(s, lists, m) && forall j :: 0 <= j < |lists| ==> OnScreen(s, lists[j])
  {
  }

  /** How often a worker is scheduled. */
  function Turns(schedule: seq<nat>, i: nat): nat {
    if schedule == [] then 0 else (if schedule[0] == i then 1 else 0) + Turns(schedule[1..], i)
  }

  /** Steps a worker still has to take: two for each pixel, one less for the pixel it holds. */
  function Remaining<T, P>(lists: seq<seq<Op<T>>>, m: Pool<P>, i: nat): int
    requires i < |lists| == |m.pos| == |m.held|
  {
    if m.pos[i] == |lists[i]| then 0 else 2 * (|lists[i]| - m.pos[i]) - if m.held[i].Some? then 1 else 0
  }

  lemma StepCounts<T(!new), P(!new)>(s: Scene<T, P>, lists: seq<seq<Op<T>>>, m: Pool<P>, j: nat, i: nat)
    requires Shaped(s, lists, m) && (forall j :: 0 <= j < |lists| ==> OnScreen(s, lists[j])) && i < |lists|
    ensures var m' := WorkerStep(s, lists, m, j);
            Shaped(s, lists, m') && Remaining(lists, m', i) <= Remaining(lists, m, i) &&
            (i == j && Remaining(lists, m, i) > 0 ==> Remaining(lists, m', i) < Remaining(lists, m, i))
  {
    if j < |lists| { assert OnScreen(s, lists[j]); }
  }

  /** A worker finishes after two turns for each pixel of its share, whatever the others do. */
  lemma {:induction false} EnoughTurns<T(!new), P(!new)>(s: Scene<T, P>, lists: seq<seq<Op<T>>>, m: Pool<P>,
                                                         schedule: seq<nat>, i: nat)
    requires Shaped(s, lists, m) && (forall j :: 0 <= j < |lists| ==> OnScreen(s, lists[j])) && i < |lists|
    requires Remaining(lists, m, i) <= Turns(schedule, i)
    ensures RunPool(s, lists, m, schedule).pos[i] == |lists[i]|
    decreases |schedule|
  {
    hide WorkerStep;
    if schedule != [] {
      StepCounts(s, lists, m, schedule[0], i);
      EnoughTurns(s, lists, WorkerStep(s, lists, m, schedule[0]), schedule[1..], i);
    }
  }

  function Fresh0<T(!new), P(!new)>(lists: seq<seq<Op<T>>>, b0: Picture<P>): Pool<P> {
    Pool(b0, seq(|lists|, i => 0), seq(|lists|, i => None))
  }

  // ----- the tiled draw -----

  /** The shares of the workers that started; worker `i` of `workers` takes every `workers`-th tile. */
  function Shares<T(!new), P(!new)>(s: Scene<T, P>, created: nat, workers: nat): (l: seq<seq<Op<T>>>)
    requires created <= workers
  {
    seq(created, i requires 0 <= i < created => RangeOps(s, i, workers))
  }

  /** What the calling thread draws after joining: the tiles of workers that never started. */
  function LeftoverOps<T(!new), P(!new)>(s: Scene<T, P>, tile: nat, created: nat, workers: nat): seq<Op<T>>
    requires workers >= 1
    decreases TileCount(s) - tile
  {
    if tile >= TileCount(s) then []
    else (if tile % workers < created then [] else RangeOps(s, tile, TileCount(s)))
         + LeftoverOps(s, tile + 1, created, workers)
  }

  lemma {:induction false} LeftoverHits<T(!new), P(!new)>(s: Scene<T, P>, tile: nat, created: nat, workers: nat,
                                                          x: nat, y: nat)
    requires workers >= 1 && x < s.width && y < s.height
    ensures var home := TileOf(s, x, y);
            Hits(LeftoverOps(s, tile, created, workers), x, y)
            == if tile <= home && home % workers >= created then Covering(s, 0, x, y) else []
    decreases TileCount(s) - tile
  {
    hide TileOf, Region, TileCount, RangeOps, Covering, Hits, In;
    var home := TileOf(s, x, y);
    OneTile(s, x, y, tile);
    NoHits<T>(x, y);
    if tile < TileCount(s) {
      LeftoverHits(s, tile + 1, created, workers, x, y);
      var first := if tile % workers < created then [] else RangeOps(s, tile, TileCount(s));
      HitsAppend(first, LeftoverOps(s, tile + 1, created, workers), x, y);
      RangeHits(s, tile, TileCount(s), x, y);
      if tile <= home { Words.ModSmall(home - tile, TileCount(s)); }
    }
  }

  /** A started worker's share of a pixel. */
  lemma ShareHits<T(!new), P(!new)>(s: Scene<T, P>, created: nat, workers: nat, i: nat, x: nat, y: nat)
    requires i < created <= workers && x < s.width && y < s.height
    ensures Hits(Shares(s, created, workers)[i], x, y)
         == if TileOf(s, x, y) % workers == i then Covering(s, 0, x, y) else []
  {
    var home := TileOf(s, x, y);
    RangeHits(s, i, workers, x, y);
    if home >= i { ShiftMod(home, i, workers); } else { Words.ModSmall(home, workers); }
  }

  lemma ShiftMod(home: nat, i: nat, workers: nat)
    requires i <= home && i < workers
    ensures (home - i) % workers == 0 <==> home % workers == i
  {
    var q := (home - i) / workers;
    if (home - i) % workers == 0 { Words.ModUnique(home, workers, q, i); }
    if home % workers == i { Words.ModUnique(home - i, workers, home / workers, 0); }
  }

  lemma {:induction false} RowOnScreen<T(!new), P(!new)>(s: Scene<T, P>, t: T, y: nat, x: nat, x1: int)
    requires x1 < s.width && y < s.height
    ensures OnScreen(s, RowOps(t, y, x, x1))
    decreases x1 - x
  {
    if x <= x1 { RowOnScreen(s, t, y, x + 1, x1); }
  }

  lemma {:induction false} RectOnScreen<T(!new), P(!new)>(s: Scene<T, P>, t: T, x: nat, y: nat, x1: int, y1: int)
    requires x1 < s.width && y1 < s.height
    ensures OnScreen(s, RectOps(t, x, y, x1, y1))
    decreases y1 - y
  {
    if y <= y1 { RowOnScreen(s, t, y, x, x1); RectOnScreen(s, t, x, y + 1, x1, y1); }
  }

  lemma {:induction false} ListOnScreen<T(!new), P(!new)>(s: Scene<T, P>, i: nat, region: Box)
    requires i <= |s.tris|
    ensures OnScreen(s, ListOps(s, i, region))
    decreases |s.tris| - i
  {
    if i < |s.tris| {
      ListOnScreen(s, i + 1, region);
      var c := Clip(s, s.tris[i], region);
      if c.minX <= c.maxX && c.minY <= c.maxY { RectOnScreen(s, s.tris[i], c.minX, c.minY, c.maxX, c.maxY); }
    }
  }

  lemma {:induction false} RangeOnScreen<T(!new), P(!new)>(s: Scene<T, P>, tile: nat, step: nat)
    requires step >= 1
    ensures OnScreen(s, RangeOps(s, tile, step))
    decreases TileCount(s) - tile
  {
    if tile < TileCount(s) { ListOnScreen(s, 0, Region(s, tile)); RangeOnScreen(s, tile + step, step); }
  }

  lemma {:induction false} HitsOnScreen<T(!new), P(!new)>(s: Scene<T, P>, ops: seq<Op<T>>, x: nat, y: nat)
    requires OnScreen(s, ops) && Touches(ops, x, y)
    ensures x < s.width && y < s.height
    decreases |ops|
  {
    if !(ops[0].x == x && ops[0].y == y) { HitsOnScreen(s, ops[1..], x, y); }
  }

  lemma SharesWorkable<T(!new), P(!new)>(s: Scene<T, P>, created: nat, workers: nat)
    requires created <= workers && workers >= 1
    ensures Workable(s, Shares(s, created, workers))
  {
    var lists := Shares(s, created, workers);
    forall j | 0 <= j < |lists| ensures OnScreen(s, lists[j]) { RangeOnScreen(s, j, workers); }
    forall i, j, x: nat, y: nat | 0 <= i < j < |lists| && Touches(lists[i], x, y) ensures !Touches(lists[j], x, y) {
      HitsOnScreen(s, lists[i], x, y);
      ShareHits(s, created, workers, i, x, y);
      ShareHits(s, created, workers, j, x, y);
    }
  }

  predicate Finished<T, P>(lists: seq<seq<Op<T>>>, m: Pool<P>)
    requires |m.pos| == |lists|
  {
    forall i :: 0 <= i < |lists| ==> m.pos[i] == |lists[i]|
  }

  lemma StartAgrees<T(!new), P(!new)>(s: Scene<T, P>, lists: seq<seq<Op<T>>>, b0: Picture<P>)
    requires Sized(b0, s.width, s.height)
    ensures Agrees(s, lists, b0, Fresh0(lists, b0))
  {
  }

  /** Whatever the interleaving of the workers' steps, and however many of them failed to start,
      the picture is the one drawn serially. */
  lemma TiledIsSerial<T(!new), P(!new)>(s: Scene<T, P>, b0: Picture<P>, created: nat, workers: nat, schedule: seq<nat>)
    requires Sized(b0, s.width, s.height) && created <= workers && workers >= 1
    ensures Workable(s, Shares(s, created, workers))
    ensures var lists := Shares(s, created, workers);
            var m := RunPool(s, lists, Fresh0(lists, b0), schedule);
            Finished(lists, m) ==>
              PaintAll(s, LeftoverOps(s, 0, created, workers), m.pic) == PaintAll(s, SerialOps(s), b0)
  {
    hide RunPool;
    var lists := Shares(s, created, workers);
    SharesWorkable(s, created, workers);
    StartAgrees(s, lists, b0);
    RunAgrees(s, lists, b0, Fresh0(lists, b0), schedule);
    var m := RunPool(s, lists, Fresh0(lists, b0), schedule);
    if Finished(lists, m) {
      var left := LeftoverOps(s, 0, created, workers);
      PaintSized(s, left, m.pic);
      PaintSized(s, SerialOps(s), b0);
      forall x, y | 0 <= x < s.width && 0 <= y < s.height
        ensures PaintAll(s, left, m.pic)[y][x] == PaintAll(s, SerialOps(s), b0)[y][x]
      {
        PixelAgrees(s, b0, created, workers, m, x, y);
      }
      SamePicture(PaintAll(s, left, m.pic), PaintAll(s, SerialOps(s), b0), s.width, s.height);
    }
  }

  /** Every schedule that lets each started worker take two steps per pixel of its share draws the
      serial picture. */
  lemma FairIsSerial<T(!new), P(!new)>(s: Scene<T, P>, b0: Picture<P>, created: nat, workers: nat, schedule: seq<nat>)
    requires Sized(b0, s.width, s.height) && created <= workers && workers >= 1
    requires forall i :: 0 <= i < created ==> Turns(schedule, i) >= 2 * |RangeOps(s, i, workers)|
    ensures Workable(s, Shares(s, created, workers))
    ensures var lists := Shares(s, created, workers);
            var m := RunPool(s, lists, Fresh0(lists, b0), schedule);
            PaintAll(s, LeftoverOps(s, 0, created, workers), m.pic) == PaintAll(s, SerialOps(s), b0)
  {
    hide RunPool, PaintAll, SerialOps, LeftoverOps, RangeOps;
    TiledIsSerial(s, b0, created, workers, schedule);
    var lists := Shares(s, created, workers);
    forall i | 0 <= i < |lists|
      ensures RunPool(s, lists, Fresh0(lists, b0), schedule).pos[i] == |lists[i]|
    {
      assert lists[i] == RangeOps(s, i, workers);
      EnoughTurns(s, lists, Fresh0(lists, b0), schedule, i);
    }
  }

  /** What a draw meets: whether its job tables can be allocated, how many threads start, and how their
      steps interleave until all are joined. */
  datatype Launch = Launch(tables: bool, started: nat, schedule: seq<nat>)

  function WorkerCount<T(!new), P(!new)>(s: Scene<T, P>, threads: nat): nat {
    if threads > TileCount(s) then TileCount(s) else threads
  }

  function Started<T(!new), P(!new)>(s: Scene<T, P>, threads: nat, l: Launch): nat {
    if l.started > WorkerCount(s, threads) then WorkerCount(s, threads) else l.started
  }

  /** Every started worker gets two turns for each pixel of its share. */
  predicate Fair<T(!new), P(!new)>(s: Scene<T, P>, threads: nat, l: Launch) {
    forall i :: 0 <= i < Started(s, threads, l) ==>
      Turns(l.schedule, i) >= 2 * |RangeOps(s, i, WorkerCount(s, threads))|
  }

  /** The picture a draw leaves: alone when fewer than two workers or no tables, else the workers run,
      are joined, and the shares of those that did not start are drawn afterwards. */
  function Drawn<T(!new), P(!new)>(s: Scene<T, P>, threads: nat, l: Launch, b0: Picture<P>): Picture<P>
    requires Sized(b0, s.width, s.height)
  {
    var workers, created := WorkerCount(s, threads), Started(s, threads, l);
    if workers < 2 || !l.tables then PaintAll(s, RangeOps(s, 0, 1), b0)
    else
      SharesWorkable(s, created, workers);
      var lists := Shares(s, created, workers);
      var m := RunPool(s, lists, Fresh0(lists, b0), l.schedule);
      if created < workers then PaintAll(s, LeftoverOps(s, 0, created, workers), m.pic) else m.pic
  }

  /** A tiled draw shows the serial picture, whatever the thread count, the failures and the schedule. */
  lemma DrawnIsSerial<T(!new), P(!new)>(s: Scene<T, P>, threads: nat, l: Launch, b0: Picture<P>)
    requires Sized(b0, s.width, s.height) && Fair(s, threads, l)
    ensures Drawn(s, threads, l, b0) == PaintAll(s, SerialOps(s), b0)
  {
    hide RunPool, PaintAll, SerialOps, LeftoverOps, RangeOps, TileCount;
    var workers, created := WorkerCount(s, threads), Started(s, threads, l);
    if workers < 2 || !l.tables {
      AloneIsSerial(s, b0);
    } else {
      FairIsSerial(s, b0, created, workers, l.schedule);
      if created == workers {
        var lists := Shares(s, created, workers);
        NothingLeft(s, 0, workers);
        PaintStep(s, [], RunPool(s, lists, Fresh0(lists, b0), l.schedule).pic);
      }
    }
  }

  /** What a draw leaves at a pixel: the triangles whose bounds contain it, shaded one over the other in the
      order of the list, whatever the tiles, the threads, the failures and the schedule. */
  lemma DrawnPixel<T(!new), P(!new)>(s: Scene<T, P>, threads: nat, l: Launch, b0: Picture<P>, x: nat, y: nat)
    requires Sized(b0, s.width, s.height) && Fair(s, threads, l) && x < s.width && y < s.height
    ensures var b := Drawn(s, threads, l, b0);
            Sized(b, s.width, s.height) && b[y][x] == Layers(s, Covering(s, 0, x, y), x, y, b0[y][x])
  {
    hide Drawn, Fair, PaintAll, SerialOps, Hits, Layers, Covering;
    DrawnIsSerial(s, threads, l, b0);
    PaintSized(s, SerialOps(s), b0);
    PixelAfter(s, SerialOps(s), b0, x, y);
    SerialHits(s, x, y);
  }

  /** No thread is started for nothing, and tiles are 32 pixels wide unless asked otherwise, never under 8. */
  lemma Sizes<T(!new), P(!new)>(s: Scene<T, P>, threads: nat)
    ensures WorkerCount(s, threads) <= threads && WorkerCount(s, threads) <= TileCount(s)
    ensures WorkerCount(s, threads) < threads ==> WorkerCount(s, threads) == TileCount(s)
    ensures s.requested == 0 ==> TileSize(s) == 32
    ensures 0 < s.requested < 8 ==> TileSize(s) == 8
    ensures s.requested >= 8 ==> TileSize(s) == s.requested
  {
    hide TileCount;
  }

  lemma {:induction false} NothingLeft<T(!new), P(!new)>(s: Scene<T, P>, tile: nat, workers: nat)
    requires workers >= 1
    ensures LeftoverOps(s, tile, workers, workers) == []
    decreases TileCount(s) - tile
  {
    if tile < TileCount(s) { NothingLeft(s, tile + 1, workers); }
  }

  lemma PixelAgrees<T(!new), P(!new)>(s: Scene<T, P>, b0: Picture<P>, created: nat, workers: nat, m: Pool<P>,
                                      x: nat, y: nat)
    requires Sized(b0, s.width, s.height) && created <= workers && workers >= 1 && x < s.width && y < s.height
    requires Agrees(s, Shares(s, created, workers), b0, m) && Finished(Shares(s, created, workers), m)
    ensures var left := LeftoverOps(s, 0, created, workers);
            Sized(PaintAll(s, left, m.pic), s.width, s.height) &&
            Sized(PaintAll(s, SerialOps(s), b0), s.width, s.height) &&
            PaintAll(s, left, m.pic)[y][x] == PaintAll(s, SerialOps(s), b0)[y][x]
  {
    hide Layers, Hits, RangeOps, LeftoverOps, SerialOps;
    var lists := Shares(s, created, workers);
    var left := LeftoverOps(s, 0, created, workers);
    PixelAfter(s, left, m.pic, x, y);
    PixelAfter(s, SerialOps(s), b0, x, y);
    SerialHits(s, x, y);
    LeftoverHits(s, 0, created, workers, x, y);
    var w := TileOf(s, x, y) % workers;
    var all := Covering(s, 0, x, y);
    forall i | 0 <= i < |lists| ensures Hits(lists[i], x, y) == if w == i then all else [] {
      ShareHits(s, created, workers, i, x, y);
    }
    NoLayers(s, x, y, m.pic[y][x]);
    NoLayers(s, x, y, b0[y][x]);
    if w < created {
      assert lists[w][..m.pos[w]] == lists[w];
      if !Touches(lists[w], x, y) { assert Untouched(lists, x, y); }
    } else {
      assert Untouched(lists, x, y);
    }
  }

  lemma NoLayers<T(!new), P(!new)>(s: Scene<T, P>, x: nat, y: nat, v: P)
    ensures Layers(s, [], x, y, v) == v
  {
  }

  // ----- the loops -----

  ghost function Pic<P(!new)>(a: array2<P>): (b: Picture<P>)
    reads a
    ensures Sized(b, a.Length1, a.Length0)
    ensures forall x, y :: 0 <= x < a.Length1 && 0 <= y < a.Length0 ==> b[y][x] == a[y, x]
  {
    seq(a.Length0, y requires 0 <= y < a.Length0 reads a =>
      seq(a.Length1, x requires 0 <= x < a.Length1 reads a => a[y, x]))
  }

  lemma RowStep<T>(t: T, y: nat, x: nat, x1: int, below: seq<Op<T>>)
    ensures x > x1 ==> RowOps(t, y, x, x1) + below == below
    ensures x <= x1 ==>
              var ops := RowOps(t, y, x, x1) + below;
              ops != [] && ops[0] == Op(t, x, y) && ops[1..] == RowOps(t, y, x + 1, x1) + below
  {
    if x > x1 { assert [] + below == below; }
  }

  lemma RectStep<T>(t: T, x: nat, y: nat, x1: int, y1: int)
    ensures RectOps(t, x, y, x1, y1) == if y > y1 then [] else RowOps(t, y, x, x1) + RectOps(t, x, y + 1, x1, y1)
  {
  }

  lemma PaintStep<T(!new), P(!new)>(s: Scene<T, P>, ops: seq<Op<T>>, b: Picture<P>)
    ensures PaintAll(s, ops, b) == if ops == [] then b else PaintAll(s, ops[1..], Paint(s, ops[0], b))
  {
  }

  /** The body of the pixel loop. */
  method ShadePixel<T(!new), P(!new)>(s: Scene<T, P>, t: T, px: nat, py: nat, a: array2<P>)
    requires px < a.Length1 && py < a.Length0
    modifies a
    ensures Pic(a) == Paint(s, Op(t, px, py), old(Pic(a)))
  {
    ghost var before := Pic(a);
    a[py, px] := s.shade(t, px, py, a[py, px]);
    SamePicture(Pic(a), Paint(s, Op(t, px, py), before), a.Length1, a.Length0);
  }

  /** One triangle within a region, row by row. */
  method RasterizeTriangle<T(!new), P(!new)>(s: Scene<T, P>, t: T, region: Box, a: array2<P>)
    requires a.Length0 == s.height && a.Length1 == s.width
    modifies a
    ensures Pic(a) == PaintAll(s, TriOps(s, t, region), old(Pic(a)))
  {
    hide PaintAll, Paint, RowOps, RectOps, Pic;
    var c := Clip(s, t, region);
    ghost var before := Pic(a);
    PaintStep(s, [], before);
    if c.minX > c.maxX || c.minY > c.maxY { return; }
    ghost var goal := PaintAll(s, TriOps(s, t, region), before);
    var py := c.minY;
    while py <= c.maxY
      invariant c.minY <= py <= c.maxY + 1
      invariant PaintAll(s, RectOps(t, c.minX, py, c.maxX, c.maxY), Pic(a)) == goal
    {
      ghost var below := RectOps(t, c.minX, py + 1, c.maxX, c.maxY);
      RectStep(t, c.minX, py, c.maxX, c.maxY);
      var px := c.minX;
      while px <= c.maxX
        invariant c.minX <= px <= c.maxX + 1
        invariant PaintAll(s, RowOps(t, py, px, c.maxX) + below, Pic(a)) == goal
      {
        RowStep(t, py, px, c.maxX, below);
        PaintStep(s, RowOps(t, py, px, c.maxX) + below, Pic(a));
        ShadePixel(s, t, px, py, a);
        px := px + 1;
      }
      RowStep(t, py, px, c.maxX, below);
      py := py + 1;
    }
    RectStep(t, c.minX, py, c.maxX, c.maxY);
    PaintStep(s, [], Pic(a));
  }

  /** The tiles of one share, each with the whole list. */
  method RasterizeTileRange<T(!new), P(!new)>(s: Scene<T, P>, first: nat, step: nat, a: array2<P>)
    requires step >= 1 && a.Length0 == s.height && a.Length1 == s.width
    modifies a
    ensures Pic(a) == PaintAll(s, RangeOps(s, first, step), old(Pic(a)))
  {
    hide PaintAll, Pic, TileCount, TilesX, Region, TriOps, RangeOps, ListOps;
    ghost var goal := PaintAll(s, RangeOps(s, first, step), Pic(a));
    var tile := first;
    while tile < TileCount(s)
      invariant PaintAll(s, RangeOps(s, tile, step), Pic(a)) == goal
      decreases TileCount(s) - tile
    {
      Positive(s);
      RangeStep(s, tile, step);
      RasterizeTile(s, Region(s, tile), RangeOps(s, tile + step, step), a);
      tile := tile + step;
    }
    RangeStep(s, tile, step);
    PaintStep(s, [], Pic(a));
  }

  lemma RangeStep<T(!new), P(!new)>(s: Scene<T, P>, tile: nat, step: nat)
    requires step >= 1 && (tile < TileCount(s) ==> TilesX(s) >= 1)
    ensures RangeOps(s, tile, step)
         == if tile >= TileCount(s) then [] else ListOps(s, 0, Region(s, tile)) + RangeOps(s, tile + step, step)
  {
  }

  lemma ListStep<T(!new), P(!new)>(s: Scene<T, P>, i: nat, region: Box)
    requires i <= |s.tris|
    ensures ListOps(s, i, region)
         == if i == |s.tris| then [] else TriOps(s, s.tris[i], region) + ListOps(s, i + 1, region)
  {
  }

  /** Every triangle of the list inside one tile; `rest` is what will be drawn later. */
  method RasterizeTile<T(!new), P(!new)>(s: Scene<T, P>, region: Box, ghost rest: seq<Op<T>>, a: array2<P>)
    requires a.Length0 == s.height && a.Length1 == s.width
    modifies a
    ensures PaintAll(s, rest, Pic(a)) == PaintAll(s, ListOps(s, 0, region) + rest, old(Pic(a)))
  {
    hide PaintAll, Pic, TriOps, ListOps;
    var i := 0;
    while i < |s.tris|
      invariant 0 <= i <= |s.tris|
      invariant PaintAll(s, ListOps(s, i, region) + rest, Pic(a))
                == PaintAll(s, ListOps(s, 0, region) + rest, old(Pic(a)))
    {
      ghost var one, more := TriOps(s, s.tris[i], region), ListOps(s, i + 1, region);
      ListStep(s, i, region);
      assert ListOps(s, i, region) + rest == one + (more + rest);
      PaintAppend(s, one, more + rest, Pic(a));
      RasterizeTriangle(s, s.tris[i], region, a);
      i := i + 1;
    }
    ListStep(s, i, region);
    assert [] + rest == rest;
  }

  /** Without worker threads the calling thread draws every tile. */
  method RasterizeAlone<T(!new), P(!new)>(s: Scene<T, P>, a: array2<P>)
    requires a.Length0 == s.height && a.Length1 == s.width
    modifies a
    ensures Pic(a) == PaintAll(s, SerialOps(s), old(Pic(a)))
  {
    AloneIsSerial(s, Pic(a));
    RasterizeTileRange(s, 0, 1, a);
  }

  lemma LeftoverStep<T(!new), P(!new)>(s: Scene<T, P>, tile: nat, created: nat, workers: nat)
    requires workers >= 1
    ensures tile >= TileCount(s) ==> LeftoverOps(s, tile, created, workers) == []
    ensures tile < TileCount(s) ==>
              var first := if tile % workers < created then [] else RangeOps(s, tile, TileCount(s));
              LeftoverOps(s, tile, created, workers) == first + LeftoverOps(s, tile + 1, created, workers)
  {
  }

  /** What the calling thread does after joining the workers. */
  method RasterizeLeftover<T(!new), P(!new)>(s: Scene<T, P>, created: nat, workers: nat, a: array2<P>)
    requires workers >= 1 && a.Length0 == s.height && a.Length1 == s.width
    modifies a
    ensures Pic(a) == PaintAll(s, LeftoverOps(s, 0, created, workers), old(Pic(a)))
  {
    hide PaintAll, Pic, RangeOps, LeftoverOps, TileCount;
    ghost var goal := PaintAll(s, LeftoverOps(s, 0, created, workers), Pic(a));
    var tile := 0;
    while tile < TileCount(s)
      invariant 0 <= tile <= TileCount(s)
      invariant PaintAll(s, LeftoverOps(s, tile, created, workers), Pic(a)) == goal
    {
      LeftoverStep(s, tile, created, workers);
      if tile % workers >= created {
        PaintAppend(s, RangeOps(s, tile, TileCount(s)), LeftoverOps(s, tile + 1, created, workers), Pic(a));
        RasterizeTileRange(s, tile, TileCount(s), a);
      } else {
        assert [] + LeftoverOps(s, tile + 1, created, workers) == LeftoverOps(s, tile + 1, created, workers);
      }
      tile := tile + 1;
    }
    LeftoverStep(s, tile, created, workers);
    PaintStep(s, [], Pic(a));
  }
}
