/** The integer drawing loops: Bresenham's line, the midpoint circle and the filled disc, on a
    framebuffer that ignores points off the screen. */
module Drawing {
  import Words

  const FB_WIDTH: nat := 800
  const FB_HEIGHT: nat := 600

  datatype Point = Point(x: int, y: int)

  function Abs(v: int): (a: nat)
    ensures a == v || a == -v
  {
    if v < 0 then -v else v
  }

  function Max(a: nat, b: nat): nat { if a > b then a else b }

  function Square(v: int): (s: int)
    ensures s >= 0
  {
    SquarePositive(v);
    v * v
  }

  lemma SquarePositive(v: int)
    ensures v * v >= 0
  {
  }

  // ----- the framebuffer -----

  predicate OnScreen(p: Point) { 0 <= p.x < FB_WIDTH && 0 <= p.y < FB_HEIGHT }

  predicate IsScreen(fb: array2<int>) { fb.Length0 == FB_HEIGHT && fb.Length1 == FB_WIDTH }

  /** Rows of pixels. */
  type Picture = seq<seq<int>>

  ghost predicate Sized(b: Picture) { |b| == FB_HEIGHT && forall y :: 0 <= y < FB_HEIGHT ==> |b[y]| == FB_WIDTH }

  ghost function Pic(fb: array2<int>): (b: Picture)
    requires IsScreen(fb)
    reads fb
    ensures Sized(b) && forall x, y :: 0 <= x < FB_WIDTH && 0 <= y < FB_HEIGHT ==> b[y][x] == fb[y, x]
  {
    seq(FB_HEIGHT, y requires 0 <= y < FB_HEIGHT reads fb =>
      seq(FB_WIDTH, x requires 0 <= x < FB_WIDTH reads fb => fb[y, x]))
  }

  lemma SamePicture(a: Picture, b: Picture)
    requires Sized(a) && Sized(b)
    requires forall x, y :: 0 <= x < FB_WIDTH && 0 <= y < FB_HEIGHT ==> a[y][x] == b[y][x]
    ensures a == b
  {
    forall y | 0 <= y < FB_HEIGHT ensures a[y] == b[y] {
      assert forall x :: 0 <= x < FB_WIDTH ==> a[y][x] == b[y][x];
    }
  }

  ghost function Paint(b: Picture, p: Point, color: int): (c: Picture)
    requires Sized(b)
    ensures Sized(c)
  {
    if OnScreen(p) then b[p.y := b[p.y][p.x := color]] else b
  }

  ghost function PaintAll(b: Picture, s: seq<Point>, color: int): (c: Picture)
    requires Sized(b)
    ensures Sized(c)
    decreases |s|
  {
    if s == [] then b else PaintAll(Paint(b, s[0], color), s[1..], color)
  }

  lemma PaintStep(b: Picture, s: seq<Point>, color: int)
    requires Sized(b)
    ensures PaintAll(b, s, color) == if s == [] then b else PaintAll(Paint(b, s[0], color), s[1..], color)
  {
  }

  lemma {:induction false} PaintAppend(b: Picture, s: seq<Point>, t: seq<Point>, color: int)
    requires Sized(b)
    ensures PaintAll(b, s + t, color) == PaintAll(PaintAll(b, s, color), t, color)
    decreases |s|
  {
    if s == [] {
      assert s + t == t;
    } else {
      assert (s + t)[1..] == s[1..] + t;
      PaintAppend(Paint(b, s[0], color), s[1..], t, color);
    }
  }

  /** A painted pixel is one of the points on the screen; the others are as before. */
  lemma {:induction false} PaintedAt(b: Picture, s: seq<Point>, color: int, x: int, y: int)
    requires Sized(b) && OnScreen(Point(x, y))
    ensures PaintAll(b, s, color)[y][x] == if Point(x, y) in s then color else b[y][x]
    decreases |s|
  {
    if s != [] {
      PaintedAt(Paint(b, s[0], color), s[1..], color, x, y);
      assert s == [s[0]] + s[1..];
    }
  }

  method PutPixel(fb: array2<int>, x: int, y: int, color: int)
    requires IsScreen(fb)
    modifies fb
    ensures forall i, j :: 0 <= i < FB_WIDTH && 0 <= j < FB_HEIGHT ==>
              fb[j, i] == if i == x && j == y then color else old(fb[j, i])
    ensures Pic(fb) == Paint(old(Pic(fb)), Point(x, y), color)
  {
    ghost var goal := Paint(Pic(fb), Point(x, y), color);
    if x < 0 || x >= FB_WIDTH || y < 0 || y >= FB_HEIGHT { return; }
    fb[y, x] := color;
    SamePicture(Pic(fb), goal);
  }

  // ----- lines -----

  /** `k` columns and `j` rows have been walked; `j * dx - k * dy` is how far off the ideal line that
      is, in units of the major extent: at most half a pixel. */
  function Off(dx: nat, dy: nat, k: nat, j: nat): int { j * dx - k * dy }

  predicate Near(dx: nat, dy: nat, k: nat, j: nat) {
    k <= dx && j <= dy && -(Max(dx, dy) as int) <= 2 * Off(dx, dy, k, j) <= Max(dx, dy) && (dx == dy ==> k == j)
  }

  /** `err` as the loop keeps it. */
  function Err(dx: nat, dy: nat, k: nat, j: nat): int { dx - dy + Off(dx, dy, k, j) }

  /** The two tests of the loop, both on the old error. */
  function Next(dx: nat, dy: nat, k: nat, j: nat): (nat, nat) {
    var e2 := 2 * Err(dx, dy, k, j);
    (if e2 > -(dy as int) then k + 1 else k, if e2 < dx then j + 1 else j)
  }

  /** How far the major axis has come. */
  function Major(dx: nat, dy: nat, k: nat, j: nat): nat { if dx >= dy then k else j }

  lemma OffSteps(dx: nat, dy: nat, k: nat, j: nat)
    ensures Off(dx, dy, k + 1, j) == Off(dx, dy, k, j) - dy
    ensures Off(dx, dy, k, j + 1) == Off(dx, dy, k, j) + dx
    ensures Off(dx, dy, k + 1, j + 1) == Off(dx, dy, k, j) - dy + dx
  {
  }

  /** At the end of the major axis the minor one has arrived as well. */
  lemma Arrived(dx: nat, dy: nat, k: nat, j: nat)
    requires Near(dx, dy, k, j) && Major(dx, dy, k, j) == Max(dx, dy)
    ensures k == dx && j == dy
  {
    if dx >= dy {
      if j < dy { Words.MulAtLeast(dx, dy - j); Factor(dx, dy, j); }
    } else {
      if k < dx { Words.MulAtLeast(dy, dx - k); Factor(dy, dx, k); }
    }
  }

  lemma Factor(a: int, b: int, c: int)
    ensures a * (b - c) == a * b - a * c && c * a == a * c && a * b == b * a
  {
  }

  /** One iteration moves the major axis by exactly one and stays within half a pixel. */
  lemma NextNear(dx: nat, dy: nat, k: nat, j: nat)
    requires Near(dx, dy, k, j) && !(k == dx && j == dy)
    ensures var n := Next(dx, dy, k, j);
            Near(dx, dy, n.0, n.1) && Major(dx, dy, n.0, n.1) == Major(dx, dy, k, j) + 1
  {
    hide Off;
    OffSteps(dx, dy, k, j);
    if Major(dx, dy, k, j) == Max(dx, dy) { Arrived(dx, dy, k, j); }
    var n := Next(dx, dy, k, j);
    assert Major(dx, dy, n.0, n.1) == Major(dx, dy, k, j) + 1 by { MajorMoves(dx, dy, k, j); }
    MajorMoves(dx, dy, k, j);
    MinorStays(dx, dy, n.0, n.1);
  }

  lemma MajorMoves(dx: nat, dy: nat, k: nat, j: nat)
    requires Near(dx, dy, k, j) && !(k == dx && j == dy)
    ensures dx >= dy ==> 2 * Err(dx, dy, k, j) > -(dy as int)
    ensures dy >= dx ==> 2 * Err(dx, dy, k, j) < dx
  {
    hide Off;
    if dx == dy { DiagonalOff(dx, k); }
  }

  lemma DiagonalOff(dx: nat, k: nat)
    ensures Off(dx, dx, k, k) == 0
  {
  }

  /** A deviation of at most half a pixel keeps the minor axis inside its extent. */
  lemma MinorStays(dx: nat, dy: nat, k: nat, j: nat)
    requires -(Max(dx, dy) as int) <= 2 * Off(dx, dy, k, j) <= Max(dx, dy)
    requires Major(dx, dy, k, j) <= Max(dx, dy) && Max(dx, dy) >= 1
    ensures k <= dx && j <= dy
  {
    if dx >= dy {
      if j > dy { Words.MulAtLeast(dx, j - dy); Factor(dx, j, dy); MulUp(k, dx, dy); }
    } else {
      if k > dx { Words.MulAtLeast(dy, k - dx); Factor(dy, k, dx); MulUp(j, dy, dx); }
    }
  }

  lemma MulUp(a: nat, b: nat, c: nat)
    requires a <= b
    ensures a * c <= b * c
  {
  }

  /** The points walked from `(k, j)` on. */
  function Walk(dx: nat, dy: nat, k: nat, j: nat): (s: seq<(nat, nat)>)
    requires Near(dx, dy, k, j)
    ensures |s| == Max(dx, dy) - Major(dx, dy, k, j) + 1
    decreases Max(dx, dy) - Major(dx, dy, k, j)
  {
    if k == dx && j == dy then (MajorAtEnd(dx, dy); [(k, j)])
    else
      NextNear(dx, dy, k, j);
      if Major(dx, dy, k, j) == Max(dx, dy) then (Arrived(dx, dy, k, j); [])
      else
        var n := Next(dx, dy, k, j);
        [(k, j)] + Walk(dx, dy, n.0, n.1)
  }

  lemma MajorAtEnd(dx: nat, dy: nat)
    ensures Major(dx, dy, dx, dy) == Max(dx, dy)
  {
  }

  /** Every point of the walk is within half a pixel of the line; the i-th is `i` along the major
      axis; the last is the endpoint. */
  lemma {:induction false} WalkNear(dx: nat, dy: nat, k: nat, j: nat, i: nat)
    requires Near(dx, dy, k, j) && i < |Walk(dx, dy, k, j)|
    ensures var p := Walk(dx, dy, k, j)[i];
            Near(dx, dy, p.0, p.1) && Major(dx, dy, p.0, p.1) == Major(dx, dy, k, j) + i
    ensures i == |Walk(dx, dy, k, j)| - 1 ==> Walk(dx, dy, k, j)[i] == (dx, dy)
    decreases i
  {
    hide Near, Next;
    if k == dx && j == dy {
      MajorAtEnd(dx, dy);
    } else {
      NextNear(dx, dy, k, j);
      if Major(dx, dy, k, j) == Max(dx, dy) { Arrived(dx, dy, k, j); }
      var n := Next(dx, dy, k, j);
      if i > 0 { WalkNear(dx, dy, n.0, n.1, i - 1); }
    }
  }

  lemma StartNear(dx: nat, dy: nat)
    ensures Near(dx, dy, 0, 0)
  {
  }

  function Sign(from: int, to: int): int { if from < to then 1 else -1 }

  function Place(x1: int, y1: int, sx: int, sy: int, w: seq<(nat, nat)>): (s: seq<Point>)
    ensures |s| == |w|
  {
    seq(|w|, i requires 0 <= i < |w| => Point(x1 + sx * w[i].0, y1 + sy * w[i].1))
  }

  /** The points plotted from `(x1, y1)` to `(x2, y2)`. */
  function Line(x1: int, y1: int, x2: int, y2: int): (s: seq<Point>)
    ensures |s| == Max(Abs(x2 - x1), Abs(y2 - y1)) + 1
  {
    var dx, dy := Abs(x2 - x1), Abs(y2 - y1);
    StartNear(dx, dy);
    Place(x1, y1, Sign(x1, x2), Sign(y1, y2), Walk(dx, dy, 0, 0))
  }

  /** A line begins and ends at its two points, visits one pixel per step of the longer axis, and
      every pixel is within half a pixel of the ideal line through the endpoints. */
  lemma LineShape(x1: int, y1: int, x2: int, y2: int, i: nat)
    requires i < |Line(x1, y1, x2, y2)|
    ensures var s, dx, dy := Line(x1, y1, x2, y2), Abs(x2 - x1), Abs(y2 - y1);
            (i == 0 ==> s[i] == Point(x1, y1)) && (i == |s| - 1 ==> s[i] == Point(x2, y2)) &&
            Abs(if dx >= dy then s[i].x - x1 else s[i].y - y1) == i &&
            2 * Abs((s[i].y - y1) * (x2 - x1) - (s[i].x - x1) * (y2 - y1)) <= Max(dx, dy)
  {
    hide Near, Walk, Off;
    var dx, dy := Abs(x2 - x1), Abs(y2 - y1);
    StartNear(dx, dy);
    WalkNear(dx, dy, 0, 0, i);
    if i == 0 { FirstStep(dx, dy); }
    var p := Walk(dx, dy, 0, 0)[i];
    NearBound(dx, dy, p.0, p.1);
    SignedExtent(x1, x2);
    SignedExtent(y1, y2);
    SignedOff(dx, dy, Sign(x1, x2), Sign(y1, y2), p.0, p.1, x2 - x1, y2 - y1);
  }

  lemma NearBound(dx: nat, dy: nat, k: nat, j: nat)
    requires Near(dx, dy, k, j)
    ensures 2 * Abs(Off(dx, dy, k, j)) <= Max(dx, dy)
  {
    hide Off;
  }

  lemma FirstStep(dx: nat, dy: nat)
    requires Near(dx, dy, 0, 0)
    ensures Walk(dx, dy, 0, 0)[0] == (0, 0)
  {
    hide Near;
    NextNear0(dx, dy);
  }

  lemma NextNear0(dx: nat, dy: nat)
    requires Near(dx, dy, 0, 0)
    ensures Major(dx, dy, 0, 0) == Max(dx, dy) ==> dx == 0 && dy == 0
  {
  }

  lemma SignedExtent(from: int, to: int)
    ensures from != to ==> Sign(from, to) * Abs(to - from) == to - from
    ensures Sign(from, to) == 1 || Sign(from, to) == -1
  {
  }

  lemma SignMul(s: int, a: int, t: int, b: int)
    requires (s == 1 || s == -1) && (t == 1 || t == -1)
    ensures (s * a) * (t * b) == if s == t then a * b else -(a * b)
  {
    Negate(a, b);
    Negate(-a, b);
    assert s * a == (if s == 1 then a else -a) && t * b == if t == 1 then b else -b;
  }

  lemma Negate(a: int, b: int)
    ensures (-a) * b == -(a * b) && a * -b == -(a * b)
  {
  }

  lemma SignedOff(dx: nat, dy: nat, sx: int, sy: int, k: nat, j: nat, ex: int, ey: int)
    requires (sx == 1 || sx == -1) && (sy == 1 || sy == -1) && ex == sx * dx && ey == sy * dy
    ensures Abs((sy * j) * ex - (sx * k) * ey) == Abs(Off(dx, dy, k, j))
  {
    SignMul(sy, j, sx, dx);
    SignMul(sx, k, sy, dy);
  }

  /** The drawing loop: it ends, at the endpoint, having plotted exactly the points of `Line`. */
  method DrawLine(fb: array2<int>, x1: int, y1: int, x2: int, y2: int, color: int)
    requires IsScreen(fb)
    modifies fb
    ensures Pic(fb) == PaintAll(old(Pic(fb)), Line(x1, y1, x2, y2), color)
    ensures forall i, j :: 0 <= i < FB_WIDTH && 0 <= j < FB_HEIGHT ==>
              fb[j, i] == if Point(i, j) in Line(x1, y1, x2, y2) then color else old(fb[j, i])
  {
    hide Near, Walk, PaintAll, Paint, Off, Place, Next;
    var dx, dy := Abs(x2 - x1), Abs(y2 - y1);
    var sx, sy := Sign(x1, x2), Sign(y1, y2);
    var err: int := dx as int - dy;
    var x, y := x1, y1;
    ghost var k: nat, j: nat := 0, 0;
    ghost var before := Pic(fb);
    ghost var goal := PaintAll(before, Line(x1, y1, x2, y2), color);
    StartNear(dx, dy);
    assert Off(dx, dy, 0, 0) == 0 by { FlatOff(dx, dy); }
    while true
      invariant Near(dx, dy, k, j) && err == Err(dx, dy, k, j)
      invariant x == x1 + sx * k && y == y1 + sy * j
      invariant PaintAll(Pic(fb), Place(x1, y1, sx, sy, Walk(dx, dy, k, j)), color) == goal
      decreases |Walk(dx, dy, k, j)|
    {
      HeadOfWalk(dx, dy, k, j);
      NearInside(dx, dy, k, j);
      ghost var w := Walk(dx, dy, k, j);
      PlaceStep(x1, y1, sx, sy, w);
      PaintStep(Pic(fb), Place(x1, y1, sx, sy, w), color);
      PutPixel(fb, x, y, color);
      EndTest(x1, x2, k);
      EndTest(y1, y2, j);
      if x == x2 && y == y2 {
        PaintStep(Pic(fb), [], color);
        break;
      }
      NextErr(dx, dy, k, j);
      ghost var n := Next(dx, dy, k, j);
      SignStep(sx, k);
      SignStep(sy, j);
      var e2 := 2 * err;
      if e2 > -(dy as int) { err := err - dy; x := x + sx; }
      if e2 < dx { err := err + dx; y := y + sy; }
      k, j := n.0, n.1;
    }
    forall i, j | 0 <= i < FB_WIDTH && 0 <= j < FB_HEIGHT
      ensures fb[j, i] == if Point(i, j) in Line(x1, y1, x2, y2) then color else before[j][i]
    {
      PaintedAt(before, Line(x1, y1, x2, y2), color, i, j);
      assert Pic(fb)[j][i] == fb[j, i];
    }
  }

  lemma NearInside(dx: nat, dy: nat, k: nat, j: nat)
    requires Near(dx, dy, k, j)
    ensures k <= dx && j <= dy
  {
  }

  lemma FlatOff(dx: nat, dy: nat)
    ensures Off(dx, dy, 0, 0) == 0
  {
  }

  lemma SignStep(s: int, k: nat)
    ensures s * (k + 1) == s * k + s
  {
  }

  lemma PlaceStep(x1: int, y1: int, sx: int, sy: int, w: seq<(nat, nat)>)
    requires w != []
    ensures Place(x1, y1, sx, sy, w)[0] == Point(x1 + sx * w[0].0, y1 + sy * w[0].1)
    ensures Place(x1, y1, sx, sy, w)[1..] == Place(x1, y1, sx, sy, w[1..])
    ensures |w| == 1 ==> Place(x1, y1, sx, sy, w)[1..] == []
  {
  }

  /** The loop's error variable after the two tests. */
  lemma NextErr(dx: nat, dy: nat, k: nat, j: nat)
    ensures var n, e2 := Next(dx, dy, k, j), 2 * Err(dx, dy, k, j);
            n.0 == (if e2 > -(dy as int) then k + 1 else k) && n.1 == (if e2 < dx then j + 1 else j) &&
            Err(dx, dy, n.0, n.1)
            == Err(dx, dy, k, j) - (if e2 > -(dy as int) then dy else 0) + (if e2 < dx then dx else 0)
  {
    hide Off;
    OffSteps(dx, dy, k, j);
  }

  lemma HeadOfWalk(dx: nat, dy: nat, k: nat, j: nat)
    requires Near(dx, dy, k, j)
    ensures Walk(dx, dy, k, j) != [] && Walk(dx, dy, k, j)[0] == (k, j)
    ensures var n := Next(dx, dy, k, j);
            if k == dx && j == dy then Walk(dx, dy, k, j) == [(k, j)]
            else Near(dx, dy, n.0, n.1) && Walk(dx, dy, k, j) == [(k, j)] + Walk(dx, dy, n.0, n.1) &&
                 Walk(dx, dy, k, j)[1..] == Walk(dx, dy, n.0, n.1)
  {
    hide Near, Next;
    if !(k == dx && j == dy) {
      NextNear(dx, dy, k, j);
      if Major(dx, dy, k, j) == Max(dx, dy) { Arrived(dx, dy, k, j); }
    } else {
      MajorAtEnd(dx, dy);
    }
  }

  lemma EndTest(from: int, to: int, k: nat)
    requires k <= Abs(to - from)
    ensures from + Sign(from, to) * k == to <==> k == Abs(to - from)
  {
  }

  // ----- circles -----

  /** How far a point is off the circle, in squared distance. */
  function Miss(px: int, py: int, r: int): int { Square(px) + Square(py) - Square(r) }

  /** The decision variable in closed form. */
  function Decision(px: int, py: int, r: int): int {
    2 * Square(px + 1) + Square(py) + Square(py - 1) - 2 * Square(r)
  }

  function Next8(px: int, py: int, r: int): (int, int) {
    (px + 1, if Decision(px, py, r) < 0 then py else py - 1)
  }

  lemma SquareNext(v: int)
    ensures Square(v + 1) == Square(v) + 2 * v + 1 && Square(v - 1) == Square(v) - 2 * v + 1
  {
  }

  lemma DecisionSteps(px: int, py: int, r: int)
    ensures Decision(px + 1, py, r) == Decision(px, py, r) + 4 * px + 6
    ensures Decision(px + 1, py - 1, r) == Decision(px, py, r) + 4 * (px - py) + 10
  {
    hide Square;
    SquareNext(px + 1);
    SquareNext(py);
    SquareNext(py - 1);
  }

  /** A point of the octant within half a pixel's band stays so after a step. */
  lemma MissStep(px: int, py: int, r: int)
    requires 0 <= px <= py && -py <= Miss(px, py, r) <= py
    ensures var n := Next8(px, py, r); n.0 <= n.1 ==> -n.1 <= Miss(n.0, n.1, r) <= n.1
  {
    hide Square;
    SquareNext(px);
    SquareNext(py);
  }

  /** The octant points from `(px, py)` on. */
  function Octant(px: int, py: int, r: int): (s: seq<(int, int)>)
    decreases py - px + 1
  {
    if px > py then [] else [(px, py)] + Octant(Next8(px, py, r).0, Next8(px, py, r).1, r)
  }

  /** Every octant point misses the circle by at most its larger coordinate: it is the nearest
      pixel of its column. */
  lemma {:induction false} OctantClose(px: int, py: int, r: int, i: nat)
    requires 0 <= px && (px <= py ==> -py <= Miss(px, py, r) <= py) && i < |Octant(px, py, r)|
    ensures var p := Octant(px, py, r)[i]; p.0 == px + i && 0 <= p.0 <= p.1 && -p.1 <= Miss(p.0, p.1, r) <= p.1
    decreases i
  {
    hide Miss, Decision;
    if i > 0 {
      MissStep(px, py, r);
      var n := Next8(px, py, r);
      OctantClose(n.0, n.1, r, i - 1);
    }
  }

  /** A plotted point is one of the eight mirror images of an octant point. */
  predicate Mirrored(dx: int, dy: int, p: (int, int)) {
    (Abs(dx) == p.0 && Abs(dy) == p.1) || (Abs(dx) == p.1 && Abs(dy) == p.0)
  }

  predicate OnCircle(x: int, y: int, cx: int, cy: int, s: seq<(int, int)>) {
    exists i :: 0 <= i < |s| && Mirrored(x - cx, y - cy, s[i])
  }

  /** The eight pixels written for an octant point. */
  function Mirrors(cx: int, cy: int, p: (int, int)): (s: seq<Point>)
    ensures |s| == 8
  {
    var (px, py) := p;
    [Point(cx + px, cy + py), Point(cx - px, cy + py), Point(cx + px, cy - py), Point(cx - px, cy - py),
     Point(cx + py, cy + px), Point(cx - py, cy + px), Point(cx + py, cy - px), Point(cx - py, cy - px)]
  }

  function CirclePoints(cx: int, cy: int, s: seq<(int, int)>): (t: seq<Point>)
    ensures |t| == 8 * |s|
  {
    if s == [] then [] else Mirrors(cx, cy, s[0]) + CirclePoints(cx, cy, s[1..])
  }

  lemma MirrorsExact(cx: int, cy: int, p: (int, int), x: int, y: int)
    requires p.0 >= 0 && p.1 >= 0
    ensures Point(x, y) in Mirrors(cx, cy, p) <==> Mirrored(x - cx, y - cy, p)
  {
  }

  /** The pixels written are exactly the mirror images of the octant points. */
  lemma {:induction false} CircleExact(cx: int, cy: int, s: seq<(int, int)>, x: int, y: int)
    requires forall i :: 0 <= i < |s| ==> s[i].0 >= 0 && s[i].1 >= 0
    ensures Point(x, y) in CirclePoints(cx, cy, s) <==> OnCircle(x, y, cx, cy, s)
    decreases |s|
  {
    hide Mirrors, Mirrored;
    if s != [] {
      MirrorsExact(cx, cy, s[0], x, y);
      CircleExact(cx, cy, s[1..], x, y);
      assert s == [s[0]] + s[1..];
      OneFirst(x, y, cx, cy, s);
    }
  }

  lemma OneFirst(x: int, y: int, cx: int, cy: int, s: seq<(int, int)>)
    requires s != []
    ensures OnCircle(x, y, cx, cy, s) <==> Mirrored(x - cx, y - cy, s[0]) || OnCircle(x, y, cx, cy, s[1..])
  {
    hide Mirrored;
    if OnCircle(x, y, cx, cy, s) {
      var i :| 0 <= i < |s| && Mirrored(x - cx, y - cy, s[i]);
      if i > 0 { assert s[1..][i - 1] == s[i]; }
    }
    if OnCircle(x, y, cx, cy, s[1..]) {
      var i :| 0 <= i < |s[1..]| && Mirrored(x - cx, y - cy, s[1..][i]);
      assert s[i + 1] == s[1..][i];
    }
  }

  method Plot8(fb: array2<int>, cx: int, cy: int, px: int, py: int, color: int)
    requires IsScreen(fb)
    modifies fb
    ensures Pic(fb) == PaintAll(old(Pic(fb)), Mirrors(cx, cy, (px, py)), color)
  {
    hide Paint, PaintAll;
    ghost var m := Mirrors(cx, cy, (px, py));
    ghost var b := Pic(fb);
    assert m[..0] == [] && m[..8] == m;
    PaintStep(b, [], color);
    PutPixel(fb, cx + px, cy + py, color);
    PaintOne(b, m, 0, color);
    PutPixel(fb, cx - px, cy + py, color);
    PaintOne(b, m, 1, color);
    PutPixel(fb, cx + px, cy - py, color);
    PaintOne(b, m, 2, color);
    PutPixel(fb, cx - px, cy - py, color);
    PaintOne(b, m, 3, color);
    PutPixel(fb, cx + py, cy + px, color);
    PaintOne(b, m, 4, color);
    PutPixel(fb, cx - py, cy + px, color);
    PaintOne(b, m, 5, color);
    PutPixel(fb, cx + py, cy - px, color);
    PaintOne(b, m, 6, color);
    PutPixel(fb, cx - py, cy - px, color);
    PaintOne(b, m, 7, color);
  }

  lemma PaintOne(b: Picture, s: seq<Point>, k: nat, color: int)
    requires Sized(b) && k < |s|
    ensures PaintAll(b, s[..k + 1], color) == Paint(PaintAll(b, s[..k], color), s[k], color)
  {
    assert s[..k + 1] == s[..k] + [s[k]];
    PaintAppend(b, s[..k], [s[k]], color);
    PaintStep(PaintAll(b, s[..k], color), [s[k]], color);
    assert [s[k]][1..] == [];
  }

  lemma CircleStep(cx: int, cy: int, px: int, py: int, r: int)
    ensures px > py ==> CirclePoints(cx, cy, Octant(px, py, r)) == []
    ensures px <= py ==>
              var n := Next8(px, py, r);
              CirclePoints(cx, cy, Octant(px, py, r))
              == Mirrors(cx, cy, (px, py)) + CirclePoints(cx, cy, Octant(n.0, n.1, r))
  {
    if px <= py {
      assert Octant(px, py, r)[0] == (px, py);
      assert Octant(px, py, r)[1..] == Octant(Next8(px, py, r).0, Next8(px, py, r).1, r);
    }
  }

  /** The midpoint loop keeps its decision variable in closed form and plots the mirror images of
      the octant points, nothing else. */
  method DrawCircle(fb: array2<int>, cx: int, cy: int, r: nat, color: int)
    requires IsScreen(fb)
    modifies fb
    ensures Pic(fb) == PaintAll(old(Pic(fb)), CirclePoints(cx, cy, Octant(0, r, r)), color)
    ensures forall i, j :: 0 <= i < FB_WIDTH && 0 <= j < FB_HEIGHT ==>
              fb[j, i] == if OnCircle(i, j, cx, cy, Octant(0, r, r)) then color else old(fb[j, i])
  {
    hide Octant, Decision, Mirrors, CirclePoints, PaintAll, OnCircle;
    var px, py := 0, r as int;
    var d: int := 3 - 2 * r;
    ghost var before := Pic(fb);
    ghost var points := CirclePoints(cx, cy, Octant(0, r, r));
    StartDecision(r);
    while px <= py
      invariant 0 <= px && d == Decision(px, py, r)
      invariant PaintAll(Pic(fb), CirclePoints(cx, cy, Octant(px, py, r)), color) == PaintAll(before, points, color)
      decreases py - px + 1
    {
      CircleStep(cx, cy, px, py, r);
      ghost var n := Next8(px, py, r);
      PaintAppend(Pic(fb), Mirrors(cx, cy, (px, py)), CirclePoints(cx, cy, Octant(n.0, n.1, r)), color);
      Plot8(fb, cx, cy, px, py, color);
      DecisionSteps(px, py, r);
      if d < 0 {
        d := d + 4 * px + 6;
      } else {
        d := d + 4 * (px - py) + 10;
        py := py - 1;
      }
      px := px + 1;
    }
    CircleStep(cx, cy, px, py, r);
    PaintStep(Pic(fb), [], color);
    forall i, j | 0 <= i < FB_WIDTH && 0 <= j < FB_HEIGHT
      ensures fb[j, i] == if OnCircle(i, j, cx, cy, Octant(0, r, r)) then color else before[j][i]
    {
      PaintedAt(before, points, color, i, j);
      OctantPositive(r);
      CircleExact(cx, cy, Octant(0, r, r), i, j);
      assert Pic(fb)[j][i] == fb[j, i];
    }
  }

  lemma OctantPositive(r: nat)
    ensures forall i :: 0 <= i < |Octant(0, r, r)| ==> Octant(0, r, r)[i].0 >= 0 && Octant(0, r, r)[i].1 >= 0
  {
    hide Octant, Miss;
    StartDecision(r);
    forall i | 0 <= i < |Octant(0, r, r)| ensures Octant(0, r, r)[i].0 >= 0 && Octant(0, r, r)[i].1 >= 0 {
      OctantClose(0, r, r, i);
    }
  }

  lemma StartDecision(r: nat)
    ensures Decision(0, r, r) == 3 - 2 * r && Miss(0, r, r) == 0
  {
    SquareNext(r);
  }

  /** The plotted pixels of a circle miss it by at most their larger coordinate. */
  lemma CircleClose(x: int, y: int, cx: int, cy: int, r: nat)
    requires OnCircle(x, y, cx, cy, Octant(0, r, r))
    ensures Abs(Miss(x - cx, y - cy, r)) <= Max(Abs(x - cx), Abs(y - cy))
  {
    hide Miss, Octant;
    var s := Octant(0, r, r);
    var i :| 0 <= i < |s| && Mirrored(x - cx, y - cy, s[i]);
    StartDecision(r);
    OctantClose(0, r, r, i);
    MirrorMiss(x - cx, y - cy, s[i], r);
  }

  lemma MirrorMiss(dx: int, dy: int, p: (int, int), r: int)
    requires Mirrored(dx, dy, p)
    ensures Miss(dx, dy, r) == Miss(p.0, p.1, r)
  {
    SquareAbs(dx);
    SquareAbs(dy);
  }

  lemma SquareAbs(v: int)
    ensures Square(Abs(v)) == Square(v)
  {
  }

  lemma OctantStep(px: int, py: int, r: int)
    ensures |Octant(px, py, r)|
         == if px > py then 0 else 1 + |Octant(Next8(px, py, r).0, Next8(px, py, r).1, r)|
  {
  }

  /** The octant is walked in at most `r` columns, for any radius above one. */
  lemma OctantShort(r: nat)
    requires r >= 2
    ensures |Octant(0, r, r)| <= r
  {
    hide Octant;
    var s := Octant(0, r, r);
    StartDecision(r);
    if |s| > r {
      OctantClose(0, r, r, r);
      var p := s[r];
      SquareMonotone(r, p.1);
      assert Square(p.1) - p.1 >= Square(r) - r by { BelowSquare(r, p.1); }
      SquareAtLeast(r);
    }
  }

  lemma SquareAtLeast(r: nat)
    requires r >= 2
    ensures Square(r) >= 2 * r
  {
  }

  lemma BelowSquare(a: nat, b: nat)
    requires a <= b
    ensures Square(b) - b >= Square(a) - a
    decreases b - a
  {
    if a < b {
      BelowSquare(a, b - 1);
      SquareNext(b);
    }
  }

  // ----- discs -----

  predicate InDisc(dx: int, dy: int, r: int) { Square(dx) + Square(dy) <= Square(r) }

  lemma SquareMonotone(a: int, b: int)
    requires Abs(a) <= Abs(b)
    ensures Square(a) <= Square(b)
  {
    SquareAbs(a);
    SquareAbs(b);
    MulUp(Abs(a), Abs(b), Abs(a));
    MulUp(Abs(a), Abs(b), Abs(b));
  }

  /** The search for the half-width of one row. */
  method HalfWidth(dy: int, r: nat) returns (w: nat)
    requires -(r as int) <= dy <= r
    ensures forall dx :: InDisc(dx, dy, r) <==> -(w as int) <= dx <= w
  {
    var dx := 0;
    SquareMonotone(dy, r);
    while Square(dx) + Square(dy) <= Square(r)
      invariant 0 <= dx <= r + 1 && (dx > 0 ==> InDisc(dx - 1, dy, r)) && (dx == 0 ==> Square(dy) <= Square(r))
      decreases r + 1 - dx
    {
      if dx == r + 1 { SquareNext(r); assert false; }
      dx := dx + 1;
    }
    assert dx > 0;
    w := dx - 1;
    forall x ensures InDisc(x, dy, r) <==> -(w as int) <= x <= w {
      if Abs(x) <= w { SquareMonotone(x, w); } else { SquareMonotone(w + 1, x); }
    }
  }

  /** The disc's rows above row `dy`. */
  predicate Above(i: int, j: int, cx: int, cy: int, r: nat, dy: int) { InDisc(i - cx, j - cy, r) && j - cy < dy }

  /** Exactly the integer points of the disc that are on the screen are painted. */
  method FillCircle(fb: array2<int>, cx: int, cy: int, r: nat, color: int)
    requires IsScreen(fb)
    modifies fb
    ensures forall i, j :: 0 <= i < FB_WIDTH && 0 <= j < FB_HEIGHT ==>
              fb[j, i] == if InDisc(i - cx, j - cy, r) then color else old(fb[j, i])
  {
    hide InDisc, Above;
    var dy: int := -(r as int);
    RowsAbove(cx, cy, r, dy);
    while dy <= r
      invariant -(r as int) <= dy <= r + 1
      invariant forall i, j :: 0 <= i < FB_WIDTH && 0 <= j < FB_HEIGHT ==>
                  fb[j, i] == if Above(i, j, cx, cy, r, dy) then color else old(fb[j, i])
    {
      var w := HalfWidth(dy, r);
      NextRow(cx, cy, r, dy, w);
      FillRow(fb, cx - w, cx + w, cy + dy, color);
      dy := dy + 1;
    }
    RowsAbove(cx, cy, r, dy);
  }

  lemma NextRow(cx: int, cy: int, r: nat, dy: int, w: nat)
    requires forall dx :: InDisc(dx, dy, r) <==> -(w as int) <= dx <= w
    ensures forall i, j :: Above(i, j, cx, cy, r, dy + 1)
                      <==> Above(i, j, cx, cy, r, dy) || (j == cy + dy && cx - w <= i <= cx + w)
  {
    hide InDisc;
    forall i, j ensures Above(i, j, cx, cy, r, dy + 1)
                   <==> Above(i, j, cx, cy, r, dy) || (j == cy + dy && cx - w <= i <= cx + w)
    {
      assert InDisc(i - cx, dy, r) <==> -(w as int) <= i - cx <= w;
    }
  }

  /** Nothing of the disc is above its first row, all of it is above the row after the last. */
  lemma RowsAbove(cx: int, cy: int, r: nat, dy: int)
    ensures dy <= -(r as int) ==> forall i, j :: !Above(i, j, cx, cy, r, dy)
    ensures dy > r ==> forall i, j :: Above(i, j, cx, cy, r, dy) <==> InDisc(i - cx, j - cy, r)
  {
    hide InDisc;
    forall i, j
      ensures dy <= -(r as int) ==> !Above(i, j, cx, cy, r, dy)
      ensures dy > r ==> (Above(i, j, cx, cy, r, dy) <==> InDisc(i - cx, j - cy, r))
    {
      if Abs(j - cy) > r { OutsideDisc(i - cx, j - cy, r); }
    }
  }

  lemma OutsideDisc(dx: int, dy: int, r: nat)
    requires Abs(dy) > r
    ensures !InDisc(dx, dy, r)
  {
    SquareMonotone(r + 1, dy);
    SquareNext(r);
  }

  method FillRow(fb: array2<int>, x0: int, x1: int, y: int, color: int)
    requires IsScreen(fb)
    modifies fb
    ensures forall i, j :: 0 <= i < FB_WIDTH && 0 <= j < FB_HEIGHT ==>
              fb[j, i] == if j == y && x0 <= i <= x1 then color else old(fb[j, i])
  {
    var x := x0;
    while x <= x1
      invariant x0 <= x && (x <= x1 + 1 || x == x0)
      invariant forall i, j :: 0 <= i < FB_WIDTH && 0 <= j < FB_HEIGHT ==>
                  fb[j, i] == if j == y && x0 <= i < x then color else old(fb[j, i])
      decreases x1 - x
    {
      PutPixel(fb, x, y, color);
      x := x + 1;
    }
  }

  // ----- rectangles -----

  predicate InRect(i: int, j: int, x: int, y: int, w: int, h: int) { x <= i < x + w && y <= j < y + h }

  /** Row after row, each from left to right. */
  method DrawRect(fb: array2<int>, x: int, y: int, w: int, h: int, color: int)
    requires IsScreen(fb)
    modifies fb
    ensures forall i, j :: 0 <= i < FB_WIDTH && 0 <= j < FB_HEIGHT ==>
              fb[j, i] == if InRect(i, j, x, y, w, h) then color else old(fb[j, i])
  {
    var dy := 0;
    while dy < h
      invariant 0 <= dy && (dy <= h || dy == 0)
      invariant forall i, j :: 0 <= i < FB_WIDTH && 0 <= j < FB_HEIGHT ==>
                  fb[j, i] == if InRect(i, j, x, y, w, dy) then color else old(fb[j, i])
    {
      FillRow(fb, x, x + w - 1, y + dy, color);
      dy := dy + 1;
    }
  }

  function RowOf(x: int, y: int, w: nat): set<Point> {
    if w == 0 then {} else RowOf(x, y, w - 1) + {Point(x + w - 1, y)}
  }

  function Rectangle(x: int, y: int, w: nat, h: nat): set<Point> {
    if h == 0 then {} else Rectangle(x, y, w, h - 1) + RowOf(x, y + h - 1, w)
  }

  lemma {:induction false} RowPoints(x: int, y: int, w: nat, p: Point)
    ensures p in RowOf(x, y, w) <==> x <= p.x < x + w && p.y == y
  {
    if w > 0 { RowPoints(x, y, w - 1, p); }
  }

  lemma {:induction false} RowSize(x: int, y: int, w: nat)
    ensures |RowOf(x, y, w)| == w
  {
    if w > 0 {
      RowSize(x, y, w - 1);
      RowPoints(x, y, w - 1, Point(x + w - 1, y));
    }
  }

  /** The points a rectangle covers. */
  lemma {:induction false} RectanglePoints(x: int, y: int, w: nat, h: nat, p: Point)
    ensures p in Rectangle(x, y, w, h) <==> InRect(p.x, p.y, x, y, w, h)
  {
    hide RowOf;
    if h > 0 {
      RectanglePoints(x, y, w, h - 1, p);
      RowPoints(x, y + h - 1, w, p);
    }
  }

  lemma RowApart(x: int, y: int, w: nat, h: nat)
    ensures Rectangle(x, y, w, h) !! RowOf(x, y + h, w)
  {
    hide Rectangle, RowOf;
    var above, row := Rectangle(x, y, w, h), RowOf(x, y + h, w);
    forall p | p in above ensures p !in row {
      RectanglePoints(x, y, w, h, p);
      RowPoints(x, y + h, w, p);
    }
  }

  lemma UnionSize(a: set<Point>, b: set<Point>, w: nat, h: nat)
    requires a !! b && |a| == w * h && |b| == w
    ensures |a + b| == w * (h + 1)
  {
  }

  /** And how many there are. */
  lemma {:induction false} RectangleSize(x: int, y: int, w: nat, h: nat)
    ensures |Rectangle(x, y, w, h)| == w * h
  {
    if h > 0 {
      RectangleSize(x, y, w, h - 1);
      RowSize(x, y + h - 1, w);
      RowApart(x, y, w, h - 1);
      UnionSize(Rectangle(x, y, w, h - 1), RowOf(x, y + h - 1, w), w, h - 1);
    }
  }
}
