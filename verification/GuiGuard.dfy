/** The guard in front of the drawing calls: an estimate of every request, budgets per process, and
    quarantine after three faults. */
module GuiGuard {
  import opened Drawing
  import Machine

  const FAULT_LIMIT: nat := 3
  const MAX_OPS: nat := 4096
  const MAX_PIXELS: nat := FB_WIDTH * FB_HEIGHT * 4

  datatype Request = Request(cmd: int, x: int, y: int, w: int, h: int)

  datatype Verdict = Admitted(pixels: nat) | Disabled | Invalid | Budget

  predicate Reasonable(v: int, limit: nat) { -(limit as int) <= v <= limit }

  /** The estimate for a request; None when it is refused outright. */
  function Estimate(q: Request): (r: Machine.Option<nat>) {
    match q.cmd
    case 0 => Machine.Some(FB_WIDTH * FB_HEIGHT)
    case 1 => if OnScreen(Point(q.x, q.y)) then Machine.Some(1) else Machine.None
    case 2 =>
      if Reasonable(q.x, FB_WIDTH) && Reasonable(q.y, FB_HEIGHT) && Reasonable(q.w, FB_WIDTH) &&
         Reasonable(q.h, FB_HEIGHT)
      then Machine.Some(Max(Abs(q.w - q.x), Abs(q.h - q.y)) + 1) else Machine.None
    case 3 =>
      if Reasonable(q.x, FB_WIDTH) && Reasonable(q.y, FB_HEIGHT) && 0 < q.w <= FB_WIDTH && 0 < q.h <= FB_HEIGHT
      then Machine.Some(Area(q.w, q.h)) else Machine.None
    case 4 =>
      if Reasonable(q.x, FB_WIDTH) && Reasonable(q.y, FB_HEIGHT) && 0 < q.w <= FB_WIDTH
      then Machine.Some(Area(q.w, q.w)) else Machine.None
    case _ => Machine.None
  }

  function Area(w: nat, h: nat): nat { w * h }

  /** A line is charged exactly the pixels its loop plots. */
  lemma LineCharge(q: Request)
    requires q.cmd == 2 && Estimate(q).Some?
    ensures Estimate(q).value == |Line(q.x, q.y, q.w, q.h)|
  {
  }

  /** The points a clear, a pixel and a filled rectangle write, on the screen or off it. */
  function Covered(q: Request): set<Point> {
    if q.cmd == 0 then Rectangle(0, 0, 800, 600)
    else if q.cmd == 1 then {Point(q.x, q.y)}
    else if q.cmd == 3 && q.w > 0 && q.h > 0 then Rectangle(q.x, q.y, q.w, q.h)
    else {}
  }

  /** They are charged exactly those. */
  lemma AreaCharge(q: Request)
    requires (q.cmd == 0 || q.cmd == 1 || q.cmd == 3) && Estimate(q).Some?
    ensures Estimate(q).value == |Covered(q)|
  {
    hide Rectangle;
    if q.cmd == 0 {
      RectangleSize(0, 0, 800, 600);
    } else if q.cmd == 3 {
      RectangleSize(q.x, q.y, q.w, q.h);
    }
  }

  /** What is drawn at all: a command that exists, a pixel on the screen, other figures with coordinates no
      further off than the screen is large and with a positive size no larger than it. */
  lemma Drawable(q: Request)
    ensures Estimate(q).Some?
       <==> q.cmd == 0 || (q.cmd == 1 && 0 <= q.x < 800 && 0 <= q.y < 600) ||
            (2 <= q.cmd <= 4 && -800 <= q.x <= 800 && -600 <= q.y <= 600 &&
             (q.cmd == 2 ==> -800 <= q.w <= 800 && -600 <= q.h <= 600) &&
             (q.cmd == 3 ==> 0 < q.w <= 800 && 0 < q.h <= 600) &&
             (q.cmd == 4 ==> 0 < q.w <= 800))
  {
    hide Area;
  }

  /** A request is admitted exactly when it is drawable, fewer than three faults and fewer than 4096 operations
      are on the account, and four screens of pixels are not exceeded. */
  lemma AdmittedExact(a: Account, q: Request)
    requires Within(a)
    ensures Charge(a, q).1.Admitted?
       <==> a.faults < 3 && Estimate(q).Some? && a.ops < 4096 && a.pixels + Estimate(q).value <= 1_920_000
    ensures Charge(a, q).1.Admitted? ==>
              Charge(a, q) == (Account(a.faults, a.ops + 1, a.pixels + Estimate(q).value), Admitted(Estimate(q).value))
  {
    AreaBound(q);
  }

  lemma Scale(a: nat, r: nat)
    requires a <= r
    ensures a * r <= Area(r, r)
  {
  }

  /** A circle is charged the square of its radius, which covers the pixel writes of its loop exactly
      from radius seven on. */
  lemma CircleCharge(q: Request)
    requires q.cmd == 4 && Estimate(q).Some?
    ensures |CirclePoints(q.x, q.y, Octant(0, q.w, q.w))| <= Estimate(q).value <==> q.w >= 7
  {
    hide Octant, CirclePoints;
    var r := q.w;
    if r >= 8 {
      OctantShort(r);
      Scale(8, r);
    } else if r == 7 {
      Octant7();
    } else if r == 6 {
      Octant6();
    } else if r == 5 {
      Octant5();
    } else if r == 4 {
      Octant4();
    } else if r == 3 {
      Octant3();
    } else if r == 2 {
      Octant2();
    } else {
      Octant1();
    }
  }

  lemma Octant1()
    ensures |Octant(0, 1, 1)| == 1
  {
    hide Octant;
    OctantStep(0, 1, 1);
    OctantStep(1, 0, 1);
  }

  lemma Octant2()
    ensures |Octant(0, 2, 2)| == 2
  {
    hide Octant;
    OctantStep(0, 2, 2);
    OctantStep(1, 2, 2);
    OctantStep(2, 1, 2);
  }

  lemma Octant3()
    ensures |Octant(0, 3, 3)| == 3
  {
    hide Octant;
    OctantStep(0, 3, 3);
    OctantStep(1, 3, 3);
    OctantStep(2, 2, 3);
    OctantStep(3, 1, 3);
  }

  lemma Octant4()
    ensures |Octant(0, 4, 4)| == 4
  {
    hide Octant;
    OctantStep(0, 4, 4);
    OctantStep(1, 4, 4);
    OctantStep(2, 3, 4);
    OctantStep(3, 3, 4);
    OctantStep(4, 2, 4);
  }

  lemma Octant5()
    ensures |Octant(0, 5, 5)| == 4
  {
    hide Octant;
    OctantStep(0, 5, 5);
    OctantStep(1, 5, 5);
    OctantStep(2, 5, 5);
    OctantStep(3, 4, 5);
    OctantStep(4, 3, 5);
  }

  lemma Octant6()
    ensures |Octant(0, 6, 6)| == 5
  {
    hide Octant;
    OctantStep(0, 6, 6);
    OctantStep(1, 6, 6);
    OctantStep(2, 6, 6);
    OctantStep(3, 5, 6);
    OctantStep(4, 4, 6);
    OctantStep(5, 3, 6);
  }

  lemma Octant7()
    ensures |Octant(0, 7, 7)| == 6
  {
    hide Octant;
    OctantStep(0, 7, 7);
    OctantStep(1, 7, 7);
    OctantStep(2, 7, 7);
    OctantStep(3, 6, 7);
    OctantStep(4, 6, 7);
    OctantStep(5, 5, 7);
    OctantStep(6, 4, 7);
  }

  // ----- accounts -----

  /** The guard's fields of a process as a value, to speak of whole runs. */
  datatype Account = Account(faults: nat, ops: nat, pixels: nat)

  predicate Within(a: Account) { a.faults <= FAULT_LIMIT && a.ops <= MAX_OPS && a.pixels <= MAX_PIXELS }

  function Faulted(a: Account): Account { a.(faults := if a.faults < FAULT_LIMIT then a.faults + 1 else a.faults) }

  function ChargePixels(a: Account, n: nat): (Account, Verdict) {
    if a.faults >= FAULT_LIMIT then (a, Disabled)
    else if n > MAX_PIXELS then (Faulted(a), Invalid)
    else if a.ops >= MAX_OPS || a.pixels > MAX_PIXELS - n then (Faulted(a), Budget)
    else (Account(a.faults, a.ops + 1, a.pixels + n), Admitted(n))
  }

  function Charge(a: Account, q: Request): (Account, Verdict) {
    if a.faults >= FAULT_LIMIT then (a, Disabled)
    else
      match Estimate(q)
      case None => (Faulted(a), Invalid)
      case Some(n) => ChargePixels(a, n)
  }

  function Pixels(v: Verdict): nat { if v.Admitted? then v.pixels else 0 }

  /** A run of requests: the account afterwards and the pixels admitted. */
  function ChargeAll(a: Account, qs: seq<Request>): (Account, nat)
    decreases |qs|
  {
    if qs == [] then (a, 0)
    else
      var first := Charge(a, qs[0]);
      var rest := ChargeAll(first.0, qs[1..]);
      (rest.0, Pixels(first.1) + rest.1)
  }

  /** Whatever a process asks for, the pixels admitted stay within its budget, and after the third
      fault nothing is admitted any more. */
  lemma {:induction false} BudgetHolds(a: Account, qs: seq<Request>)
    requires Within(a)
    ensures var r := ChargeAll(a, qs);
            Within(r.0) && a.pixels + r.1 == r.0.pixels && a.faults <= r.0.faults
    ensures a.faults == FAULT_LIMIT ==> ChargeAll(a, qs) == (a, 0)
    decreases |qs|
  {
    if qs != [] { BudgetHolds(Charge(a, qs[0]).0, qs[1..]); }
  }

  /** A refused request costs a fault and nothing else; a quarantined process pays nothing. */
  lemma RefusalCost(a: Account, q: Request)
    requires Within(a) && !Charge(a, q).1.Admitted?
    ensures Charge(a, q).0 == a.(faults := if a.faults < FAULT_LIMIT then a.faults + 1 else a.faults)
    ensures Charge(a, q).1.Disabled? <==> a.faults == FAULT_LIMIT
    ensures Charge(a, q).1.Invalid? ==> Estimate(q).None?
  {
    AreaBound(q);
  }

  /** Every estimate is below the pixel limit, so the limit alone never makes a request invalid. */
  lemma AreaBound(q: Request)
    ensures Estimate(q).Some? ==> Estimate(q).value <= MAX_PIXELS
  {
    if q.cmd == 3 && Estimate(q).Some? {
      AreaMonotone(q.w, q.h, FB_WIDTH, FB_HEIGHT);
    } else if q.cmd == 4 && Estimate(q).Some? {
      AreaMonotone(q.w, q.w, FB_WIDTH, FB_WIDTH);
    }
  }

  lemma AreaMonotone(w: nat, h: nat, w2: nat, h2: nat)
    requires w <= w2 && h <= h2
    ensures Area(w, h) <= Area(w2, h2)
  {
    MulUp(w, w2, h);
    MulUp(h, h2, w2);
  }

  // ----- the guard itself -----

  /** The guard's fields of a process. */
  class Process {
    var enabled: bool
    var faults: nat
    var ops: nat
    var pixels: nat

    ghost predicate Valid()
      reads this
    {
      (enabled <==> faults < FAULT_LIMIT) && Within(Acc())
    }

    ghost function Acc(): Account
      reads this
    {
      Account(faults, ops, pixels)
    }

    constructor ()
      ensures Valid() && Acc() == Account(0, 0, 0)
    {
      enabled, faults, ops, pixels := true, 0, 0, 0;
    }

    method RecordFault()
      requires Valid()
      modifies this
      ensures Valid() && Acc() == Faulted(old(Acc()))
    {
      if faults < FAULT_LIMIT { faults := faults + 1; }
      if faults >= FAULT_LIMIT { enabled := false; }
    }

    method AdmitPixels(n: nat) returns (v: Verdict)
      requires Valid()
      modifies this
      ensures Valid() && (Acc(), v) == ChargePixels(old(Acc()), n)
    {
      if !enabled { return Disabled; }
      if n > MAX_PIXELS { RecordFault(); return Invalid; }
      if ops >= MAX_OPS || pixels > MAX_PIXELS - n { RecordFault(); return Budget; }
      ops := ops + 1;
      pixels := pixels + n;
      return Admitted(n);
    }

    /** Any failure of the second step is reported as an exhausted budget. */
    method Admit(q: Request) returns (v: Verdict)
      requires Valid()
      modifies this
      ensures Valid() && (Acc(), v) == Charge(old(Acc()), q)
    {
      if !enabled { return Disabled; }
      var e := Estimate(q);
      AreaBound(q);
      if e.None? || e.value > MAX_PIXELS { RecordFault(); return Invalid; }
      v := AdmitPixels(e.value);
      if !v.Admitted? { return Budget; }
    }
  }
}
