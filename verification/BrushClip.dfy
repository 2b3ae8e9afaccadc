/** Clipping a moving box against one convex brush (src/cmodel.c).  Each side's plane is pushed out by the
    box, so that the box becomes a point; `Gap` is how far that point is in front of the pushed plane. */
module BrushClip {
  import opened Vectors
  import opened Bsp

  const DIST_EPSILON := 0.03125

  datatype Side = Side(plane: Plane, surface: int)

  datatype Brush = Brush(contents: bv32, sides: seq<Side>)

  /** The gaps of one side at the start and at the end of the move. */
  datatype Gaps = Gaps(start: real, end: real)
  {
    /** The gap after a fraction of the move. */
    function At(t: real): real { start + t * (end - start) }
  }

  /** `surface` -1 is the null surface. */
  datatype Trace = Trace(allSolid: bool, startSolid: bool, fraction: real, end: Vec3, plane: Plane, surface: int,
                         contents: bv32, leafNum: int)

  // ----- pushing planes out

  function Offset(normal: Vec3, box: Box): Vec3
  {
    Vec3(if normal.x < 0.0 then box.maxs.x else box.mins.x,
         if normal.y < 0.0 then box.maxs.y else box.mins.y,
         if normal.z < 0.0 then box.maxs.z else box.mins.z)
  }

  function Pushed(plane: Plane, box: Box, isPoint: bool): real
  {
    if isPoint then plane.dist else plane.dist - Dot(Offset(plane.normal, box), plane.normal)
  }

  function Gap(plane: Plane, box: Box, isPoint: bool, p: Vec3): real
  {
    Dot(p, plane.normal) - Pushed(plane, box, isPoint)
  }

  /** The gap is that of the point of the box nearest to the inside of the plane. */
  lemma GapIsNearest(plane: Plane, box: Box, p: Vec3, x: Vec3)
    requires box.Has(x)
    ensures Gap(plane, box, false, p) <= Dot(plane.normal, p.Plus(x)) - plane.dist
    ensures Gap(plane, box, false, p) == Dot(plane.normal, p.Plus(Offset(plane.normal, box))) - plane.dist
    ensures box.Has(Offset(plane.normal, box))
  {
    hide Dot;
    var o := Offset(plane.normal, box);
    Between(plane.normal.x, box.mins.x, box.maxs.x, x.x);
    Between(plane.normal.y, box.mins.y, box.maxs.y, x.y);
    Between(plane.normal.z, box.mins.z, box.maxs.z, x.z);
    DotOrder(plane.normal, o, x);
    DotPlus(plane.normal, p, o);
    DotPlus(plane.normal, p, x);
  }

  lemma DotPlus(n: Vec3, a: Vec3, b: Vec3)
    ensures Dot(n, a.Plus(b)) == Dot(a, n) + Dot(n, b) && Dot(n, b) == Dot(b, n)
  {
  }

  function Along(p1: Vec3, p2: Vec3, t: real): Vec3
  {
    Vec3(p1.x + t * (p2.x - p1.x), p1.y + t * (p2.y - p1.y), p1.z + t * (p2.z - p1.z))
  }

  function GapsOf(sides: seq<Side>, box: Box, isPoint: bool, p1: Vec3, p2: Vec3): (r: seq<Gaps>)
    ensures |r| == |sides|
    ensures forall i {:trigger r[i]} :: 0 <= i < |r| ==>
      r[i] == Gaps(Gap(sides[i].plane, box, isPoint, p1), Gap(sides[i].plane, box, isPoint, p2))
  {
    seq(|sides|,
      i requires 0 <= i < |sides| => Gaps(Gap(sides[i].plane, box, isPoint, p1), Gap(sides[i].plane, box, isPoint, p2)))
  }

  lemma Spread(n: real, a: real, b: real, t: real)
    ensures (a + t * (b - a)) * n == a * n + t * (b * n - a * n)
  {
  }

  /** Along the move the gap changes evenly. */
  lemma GapAlong(plane: Plane, box: Box, isPoint: bool, p1: Vec3, p2: Vec3, t: real)
    ensures Gap(plane, box, isPoint, Along(p1, p2, t)) ==
      Gaps(Gap(plane, box, isPoint, p1), Gap(plane, box, isPoint, p2)).At(t)
  {
    hide Pushed;
    Spread(plane.normal.x, p1.x, p2.x, t);
    Spread(plane.normal.y, p1.y, p2.y, t);
    Spread(plane.normal.z, p1.z, p2.z, t);
  }

  // ----- the fold over the sides

  /** When the move has entered and not yet left the sides seen so far; `lead` is the side entered last. */
  datatype Sweep = Sweep(enter: real, leave: real, lead: int, startOutside: bool, endOutside: bool)

  predicate Ahead(g: Gaps) { g.start > 0.0 && g.end >= g.start }

  predicate Behind(g: Gaps) { g.start <= 0.0 && g.end <= 0.0 }

  function Enters(g: Gaps): real
    requires g.start != g.end
  {
    (g.start - DIST_EPSILON) / (g.start - g.end)
  }

  function Leaves(g: Gaps): real
    requires g.start != g.end
  {
    (g.start + DIST_EPSILON) / (g.start - g.end)
  }

  function SweepSide(s: Sweep, i: nat, g: Gaps): Sweep
    requires !Ahead(g)
  {
    var s := s.(endOutside := s.endOutside || g.end > 0.0, startOutside := s.startOutside || g.start > 0.0);
    if Behind(g) then s
    else if g.start > g.end then
      if Enters(g) > s.enter then s.(enter := Enters(g), lead := i) else s
    else
      if Leaves(g) < s.leave then s.(leave := Leaves(g)) else s
  }

  /** The first `n` sides, none of them ahead of the whole move. */
  function SweepOf(gaps: seq<Gaps>, n: nat): (s: Sweep)
    requires n <= |gaps| && forall i {:trigger gaps[i]} :: 0 <= i < n ==> !Ahead(gaps[i])
    ensures -1 <= s.lead < n
  {
    if n == 0 then Sweep(-1.0, 1.0, -1, false, false) else SweepSide(SweepOf(gaps, n - 1), n - 1, gaps[n - 1])
  }

  ghost predicate Missed(gaps: seq<Gaps>)
  {
    exists i {:trigger gaps[i]} :: 0 <= i < |gaps| && Ahead(gaps[i])
  }

  /** What one clip makes of a trace. */
  ghost function Clip(tr: Trace, leaf: int, b: Brush, gaps: seq<Gaps>): Trace
    requires |gaps| == |b.sides|
  {
    if gaps == [] || Missed(gaps) then tr
    else
      var s := SweepOf(gaps, |gaps|);
      var tr := if s.startOutside then tr
                else tr.(startSolid := true, allSolid := tr.allSolid || !s.endOutside, leafNum := leaf);
      if s.enter < s.leave && -1.0 < s.enter < tr.fraction && s.lead >= 0 then
        tr.(fraction := if s.enter < 0.0 then 0.0 else s.enter, plane := b.sides[s.lead].plane,
            surface := b.sides[s.lead].surface, contents := b.contents, leafNum := leaf)
      else tr
  }

  /** The move enters the brush before it leaves it, and before a fraction of the move. */
  predicate Hits(s: Sweep, fraction: real)
  {
    s.enter < s.leave && -1.0 < s.enter < fraction && s.lead >= 0
  }

  /** The fraction that one brush leaves of a move. */
  function Stopped(s: Sweep, fraction: real): real
  {
    if Hits(s, fraction) then if s.enter < 0.0 then 0.0 else s.enter else fraction
  }

  /** What is reported of the brush that a trace was stopped by; of its leaf, unless the move started in some
      brush. */
  ghost predicate SameHit(a: Trace, b: Trace)
  {
    && a.plane == b.plane && a.surface == b.surface && a.contents == b.contents
    && (!a.startSolid && !b.startSolid ==> a.leafNum == b.leafNum)
  }

  /** A brush that does not stop the move at a fraction changes nothing that is reported of another. */
  ghost predicate Misses(gaps: seq<Gaps>, fraction: real)
  {
    gaps == [] || Missed(gaps) || !Hits(SweepOf(gaps, |gaps|), fraction)
  }

  lemma ClipMeans(tr: Trace, leaf: int, b: Brush, gaps: seq<Gaps>)
    requires |gaps| == |b.sides|
    ensures gaps == [] || Missed(gaps) ==> Clip(tr, leaf, b, gaps) == tr
    ensures gaps != [] && !Missed(gaps) ==>
      var s, r := SweepOf(gaps, |gaps|), Clip(tr, leaf, b, gaps);
      && r.fraction == Stopped(s, tr.fraction) && r.startSolid == (tr.startSolid || !s.startOutside)
      && r.allSolid == (tr.allSolid || !(s.startOutside || s.endOutside))
    ensures Misses(gaps, tr.fraction) ==> SameHit(Clip(tr, leaf, b, gaps), tr)
    ensures Misses(gaps, tr.fraction) ==> Clip(tr, leaf, b, gaps).fraction == tr.fraction
  {
    hide SweepOf, Missed;
  }

  /** A brush reports the same to two traces that report the same. */
  lemma ClipAgrees(a: Trace, c: Trace, leaf: int, b: Brush, gaps: seq<Gaps>)
    requires |gaps| == |b.sides| && a.fraction == c.fraction && a.startSolid == c.startSolid && SameHit(a, c)
    ensures SameHit(Clip(a, leaf, b, gaps), Clip(c, leaf, b, gaps))
  {
    hide SweepOf, Missed;
  }

  // ----- what the fold means

  ghost predicate AllBehind(gaps: seq<Gaps>, n: nat, atEnd: bool)
    requires n <= |gaps|
  {
    forall i {:trigger gaps[i]} :: 0 <= i < n ==> (if atEnd then gaps[i].end else gaps[i].start) <= 0.0
  }

  lemma {:induction false} SweepSees(gaps: seq<Gaps>, n: nat)
    requires n <= |gaps| && forall i {:trigger gaps[i]} :: 0 <= i < n ==> !Ahead(gaps[i])
    ensures var s := SweepOf(gaps, n);
      && s.startOutside == !AllBehind(gaps, n, false) && s.endOutside == !AllBehind(gaps, n, true)
      && s.enter >= -1.0 && (s.enter > -1.0 <==> s.lead >= 0) && s.leave <= 1.0
      && (s.lead >= 0 ==>
           gaps[s.lead].start > gaps[s.lead].end && gaps[s.lead].start > 0.0 && s.enter == Enters(gaps[s.lead]))
      && (forall i {:trigger gaps[i]} :: 0 <= i < n && gaps[i].start > 0.0 ==>
           gaps[i].start > gaps[i].end && Enters(gaps[i]) <= s.enter)
  {
    hide Enters, Leaves;
    if n > 0 {
      SweepSees(gaps, n - 1);
      var g := gaps[n - 1];
      assert AllBehind(gaps, n, false) <==> AllBehind(gaps, n - 1, false) && g.start <= 0.0;
      assert AllBehind(gaps, n, true) <==> AllBehind(gaps, n - 1, true) && g.end <= 0.0;
    }
  }

  /** The solid flags say exactly where the move starts and ends. */
  lemma SolidFlags(tr: Trace, leaf: int, b: Brush, gaps: seq<Gaps>)
    requires |gaps| == |b.sides| && gaps != []
    ensures var r := Clip(tr, leaf, b, gaps);
      && r.startSolid == (tr.startSolid || AllBehind(gaps, |gaps|, false))
      && r.allSolid == (tr.allSolid || (AllBehind(gaps, |gaps|, false) && AllBehind(gaps, |gaps|, true)))
  {
    if !Missed(gaps) { SweepSees(gaps, |gaps|); }
  }

  lemma Quotient(a: real, d: real, t: real)
    requires d != 0.0
    ensures (a / d) * d == a
    ensures d > 0.0 ==> (t > a / d <==> t * d > a)
    ensures d < 0.0 ==> (t < a / d <==> t * d > a)
  {
    var q := a / d;
    assert q * d == a;
    if d > 0.0 {
      if t > q { assert (t - q) * d > 0.0; } else { assert (q - t) * d >= 0.0; }
    } else {
      if t < q { assert (t - q) * d > 0.0; } else { assert (q - t) * d >= 0.0; }
    }
  }

  /** A place more than the epsilon behind a side is past entering it and short of leaving it. */
  lemma DeepIsBetween(g: Gaps, t: real)
    requires 0.0 <= t <= 1.0 && g.At(t) < -DIST_EPSILON
    ensures !Ahead(g)
    ensures g.start > g.end ==> Enters(g) < t
    ensures g.start < g.end ==> t < Leaves(g)
    ensures !Behind(g) ==> g.start != g.end
  {
    var d := g.start - g.end;
    assert t * (g.end - g.start) == -(t * d);
    if d > 0.0 {
      Quotient(g.start - DIST_EPSILON, d, t);
    } else {
      assert t * d <= 0.0;
      assert g.start < -DIST_EPSILON;
      if d < 0.0 { Quotient(g.start + DIST_EPSILON, d, t); }
    }
  }

  ghost predicate Deep(gaps: seq<Gaps>, n: nat, t: real)
    requires n <= |gaps|
  {
    forall i {:trigger gaps[i]} :: 0 <= i < n ==> gaps[i].At(t) < -DIST_EPSILON
  }

  lemma {:induction false} DeepIsPierced(gaps: seq<Gaps>, n: nat, t: real)
    requires n <= |gaps| && 0.0 <= t <= 1.0 && Deep(gaps, n, t)
    ensures forall i {:trigger gaps[i]} :: 0 <= i < n ==> !Ahead(gaps[i])
    ensures SweepOf(gaps, n).enter < t <= SweepOf(gaps, n).leave
  {
    hide Enters, Leaves;
    if n > 0 {
      DeepIsPierced(gaps, n - 1, t);
      DeepIsBetween(gaps[n - 1], t);
    }
  }

  /** A side that a deep move started in front of is entered in time: its fraction is above -1. */
  lemma EntersInTime(g: Gaps, t: real)
    requires 0.0 <= t <= 1.0 && g.start > 0.0 && g.At(t) < -DIST_EPSILON && g.start > g.end
    ensures Enters(g) > -1.0
  {
    var d := g.start - g.end;
    assert t * (g.end - g.start) == -(t * d);
    assert (1.0 - t) * d >= 0.0;
    assert g.start - d < -DIST_EPSILON;
    Quotient(g.start - DIST_EPSILON, d, -1.0);
    assert Enters(g) * d == g.start - DIST_EPSILON;
    assert g.start - DIST_EPSILON > -d;
  }

  /** No deep penetration: a box that starts outside a brush is nowhere, up to the fraction left by the clip,
      more than the epsilon inside all of its sides. */
  lemma NeverDeep(tr: Trace, leaf: int, b: Brush, gaps: seq<Gaps>, t: real)
    requires |gaps| == |b.sides| && 0.0 <= tr.fraction <= 1.0
    requires !AllBehind(gaps, |gaps|, false)
    requires 0.0 <= t <= Clip(tr, leaf, b, gaps).fraction
    ensures !Deep(gaps, |gaps|, t)
  {
    hide Enters, Leaves;
    if Deep(gaps, |gaps|, t) {
      var n := |gaps|;
      var i :| 0 <= i < n && gaps[i].start > 0.0;
      FractionFalls(tr, leaf, b, gaps);
      DeepIsPierced(gaps, n, t);
      DeepIsBetween(gaps[i], t);
      assert !Missed(gaps);
      SweepSees(gaps, n);
      EntersInTime(gaps[i], t);
    }
  }

  /** The fraction of a trace only falls, and stays between 0 and 1. */
  lemma FractionFalls(tr: Trace, leaf: int, b: Brush, gaps: seq<Gaps>)
    requires |gaps| == |b.sides| && 0.0 <= tr.fraction <= 1.0
    ensures 0.0 <= Clip(tr, leaf, b, gaps).fraction <= tr.fraction
  {
  }

  /** A move that gets less far than before is stopped by the brush. */
  lemma FallIsHit(tr: Trace, leaf: int, b: Brush, gaps: seq<Gaps>)
    requires |gaps| == |b.sides| && Clip(tr, leaf, b, gaps).fraction < tr.fraction
    ensures !Misses(gaps, tr.fraction)
  {
    hide SweepOf, Missed;
  }

  /** A move is stopped only by a side it was in front of and is approaching, the epsilon short of it, or at
      once when it starts nearer than that. */
  lemma StopsShort(tr: Trace, leaf: int, b: Brush, gaps: seq<Gaps>)
    requires |gaps| == |b.sides| && 0.0 <= tr.fraction <= 1.0
    requires !Misses(gaps, tr.fraction)
    ensures !Missed(gaps)
    ensures var lead := SweepOf(gaps, |gaps|).lead; var r := Clip(tr, leaf, b, gaps);
      && 0 <= lead < |gaps| && gaps[lead].start > 0.0 && gaps[lead].end < gaps[lead].start
      && r.plane == b.sides[lead].plane && r.surface == b.sides[lead].surface && r.contents == b.contents
      && r.leafNum == leaf
      && (if gaps[lead].start >= DIST_EPSILON then gaps[lead].At(r.fraction) == DIST_EPSILON else r.fraction == 0.0)
  {
    hide Enters, Leaves;
    SweepSees(gaps, |gaps|);
    EntersAt(gaps[SweepOf(gaps, |gaps|).lead]);
  }

  lemma Negated(t: real, d: real)
    ensures t * (-d) == -(t * d)
  {
  }

  lemma AtIs(g: Gaps, t: real)
    ensures g.At(t) == g.start - t * (g.start - g.end)
  {
    var d := g.start - g.end;
    Negated(t, d);
    assert g.end - g.start == -d;
  }

  lemma EntersAt(g: Gaps)
    requires g.start > g.end
    ensures g.At(Enters(g)) == DIST_EPSILON && (Enters(g) >= 0.0 <==> g.start >= DIST_EPSILON)
  {
    var d := g.start - g.end;
    Quotient(g.start - DIST_EPSILON, d, 0.0);
    AtIs(g, Enters(g));
    assert Enters(g) * d == g.start - DIST_EPSILON;
  }

  /** The box is no more than the epsilon off the inside of each side. */
  ghost predicate Near(gaps: seq<Gaps>, t: real)
  {
    forall i {:trigger gaps[i]} :: 0 <= i < |gaps| ==> gaps[i].At(t) <= DIST_EPSILON
  }

  /** Each side is one the move is behind all along, or enters by the time it is to be stopped, or has not left
      by then. */
  lemma {:induction false} SweepFits(gaps: seq<Gaps>, n: nat)
    requires n <= |gaps| && forall i {:trigger gaps[i]} :: 0 <= i < n ==> !Ahead(gaps[i])
    ensures forall i {:trigger gaps[i]} :: 0 <= i < n ==>
      || Behind(gaps[i])
      || (gaps[i].start > gaps[i].end && Enters(gaps[i]) <= SweepOf(gaps, n).enter)
      || (gaps[i].start < gaps[i].end && SweepOf(gaps, n).leave <= Leaves(gaps[i]))
  {
    hide Enters, Leaves;
    if n > 0 { SweepFits(gaps, n - 1); }
  }

  lemma NotPositive(t: real, x: real)
    requires t >= 0.0 >= x
    ensures t * x <= 0.0
  {
  }

  lemma Weighted(a: real, b: real, t: real)
    requires 0.0 <= t <= 1.0 && a <= 0.0 && b <= 0.0
    ensures a - t * (a - b) <= 0.0
  {
    NotPositive(1.0 - t, a);
    NotPositive(t, b);
    assert a - t * (a - b) == (1.0 - t) * a + t * b;
  }

  lemma FitsIsNear(g: Gaps, enter: real, leave: real, t: real)
    requires !Ahead(g) && enter < leave && t == (if enter < 0.0 then 0.0 else enter) && t <= 1.0
    requires Behind(g) || (g.start > g.end && Enters(g) <= enter) || (g.start < g.end && leave <= Leaves(g))
    ensures g.At(t) <= DIST_EPSILON
  {
    var d := g.start - g.end;
    AtIs(g, t);
    if Behind(g) {
      Weighted(g.start, g.end, t);
    } else if d > 0.0 {
      NotBelow(g.start - DIST_EPSILON, d, t);
    } else if t > 0.0 {
      Quotient(g.start + DIST_EPSILON, d, t);
    }
  }

  lemma NotBelow(a: real, d: real, t: real)
    requires d > 0.0 && a / d <= t
    ensures a <= t * d
  {
    Quotient(a, d, t);
    var q := a / d;
    if t == q { assert t * d == a; }
  }

  /** A move is stopped only where the box comes within the epsilon of the brush: there it is that near to the
      inside of every side. */
  lemma StopsNear(tr: Trace, leaf: int, b: Brush, gaps: seq<Gaps>)
    requires |gaps| == |b.sides| && 0.0 <= tr.fraction <= 1.0 && !Misses(gaps, tr.fraction)
    ensures Near(gaps, Clip(tr, leaf, b, gaps).fraction)
  {
    hide Enters, Leaves;
    var s, r := SweepOf(gaps, |gaps|), Clip(tr, leaf, b, gaps);
    SweepFits(gaps, |gaps|);
    forall i | 0 <= i < |gaps|
      ensures gaps[i].At(r.fraction) <= DIST_EPSILON
    {
      FitsIsNear(gaps[i], s.enter, s.leave, r.fraction);
    }
  }

  /** A move that starts in front of one side and ends no nearer to it than the epsilon is not stopped by the
      brush: a box that an earlier move left the epsilon off a wall may slide along it. */
  lemma ClearOfOneSide(tr: Trace, leaf: int, b: Brush, gaps: seq<Gaps>, i: nat)
    requires |gaps| == |b.sides| && 0.0 <= tr.fraction <= 1.0 && i < |gaps|
    requires gaps[i].start > 0.0 && gaps[i].end >= DIST_EPSILON
    ensures Clip(tr, leaf, b, gaps) == tr
  {
    if !Missed(gaps) {
      SweepSees(gaps, |gaps|);
      var g := gaps[i];
      Quotient(g.start - DIST_EPSILON, g.start - g.end, 1.0);
    }
  }

  /** A box nowhere deep in a brush up to a fraction is nowhere deep up to a smaller one: later clips keep
      what earlier ones achieved. */
  ghost predicate Shallow(gaps: seq<Gaps>, fraction: real)
  {
    forall t: real {:trigger Deep(gaps, |gaps|, t)} :: 0.0 <= t <= fraction ==> !Deep(gaps, |gaps|, t)
  }

  lemma ShallowAfter(tr: Trace, leaf: int, b: Brush, gaps: seq<Gaps>)
    requires |gaps| == |b.sides| && 0.0 <= tr.fraction <= 1.0 && !AllBehind(gaps, |gaps|, false)
    ensures Shallow(gaps, Clip(tr, leaf, b, gaps).fraction)
  {
    forall t: real | 0.0 <= t <= Clip(tr, leaf, b, gaps).fraction
      ensures !Deep(gaps, |gaps|, t)
    {
      NeverDeep(tr, leaf, b, gaps, t);
    }
  }

  // ----- the position test

  /** A box that does not move is stuck in a brush when it is behind every side. */
  ghost function Test(tr: Trace, b: Brush, gaps: seq<Gaps>): Trace
    requires |gaps| == |b.sides|
  {
    if gaps == [] || !AllBehind(gaps, |gaps|, false) then tr
    else tr.(startSolid := true, allSolid := true, fraction := 0.0, contents := b.contents)
  }

  // ----- in place

  /** One trace: what is asked for, and what has been found.  The logs say which brushes were tried and
      which leafs were seen. */
  datatype Query = Query(start: Vec3, end: Vec3, box: Box, extents: Vec3, contents: bv32, isPoint: bool)
  {
    function GapsTo(b: Brush): (r: seq<Gaps>)
      ensures |r| == |b.sides|
    {
      GapsOf(b.sides, box, isPoint, start, end)
    }
  }

  class TraceData {
    const q: Query
    var trace: Trace
    const mailbox: array<int>
    ghost var tried: set<nat>
    ghost var seen: set<int>

    constructor (q: Query, trace: Trace)
      ensures this.q == q && this.trace == trace && tried == {} && seen == {}
      ensures fresh(mailbox) && mailbox.Length == 16 && mailbox[..] == seq(16, _ => -1)
    {
      this.q, this.trace := q, trace;
      mailbox := new int[16](_ => -1);
      tried, seen := {}, {};
    }

    method ClipBoxToBrush(leaf: int, b: Brush)
      modifies this`trace
      ensures trace == Clip(old(trace), leaf, b, q.GapsTo(b))
    {
      hide Gap, Enters, Leaves;
      if |b.sides| == 0 {
        return;
      }
      ghost var gaps := q.GapsTo(b);
      var enterFraction, leaveFraction := -1.0, 1.0;
      var clipPlane, leadSide := Plane(ORIGIN, 0.0, 0, 0), -1;
      var endOutside, startOutside := false, false;
      var i := 0;
      while i < |b.sides|
        invariant 0 <= i <= |b.sides|
        invariant forall j {:trigger gaps[j]} :: 0 <= j < i ==> !Ahead(gaps[j])
        invariant SweepOf(gaps, i) == Sweep(enterFraction, leaveFraction, leadSide, startOutside, endOutside)
        invariant leadSide >= 0 ==> clipPlane == b.sides[leadSide].plane
      {
        var plane := b.sides[i].plane;
        var d1 := Gap(plane, q.box, q.isPoint, q.start);
        var d2 := Gap(plane, q.box, q.isPoint, q.end);
        assert gaps[i] == Gaps(d1, d2);
        if d2 > 0.0 {
          endOutside := true;
        }
        if d1 > 0.0 {
          startOutside := true;
        }
        if d1 > 0.0 && d2 >= d1 {
          return;
        }
        if d1 <= 0.0 && d2 <= 0.0 {
          i := i + 1;
          continue;
        }
        if d1 > d2 {
          var f := Enters(Gaps(d1, d2));
          if f > enterFraction {
            enterFraction, clipPlane, leadSide := f, plane, i;
          }
        } else {
          var f := Leaves(Gaps(d1, d2));
          if f < leaveFraction {
            leaveFraction := f;
          }
        }
        i := i + 1;
      }
      SweepSees(gaps, i);
      if !startOutside {
        trace := trace.(startSolid := true);
        if !endOutside {
          trace := trace.(allSolid := true);
        }
        trace := trace.(leafNum := leaf);
      }
      if enterFraction < leaveFraction {
        if enterFraction > -1.0 && enterFraction < trace.fraction {
          if enterFraction < 0.0 {
            enterFraction := 0.0;
          }
          trace := trace.(fraction := enterFraction, plane := clipPlane, surface := b.sides[leadSide].surface,
                          contents := b.contents, leafNum := leaf);
        }
      }
    }

    method TestBoxInBrush(b: Brush)
      requires !q.isPoint
      modifies this`trace
      ensures trace == Test(old(trace), b, q.GapsTo(b))
    {
      hide Gap;
      if |b.sides| == 0 {
        return;
      }
      ghost var gaps := q.GapsTo(b);
      var i := 0;
      while i < |b.sides|
        invariant 0 <= i <= |b.sides| && AllBehind(gaps, i, false)
      {
        var d1 := Gap(b.sides[i].plane, q.box, false, q.start);
        assert gaps[i].start == d1;
        if d1 > 0.0 {
          return;
        }
        i := i + 1;
      }
      trace := trace.(startSolid := true, allSolid := true, fraction := 0.0, contents := b.contents);
    }
  }
}
