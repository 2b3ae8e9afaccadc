/** Which leafs a moving box is traced through (src/cmodel.c).  The descent divides a move at each plane a
    little off the plane; still no part of the box that is clear of the planes is lost. */
module SweepCover {
  import opened Vectors
  import opened Bsp
  import opened BrushClip
  import opened BoxTrace

  // ----- how far a box reaches

  lemma Product(n: real, e: real, x: real)
    requires -e <= x <= e
    ensures -Extent(e, n) <= n * x <= Extent(e, n)
  {
    Between(n, -e, e, x);
  }

  lemma DistanceOff(plane: Plane, p: Vec3, x: Vec3)
    ensures Distance(plane, p.Plus(x)) ==
      Distance(plane, p) + if plane.kind < PLANE_ANYX then x.At(plane.kind) else Dot(plane.normal, x)
  {
  }

  /** No point of the box is farther off its origin, along the plane's normal, than the reach. */
  lemma ReachBounds(plane: Plane, q: Query, p: Vec3, x: Vec3)
    requires q == QueryOf(q.start, q.end, q.box, q.contents) && q.box.Has(x)
    ensures Distance(plane, p) - Reach(plane, q) <= Distance(plane, p.Plus(x)) <= Distance(plane, p) + Reach(plane, q)
  {
    DistanceOff(plane, p, x);
    hide Distance;
    if plane.kind >= PLANE_ANYX {
      if q.isPoint {
        NoOffset(plane.normal);
      } else {
        ReachAny(plane, q, x);
      }
    }
  }

  lemma ReachAny(plane: Plane, q: Query, x: Vec3)
    requires plane.kind >= PLANE_ANYX && !q.isPoint && -q.extents.x <= x.x <= q.extents.x
    requires -q.extents.y <= x.y <= q.extents.y && -q.extents.z <= x.z <= q.extents.z
    ensures -Reach(plane, q) <= Dot(plane.normal, x) <= Reach(plane, q)
  {
    hide Extent;
    var a, b, c := plane.normal.x * x.x, plane.normal.y * x.y, plane.normal.z * x.z;
    var ra, rb, rc :=
      Extent(q.extents.x, plane.normal.x), Extent(q.extents.y, plane.normal.y), Extent(q.extents.z, plane.normal.z);
    assert Dot(plane.normal, x) == a + b + c && Reach(plane, q) == ra + rb + rc;
    hide Dot, Reach;
    Product(plane.normal.x, q.extents.x, x.x);
    Product(plane.normal.y, q.extents.y, x.y);
    Product(plane.normal.z, q.extents.z, x.z);
  }

  lemma NoOffset(n: Vec3)
    ensures Dot(n, ORIGIN) == 0.0
  {
  }

  /** What changes evenly from one value to another, after a fraction of the way. */
  function EvenlyAt(from: real, to: real, t: real): real { from + t * (to - from) }

  lemma EvenlyBetween(a: real, b: real, t: real)
    requires 0.0 <= t <= 1.0
    ensures a <= EvenlyAt(a, b, t) <= b || b <= EvenlyAt(a, b, t) <= a
    ensures EvenlyAt(a, b, t) == a - t * (a - b)
  {
    var d := b - a;
    assert EvenlyAt(a, b, t) == a + t * d && EvenlyAt(a, b, t) == b - (1.0 - t) * d;
    if d >= 0.0 {
      Positive(t, d);
      Positive(1.0 - t, d);
    } else {
      Positive(t, -d);
      Positive(1.0 - t, -d);
    }
  }

  lemma AlongEvenly(p1: Vec3, p2: Vec3, t: real)
    ensures Along(p1, p2, t) == Vec3(EvenlyAt(p1.x, p2.x, t), EvenlyAt(p1.y, p2.y, t), EvenlyAt(p1.z, p2.z, t))
  {
  }

  lemma ScaledEvenly(n: real, a: real, b: real, t: real, v: real, x: real, y: real)
    requires v == EvenlyAt(a, b, t) && x == n * a && y == n * b
    ensures n * v == EvenlyAt(x, y, t)
  {
    var d := b - a;
    assert n * b - n * a == n * d;
    assert n * (t * d) == t * (n * d);
  }

  lemma SumEvenly(a: real, b: real, c: real, d: real, t: real)
    ensures EvenlyAt(a, b, t) + EvenlyAt(c, d, t) == EvenlyAt(a + c, b + d, t)
  {
    assert t * ((b + d) - (a + c)) == t * (b - a) + t * (d - c);
  }

  lemma LessEvenly(a: real, b: real, c: real, t: real)
    ensures EvenlyAt(a, b, t) - c == EvenlyAt(a - c, b - c, t)
  {
    assert (b - c) - (a - c) == b - a;
  }

  lemma DotIs(n: Vec3, p: Vec3, x: real, y: real, z: real)
    requires n.x * p.x == x && n.y * p.y == y && n.z * p.z == z
    ensures Dot(n, p) == x + y + z
  {
  }

  lemma DotEvenly(n: Vec3, p1: Vec3, p2: Vec3, t: real)
    ensures Dot(n, Along(p1, p2, t)) == EvenlyAt(Dot(n, p1), Dot(n, p2), t)
  {
    var p := Along(p1, p2, t);
    AlongEvenly(p1, p2, t);
    hide Along, EvenlyAt, Dot;
    var x1, y1, z1, x2, y2, z2 := n.x * p1.x, n.y * p1.y, n.z * p1.z, n.x * p2.x, n.y * p2.y, n.z * p2.z;
    DotIs(n, p1, x1, y1, z1);
    DotIs(n, p2, x2, y2, z2);
    ScaledEvenly(n.x, p1.x, p2.x, t, p.x, x1, x2);
    ScaledEvenly(n.y, p1.y, p2.y, t, p.y, y1, y2);
    ScaledEvenly(n.z, p1.z, p2.z, t, p.z, z1, z2);
    DotIs(n, p, EvenlyAt(x1, x2, t), EvenlyAt(y1, y2, t), EvenlyAt(z1, z2, t));
    SumEvenly(x1, x2, y1, y2, t);
    SumEvenly(x1 + y1, x2 + y2, z1, z2, t);
  }

  lemma DistanceAlong(plane: Plane, p1: Vec3, p2: Vec3, t: real)
    ensures Distance(plane, Along(p1, p2, t)) == EvenlyAt(Distance(plane, p1), Distance(plane, p2), t)
  {
    AlongEvenly(p1, p2, t);
    hide Along, EvenlyAt, Dot;
    var n := plane.normal;
    if plane.kind < PLANE_ANYX {
      LessEvenly(p1.At(plane.kind), p2.At(plane.kind), plane.dist, t);
    } else {
      DotEvenly(n, p1, p2, t);
      LessEvenly(Dot(n, p1), Dot(n, p2), plane.dist, t);
    }
  }

  // ----- how a plane divides a move

  /** The part of a move, up to or from a fraction, that goes to a child. */
  ghost predicate InFront(n: Node, d: Division, t1: real, t2: real, t: real)
  {
    match d
    case OneChild(child) => child == n.front
    case Both(near, far, frac, frac2) => if t1 < t2 then far == n.front && frac2 <= t else near == n.front && t <= frac
  }

  ghost predicate InBack(n: Node, d: Division, t1: real, t2: real, t: real)
  {
    match d
    case OneChild(child) => child == n.back
    case Both(near, far, frac, frac2) => if t1 < t2 then near == n.back && t <= frac else far == n.back && frac2 <= t
  }

  lemma Signs(a: real, d: real)
    ensures d > 0.0 ==> (a > 0.0 <==> a * d > 0.0) && (a < 0.0 <==> a * d < 0.0)
    ensures d < 0.0 ==> (a > 0.0 <==> a * d < 0.0) && (a < 0.0 <==> a * d > 0.0)
  {
  }

  lemma Inverse(x: real, d: real)
    requires d != 0.0
    ensures x * (1.0 / d) * d == x
  {
    var i := 1.0 / d;
    assert i * d == 1.0;
    assert x * i * d == x * (i * d);
  }

  /** A quotient compares as its products do. */
  lemma Compares(v: real, d: real, x: real, t: real)
    requires v * d == x
    ensures d > 0.0 ==> (t <= v <==> t * d <= x) && (v <= t <==> x <= t * d)
    ensures d < 0.0 ==> (t <= v <==> x <= t * d) && (v <= t <==> t * d <= x)
  {
    assert (v - t) * d == v * d - t * d;
    Signs(v - t, d);
  }

  lemma Scaled(x: real, d: real, t: real)
    requires d != 0.0 && 0.0 <= t <= 1.0
    ensures d > 0.0 && t * d <= x ==> t <= CrossAt(x, d)
    ensures d > 0.0 && x <= t * d ==> CrossAt(x, d) <= t
    ensures d < 0.0 && x <= t * d ==> t <= CrossAt(x, d)
    ensures d < 0.0 && t * d <= x ==> CrossAt(x, d) <= t
  {
    var v := x * (1.0 / d);
    assert CrossAt(x, d) == Clamp(v);
    Inverse(x, d);
    Compares(v, d, x, t);
    hide CrossAt;
  }

  /** A part of the move where the box may reach in front of the plane goes to the front child; where it may
      reach the epsilon behind, or behind at all if the move does not head to the front, to the back child. */
  lemma DivideCovers(n: Node, q: Query, p1: Vec3, p2: Vec3, t: real)
    requires 0.0 <= t <= 1.0
    ensures var t1, t2, r := Distance(n.plane, p1), Distance(n.plane, p2), Reach(n.plane, q);
      && (EvenlyAt(t1, t2, t) > -r ==> InFront(n, Divide(n, q, p1, p2), t1, t2, t))
      && (EvenlyAt(t1, t2, t) <= r - DIST_EPSILON ==> InBack(n, Divide(n, q, p1, p2), t1, t2, t))
      && (EvenlyAt(t1, t2, t) < r && t2 <= t1 ==> InBack(n, Divide(n, q, p1, p2), t1, t2, t))
  {
    var t1, t2 := Distance(n.plane, p1), Distance(n.plane, p2);
    hide Distance, Reach, CrossAt, EvenlyAt, InFront, InBack;
    EvenlyBetween(t1, t2, t);
    if Divide(n, q, p1, p2).OneChild? {
      DivideNot(n, q, p1, p2, t, EvenlyAt(t1, t2, t));
    } else if t1 < t2 {
      DivideUp(n, q, p1, p2, t);
    } else if t1 > t2 {
      DivideDown(n, q, p1, p2, t);
    } else {
      DivideLevel(n, q, p1, p2, t);
    }
  }

  lemma DivideLevel(n: Node, q: Query, p1: Vec3, p2: Vec3, t: real)
    requires 0.0 <= t <= 1.0 && Distance(n.plane, p1) == Distance(n.plane, p2) && Divide(n, q, p1, p2).Both?
    ensures var t1, t2 := Distance(n.plane, p1), Distance(n.plane, p2);
      InFront(n, Divide(n, q, p1, p2), t1, t2, t) && InBack(n, Divide(n, q, p1, p2), t1, t2, t)
  {
    hide Distance, Reach, CrossAt;
  }

  lemma DivideNot(n: Node, q: Query, p1: Vec3, p2: Vec3, t: real, at: real)
    requires Divide(n, q, p1, p2).OneChild?
    requires var t1, t2 := Distance(n.plane, p1), Distance(n.plane, p2); t1 <= at <= t2 || t2 <= at <= t1
    ensures var t1, t2, r := Distance(n.plane, p1), Distance(n.plane, p2), Reach(n.plane, q);
      && (at > -r ==> InFront(n, Divide(n, q, p1, p2), t1, t2, t))
      && (at <= r - DIST_EPSILON ==> InBack(n, Divide(n, q, p1, p2), t1, t2, t))
      && (at < r && t2 <= t1 ==> InBack(n, Divide(n, q, p1, p2), t1, t2, t))
  {
    hide Distance, Reach, CrossAt;
  }

  lemma DivideUp(n: Node, q: Query, p1: Vec3, p2: Vec3, t: real)
    requires 0.0 <= t <= 1.0 && Distance(n.plane, p1) < Distance(n.plane, p2) && Divide(n, q, p1, p2).Both?
    ensures var t1, t2, r := Distance(n.plane, p1), Distance(n.plane, p2), Reach(n.plane, q);
      && (t1 - t * (t1 - t2) > -r ==> InFront(n, Divide(n, q, p1, p2), t1, t2, t))
      && (t1 - t * (t1 - t2) <= r - DIST_EPSILON ==> InBack(n, Divide(n, q, p1, p2), t1, t2, t))
  {
    var t1, t2, r := Distance(n.plane, p1), Distance(n.plane, p2), Reach(n.plane, q);
    hide Distance, Reach, CrossAt;
    Scaled(t1 - r + DIST_EPSILON, t1 - t2, t);
    Scaled(t1 + r + DIST_EPSILON, t1 - t2, t);
  }

  lemma DivideDown(n: Node, q: Query, p1: Vec3, p2: Vec3, t: real)
    requires 0.0 <= t <= 1.0 && Distance(n.plane, p1) > Distance(n.plane, p2) && Divide(n, q, p1, p2).Both?
    ensures var t1, t2, r := Distance(n.plane, p1), Distance(n.plane, p2), Reach(n.plane, q);
      && (t1 - t * (t1 - t2) > -r ==> InFront(n, Divide(n, q, p1, p2), t1, t2, t))
      && (t1 - t * (t1 - t2) < r ==> InBack(n, Divide(n, q, p1, p2), t1, t2, t))
  {
    var t1, t2, r := Distance(n.plane, p1), Distance(n.plane, p2), Reach(n.plane, q);
    hide Distance, Reach, CrossAt;
    Scaled(t1 + r + DIST_EPSILON, t1 - t2, t);
    Scaled(t1 - r - DIST_EPSILON, t1 - t2, t);
  }

  // ----- the descent

  /** A stretch of a whole move, by the fractions it begins and ends at. */
  ghost predicate Stretch(q: Query, p1f: real, p2f: real, p1: Vec3, p2: Vec3)
  {
    p1f <= p2f && p1 == Along(q.start, q.end, p1f) && p2 == Along(q.start, q.end, p2f)
  }

  lemma EvenlyWithin(a: real, b: real, f1: real, f2: real, s: real)
    ensures EvenlyAt(EvenlyAt(a, b, f1), EvenlyAt(a, b, f2), s) == EvenlyAt(a, b, Mid(f1, f2, s))
  {
    var d := b - a;
    assert (a + f2 * d) - (a + f1 * d) == (f2 - f1) * d;
    assert s * ((f2 - f1) * d) == ((f2 - f1) * s) * d;
    assert (f1 + (f2 - f1) * s) * d == f1 * d + ((f2 - f1) * s) * d;
  }

  lemma StretchAt(q: Query, p1f: real, p2f: real, p1: Vec3, p2: Vec3, s: real)
    requires Stretch(q, p1f, p2f, p1, p2)
    ensures Along(p1, p2, s) == Along(q.start, q.end, Mid(p1f, p2f, s))
  {
    hide Along, EvenlyAt, Mid;
    AlongEvenly(q.start, q.end, p1f);
    AlongEvenly(q.start, q.end, p2f);
    AlongEvenly(p1, p2, s);
    AlongEvenly(q.start, q.end, Mid(p1f, p2f, s));
    EvenlyWithin(q.start.x, q.end.x, p1f, p2f, s);
    EvenlyWithin(q.start.y, q.end.y, p1f, p2f, s);
    EvenlyWithin(q.start.z, q.end.z, p1f, p2f, s);
  }

  /** A fraction of the whole move as a fraction of a stretch. */
  function LocalAt(p1f: real, p2f: real, t: real): real { if p1f == p2f then 0.0 else (t - p1f) / (p2f - p1f) }

  lemma Ratio(a: real, d: real)
    requires d > 0.0 && 0.0 <= a <= d
    ensures 0.0 <= a / d <= 1.0 && d * (a / d) == a
  {
    Quotient(a, d, 0.0);
    Quotient(a, d, 1.0);
    var s := a / d;
    assert s > 1.0 ==> (s - 1.0) * d > 0.0;
    assert s < 0.0 ==> s * d < 0.0;
  }

  lemma LocalIs(p1f: real, p2f: real, t: real)
    requires p1f <= t <= p2f
    ensures 0.0 <= LocalAt(p1f, p2f, t) <= 1.0 && Mid(p1f, p2f, LocalAt(p1f, p2f, t)) == t
  {
    if p1f != p2f { Ratio(t - p1f, p2f - p1f); }
  }

  /** The move heads to the back of the plane, or along it. */
  ghost predicate HeadsBack(plane: Plane, p1: Vec3, p2: Vec3) { Distance(plane, p2) <= Distance(plane, p1) }

  lemma StretchHeads(plane: Plane, q: Query, p1f: real, p2f: real, p1: Vec3, p2: Vec3)
    requires Stretch(q, p1f, p2f, p1, p2) && HeadsBack(plane, q.start, q.end)
    ensures HeadsBack(plane, p1, p2)
  {
    DistanceAlong(plane, q.start, q.end, p1f);
    DistanceAlong(plane, q.start, q.end, p2f);
    var a, b := Distance(plane, q.start), Distance(plane, q.end);
    hide Distance;
    Positive(p2f - p1f, a - b);
    assert EvenlyAt(a, b, p1f) - EvenlyAt(a, b, p2f) == (p2f - p1f) * (a - b);
  }

  /** A point `x` of the box at `p` on its way down.  It is on the front of a plane that the box reaches in
      front of, or behind one that the box reaches the epsilon behind, or behind at all if the move does not
      head to the front of it. */
  ghost predicate Clear(t: Tree, q: Query, p: Vec3, x: Vec3, num: int)
    requires t.Valid() && t.Ref(num)
    decreases t.Rank(num)
  {
    num >= 0 ==>
      var plane := t.nodes[num].plane;
      var at, r, behind := Distance(plane, p), Reach(plane, q), Distance(plane, p.Plus(x)) < 0.0;
      && (if behind then at <= r - DIST_EPSILON || (at < r && HeadsBack(plane, q.start, q.end)) else at > -r)
      && Clear(t, q, p, x, if behind then t.nodes[num].back else t.nodes[num].front)
  }

  /** On its way down the point is in front of each plane or behind it: at least the epsilon behind, if the
      move heads to the front of that plane. */
  ghost predicate OffPlanes(t: Tree, q: Query, y: Vec3, num: int)
    requires t.Valid() && t.Ref(num)
    decreases t.Rank(num)
  {
    num >= 0 ==>
      var plane := t.nodes[num].plane;
      var d := Distance(plane, y);
      && (d > 0.0 || d <= -DIST_EPSILON || (d < 0.0 && HeadsBack(plane, q.start, q.end)))
      && OffPlanes(t, q, y, if d < 0.0 then t.nodes[num].back else t.nodes[num].front)
  }

  /** Such a point is clear, wherever in the box it is. */
  lemma {:induction false} OffPlanesIsClear(t: Tree, q: Query, p: Vec3, x: Vec3, num: int)
    requires t.Valid() && t.Ref(num) && q == QueryOf(q.start, q.end, q.box, q.contents) && q.box.Has(x)
    requires OffPlanes(t, q, p.Plus(x), num)
    ensures Clear(t, q, p, x, num)
    decreases t.Rank(num)
  {
    hide Distance, Reach, HeadsBack, QueryOf;
    if num >= 0 {
      var n := t.nodes[num];
      ReachBounds(n.plane, q, p, x);
      OffPlanesIsClear(t, q, p, x, if Distance(n.plane, p.Plus(x)) < 0.0 then n.back else n.front);
    }
  }

  /** Which child's share of a move a clear point of the box falls to. */
  lemma PointShare(n: Node, q: Query, p1: Vec3, p2: Vec3, s: real)
    requires 0.0 <= s <= 1.0
    ensures var at, r := Distance(n.plane, Along(p1, p2, s)), Reach(n.plane, q);
      var t1, t2 := Distance(n.plane, p1), Distance(n.plane, p2);
      && (at > -r ==> InFront(n, Divide(n, q, p1, p2), t1, t2, s))
      && (at <= r - DIST_EPSILON ==> InBack(n, Divide(n, q, p1, p2), t1, t2, s))
      && (at < r && HeadsBack(n.plane, p1, p2) ==> InBack(n, Divide(n, q, p1, p2), t1, t2, s))
  {
    hide Distance, Divide, Reach, InFront, InBack, EvenlyAt;
    DistanceAlong(n.plane, p1, p2, s);
    DivideCovers(n, q, p1, p2, s);
  }

  /** Unless the trace is cut short before, the leaf of every clear point of the moving box is seen. */
  lemma {:induction false} HullSees(w: World, q: Query, m: Mode, s: State, num: int, p1f: real, p2f: real, p1: Vec3,
                                    p2: Vec3, t: real, x: Vec3)
    requires w.Valid() && w.tree.Ref(num) && Kept(w, q, m.moving, s) && Covered(w, q, s) && |s.mail| == 16
    requires w.tree.Valid() && |w.leafs| == w.tree.numLeafs
    requires Stretch(q, p1f, p2f, p1, p2) && p1f <= t <= p2f
    requires Clear(w.tree, q, Along(q.start, q.end, t), x, num)
    requires t < HullCheck(w, q, m, s, num, p1f, p2f, p1, p2).trace.fraction
    ensures var leaf := PointLeaf(w.tree, Along(q.start, q.end, t).Plus(x), num);
      Meets(w.leafs[leaf].contents, q.contents) ==> leaf in HullCheck(w, q, m, s, num, p1f, p2f, p1, p2).seen
    decreases w.tree.Rank(num)
  {
    hide Kept, Covered, Along, Mid, Divide, Distance, Meets, w.Valid, w.tree.Valid, Stretch, HeadsBack, LeafFrom;
    HullKeeps(w, q, m, s, num, p1f, p2f, p1, p2);
    if num >= 0 {
      var n, y := w.tree.nodes[num], Along(q.start, q.end, t).Plus(x);
      var l := LocalAt(p1f, p2f, t);
      LocalIs(p1f, p2f, t);
      StretchAt(q, p1f, p2f, p1, p2, l);
      DivideStays(w.tree, num, q, p1, p2);
      if HeadsBack(n.plane, q.start, q.end) { StretchHeads(n.plane, q, p1f, p2f, p1, p2); }
      PointShare(n, q, p1, p2, l);
      match Divide(n, q, p1, p2)
      case OneChild(child) => HullSees(w, q, m, s, child, p1f, p2f, p1, p2, t, x);
      case Both(near, far, frac, frac2) =>
        BothSee(w, q, m, s, num, p1f, p2f, p1, p2, t, x, near, far, frac, frac2);
    }
  }

  lemma {:induction false} BothSee(w: World, q: Query, m: Mode, s: State, num: int, p1f: real, p2f: real, p1: Vec3,
                                   p2: Vec3, t: real, x: Vec3, near: int, far: int, frac: real, frac2: real)
    requires w.Valid() && w.tree.Ref(num) && Kept(w, q, m.moving, s) && Covered(w, q, s) && |s.mail| == 16
    requires w.tree.Valid() && |w.leafs| == w.tree.numLeafs
    requires Stretch(q, p1f, p2f, p1, p2) && p1f <= t <= p2f && num >= 0
    requires Clear(w.tree, q, Along(q.start, q.end, t), x, num)
    requires t < HullCheck(w, q, m, s, num, p1f, p2f, p1, p2).trace.fraction <= s.trace.fraction
    requires Divide(w.tree.nodes[num], q, p1, p2) == Both(near, far, frac, frac2)
    ensures var leaf := PointLeaf(w.tree, Along(q.start, q.end, t).Plus(x), num);
      Meets(w.leafs[leaf].contents, q.contents) ==> leaf in HullCheck(w, q, m, s, num, p1f, p2f, p1, p2).seen
    decreases w.tree.Rank(num), 0
  {
    hide Kept, Covered, Along, Mid, Divide, Distance, Meets, w.Valid, w.tree.Valid, Stretch, HeadsBack, LeafFrom;
    var n, y := w.tree.nodes[num], Along(q.start, q.end, t).Plus(x);
    var l := LocalAt(p1f, p2f, t);
    LocalIs(p1f, p2f, t);
    StretchAt(q, p1f, p2f, p1, p2, l);
    if HeadsBack(n.plane, q.start, q.end) { StretchHeads(n.plane, q, p1f, p2f, p1, p2); }
    PointShare(n, q, p1, p2, l);
    FractionsFit(n, q, p1, p2);
    DivideStays(w.tree, num, q, p1, p2);
    var m1, m2, mid1, mid2 := Mid(p1f, p2f, frac), Mid(p1f, p2f, frac2), Along(p1, p2, frac), Along(p1, p2, frac2);
    Halves(q, p1f, p2f, p1, p2, frac, frac2, l);
    HullKeeps(w, q, m, s, near, p1f, m1, p1, mid1);
    var ms := HullCheck(w, q, m, s, near, p1f, m1, p1, mid1);
    HullKeeps(w, q, m, ms, far, m2, p2f, mid2, p2);
    assert HullCheck(w, q, m, s, num, p1f, p2f, p1, p2) == HullCheck(w, q, m, ms, far, m2, p2f, mid2, p2);
    var c := if Distance(n.plane, y) < 0.0 then n.back else n.front;
    assert PointLeaf(w.tree, y, num) == PointLeaf(w.tree, y, c) && Clear(w.tree, q, Along(q.start, q.end, t), x, c);
    hide HullCheck, PointLeaf, Clear;
    if c == near && l <= frac {
      HullSees(w, q, m, s, near, p1f, m1, p1, mid1, t, x);
    } else {
      HullSees(w, q, m, ms, far, m2, p2f, mid2, p2, t, x);
    }
  }

  lemma Halves(q: Query, p1f: real, p2f: real, p1: Vec3, p2: Vec3, frac: real, frac2: real, l: real)
    requires Stretch(q, p1f, p2f, p1, p2) && 0.0 <= frac <= 1.0 && 0.0 <= frac2 <= 1.0
    ensures Stretch(q, p1f, Mid(p1f, p2f, frac), p1, Along(p1, p2, frac))
    ensures Stretch(q, Mid(p1f, p2f, frac2), p2f, Along(p1, p2, frac2), p2)
    ensures l <= frac ==> Mid(p1f, p2f, l) <= Mid(p1f, p2f, frac)
    ensures frac2 <= l ==> Mid(p1f, p2f, frac2) <= Mid(p1f, p2f, l)
  {
    hide Along, Mid;
    StretchAt(q, p1f, p2f, p1, p2, frac);
    StretchAt(q, p1f, p2f, p1, p2, frac2);
    MidGrows(p1f, p2f, frac, frac);
    MidGrows(p1f, p2f, frac2, frac2);
    if l <= frac { MidGrows(p1f, p2f, l, frac); }
    if frac2 <= l { MidGrows(p1f, p2f, frac2, l); }
  }

  // ----- a whole sweep

  /** A sweep sees the leaf of every clear point of the box at every moment before it ends. */
  lemma SweepSeesLeafs(w: World, q: Query, cached: bool, head: int, t: real, x: Vec3)
    requires w.Valid() && w.tree.Ref(head)
    requires 0.0 <= t < BoxTrace.Sweep(w, q, cached, head).trace.fraction
    requires Clear(w.tree, q, Along(q.start, q.end, t), x, head)
    ensures var leaf := PointLeaf(w.tree, Along(q.start, q.end, t).Plus(x), head);
      Meets(w.leafs[leaf].contents, q.contents) ==> leaf in BoxTrace.Sweep(w, q, cached, head).seen
  {
    hide HullCheck, Kept, Covered, Meets, PointLeaf, Clear, Below;
    FreshKept(w, q, true);
    WorldTree(w);
    AlongWhole(q.start, q.end);
    SoundStart(w, q, cached, head);
    HullSees(w, q, Mode(true, cached), Fresh(), head, 0.0, 1.0, q.start, q.end, t, x);
  }

  lemma SoundStart(w: World, q: Query, cached: bool, head: int)
    requires w.Valid() && w.tree.Ref(head)
    ensures BoxTrace.Sweep(w, q, cached, head).trace.fraction <= 1.0
    ensures Along(q.start, q.end, 0.0) == q.start
  {
    hide HullCheck, Kept, Covered;
    FreshKept(w, q, true);
    HullKeeps(w, q, Mode(true, cached), Fresh(), head, 0.0, 1.0, q.start, q.end);
  }

  /** No part of a moving box gets deep into a brush of the map: at every moment before the end of a sweep
      that is not stuck all along, whatever leaf a clear point of the box is in, the box is not deeper than
      the epsilon inside all the sides of any relevant brush of that leaf, unless it started in it. */
  lemma NeverDeepInTheMap(w: World, q: Query, head: int, t: real, x: Vec3, k: nat)
    requires w.Valid() && w.tree.Ref(head)
    requires 0.0 <= t < BoxTrace.Sweep(w, q, true, head).trace.fraction
    requires !BoxTrace.Sweep(w, q, true, head).trace.allSolid
    requires Clear(w.tree, q, Along(q.start, q.end, t), x, head)
    requires var leaf := PointLeaf(w.tree, Along(q.start, q.end, t).Plus(x), head);
      && Meets(w.leafs[leaf].contents, q.contents) && k < w.leafs[leaf].numLeafBrushes
      && Relevant(w, q, w.BrushAt(leaf, k))
      && !AllBehind(q.GapsTo(w.brushes[w.BrushAt(leaf, k)]), |w.brushes[w.BrushAt(leaf, k)].sides|, false)
    ensures var b := w.brushes[w.BrushAt(PointLeaf(w.tree, Along(q.start, q.end, t).Plus(x), head), k)];
      !Deep(q.GapsTo(b), |b.sides|, t)
  {
    hide BoxTrace.Sweep, Meets, Clear, AllBehind, Deep, Along;
    var leaf := PointLeaf(w.tree, Along(q.start, q.end, t).Plus(x), head);
    SweepSeesLeafs(w, q, true, head, t, x);
    SweepIsShallow(w, q, head, w.BrushAt(leaf, k), t);
  }
}
