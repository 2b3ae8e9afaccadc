/** A sweep looks at no more of the map than the box comes near to (src/cmodel.c): the partner of SweepCover. */
module SweepReach {
  import opened Vectors
  import opened Bsp
  import opened BrushClip
  import opened BoxTrace
  import opened SweepCover

  /** The box at `p` comes within the epsilon of that side of the plane. */
  ghost predicate Reaches(plane: Plane, q: Query, p: Vec3, front: bool)
  {
    if front then Distance(plane, p) >= -Reach(plane, q) - DIST_EPSILON
    else Distance(plane, p) <= Reach(plane, q) + DIST_EPSILON
  }

  /** The box at `p` comes within the epsilon of the leaf's side of every plane on the way down to it. */
  ghost predicate ComesNear(t: Tree, q: Query, p: Vec3, num: int, leaf: int)
    requires t.Valid() && t.Ref(num)
    decreases t.Rank(num)
  {
    if num < 0 then leaf == -1 - num
    else
      var n := t.nodes[num];
      || (Reaches(n.plane, q, p, true) && ComesNear(t, q, p, n.front, leaf))
      || (Reaches(n.plane, q, p, false) && ComesNear(t, q, p, n.back, leaf))
  }

  ghost predicate ChildReached(n: Node, q: Query, p: Vec3, child: int)
  {
    (child == n.front && Reaches(n.plane, q, p, true)) || (child == n.back && Reaches(n.plane, q, p, false))
  }

  lemma Unscaled(x: real, d: real, t: real)
    requires d != 0.0 && 0.0 <= t <= 1.0
    ensures d > 0.0 && 0.0 <= x && t <= CrossAt(x, d) ==> t * d <= x
    ensures d > 0.0 && x <= d && CrossAt(x, d) <= t ==> x <= t * d
    ensures d < 0.0 && x <= 0.0 && t <= CrossAt(x, d) ==> x <= t * d
    ensures d < 0.0 && d <= x && CrossAt(x, d) <= t ==> t * d <= x
    ensures d < 0.0 && 0.0 < x && t <= CrossAt(x, d) ==> t == 0.0
  {
    var v := x * (1.0 / d);
    assert CrossAt(x, d) == Clamp(v);
    Inverse(x, d);
    Compares(v, d, x, t);
    Compares(v, d, x, 0.0);
    Compares(v, d, x, 1.0);
    hide CrossAt;
  }

  /** A child's share of a move is no more than where the box comes near its side. */
  ghost predicate Shares(n: Node, q: Query, d: Division, p: Vec3, s: real)
  {
    match d
    case OneChild(child) => ChildReached(n, q, p, child)
    case Both(near, far, frac, frac2) =>
      && (s <= frac ==> ChildReached(n, q, p, near))
      && (frac2 <= s ==> ChildReached(n, q, p, far))
  }

  lemma DivideReaches(n: Node, q: Query, p1: Vec3, p2: Vec3, s: real)
    requires 0.0 <= s <= 1.0 && Reach(n.plane, q) >= 0.0
    ensures Shares(n, q, Divide(n, q, p1, p2), Along(p1, p2, s), s)
  {
    var t1, t2, at := Distance(n.plane, p1), Distance(n.plane, p2), Distance(n.plane, Along(p1, p2, s));
    DistanceAlong(n.plane, p1, p2, s);
    EvenlyBetween(t1, t2, s);
    hide Distance, Reach, CrossAt, EvenlyAt, Along, Shares;
    if Divide(n, q, p1, p2).OneChild? || t1 == t2 {
      ReachesStraight(n, q, p1, p2, s, Along(p1, p2, s));
    } else if t1 > t2 {
      ReachesDown(n, q, p1, p2, s, Along(p1, p2, s));
    } else {
      ReachesUp(n, q, p1, p2, s, Along(p1, p2, s));
    }
  }

  lemma ReachesStraight(n: Node, q: Query, p1: Vec3, p2: Vec3, s: real, p: Vec3)
    requires Divide(n, q, p1, p2).OneChild? || Distance(n.plane, p1) == Distance(n.plane, p2)
    requires Reach(n.plane, q) >= 0.0
    requires var t1, t2, at := Distance(n.plane, p1), Distance(n.plane, p2), Distance(n.plane, p);
      t1 <= at <= t2 || t2 <= at <= t1
    ensures Shares(n, q, Divide(n, q, p1, p2), p, s)
  {
    hide Distance, Reach, CrossAt;
  }

  lemma ReachesDown(n: Node, q: Query, p1: Vec3, p2: Vec3, s: real, p: Vec3)
    requires 0.0 <= s <= 1.0 && Distance(n.plane, p1) > Distance(n.plane, p2) && Divide(n, q, p1, p2).Both?
    requires Distance(n.plane, p) == Distance(n.plane, p1) - s * (Distance(n.plane, p1) - Distance(n.plane, p2))
    ensures Shares(n, q, Divide(n, q, p1, p2), p, s)
  {
    var t1, t2, r := Distance(n.plane, p1), Distance(n.plane, p2), Reach(n.plane, q);
    hide Distance, Reach, CrossAt;
    Unscaled(t1 + r + DIST_EPSILON, t1 - t2, s);
    Unscaled(t1 - r - DIST_EPSILON, t1 - t2, s);
  }

  lemma ReachesUp(n: Node, q: Query, p1: Vec3, p2: Vec3, s: real, p: Vec3)
    requires 0.0 <= s <= 1.0 && Distance(n.plane, p1) < Distance(n.plane, p2) && Divide(n, q, p1, p2).Both?
    requires Distance(n.plane, p) == Distance(n.plane, p1) - s * (Distance(n.plane, p1) - Distance(n.plane, p2))
    ensures Shares(n, q, Divide(n, q, p1, p2), p, s)
  {
    var t1, t2, r := Distance(n.plane, p1), Distance(n.plane, p2), Reach(n.plane, q);
    hide Distance, Reach, CrossAt;
    Unscaled(t1 - r + DIST_EPSILON, t1 - t2, s);
    Unscaled(t1 + r + DIST_EPSILON, t1 - t2, s);
  }

  // ----- the descent

  lemma Cancels(x: real, d: real, c: real)
    requires d > 0.0
    ensures d * (x / d) == x && (x <= d * c ==> x / d <= c) && (d * c <= x ==> c <= x / d)
  {
    var l := x / d;
    assert l * d == x && d * l == l * d;
    Signs(l - c, d);
    assert (l - c) * d == l * d - c * d;
  }

  lemma Level(x: real, d: real, c: real)
    requires d == 0.0
    ensures x + d * c == x
  {
  }

  lemma LocalWithin(p1f: real, p2f: real, a: real, b: real, t: real) returns (l: real)
    requires p1f <= p2f && a <= b && Mid(p1f, p2f, a) <= t <= Mid(p1f, p2f, b)
    ensures a <= l <= b && Mid(p1f, p2f, l) == t
  {
    var d := p2f - p1f;
    assert Mid(p1f, p2f, a) == p1f + d * a && Mid(p1f, p2f, b) == p1f + d * b;
    if d == 0.0 {
      l := a;
      Level(p1f, d, a);
      Level(p1f, d, b);
    } else {
      l := (t - p1f) / d;
      Cancels(t - p1f, d, a);
      Cancels(t - p1f, d, b);
    }
    assert Mid(p1f, p2f, l) == p1f + d * l;
  }

  lemma {:induction false} LeafSeesNone(w: World, q: Query, m: Mode, s: State, leaf: int, k: nat)
    requires w.Valid() && 0 <= leaf < |w.leafs| && k <= w.leafs[leaf].numLeafBrushes && |s.mail| == 16
    ensures LeafFrom(w, q, m, s, leaf, k).seen == s.seen
    decreases w.leafs[leaf].numLeafBrushes - k
  {
    hide Apply, Relevant;
    if k < w.leafs[leaf].numLeafBrushes {
      var num := w.BrushAt(leaf, k);
      if !Stops(w, q, m, s, leaf, num) { LeafSeesNone(w, q, m, TryBrush(w, q, m, s, leaf, num), leaf, k + 1); }
    }
  }

  /** The reach to any plane is not negative. */
  ghost predicate Wide(q: Query) { q.extents.x >= 0.0 && q.extents.y >= 0.0 && q.extents.z >= 0.0 }

  lemma WideReaches(plane: Plane, q: Query)
    requires Wide(q)
    ensures Reach(plane, q) >= 0.0
  {
  }

  lemma NearAlong(w: World, q: Query, num: int, p1f: real, p2f: real, p1: Vec3, p2: Vec3, t: real, l: real, child: int,
                  leaf: int)
    requires w.tree.Valid() && w.tree.Ref(num) && num >= 0 && Stretch(q, p1f, p2f, p1, p2) && Mid(p1f, p2f, l) == t
    requires ChildReached(w.tree.nodes[num], q, Along(p1, p2, l), child) && w.tree.Ref(child)
    requires ComesNear(w.tree, q, Along(q.start, q.end, t), child, leaf)
    ensures ComesNear(w.tree, q, Along(q.start, q.end, t), num, leaf)
  {
    StretchAt(q, p1f, p2f, p1, p2, l);
    hide Along, Stretch, Reaches, Mid;
  }

  /** Every leaf that a stretch of the descent sees anew is one that the box comes near to on that stretch. */
  lemma {:induction false} HullReaches(w: World, q: Query, m: Mode, s: State, num: int, p1f: real, p2f: real, p1: Vec3,
                                       p2: Vec3, leaf: int) returns (t: real)
    requires w.Valid() && w.tree.Valid() && w.tree.Ref(num) && |s.mail| == 16 && |w.leafs| == w.tree.numLeafs && Wide(q)
    requires Stretch(q, p1f, p2f, p1, p2)
    requires leaf in HullCheck(w, q, m, s, num, p1f, p2f, p1, p2).seen && leaf !in s.seen
    ensures p1f <= t <= p2f && ComesNear(w.tree, q, Along(q.start, q.end, t), num, leaf)
    ensures 0 <= leaf < |w.leafs| && Meets(w.leafs[leaf].contents, q.contents)
    decreases w.tree.Rank(num)
  {
    hide w.Valid, w.tree.Valid, Stretch, Along, Mid, Divide, LeafFrom, Meets, Reach, Wide;
    t := p1f;
    StretchRises(q, p1f, p2f, p1, p2);
    if num < 0 {
      if Meets(w.leafs[-1 - num].contents, q.contents) { LeafSeesNone(w, q, m, s, -1 - num, 0); }
    } else {
      var n := w.tree.nodes[num];
      DivideStays(w.tree, num, q, p1, p2);
      WideReaches(n.plane, q);
      match Divide(n, q, p1, p2)
      case OneChild(child) =>
        t := HullReaches(w, q, m, s, child, p1f, p2f, p1, p2, leaf);
        MidEnds(p1f, p2f);
        var l := LocalWithin(p1f, p2f, 0.0, 1.0, t);
        DivideReaches(n, q, p1, p2, l);
        NearAlong(w, q, num, p1f, p2f, p1, p2, t, l, child, leaf);
      case Both(near, far, frac, frac2) =>
        t := BothReach(w, q, m, s, num, p1f, p2f, p1, p2, leaf, near, far, frac, frac2);
    }
  }

  lemma MidEnds(p1f: real, p2f: real)
    ensures Mid(p1f, p2f, 0.0) == p1f && Mid(p1f, p2f, 1.0) == p2f
  {
  }

  lemma {:induction false} BothReach(w: World, q: Query, m: Mode, s: State, num: int, p1f: real, p2f: real, p1: Vec3,
                                     p2: Vec3, leaf: int, near: int, far: int, frac: real, frac2: real)
    returns (t: real)
    requires w.Valid() && w.tree.Valid() && w.tree.Ref(num) && |s.mail| == 16 && |w.leafs| == w.tree.numLeafs && Wide(q)
    requires Stretch(q, p1f, p2f, p1, p2) && num >= 0 && s.trace.fraction > p1f
    requires Divide(w.tree.nodes[num], q, p1, p2) == Both(near, far, frac, frac2)
    requires leaf in HullCheck(w, q, m, s, num, p1f, p2f, p1, p2).seen && leaf !in s.seen
    ensures p1f <= t <= p2f && ComesNear(w.tree, q, Along(q.start, q.end, t), num, leaf)
    ensures 0 <= leaf < |w.leafs| && Meets(w.leafs[leaf].contents, q.contents)
    decreases w.tree.Rank(num), 0
  {
    hide w.Valid, w.tree.Valid, Stretch, Along, Mid, Divide, Meets, Reach, Wide, ComesNear;
    var n := w.tree.nodes[num];
    DivideStays(w.tree, num, q, p1, p2);
    WideReaches(n.plane, q);
    FractionsFit(n, q, p1, p2);
    var m1, m2, mid1, mid2 := Mid(p1f, p2f, frac), Mid(p1f, p2f, frac2), Along(p1, p2, frac), Along(p1, p2, frac2);
    Halves(q, p1f, p2f, p1, p2, frac, frac2, 0.0);
    MidEnds(p1f, p2f);
    StretchRises(q, p1f, p2f, p1, p2);
    MidGrows(p1f, p2f, frac, 1.0);
    MidGrows(p1f, p2f, 0.0, frac2);
    MidGrows(p1f, p2f, 0.0, frac);
    MidGrows(p1f, p2f, frac2, 1.0);
    var mid := HullCheck(w, q, m, s, near, p1f, m1, p1, mid1);
    assert HullCheck(w, q, m, s, num, p1f, p2f, p1, p2) == HullCheck(w, q, m, mid, far, m2, p2f, mid2, p2);
    hide HullCheck;
    var l;
    if leaf in mid.seen {
      t := HullReaches(w, q, m, s, near, p1f, m1, p1, mid1, leaf);
      l := LocalWithin(p1f, p2f, 0.0, frac, t);
      DivideReaches(n, q, p1, p2, l);
      NearAlong(w, q, num, p1f, p2f, p1, p2, t, l, near, leaf);
    } else {
      t := HullReaches(w, q, m, mid, far, m2, p2f, mid2, p2, leaf);
      l := LocalWithin(p1f, p2f, frac2, 1.0, t);
      DivideReaches(n, q, p1, p2, l);
      NearAlong(w, q, num, p1f, p2f, p1, p2, t, l, far, leaf);
    }
  }

  lemma StretchRises(q: Query, p1f: real, p2f: real, p1: Vec3, p2: Vec3)
    requires Stretch(q, p1f, p2f, p1, p2)
    ensures p1f <= p2f
  {
  }

  /** A sweep sees a leaf only if at some moment of the move the box comes within the epsilon of it, by every
      plane on the way down to it, and its contents are asked for. */
  lemma SeenIsReached(w: World, q: Query, cached: bool, head: int, leaf: int) returns (t: real)
    requires w.Valid() && w.tree.Ref(head) && q == QueryOf(q.start, q.end, q.box, q.contents) && q.box.Ordered()
    requires leaf in BoxTrace.Sweep(w, q, cached, head).seen
    ensures 0.0 <= t <= 1.0 && ComesNear(w.tree, q, Along(q.start, q.end, t), head, leaf)
    ensures 0 <= leaf < |w.leafs| && Meets(w.leafs[leaf].contents, q.contents)
  {
    WorldTree(w);
    AlongWhole(q.start, q.end);
    hide HullCheck, w.Valid, Meets, ComesNear;
    t := HullReaches(w, q, Mode(true, cached), Fresh(), head, 0.0, 1.0, q.start, q.end, leaf);
  }
}
