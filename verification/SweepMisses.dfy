/** What a sweep may miss: points less than the epsilon behind a plane that the move heads to the front of,
    and points on a plane that the box no more than touches from behind. */
module SweepMisses {
  import opened Vectors
  import opened Bsp
  import opened BrushClip
  import opened BoxTrace
  import opened SweepCover

  const EMPTY := Leaf(1, 0, 0, 0, 0)

  function PointQuery(start: Vec3, end: Vec3): Query { Query(start, end, Box(ORIGIN, ORIGIN), ORIGIN, 1, true) }

  lemma VisitEmpty(w: World, q: Query, m: Mode, s: State, leaf: int)
    requires w.Valid() && |s.mail| == 16 && 0 <= leaf < |w.leafs| && w.leafs[leaf] == EMPTY && q.contents == 1
    ensures VisitLeaf(w, q, m, s, leaf) == s.(seen := s.seen + {leaf})
  {
    assert q.contents & 1 != 0;
  }

  // ----- heading to the front

  /** Space in front of one plane, and behind it in front of and behind another, which the move crosses just
      before the first. */
  function Corner(): World
  {
    World(Tree([Node(AxisPlane(0, 0.0), -1, 1), Node(AxisPlane(1, -0.01), -2, -3)], [1, 0], 3),
          [EMPTY, EMPTY, EMPTY], [], [])
  }

  function Diagonal(): Query { PointQuery(Vec3(-1.0, -1.0, 0.0), Vec3(1.0, 1.0, 0.0)) }

  lemma CornerIsValid()
    ensures Corner().Valid() && Corner().tree.Ref(0) && Corner().tree.Ref(1)
  {
  }

  lemma DiagonalDivides()
    ensures var w, q := Corner(), Diagonal();
      && Divide(w.tree.nodes[0], q, q.start, q.end) == Both(1, -1, 0.484375, 0.484375)
      && Divide(w.tree.nodes[1], q, q.start, Along(q.start, q.end, 0.484375)) == OneChild(-3)
  {
  }

  /** The way down through two nodes. */
  lemma WayDown(t: Tree, p: Vec3)
    requires t.Valid() && |t.nodes| == 2 && t.nodes[0].back == 1 && t.nodes[1].front == -2
    requires Distance(t.nodes[0].plane, p) < 0.0 <= Distance(t.nodes[1].plane, p)
    ensures t.Ref(0) && PointLeaf(t, p, 0) == 1
  {
    hide Distance, Signed;
    assert PointLeaf(t, p, 1) == PointLeaf(t, p, -2) == 1;
  }

  const BEND := Vec3(-0.005, -0.005, 0.0)

  lemma DiagonalBends()
    ensures Along(Diagonal().start, Diagonal().end, 0.4975) == BEND
  {
  }

  lemma BendLies()
    ensures Distance(AxisPlane(0, 0.0), BEND) < 0.0 <= Distance(AxisPlane(1, -0.01), BEND)
  {
  }

  lemma DiagonalPassesCorner()
    ensures Corner().tree.Valid() && Corner().tree.Ref(0)
    ensures PointLeaf(Corner().tree, Along(Diagonal().start, Diagonal().end, 0.4975), 0) == 1
  {
    DiagonalBends();
    BendLies();
    CornerIsValid();
    hide PointLeaf, Distance, Along, Signed, Diagonal, AxisPlane;
    WayDown(Corner().tree, BEND);
  }

  lemma DiagonalSees(cached: bool)
    ensures var w, q := Corner(), Diagonal();
      && w.Valid() && w.tree.Ref(0)
      && BoxTrace.Sweep(w, q, cached, 0) == Fresh().(seen := {0, 2})
  {
    CornerIsValid();
    DiagonalDivides();
    var w, q, m := Corner(), Diagonal(), Mode(true, cached);
    hide Divide, VisitLeaf, Along;
    var s0, mid := Fresh(), Along(q.start, q.end, 0.484375);
    VisitEmpty(w, q, m, s0, 2);
    var s1 := VisitLeaf(w, q, m, s0, 2);
    VisitEmpty(w, q, m, s1, 0);
    assert HullCheck(w, q, m, s0, -3, 0.0, 0.484375, q.start, mid) == s1;
    assert HullCheck(w, q, m, s0, 1, 0.0, 0.484375, q.start, mid) == s1;
    assert HullCheck(w, q, m, s1, -1, 0.484375, 1.0, mid, q.end) == VisitLeaf(w, q, m, s1, 0);
  }

  lemma DiagonalAsks()
    ensures var q := Diagonal();
      q == QueryOf(q.start, q.end, q.box, q.contents) && Meets(EMPTY.contents, q.contents)
  {
    assert Diagonal().contents & 1 != 0;
  }

  /** The leaf in the corner is left out, although the point passes through it and nothing stops the point. */
  lemma CornerIsMissed(cached: bool)
    ensures var w, q := Corner(), Diagonal();
      && w.Valid() && w.tree.Ref(0) && q == QueryOf(q.start, q.end, q.box, q.contents)
      && BoxTrace.Sweep(w, q, cached, 0).trace.fraction == 1.0 && BoxTrace.Sweep(w, q, cached, 0).seen == {0, 2}
      && PointLeaf(w.tree, Along(q.start, q.end, 0.4975), 0) == 1
      && Meets(w.leafs[1].contents, q.contents)
  {
    DiagonalPassesCorner();
    DiagonalSees(cached);
    DiagonalAsks();
    hide HullCheck, PointLeaf, Along, Signed, Meets, QueryOf, Diagonal, BoxTrace.Sweep;
  }

  // ----- touching from behind

  function Halved(): World
  {
    World(Tree([Node(AxisPlane(0, 0.0), -1, -2)], [0], 2), [EMPTY, EMPTY], [], [])
  }

  function Leaving(): Query { PointQuery(ORIGIN, Vec3(-1.0, 0.0, 0.0)) }

  /** A point on the plane counts as in front of it; moving off to the back, it is traced in the back only. */
  lemma PlaneIsMissed(cached: bool)
    ensures var w, q := Halved(), Leaving();
      && w.Valid() && w.tree.Ref(0) && q == QueryOf(q.start, q.end, q.box, q.contents)
      && BoxTrace.Sweep(w, q, cached, 0).trace.fraction == 1.0 && BoxTrace.Sweep(w, q, cached, 0).seen == {1}
      && PointLeaf(w.tree, Along(q.start, q.end, 0.0), 0) == 0
      && Meets(w.leafs[0].contents, q.contents)
  {
    var w, q, m := Halved(), Leaving(), Mode(true, cached);
    assert q.contents & 1 != 0;
    assert Divide(w.tree.nodes[0], q, q.start, q.end) == OneChild(-2);
    hide Divide, VisitLeaf;
    VisitEmpty(w, q, m, Fresh(), 1);
    assert HullCheck(w, q, m, Fresh(), -2, 0.0, 1.0, q.start, q.end) == VisitLeaf(w, q, m, Fresh(), 1);
  }
}
