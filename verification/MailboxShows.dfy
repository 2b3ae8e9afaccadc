/** Where the mailbox of a trace shows: traces through small maps with it and without it. */
module MailboxShows {
  import opened Vectors
  import opened Bsp
  import opened BrushClip
  import opened BoxTrace

  function OneSided(plane: Plane, surface: int): Brush { Brush(1, [Side(plane, surface)]) }

  /** The gaps of a point to a brush of one side. */
  lemma GapsToOne(q: Query, plane: Plane, surface: int)
    requires q.isPoint
    ensures q.GapsTo(OneSided(plane, surface)) ==
      [Gaps(Dot(q.start, plane.normal) - plane.dist, Dot(q.end, plane.normal) - plane.dist)]
  {
  }

  /** One side that the move goes through. */
  lemma ClipOne(tr: Trace, leaf: int, b: Brush, g: Gaps)
    requires |b.sides| == 1 && g.start > 0.0 >= g.end && -1.0 < Enters(g) < 1.0
    ensures Clip(tr, leaf, b, [g]) ==
      if Enters(g) < tr.fraction then
        tr.(fraction := if Enters(g) < 0.0 then 0.0 else Enters(g), plane := b.sides[0].plane,
            surface := b.sides[0].surface, contents := b.contents, leafNum := leaf)
      else tr
  {
    hide Enters;
    var gaps := [g];
    assert SweepOf(gaps, 0) == Sweep(-1.0, 1.0, -1, false, false);
    assert !Missed(gaps);
  }

  lemma TryMeans(w: World, q: Query, m: Mode, s: State, leaf: int, num: nat)
    requires num < |w.brushes| && num < 16 == |s.mail| && Relevant(w, q, num)
    ensures var skip, r := m.cached && s.mail[num] == num, TryBrush(w, q, m, s, leaf, num);
      && r.mail == s.mail[num := num]
      && r.trace == (if skip then s.trace else Apply(q, m.moving, s.trace, leaf, w.brushes[num]))
      && Stops(w, q, m, s, leaf, num) == (!skip && r.trace.allSolid)
  {
    hide Apply;
  }

  /** One leaf that lists its first brush twice. */
  function TwiceListed(): World
  {
    World(Tree([], [], 1), [Leaf(1, 0, 0, 0, 3)], [0, 1, 0],
          [OneSided(AxisPlane(0, 0.0), 1), OneSided(AxisPlane(0, -0.01), 2)])
  }

  function Touching(): Query
  {
    Query(Vec3(0.01, 0.0, 0.0), Vec3(-1.0, 0.0, 0.0), Box(ORIGIN, ORIGIN), ORIGIN, 1, true)
  }

  /** What is left of a trace when that brush stops it. */
  function Hit(tr: Trace, num: nat): Trace
    requires num < 2
  {
    tr.(fraction := 0.0, plane := AxisPlane(0, if num == 0 then 0.0 else -0.01), surface := num + 1, contents := 1,
        leafNum := 0)
  }

  /** A move that starts nearer than the epsilon is stopped at once. */
  lemma EntersBefore(g: Gaps)
    requires g.start - g.end == 1.01 && (g.start == 0.01 || g.start == 0.02)
    ensures -1.0 < Enters(g) < 0.0
  {
  }

  lemma HitsAtOnce(tr: Trace, num: nat)
    requires num < 2 && 0.0 <= tr.fraction
    ensures Apply(Touching(), true, tr, 0, TwiceListed().brushes[num]) == Hit(tr, num)
  {
    var dist := if num == 0 then 0.0 else -0.01;
    var b, g := OneSided(AxisPlane(0, dist), num + 1), Gaps(0.01 - dist, -1.0 - dist);
    EntersBefore(g);
    GapsToOne(Touching(), AxisPlane(0, dist), num + 1);
    hide Enters, Clip, GapsOf;
    ClipOne(tr, 0, b, g);
  }

  lemma TriesAgain(cached: bool, s: State, num: nat)
    requires num < 2 && |s.mail| == 16 && 0.0 <= s.trace.fraction && !s.trace.allSolid
    ensures var w, q, m := TwiceListed(), Touching(), Mode(true, cached);
      && !Stops(w, q, m, s, 0, num)
      && var r := TryBrush(w, q, m, s, 0, num);
      && r.mail == s.mail[num := num]
      && r.trace == if cached && s.mail[num] == num then s.trace else Hit(s.trace, num)
  {
    HitsAtOnce(s.trace, num);
    assert Touching().contents & 1 != 0 && Relevant(TwiceListed(), Touching(), num);
    hide Apply, TryBrush, Stops, Meets;
    TryMeans(TwiceListed(), Touching(), Mode(true, cached), s, 0, num);
  }

  lemma LeafTwice(cached: bool)
    ensures var w, q := TwiceListed(), Touching();
      w.Valid() && BoxTrace.Sweep(w, q, cached, -1).trace ==
        if cached then Hit(Hit(NO_TRACE, 0), 1) else Hit(Hit(Hit(NO_TRACE, 0), 1), 0)
  {
    var w, q, m := TwiceListed(), Touching(), Mode(true, cached);
    assert w.BrushAt(0, 0) == w.BrushAt(0, 2) == 0 && w.BrushAt(0, 1) == 1;
    assert q.contents & 1 != 0;
    hide TryBrush, Stops;
    var s0 := Fresh();
    TriesAgain(cached, s0, 0);
    var s1 := TryBrush(w, q, m, s0, 0, 0);
    TriesAgain(cached, s1, 1);
    var s2 := TryBrush(w, q, m, s1, 0, 1);
    TriesAgain(cached, s2, 0);
    var s3 := TryBrush(w, q, m, s2, 0, 0);
    assert LeafFrom(w, q, m, s3, 0, 3) == s3;
    assert LeafFrom(w, q, m, s2, 0, 2) == s3;
    assert LeafFrom(w, q, m, s1, 0, 1) == s3;
    assert LeafFrom(w, q, m, s0, 0, 0) == s3;
  }

  /** A point that starts within the epsilon of both brushes stops at once.  The brush tried last is reported;
      which one that is depends on the mailbox when a leaf lists the first of them again. */
  lemma RepeatIsReported()
    ensures var w, q := TwiceListed(), Touching();
      && w.Valid() && w.tree.Ref(-1) && q == QueryOf(q.start, q.end, q.box, q.contents)
      && var a, c := BoxTrace.Sweep(w, q, true, -1).trace, BoxTrace.Sweep(w, q, false, -1).trace;
      !a.allSolid && a.fraction == c.fraction == 0.0 && a.surface == 2 && c.surface == 1 && a.plane != c.plane
  {
    hide HullCheck;
    LeafTwice(true);
    LeafTwice(false);
  }

  // ----- a box that is stuck all along

  /** A brush that fills the world, listed in both leafs, and one listed in the lower leaf only. */
  function Filled(): World
  {
    World(Tree([Node(AxisPlane(2, 0.0), -1, -2)], [0], 2), [Leaf(1, 0, 0, 0, 1), Leaf(1, 0, 0, 0, 2)], [0, 1],
          [OneSided(AxisPlane(2, 10.0), 1), OneSided(AxisPlane(2, 0.0), 2)])
  }

  function Falling(): Query
  {
    Query(Vec3(0.0, 0.0, 1.0), Vec3(0.0, 0.0, -1.0), Box(ORIGIN, ORIGIN), ORIGIN, 1, true)
  }

  lemma ClipWithin(tr: Trace, leaf: int, b: Brush, g: Gaps)
    requires |b.sides| == 1 && g.start <= 0.0 && g.end <= 0.0
    ensures Clip(tr, leaf, b, [g]) == tr.(startSolid := true, allSolid := true, leafNum := leaf)
  {
    var gaps := [g];
    assert SweepOf(gaps, 0) == Sweep(-1.0, 1.0, -1, false, false);
    assert !Missed(gaps);
  }

  lemma FallsWithin(tr: Trace, leaf: int)
    ensures Apply(Falling(), true, tr, leaf, Filled().brushes[0]) ==
      tr.(startSolid := true, allSolid := true, leafNum := leaf)
  {
    GapsToOne(Falling(), AxisPlane(2, 10.0), 1);
    hide Clip, GapsOf;
    ClipWithin(tr, leaf, OneSided(AxisPlane(2, 10.0), 1), Gaps(-9.0, -11.0));
  }

  lemma FallsOnto(tr: Trace, leaf: int)
    requires tr.fraction == 1.0
    ensures Apply(Falling(), true, tr, leaf, Filled().brushes[1]) ==
      tr.(fraction := 0.484375, plane := AxisPlane(2, 0.0), surface := 2, contents := 1, leafNum := leaf)
  {
    GapsToOne(Falling(), AxisPlane(2, 0.0), 2);
    assert Enters(Gaps(1.0, -1.0)) == 0.484375;
    hide Clip, GapsOf, Enters;
    ClipOne(tr, leaf, OneSided(AxisPlane(2, 0.0), 2), Gaps(1.0, -1.0));
  }

  lemma FilledIsValid()
    ensures Filled().Valid() && Filled().tree.Ref(0) && Falling().contents & 1 != 0
  {
  }

  lemma UpperLeaf(cached: bool)
    ensures var w, q := Filled(), Falling();
      && w.Valid() && var r := VisitLeaf(w, q, Mode(true, cached), Fresh(), 0);
      && r.trace == NO_TRACE.(startSolid := true, allSolid := true) && r.mail[0] == 0 && r.mail[1] == -1
  {
    FilledIsValid();
    FallsWithin(NO_TRACE, 0);
    hide Apply;
    var w, q, m := Filled(), Falling(), Mode(true, cached);
    assert w.BrushAt(0, 0) == 0;
    assert LeafFrom(w, q, m, Fresh(), 0, 0) == TryBrush(w, q, m, Fresh(), 0, 0);
  }

  lemma FilledIsRelevant(num: nat)
    requires num < 2
    ensures Relevant(Filled(), Falling(), num)
  {
    assert Falling().contents & 1 != 0;
  }

  lemma TriesInLower(cached: bool, s: State, num: nat)
    requires |s.mail| == 16 && num < 2 && s.trace.allSolid && s.trace.fraction == 1.0
    ensures var w, q, m := Filled(), Falling(), Mode(true, cached);
      && Stops(w, q, m, s, 1, num) == !(cached && s.mail[num] == num)
      && var r := TryBrush(w, q, m, s, 1, num);
      && r.mail == s.mail[num := num] && r.trace.allSolid
      && r.trace.fraction == if num == 0 || !Stops(w, q, m, s, 1, num) then 1.0 else 0.484375
  {
    FilledIsRelevant(num);
    hide Apply, TryBrush, Stops, Relevant, Falling;
    if num == 0 {
      FallsWithin(s.trace, 1);
    } else {
      FallsOnto(s.trace, 1);
    }
    TryMeans(Filled(), Falling(), Mode(true, cached), s, 1, num);
  }

  lemma LowerLeaf(cached: bool, s: State)
    requires |s.mail| == 16 && s.mail[0] == 0 && s.mail[1] != 1 && s.trace.allSolid && s.trace.fraction == 1.0
    ensures var w, q := Filled(), Falling();
      && w.Valid() && var r := VisitLeaf(w, q, Mode(true, cached), s, 1);
      && r.trace.allSolid && r.trace.fraction == if cached then 0.484375 else 1.0
  {
    FilledIsValid();
    var w, q, m := Filled(), Falling(), Mode(true, cached);
    assert w.BrushAt(1, 0) == 0 && w.BrushAt(1, 1) == 1;
    hide TryBrush, Stops;
    TriesInLower(cached, s, 0);
    var s1 := TryBrush(w, q, m, s, 1, 0);
    if cached {
      TriesInLower(cached, s1, 1);
      assert LeafFrom(w, q, m, s1, 1, 1) == TryBrush(w, q, m, s1, 1, 1);
    }
  }

  lemma FallDivides()
    ensures var w, q := Filled(), Falling();
      Divide(w.tree.nodes[0], q, q.start, q.end) == Both(-1, -2, 0.515625, 0.484375)
  {
  }

  /** A box that is stuck all along leaves a leaf when the brush that holds it is tried.  Skipping that brush
      in the next leaf, the trace tries the others there, and may report less of the move. */
  lemma StuckFractionDiffers()
    ensures var w, q := Filled(), Falling();
      && w.Valid() && w.tree.Ref(0) && q == QueryOf(q.start, q.end, q.box, q.contents)
      && var a, c := BoxTrace.Sweep(w, q, true, 0).trace, BoxTrace.Sweep(w, q, false, 0).trace;
      a.allSolid && c.allSolid && a.fraction == 0.484375 && c.fraction == 1.0
  {
    FilledIsValid();
    FallDivides();
    hide VisitLeaf, Divide;
    var w, q := Filled(), Falling();
    forall cached: bool
      ensures BoxTrace.Sweep(w, q, cached, 0).trace.allSolid
      ensures BoxTrace.Sweep(w, q, cached, 0).trace.fraction == if cached then 0.484375 else 1.0
    {
      var m := Mode(true, cached);
      var upper := VisitLeaf(w, q, m, Fresh(), 0);
      UpperLeaf(cached);
      LowerLeaf(cached, upper);
      var mid1, mid2 := Along(q.start, q.end, 0.515625), Along(q.start, q.end, 0.484375);
      assert HullCheck(w, q, m, Fresh(), -1, 0.0, 0.515625, q.start, mid1) == upper;
      assert HullCheck(w, q, m, upper, -2, 0.484375, 1.0, mid2, q.end) == VisitLeaf(w, q, m, upper, 1);
    }
  }
}
