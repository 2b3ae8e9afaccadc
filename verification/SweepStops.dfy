/** What stops a sweep (src/cmodel.c): only brushes that the box comes up to, each reported by a side it was
    moving towards; and the flags say in which brushes it starts and ends. */
module SweepStops {
  import opened Vectors
  import opened Bsp
  import opened BrushClip
  import opened BoxTrace

  /** The box is in the brush at the start of the move, or at its end. */
  ghost predicate Holds(w: World, q: Query, num: nat, atEnd: bool)
  {
    && num < |w.brushes| && w.brushes[num].sides != []
    && AllBehind(q.GapsTo(w.brushes[num]), |w.brushes[num].sides|, atEnd)
  }

  /** The move is on its way through the plane of that side, which is the one reported. */
  ghost predicate ReportsSide(q: Query, tr: Trace, b: Brush, k: nat)
  {
    && k < |b.sides| && tr.plane == b.sides[k].plane && tr.surface == b.sides[k].surface
    && tr.contents == b.contents && q.GapsTo(b)[k].start > 0.0 && q.GapsTo(b)[k].end < q.GapsTo(b)[k].start
    && (if q.GapsTo(b)[k].start >= DIST_EPSILON then q.GapsTo(b)[k].At(tr.fraction) == DIST_EPSILON
        else tr.fraction == 0.0)
  }

  /** The move ends within the epsilon of all sides of the brush, and reports one of them. */
  ghost predicate StoppedBy(w: World, q: Query, tr: Trace, num: nat)
  {
    && Relevant(w, q, num) && Near(q.GapsTo(w.brushes[num]), tr.fraction)
    && exists k {:trigger ReportsSide(q, tr, w.brushes[num], k)} :: ReportsSide(q, tr, w.brushes[num], k)
  }

  ghost predicate Told(w: World, q: Query, s: State)
  {
    && 0.0 <= s.trace.fraction <= 1.0
    && (s.trace.fraction < 1.0 ==> exists n :: n in s.tried && StoppedBy(w, q, s.trace, n))
    && (s.trace.startSolid <==> exists n :: n in s.tried && Holds(w, q, n, false))
    && (s.trace.allSolid <==> exists n :: n in s.tried && Holds(w, q, n, false) && Holds(w, q, n, true))
  }

  lemma ClipTells(w: World, q: Query, tr: Trace, leaf: int, num: nat)
    requires num < |w.brushes| && Relevant(w, q, num) && 0.0 <= tr.fraction <= 1.0
    ensures var r := Clip(tr, leaf, w.brushes[num], q.GapsTo(w.brushes[num]));
      && 0.0 <= r.fraction <= 1.0
      && (StoppedBy(w, q, r, num)
          || (r.fraction == tr.fraction && r.plane == tr.plane && r.surface == tr.surface && r.contents == tr.contents))
      && (r.startSolid <==> tr.startSolid || Holds(w, q, num, false))
      && (r.allSolid <==> tr.allSolid || (Holds(w, q, num, false) && Holds(w, q, num, true)))
  {
    var b := w.brushes[num];
    var gaps := q.GapsTo(b);
    hide SweepOf, GapsOf, Missed, Clip, Misses, Relevant, Near, AllBehind;
    ClipIsSound(tr, leaf, b, gaps);
    if Misses(gaps, tr.fraction) {
      ClipMeans(tr, leaf, b, gaps);
    } else {
      StopsShort(tr, leaf, b, gaps);
      StopsNear(tr, leaf, b, gaps);
      assert ReportsSide(q, Clip(tr, leaf, b, gaps), b, SweepOf(gaps, |gaps|).lead);
    }
  }

  lemma ClipIsSound(tr: Trace, leaf: int, b: Brush, gaps: seq<Gaps>)
    requires |gaps| == |b.sides| && 0.0 <= tr.fraction <= 1.0
    ensures var r := Clip(tr, leaf, b, gaps);
      && 0.0 <= r.fraction <= 1.0
      && (r.startSolid <==> tr.startSolid || (gaps != [] && AllBehind(gaps, |gaps|, false)))
      && (r.allSolid <==>
            tr.allSolid || (gaps != [] && AllBehind(gaps, |gaps|, false) && AllBehind(gaps, |gaps|, true)))
  {
    hide SweepOf, Missed, AllBehind;
    FractionFalls(tr, leaf, b, gaps);
    if gaps != [] { SolidFlags(tr, leaf, b, gaps); }
  }

  lemma TryTells(w: World, q: Query, cached: bool, s: State, leaf: int, num: nat)
    requires num < |w.brushes| && |s.mail| == 16 && Told(w, q, s)
    ensures Told(w, q, TryBrush(w, q, Mode(true, cached), s, leaf, num))
  {
    var r := TryBrush(w, q, Mode(true, cached), s, leaf, num);
    if !(cached && s.mail[num % 16] == num) && Relevant(w, q, num) {
      ClipTells(w, q, s.trace, leaf, num);
      hide Clip, Holds, Relevant, Near, ReportsSide;
      assert r.tried == s.tried + {num};
      if r.trace.fraction < 1.0 && !StoppedBy(w, q, r.trace, num) {
        var n :| n in s.tried && StoppedBy(w, q, s.trace, n);
        SameStop(w, q, s.trace, r.trace, n);
      }
    }
  }

  lemma SameStop(w: World, q: Query, tr: Trace, r: Trace, num: nat)
    requires StoppedBy(w, q, tr, num)
    requires r.fraction == tr.fraction && r.plane == tr.plane && r.surface == tr.surface && r.contents == tr.contents
    ensures StoppedBy(w, q, r, num)
  {
    var k :| ReportsSide(q, tr, w.brushes[num], k);
    assert ReportsSide(q, r, w.brushes[num], k);
  }

  lemma {:induction false} LeafTells(w: World, q: Query, cached: bool, s: State, leaf: int, k: nat)
    requires w.Valid() && 0 <= leaf < |w.leafs| && k <= w.leafs[leaf].numLeafBrushes && |s.mail| == 16
    requires Told(w, q, s)
    ensures Told(w, q, LeafFrom(w, q, Mode(true, cached), s, leaf, k))
    decreases w.leafs[leaf].numLeafBrushes - k
  {
    hide Told, Stops, TryBrush;
    if k < w.leafs[leaf].numLeafBrushes {
      var num, m := w.BrushAt(leaf, k), Mode(true, cached);
      TryTells(w, q, cached, s, leaf, num);
      TryMail(w, q, m, s, leaf, num);
      if !Stops(w, q, m, s, leaf, num) { LeafTells(w, q, cached, TryBrush(w, q, m, s, leaf, num), leaf, k + 1); }
    }
  }

  lemma VisitTells(w: World, q: Query, cached: bool, s: State, leaf: int)
    requires w.Valid() && 0 <= leaf < |w.leafs| && |s.mail| == 16 && Told(w, q, s)
    ensures Told(w, q, VisitLeaf(w, q, Mode(true, cached), s, leaf))
  {
    hide LeafFrom, StoppedBy, Holds, w.Valid;
    LeafTells(w, q, cached, s, leaf, 0);
  }

  lemma {:induction false} HullTells(w: World, q: Query, cached: bool, s: State, num: int, p1f: real, p2f: real,
                                     p1: Vec3, p2: Vec3)
    requires w.Valid() && w.tree.Ref(num) && |s.mail| == 16 && Told(w, q, s)
    ensures Told(w, q, HullCheck(w, q, Mode(true, cached), s, num, p1f, p2f, p1, p2))
    decreases w.tree.Rank(num)
  {
    hide VisitLeaf, Told, w.Valid, Divide, Along, Mid;
    WorldTree(w);
    var m := Mode(true, cached);
    if s.trace.fraction > p1f {
      if num < 0 {
        VisitTells(w, q, cached, s, -1 - num);
      } else {
        DivideStays(w.tree, num, q, p1, p2);
        match Divide(w.tree.nodes[num], q, p1, p2)
        case OneChild(child) => HullTells(w, q, cached, s, child, p1f, p2f, p1, p2);
        case Both(near, far, frac, frac2) =>
          HullTells(w, q, cached, s, near, p1f, Mid(p1f, p2f, frac), p1, Along(p1, p2, frac));
          var mid := HullCheck(w, q, m, s, near, p1f, Mid(p1f, p2f, frac), p1, Along(p1, p2, frac));
          HullTells(w, q, cached, mid, far, Mid(p1f, p2f, frac2), p2f, Along(p1, p2, frac2), p2);
      }
    }
  }

  /** A sweep that stops early stops where the box comes within the epsilon of a relevant brush that was tried,
      short of the side reported; it starts solid exactly when it starts in a brush that was tried, and is all
      solid exactly when it starts and ends in one. */
  lemma SweepStopsNear(w: World, q: Query, cached: bool, head: int)
    requires w.Valid() && w.tree.Ref(head)
    ensures var s := BoxTrace.Sweep(w, q, cached, head);
      && 0.0 <= s.trace.fraction <= 1.0
      && (s.trace.fraction < 1.0 ==> exists n :: n in s.tried && StoppedBy(w, q, s.trace, n))
      && (s.trace.startSolid <==> exists n :: n in s.tried && Holds(w, q, n, false))
      && (s.trace.allSolid <==> exists n :: n in s.tried && Holds(w, q, n, false) && Holds(w, q, n, true))
  {
    hide HullCheck, StoppedBy, Holds;
    assert Told(w, q, Fresh());
    HullTells(w, q, cached, Fresh(), head, 0.0, 1.0, q.start, q.end);
  }
}
