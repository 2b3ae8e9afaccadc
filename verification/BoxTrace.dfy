/** Tracing a box through a map (src/cmodel.c).  A brush may lie in many leafs; a small mailbox hashed by
    brush number keeps most of them from being tried twice. */
module BoxTrace {
  import opened Sequences
  import opened Vectors
  import opened Bsp
  import opened BrushClip

  const MAX_POINT_LEAFS := 1024

  datatype World = World(tree: Tree, leafs: seq<Leaf>, leafBrushes: seq<nat>, brushes: seq<Brush>)
  {
    ghost predicate Valid()
    {
      && tree.Valid() && |leafs| == tree.numLeafs
      && (forall i {:trigger leafs[i]} :: 0 <= i < |leafs| ==>
           leafs[i].firstLeafBrush + leafs[i].numLeafBrushes <= |leafBrushes|)
      && forall k {:trigger leafBrushes[k]} :: 0 <= k < |leafBrushes| ==> leafBrushes[k] < |brushes|
    }

    function BrushAt(leaf: int, k: nat): (num: nat)
      requires Valid() && 0 <= leaf < |leafs| && k < leafs[leaf].numLeafBrushes
      ensures num < |brushes|
    {
      leafBrushes[leafs[leaf].firstLeafBrush + k]
    }

    /** No leaf lists a brush twice. */
    ghost predicate ListsOnce()
      requires Valid()
    {
      forall leaf, j, k {:trigger BrushAt(leaf, j), BrushAt(leaf, k)} ::
        0 <= leaf < |leafs| && 0 <= j < k < leafs[leaf].numLeafBrushes ==> BrushAt(leaf, j) != BrushAt(leaf, k)
    }
  }

  /** A trace under way.  `cached` says whether the mailbox is heeded; `moving`, which of the two tests is
      applied to a brush. */
  datatype State = State(trace: Trace, mail: seq<int>, tried: set<nat>, seen: set<int>)

  datatype Mode = Mode(moving: bool, cached: bool)

  predicate Meets(contents: bv32, mask: bv32) { contents & mask != 0 }

  ghost predicate Relevant(w: World, q: Query, num: nat)
  {
    num < |w.brushes| && Meets(w.brushes[num].contents, q.contents)
  }

  ghost function Apply(q: Query, moving: bool, tr: Trace, leaf: int, b: Brush): Trace
  {
    if moving then Clip(tr, leaf, b, q.GapsTo(b)) else Test(tr, b, q.GapsTo(b))
  }

  /** Trying one brush of a leaf. */
  ghost function TryBrush(w: World, q: Query, m: Mode, s: State, leaf: int, num: nat): State
    requires |s.mail| == 16 && num < |w.brushes|
  {
    var skip := m.cached && s.mail[num % 16] == num;
    var s := s.(mail := s.mail[num % 16 := num]);
    if skip || !Relevant(w, q, num) then s
    else s.(trace := Apply(q, m.moving, s.trace, leaf, w.brushes[num]), tried := s.tried + {num})
  }

  /** Whether trying that brush ends the leaf. */
  ghost predicate Stops(w: World, q: Query, m: Mode, s: State, leaf: int, num: nat)
    requires |s.mail| == 16 && num < |w.brushes|
  {
    !(m.cached && s.mail[num % 16] == num) && Relevant(w, q, num) && TryBrush(w, q, m, s, leaf, num).trace.allSolid
  }

  ghost function LeafFrom(w: World, q: Query, m: Mode, s: State, leaf: int, k: nat): (r: State)
    requires w.Valid() && 0 <= leaf < |w.leafs| && k <= w.leafs[leaf].numLeafBrushes && |s.mail| == 16
    ensures |r.mail| == 16
    decreases w.leafs[leaf].numLeafBrushes - k
  {
    if k == w.leafs[leaf].numLeafBrushes then s
    else
      var next := TryBrush(w, q, m, s, leaf, w.BrushAt(leaf, k));
      if Stops(w, q, m, s, leaf, w.BrushAt(leaf, k)) then next else LeafFrom(w, q, m, next, leaf, k + 1)
  }

  ghost function VisitLeaf(w: World, q: Query, m: Mode, s: State, leaf: int): (r: State)
    requires w.Valid() && 0 <= leaf < |w.leafs| && |s.mail| == 16
    ensures |r.mail| == 16
  {
    if !Meets(w.leafs[leaf].contents, q.contents) then s
    else
      var r := LeafFrom(w, q, m, s, leaf, 0);
      r.(seen := r.seen + {leaf})
  }

  // ----- one brush, with and without the mailbox

  /** Nothing about how far the move gets or where it is stuck has changed. */
  ghost predicate Same(a: Trace, b: Trace)
  {
    a.fraction == b.fraction && a.startSolid == b.startSolid && a.allSolid == b.allSolid
  }

  ghost predicate Below(a: Trace, b: Trace)
  {
    && 0.0 <= a.fraction <= b.fraction <= 1.0
    && (b.startSolid ==> a.startSolid) && (b.allSolid ==> a.allSolid)
  }

  ghost predicate Sound(tr: Trace) { 0.0 <= tr.fraction <= 1.0 && (tr.allSolid ==> tr.startSolid) }

  /** Trying the brush once more changes nothing. */
  ghost predicate Settled(q: Query, moving: bool, tr: Trace, b: Brush)
  {
    Same(Apply(q, moving, tr, 0, b), tr)
  }

  lemma ApplyIsSound(q: Query, moving: bool, tr: Trace, leaf: int, b: Brush)
    requires Sound(tr)
    ensures Sound(Apply(q, moving, tr, leaf, b)) && Below(Apply(q, moving, tr, leaf, b), tr)
  {
    hide SweepOf, GapsOf;
    if q.GapsTo(b) != [] { SolidFlags(tr, leaf, b, q.GapsTo(b)); }
  }

  lemma ApplyAgrees(q: Query, moving: bool, a: Trace, c: Trace, leaf: int, leaf': int, b: Brush)
    requires Same(a, c)
    ensures Same(Apply(q, moving, a, leaf, b), Apply(q, moving, c, leaf', b))
  {
    hide SweepOf, GapsOf, Missed, AllBehind;
    if moving {
      ClipMeans(a, leaf, b, q.GapsTo(b));
      ClipMeans(c, leaf', b, q.GapsTo(b));
      hide Clip, Stopped;
    }
  }

  lemma ApplySettles(q: Query, moving: bool, tr: Trace, leaf: int, b: Brush)
    requires Sound(tr)
    ensures Settled(q, moving, Apply(q, moving, tr, leaf, b), b)
  {
    hide SweepOf, GapsOf, Missed, AllBehind;
    if moving {
      var gaps := q.GapsTo(b);
      ClipMeans(tr, leaf, b, gaps);
      ClipMeans(Clip(tr, leaf, b, gaps), 0, b, gaps);
      hide Clip;
    }
  }

  lemma SettledStays(q: Query, moving: bool, tr: Trace, tr': Trace, b: Brush)
    requires Settled(q, moving, tr, b) && Below(tr', tr)
    ensures Settled(q, moving, tr', b)
  {
    hide SweepOf, GapsOf, Missed, AllBehind;
    if moving {
      ClipMeans(tr, 0, b, q.GapsTo(b));
      ClipMeans(tr', 0, b, q.GapsTo(b));
      hide Clip;
    }
  }

  /** Trying the brush changes nothing that is reported of the brush hit. */
  ghost predicate Quiet(q: Query, tr: Trace, b: Brush) { Misses(q.GapsTo(b), tr.fraction) }

  /** A brush that was tried may be hit again only when the move has come to nothing. */
  lemma SettledIsQuiet(q: Query, tr: Trace, b: Brush)
    requires Settled(q, true, tr, b) && tr.fraction > 0.0
    ensures Quiet(q, tr, b)
  {
    hide SweepOf, GapsOf, Missed, AllBehind;
    ClipMeans(tr, 0, b, q.GapsTo(b));
    hide Clip;
  }

  lemma QuietStays(q: Query, tr: Trace, tr': Trace, b: Brush)
    requires Quiet(q, tr, b) && tr'.fraction <= tr.fraction
    ensures Quiet(q, tr', b)
  {
    hide SweepOf, GapsOf, Missed;
  }

  lemma QuietApply(q: Query, tr: Trace, leaf: int, b: Brush)
    requires Quiet(q, tr, b)
    ensures SameHit(Apply(q, true, tr, leaf, b), tr)
  {
    hide SweepOf, GapsOf, Missed;
    ClipMeans(tr, leaf, b, q.GapsTo(b));
    hide Clip;
  }

  // ----- what every trace keeps

  ghost predicate Shallow(w: World, q: Query, fraction: real, num: nat)
    requires num < |w.brushes|
  {
    var gaps := q.GapsTo(w.brushes[num]);
    AllBehind(gaps, |gaps|, false) || BrushClip.Shallow(gaps, fraction)
  }

  /** Brushes tried are settled, and not penetrated; the mailbox names no relevant brush that was not tried. */
  ghost predicate Kept(w: World, q: Query, moving: bool, s: State)
  {
    && Sound(s.trace) && |s.mail| == 16
    && (forall n {:trigger n in s.tried} :: n in s.tried ==>
          n < |w.brushes| && Settled(q, moving, s.trace, w.brushes[n])
            && (moving ==> Shallow(w, q, s.trace.fraction, n)))
    && forall i {:trigger s.mail[i]} :: 0 <= i < 16 && s.mail[i] >= 0 && Relevant(w, q, s.mail[i]) ==>
         s.mail[i] in s.tried
  }

  ghost predicate LeafTried(w: World, q: Query, s: State, leaf: int, k: nat)
    requires w.Valid()
  {
    && 0 <= leaf < |w.leafs| && k <= w.leafs[leaf].numLeafBrushes
    && forall j {:trigger w.BrushAt(leaf, j)} :: 0 <= j < k && Relevant(w, q, w.BrushAt(leaf, j)) ==>
         w.BrushAt(leaf, j) in s.tried
  }

  /** Unless the box is stuck, every relevant brush of every leaf seen has been tried. */
  ghost predicate Covered(w: World, q: Query, s: State)
    requires w.Valid()
  {
    !s.trace.allSolid ==> forall leaf {:trigger leaf in s.seen} :: leaf in s.seen ==>
      0 <= leaf < |w.leafs| && LeafTried(w, q, s, leaf, w.leafs[leaf].numLeafBrushes)
  }

  /** A later state of the same trace. */
  ghost predicate Later(s: State, s': State)
  {
    Below(s'.trace, s.trace) && s.tried <= s'.tried && s.seen <= s'.seen
  }

  lemma ShallowApply(w: World, q: Query, s: State, leaf: int, num: nat)
    requires num < |w.brushes| && Sound(s.trace)
    ensures Shallow(w, q, Apply(q, true, s.trace, leaf, w.brushes[num]).fraction, num)
  {
    hide Clip;
    var b := w.brushes[num];
    if !AllBehind(q.GapsTo(b), |q.GapsTo(b)|, false) {
      ShallowAfter(s.trace, leaf, b, q.GapsTo(b));
    }
  }

  lemma TryKeeps(w: World, q: Query, m: Mode, s: State, leaf: int, num: nat)
    requires num < |w.brushes| && Kept(w, q, m.moving, s)
    ensures var r := TryBrush(w, q, m, s, leaf, num);
      && Kept(w, q, m.moving, r) && Later(s, r) && r.seen == s.seen && (Relevant(w, q, num) ==> num in r.tried)
  {
    hide Apply, Settled;
    var b, r := w.brushes[num], TryBrush(w, q, m, s, leaf, num);
    ApplyIsSound(q, m.moving, s.trace, leaf, b);
    ApplySettles(q, m.moving, s.trace, leaf, b);
    if m.moving { ShallowApply(w, q, s, leaf, num); }
    forall n | n in s.tried
      ensures Settled(q, m.moving, r.trace, w.brushes[n]) && (m.moving ==> Shallow(w, q, r.trace.fraction, n))
    {
      SettledStays(q, m.moving, s.trace, r.trace, w.brushes[n]);
    }
  }

  lemma {:induction false} LeafKeeps(w: World, q: Query, m: Mode, s: State, leaf: int, k: nat)
    requires w.Valid() && Kept(w, q, m.moving, s) && (s.trace.allSolid || LeafTried(w, q, s, leaf, k))
    requires 0 <= leaf < |w.leafs| && k <= w.leafs[leaf].numLeafBrushes
    ensures var r := LeafFrom(w, q, m, s, leaf, k);
      && Kept(w, q, m.moving, r) && Later(s, r) && r.seen == s.seen
      && (r.trace.allSolid || LeafTried(w, q, r, leaf, w.leafs[leaf].numLeafBrushes))
    decreases w.leafs[leaf].numLeafBrushes - k
  {
    hide TryBrush, Kept;
    KeptMail(w, q, m, s);
    if k < w.leafs[leaf].numLeafBrushes {
      var num := w.BrushAt(leaf, k);
      TryKeeps(w, q, m, s, leaf, num);
      var next := TryBrush(w, q, m, s, leaf, num);
      KeptMail(w, q, m, next);
      if !Stops(w, q, m, s, leaf, num) { LeafKeeps(w, q, m, next, leaf, k + 1); }
    }
  }

  lemma KeptMail(w: World, q: Query, m: Mode, s: State)
    requires Kept(w, q, m.moving, s)
    ensures |s.mail| == 16 && Sound(s.trace)
  {
  }

  lemma VisitKeeps(w: World, q: Query, m: Mode, s: State, leaf: int)
    requires w.Valid() && Kept(w, q, m.moving, s) && Covered(w, q, s) && 0 <= leaf < |w.leafs|
    ensures Kept(w, q, m.moving, VisitLeaf(w, q, m, s, leaf))
    ensures Later(s, VisitLeaf(w, q, m, s, leaf))
    ensures Covered(w, q, VisitLeaf(w, q, m, s, leaf))
  {
    hide Meets, LeafFrom, Kept, Covered, LeafTried, w.Valid, Later, Sound;
    KeptMail(w, q, m, s);
    NoneTried(w, q, s, leaf);
    LaterSelf(s);
    if Meets(w.leafs[leaf].contents, q.contents) {
      LeafKeeps(w, q, m, s, leaf, 0);
      LeafSeen(w, q, m.moving, s, LeafFrom(w, q, m, s, leaf, 0), leaf);
    }
  }

  lemma LaterSelf(s: State)
    requires Sound(s.trace)
    ensures Later(s, s)
  {
  }

  lemma LeafSeen(w: World, q: Query, moving: bool, s: State, r: State, leaf: int)
    requires w.Valid() && Covered(w, q, s) && Kept(w, q, moving, r) && Later(s, r) && r.seen == s.seen
    requires 0 <= leaf < |w.leafs|
    requires r.trace.allSolid || LeafTried(w, q, r, leaf, w.leafs[leaf].numLeafBrushes)
    ensures var r' := r.(seen := r.seen + {leaf});
      Kept(w, q, moving, r') && Later(s, r') && Covered(w, q, r')
  {
    hide Covered, LeafTried, Settled, Shallow, Sound, Relevant, w.Valid;
    CoveredOn(w, q, s, r, leaf);
  }

  lemma NoneTried(w: World, q: Query, s: State, leaf: int)
    requires w.Valid() && 0 <= leaf < |w.leafs|
    ensures LeafTried(w, q, s, leaf, 0)
  {
  }

  lemma CoveredOn(w: World, q: Query, s: State, r: State, leaf: int)
    requires w.Valid() && Covered(w, q, s) && Later(s, r) && r.seen == s.seen && 0 <= leaf < |w.leafs|
    requires r.trace.allSolid || LeafTried(w, q, r, leaf, w.leafs[leaf].numLeafBrushes)
    ensures Covered(w, q, r.(seen := r.seen + {leaf}))
  {
    hide w.Valid, Relevant;
    var r' := r.(seen := r.seen + {leaf});
    forall l | l in r'.seen && !r.trace.allSolid
      ensures 0 <= l < |w.leafs| && LeafTried(w, q, r', l, w.leafs[l].numLeafBrushes)
    {
      if l != leaf { assert l in s.seen; }
    }
  }

  // ----- with and without the mailbox

  /** The two traces agree, or both are stuck for good. */
  ghost predicate Matched(w: World, q: Query, a: State, c: State)
    requires w.Valid()
  {
    && Kept(w, q, true, a) && Kept(w, q, true, c)
    && a.trace.allSolid == c.trace.allSolid
    && (!a.trace.allSolid ==>
         Same(a.trace, c.trace) && a.tried == c.tried && a.seen == c.seen
           && (Telling(w, a.trace) ==> SameHit(a.trace, c.trace)))
  }

  /** When it does not matter whether a brush is tried again: then nothing reported depends on the mailbox. */
  ghost predicate Telling(w: World, tr: Trace)
    requires w.Valid()
  {
    tr.fraction > 0.0 || w.ListsOnce()
  }

  /** The brushes that the leaf lists from `k` on and that were tried before are quiet by now. */
  ghost predicate RestQuiet(w: World, q: Query, s: State, leaf: int, k: nat)
    requires w.Valid() && 0 <= leaf < |w.leafs|
  {
    forall j {:trigger w.BrushAt(leaf, j)} ::
      k <= j < w.leafs[leaf].numLeafBrushes && w.BrushAt(leaf, j) in s.tried ==>
        Quiet(q, s.trace, w.brushes[w.BrushAt(leaf, j)])
  }

  /** When a brush is skipped and when it is tried again, nothing differs that matters. */
  lemma SkipMatches(w: World, q: Query, a: State, c: State, leaf: int, num: nat)
    requires w.Valid() && num < |w.brushes| && Matched(w, q, a, c) && !a.trace.allSolid && num in a.tried
    requires w.ListsOnce() ==> Quiet(q, a.trace, w.brushes[num])
    requires Telling(w, a.trace)
    ensures SameHit(a.trace, Apply(q, true, c.trace, leaf, w.brushes[num]))
  {
    hide Settled, Apply, Quiet, w.ListsOnce;
    var b := w.brushes[num];
    assert Settled(q, true, c.trace, b) && Settled(q, true, a.trace, b);
    if a.trace.fraction > 0.0 {
      SettledIsQuiet(q, c.trace, b);
    } else {
      QuietStays(q, a.trace, c.trace, b);
    }
    QuietApply(q, c.trace, leaf, b);
    ApplyIsSound(q, true, c.trace, leaf, b);
  }

  lemma TryMatches(w: World, q: Query, a: State, c: State, leaf: int, num: nat)
    requires w.Valid() && num < |w.brushes| && Matched(w, q, a, c) && !a.trace.allSolid
    requires w.ListsOnce() && num in a.tried ==> Quiet(q, a.trace, w.brushes[num])
    ensures var x, y := Mode(true, true), Mode(true, false);
      && Matched(w, q, TryBrush(w, q, x, a, leaf, num), TryBrush(w, q, y, c, leaf, num))
      && Stops(w, q, x, a, leaf, num) == Stops(w, q, y, c, leaf, num) == TryBrush(w, q, x, a, leaf, num).trace.allSolid
  {
    hide Apply, w.Valid, w.ListsOnce, Shallow, Quiet;
    var b := w.brushes[num];
    TryKeeps(w, q, Mode(true, true), a, leaf, num);
    TryKeeps(w, q, Mode(true, false), c, leaf, num);
    if a.mail[num % 16] == num && Relevant(w, q, num) {
      ApplyAgrees(q, true, a.trace, c.trace, 0, leaf, b);
      if Telling(w, a.trace) { SkipMatches(w, q, a, c, leaf, num); }
    } else if Relevant(w, q, num) {
      ApplyAgrees(q, true, a.trace, c.trace, leaf, leaf, b);
      ApplyIsSound(q, true, a.trace, leaf, b);
      if Telling(w, a.trace) { ApplyTellsSame(q, a.trace, c.trace, leaf, b); }
    }
  }

  lemma ApplyTellsSame(q: Query, a: Trace, c: Trace, leaf: int, b: Brush)
    requires Same(a, c) && SameHit(a, c)
    ensures SameHit(Apply(q, true, a, leaf, b), Apply(q, true, c, leaf, b))
  {
    hide GapsOf, Clip;
    ClipAgrees(a, c, leaf, b, q.GapsTo(b));
  }

  lemma RestStaysQuiet(w: World, q: Query, a: State, leaf: int, k: nat)
    requires w.Valid() && w.ListsOnce() && Kept(w, q, true, a) && 0 <= leaf < |w.leafs|
    requires k < w.leafs[leaf].numLeafBrushes && RestQuiet(w, q, a, leaf, k)
    ensures var next := TryBrush(w, q, Mode(true, true), a, leaf, w.BrushAt(leaf, k));
      |next.mail| == 16 && RestQuiet(w, q, next, leaf, k + 1)
  {
    hide w.Valid, Quiet, Apply, Settled, Shallow;
    var num := w.BrushAt(leaf, k);
    var next := TryBrush(w, q, Mode(true, true), a, leaf, num);
    ApplyIsSound(q, true, a.trace, leaf, w.brushes[num]);
    forall j | k < j < w.leafs[leaf].numLeafBrushes && w.BrushAt(leaf, j) in next.tried
      ensures Quiet(q, next.trace, w.brushes[w.BrushAt(leaf, j)])
    {
      assert w.BrushAt(leaf, j) != num;
      QuietStays(q, a.trace, next.trace, w.brushes[w.BrushAt(leaf, j)]);
    }
  }

  /** A leaf is entered before the move has come to nothing. */
  lemma StartsQuiet(w: World, q: Query, a: State, leaf: int)
    requires w.Valid() && Kept(w, q, true, a) && 0 <= leaf < |w.leafs| && a.trace.fraction > 0.0
    ensures RestQuiet(w, q, a, leaf, 0)
  {
    hide w.Valid, Quiet, Settled, Shallow;
    forall j | 0 <= j < w.leafs[leaf].numLeafBrushes && w.BrushAt(leaf, j) in a.tried
      ensures Quiet(q, a.trace, w.brushes[w.BrushAt(leaf, j)])
    {
      SettledIsQuiet(q, a.trace, w.brushes[w.BrushAt(leaf, j)]);
    }
  }

  lemma {:induction false} LeafMatches(w: World, q: Query, a: State, c: State, leaf: int, k: nat)
    requires w.Valid() && Matched(w, q, a, c) && 0 <= leaf < |w.leafs| && k <= w.leafs[leaf].numLeafBrushes
    requires a.trace.allSolid || LeafTried(w, q, a, leaf, k)
    requires w.ListsOnce() && !a.trace.allSolid ==> RestQuiet(w, q, a, leaf, k)
    ensures Matched(w, q, LeafFrom(w, q, Mode(true, true), a, leaf, k),
      LeafFrom(w, q, Mode(true, false), c, leaf, k))
    decreases w.leafs[leaf].numLeafBrushes - k
  {
    hide TryBrush, Kept, Stops, Quiet, w.ListsOnce;
    var x, y := Mode(true, true), Mode(true, false);
    KeptMail(w, q, x, a);
    KeptMail(w, q, y, c);
    LeafKeeps(w, q, x, a, leaf, k);
    LeafKeeps(w, q, y, c, leaf, k);
    if k < w.leafs[leaf].numLeafBrushes && !a.trace.allSolid {
      var num := w.BrushAt(leaf, k);
      TryMatches(w, q, a, c, leaf, num);
      TryKeeps(w, q, x, a, leaf, num);
      if !Stops(w, q, x, a, leaf, num) {
        if w.ListsOnce() { RestStaysQuiet(w, q, a, leaf, k); }
        LeafMatches(w, q, TryBrush(w, q, x, a, leaf, num), TryBrush(w, q, y, c, leaf, num), leaf, k + 1);
      }
    }
  }

  lemma VisitMatches(w: World, q: Query, a: State, c: State, leaf: int)
    requires w.Valid() && Matched(w, q, a, c) && 0 <= leaf < |w.leafs|
    requires a.trace.allSolid || a.trace.fraction > 0.0
    ensures Matched(w, q, VisitLeaf(w, q, Mode(true, true), a, leaf),
      VisitLeaf(w, q, Mode(true, false), c, leaf))
  {
    hide Meets, LeafFrom, Kept, Stops, TryBrush, RestQuiet, w.ListsOnce;
    if !a.trace.allSolid { StartsQuiet(w, q, a, leaf); }
    KeptMail(w, q, Mode(true, true), a);
    KeptMail(w, q, Mode(true, false), c);
    NoneTried(w, q, a, leaf);
    LeafMatches(w, q, a, c, leaf, 0);
    MatchedSeen(w, q, LeafFrom(w, q, Mode(true, true), a, leaf, 0),
      LeafFrom(w, q, Mode(true, false), c, leaf, 0), leaf);
  }

  lemma MatchedSeen(w: World, q: Query, a: State, c: State, leaf: int)
    requires w.Valid() && Matched(w, q, a, c)
    ensures Matched(w, q, a.(seen := a.seen + {leaf}), c.(seen := c.seen + {leaf}))
  {
    hide Settled, Shallow, w.ListsOnce;
  }

  // ----- the descent

  /** How a node's plane divides a move: it may keep to one side, or go through `near` up to the fraction
      `frac` and through the other child from `frac2` on. */
  datatype Division = OneChild(child: int) | Both(near: int, far: int, frac: real, frac2: real)

  function Clamp(x: real): (f: real)
    ensures 0.0 <= f <= 1.0
  {
    if x < 0.0 then 0.0 else if x > 1.0 then 1.0 else x
  }

  function Mid(a: real, b: real, f: real): real { a + (b - a) * f }

  function Extent(e: real, n: real): real { Abs(e * n) }

  function Reach(plane: Plane, q: Query): real
  {
    if plane.kind < PLANE_ANYX then q.extents.At(plane.kind)
    else if q.isPoint then 0.0
    else Extent(q.extents.x, plane.normal.x) + Extent(q.extents.y, plane.normal.y) + Extent(q.extents.z, plane.normal.z)
  }

  /** The fraction of a move at which so much of the distance it covers has been covered. */
  function CrossAt(distance: real, covered: real): (f: real)
    requires covered != 0.0
    ensures 0.0 <= f <= 1.0
  {
    Clamp(distance * (1.0 / covered))
  }

  function Divide(n: Node, q: Query, p1: Vec3, p2: Vec3): Division
  {
    var t1, t2, offset := Distance(n.plane, p1), Distance(n.plane, p2), Reach(n.plane, q);
    if t1 >= offset && t2 >= offset then OneChild(n.front)
    else if t1 <= -offset && t2 <= -offset then OneChild(n.back)
    else if t1 < t2 then
      Both(n.back, n.front, CrossAt(t1 - offset + DIST_EPSILON, t1 - t2), CrossAt(t1 + offset + DIST_EPSILON, t1 - t2))
    else if t1 > t2 then
      Both(n.front, n.back, CrossAt(t1 + offset + DIST_EPSILON, t1 - t2), CrossAt(t1 - offset - DIST_EPSILON, t1 - t2))
    else Both(n.front, n.back, 1.0, 0.0)
  }

  lemma FractionsFit(n: Node, q: Query, p1: Vec3, p2: Vec3)
    ensures var d := Divide(n, q, p1, p2); d.Both? ==> 0.0 <= d.frac <= 1.0 && 0.0 <= d.frac2 <= 1.0
  {
    hide Distance, Reach, CrossAt;
  }

  lemma Positive(a: real, b: real)
    requires a >= 0.0 && b >= 0.0
    ensures a * b >= 0.0
  {
  }

  lemma MidGrows(a: real, b: real, f: real, g: real)
    requires a <= b && f <= g
    ensures Mid(a, b, f) <= Mid(a, b, g) && (0.0 <= f ==> a <= Mid(a, b, f)) && (g <= 1.0 ==> Mid(a, b, g) <= b)
  {
    var d := b - a;
    Positive(d, g - f);
    assert d * (g - f) == d * g - d * f;
    if 0.0 <= f { Positive(d, f); }
    if g <= 1.0 {
      Positive(d, 1.0 - g);
      assert d * (1.0 - g) == d - d * g;
    }
  }

  lemma DivideStays(t: Tree, num: int, q: Query, p1: Vec3, p2: Vec3)
    requires t.Valid() && t.Ref(num) && num >= 0
    ensures var d := Divide(t.nodes[num], q, p1, p2);
      && (d.OneChild? ==> t.Ref(d.child) && t.Rank(d.child) < t.Rank(num))
      && (d.Both? ==> t.Ref(d.near) && t.Rank(d.near) < t.Rank(num) && t.Ref(d.far) && t.Rank(d.far) < t.Rank(num))
  {
  }

  ghost function HullCheck(w: World, q: Query, m: Mode, s: State, num: int, p1f: real, p2f: real, p1: Vec3,
                           p2: Vec3): (r: State)
    requires w.Valid() && w.tree.Ref(num) && |s.mail| == 16
    ensures |r.mail| == 16
    decreases w.tree.Rank(num)
  {
    if s.trace.fraction <= p1f then s
    else if num < 0 then VisitLeaf(w, q, m, s, -1 - num)
    else
      DivideStays(w.tree, num, q, p1, p2);
      match Divide(w.tree.nodes[num], q, p1, p2)
      case OneChild(child) => HullCheck(w, q, m, s, child, p1f, p2f, p1, p2)
      case Both(near, far, frac, frac2) =>
        var mid := HullCheck(w, q, m, s, near, p1f, Mid(p1f, p2f, frac), p1, Along(p1, p2, frac));
        HullCheck(w, q, m, mid, far, Mid(p1f, p2f, frac2), p2f, Along(p1, p2, frac2), p2)
  }

  lemma WorldTree(w: World)
    requires w.Valid()
    ensures w.tree.Valid() && |w.leafs| == w.tree.numLeafs
  {
  }

  lemma LaterOn(a: State, b: State, c: State)
    requires Later(a, b) && Later(b, c)
    ensures Later(a, c)
  {
  }

  lemma {:induction false} HullKeeps(w: World, q: Query, m: Mode, s: State, num: int, p1f: real, p2f: real, p1: Vec3,
                                     p2: Vec3)
    requires w.Valid() && w.tree.Ref(num) && Kept(w, q, m.moving, s) && Covered(w, q, s) && |s.mail| == 16
    ensures Kept(w, q, m.moving, HullCheck(w, q, m, s, num, p1f, p2f, p1, p2))
    ensures Covered(w, q, HullCheck(w, q, m, s, num, p1f, p2f, p1, p2))
    ensures Later(s, HullCheck(w, q, m, s, num, p1f, p2f, p1, p2))
    decreases w.tree.Rank(num)
  {
    hide VisitLeaf, Kept, Covered, w.Valid, Later, Sound, Divide, Along, Mid;
    KeptMail(w, q, m, s);
    LaterSelf(s);
    WorldTree(w);
    if s.trace.fraction > p1f {
      if num < 0 {
        VisitKeeps(w, q, m, s, -1 - num);
      } else {
        DivideStays(w.tree, num, q, p1, p2);
        match Divide(w.tree.nodes[num], q, p1, p2)
        case OneChild(child) => HullKeeps(w, q, m, s, child, p1f, p2f, p1, p2);
        case Both(near, far, frac, frac2) =>
          HullKeeps(w, q, m, s, near, p1f, Mid(p1f, p2f, frac), p1, Along(p1, p2, frac));
          var mid := HullCheck(w, q, m, s, near, p1f, Mid(p1f, p2f, frac), p1, Along(p1, p2, frac));
          HullKeeps(w, q, m, mid, far, Mid(p1f, p2f, frac2), p2f, Along(p1, p2, frac2), p2);
          LaterOn(s, mid, HullCheck(w, q, m, mid, far, Mid(p1f, p2f, frac2), p2f, Along(p1, p2, frac2), p2));
      }
    }
  }

  lemma SolidMatched(w: World, q: Query, a: State, c: State, a': State, c': State)
    requires w.Valid() && Matched(w, q, a, c) && a.trace.allSolid && Later(a, a') && Later(c, c')
    requires Kept(w, q, true, a') && Kept(w, q, true, c')
    ensures Matched(w, q, a', c')
  {
    hide Kept;
  }

  lemma MatchedMeans(w: World, q: Query, a: State, c: State)
    requires w.Valid() && Matched(w, q, a, c)
    ensures Kept(w, q, true, a) && Kept(w, q, true, c) && |a.mail| == |c.mail| == 16
    ensures a.trace.startSolid == c.trace.startSolid && a.trace.allSolid == c.trace.allSolid
    ensures !a.trace.allSolid ==> a.trace.fraction == c.trace.fraction
    ensures !a.trace.allSolid && Telling(w, a.trace) ==> SameHit(a.trace, c.trace)
  {
  }

  lemma {:induction false} HullMatches(w: World, q: Query, a: State, c: State, num: int, p1f: real, p2f: real, p1: Vec3,
                                       p2: Vec3)
    requires w.Valid() && w.tree.Ref(num) && Matched(w, q, a, c) && Covered(w, q, a) && Covered(w, q, c)
    requires |a.mail| == |c.mail| == 16 && 0.0 <= p1f <= p2f
    ensures Matched(w, q, HullCheck(w, q, Mode(true, true), a, num, p1f, p2f, p1, p2),
                    HullCheck(w, q, Mode(true, false), c, num, p1f, p2f, p1, p2))
    decreases w.tree.Rank(num)
  {
    hide VisitLeaf, Kept, Matched, Covered, w.Valid, Later, Divide, Along, Mid;
    var x, y := Mode(true, true), Mode(true, false);
    MatchedMeans(w, q, a, c);
    WorldTree(w);
    if a.trace.allSolid {
      HullKeeps(w, q, x, a, num, p1f, p2f, p1, p2);
      HullKeeps(w, q, y, c, num, p1f, p2f, p1, p2);
      SolidMatched(w, q, a, c, HullCheck(w, q, x, a, num, p1f, p2f, p1, p2),
        HullCheck(w, q, y, c, num, p1f, p2f, p1, p2));
    } else if a.trace.fraction > p1f {
      if num < 0 {
        VisitMatches(w, q, a, c, -1 - num);
      } else {
        DivideStays(w.tree, num, q, p1, p2);
        match Divide(w.tree.nodes[num], q, p1, p2)
        case OneChild(child) => HullMatches(w, q, a, c, child, p1f, p2f, p1, p2);
        case Both(near, far, frac, frac2) =>
          var midf, mid := Mid(p1f, p2f, frac), Along(p1, p2, frac);
          FractionsFit(w.tree.nodes[num], q, p1, p2);
          MidGrows(p1f, p2f, frac, frac);
          MidGrows(p1f, p2f, frac2, frac2);
          HullMatches(w, q, a, c, near, p1f, midf, p1, mid);
          HullKeeps(w, q, x, a, near, p1f, midf, p1, mid);
          HullKeeps(w, q, y, c, near, p1f, midf, p1, mid);
          HullMatches(w, q, HullCheck(w, q, x, a, near, p1f, midf, p1, mid),
            HullCheck(w, q, y, c, near, p1f, midf, p1, mid),
                      far, Mid(p1f, p2f, frac2), p2f, Along(p1, p2, frac2), p2);
      }
    }
  }

  // ----- whole traces

  const NO_TRACE := Trace(false, false, 1.0, ORIGIN, Plane(ORIGIN, 0.0, 0, 0), -1, 0, 0)

  ghost function Fresh(): (s: State)
    ensures |s.mail| == 16
  {
    State(NO_TRACE, seq(16, _ => -1), {}, {})
  }

  lemma FreshKept(w: World, q: Query, moving: bool)
    requires w.Valid()
    ensures Kept(w, q, moving, Fresh()) && Covered(w, q, Fresh()) && (moving ==> Matched(w, q, Fresh(), Fresh()))
  {
  }

  /** The sweep of a box from the head node down. */
  ghost function Sweep(w: World, q: Query, cached: bool, head: int): State
    requires w.Valid() && w.tree.Ref(head)
  {
    HullCheck(w, q, Mode(true, cached), Fresh(), head, 0.0, 1.0, q.start, q.end)
  }

  /** The mailbox is only a cache: a box is stuck at the start, or all along, just when it would be without
      it; and unless it is stuck all along it gets just as far.  What is reported of the brush it hits is the
      same, too, unless the move comes to nothing in a leaf that lists a brush twice. */
  lemma MailboxIsOnlyACache(w: World, q: Query, head: int)
    requires w.Valid() && w.tree.Ref(head)
    ensures Sweep(w, q, true, head).trace.startSolid == Sweep(w, q, false, head).trace.startSolid
    ensures Sweep(w, q, true, head).trace.allSolid == Sweep(w, q, false, head).trace.allSolid
    ensures !Sweep(w, q, true, head).trace.allSolid ==>
      Sweep(w, q, true, head).trace.fraction == Sweep(w, q, false, head).trace.fraction
    ensures !Sweep(w, q, true, head).trace.allSolid ==>
      (Sweep(w, q, true, head).trace.fraction > 0.0 || w.ListsOnce() ==>
         SameHit(Sweep(w, q, true, head).trace, Sweep(w, q, false, head).trace))
  {
    hide Kept, Covered, Matched, w.Valid, w.ListsOnce, HullCheck;
    FreshKept(w, q, true);
    HullMatches(w, q, Fresh(), Fresh(), head, 0.0, 1.0, q.start, q.end);
    MatchedMeans(w, q, Sweep(w, q, true, head), Sweep(w, q, false, head));
  }

  /** Along the distance a sweep allows, no brush tried is penetrated deeply, unless the box was in it from
      the start; and unless the box is stuck all along, every relevant brush of a leaf seen was tried. */
  lemma SweepIsShallow(w: World, q: Query, head: int, num: nat, t: real)
    requires w.Valid() && w.tree.Ref(head) && num < |w.brushes|
    requires !AllBehind(q.GapsTo(w.brushes[num]), |q.GapsTo(w.brushes[num])|, false)
    requires 0.0 <= t <= Sweep(w, q, true, head).trace.fraction
    requires num in Sweep(w, q, true, head).tried
      || (!Sweep(w, q, true, head).trace.allSolid && Relevant(w, q, num)
          && exists leaf, k {:trigger w.BrushAt(leaf, k)} ::
               leaf in Sweep(w, q, true, head).seen && 0 <= leaf < |w.leafs|
               && 0 <= k < w.leafs[leaf].numLeafBrushes && w.BrushAt(leaf, k) == num)
    ensures !Deep(q.GapsTo(w.brushes[num]), |q.GapsTo(w.brushes[num])|, t)
  {
    hide HullCheck, Settled, AllBehind, Deep, Fresh;
    FreshKept(w, q, true);
    HullKeeps(w, q, Mode(true, true), Fresh(), head, 0.0, 1.0, q.start, q.end);
    var r := Sweep(w, q, true, head);
    assert num in r.tried;
    assert Shallow(w, q, r.trace.fraction, num);
  }

  // ----- the position test

  ghost function TestLeafs(w: World, q: Query, m: Mode, s: State, list: seq<int>): (r: State)
    requires w.Valid() && |s.mail| == 16 && forall i :: 0 <= i < |list| ==> 0 <= list[i] < |w.leafs|
    ensures |r.mail| == 16
    decreases |list|
  {
    if list == [] then s
    else
      var next := VisitLeaf(w, q, m, s, list[0]);
      if next.trace.allSolid then next else TestLeafs(w, q, m, next, list[1..])
  }

  ghost predicate Stuck(w: World, q: Query, num: nat)
  {
    Relevant(w, q, num) && w.brushes[num].sides != []
      && AllBehind(q.GapsTo(w.brushes[num]), |w.brushes[num].sides|, false)
  }

  /** The leaf holds a relevant brush that the box is behind every side of. */
  ghost predicate StuckIn(w: World, q: Query, leaf: int)
    requires w.Valid()
  {
    && 0 <= leaf < |w.leafs| && Meets(w.leafs[leaf].contents, q.contents)
    && exists k {:trigger w.BrushAt(leaf, k)} ::
         0 <= k < w.leafs[leaf].numLeafBrushes && Stuck(w, q, w.BrushAt(leaf, k))
  }

  ghost predicate StuckInOne(w: World, q: Query, list: seq<int>)
    requires w.Valid()
  {
    exists i :: 0 <= i < |list| && StuckIn(w, q, list[i])
  }

  lemma SettledNotStuck(w: World, q: Query, s: State, num: nat)
    requires Kept(w, q, false, s) && num in s.tried && !s.trace.allSolid
    ensures !Stuck(w, q, num)
  {
  }

  lemma {:induction false} LeafStuck(w: World, q: Query, m: Mode, s: State, leaf: int, k: nat)
    requires w.Valid() && 0 <= leaf < |w.leafs| && k <= w.leafs[leaf].numLeafBrushes && |s.mail| == 16
    requires !m.moving && !s.trace.allSolid && LeafFrom(w, q, m, s, leaf, k).trace.allSolid
    ensures exists j {:trigger w.BrushAt(leaf, j)} ::
      0 <= j < w.leafs[leaf].numLeafBrushes && Stuck(w, q, w.BrushAt(leaf, j))
    decreases w.leafs[leaf].numLeafBrushes - k
  {
    if k < w.leafs[leaf].numLeafBrushes {
      var num := w.BrushAt(leaf, k);
      if !Stops(w, q, m, s, leaf, num) {
        LeafStuck(w, q, m, TryBrush(w, q, m, s, leaf, num), leaf, k + 1);
      }
    }
  }

  lemma VisitStuck(w: World, q: Query, m: Mode, s: State, leaf: int)
    requires w.Valid() && 0 <= leaf < |w.leafs| && !m.moving && !s.trace.allSolid
    requires Kept(w, q, false, s) && Covered(w, q, s) && |s.mail| == 16
    ensures VisitLeaf(w, q, m, s, leaf).trace.allSolid <==> StuckIn(w, q, leaf)
  {
    hide Meets, LeafFrom, Stuck, Kept, Covered;
    if Meets(w.leafs[leaf].contents, q.contents) {
      NoneTried(w, q, s, leaf);
      LeafKeeps(w, q, m, s, leaf, 0);
      var r := LeafFrom(w, q, m, s, leaf, 0);
      if r.trace.allSolid {
        LeafStuck(w, q, m, s, leaf, 0);
      } else {
        forall k | 0 <= k < w.leafs[leaf].numLeafBrushes
          ensures !Stuck(w, q, w.BrushAt(leaf, k))
        {
          TriedNotStuck(w, q, r, leaf, k);
        }
      }
    }
  }

  lemma TriedNotStuck(w: World, q: Query, r: State, leaf: int, k: nat)
    requires w.Valid() && Kept(w, q, false, r) && !r.trace.allSolid && 0 <= leaf < |w.leafs|
    requires k < w.leafs[leaf].numLeafBrushes
    requires LeafTried(w, q, r, leaf, w.leafs[leaf].numLeafBrushes)
    ensures !Stuck(w, q, w.BrushAt(leaf, k))
  {
    hide Kept;
    if Relevant(w, q, w.BrushAt(leaf, k)) { SettledNotStuck(w, q, r, w.BrushAt(leaf, k)); }
  }

  /** A box that does not move is reported stuck exactly when one of the leafs tested holds a relevant brush
      that the box is behind every side of: the mailbox and the early exits do not matter. */
  lemma {:induction false} TestIsExact(w: World, q: Query, m: Mode, s: State, list: seq<int>)
    requires w.Valid() && !m.moving && Kept(w, q, false, s) && Covered(w, q, s) && !s.trace.allSolid && |s.mail| == 16
    requires forall i :: 0 <= i < |list| ==> 0 <= list[i] < |w.leafs|
    ensures TestLeafs(w, q, m, s, list).trace.allSolid <==> StuckInOne(w, q, list)
    decreases |list|
  {
    hide VisitLeaf, Kept, Covered, StuckIn, Later;
    if list != [] {
      VisitStuck(w, q, m, s, list[0]);
      VisitKeeps(w, q, m, s, list[0]);
      var next := VisitLeaf(w, q, m, s, list[0]);
      if !next.trace.allSolid {
        TestIsExact(w, q, m, next, list[1..]);
        assert forall i :: 0 <= i < |list| - 1 ==> list[1..][i] == list[i + 1];
      }
    }
  }

  /** The trace of a standing box that brush `num` is found to hold. */
  ghost predicate Struck(w: World, q: Query, tr: Trace, num: nat)
  {
    && Stuck(w, q, num)
    && tr == NO_TRACE.(startSolid := true, allSolid := true, fraction := 0.0, contents := w.brushes[num].contents)
  }

  ghost predicate StruckIn(w: World, q: Query, tr: Trace, leaf: int)
    requires w.Valid()
  {
    && 0 <= leaf < |w.leafs| && Meets(w.leafs[leaf].contents, q.contents)
    && exists k {:trigger w.BrushAt(leaf, k)} ::
         0 <= k < w.leafs[leaf].numLeafBrushes && Struck(w, q, tr, w.BrushAt(leaf, k))
  }

  /** The whole trace of a standing box: nothing, or the report of one brush that holds it. */
  ghost predicate Reported(w: World, q: Query, tr: Trace, list: seq<int>)
    requires w.Valid()
  {
    tr == NO_TRACE || exists i :: 0 <= i < |list| && StruckIn(w, q, tr, list[i])
  }

  lemma TryReports(w: World, q: Query, m: Mode, s: State, leaf: int, num: nat)
    requires num < |w.brushes| && |s.mail| == 16 && !m.moving && s.trace == NO_TRACE
    ensures var tr := TryBrush(w, q, m, s, leaf, num).trace;
      if Stops(w, q, m, s, leaf, num) then Struck(w, q, tr, num) else tr == NO_TRACE
  {
    hide Gap;
  }

  lemma {:induction false} LeafReports(w: World, q: Query, m: Mode, s: State, leaf: int, k: nat)
    requires w.Valid() && 0 <= leaf < |w.leafs| && k <= w.leafs[leaf].numLeafBrushes && |s.mail| == 16
    requires !m.moving && s.trace == NO_TRACE
    ensures var tr := LeafFrom(w, q, m, s, leaf, k).trace;
      || tr == NO_TRACE
      || exists j {:trigger w.BrushAt(leaf, j)} ::
        0 <= j < w.leafs[leaf].numLeafBrushes && Struck(w, q, tr, w.BrushAt(leaf, j))
    decreases w.leafs[leaf].numLeafBrushes - k
  {
    hide TryBrush, Stops, Struck;
    if k < w.leafs[leaf].numLeafBrushes {
      var num := w.BrushAt(leaf, k);
      TryReports(w, q, m, s, leaf, num);
      TryMail(w, q, m, s, leaf, num);
      if !Stops(w, q, m, s, leaf, num) { LeafReports(w, q, m, TryBrush(w, q, m, s, leaf, num), leaf, k + 1); }
    }
  }

  lemma TryMail(w: World, q: Query, m: Mode, s: State, leaf: int, num: nat)
    requires num < |w.brushes| && |s.mail| == 16
    ensures |TryBrush(w, q, m, s, leaf, num).mail| == 16
  {
  }

  lemma {:induction false} TestReports(w: World, q: Query, m: Mode, s: State, list: seq<int>)
    requires w.Valid() && !m.moving && s.trace == NO_TRACE && |s.mail| == 16
    requires forall i :: 0 <= i < |list| ==> 0 <= list[i] < |w.leafs|
    ensures Reported(w, q, TestLeafs(w, q, m, s, list).trace, list)
    decreases |list|
  {
    hide LeafFrom, Struck, Meets;
    if list != [] {
      var next := VisitLeaf(w, q, m, s, list[0]);
      if Meets(w.leafs[list[0]].contents, q.contents) { LeafReports(w, q, m, s, list[0], 0); }
      assert next.trace == NO_TRACE || StruckIn(w, q, next.trace, list[0]);
      if next.trace == NO_TRACE {
        TestReports(w, q, m, next, list[1..]);
        assert forall i :: 0 <= i < |list| - 1 ==> list[1..][i] == list[i + 1];
      } else {
        StruckIsSolid(w, q, next.trace, list[0]);
      }
    }
  }

  lemma NoEnd(w: World, q: Query, tr: Trace, list: seq<int>)
    requires w.Valid() && Reported(w, q, tr, list)
    ensures tr.end == ORIGIN
  {
  }

  lemma StruckIsSolid(w: World, q: Query, tr: Trace, leaf: int)
    requires w.Valid() && StruckIn(w, q, tr, leaf)
    ensures tr.allSolid && tr.startSolid && tr.fraction == 0.0
  {
  }

  // ----- in place

  ghost function StateOf(data: TraceData): (s: State)
    reads data, data.mailbox
    requires data.mailbox.Length == 16
    ensures |s.mail| == 16
  {
    State(data.trace, data.mailbox[..], data.tried, data.seen)
  }

  method BrushAlreadyTested(data: TraceData, num: nat) returns (skip: bool)
    requires data.mailbox.Length == 16
    modifies data.mailbox
    ensures skip == (old(data.mailbox[num % 16]) == num)
    ensures data.mailbox[..] == old(data.mailbox[..])[num % 16 := num]
  {
    var hash := num % 16;
    skip := data.mailbox[hash] == num;
    data.mailbox[hash] := num;
  }

  method TryInLeaf(w: World, data: TraceData, leaf: int, num: nat, moving: bool) returns (done: bool)
    requires w.Valid() && num < |w.brushes| && data.mailbox.Length == 16 && (moving || !data.q.isPoint)
    modifies data`trace, data`tried, data.mailbox
    ensures StateOf(data) == TryBrush(w, data.q, Mode(moving, true), old(StateOf(data)), leaf, num)
    ensures done == Stops(w, data.q, Mode(moving, true), old(StateOf(data)), leaf, num)
  {
    hide Clip, Test, Meets;
    var skip := BrushAlreadyTested(data, num);
    if skip {
      return false;
    }
    if !Meets(w.brushes[num].contents, data.q.contents) {
      return false;
    }
    if moving {
      data.ClipBoxToBrush(leaf, w.brushes[num]);
    } else {
      data.TestBoxInBrush(w.brushes[num]);
    }
    data.tried := data.tried + {num};
    return data.trace.allSolid;
  }

  method TraceToLeaf(w: World, data: TraceData, leaf: int)
    requires w.Valid() && 0 <= leaf < |w.leafs| && data.mailbox.Length == 16
    modifies data`trace, data`tried, data`seen, data.mailbox
    ensures StateOf(data) == VisitLeaf(w, data.q, Mode(true, true), old(StateOf(data)), leaf)
  {
    hide Meets, TryBrush, Stops;
    ghost var m, s := Mode(true, true), StateOf(data);
    if !Meets(w.leafs[leaf].contents, data.q.contents) {
      return;
    }
    var k := 0;
    while k < w.leafs[leaf].numLeafBrushes
      invariant 0 <= k <= w.leafs[leaf].numLeafBrushes
      invariant LeafFrom(w, data.q, m, StateOf(data), leaf, k) == LeafFrom(w, data.q, m, s, leaf, 0)
      invariant data.seen == s.seen
    {
      var done := TryInLeaf(w, data, leaf, w.BrushAt(leaf, k), true);
      if done {
        data.seen := data.seen + {leaf};
        return;
      }
      k := k + 1;
    }
    data.seen := data.seen + {leaf};
  }

  method TestInLeaf(w: World, data: TraceData, leaf: int)
    requires w.Valid() && 0 <= leaf < |w.leafs| && data.mailbox.Length == 16 && !data.q.isPoint
    modifies data`trace, data`tried, data`seen, data.mailbox
    ensures StateOf(data) == VisitLeaf(w, data.q, Mode(false, true), old(StateOf(data)), leaf)
  {
    hide Meets, TryBrush, Stops;
    ghost var m, s := Mode(false, true), StateOf(data);
    if !Meets(w.leafs[leaf].contents, data.q.contents) {
      return;
    }
    var k := 0;
    while k < w.leafs[leaf].numLeafBrushes
      invariant 0 <= k <= w.leafs[leaf].numLeafBrushes
      invariant LeafFrom(w, data.q, m, StateOf(data), leaf, k) == LeafFrom(w, data.q, m, s, leaf, 0)
      invariant data.seen == s.seen
    {
      var done := TryInLeaf(w, data, leaf, w.BrushAt(leaf, k), false);
      if done {
        data.seen := data.seen + {leaf};
        return;
      }
      k := k + 1;
    }
    data.seen := data.seen + {leaf};
  }

  method RecursiveHullCheck(w: World, data: TraceData, num: int, p1f: real, p2f: real, p1: Vec3, p2: Vec3)
    requires w.Valid() && w.tree.Ref(num) && data.mailbox.Length == 16
    modifies data`trace, data`tried, data`seen, data.mailbox
    ensures StateOf(data) == HullCheck(w, data.q, Mode(true, true), old(StateOf(data)), num, p1f, p2f, p1, p2)
    decreases w.tree.Rank(num)
  {
    hide Along, Mid, VisitLeaf, Distance, Reach, CrossAt;
    if data.trace.fraction <= p1f {
      return;
    }
    if num < 0 {
      TraceToLeaf(w, data, -1 - num);
      return;
    }
    var n := w.tree.nodes[num];
    DivideStays(w.tree, num, data.q, p1, p2);
    var t1, t2, offset := Distance(n.plane, p1), Distance(n.plane, p2), Reach(n.plane, data.q);
    if t1 >= offset && t2 >= offset {
      RecursiveHullCheck(w, data, n.front, p1f, p2f, p1, p2);
      return;
    }
    if t1 <= -offset && t2 <= -offset {
      RecursiveHullCheck(w, data, n.back, p1f, p2f, p1, p2);
      return;
    }
    var near, far, frac, frac2;
    if t1 < t2 {
      near, far := n.back, n.front;
      frac2 := CrossAt(t1 + offset + DIST_EPSILON, t1 - t2);
      frac := CrossAt(t1 - offset + DIST_EPSILON, t1 - t2);
    } else if t1 > t2 {
      near, far := n.front, n.back;
      frac2 := CrossAt(t1 - offset - DIST_EPSILON, t1 - t2);
      frac := CrossAt(t1 + offset + DIST_EPSILON, t1 - t2);
    } else {
      near, far, frac, frac2 := n.front, n.back, 1.0, 0.0;
    }
    assert Divide(n, data.q, p1, p2) == Both(near, far, frac, frac2);
    hide Divide;
    RecursiveHullCheck(w, data, near, p1f, Mid(p1f, p2f, frac), p1, Along(p1, p2, frac));
    RecursiveHullCheck(w, data, far, Mid(p1f, p2f, frac2), p2f, Along(p1, p2, frac2), p2);
  }

  function Larger(a: real, b: real): real { if -a > b then -a else b }

  function QueryOf(start: Vec3, end: Vec3, box: Box, contents: bv32): Query
  {
    if box == Box(ORIGIN, ORIGIN) && start != end then Query(start, end, box, ORIGIN, contents, true)
    else
      Query(start, end, box,
        Vec3(Larger(box.mins.x, box.maxs.x), Larger(box.mins.y, box.maxs.y), Larger(box.mins.z, box.maxs.z)),
            contents, false)
  }

  /** The box at its place, a unit wider on every side. */
  function Around(p: Vec3, box: Box): Box
  {
    Box(p.Plus(box.mins).Minus(Vec3(1.0, 1.0, 1.0)), p.Plus(box.maxs).Plus(Vec3(1.0, 1.0, 1.0)))
  }

  /** The leafs tested for a box that stays where it is. */
  function TestedLeafs(w: World, p: Vec3, box: Box, head: int): (r: seq<int>)
    requires w.Valid() && w.tree.Ref(head)
    ensures forall i :: 0 <= i < |r| ==> 0 <= r[i] < |w.leafs|
  {
    Upto(BoxLeafs(w.tree, Around(p, box), head), MAX_POINT_LEAFS)
  }

  /** A box that does not move. */
  /** The leaf of every point of the box where it stands is tested, if there is room to list the leafs. */
  lemma TestSeesPoints(w: World, p: Vec3, box: Box, head: int, x: Vec3)
    requires w.Valid() && w.tree.Ref(head) && box.Has(x)
    requires |BoxLeafs(w.tree, Around(p, box), head)| <= MAX_POINT_LEAFS
    ensures PointLeaf(w.tree, p.Plus(x), head) in TestedLeafs(w, p, box, head)
  {
    WorldTree(w);
    hide w.Valid;
    BoxCoversItsPoints(w.tree, Around(p, box), head, p.Plus(x));
  }

  /** A box that is not found to be stuck is in no relevant brush of the leaf of any of its points. */
  lemma NotStuckIsFree(w: World, q: Query, head: int, x: Vec3, k: nat)
    requires w.Valid() && w.tree.Ref(head) && q.box.Has(x)
    requires |BoxLeafs(w.tree, Around(q.start, q.box), head)| <= MAX_POINT_LEAFS
    requires !StuckInOne(w, q, TestedLeafs(w, q.start, q.box, head))
    requires var leaf := PointLeaf(w.tree, q.start.Plus(x), head);
      k < w.leafs[leaf].numLeafBrushes && Meets(w.leafs[leaf].contents, q.contents)
    ensures !Stuck(w, q, w.BrushAt(PointLeaf(w.tree, q.start.Plus(x), head), k))
  {
    hide Stuck, Meets, TestedLeafs, BoxLeafs, PointLeaf;
    TestSeesPoints(w, q.start, q.box, head, x);
    var leaf := PointLeaf(w.tree, q.start.Plus(x), head);
    var list := TestedLeafs(w, q.start, q.box, head);
    var i :| 0 <= i < |list| && list[i] == leaf;
    assert !StuckIn(w, q, list[i]);
  }

  method TestPosition(w: World, q: Query, head: int) returns (tr: Trace)
    requires w.Valid() && w.tree.Ref(head) && !q.isPoint
    ensures tr.end == q.start && (tr.allSolid <==> StuckInOne(w, q, TestedLeafs(w, q.start, q.box, head)))
    ensures Reported(w, q, tr.(end := ORIGIN), TestedLeafs(w, q.start, q.box, head))
  {
    hide VisitLeaf, BoxLeafs, TopNode, Kept, StuckInOne, Covered, Reported, Stuck;
    var data := new TraceData(q, NO_TRACE);
    assert StateOf(data) == Fresh();
    var list := new int[MAX_POINT_LEAFS];
    var leafs, topNode := BoxLeafnums(w.tree, Around(q.start, q.box), list, head);
    ghost var m, all := Mode(false, true), list[..leafs];
    var i := 0;
    while i < leafs
      invariant 0 <= i <= leafs && list[..leafs] == all && fresh(data) && fresh(data.mailbox)
      invariant data.mailbox.Length == 16
      invariant TestLeafs(w, q, m, StateOf(data), all[i..]) == TestLeafs(w, q, m, Fresh(), all)
    {
      assert all[i..][0] == list[i] && all[i..][1..] == all[i + 1..];
      TestInLeaf(w, data, list[i]);
      if data.trace.allSolid {
        assert StateOf(data) == TestLeafs(w, q, m, Fresh(), all);
        break;
      }
      i := i + 1;
    }
    assert i == leafs ==> all[i..] == [];
    assert StateOf(data) == TestLeafs(w, q, m, Fresh(), all);
    FreshKept(w, q, false);
    TestIsExact(w, q, m, Fresh(), all);
    TestReports(w, q, m, Fresh(), all);
    NoEnd(w, q, data.trace, all);
    return data.trace.(end := q.start);
  }

  method BoxTrace(w: World, start: Vec3, end: Vec3, box: Box, head: int, contents: bv32) returns (tr: Trace)
    requires w.Valid() && w.tree.Ref(head)
    ensures w.tree.nodes == [] ==> tr == NO_TRACE
    ensures w.tree.nodes != [] && start == end ==>
      && tr.end == start
      && (tr.allSolid <==> StuckInOne(w, QueryOf(start, end, box, contents), TestedLeafs(w, start, box, head)))
      && Reported(w, QueryOf(start, end, box, contents), tr.(end := ORIGIN), TestedLeafs(w, start, box, head))
    ensures w.tree.nodes != [] && start != end ==>
      var found := Sweep(w, QueryOf(start, end, box, contents), true, head).trace;
      tr == found.(end := Along(start, end, found.fraction))
  {
    hide HullCheck, TestedLeafs, StuckInOne, Reported;
    if |w.tree.nodes| == 0 {
      return NO_TRACE;
    }
    var q := QueryOf(start, end, box, contents);
    if start == end {
      tr := TestPosition(w, q, head);
      return;
    }
    var data := new TraceData(q, NO_TRACE);
    assert StateOf(data) == Fresh();
    RecursiveHullCheck(w, data, head, 0.0, 1.0, start, end);
    AlongWhole(start, end);
    if data.trace.fraction == 1.0 {
      return data.trace.(end := end);
    }
    return data.trace.(end := Along(start, end, data.trace.fraction));
  }

  lemma AlongWhole(p1: Vec3, p2: Vec3)
    ensures Along(p1, p2, 1.0) == p2
  {
  }
}
