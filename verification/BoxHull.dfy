/** A bounding box turned into a small partition of space, so that entities are traced against as the map is
    (src/cmodel.c): six nodes in a row, one leaf, one brush with six sides. */
module BoxHull {
  import opened Vectors
  import opened Bsp
  import opened BrushClip
  import opened BoxTrace

  const CONTENTS_MONSTER: bv32 := 0x2000000

  function Axis(i: nat): Vec3
  {
    if i == 0 then Vec3(1.0, 0.0, 0.0) else if i == 1 then Vec3(0.0, 1.0, 0.0) else Vec3(0.0, 0.0, 1.0)
  }

  function Turned(i: nat): Vec3
  {
    if i == 0 then Vec3(-1.0, 0.0, 0.0) else if i == 1 then Vec3(0.0, -1.0, 0.0) else Vec3(0.0, 0.0, -1.0)
  }

  /** Faces come in pairs along each axis, the upper one first. */
  function AxisOf(i: nat): (axis: nat)
    requires i < 6
    ensures axis == i / 2
  {
    match i
    case 0 => 0
    case 1 => 0
    case 2 => 1
    case 3 => 1
    case 4 => 2
    case _ => 2
  }

  predicate Upper(i: nat)
  {
    match i
    case 0 => true
    case 2 => true
    case 4 => true
    case _ => false
  }

  /** The coordinate that face `i` of a box lies at: upper and lower for each axis in turn. */
  function Face(b: Box, i: nat): real
    requires i < 6
  {
    match i
    case 0 => b.maxs.x
    case 1 => b.mins.x
    case 2 => b.maxs.y
    case 3 => b.mins.y
    case 4 => b.maxs.z
    case _ => b.mins.z
  }

  /** Each face has a plane along its axis, for the nodes, and the same plane turned around. */
  function FacePlane(b: Box, i: nat): Plane
    requires i < 6
  {
    Plane(Axis(AxisOf(i)), Face(b, i), AxisOf(i), 0)
  }

  function TurnedPlane(b: Box, i: nat): Plane
    requires i < 6
  {
    Plane(Turned(AxisOf(i)), -Face(b, i), PLANE_ANYX + AxisOf(i), 0)
  }

  function PlaneAt(b: Box, k: nat): Plane
    requires k < 12
  {
    if k % 2 == 0 then FacePlane(b, k / 2) else TurnedPlane(b, k / 2)
  }

  function PlanesOf(b: Box): (r: seq<Plane>)
    ensures |r| == 12
    ensures forall k {:trigger r[k]} :: 0 <= k < 12 ==> r[k] == PlaneAt(b, k)
  {
    seq(12, k requires 0 <= k < 12 => PlaneAt(b, k))
  }

  /** Node `i` of the row: odd ones have their empty side behind, even ones in front. */
  function HullNode(b: Box, i: nat, head: nat, empty: nat, inside: nat): Node
    requires i < 6
  {
    var next := if i != 5 then head + i + 1 else -1 - inside;
    if Upper(i) then Node(FacePlane(b, i), -1 - empty, next) else Node(FacePlane(b, i), next, -1 - empty)
  }

  function HullSide(b: Box, i: nat): Side
    requires i < 6
  {
    Side(if Upper(i) then FacePlane(b, i) else TurnedPlane(b, i), -1)
  }

  function HullBrush(b: Box): Brush
  {
    Brush(CONTENTS_MONSTER, seq(6, i requires 0 <= i < 6 => HullSide(b, i)))
  }

  /** The map with the row of nodes, the leaf and the brush appended. */
  function HullOf(base: World, empty: nat, b: Box): World
  {
    var head, inside := |base.tree.nodes|, |base.leafs|;
    World(
      Tree(base.tree.nodes + seq(6, i requires 0 <= i < 6 => HullNode(b, i, head, empty, inside)),
           base.tree.rank + seq(6, i requires 0 <= i < 6 => 5 - i), base.tree.numLeafs + 1),
      base.leafs + [Leaf(CONTENTS_MONSTER, 0, 0, |base.leafBrushes|, 1)],
      base.leafBrushes + [|base.brushes|],
      base.brushes + [HullBrush(b)])
  }

  /** A loaded map: it has nodes, and an empty leaf. */
  ghost predicate Loaded(base: World, empty: nat)
  {
    base.Valid() && base.tree.nodes != [] && empty < |base.leafs| && base.leafs[empty].contents == 0
  }

  lemma HullIsValid(base: World, empty: nat, b: Box)
    requires Loaded(base, empty)
    ensures HullOf(base, empty, b).Valid() && HullOf(base, empty, b).tree.Ref(|base.tree.nodes|)
  {
    var w := HullOf(base, empty, b);
    hide HullNode, SignBits, HullBrush;
    forall i | 0 <= i < |w.tree.nodes|
      ensures NodeFits(w.tree, i)
    {
      if i < |base.tree.nodes| { OldNode(base, empty, b, i); } else { NewNode(base, empty, b, i - |base.tree.nodes|); }
    }
    AllFit(w.tree);
    BrushesFit(base, empty, b);
  }

  ghost predicate NodeFits(t: Tree, i: int)
  {
    && 0 <= i < |t.nodes| == |t.rank| && t.Ref(t.nodes[i].front) && t.Ref(t.nodes[i].back) && Signed(t.nodes[i].plane)
    && t.Rank(t.nodes[i].front) < t.Rank(i) && t.Rank(t.nodes[i].back) < t.Rank(i)
  }

  lemma AllFit(t: Tree)
    requires |t.nodes| == |t.rank| && forall i :: 0 <= i < |t.nodes| ==> NodeFits(t, i)
    ensures t.Valid()
  {
    hide Signed;
    forall i | 0 <= i < |t.nodes|
      ensures t.Ref(t.nodes[i].front) && t.Ref(t.nodes[i].back) && Signed(t.nodes[i].plane)
      ensures t.Rank(t.nodes[i].front) < t.Rank(i) && t.Rank(t.nodes[i].back) < t.Rank(i)
    {
      assert NodeFits(t, i);
    }
  }

  lemma OldNode(base: World, empty: nat, b: Box, i: nat)
    requires Loaded(base, empty) && i < |base.tree.nodes|
    ensures NodeFits(HullOf(base, empty, b).tree, i)
  {
    hide HullNode, SignBits, HullBrush;
    var t := HullOf(base, empty, b).tree;
    assert t.nodes[i] == base.tree.nodes[i] && t.rank[i] == base.tree.rank[i];
    SameRank(base.tree, t, base.tree.nodes[i].front);
    SameRank(base.tree, t, base.tree.nodes[i].back);
  }

  lemma NewNode(base: World, empty: nat, b: Box, i: nat)
    requires Loaded(base, empty) && i < 6
    ensures NodeFits(HullOf(base, empty, b).tree, |base.tree.nodes| + i)
    ensures HullOf(base, empty, b).tree.nodes[|base.tree.nodes| + i] ==
      HullNode(b, i, |base.tree.nodes|, empty, |base.leafs|)
  {
    hide SignBits, HullBrush, Face;
    var t, n := HullOf(base, empty, b).tree, |base.tree.nodes|;
    assert t.nodes[n + i] == HullNode(b, i, n, empty, |base.leafs|) && t.rank[n + i] == 5 - i;
  }

  lemma SameRank(t: Tree, t': Tree, num: int)
    requires |t.rank| == |t.nodes| && t.Ref(num)
    requires |t'.rank| == |t'.nodes| && t.rank <= t'.rank && t'.numLeafs == t.numLeafs + 1
    ensures t'.Rank(num) == t.Rank(num) && t'.Ref(num)
  {
  }

  lemma BrushesFit(base: World, empty: nat, b: Box)
    requires Loaded(base, empty)
    ensures var w := HullOf(base, empty, b);
      && (forall i {:trigger w.leafs[i]} :: 0 <= i < |w.leafs| ==>
           w.leafs[i].firstLeafBrush + w.leafs[i].numLeafBrushes <= |w.leafBrushes|)
      && forall k {:trigger w.leafBrushes[k]} :: 0 <= k < |w.leafBrushes| ==> w.leafBrushes[k] < |w.brushes|
  {
    hide HullNode, HullBrush;
  }

  // ----- a point against the hull

  function PointContents(w: World, p: Vec3, head: int): bv32
    requires w.Valid() && w.tree.Ref(head)
  {
    if w.tree.nodes == [] then 0 else w.leafs[PointLeaf(w.tree, p, head)].contents
  }

  /** Beyond the first `i` faces of a box, looking from inside. */
  ghost predicate Within(b: Box, p: Vec3, i: nat)
    requires i < 6
  {
    forall j {:trigger Face(b, j)} :: i <= j < 6 ==>
      if Upper(j) then p.At(AxisOf(j)) < Face(b, j) else p.At(AxisOf(j)) >= Face(b, j)
  }

  lemma {:induction false} RowFinds(base: World, empty: nat, b: Box, p: Vec3, i: nat)
    requires Loaded(base, empty) && HullOf(base, empty, b).Valid() && i < 6
    ensures HullOf(base, empty, b).tree.Ref(|base.tree.nodes| + i)
    ensures PointLeaf(HullOf(base, empty, b).tree, p, |base.tree.nodes| + i) ==
      if Within(b, p, i) then |base.leafs| else empty
    decreases 6 - i
  {
    hide SignBits, HullBrush, HullOf;
    var t, n := HullOf(base, empty, b).tree, |base.tree.nodes|;
    NewNode(base, empty, b, i);
    var inside := if Upper(i) then p.At(AxisOf(i)) < Face(b, i) else p.At(AxisOf(i)) >= Face(b, i);
    if i < 5 {
      RowFinds(base, empty, b, p, i + 1);
      assert Within(b, p, i) <==> inside && Within(b, p, i + 1);
    } else {
      assert Within(b, p, i) <==> inside;
    }
  }

  /** The contents of a point are those of the box exactly when the point is in the box, its upper faces left
      out. */
  lemma PointInHull(base: World, empty: nat, b: Box, p: Vec3)
    requires Loaded(base, empty)
    ensures HullOf(base, empty, b).Valid() && HullOf(base, empty, b).tree.Ref(|base.tree.nodes|)
    ensures PointContents(HullOf(base, empty, b), p, |base.tree.nodes|) ==
      if b.mins.x <= p.x < b.maxs.x && b.mins.y <= p.y < b.maxs.y && b.mins.z <= p.z < b.maxs.z then CONTENTS_MONSTER
      else 0
  {
    HullIsValid(base, empty, b);
    RowFinds(base, empty, b, p, 0);
    SixFaces(b, p);
  }

  lemma SixFaces(b: Box, p: Vec3)
    ensures Within(b, p, 0) <==> b.mins.x <= p.x < b.maxs.x && b.mins.y <= p.y < b.maxs.y && b.mins.z <= p.z < b.maxs.z
  {
    assert Face(b, 0) == b.maxs.x && Face(b, 1) == b.mins.x && Face(b, 2) == b.maxs.y;
    assert Face(b, 3) == b.mins.y && Face(b, 4) == b.maxs.z && Face(b, 5) == b.mins.z;
  }

  // ----- a box against the hull

  /** The two closed boxes, the second at `p`, overlap. */
  ghost predicate Overlap(b: Box, c: Box, p: Vec3)
  {
    && p.x + c.mins.x <= b.maxs.x && p.x + c.maxs.x >= b.mins.x
    && p.y + c.mins.y <= b.maxs.y && p.y + c.maxs.y >= b.mins.y
    && p.z + c.mins.z <= b.maxs.z && p.z + c.maxs.z >= b.mins.z
  }

  /** Face by face. */
  ghost predicate FaceOverlap(b: Box, c: Box, p: Vec3, i: nat)
    requires i < 6
  {
    if Upper(i) then p.At(AxisOf(i)) + c.mins.At(AxisOf(i)) <= Face(b, i)
    else p.At(AxisOf(i)) + c.maxs.At(AxisOf(i)) >= Face(b, i)
  }

  lemma OverlapByFaces(b: Box, c: Box, p: Vec3)
    ensures Overlap(b, c, p) <==> forall i :: 0 <= i < 6 ==> FaceOverlap(b, c, p, i)
  {
    assert FaceOverlap(b, c, p, 0) <==> p.x + c.mins.x <= b.maxs.x;
    assert FaceOverlap(b, c, p, 1) <==> p.x + c.maxs.x >= b.mins.x;
    assert FaceOverlap(b, c, p, 2) <==> p.y + c.mins.y <= b.maxs.y;
    assert FaceOverlap(b, c, p, 3) <==> p.y + c.maxs.y >= b.mins.y;
    assert FaceOverlap(b, c, p, 4) <==> p.z + c.mins.z <= b.maxs.z;
    assert FaceOverlap(b, c, p, 5) <==> p.z + c.maxs.z >= b.mins.z;
  }

  /** The box is behind side `i` of the brush just when it reaches past that face. */
  lemma SideGap(b: Box, c: Box, p: Vec3, i: nat)
    requires i < 6
    ensures Gap(HullSide(b, i).plane, c, false, p) <= 0.0 <==> FaceOverlap(b, c, p, i)
  {
    hide Dot, Face, Axis, Turned, Offset;
    var normal := if Upper(i) then Axis(AxisOf(i)) else Turned(AxisOf(i));
    AxisNormal(AxisOf(i), p, c);
    AxisNormal(AxisOf(i), Offset(normal, c), c);
  }

  lemma AxisNormal(axis: nat, v: Vec3, c: Box)
    requires axis < 3
    ensures Dot(v, Axis(axis)) == v.At(axis) && Dot(v, Turned(axis)) == -v.At(axis)
    ensures Offset(Axis(axis), c).At(axis) == c.mins.At(axis) && Offset(Turned(axis), c).At(axis) == c.maxs.At(axis)
  {
  }

  /** Overlapping boxes are not told apart at node `i`, the second having been drawn out by a unit. */
  lemma NodeFollows(b: Box, c: Box, p: Vec3, i: nat)
    requires i < 6 && FaceOverlap(b, c, p, i)
    ensures BoxOnPlaneSide(Around(p, c), FacePlane(b, i)) != if Upper(i) then SIDE_FRONT else SIDE_BACK
  {
    hide Face;
  }

  /** The leaf of the box is reached by every box that overlaps it, and no leaf but that and the empty one. */
  lemma {:induction false} RowReaches(base: World, empty: nat, b: Box, c: Box, p: Vec3, i: nat)
    requires Loaded(base, empty) && HullOf(base, empty, b).Valid() && i < 6
    ensures HullOf(base, empty, b).tree.Ref(|base.tree.nodes| + i)
    ensures var leafs := BoxLeafs(HullOf(base, empty, b).tree, Around(p, c), |base.tree.nodes| + i);
      && |leafs| <= 7 - i
      && (forall k :: 0 <= k < |leafs| ==> leafs[k] == empty || leafs[k] == |base.leafs|)
      && ((forall j :: i <= j < 6 ==> FaceOverlap(b, c, p, j)) ==> |base.leafs| in leafs)
    decreases 6 - i
  {
    hide SignBits, HullBrush, HullOf, Face, FaceOverlap, BoxOnPlaneSide;
    NewNode(base, empty, b, i);
    if i < 5 { RowReaches(base, empty, b, c, p, i + 1); }
    if FaceOverlap(b, c, p, i) { NodeFollows(b, c, p, i); }
  }

  lemma BehindAll(q: Query, b: Box)
    requires !q.isPoint
    ensures AllBehind(q.GapsTo(HullBrush(b)), 6, false) <==> Overlap(b, q.box, q.start)
  {
    hide Gap, HullSide, FaceOverlap, Overlap;
    var gaps := q.GapsTo(HullBrush(b));
    forall i | 0 <= i < 6
      ensures gaps[i].start <= 0.0 <==> FaceOverlap(b, q.box, q.start, i)
    {
      assert HullBrush(b).sides[i] == HullSide(b, i);
      SideGap(b, q.box, q.start, i);
    }
    OverlapByFaces(b, q.box, q.start);
  }

  /** The leaf of the box is where a box that overlaps it gets stuck; in the empty leaf none does. */
  lemma StuckInHull(base: World, empty: nat, b: Box, q: Query, leaf: int)
    requires Loaded(base, empty) && HullOf(base, empty, b).Valid() && Meets(CONTENTS_MONSTER, q.contents) && !q.isPoint
    requires leaf == empty || leaf == |base.leafs|
    ensures StuckIn(HullOf(base, empty, b), q, leaf) <==> leaf == |base.leafs| && Overlap(b, q.box, q.start)
  {
    hide HullBrush, Overlap, Gap;
    var w := HullOf(base, empty, b);
    if leaf == empty {
      assert w.leafs[leaf] == base.leafs[empty];
    } else {
      var num := |base.brushes|;
      assert w.BrushAt(leaf, 0) == num;
      assert w.brushes[num] == HullBrush(b);
      BrushSides(b);
      BehindAll(q, b);
    }
  }

  lemma BrushSides(b: Box)
    ensures |HullBrush(b).sides| == 6 && HullBrush(b).contents == CONTENTS_MONSTER
  {
  }

  /** A box that stays where it is, traced against the hull of another, is reported stuck exactly when the two
      closed boxes overlap. */
  lemma BoxInHull(base: World, empty: nat, b: Box, c: Box, p: Vec3, contents: bv32)
    requires Loaded(base, empty) && contents & CONTENTS_MONSTER != 0
    ensures HullOf(base, empty, b).Valid() && HullOf(base, empty, b).tree.Ref(|base.tree.nodes|)
    ensures StuckInOne(HullOf(base, empty, b), QueryOf(p, p, c, contents),
      TestedLeafs(HullOf(base, empty, b), p, c, |base.tree.nodes|))
      <==> Overlap(b, c, p)
  {
    hide HullBrush, Overlap, HullOf, StuckIn, BoxLeafs;
    var w, q := HullOf(base, empty, b), QueryOf(p, p, c, contents);
    HullIsValid(base, empty, b);
    RowReaches(base, empty, b, c, p, 0);
    OverlapByFaces(b, c, p);
    var leafs := TestedLeafs(w, p, c, |base.tree.nodes|);
    forall i | 0 <= i < |leafs|
      ensures StuckIn(w, q, leafs[i]) <==> leafs[i] == |base.leafs| && Overlap(b, c, p)
    {
      StuckInHull(base, empty, b, q, leafs[i]);
    }
  }

  // ----- in place

  class BoundingBox {
    const base: World
    const empty: nat
    const planes: array<Plane>
    ghost var bounds: Box

    ghost predicate Valid()
      reads this, planes
    {
      Loaded(base, empty) && planes.Length == 12 && Filled(planes[..], bounds, bounds, 6, 6)
    }

    /** At first the box is a point. */
    constructor InitBoxHull(base: World, empty: nat)
      requires Loaded(base, empty)
      ensures Valid() && this.base == base && this.empty == empty && fresh(planes)
    {
      this.base, this.empty := base, empty;
      planes := new Plane[12](_ => Plane(ORIGIN, 0.0, 0, 0));
      bounds := Box(ORIGIN, ORIGIN);
      new;
      hide PlaneAt, Axis, Turned, Loaded;
      var i := 0;
      while i < 6
        invariant 0 <= i <= 6 && bounds == Box(ORIGIN, ORIGIN) && Filled(planes[..], bounds, bounds, i, i)
      {
        NoExtent(i);
        planes[2 * i] := Plane(Axis(AxisOf(i)), 0.0, AxisOf(i), 0);
        planes[2 * i + 1] := Plane(Turned(AxisOf(i)), 0.0, PLANE_ANYX + AxisOf(i), 0);
        i := i + 1;
      }
      AllFilled(planes[..], bounds, bounds);
    }

    /** From here on the map extended by these planes is the hull of the box. */
    method HeadnodeForBox(b: Box) returns (head: int)
      requires Valid()
      modifies this`bounds, planes
      ensures Valid() && bounds == b && head == |base.tree.nodes|
    {
      hide PlaneAt;
      SetFace(b, 0, b.maxs.x);
      SetFace(b, 1, b.mins.x);
      SetFace(b, 2, b.maxs.y);
      SetFace(b, 3, b.mins.y);
      SetFace(b, 4, b.maxs.z);
      SetFace(b, 5, b.mins.z);
      AllFilled(planes[..], b, bounds);
      bounds := b;
      return |base.tree.nodes|;
    }

    /** The position test of another box against this one, as a trace that does not move. */
    method StandsIn(c: Box, p: Vec3, contents: bv32) returns (tr: Trace)
      requires Valid() && contents & CONTENTS_MONSTER != 0
      ensures tr.allSolid <==> Overlap(bounds, c, p)
      ensures tr.end == p
    {
      hide HullOf, Loaded, Overlap, StuckInOne;
      var b :=
        Box(Vec3(planes[2].dist, planes[6].dist, planes[10].dist),
          Vec3(planes[0].dist, planes[4].dist, planes[8].dist));
      BoundsKept(planes[..], bounds);
      BoxInHull(base, empty, b, c, p, contents);
      HullHasNodes(base, empty, b);
      tr := BoxTrace.BoxTrace(HullOf(base, empty, b), p, p, c, |base.tree.nodes|, contents);
    }

    method SetFace(b: Box, i: nat, dist: real)
      requires i < 6 && Filled(planes[..], b, bounds, i, 6) && dist == Face(b, i)
      modifies planes
      ensures Filled(planes[..], b, bounds, i + 1, 6)
    {
      hide PlaneAt;
      FaceMoved(b, bounds, i);
      planes[2 * i] := planes[2 * i].(dist := dist);
      planes[2 * i + 1] := planes[2 * i + 1].(dist := -dist);
    }
  }

  /** Twelve planes, of which the first `n` pairs are those of `b`, and the others up to `m` those of `was`. */
  ghost predicate Filled(planes: seq<Plane>, b: Box, was: Box, n: nat, m: nat)
  {
    && n <= m <= 6 && |planes| == 12
    && forall k {:trigger planes[k]} :: 0 <= k < 2 * m ==> planes[k] == PlaneAt(if k < 2 * n then b else was, k)
  }

  lemma BoundsKept(planes: seq<Plane>, b: Box)
    requires Filled(planes, b, b, 6, 6)
    ensures b ==
      Box(Vec3(planes[2].dist, planes[6].dist, planes[10].dist), Vec3(planes[0].dist, planes[4].dist, planes[8].dist))
  {
  }

  lemma HullHasNodes(base: World, empty: nat, b: Box)
    requires Loaded(base, empty)
    ensures HullOf(base, empty, b).tree.nodes != []
  {
  }

  lemma AllFilled(planes: seq<Plane>, b: Box, was: Box)
    requires Filled(planes, b, was, 6, 6)
    ensures planes == PlanesOf(b)
  {
  }

  lemma FaceMoved(b: Box, was: Box, i: nat)
    requires i < 6
    ensures PlaneAt(b, 2 * i) == PlaneAt(was, 2 * i).(dist := Face(b, i))
    ensures PlaneAt(b, 2 * i + 1) == PlaneAt(was, 2 * i + 1).(dist := -Face(b, i))
  {
    match i
    case 0 =>
    case 1 =>
    case 2 =>
    case 3 =>
    case 4 =>
    case _ =>
  }

  lemma NoExtent(i: nat)
    requires i < 6
    ensures PlaneAt(Box(ORIGIN, ORIGIN), 2 * i) == Plane(Axis(AxisOf(i)), 0.0, AxisOf(i), 0)
    ensures PlaneAt(Box(ORIGIN, ORIGIN), 2 * i + 1) == Plane(Turned(AxisOf(i)), 0.0, PLANE_ANYX + AxisOf(i), 0)
  {
    match i
    case 0 =>
    case 1 =>
    case 2 =>
    case 3 =>
    case 4 =>
    case _ =>
  }
}
