/** The binary space partition of a map (src/cmodel.c): finding the leaf of a point and the list of
    leafs a box touches. */
module Bsp {
  import opened Sequences
  import opened Vectors
  import opened Bits

  const SIDE_EPSILON := 0.001
  const SIDE_FRONT := 1
  const SIDE_BACK := 2
  const SIDE_BOTH := 3
  const PLANE_ANYX := 3

  /** Planes of kind 0, 1 and 2 are perpendicular to that axis. */
  datatype Plane = Plane(normal: Vec3, dist: real, kind: nat, signBits: bv8)

  /** A child below zero is the leaf -1 - child. */
  datatype Node = Node(plane: Plane, front: int, back: int)

  /** `rank` bounds the way down from each node; the program does without it, a loaded map being a tree. */
  datatype Tree = Tree(nodes: seq<Node>, rank: seq<nat>, numLeafs: nat)
  {
    predicate Ref(num: int) { if num < 0 then -1 - num < numLeafs else num < |nodes| }

    ghost predicate Valid()
    {
      && |rank| == |nodes|
      && forall i {:trigger nodes[i]} :: 0 <= i < |nodes| ==>
           && Ref(nodes[i].front) && Ref(nodes[i].back) && Signed(nodes[i].plane)
           && Rank(nodes[i].front) < Rank(i) && Rank(nodes[i].back) < Rank(i)
    }

    function Rank(num: int): nat
      requires |rank| == |nodes|
    {
      if 0 <= num < |nodes| then rank[num] + 1 else 0
    }
  }

  /** The brushes of a leaf are a range of the map's list of leaf brushes; cluster -1 is solid rock. */
  datatype Leaf = Leaf(contents: bv32, cluster: int, area: nat, firstLeafBrush: nat, numLeafBrushes: nat)

  datatype Box = Box(mins: Vec3, maxs: Vec3)
  {
    predicate Ordered() { mins.x <= maxs.x && mins.y <= maxs.y && mins.z <= maxs.z }

    predicate Has(p: Vec3)
    {
      mins.x <= p.x <= maxs.x && mins.y <= p.y <= maxs.y && mins.z <= p.z <= maxs.z
    }

    /** Strictly inside the box drawn in by `e` on every side. */
    predicate Inside(p: Vec3, e: real)
    {
      && mins.x + e < p.x < maxs.x - e && mins.y + e < p.y < maxs.y - e && mins.z + e < p.z < maxs.z - e
    }
  }

  // ----- planes

  /** The plane across an axis, facing up it. */
  function AxisPlane(axis: nat, dist: real): Plane
    requires axis < 3
  {
    Plane(Vec3(if axis == 0 then 1.0 else 0.0, if axis == 1 then 1.0 else 0.0, if axis == 2 then 1.0 else 0.0), dist,
          axis, 0)
  }

  function SignBits(normal: Vec3): (bits: bv8)
    ensures bits < 8
  {
    (if normal.x < 0.0 then 1 else 0) | (if normal.y < 0.0 then 2 else 0) | (if normal.z < 0.0 then 4 else 0)
  }

  method SignBitsForPlane(plane: Plane) returns (bits: bv8)
    ensures bits == SignBits(plane.normal)
  {
    bits := 0;
    var i := 0;
    while i < 3
      invariant 0 <= i <= 3
      invariant bits ==
        SignBits(Vec3(
          if i > 0 then plane.normal.x else 0.0,
          if i > 1 then plane.normal.y else 0.0,
          if i > 2 then plane.normal.z else 0.0))
    {
      if plane.normal.At(i) < 0.0 {
        bits := bits | Mask(i);
      }
      i := i + 1;
    }
  }

  predicate Signed(p: Plane) { p.kind < PLANE_ANYX || p.signBits == SignBits(p.normal) }

  /** How far in front of the plane a point lies. */
  function Distance(plane: Plane, p: Vec3): real
  {
    if plane.kind < PLANE_ANYX then p.At(plane.kind) - plane.dist else Dot(plane.normal, p) - plane.dist
  }

  /** The corner of a box chosen by the sign bits, one per axis: bit set picks `lo`. */
  function Corner(bits: bv8, lo: Vec3, hi: Vec3): Vec3
  {
    match bits
    case 0 => hi
    case 1 => Vec3(lo.x, hi.y, hi.z)
    case 2 => Vec3(hi.x, lo.y, hi.z)
    case 3 => Vec3(lo.x, lo.y, hi.z)
    case 4 => Vec3(hi.x, hi.y, lo.z)
    case 5 => Vec3(lo.x, hi.y, lo.z)
    case 6 => Vec3(hi.x, lo.y, lo.z)
    case 7 => lo
    case _ => ORIGIN
  }

  function BoxOnPlaneSide(box: Box, p: Plane): (sides: int)
  {
    if p.kind < PLANE_ANYX then
      if p.dist - SIDE_EPSILON <= box.mins.At(p.kind) then SIDE_FRONT
      else if p.dist + SIDE_EPSILON >= box.maxs.At(p.kind) then SIDE_BACK
      else SIDE_BOTH
    else
      var dist1 := Dot(p.normal, Corner(p.signBits, box.mins, box.maxs));
      var dist2 := Dot(p.normal, Corner(p.signBits, box.maxs, box.mins));
      (if dist1 >= p.dist then SIDE_FRONT else 0) + if dist2 < p.dist then SIDE_BACK else 0
  }

  lemma Between(n: real, lo: real, hi: real, x: real)
    requires lo <= x <= hi
    ensures n * (if n < 0.0 then hi else lo) <= n * x <= n * (if n < 0.0 then lo else hi)
  {
    if n < 0.0 {
      assert n * (hi - x) <= 0.0 && n * (x - lo) <= 0.0;
    } else {
      assert n * (hi - x) >= 0.0 && n * (x - lo) >= 0.0;
    }
  }

  lemma DotOrder(n: Vec3, a: Vec3, b: Vec3)
    requires n.x * a.x <= n.x * b.x && n.y * a.y <= n.y * b.y && n.z * a.z <= n.z * b.z
    ensures Dot(n, a) <= Dot(n, b)
  {
  }

  lemma CornerBySign(n: Vec3, lo: Vec3, hi: Vec3)
    ensures Corner(SignBits(n), lo, hi) ==
      Vec3(if n.x < 0.0 then lo.x else hi.x, if n.y < 0.0 then lo.y else hi.y, if n.z < 0.0 then lo.z else hi.z)
  {
  }

  /** The two corners are the extremes of the box along the normal. */
  lemma CornersAreExtreme(box: Box, p: Plane, x: Vec3)
    requires p.signBits == SignBits(p.normal) && box.Has(x)
    ensures Dot(p.normal, Corner(p.signBits, box.maxs, box.mins)) <= Dot(p.normal, x)
    ensures Dot(p.normal, x) <= Dot(p.normal, Corner(p.signBits, box.mins, box.maxs))
  {
    hide SignBits, Corner, Dot;
    CornerBySign(p.normal, box.mins, box.maxs);
    CornerBySign(p.normal, box.maxs, box.mins);
    Between(p.normal.x, box.mins.x, box.maxs.x, x.x);
    Between(p.normal.y, box.mins.y, box.maxs.y, x.y);
    Between(p.normal.z, box.mins.z, box.maxs.z, x.z);
    DotOrder(p.normal, Corner(p.signBits, box.maxs, box.mins), x);
    DotOrder(p.normal, x, Corner(p.signBits, box.mins, box.maxs));
  }

  ghost predicate Reaches(box: Box, p: Plane, front: bool)
  {
    exists x :: box.Has(x) && (if front then Distance(p, x) >= 0.0 else Distance(p, x) < 0.0)
  }

  /** Against a plane along no axis the answer is exact: a side is named when the box has a point there. */
  lemma SideIsExact(box: Box, p: Plane)
    requires box.Ordered() && p.kind >= PLANE_ANYX && Signed(p)
    ensures BoxOnPlaneSide(box, p) == SIDE_FRONT <==> !Reaches(box, p, false)
    ensures BoxOnPlaneSide(box, p) == SIDE_BACK <==> !Reaches(box, p, true)
    ensures BoxOnPlaneSide(box, p) == SIDE_BOTH <==> Reaches(box, p, true) && Reaches(box, p, false)
  {
    hide Dot, SignBits, Distance, BoxOnPlaneSide, Corner;
    var far, near := Corner(p.signBits, box.mins, box.maxs), Corner(p.signBits, box.maxs, box.mins);
    SideOfCorners(box, p);
    CornersInBox(box, p.signBits);
    forall x | box.Has(x)
      ensures Distance(p, near) <= Distance(p, x) <= Distance(p, far)
    {
      CornersAreExtreme(box, p, x);
      FartherInFront(p, near, x);
      FartherInFront(p, x, far);
    }
    assert Distance(p, near) <= Distance(p, far) by { assert box.Has(far); }
    assert Reaches(box, p, true) <==> Distance(p, far) >= 0.0;
    assert Reaches(box, p, false) <==> Distance(p, near) < 0.0;
  }

  lemma CornersInBox(box: Box, bits: bv8)
    requires box.Ordered() && bits < 8
    ensures box.Has(Corner(bits, box.mins, box.maxs)) && box.Has(Corner(bits, box.maxs, box.mins))
  {
  }

  lemma FartherInFront(p: Plane, a: Vec3, b: Vec3)
    requires p.kind >= PLANE_ANYX && Dot(p.normal, a) <= Dot(p.normal, b)
    ensures Distance(p, a) <= Distance(p, b)
  {
  }

  lemma SideOfCorners(box: Box, p: Plane)
    requires p.kind >= PLANE_ANYX
    ensures BoxOnPlaneSide(box, p) ==
      (if Distance(p, Corner(p.signBits, box.mins, box.maxs)) >= 0.0 then SIDE_FRONT else 0)
      + if Distance(p, Corner(p.signBits, box.maxs, box.mins)) < 0.0 then SIDE_BACK else 0
  {
    hide Dot, Corner;
  }

  /** Against a plane along an axis it is exact up to the epsilon. */
  lemma AxialSide(box: Box, p: Plane)
    requires p.kind < PLANE_ANYX
    ensures BoxOnPlaneSide(box, p) == SIDE_FRONT <==> box.mins.At(p.kind) - p.dist >= -SIDE_EPSILON
    ensures BoxOnPlaneSide(box, p) == SIDE_BACK ==> box.maxs.At(p.kind) - p.dist <= SIDE_EPSILON
    ensures BoxOnPlaneSide(box, p) == SIDE_BOTH <==>
      box.mins.At(p.kind) - p.dist < -SIDE_EPSILON && box.maxs.At(p.kind) - p.dist > SIDE_EPSILON
  {
  }

  /** The side a box is said to lie on holds its inner points. */
  lemma InnerPointsFollow(box: Box, p: Plane, x: Vec3)
    requires Signed(p) && box.Inside(x, SIDE_EPSILON)
    ensures BoxOnPlaneSide(box, p) == SIDE_FRONT ==> Distance(p, x) >= 0.0
    ensures BoxOnPlaneSide(box, p) == SIDE_BACK ==> Distance(p, x) < 0.0
    ensures BoxOnPlaneSide(box, p) in {SIDE_FRONT, SIDE_BACK, SIDE_BOTH}
  {
    if p.kind >= PLANE_ANYX {
      CornersAreExtreme(box, p, x);
    }
  }

  // ----- leafs

  /** The leaf a point falls into, below a node. */
  function PointLeaf(t: Tree, p: Vec3, num: int): (leaf: int)
    requires t.Valid() && t.Ref(num)
    ensures 0 <= leaf < t.numLeafs
    decreases t.Rank(num)
  {
    if num < 0 then -1 - num
    else PointLeaf(t, p, if Distance(t.nodes[num].plane, p) < 0.0 then t.nodes[num].back else t.nodes[num].front)
  }

  /** The leafs below a node that a box may touch, front to back. */
  function BoxLeafs(t: Tree, box: Box, num: int): (leafs: seq<int>)
    requires t.Valid() && t.Ref(num)
    ensures forall i :: 0 <= i < |leafs| ==> 0 <= leafs[i] < t.numLeafs
    decreases t.Rank(num)
  {
    if num < 0 then [-1 - num]
    else
      var s := BoxOnPlaneSide(box, t.nodes[num].plane);
      if s == SIDE_FRONT then BoxLeafs(t, box, t.nodes[num].front)
      else if s == SIDE_BACK then BoxLeafs(t, box, t.nodes[num].back)
      else BoxLeafs(t, box, t.nodes[num].front) + BoxLeafs(t, box, t.nodes[num].back)
  }

  /** The first node that splits a box, or -1. */
  function TopNode(t: Tree, box: Box, num: int): (top: int)
    requires t.Valid() && t.Ref(num)
    ensures top == -1 || 0 <= top < |t.nodes|
    decreases t.Rank(num)
  {
    if num < 0 then -1
    else
      var s := BoxOnPlaneSide(box, t.nodes[num].plane);
      if s == SIDE_FRONT then TopNode(t, box, t.nodes[num].front)
      else if s == SIDE_BACK then TopNode(t, box, t.nodes[num].back)
      else num
  }

  /** The leafs below a node. */
  function LeafsUnder(t: Tree, num: int): (leafs: set<int>)
    requires t.Valid() && t.Ref(num)
    decreases t.Rank(num)
  {
    if num < 0 then {-1 - num} else LeafsUnder(t, t.nodes[num].front) + LeafsUnder(t, t.nodes[num].back)
  }

  /** The leaf of every point well inside a box is among the leafs of the box. */
  lemma {:induction false} BoxCoversItsPoints(t: Tree, box: Box, num: int, p: Vec3)
    requires t.Valid() && t.Ref(num) && box.Inside(p, SIDE_EPSILON)
    ensures PointLeaf(t, p, num) in BoxLeafs(t, box, num)
    decreases t.Rank(num)
  {
    if num >= 0 {
      var n := t.nodes[num];
      InnerPointsFollow(box, n.plane, p);
      BoxCoversItsPoints(t, box, if Distance(n.plane, p) < 0.0 then n.back else n.front, p);
    }
  }

  /** What counts as touching a side: having a point there; of a plane along an axis, having one more than the
      epsilon there, or for the front being nowhere more than the epsilon behind. */
  ghost predicate TouchesSide(box: Box, p: Plane, front: bool)
  {
    if p.kind >= PLANE_ANYX then Reaches(box, p, front)
    else if front then
      || (exists x :: box.Has(x) && Distance(p, x) > SIDE_EPSILON)
      || (forall x :: box.Has(x) ==> Distance(p, x) >= -SIDE_EPSILON)
    else exists x :: box.Has(x) && Distance(p, x) < -SIDE_EPSILON
  }

  lemma SideMeans(box: Box, p: Plane)
    requires box.Ordered() && Signed(p)
    ensures BoxOnPlaneSide(box, p) != SIDE_BACK <==> TouchesSide(box, p, true)
    ensures BoxOnPlaneSide(box, p) != SIDE_FRONT <==> TouchesSide(box, p, false)
  {
    if p.kind >= PLANE_ANYX {
      SideIsExact(box, p);
    } else {
      assert box.Has(box.mins) && box.Has(box.maxs);
      assert forall x :: box.Has(x) ==> box.mins.At(p.kind) - p.dist <= Distance(p, x) <= box.maxs.At(p.kind) - p.dist;
      assert Distance(p, box.mins) == box.mins.At(p.kind) - p.dist;
      assert Distance(p, box.maxs) == box.maxs.At(p.kind) - p.dist;
    }
  }

  /** The box touches the leaf's side of every plane on the way down to it. */
  ghost predicate Touches(t: Tree, box: Box, num: int, leaf: int)
    requires t.Valid() && t.Ref(num)
    decreases t.Rank(num)
  {
    if num < 0 then leaf == -1 - num
    else
      || (TouchesSide(box, t.nodes[num].plane, true) && Touches(t, box, t.nodes[num].front, leaf))
      || (TouchesSide(box, t.nodes[num].plane, false) && Touches(t, box, t.nodes[num].back, leaf))
  }

  /** The leafs of a box are exactly those that it touches. */
  lemma {:induction false} ListedIsTouched(t: Tree, box: Box, num: int, leaf: int)
    requires t.Valid() && t.Ref(num) && box.Ordered()
    ensures leaf in BoxLeafs(t, box, num) <==> Touches(t, box, num, leaf)
    decreases t.Rank(num)
  {
    hide TouchesSide, BoxOnPlaneSide, Signed;
    if num >= 0 {
      NodeIsSigned(t, num);
      SideMeans(box, t.nodes[num].plane);
      SideIsNamed(box, t.nodes[num].plane);
      ListedIsTouched(t, box, t.nodes[num].front, leaf);
      ListedIsTouched(t, box, t.nodes[num].back, leaf);
    }
  }

  lemma NodeIsSigned(t: Tree, num: int)
    requires t.Valid() && 0 <= num < |t.nodes|
    ensures Signed(t.nodes[num].plane)
  {
  }

  lemma SideIsNamed(box: Box, p: Plane)
    requires box.Ordered() && Signed(p)
    ensures BoxOnPlaneSide(box, p) in {SIDE_FRONT, SIDE_BACK, SIDE_BOTH}
  {
    if p.kind >= PLANE_ANYX {
      SideIsExact(box, p);
      assert box.Has(box.mins);
    }
  }

  /** A box that is never split touches one leaf; otherwise all it touches lie under the node that first
      split it. */
  lemma {:induction false} TouchedUnderTop(t: Tree, box: Box, num: int)
    requires t.Valid() && t.Ref(num)
    ensures TopNode(t, box, num) == -1 <==> |BoxLeafs(t, box, num)| == 1
    ensures |BoxLeafs(t, box, num)| > 0
    ensures TopNode(t, box, num) != -1 ==>
      forall leaf :: leaf in BoxLeafs(t, box, num) ==> leaf in LeafsUnder(t, TopNode(t, box, num))
    ensures forall leaf :: leaf in BoxLeafs(t, box, num) ==> leaf in LeafsUnder(t, num)
    ensures TopNode(t, box, num) != -1 ==>
      && 0 <= TopNode(t, box, num) < |t.nodes|
      && BoxOnPlaneSide(box, t.nodes[TopNode(t, box, num)].plane) !in {SIDE_FRONT, SIDE_BACK}
    decreases t.Rank(num)
  {
    hide BoxOnPlaneSide;
    if num >= 0 {
      TouchedUnderTop(t, box, t.nodes[num].front);
      TouchedUnderTop(t, box, t.nodes[num].back);
    }
  }

  method PointLeafnum(t: Tree, p: Vec3, from: int) returns (leaf: int)
    requires t.Valid() && t.Ref(from)
    ensures leaf == PointLeaf(t, p, from)
  {
    var num := from;
    while num >= 0
      invariant t.Ref(num) && PointLeaf(t, p, num) == PointLeaf(t, p, from)
      decreases t.Rank(num)
    {
      num := if Distance(t.nodes[num].plane, p) < 0.0 then t.nodes[num].back else t.nodes[num].front;
    }
    return -1 - num;
  }

  /** What one step of the descent leaves to be done. */
  lemma Descends(t: Tree, box: Box, num: int, done: seq<int>, size: nat)
    requires t.Valid() && t.Ref(num) && |done| <= size
    ensures num < 0 ==> BoxLeafs(t, box, num) == [-1 - num] && TopNode(t, box, num) == -1
    ensures num < 0 ==> Upto(done + [-1 - num], size) == if |done| < size then done + [-1 - num] else done
    ensures num >= 0 && BoxOnPlaneSide(box, t.nodes[num].plane) !in {SIDE_FRONT, SIDE_BACK} ==>
      && TopNode(t, box, num) == num
      && Upto(done + BoxLeafs(t, box, num), size) ==
           Upto(Upto(done + BoxLeafs(t, box, t.nodes[num].front), size) + BoxLeafs(t, box, t.nodes[num].back), size)
    ensures num >= 0 && BoxOnPlaneSide(box, t.nodes[num].plane) == SIDE_FRONT ==>
      BoxLeafs(t, box, num) == BoxLeafs(t, box, t.nodes[num].front)
        && TopNode(t, box, num) == TopNode(t, box, t.nodes[num].front)
    ensures num >= 0 && BoxOnPlaneSide(box, t.nodes[num].plane) == SIDE_BACK ==>
      BoxLeafs(t, box, num) == BoxLeafs(t, box, t.nodes[num].back)
        && TopNode(t, box, num) == TopNode(t, box, t.nodes[num].back)
  {
    hide BoxOnPlaneSide, Signed;
    if num >= 0 {
      var f, b := BoxLeafs(t, box, t.nodes[num].front), BoxLeafs(t, box, t.nodes[num].back);
      UptoOn(done + f, b, size);
      assert (done + f) + b == done + (f + b);
    }
  }

  /** A list of leafs being filled. */
  class LeafData {
    const list: array<int>
    var len: nat
    const box: Box
    var topNode: int

    ghost predicate Valid()
      reads this
    {
      len <= list.Length
    }

    ghost function Contents(): seq<int>
      reads this, list
      requires Valid()
    {
      list[..len]
    }

    constructor (box: Box, list: array<int>)
      ensures Valid() && this.box == box && this.list == list && Contents() == [] && topNode == -1
    {
      this.box, this.list, len, topNode := box, list, 0, -1;
    }

    method BoxLeafnums(t: Tree, from: int)
      requires Valid() && t.Valid() && t.Ref(from)
      modifies this, list
      ensures Valid() && Contents() == Upto(old(Contents()) + BoxLeafs(t, box, from), list.Length)
      ensures topNode == if old(topNode) == -1 then TopNode(t, box, from) else old(topNode)
      decreases t.Rank(from)
    {
      hide BoxOnPlaneSide, Signed, BoxLeafs, TopNode, Upto;
      var num := from;
      ghost var was, top := Contents(), topNode;
      while num >= 0
        invariant Valid() && t.Ref(num) && t.Rank(num) <= t.Rank(from)
        invariant Upto(Contents() + BoxLeafs(t, box, num), list.Length) ==
          Upto(was + BoxLeafs(t, box, from), list.Length)
        invariant (if topNode == -1 then TopNode(t, box, num) else topNode) ==
          if top == -1 then TopNode(t, box, from) else top
        decreases t.Rank(num)
      {
        Descends(t, box, num, Contents(), list.Length);
        var node := t.nodes[num];
        var s := BoxOnPlaneSide(box, node.plane);
        if s == SIDE_FRONT {
          num := node.front;
        } else if s == SIDE_BACK {
          num := node.back;
        } else {
          if topNode == -1 {
            topNode := num;
          }
          BoxLeafnums(t, node.front);
          num := node.back;
        }
      }
      Descends(t, box, num, Contents(), list.Length);
      if len < list.Length {
        list[len] := -1 - num;
        len := len + 1;
      }
    }
  }

  /** The leafs a box touches, from the root of the map, cut off where the list ends. */
  method BoxLeafnums(t: Tree, box: Box, list: array<int>, headNode: int) returns (len: nat, topNode: int)
    requires t.Valid() && t.Ref(headNode)
    modifies list
    ensures len <= list.Length && list[..len] == Upto(BoxLeafs(t, box, headNode), list.Length)
    ensures topNode == TopNode(t, box, headNode)
  {
    var data := new LeafData(box, list);
    data.BoxLeafnums(t, headNode);
    assert [] + BoxLeafs(t, box, headNode) == BoxLeafs(t, box, headNode);
    return data.len, data.topNode;
  }

  /** What a caller of the list may rely on: unless the list is full it names the leaf of every point well
      inside the box, and full or not all that is touched lies under the top node of a split box. */
  lemma ListCovers(t: Tree, box: Box, head: int, size: nat, p: Vec3)
    requires t.Valid() && t.Ref(head) && box.Inside(p, SIDE_EPSILON)
    ensures var list := Upto(BoxLeafs(t, box, head), size);
      && (|list| < size ==> PointLeaf(t, p, head) in list)
      && (|list| > 1 ==> TopNode(t, box, head) != -1)
      && (TopNode(t, box, head) != -1 ==> PointLeaf(t, p, head) in LeafsUnder(t, TopNode(t, box, head)))
  {
    BoxCoversItsPoints(t, box, head, p);
    TouchedUnderTop(t, box, head);
  }
}
