/** The server's index of entities by place (src/server/sv_world.c): a tree of area nodes, each holding a list
    of the triggers and a list of the solid entities that cross its plane or lie in its leaf. */
module AreaNodes {
  import opened Sequences
  import opened Vectors
  import opened Bsp
  import opened AreaLinks

  const AREA_DEPTH := 4
  const AREA_NODES := 32
  const HEADS := 64

  /** `front` is the child beyond the plane; -1 is no axis and no child. */
  datatype AreaNode = AreaNode(axis: int, dist: real, front: int, back: int)

  datatype Solid = NotSolid | Trigger | BoxSolid | BspSolid

  /** `turned` says that the angles are not all zero; `abs` is the absolute box as last linked. */
  datatype Edict = Edict(inUse: bool, solid: Solid, turned: bool, origin: Vec3, mins: Vec3, maxs: Vec3, abs: Box)

  datatype Kind = Triggers | Solids

  datatype Query = Query(box: Box, kind: Kind)

  // ----- the tree

  /** How many nodes a tree from this depth down has. */
  function Size(depth: nat): (n: nat)
    requires depth <= AREA_DEPTH
    ensures n > 0
    decreases AREA_DEPTH - depth
  {
    if depth == AREA_DEPTH then 1 else 1 + 2 * Size(depth + 1)
  }

  function SplitAxis(b: Box): nat { if b.maxs.x - b.mins.x > b.maxs.y - b.mins.y then 0 else 1 }

  function SplitDist(b: Box): real { 0.5 * (b.maxs.At(SplitAxis(b)) + b.mins.At(SplitAxis(b))) }

  function WithAxis(v: Vec3, axis: nat, c: real): Vec3 { if axis == 0 then v.(x := c) else v.(y := c) }

  function Beyond(b: Box): Box { b.(mins := WithAxis(b.mins, SplitAxis(b), SplitDist(b))) }

  function Before(b: Box): Box { b.(maxs := WithAxis(b.maxs, SplitAxis(b), SplitDist(b))) }

  /** A box is split across the longer of its sides, into two halves of one size that together make it up. */
  lemma SplitIsHalf(b: Box)
    requires b.Ordered()
    ensures var axis := SplitAxis(b);
      && b.maxs.At(axis) - b.mins.At(axis) >= b.maxs.x - b.mins.x
      && b.maxs.At(axis) - b.mins.At(axis) >= b.maxs.y - b.mins.y
      && Beyond(b).maxs.At(axis) - Beyond(b).mins.At(axis) == Before(b).maxs.At(axis) - Before(b).mins.At(axis)
      && Beyond(b).Ordered() && Before(b).Ordered()
      && forall p: Vec3 {:trigger b.Has(p)} :: b.Has(p) <==>
           (Beyond(b).Has(p) && p.At(axis) >= SplitDist(b)) || (Before(b).Has(p) && p.At(axis) <= SplitDist(b))
  {
  }

  /** The nodes from `n` on are a tree: leafs at the full depth, and above them nodes with two children. */
  ghost predicate TreeAt(nodes: seq<AreaNode>, n: nat, depth: nat)
    requires depth <= AREA_DEPTH
    decreases AREA_DEPTH - depth
  {
    && n + Size(depth) <= |nodes|
    && if depth == AREA_DEPTH then nodes[n].axis == -1
       else
         && 0 <= nodes[n].axis <= 1 && nodes[n].front == n + 1 && nodes[n].back == n + 1 + Size(depth + 1)
         && TreeAt(nodes, nodes[n].front, depth + 1) && TreeAt(nodes, nodes[n].back, depth + 1)
  }

  /** It halves `b` along its longer side, over and over. */
  ghost predicate Halves(nodes: seq<AreaNode>, n: nat, depth: nat, b: Box)
    requires depth <= AREA_DEPTH && TreeAt(nodes, n, depth)
    decreases AREA_DEPTH - depth
  {
    depth < AREA_DEPTH ==>
      && nodes[n].axis == SplitAxis(b) && nodes[n].dist == SplitDist(b)
      && Halves(nodes, nodes[n].front, depth + 1, Beyond(b)) && Halves(nodes, nodes[n].back, depth + 1, Before(b))
  }

  lemma TreeStep(nodes: seq<AreaNode>, n: nat, depth: nat)
    requires depth <= AREA_DEPTH && TreeAt(nodes, n, depth)
    ensures n < n + Size(depth) <= |nodes|
    ensures depth == AREA_DEPTH ==> nodes[n].axis == -1 && Size(depth) == 1
    ensures depth < AREA_DEPTH ==> 0 <= nodes[n].axis <= 1
    ensures depth < AREA_DEPTH ==> nodes[n].front == n + 1 && TreeAt(nodes, nodes[n].front, depth + 1)
    ensures depth < AREA_DEPTH ==>
      nodes[n].back == nodes[n].front + Size(depth + 1) && TreeAt(nodes, nodes[n].back, depth + 1)
    ensures depth < AREA_DEPTH ==> n + Size(depth) == nodes[n].back + Size(depth + 1)
  {
  }

  lemma {:induction false} TreeStays(nodes: seq<AreaNode>, nodes': seq<AreaNode>, n: nat, depth: nat)
    requires depth <= AREA_DEPTH && TreeAt(nodes, n, depth) && |nodes'| == |nodes|
    requires forall i {:trigger nodes'[i]} :: n <= i < n + Size(depth) ==> nodes'[i] == nodes[i]
    ensures TreeAt(nodes', n, depth)
    decreases AREA_DEPTH - depth
  {
    hide Size;
    TreeStep(nodes, n, depth);
    assert nodes'[n] == nodes[n];
    if depth < AREA_DEPTH {
      TreeStays(nodes, nodes', nodes[n].front, depth + 1);
      TreeStays(nodes, nodes', nodes[n].back, depth + 1);
    }
  }

  lemma {:induction false} HalvesStay(nodes: seq<AreaNode>, nodes': seq<AreaNode>, n: nat, depth: nat, b: Box)
    requires depth <= AREA_DEPTH && TreeAt(nodes, n, depth) && TreeAt(nodes', n, depth) && |nodes'| == |nodes|
    requires forall i {:trigger nodes'[i]} :: n <= i < n + Size(depth) ==> nodes'[i] == nodes[i]
    requires Halves(nodes, n, depth, b)
    ensures Halves(nodes', n, depth, b)
    decreases AREA_DEPTH - depth
  {
    hide SplitAxis, SplitDist, Beyond, Before, Size, TreeAt;
    TreeStep(nodes, n, depth);
    TreeStep(nodes', n, depth);
    assert nodes'[n] == nodes[n];
    if depth < AREA_DEPTH {
      HalvesStay(nodes, nodes', nodes[n].front, depth + 1, Beyond(b));
      HalvesStay(nodes, nodes', nodes[n].back, depth + 1, Before(b));
    }
  }

  /** The whole tree leaves one of the nodes over. */
  lemma WholeTree()
    ensures Size(0) == 31 < AREA_NODES
  {
    assert Size(3) == 3 && Size(2) == 7 && Size(1) == 15;
  }

  /** The node an entity is filed under: the first whose plane its box crosses, or a leaf. */
  function Find(nodes: seq<AreaNode>, n: nat, depth: nat, b: Box): (m: nat)
    requires depth <= AREA_DEPTH && TreeAt(nodes, n, depth)
    ensures n <= m < n + Size(depth)
    decreases AREA_DEPTH - depth
  {
    if nodes[n].axis == -1 then n
    else if b.mins.At(nodes[n].axis) > nodes[n].dist then Find(nodes, nodes[n].front, depth + 1, b)
    else if b.maxs.At(nodes[n].axis) < nodes[n].dist then Find(nodes, nodes[n].back, depth + 1, b)
    else n
  }

  // ----- queries

  function Head(n: nat, kind: Kind): nat { if kind == Triggers then 2 * n else 2 * n + 1 }

  predicate Meet(a: Box, b: Box)
  {
    && a.mins.x <= b.maxs.x && a.mins.y <= b.maxs.y && a.mins.z <= b.maxs.z
    && a.maxs.x >= b.mins.x && a.maxs.y >= b.mins.y && a.maxs.z >= b.mins.z
  }

  predicate Touched(e: Edict, q: Query) { e.solid != NotSolid && Meet(e.abs, q.box) }

  /** The links in a list are those of entities: entity `e` has link HEADS + e. */
  predicate ListUsable(list: seq<int>, ents: seq<Edict>)
  {
    forall i {:trigger list[i]} :: 0 <= i < |list| ==> HEADS <= list[i] < HEADS + |ents|
  }

  /** The entities of a list that the query touches, in order. */
  function Filter(list: seq<int>, ents: seq<Edict>, q: Query): (r: seq<int>)
    requires ListUsable(list, ents)
    ensures forall x :: x in r <==> HEADS + x in list && 0 <= x < |ents| && Touched(ents[x], q)
  {
    if list == [] then []
    else
      var x := list[|list| - 1] - HEADS;
      Filter(list[..|list| - 1], ents, q) + if Touched(ents[x], q) then [x] else []
  }

  lemma {:induction false} FilterDistinct(list: seq<int>, ents: seq<Edict>, q: Query)
    requires ListUsable(list, ents)
    requires Distinct(list)
    ensures Distinct(Filter(list, ents, q))
  {
    if list != [] {
      var n := |list| - 1;
      assert Distinct(list[..n]);
      FilterDistinct(list[..n], ents, q);
    }
  }

  /** The lists hold links of entities. */
  ghost predicate Usable(lists: seq<seq<int>>, ents: seq<Edict>)
  {
    && |lists| == HEADS
    && forall h {:trigger lists[h]} :: 0 <= h < HEADS ==> ListUsable(lists[h], ents)
  }

  /** What the tree from node `n` down has for a query. */
  ghost function Collect(nodes: seq<AreaNode>, lists: seq<seq<int>>, ents: seq<Edict>, q: Query, n: nat,
                         depth: nat): seq<int>
    requires depth <= AREA_DEPTH && TreeAt(nodes, n, depth) && |nodes| == AREA_NODES && Usable(lists, ents)
    decreases AREA_DEPTH - depth, 1
  {
    Filter(lists[Head(n, q.kind)], ents, q) + Branch(nodes, lists, ents, q, n, depth, true)
      + Branch(nodes, lists, ents, q, n, depth, false)
  }

  /** What the child in front of, or behind, the plane of node `n` has for it. */
  ghost function Branch(nodes: seq<AreaNode>, lists: seq<seq<int>>, ents: seq<Edict>, q: Query, n: nat, depth: nat,
                        front: bool): seq<int>
    requires depth <= AREA_DEPTH && TreeAt(nodes, n, depth) && |nodes| == AREA_NODES && Usable(lists, ents)
    decreases AREA_DEPTH - depth, 0
  {
    if nodes[n].axis == -1 then []
    else if front then
      if q.box.maxs.At(nodes[n].axis) > nodes[n].dist then Collect(nodes, lists, ents, q, nodes[n].front, depth + 1)
      else []
    else
      if q.box.mins.At(nodes[n].axis) < nodes[n].dist then Collect(nodes, lists, ents, q, nodes[n].back, depth + 1)
      else []
  }

  /** Every linked entity is filed under the node its box belongs to. */
  ghost predicate Filed(nodes: seq<AreaNode>, lists: seq<seq<int>>, home: seq<int>, ents: seq<Edict>)
    requires TreeAt(nodes, 0, 0)
  {
    && Usable(lists, ents) && |home| == HEADS + |ents|
    && (forall h {:trigger lists[h]} :: 0 <= h < HEADS ==> Distinct(lists[h]))
    && (forall h, x {:trigger x in lists[h]} :: 0 <= h < HEADS && x in lists[h] ==> home[x] == h)
    && forall e {:trigger ents[e]} :: 0 <= e < |ents| && home[HEADS + e] != NULL ==>
         && home[HEADS + e] / 2 == Find(nodes, 0, 0, ents[e].abs) && HEADS + e in lists[home[HEADS + e]]
  }

  /** By brute force: the entities filed as that kind, not meanwhile made unsolid, whose boxes meet the
      query's. */
  ghost predicate Wanted(home: seq<int>, ents: seq<Edict>, q: Query, e: int)
    requires |home| == HEADS + |ents|
  {
    && 0 <= e < |ents| && home[HEADS + e] != NULL && Touched(ents[e], q)
    && home[HEADS + e] % 2 == if q.kind == Triggers then 0 else 1
  }

  ghost predicate HomesIn(home: seq<int>, list: seq<int>, low: int, high: int)
  {
    forall x {:trigger x in list} :: x in list ==> 0 <= HEADS + x < |home| && low <= home[HEADS + x] < high
  }

  /** Wanted entities with homes in a range, none twice. */
  ghost predicate Gathered(home: seq<int>, ents: seq<Edict>, q: Query, list: seq<int>, low: int, high: int)
    requires |home| == HEADS + |ents|
  {
    HomesIn(home, list, low, high) && Distinct(list)
      && forall x {:trigger x in list} :: x in list ==> Wanted(home, ents, q, x)
  }

  lemma GatherJoin(home: seq<int>, ents: seq<Edict>, q: Query, a: seq<int>, b: seq<int>, low: int, mid: int, high: int)
    requires |home| == HEADS + |ents| && low <= mid <= high
    requires Gathered(home, ents, q, a, low, mid) && Gathered(home, ents, q, b, mid, high)
    ensures Gathered(home, ents, q, a + b, low, high)
  {
    hide Wanted;
    forall i, j | 0 <= i < j < |a + b|
      ensures (a + b)[i] != (a + b)[j]
    {
      if i < |a| <= j { assert a[i] in a && b[j - |a|] in b; }
    }
  }

  lemma GatherNone(home: seq<int>, ents: seq<Edict>, q: Query, low: int, high: int)
    requires |home| == HEADS + |ents|
    ensures Gathered(home, ents, q, [], low, high)
  {
  }

  lemma HereOnly(lists: seq<seq<int>>, home: seq<int>, ents: seq<Edict>, q: Query, n: nat)
    requires Usable(lists, ents) && |home| == HEADS + |ents| && n < AREA_NODES && Distinct(lists[Head(n, q.kind)])
    requires forall x {:trigger x in lists[Head(n, q.kind)]} :: x in lists[Head(n, q.kind)] ==>
      home[x] == Head(n, q.kind)
    ensures Gathered(home, ents, q, Filter(lists[Head(n, q.kind)], ents, q), 2 * n, 2 * (n + 1))
  {
    hide Distinct, Touched, Filter;
    HeadParity(n, q.kind);
    var h := Head(n, q.kind);
    hide Head;
    FilterDistinct(lists[h], ents, q);
    forall x | x in Filter(lists[h], ents, q)
      ensures Wanted(home, ents, q, x) && home[HEADS + x] == h
    {
      assert HEADS + x in lists[h];
    }
  }

  lemma HeadParity(n: nat, kind: Kind)
    ensures 2 * n <= Head(n, kind) < 2 * (n + 1) && Head(n, kind) % 2 == if kind == Triggers then 0 else 1
  {
  }

  lemma FiledAt(nodes: seq<AreaNode>, lists: seq<seq<int>>, home: seq<int>, ents: seq<Edict>, h: nat)
    requires TreeAt(nodes, 0, 0) && Filed(nodes, lists, home, ents) && h < HEADS
    ensures Usable(lists, ents) && |home| == HEADS + |ents| && Distinct(lists[h]) && ListUsable(lists[h], ents)
    ensures forall x {:trigger x in lists[h]} :: x in lists[h] ==> home[x] == h
  {
  }

  /** What is collected below a node is filed there. */
  lemma {:induction false} CollectedHere(nodes: seq<AreaNode>, lists: seq<seq<int>>, home: seq<int>, ents: seq<Edict>,
                                         q: Query, n: nat, depth: nat)
    requires TreeAt(nodes, 0, 0) && |nodes| == AREA_NODES && Usable(lists, ents) && Filed(nodes, lists, home, ents)
    requires depth <= AREA_DEPTH && TreeAt(nodes, n, depth) && |home| == HEADS + |ents|
    ensures Gathered(home, ents, q, Collect(nodes, lists, ents, q, n, depth), 2 * n, 2 * (n + Size(depth)))
    decreases AREA_DEPTH - depth
  {
    hide Size, Filter, Gathered, Filed, Usable, TreeAt, Branch;
    TreeStep(nodes, n, depth);
    FiledAt(nodes, lists, home, ents, Head(n, q.kind));
    HereOnly(lists, home, ents, q, n);
    var here := Filter(lists[Head(n, q.kind)], ents, q);
    var front, back := Branch(nodes, lists, ents, q, n, depth, true), Branch(nodes, lists, ents, q, n, depth, false);
    var mid := if nodes[n].axis == -1 then 2 * (n + 1) else 2 * nodes[n].back;
    GatherNone(home, ents, q, 2 * (n + 1), mid);
    GatherNone(home, ents, q, mid, 2 * (n + Size(depth)));
    if nodes[n].axis != -1 {
      BranchIs(nodes, lists, ents, q, n, depth, nodes[n].front, true);
      BranchIs(nodes, lists, ents, q, n, depth, nodes[n].back, false);
      CollectedHere(nodes, lists, home, ents, q, nodes[n].front, depth + 1);
      CollectedHere(nodes, lists, home, ents, q, nodes[n].back, depth + 1);
    } else {
      BranchLeaf(nodes, lists, ents, q, n);
    }
    GatherJoin(home, ents, q, here, front, 2 * n, 2 * (n + 1), mid);
    GatherJoin(home, ents, q, here + front, back, 2 * n, mid, 2 * (n + Size(depth)));
  }

  lemma BranchLeaf(nodes: seq<AreaNode>, lists: seq<seq<int>>, ents: seq<Edict>, q: Query, n: nat)
    requires TreeAt(nodes, n, AREA_DEPTH) && |nodes| == AREA_NODES && Usable(lists, ents)
    ensures Branch(nodes, lists, ents, q, n, AREA_DEPTH, true) ==
      Branch(nodes, lists, ents, q, n, AREA_DEPTH, false) == []
  {
  }

  lemma BranchIs(nodes: seq<AreaNode>, lists: seq<seq<int>>, ents: seq<Edict>, q: Query, n: nat, depth: nat, kid: nat,
                 front: bool)
    requires depth < AREA_DEPTH && |nodes| == AREA_NODES && Usable(lists, ents) && TreeAt(nodes, kid, depth + 1)
    requires TreeAt(nodes, n, depth) && kid == if front then nodes[n].front else nodes[n].back
    ensures Branch(nodes, lists, ents, q, n, depth, front) in {[], Collect(nodes, lists, ents, q, kid, depth + 1)}
  {
    hide Collect, Size;
  }

  lemma FilterHas(list: seq<int>, ents: seq<Edict>, q: Query, e: nat)
    requires ListUsable(list, ents) && e < |ents| && Touched(ents[e], q) && HEADS + e in list
    ensures e in Filter(list, ents, q) && Meet(ents[e].abs, q.box)
  {
  }

  lemma MeetsSide(a: Box, b: Box)
    requires Meet(a, b)
    ensures forall axis {:trigger a.mins.At(axis)} {:trigger a.maxs.At(axis)} :: 0 <= axis < 3 ==>
      a.mins.At(axis) <= b.maxs.At(axis) && a.maxs.At(axis) >= b.mins.At(axis)
  {
  }

  /** What is filed below a node, and touched, is collected there. */
  lemma {:induction false} FiledIsCollected(nodes: seq<AreaNode>, lists: seq<seq<int>>, ents: seq<Edict>, q: Query,
                                           n: nat, depth: nat, e: nat)
    requires |nodes| == AREA_NODES && Usable(lists, ents) && depth <= AREA_DEPTH && TreeAt(nodes, n, depth)
    requires e < |ents| && Touched(ents[e], q) && HEADS + e in lists[Head(Find(nodes, n, depth, ents[e].abs), q.kind)]
    ensures e in Collect(nodes, lists, ents, q, n, depth)
    decreases AREA_DEPTH - depth
  {
    hide Size, TreeAt, Filter, Touched;
    TreeStep(nodes, n, depth);
    var b := ents[e].abs;
    FilterHas(lists[Head(Find(nodes, n, depth, b), q.kind)], ents, q, e);
    MeetsSide(b, q.box);
    if nodes[n].axis != -1 {
      if b.mins.At(nodes[n].axis) > nodes[n].dist {
        FiledIsCollected(nodes, lists, ents, q, nodes[n].front, depth + 1, e);
      } else if b.maxs.At(nodes[n].axis) < nodes[n].dist {
        FiledIsCollected(nodes, lists, ents, q, nodes[n].back, depth + 1, e);
      }
    }
  }

  /** The tree agrees with brute force: it finds every wanted entity, no other, and none twice. */
  lemma TreeIsBruteForce(nodes: seq<AreaNode>, lists: seq<seq<int>>, home: seq<int>, ents: seq<Edict>, q: Query)
    requires TreeAt(nodes, 0, 0) && |nodes| == AREA_NODES && Filed(nodes, lists, home, ents)
    ensures forall e :: e in Collect(nodes, lists, ents, q, 0, 0) <==> Wanted(home, ents, q, e)
    ensures Distinct(Collect(nodes, lists, ents, q, 0, 0))
  {
    hide Distinct, Collect, Touched, TreeAt;
    CollectedHere(nodes, lists, home, ents, q, 0, 0);
    forall e | Wanted(home, ents, q, e)
      ensures e in Collect(nodes, lists, ents, q, 0, 0)
    {
      FiledIsCollected(nodes, lists, ents, q, 0, 0, e);
    }
  }

  /** The same, when the links are in order. */
  ghost predicate Placed(nodes: seq<AreaNode>, home: seq<int>, ents: seq<Edict>)
    requires TreeAt(nodes, 0, 0)
  {
    && |home| == HEADS + |ents|
    && forall e {:trigger ents[e]} {:trigger home[HEADS + e]} :: 0 <= e < |ents| && home[HEADS + e] != NULL ==>
         home[HEADS + e] / 2 == Find(nodes, 0, 0, ents[e].abs)
  }

  lemma PlacedIsFiled(nodes: seq<AreaNode>, prev: seq<int>, next: seq<int>, lists: seq<seq<int>>, home: seq<int>,
                      ents: seq<Edict>)
    requires TreeAt(nodes, 0, 0) && Placed(nodes, home, ents) && ListsOk(prev, next, HEADS, lists, home)
    ensures Usable(lists, ents) && Filed(nodes, lists, home, ents)
  {
    hide TreeAt, Find, IsRing;
    forall h | 0 <= h < HEADS
      ensures ListUsable(lists[h], ents) && Distinct(lists[h])
    {
      assert forall i :: 0 <= i < |lists[h]| ==> lists[h][i] in lists[h];
    }
  }

  // ----- where an entity is

  /** The largest coordinate of a box, sign aside, among the first `n` axes. */
  function Radius(mins: Vec3, maxs: Vec3, n: nat): (r: real)
    requires n <= 3
    ensures r >= 0.0
    ensures forall i {:trigger mins.At(i)} :: 0 <= i < n ==> Abs(mins.At(i)) <= r && Abs(maxs.At(i)) <= r
  {
    if n == 0 then 0.0
    else
      var r := Radius(mins, maxs, n - 1);
      var r := if Abs(mins.At(n - 1)) > r then Abs(mins.At(n - 1)) else r;
      if Abs(maxs.At(n - 1)) > r then Abs(maxs.At(n - 1)) else r
  }

  method RadiusOf(mins: Vec3, maxs: Vec3) returns (max: real)
    ensures max == Radius(mins, maxs, 3)
  {
    max := 0.0;
    var i := 0;
    while i < 3
      invariant 0 <= i <= 3 && max == Radius(mins, maxs, i)
    {
      var v := Abs(mins.At(i));
      if v > max {
        max := v;
      }
      v := Abs(maxs.At(i));
      if v > max {
        max := v;
      }
      i := i + 1;
    }
  }

  /** The absolute box, a unit wider on every side; a turned model is given room to turn. */
  function AbsBox(e: Edict): Box
  {
    var r := Radius(e.mins, e.maxs, 3);
    var b := if e.solid == BspSolid && e.turned then Box(e.origin.Minus(Vec3(r, r, r)), e.origin.Plus(Vec3(r, r, r)))
             else Box(e.origin.Plus(e.mins), e.origin.Plus(e.maxs));
    Box(b.mins.Minus(Vec3(1.0, 1.0, 1.0)), b.maxs.Plus(Vec3(1.0, 1.0, 1.0)))
  }

  lemma {:induction false} RadiusIsReached(mins: Vec3, maxs: Vec3, n: nat)
    requires n <= 3
    ensures Radius(mins, maxs, n) == 0.0
      || exists j {:trigger mins.At(j)} :: 0 <= j < n && Radius(mins, maxs, n) in {Abs(mins.At(j)), Abs(maxs.At(j))}
  {
    if n > 0 {
      RadiusIsReached(mins, maxs, n - 1);
      assert Abs(mins.At(n - 1)) >= 0.0;
    }
  }

  /** The value is no larger in size than some coordinate of the box, give or take `slack`. */
  ghost predicate NoLarger(e: Edict, x: real, slack: real)
  {
    exists j {:trigger e.mins.At(j)} ::
      0 <= j < 3 && (Abs(x) <= Abs(e.mins.At(j)) + slack || Abs(x) <= Abs(e.maxs.At(j)) + slack)
  }

  /** The point is no farther than `slack` along any axis from the entity's box at its place; or, for a model
      that is turned, no farther off its origin than some coordinate of its box. */
  ghost predicate AtPlace(e: Edict, p: Vec3, slack: real)
  {
    if e.solid == BspSolid && e.turned then
      forall i {:trigger p.At(i)} :: 0 <= i < 3 ==> NoLarger(e, p.At(i) - e.origin.At(i), slack)
    else
      forall i {:trigger p.At(i)} :: 0 <= i < 3 ==>
        e.origin.At(i) + e.mins.At(i) - slack <= p.At(i) <= e.origin.At(i) + e.maxs.At(i) + slack
  }

  lemma TurnedRoom(e: Edict, x: real)
    ensures NoLarger(e, x, 1.0) <==> Abs(x) <= Radius(e.mins, e.maxs, 3) + 1.0
  {
    var r := Radius(e.mins, e.maxs, 3);
    RadiusIsReached(e.mins, e.maxs, 3);
    hide Radius;
    assert Abs(e.mins.At(0)) <= r && Abs(e.maxs.At(0)) <= r;
    if Abs(x) <= r + 1.0 && r == 0.0 { assert Abs(x) <= Abs(e.mins.At(0)) + 1.0; }
  }

  /** The absolute box is that of the entity at its place, a unit wider on every side. */
  lemma AbsBoxIsPlace(e: Edict, p: Vec3)
    ensures AbsBox(e).Has(p) <==> AtPlace(e, p, 1.0)
  {
    hide NoLarger;
    TurnedRoom(e, p.x - e.origin.x);
    TurnedRoom(e, p.y - e.origin.y);
    TurnedRoom(e, p.z - e.origin.z);
    hide Radius;
    assert p.At(0) == p.x && p.At(1) == p.y && p.At(2) == p.z;
  }

  /** Closed boxes meet when they have a point in common. */
  lemma MeetMeans(a: Box, b: Box)
    requires a.Ordered() && b.Ordered()
    ensures Meet(a, b) <==> exists p :: a.Has(p) && b.Has(p)
  {
    if Meet(a, b) {
      var p := Vec3(if a.mins.x < b.mins.x then b.mins.x else a.mins.x,
                    if a.mins.y < b.mins.y then b.mins.y else a.mins.y,
                    if a.mins.z < b.mins.z then b.mins.z else a.mins.z);
      assert a.Has(p) && b.Has(p);
    }
  }

  /** The list an entity is to be in, if any. */
  function Place(nodes: seq<AreaNode>, e: Edict): int
    requires TreeAt(nodes, 0, 0)
  {
    if !e.inUse || e.solid == NotSolid then NULL
    else Head(Find(nodes, 0, 0, AbsBox(e)), if e.solid == Trigger then Triggers else Solids)
  }

  /** What linking entity `e` comes to. */
  ghost predicate Relinked(nodes: seq<AreaNode>, home: seq<int>, ents: seq<Edict>, lists': seq<seq<int>>,
                           home': seq<int>, ents': seq<Edict>, e: nat)
    requires TreeAt(nodes, 0, 0)
  {
    && |home| == HEADS + |ents| && e < |ents|
    && if e == 0 then home' == home && ents' == ents
       else
         var place := Place(nodes, ents[e]);
         && home' == home[HEADS + e := place]
         && ents' == ents[e := if ents[e].inUse then ents[e].(abs := AbsBox(ents[e])) else ents[e]]
         && (place != NULL ==>
              place < |lists'| && lists'[place] != [] && lists'[place][|lists'[place]| - 1] == HEADS + e)
  }

  // ----- in place

  class AreaWorld {
    const links: Links
    const nodes: array<AreaNode>
    var numNodes: nat
    const ents: array<Edict>
    const bounds: Box
    var numFound: nat

    ghost predicate Shaped()
      reads this, links
    {
      && links.heads == HEADS && links.prev.Length == HEADS + ents.Length && nodes.Length == AREA_NODES
      && (nodes as object) != links.prev && (nodes as object) != links.next && (nodes as object) != ents
      && (ents as object) != links.prev && (ents as object) != links.next
      && (links.prev as object) != this && (links.next as object) != this && (nodes as object) != this
      && (ents as object) != this
    }

    ghost predicate Valid()
      reads this, links, links.prev, links.next, nodes, ents
    {
      && Shaped() && links.Valid() && TreeAt(nodes[..], 0, 0) && Halves(nodes[..], 0, 0, bounds)
      && Placed(nodes[..], links.home, ents[..])
      && ClearedTo(AREA_NODES - 1)
    }

    /** Just the heads of the nodes made so far have been cleared. */
    ghost predicate ClearedTo(n: int)
      reads this, links, links.prev
    {
      links.heads == HEADS <= links.prev.Length
        && forall h {:trigger links.prev[h]} :: 0 <= h < HEADS ==> (links.prev[h] != NULL <==> h < 2 * n)
    }

    method CreateAreaNode(depth: nat, b: Box) returns (n: nat)
      requires Shaped() && links.Valid() && depth <= AREA_DEPTH && numNodes + Size(depth) <= AREA_NODES
      requires ClearedTo(numNodes)
      modifies this`numNodes, nodes, links.prev, links.next
      ensures links.Valid() && n == old(numNodes) && numNodes == n + Size(depth) && ClearedTo(numNodes)
      ensures TreeAt(nodes[..], n, depth) && Halves(nodes[..], n, depth, b)
      ensures forall i {:trigger nodes[i]} :: 0 <= i < n || n + Size(depth) <= i < AREA_NODES ==>
        nodes[i] == old(nodes[i])
      decreases AREA_DEPTH - depth
    {
      hide Size, TreeAt, Halves, SplitAxis, SplitDist, Beyond, Before, ListsOk;
      n := numNodes;
      numNodes := numNodes + 1;
      links.ClearLink(2 * n);
      links.ClearLink(2 * n + 1);
      if depth == AREA_DEPTH {
        nodes[n] := AreaNode(-1, 0.0, -1, -1);
        OneLeaf(nodes[..], n, b);
        return;
      }
      SizeStep(depth);
      var axis, dist := SplitAxis(b), SplitDist(b);
      var front := CreateAreaNode(depth + 1, Beyond(b));
      ghost var was := nodes[..];
      var back := CreateAreaNode(depth + 1, Before(b));
      ghost var was' := nodes[..];
      nodes[n] := AreaNode(axis, dist, front, back);
      SubtreeStays(was, nodes[..], front, depth + 1, Beyond(b));
      SubtreeStays(was', nodes[..], back, depth + 1, Before(b));
      TwoHalves(nodes[..], n, depth, b);
    }

    constructor InitWorld(bounds: Box, edicts: nat)
      ensures Valid() && this.bounds == bounds && ents.Length == edicts && numNodes == 31
      ensures links.home == seq(HEADS + edicts, _ => NULL)
      ensures fresh(links) && fresh(links.prev) && fresh(links.next) && fresh(nodes) && fresh(ents)
    {
      links := new Links(HEADS, HEADS + edicts);
      nodes := new AreaNode[AREA_NODES](_ => AreaNode(0, 0.0, -1, -1));
      numNodes, numFound := 0, 0;
      var none := Edict(false, NotSolid, false, ORIGIN, ORIGIN, ORIGIN, Box(ORIGIN, ORIGIN));
      ents := new Edict[edicts](_ => none);
      this.bounds := bounds;
      new;
      WholeTree();
      hide Size, TreeAt, Halves, ListsOk, Placed, Find;
      var root := CreateAreaNode(0, bounds);
      NonePlaced(nodes[..], links.home, ents[..]);
    }

    method UnlinkEdict(e: nat)
      requires Valid() && e < ents.Length
      modifies links`lists, links`home, links.prev, links.next
      ensures Valid() && links.home == old(links.home)[HEADS + e := NULL]
    {
      hide TreeAt, Halves, ListsOk, Find, Size;
      PlacedWithout(nodes[..], links.home, ents[..], e, ents[e]);
      assert ents[..][e := ents[e]] == ents[..];
      links.Unlink(HEADS + e);
    }

    method NodeFor(b: Box) returns (m: int)
      requires Valid()
      ensures m == Find(nodes[..], 0, 0, b) && 0 <= m < AREA_NODES - 1
    {
      WholeTree();
      hide Halves, ListsOk, Size, TreeAt;
      TreeStep(nodes[..], 0, 0);
      m := 0;
      ghost var depth := 0;
      while nodes[m].axis != -1
        invariant 0 <= m < AREA_NODES && 0 <= depth <= AREA_DEPTH && TreeAt(nodes[..], m, depth)
        invariant Find(nodes[..], m, depth, b) == Find(nodes[..], 0, 0, b)
        decreases AREA_DEPTH - depth
      {
        TreeStep(nodes[..], m, depth);
        assert nodes[..][m] == nodes[m];
        if b.mins.At(nodes[m].axis) > nodes[m].dist {
          m := nodes[m].front;
        } else if b.maxs.At(nodes[m].axis) < nodes[m].dist {
          m := nodes[m].back;
        } else {
          return;
        }
        depth := depth + 1;
        TreeStep(nodes[..], m, depth);
      }
      assert nodes[..][m] == nodes[m];
    }

    method FileEdict(e: nat)
      requires Valid() && e < ents.Length && links.home[HEADS + e] == NULL && ents[e].solid != NotSolid
      modifies links`lists, links`home, links.prev, links.next
      ensures Valid() && |links.lists| == HEADS
      ensures var h := Head(Find(nodes[..], 0, 0, ents[e].abs), if ents[e].solid == Trigger then Triggers else Solids);
        links.home == old(links.home)[HEADS + e := h] && h < HEADS && links.lists[h] != []
          && links.lists[h][|links.lists[h]| - 1] == HEADS + e
    {
      hide TreeAt, Halves, ListsOk, Find, Size;
      var m := NodeFor(ents[e].abs);
      var kind := if ents[e].solid == Trigger then Triggers else Solids;
      PlacedWith(nodes[..], links.home, ents[..], e, m, kind);
      WholeTree();
      ListsMany();
      links.InsertLink(HEADS + e, Head(m, kind));
    }

    /** Files an entity anew: its box is brought up to date, and it goes to the end of the list it now belongs
        in.  The world, entity zero, is never filed. */
    method LinkEdict(e: nat)
      requires Valid() && e < ents.Length
      modifies ents, links`lists, links`home, links.prev, links.next
      ensures Valid() && Relinked(nodes[..], old(links.home), old(ents[..]), links.lists, links.home, ents[..], e)
    {
      hide TreeAt, Halves, ListsOk, Find, Size, Radius, Placed;
      ListsMany();
      if e == 0 {
        return;
      }
      UnlinkEdict(e);
      assert ents[..] == old(ents[..]) && nodes[..] == old(nodes[..]);
      assert old(ents[..])[e := old(ents[e])] == old(ents[..]);
      if !ents[e].inUse {
        return;
      }
      var r := RadiusOf(ents[e].mins, ents[e].maxs);
      var b :=
        if ents[e].solid == BspSolid && ents[e].turned then
          Box(ents[e].origin.Minus(Vec3(r, r, r)), ents[e].origin.Plus(Vec3(r, r, r)))
               else Box(ents[e].origin.Plus(ents[e].mins), ents[e].origin.Plus(ents[e].maxs));
      b := Box(b.mins.Minus(Vec3(1.0, 1.0, 1.0)), b.maxs.Plus(Vec3(1.0, 1.0, 1.0)));
      assert b == AbsBox(ents[e]);
      hide AbsBox;
      ListsMany();
      assert links.home[HEADS + e := NULL] == links.home;
      PlacedWithout(nodes[..], links.home, ents[..], e, ents[e].(abs := b));
      ents[e] := ents[e].(abs := b);
      if ents[e].solid == NotSolid {
        return;
      }
      FileEdict(e);
    }

    /** Adds to `found` the entities of one list that a query touches, until there is no room for one more. */
    method ScanList(q: Query, found: array<int>, h: nat, ghost list: seq<int>, ghost es: seq<Edict>)
      returns (full: bool)
      requires Shaped() && Apart(found) && h < HEADS && links.prev.Length == links.next.Length && es == ents[..]
      requires IsRing(links.prev[..], links.next[..], h, list) && ListUsable(list, es) && numFound <= found.Length
      modifies this`numFound, found
      ensures numFound <= found.Length && (full ==> numFound == found.Length)
      ensures found[..numFound] == Upto(old(found[..numFound]) + Filter(list, es, q), found.Length)
    {
      hide Filter, Touched, IsRing, Nth, Upto;
      ghost var was, next := found[..numFound], links.next[..];
      ghost var k := 0;
      ScanStart(was, list, es, q, found.Length);
      RingWalk(links.prev[..], next, h, list, 0);
      var l := links.next[h];
      while l != h
        invariant 0 <= k <= |list| && l == Nth(h, list, k + 1) && numFound <= found.Length && links.next[..] == next
        invariant ents[..] == es
        invariant found[..numFound] == Scanned(was, list, es, q, k, found.Length)
        decreases |list| - k
      {
        RingWalk(links.prev[..], next, h, list, k);
        FilterRoom(was, list, es, q, k, found.Length);
        var following := links.next[l];
        var check := ents[l - HEADS];
        if Touched(check, q) {
          if numFound == found.Length {
            return true;
          }
          found[numFound] := l - HEADS;
          numFound := numFound + 1;
        }
        l, k := following, k + 1;
      }
      RingWalk(links.prev[..], next, h, list, k);
      assert list[..k] == list;
      return false;
    }

    /** Adds to `found` what the tree from node `n` on has for a query.  A node that finds no room for one more
        gives up; the others then have no room either. */
    method AreaEdictsFrom(q: Query, found: array<int>, n: int, ghost depth: nat, ghost ns: seq<AreaNode>,
                          ghost es: seq<Edict>)
      requires Ready(found, ns, es) && 0 <= n && depth <= AREA_DEPTH && TreeAt(ns, n, depth)
      requires n + Size(depth) <= AREA_NODES - 1
      requires numFound <= found.Length
      modifies this`numFound, found
      ensures numFound <= found.Length && Ready(found, ns, es)
      ensures found[..numFound] ==
        Upto(old(found[..numFound]) + Collect(ns, links.lists, es, q, n, depth), found.Length)
      decreases AREA_DEPTH - depth
    {
      hide TreeAt, Size, Filter, Usable, IsRing, ListsOk, Upto;
      TreeStep(ns, n, depth);
      assert ns[n] == nodes[n];
      ghost var h: nat := Head(n, q.kind);
      ReadyList(h, found, ns, es);
      UptoThree(found[..numFound], Filter(links.lists[h], es, q), Branch(ns, links.lists, es, q, n, depth, true),
                Branch(ns, links.lists, es, q, n, depth, false), found.Length);
      var full := ScanList(q, found, if q.kind == Triggers then 2 * n else 2 * n + 1, links.lists[h], es);
      if full || nodes[n].axis == -1 {
        return;
      }
      if q.box.maxs.At(nodes[n].axis) > nodes[n].dist {
        AreaEdictsFrom(q, found, nodes[n].front, depth + 1, ns, es);
      }
      if q.box.mins.At(nodes[n].axis) < nodes[n].dist {
        AreaEdictsFrom(q, found, nodes[n].back, depth + 1, ns, es);
      }
    }

    ghost predicate Ready(found: array<int>, ns: seq<AreaNode>, es: seq<Edict>)
      reads this, links, links.prev, links.next, nodes, ents
    {
      && Shaped() && Apart(found) && links.Valid() && ClearedTo(AREA_NODES - 1) && nodes[..] == ns && ents[..] == es
      && |links.lists| == HEADS && Usable(links.lists, es)
    }

    ghost method ReadyList(h: nat, found: array<int>, ns: seq<AreaNode>, es: seq<Edict>)
      requires Ready(found, ns, es) && h < 2 * (AREA_NODES - 1)
      ensures IsRing(links.prev[..], links.next[..], h, links.lists[h]) && ListUsable(links.lists[h], es)
    {
    }

    /** The entities that a query touches, in an array of the caller's.  If the array is not filled they are
        exactly those that brute force would find, each once, and so they are if they fit; if not it is full of
        them. */
    method AreaEdicts(q: Query, found: array<int>) returns (num: nat)
      requires Valid() && Apart(found)
      modifies this`numFound, found
      ensures num <= found.Length && Valid() && Found(found[..num], links.home, ents[..], q, found.Length)
    {
      hide TreeAt, Halves, ListsOk, Find, Size, Collect, Usable, Wanted, Placed, Filed, Found, Upto;
      WholeTree();
      numFound := 0;
      ghost var ns, es := nodes[..], ents[..];
      PlacedIsFiled(ns, links.prev[..], links.next[..], links.lists, links.home, es);
      ListsMany();
      AreaEdictsFrom(q, found, 0, 0, ns, es);
      TreeIsBruteForce(ns, links.lists, links.home, es, q);
      FoundUpto(Collect(ns, links.lists, es, q, 0, 0), links.home, es, q, found.Length);
      assert [] + Collect(ns, links.lists, es, q, 0, 0) == Collect(ns, links.lists, es, q, 0, 0);
      return numFound;
    }

    ghost predicate Apart(found: array<int>)
      reads this, links
    {
      && found != links.prev && found != links.next && (found as object) != nodes && (found as object) != ents
    }

    /** The game changes an entity between links, but never its absolute box. */
    method ChangeEdict(e: nat, changed: Edict)
      requires Valid() && e < ents.Length && changed.abs == ents[e].abs
      modifies ents
      ensures Valid() && ents[..] == old(ents[..])[e := changed]
    {
      hide TreeAt, Halves, ListsOk, Find, Size;
      ents[e] := changed;
    }

    ghost method ListsMany()
      requires Valid()
      ensures |links.lists| == HEADS && |links.home| == HEADS + ents.Length
    {
    }
  }

  lemma NonePlaced(nodes: seq<AreaNode>, home: seq<int>, ents: seq<Edict>)
    requires TreeAt(nodes, 0, 0) && |home| == HEADS + |ents|
    requires forall l {:trigger home[l]} :: 0 <= l < |home| ==> home[l] == NULL
    ensures Placed(nodes, home, ents)
  {
  }

  lemma PlacedWithout(nodes: seq<AreaNode>, home: seq<int>, ents: seq<Edict>, e: nat, changed: Edict)
    requires TreeAt(nodes, 0, 0) && Placed(nodes, home, ents) && e < |ents|
    ensures Placed(nodes, home[HEADS + e := NULL], ents[e := changed])
  {
    hide TreeAt, Find;
  }

  lemma PlacedWith(nodes: seq<AreaNode>, home: seq<int>, ents: seq<Edict>, e: nat, m: nat, kind: Kind)
    requires TreeAt(nodes, 0, 0) && Placed(nodes, home, ents) && e < |ents| && m == Find(nodes, 0, 0, ents[e].abs)
    ensures Placed(nodes, home[HEADS + e := Head(m, kind)], ents)
  {
    hide TreeAt, Find;
  }

  lemma FilterStep(list: seq<int>, ents: seq<Edict>, q: Query, k: nat)
    requires ListUsable(list, ents) && k <= |list|
    ensures Filter([], ents, q) == []
    ensures k < |list| ==> 0 <= list[k] - HEADS < |ents|
    ensures k < |list| ==>
      Filter(list[..k + 1], ents, q) ==
        Filter(list[..k], ents, q) + if Touched(ents[list[k] - HEADS], q) then [list[k] - HEADS] else []
  {
    if k < |list| {
      assert list[..k + 1][..k] == list[..k];
    }
  }

  /** Following a list from link to link. */
  lemma RingWalk(prev: seq<int>, next: seq<int>, h: nat, list: seq<int>, k: nat)
    requires IsRing(prev, next, h, list) && h < HEADS && k <= |list|
    requires forall i {:trigger list[i]} :: 0 <= i < |list| ==> HEADS <= list[i]
    ensures k == 0 ==> next[h] == Nth(h, list, 1)
    ensures k < |list| ==>
      Nth(h, list, k + 1) == list[k] && 0 <= list[k] < |next| && next[list[k]] == Nth(h, list, k + 2)
    ensures Nth(h, list, k + 1) == h <==> k == |list|
  {
    if k == 0 { assert next[Nth(h, list, 0)] == Nth(h, list, 1); }
    if k < |list| { assert next[Nth(h, list, k + 1)] == Nth(h, list, k + 2); }
  }

  function Scanned(was: seq<int>, list: seq<int>, ents: seq<Edict>, q: Query, k: nat, room: nat): seq<int>
    requires ListUsable(list, ents) && k <= |list|
  {
    Upto(was + Filter(list[..k], ents, q), room)
  }

  lemma ScanStart(was: seq<int>, list: seq<int>, ents: seq<Edict>, q: Query, room: nat)
    requires ListUsable(list, ents) && |was| <= room
    ensures Scanned(was, list, ents, q, 0, room) == was
  {
    assert Filter(list[..0], ents, q) == [];
  }

  /** Nothing is added to a full array, now or later. */
  lemma FilterRoom(was: seq<int>, list: seq<int>, ents: seq<Edict>, q: Query, k: nat, room: nat)
    requires ListUsable(list, ents) && k < |list|
    ensures 0 <= list[k] - HEADS < |ents| && |Scanned(was, list, ents, q, k, room)| <= room
    ensures |Scanned(was, list, ents, q, k, room)| == room ==>
      Upto(was + Filter(list, ents, q), room) == Scanned(was, list, ents, q, k, room)
    ensures Scanned(was, list, ents, q, k + 1, room) ==
      if Touched(ents[list[k] - HEADS], q) && |Scanned(was, list, ents, q, k, room)| < room
      then Scanned(was, list, ents, q, k, room) + [list[k] - HEADS] else Scanned(was, list, ents, q, k, room)
  {
    hide Filter, Touched;
    FilterStep(list, ents, q, k);
    FilterExtends(list, ents, q, k);
  }

  lemma {:induction false} FilterExtends(list: seq<int>, ents: seq<Edict>, q: Query, k: nat)
    requires ListUsable(list, ents) && k <= |list|
    ensures Filter(list[..k], ents, q) <= Filter(list, ents, q)
    decreases |list| - k
  {
    assert list[..|list|] == list;
    if k < |list| {
      FilterStep(list, ents, q, k);
      FilterExtends(list, ents, q, k + 1);
    }
  }

  /** How the array fills up at a node. */
  lemma UptoThree(was: seq<int>, here: seq<int>, front: seq<int>, back: seq<int>, room: nat)
    ensures Upto(was + (here + front + back), room) == Upto(Upto(Upto(was + here, room) + front, room) + back, room)
    ensures |Upto(was + here, room)| <= room && |Upto(Upto(was + here, room) + front, room)| <= room
    ensures |Upto(was + here, room)| == room ==> Upto(was + (here + front + back), room) == Upto(was + here, room)
    ensures Upto(Upto(was + here, room) + [], room) == Upto(was + here, room)
    ensures Upto(Upto(Upto(was + here, room) + front, room) + [], room) == Upto(Upto(was + here, room) + front, room)
  {
    assert was + (here + front + back) == (was + here + front) + back;
    UptoOn(was + here, front, room);
    UptoOn(was + here + front, back, room);
  }

  ghost predicate Found(list: seq<int>, home: seq<int>, ents: seq<Edict>, q: Query, room: nat)
    requires |home| == HEADS + |ents|
  {
    && Distinct(list) && |list| <= room
    && (forall e :: e in list ==> Wanted(home, ents, q, e))
    && (|list| < room || |AllWanted(home, ents, q)| <= room ==> forall e :: Wanted(home, ents, q, e) ==> e in list)
  }

  ghost function AllWanted(home: seq<int>, ents: seq<Edict>, q: Query): set<int>
    requires |home| == HEADS + |ents|
  {
    set e | 0 <= e < |ents| && Wanted(home, ents, q, e)
  }

  lemma FoundUpto(all: seq<int>, home: seq<int>, ents: seq<Edict>, q: Query, room: nat)
    requires |home| == HEADS + |ents| && Distinct(all) && forall e :: e in all <==> Wanted(home, ents, q, e)
    ensures Found(Upto(all, room), home, ents, q, room)
  {
    DistinctSize(all);
    assert forall e :: Wanted(home, ents, q, e) ==> 0 <= e < |ents|;
    hide Wanted;
    assert (set e | e in all) == AllWanted(home, ents, q);
  }

  /** The query is for entities of that kind, and meets the entity's box at its place, a unit wider. */
  ghost predicate InTheWay(e: Edict, q: Query)
  {
    && e.inUse && e.solid != NotSolid && (q.kind == Triggers <==> e.solid == Trigger)
    && exists p {:trigger q.box.Has(p)} :: q.box.Has(p) && AtPlace(e, p, 1.0)
  }

  lemma AbsBoxOrdered(e: Edict)
    requires Box(e.mins, e.maxs).Ordered()
    ensures AbsBox(e).Ordered()
  {
    hide Radius;
  }

  /** Brute force by place: once an entity is linked, a query with room for all it wants finds it exactly when
      it is in the way, wherever it was before; what it finds of the others does not change. */
  lemma LinkedIsFound(nodes: seq<AreaNode>, home: seq<int>, ents: seq<Edict>, lists': seq<seq<int>>, home': seq<int>,
                      ents': seq<Edict>, e: nat, q: Query, list: seq<int>, room: nat)
    requires TreeAt(nodes, 0, 0) && Relinked(nodes, home, ents, lists', home', ents', e) && e != 0
    requires Found(list, home', ents', q, room) && |AllWanted(home', ents', q)| <= room
    requires q.box.Ordered() && Box(ents[e].mins, ents[e].maxs).Ordered()
    ensures e in list <==> InTheWay(ents[e], q)
    ensures forall d :: d != e ==> (d in list <==> Wanted(home, ents, q, d))
  {
    hide TreeAt, Find, AbsBox, AtPlace, Meet, AllWanted;
    var b := AbsBox(ents[e]);
    AbsBoxOrdered(ents[e]);
    MeetMeans(b, q.box);
    forall p: Vec3
      ensures b.Has(p) <==> AtPlace(ents[e], p, 1.0)
    {
      AbsBoxIsPlace(ents[e], p);
    }
    assert e in list <==> Wanted(home', ents', q, e);
  }

  lemma SizeStep(depth: nat)
    requires depth < AREA_DEPTH
    ensures Size(depth) == 1 + 2 * Size(depth + 1)
  {
  }

  lemma OneLeaf(nodes: seq<AreaNode>, n: nat, b: Box)
    requires n < |nodes| && nodes[n].axis == -1
    ensures Size(AREA_DEPTH) == 1 && TreeAt(nodes, n, AREA_DEPTH) && Halves(nodes, n, AREA_DEPTH, b)
  {
  }

  lemma TwoHalves(nodes: seq<AreaNode>, n: nat, depth: nat, b: Box)
    requires depth < AREA_DEPTH && Size(depth) == 1 + 2 * Size(depth + 1) && n + Size(depth) <= |nodes|
    requires nodes[n] == AreaNode(SplitAxis(b), SplitDist(b), n + 1, n + 1 + Size(depth + 1))
    requires TreeAt(nodes, nodes[n].front, depth + 1) && Halves(nodes, nodes[n].front, depth + 1, Beyond(b))
    requires TreeAt(nodes, nodes[n].back, depth + 1) && Halves(nodes, nodes[n].back, depth + 1, Before(b))
    ensures TreeAt(nodes, n, depth) && Halves(nodes, n, depth, b)
  {
    hide SplitDist, Beyond, Before, Size;
  }

  lemma SubtreeStays(nodes: seq<AreaNode>, nodes': seq<AreaNode>, n: nat, depth: nat, b: Box)
    requires depth <= AREA_DEPTH && TreeAt(nodes, n, depth) && Halves(nodes, n, depth, b) && |nodes'| == |nodes|
    requires forall i {:trigger nodes'[i]} :: n <= i < n + Size(depth) ==> nodes'[i] == nodes[i]
    ensures TreeAt(nodes', n, depth) && Halves(nodes', n, depth, b)
  {
    hide TreeAt, Halves, Size;
    TreeStays(nodes, nodes', n, depth);
    HalvesStay(nodes, nodes', n, depth, b);
  }
}
