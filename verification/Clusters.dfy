/** Which entities a client may see: each linked entity remembers the visibility clusters its box touches
    (src/server/sv_world.c), and a frame asks whether one of them is visible (src/server/sv_entity.c). */
module Clusters {
  import opened Sequences
  import opened Vectors
  import opened Bits
  import opened Bsp
  import AreaFlood

  const MAX_TOTAL_ENT_LEAFS := 128
  const MAX_ENT_CLUSTERS := 16

  /** What the entity remembers: its clusters, or only a node that all its leafs lie under. */
  datatype Cache = Listed(clusters: seq<int>) | Under(headNode: int)

  /** Every leaf is solid or lies in a cluster that a visibility row has a bit for. */
  ghost predicate Rowed(t: Tree, leafs: seq<Leaf>, vis: seq<bv8>)
  {
    |leafs| == t.numLeafs && forall i {:trigger leafs[i]} :: 0 <= i < |leafs| ==> -1 <= leafs[i].cluster < 8 * |vis|
  }

  predicate LeafVisible(leafs: seq<Leaf>, vis: seq<bv8>, leaf: int)
    requires 0 <= leaf < |leafs| && -1 <= leafs[leaf].cluster < 8 * |vis|
  {
    leafs[leaf].cluster != -1 && InRow(vis, leafs[leaf].cluster)
  }

  predicate HeadnodeVisible(t: Tree, leafs: seq<Leaf>, vis: seq<bv8>, num: int)
    requires t.Valid() && t.Ref(num) && Rowed(t, leafs, vis)
    decreases t.Rank(num)
  {
    if num < 0 then
      var cluster := leafs[-1 - num].cluster;
      cluster != -1 && InRow(vis, cluster)
    else HeadnodeVisible(t, leafs, vis, t.nodes[num].front) || HeadnodeVisible(t, leafs, vis, t.nodes[num].back)
  }

  /** A node is visible exactly when some leaf below it is. */
  lemma {:induction false} HeadnodeVisibleMeans(t: Tree, leafs: seq<Leaf>, vis: seq<bv8>, num: int)
    requires t.Valid() && t.Ref(num) && Rowed(t, leafs, vis)
    ensures forall leaf :: leaf in LeafsUnder(t, num) ==> 0 <= leaf < |leafs|
    ensures HeadnodeVisible(t, leafs, vis, num) <==>
      exists leaf :: leaf in LeafsUnder(t, num) && LeafVisible(leafs, vis, leaf)
    decreases t.Rank(num)
  {
    if num >= 0 {
      HeadnodeVisibleMeans(t, leafs, vis, t.nodes[num].front);
      HeadnodeVisibleMeans(t, leafs, vis, t.nodes[num].back);
    } else {
      assert -1 - num in LeafsUnder(t, num);
    }
  }

  /** The clusters of a list of leafs, each where it first occurs, without the solid ones. */
  function EachOnce(clusters: seq<int>): (r: seq<int>)
    ensures |r| <= |clusters|
    ensures forall c :: c in r <==> c in clusters && c != -1
    ensures forall i, j :: 0 <= i < j < |r| ==> r[i] != r[j]
  {
    if clusters == [] then []
    else
      var n := |clusters| - 1;
      if clusters[n] == -1 || clusters[n] in clusters[..n] then EachOnce(clusters[..n])
      else EachOnce(clusters[..n]) + [clusters[n]]
  }

  lemma EachOnceNone()
    ensures EachOnce([]) == []
  {
  }

  lemma EachOnceNext(clusters: seq<int>, n: nat)
    requires n < |clusters|
    ensures EachOnce(clusters[..n + 1]) ==
      if clusters[n] == -1 || clusters[n] in clusters[..n] then EachOnce(clusters[..n])
      else EachOnce(clusters[..n]) + [clusters[n]]
  {
    assert clusters[..n + 1][..n] == clusters[..n];
  }

  lemma {:induction false} EachOnceGrows(clusters: seq<int>, n: nat)
    requires n <= |clusters|
    ensures |EachOnce(clusters[..n])| <= |EachOnce(clusters)|
    decreases |clusters|
  {
    if n < |clusters| {
      var m := |clusters| - 1;
      EachOnceGrows(clusters[..m], n);
      assert clusters[..m][..n] == clusters[..n];
    } else {
      assert clusters[..n] == clusters;
    }
  }

  function ClustersOf(leafs: seq<Leaf>, touched: seq<int>): (r: seq<int>)
    requires forall i :: 0 <= i < |touched| ==> 0 <= touched[i] < |leafs|
    ensures |r| == |touched|
    ensures forall i {:trigger r[i]} :: 0 <= i < |r| ==> r[i] == leafs[touched[i]].cluster
  {
    seq(|touched|, i requires 0 <= i < |touched| => leafs[touched[i]].cluster)
  }

  /** What an entity whose box touches these leafs is to remember. */
  function CacheOf(leafs: seq<Leaf>, touched: seq<int>, top: int): Cache
    requires forall i :: 0 <= i < |touched| ==> 0 <= touched[i] < |leafs|
  {
    if |touched| >= MAX_TOTAL_ENT_LEAFS then Under(top)
    else
      var clusters := EachOnce(ClustersOf(leafs, touched));
      if |clusters| > MAX_ENT_CLUSTERS then Under(top) else Listed(clusters)
  }

  /** An entity's share in what is visible, by its cache. */
  ghost predicate Shown(t: Tree, leafs: seq<Leaf>, vis: seq<bv8>, c: Cache)
    requires t.Valid() && Rowed(t, leafs, vis)
    requires c.Under? ==> t.Ref(c.headNode)
    requires c.Listed? ==> forall i {:trigger c.clusters[i]} :: 0 <= i < |c.clusters| ==> 0 <= c.clusters[i] < 8 * |vis|
  {
    match c
    case Under(num) => HeadnodeVisible(t, leafs, vis, num)
    case Listed(clusters) => exists i :: 0 <= i < |clusters| && InRow(vis, clusters[i])
  }

  /** The box touches a leaf of a visible cluster. */
  ghost predicate TouchesVisible(t: Tree, leafs: seq<Leaf>, vis: seq<bv8>, box: Box, head: int)
    requires t.Valid() && t.Ref(head) && Rowed(t, leafs, vis)
  {
    exists i :: 0 <= i < |BoxLeafs(t, box, head)| && LeafVisible(leafs, vis, BoxLeafs(t, box, head)[i])
  }

  /** The cache of an entity with this box. */
  function BoxCache(t: Tree, leafs: seq<Leaf>, box: Box, head: int): Cache
    requires t.Valid() && t.Ref(head) && |leafs| == t.numLeafs
  {
    CacheOf(leafs, Upto(BoxLeafs(t, box, head), MAX_TOTAL_ENT_LEAFS), TopNode(t, box, head))
  }

  lemma CacheUsable(t: Tree, leafs: seq<Leaf>, vis: seq<bv8>, box: Box, head: int)
    requires t.Valid() && t.Ref(head) && Rowed(t, leafs, vis)
    ensures var c := BoxCache(t, leafs, box, head);
      && (c.Under? ==> 0 <= c.headNode < |t.nodes|)
      && (c.Listed? ==> forall i {:trigger c.clusters[i]} :: 0 <= i < |c.clusters| ==> 0 <= c.clusters[i] < 8 * |vis|)
      && (c.Under? <==> |BoxLeafs(t, box, head)| >= MAX_TOTAL_ENT_LEAFS
                        || |EachOnce(ClustersOf(leafs, BoxLeafs(t, box, head)))| > MAX_ENT_CLUSTERS)
  {
    TouchedUnderTop(t, box, head);
    var touched := BoxLeafs(t, box, head);
    if |touched| <= MAX_TOTAL_ENT_LEAFS { assert Upto(touched, MAX_TOTAL_ENT_LEAFS) == touched; }
    var c := BoxCache(t, leafs, box, head);
    if c.Listed? {
      var clusters := ClustersOf(leafs, touched);
      forall i | 0 <= i < |c.clusters|
        ensures 0 <= c.clusters[i] < 8 * |vis|
      {
        assert c.clusters[i] in clusters;
      }
    }
  }

  /** The cache never hides an entity that touches a visible leaf.  A list of clusters shows it exactly
      then; a head node may show it for any visible leaf below the node. */
  lemma NeverCulled(t: Tree, leafs: seq<Leaf>, vis: seq<bv8>, box: Box, head: int, c: Cache)
    requires t.Valid() && t.Ref(head) && Rowed(t, leafs, vis) && c == BoxCache(t, leafs, box, head)
    requires c.Under? ==> t.Ref(c.headNode)
    requires c.Listed? ==> forall i {:trigger c.clusters[i]} :: 0 <= i < |c.clusters| ==> 0 <= c.clusters[i] < 8 * |vis|
    ensures TouchesVisible(t, leafs, vis, box, head) ==> Shown(t, leafs, vis, c)
    ensures c.Listed? ==> (Shown(t, leafs, vis, c) <==> TouchesVisible(t, leafs, vis, box, head))
    ensures c.Under? ==>
      (Shown(t, leafs, vis, c) <==>
        exists leaf :: leaf in LeafsUnder(t, c.headNode) && 0 <= leaf < |leafs| && LeafVisible(leafs, vis, leaf))
  {
    var touched := BoxLeafs(t, box, head);
    TouchedUnderTop(t, box, head);
    if c.Under? {
      HeadnodeVisibleMeans(t, leafs, vis, c.headNode);
      if TouchesVisible(t, leafs, vis, box, head) {
        var i :| 0 <= i < |touched| && LeafVisible(leafs, vis, touched[i]);
        CacheUsable(t, leafs, vis, box, head);
        assert touched[i] in LeafsUnder(t, c.headNode);
      }
    } else {
      ListedExact(t, leafs, vis, box, head, c.clusters);
    }
  }

  /** In particular an entity is shown whenever a point well inside its box lies in a visible cluster. */
  lemma VisiblePointIsShown(t: Tree, leafs: seq<Leaf>, vis: seq<bv8>, box: Box, head: int, c: Cache, p: Vec3)
    requires t.Valid() && t.Ref(head) && Rowed(t, leafs, vis) && c == BoxCache(t, leafs, box, head)
    requires c.Under? ==> t.Ref(c.headNode)
    requires c.Listed? ==> forall i {:trigger c.clusters[i]} :: 0 <= i < |c.clusters| ==> 0 <= c.clusters[i] < 8 * |vis|
    requires box.Inside(p, SIDE_EPSILON) && LeafVisible(leafs, vis, PointLeaf(t, p, head))
    ensures Shown(t, leafs, vis, c)
  {
    BoxCoversItsPoints(t, box, head, p);
    NeverCulled(t, leafs, vis, box, head, c);
  }

  lemma ListedExact(t: Tree, leafs: seq<Leaf>, vis: seq<bv8>, box: Box, head: int, listed: seq<int>)
    requires t.Valid() && t.Ref(head) && Rowed(t, leafs, vis) && Listed(listed) == BoxCache(t, leafs, box, head)
    requires forall i {:trigger listed[i]} :: 0 <= i < |listed| ==> 0 <= listed[i] < 8 * |vis|
    ensures (exists i :: 0 <= i < |listed| && InRow(vis, listed[i])) <==> TouchesVisible(t, leafs, vis, box, head)
  {
    var touched := BoxLeafs(t, box, head);
    var clusters := ClustersOf(leafs, touched);
    assert listed == EachOnce(clusters);
    if i :| 0 <= i < |listed| && InRow(vis, listed[i]) {
      assert listed[i] in clusters;
      var k :| 0 <= k < |clusters| && clusters[k] == listed[i];
      assert LeafVisible(leafs, vis, touched[k]);
    }
    if k :| 0 <= k < |touched| && LeafVisible(leafs, vis, touched[k]) {
      assert clusters[k] in listed;
      var i :| 0 <= i < |listed| && listed[i] == clusters[k];
      assert InRow(vis, listed[i]);
    }
  }

  // ----- areas

  /** The first area met, and the last one met that differs from it; zero is no area. */
  function AreaPair(areas: seq<nat>): (r: (nat, nat))
  {
    if areas == [] then (0, 0)
    else
      var (one, two) := AreaPair(areas[..|areas| - 1]);
      var area := areas[|areas| - 1];
      if area == 0 then (one, two)
      else if one != 0 && one != area then (one, area)
      else (area, two)
  }

  lemma NoAreas()
    ensures AreaPair([]) == (0, 0)
  {
  }

  lemma AreaPairNext(areas: seq<nat>, i: nat)
    requires i < |areas|
    ensures var (one, two) := AreaPair(areas[..i]);
      AreaPair(areas[..i + 1]) ==
        if areas[i] == 0 then (one, two) else if one != 0 && one != areas[i] then (one, areas[i]) else (areas[i], two)
  {
    assert areas[..i + 1][..i] == areas[..i];
  }

  /** The two areas remembered are different areas that were touched, and they are all of them when no
      three were touched. */
  lemma {:induction false} AreaPairMeans(areas: seq<nat>)
    ensures var (one, two) := AreaPair(areas);
      && (one != 0 <==> exists i :: 0 <= i < |areas| && areas[i] != 0)
      && (one != 0 ==> one in areas)
      && (two != 0 ==> two in areas && one != 0 && one != two)
      && (two == 0 ==> forall a :: a in areas ==> a == 0 || a == one)
  {
    if areas != [] {
      var n := |areas| - 1;
      AreaPairMeans(areas[..n]);
      assert areas == areas[..n] + [areas[n]];
      var (one, two) := AreaPair(areas[..n]);
      if areas[n] != 0 { assert areas[n] in areas; }
    }
  }

  /** The test of a frame: one of the areas remembered is joined to the client's. */
  predicate PairJoined(pair: (nat, nat), joined: set<nat>)
  {
    pair.0 in joined || (pair.1 != 0 && pair.1 in joined)
  }

  ghost predicate TouchesJoined(areas: seq<nat>, joined: set<nat>)
  {
    exists i :: 0 <= i < |areas| && areas[i] in joined
  }

  ghost predicate Faithful(areas: seq<nat>)
  {
    forall joined: set<nat> :: 0 !in joined ==> (PairJoined(AreaPair(areas), joined) <==> TouchesJoined(areas, joined))
  }

  /** Nothing touched that is not zero is forgotten. */
  ghost predicate AllKept(areas: seq<nat>)
  {
    var (one, two) := AreaPair(areas);
    forall a :: a in areas ==> a == 0 || a == one || a == two
  }

  ghost function Touched(areas: seq<nat>): set<nat> { set a | a in areas && a != 0 }

  /** The third of three areas pushes one of the others out. */
  lemma KeptIsAtMostTwo(areas: seq<nat>)
    ensures AllKept(areas) <==> |Touched(areas)| <= 2
  {
    AreaPairMeans(areas);
    var (one, two) := AreaPair(areas);
    hide AreaPair;
    if AllKept(areas) {
      assert Touched(areas) <= {one, two};
      SubsetSize(Touched(areas), {one, two});
    } else {
      var a :| a in areas && a != 0 && a != one && a != two;
      assert {one, two, a} <= Touched(areas);
      SubsetSize({one, two, a}, Touched(areas));
    }
  }

  lemma SubsetSize(x: set<nat>, y: set<nat>)
    requires x <= y
    ensures |x| <= |y|
  {
    assert y == x + (y - x);
  }

  /** Whatever the portals are, an entity passes the test of its areas exactly when it touches an area joined
      to the client's, if and only if it touches at most two areas. */
  lemma AreaTestIsExact(areas: seq<nat>)
    ensures Faithful(areas) <==> |Touched(areas)| <= 2
  {
    KeptIsAtMostTwo(areas);
    AreaPairMeans(areas);
    var (one, two) := AreaPair(areas);
    if AllKept(areas) {
      forall joined: set<nat> | 0 !in joined
        ensures PairJoined((one, two), joined) <==> TouchesJoined(areas, joined)
      {
        if PairJoined((one, two), joined) {
          var a := if one in joined then one else two;
          var i :| 0 <= i < |areas| && areas[i] == a;
          assert areas[i] in joined;
        }
        if TouchesJoined(areas, joined) {
          var i :| 0 <= i < |areas| && areas[i] in joined;
          assert areas[i] in areas;
        }
      }
    } else {
      var a :| a in areas && a != 0 && a != one && a != two;
      assert TouchesJoined(areas, {a}) && !PairJoined((one, two), {a});
    }
  }

  /** An entity that touches three areas is not sent to a client in the second of them when every portal is
      shut. */
  lemma ThirdAreaHides()
    ensures AreaPair([1, 2, 3]) == (1, 3) && TouchesJoined([1, 2, 3], {2}) && !PairJoined(AreaPair([1, 2, 3]), {2})
  {
    assert AreaPair([1]) == (1, 0);
    assert [1, 2, 3][..2] == [1, 2] && [1, 2][..1] == [1];
    assert [1, 2, 3][1] in {2};
  }

  /** Linking a box that is not too big forgets no area unless the box touches three. */
  lemma EntityAreaIsExact(t: Tree, leafs: seq<Leaf>, box: Box, head: int, joined: set<nat>)
    requires t.Valid() && t.Ref(head) && |leafs| == t.numLeafs && |BoxLeafs(t, box, head)| <= MAX_TOTAL_ENT_LEAFS
    requires |Touched(AreasOf(leafs, BoxLeafs(t, box, head)))| <= 2 && 0 !in joined
    ensures PairJoined(AreaPair(AreasOf(leafs, Upto(BoxLeafs(t, box, head), MAX_TOTAL_ENT_LEAFS))), joined) <==>
      exists i :: 0 <= i < |BoxLeafs(t, box, head)| && leafs[BoxLeafs(t, box, head)[i]].area in joined
  {
    hide BoxLeafs, AreaPair, Touched;
    var touched := BoxLeafs(t, box, head);
    var areas := AreasOf(leafs, touched);
    AreaTestIsExact(areas);
    assert PairJoined(AreaPair(areas), joined) <==> TouchesJoined(areas, joined);
    assert forall i :: 0 <= i < |touched| ==> areas[i] == leafs[touched[i]].area;
  }

  /** The areas that a path of open portals joins to this one. */
  ghost function JoinedTo(m: AreaFlood.Map, open: seq<bool>, area: nat): set<nat>
  {
    set a: nat | a < |m.areas| && m.Used(a) && AreaFlood.Connected(m, open, area, a)
  }

  // ----- in place

  class Edict {
    var numClusters: int
    const clusters: array<int>
    var headNode: int
    var areaNum: nat
    var areaNum2: nat

    ghost predicate Valid()
      reads this
    {
      clusters.Length == MAX_ENT_CLUSTERS && -1 <= numClusters <= MAX_ENT_CLUSTERS
    }

    ghost function Remembered(): Cache
      reads this, clusters
      requires Valid()
    {
      if numClusters == -1 then Under(headNode) else Listed(clusters[..numClusters])
    }

    /** The part of linking that files an entity under the leafs its box touches. */
    method LinkLeafs(t: Tree, leafs: seq<Leaf>, box: Box, head: int)
      requires Valid() && t.Valid() && t.Ref(head) && |leafs| == t.numLeafs
      modifies this, clusters
      ensures Valid() && Remembered() == BoxCache(t, leafs, box, head)
      ensures (areaNum, areaNum2) == AreaPair(AreasOf(leafs, Upto(BoxLeafs(t, box, head), MAX_TOTAL_ENT_LEAFS)))
    {
      hide AreaPair, BoxLeafs, TopNode, EachOnce;
      NoAreas();
      numClusters, areaNum, areaNum2 := 0, 0, 0;
      var list := new int[MAX_TOTAL_ENT_LEAFS];
      var found := new int[MAX_TOTAL_ENT_LEAFS];
      var numLeafs, topNode := BoxLeafnums(t, box, list, head);
      ghost var touched := list[..numLeafs];
      ghost var areas, all := AreasOf(leafs, touched), ClustersOf(leafs, touched);

      var i := 0;
      while i < numLeafs
        invariant 0 <= i <= numLeafs && Valid() && list[..numLeafs] == touched
        invariant found[..i] == all[..i] && (areaNum, areaNum2) == AreaPair(areas[..i])
      {
        assert list[i] == list[..numLeafs][i] == touched[i];
        assert areas[i] == leafs[list[i]].area && all[i] == leafs[list[i]].cluster;
        assert all[..i + 1] == all[..i] + [all[i]];
        AreaPairNext(areas, i);
        found[i] := leafs[list[i]].cluster;
        assert found[..i + 1] == found[..i] + [found[i]];
        var area := leafs[list[i]].area;
        if area != 0 {
          if areaNum != 0 && areaNum != area {
            areaNum2 := area;
          } else {
            areaNum := area;
          }
        }
        i := i + 1;
      }
      assert areas[..numLeafs] == areas && all[..numLeafs] == all;
      if numLeafs >= MAX_TOTAL_ENT_LEAFS {
        numClusters, headNode := -1, topNode;
      } else {
        ListClusters(found, numLeafs, topNode);
      }
    }

    method ListClusters(found: array<int>, numLeafs: nat, topNode: int)
      requires Valid() && numLeafs <= found.Length && found != clusters
      modifies this`numClusters, this`headNode, clusters
      ensures Valid()
      ensures var d := EachOnce(found[..numLeafs]);
        Remembered() == if |d| > MAX_ENT_CLUSTERS then Under(topNode) else Listed(d)
    {
      hide EachOnce;
      EachOnceNone();
      numClusters := 0;
      ghost var all := found[..numLeafs];
      var i := 0;
      while i < numLeafs
        invariant 0 <= i <= numLeafs && 0 <= numClusters <= MAX_ENT_CLUSTERS
        invariant found[..numLeafs] == all && clusters[..numClusters] == EachOnce(all[..i])
      {
        EachOnceNext(all, i);
        assert all[i] == found[i];
        if found[i] != -1 {
          var j := 0;
          while j < i && found[j] != found[i]
            invariant 0 <= j <= i && found[i] !in all[..j]
          {
            assert all[..j + 1] == all[..j] + [found[j]];
            j := j + 1;
          }
          if j == i {
            if numClusters == MAX_ENT_CLUSTERS {
              EachOnceGrows(all, i + 1);
              numClusters, headNode := -1, topNode;
              return;
            }
            clusters[numClusters] := found[i];
            numClusters := numClusters + 1;
          } else {
            assert found[i] == all[..i][j];
          }
        }
        i := i + 1;
      }
      assert all[..i] == all;
    }

    /** The area test of a frame, for a client in `area`. */
    method AreaSeen(table: AreaFlood.AreaTable, area: nat) returns (r: AreaFlood.Answer)
      requires table.Valid()
      requires area != AreaFlood.MAX_BSP_AREAS && areaNum != AreaFlood.MAX_BSP_AREAS
      requires areaNum2 != AreaFlood.MAX_BSP_AREAS
      ensures table.noAreas ==> r == AreaFlood.Answer(true)
      ensures area < |table.world.areas| && areaNum < |table.world.areas| && areaNum2 < |table.world.areas| ==>
        table.noAreas || r ==
          AreaFlood.Answer(if area == 0 then areaNum == 0
            else PairJoined((areaNum, areaNum2), JoinedTo(table.world, table.portalOpen[..], area)))
      ensures !table.noAreas && (area > |table.world.areas| || areaNum > |table.world.areas|) ==> r.BadArea?
    {
      r := table.AreasConnected(area, areaNum);
      if r.BadArea? || r.connected {
        return;
      }
      if areaNum2 == 0 {
        return AreaFlood.Answer(false);
      }
      r := table.AreasConnected(area, areaNum2);
    }

    method Visible(t: Tree, leafs: seq<Leaf>, vis: array<bv8>) returns (visible: bool)
      requires Valid() && t.Valid() && Rowed(t, leafs, vis[..])
      requires numClusters == -1 ==> t.Ref(headNode)
      requires numClusters >= 0 ==>
        forall i {:trigger clusters[i]} :: 0 <= i < numClusters ==> 0 <= clusters[i] < 8 * vis.Length
      ensures visible <==> Shown(t, leafs, vis[..], Remembered())
    {
      if numClusters == -1 {
        return HeadnodeVisible(t, leafs, vis[..], headNode);
      }
      var i := 0;
      while i < numClusters && vis[clusters[i] / 8] & Mask(clusters[i] % 8) == 0
        invariant 0 <= i <= numClusters
        invariant forall j :: 0 <= j < i ==> !InRow(vis[..], clusters[..numClusters][j])
      {
        i := i + 1;
      }
      assert i < numClusters ==> InRow(vis[..], clusters[..numClusters][i]);
      return i < numClusters;
    }
  }

  function AreasOf(leafs: seq<Leaf>, touched: seq<int>): (r: seq<nat>)
    requires forall i :: 0 <= i < |touched| ==> 0 <= touched[i] < |leafs|
    ensures |r| == |touched|
    ensures forall i {:trigger r[i]} :: 0 <= i < |r| ==> r[i] == leafs[touched[i]].area
  {
    seq(|touched|, i requires 0 <= i < |touched| => leafs[touched[i]].area)
  }
}
