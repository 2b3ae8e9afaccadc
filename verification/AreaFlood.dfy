/** Flooding of areas through open portals (src/cmodel.c).  Every change of a portal floods the whole map
    anew; two areas can see each other exactly when they received the same number. */
module AreaFlood {
  import opened Bits

  const MAX_BSP_AREAS := 0x100
  const MAX_BSP_AREA_PORTALS := 0x400

  datatype Portal = Portal(portalNum: nat, otherArea: nat)

  /** The portals of an area are a range of the map's. */
  datatype Area = Area(firstPortal: nat, numPortals: nat)

  datatype Map = Map(areas: seq<Area>, portals: seq<Portal>)
  {
    /** Area zero is not used.  Each portal is listed by both its areas, under one number. */
    ghost predicate WellFormed()
    {
      && 1 <= |areas| <= MAX_BSP_AREAS && |portals| <= MAX_BSP_AREA_PORTALS
      && (forall a {:trigger areas[a]} :: 1 <= a < |areas| ==> areas[a].firstPortal + areas[a].numPortals <= |portals|)
      && (forall a, i {:trigger Lists(a, i)} :: Lists(a, i) ==>
            portals[i].portalNum < MAX_BSP_AREA_PORTALS && Used(portals[i].otherArea))
      && forall a, i {:trigger Mirrored(a, i)} :: Lists(a, i) ==> Mirrored(a, i)
    }

    /** The area on the other side lists the portal too. */
    ghost predicate Mirrored(a: int, i: nat)
      requires i < |portals|
    {
      exists j {:trigger Lists(portals[i].otherArea, j)} :: Lists(portals[i].otherArea, j)
        && portals[j].otherArea == a && portals[j].portalNum == portals[i].portalNum
    }

    ghost predicate Lists(a: int, i: int)
    {
      && 1 <= a < |areas| && areas[a].firstPortal <= i < areas[a].firstPortal + areas[a].numPortals
      && i < |portals|
    }

    predicate Used(a: int) { 1 <= a < |areas| }
  }

  // ----- what a flood is to compute

  ghost predicate Leads(m: Map, open: seq<bool>, a: int, b: int)
  {
    exists i {:trigger m.Lists(a, i)} :: m.Lists(a, i) && m.portals[i].otherArea == b
      && m.portals[i].portalNum < |open| && open[m.portals[i].portalNum]
  }

  ghost predicate IsPath(m: Map, open: seq<bool>, path: seq<int>)
  {
    && |path| > 0
    && forall k {:trigger path[k]} :: 0 < k < |path| ==> Leads(m, open, path[k - 1], path[k])
  }

  /** A path of open portals joins the two areas. */
  ghost predicate Connected(m: Map, open: seq<bool>, a: int, b: int)
  {
    exists path :: IsPath(m, open, path) && path[0] == a && path[|path| - 1] == b
  }

  lemma ConnectedSelf(m: Map, open: seq<bool>, a: int)
    ensures Connected(m, open, a, a)
  {
    assert IsPath(m, open, [a]);
  }

  lemma ConnectedOn(m: Map, open: seq<bool>, a: int, b: int, c: int)
    requires Connected(m, open, a, b) && Connected(m, open, b, c)
    ensures Connected(m, open, a, c)
  {
    var p :| IsPath(m, open, p) && p[0] == a && p[|p| - 1] == b;
    var q :| IsPath(m, open, q) && q[0] == b && q[|q| - 1] == c;
    var r := p + q[1..];
    forall k | 0 < k < |r|
      ensures Leads(m, open, r[k - 1], r[k])
    {
      if k < |p| { assert r[k] == p[k]; } else { assert r[k] == q[k - |p| + 1]; }
    }
    assert IsPath(m, open, r);
  }

  lemma ConnectedStep(m: Map, open: seq<bool>, a: int, b: int)
    requires Leads(m, open, a, b)
    ensures Connected(m, open, a, b)
  {
    assert IsPath(m, open, [a, b]);
  }

  lemma LeadsBack(m: Map, open: seq<bool>, a: int, b: int)
    requires m.WellFormed() && Leads(m, open, a, b)
    ensures Leads(m, open, b, a)
  {
    var i :|
      m.Lists(a, i) && m.portals[i].otherArea == b && m.portals[i].portalNum < |open| && open[m.portals[i].portalNum];
    assert m.Mirrored(a, i);
    var j :| m.Lists(b, j) && m.portals[j].otherArea == a && m.portals[j].portalNum == m.portals[i].portalNum;
  }

  lemma {:induction false} ConnectedBack(m: Map, open: seq<bool>, path: seq<int>)
    requires m.WellFormed() && IsPath(m, open, path)
    ensures Connected(m, open, path[|path| - 1], path[0])
    decreases |path|
  {
    var n := |path| - 1;
    if n == 0 {
      ConnectedSelf(m, open, path[0]);
    } else {
      assert IsPath(m, open, path[..n]);
      ConnectedBack(m, open, path[..n]);
      LeadsBack(m, open, path[n - 1], path[n]);
      ConnectedStep(m, open, path[n], path[n - 1]);
      ConnectedOn(m, open, path[n], path[n - 1], path[0]);
    }
  }

  /** The numbers handed out, the floods they date from, and the current flood. */
  datatype Flood = Flood(nums: seq<int>, valids: seq<int>, now: int)
  {
    predicate Marked(a: int) { 0 <= a < |nums| && a < |valids| && valids[a] == now }
  }

  /** No area numbered otherwise than `n` borders one it has not numbered. */
  ghost predicate Closed(m: Map, open: seq<bool>, f: Flood, n: int)
  {
    forall a, b {:trigger Leads(m, open, a, b)} :: f.Marked(a) && f.nums[a] != n && Leads(m, open, a, b) ==>
      f.Marked(b) && f.nums[b] == f.nums[a]
  }

  /** Areas already numbered keep their number; an area is newly numbered `n` only if `a` reaches it. */
  ghost predicate Spread(m: Map, open: seq<bool>, f: Flood, g: Flood, a: int, n: int)
  {
    && |g.nums| == |f.nums| && |g.valids| == |f.valids| && g.now == f.now
    && forall b {:trigger g.Marked(b)} {:trigger g.nums[b]} {:trigger g.valids[b]} ::
         0 <= b < |f.nums| && b < |f.valids| ==>
         || (g.nums[b] == f.nums[b] && g.valids[b] == f.valids[b])
         || (!f.Marked(b) && g.Marked(b) && g.nums[b] == n && Connected(m, open, a, b))
  }

  /** The newly numbered areas, `but` perhaps one, have handed their number on. */
  ghost predicate Drained(m: Map, open: seq<bool>, f: Flood, g: Flood, n: int, but: int)
  {
    forall b, c {:trigger Leads(m, open, b, c)} :: !f.Marked(b) && g.Marked(b) && b != but && Leads(m, open, b, c) ==>
      g.Marked(c) && g.nums[c] == n
  }

  lemma SpreadOn(m: Map, open: seq<bool>, f: Flood, g: Flood, h: Flood, a: int, s: int, n: int)
    requires Spread(m, open, f, g, a, n) && Spread(m, open, g, h, s, n)
    requires Leads(m, open, a, s)
    ensures Spread(m, open, f, h, a, n)
  {
    ConnectedStep(m, open, a, s);
    forall b | 0 <= b < |f.nums| && b < |f.valids| && !(h.nums[b] == g.nums[b] && h.valids[b] == g.valids[b])
      ensures Connected(m, open, a, b)
    {
      ConnectedOn(m, open, a, s, b);
    }
  }

  /** What a further flood of one neighbour leaves to be done. */
  lemma DrainedOn(m: Map, open: seq<bool>, f: Flood, g: Flood, h: Flood, n: int, s: int, but: int)
    requires Drained(m, open, f, g, n, but) && Drained(m, open, g, h, n, -1) && Spread(m, open, g, h, s, n)
    requires |f.nums| == |f.valids| == |g.nums| == |g.valids| && f.now == g.now
    ensures Drained(m, open, f, h, n, but)
  {
  }

  /** The flood of `area` in progress: its portals before `p` are done. */
  ghost predicate Flooding(m: Map, open: seq<bool>, f: Flood, g: Flood, area: int, n: int, p: int)
  {
    && Spread(m, open, f, g, area, n) && Drained(m, open, f, g, n, area) && Closed(m, open, g, n)
    && g.Marked(area) && g.nums[area] == n
    && forall j {:trigger m.Lists(area, j)} ::
         m.Lists(area, j) && j < p && m.portals[j].portalNum < |open| && open[m.portals[j].portalNum] ==>
         g.Marked(m.portals[j].otherArea) && g.nums[m.portals[j].otherArea] == n
  }

  lemma FloodingStarts(m: Map, open: seq<bool>, f: Flood, area: nat, n: int)
    requires m.WellFormed() && area < |m.areas| && area < |f.nums| == |f.valids| && !f.Marked(area)
    requires Closed(m, open, f, n)
    ensures Flooding(m, open, f, Flood(f.nums[area := n], f.valids[area := f.now], f.now), area, n,
      m.areas[area].firstPortal)
  {
    ConnectedSelf(m, open, area);
    var g := Flood(f.nums[area := n], f.valids[area := f.now], f.now);
    assert forall b :: g.Marked(b) <==> b == area || f.Marked(b);
    forall a, b | g.Marked(a) && g.nums[a] != n && Leads(m, open, a, b)
      ensures g.Marked(b) && g.nums[b] == g.nums[a]
    {
      assert f.Marked(a) && f.nums[a] == g.nums[a];
      LeadsBack(m, open, a, b);
    }
  }

  /** The neighbour behind an open portal may be flooded: it has this number or none. */
  lemma MayFlood(m: Map, open: seq<bool>, f: Flood, g: Flood, area: int, n: int, p: nat)
    requires m.WellFormed() && Flooding(m, open, f, g, area, n, p)
    requires m.Lists(area, p) && m.portals[p].portalNum < |open| && open[m.portals[p].portalNum]
    ensures Leads(m, open, area, m.portals[p].otherArea)
    ensures g.Marked(m.portals[p].otherArea) ==> g.nums[m.portals[p].otherArea] == n
    ensures Closed(m, open, g, n)
  {
    hide m.WellFormed;
    LeadsBack(m, open, area, m.portals[p].otherArea);
  }

  lemma FloodingOn(m: Map, open: seq<bool>, f: Flood, g: Flood, h: Flood, area: int, n: int, p: nat)
    requires |f.nums| == |f.valids| && Flooding(m, open, f, g, area, n, p) && m.Lists(area, p)
    requires Leads(m, open, area, m.portals[p].otherArea) && Spread(m, open, g, h, m.portals[p].otherArea, n)
    requires Drained(m, open, g, h, n, -1) && h.Marked(m.portals[p].otherArea) && h.nums[m.portals[p].otherArea] == n
    ensures Flooding(m, open, f, h, area, n, p + 1)
  {
    hide Leads, Connected;
    SpreadOn(m, open, f, g, h, area, m.portals[p].otherArea, n);
    DrainedOn(m, open, f, g, h, n, m.portals[p].otherArea, area);
  }

  lemma FloodingSkips(m: Map, open: seq<bool>, f: Flood, g: Flood, area: int, n: int, p: nat)
    requires Flooding(m, open, f, g, area, n, p) && m.Lists(area, p)
    requires m.portals[p].portalNum < |open| && !open[m.portals[p].portalNum]
    ensures Flooding(m, open, f, g, area, n, p + 1)
  {
    hide Leads, Connected;
  }

  lemma NothingFlooded(m: Map, open: seq<bool>, f: Flood, area: int, n: int)
    ensures Spread(m, open, f, f, area, n) && Drained(m, open, f, f, n, -1)
  {
  }

  lemma FloodingEnds(m: Map, open: seq<bool>, f: Flood, g: Flood, area: nat, n: int)
    requires m.WellFormed() && m.Used(area)
    requires Flooding(m, open, f, g, area, n, m.areas[area].firstPortal + m.areas[area].numPortals)
    ensures Spread(m, open, f, g, area, n) && Drained(m, open, f, g, n, -1)
    ensures g.Marked(area) && g.nums[area] == n
  {
    hide m.WellFormed, Connected;
  }

  /** A flood closes what it numbers, and keeps closed what was. */
  lemma ClosedOn(m: Map, open: seq<bool>, f: Flood, g: Flood, a: int, n: int)
    requires |f.nums| == |f.valids| && Spread(m, open, f, g, a, n) && Drained(m, open, f, g, n, -1)
    requires Closed(m, open, f, n) && forall b :: f.Marked(b) ==> f.nums[b] != n
    ensures Closed(m, open, g, 0)
  {
  }

  /** Along a path of open portals the number does not change. */
  lemma {:induction false} OneNumber(m: Map, open: seq<bool>, f: Flood, path: seq<int>)
    requires IsPath(m, open, path) && Closed(m, open, f, 0) && f.Marked(path[0]) && f.nums[path[0]] != 0
    ensures f.Marked(path[|path| - 1]) && f.nums[path[|path| - 1]] == f.nums[path[0]]
    decreases |path|
  {
    var n := |path| - 1;
    if n > 0 {
      assert IsPath(m, open, path[..n]);
      OneNumber(m, open, f, path[..n]);
      assert Leads(m, open, path[n - 1], path[n]);
    }
  }

  /** Numbered areas with a number in common are connected. */
  ghost predicate Joined(m: Map, open: seq<bool>, f: Flood)
  {
    forall a, b {:trigger f.Marked(a), f.Marked(b)} :: f.Marked(a) && f.Marked(b) && f.nums[a] == f.nums[b] ==>
      Connected(m, open, a, b)
  }

  lemma JoinedOn(m: Map, open: seq<bool>, f: Flood, g: Flood, r: int, n: int)
    requires m.WellFormed() && |f.nums| == |f.valids| && Spread(m, open, f, g, r, n) && Joined(m, open, f)
    requires forall b :: f.Marked(b) ==> f.nums[b] != n
    ensures Joined(m, open, g)
  {
    forall a, b | g.Marked(a) && g.Marked(b) && g.nums[a] == g.nums[b]
      ensures Connected(m, open, a, b)
    {
      if f.Marked(a) && f.Marked(b) {
        assert g.nums[a] == f.nums[a] && g.nums[b] == f.nums[b];
      } else {
        assert Connected(m, open, r, a) && Connected(m, open, r, b);
        var path :| IsPath(m, open, path) && path[0] == r && path[|path| - 1] == a;
        ConnectedBack(m, open, path);
        ConnectedOn(m, open, a, r, b);
      }
    }
  }

  /** Floods from the areas before `i` are over; they handed out the numbers up to `last`. */
  ghost predicate Numbered(m: Map, open: seq<bool>, f: Flood, i: int, last: int)
  {
    && Closed(m, open, f, 0) && Joined(m, open, f)
    && (forall a {:trigger f.Marked(a)} :: f.Marked(a) ==> 0 < f.nums[a] <= last)
    && forall a {:trigger f.Marked(a)} :: 1 <= a < i ==> f.Marked(a)
  }

  lemma NumberedOn(m: Map, open: seq<bool>, f: Flood, g: Flood, i: int, last: nat)
    requires m.WellFormed() && |f.nums| == |f.valids| && Numbered(m, open, f, i, last) && 0 < i
    requires Spread(m, open, f, g, i, last + 1) && Drained(m, open, f, g, last + 1, -1) && g.Marked(i)
    ensures Numbered(m, open, g, i + 1, last + 1)
  {
    assert Closed(m, open, f, last + 1);
    ClosedOn(m, open, f, g, i, last + 1);
    JoinedOn(m, open, f, g, i, last + 1);
    assert forall a :: f.Marked(a) ==> g.Marked(a) && g.nums[a] == f.nums[a];
    assert forall a :: g.Marked(a) && !f.Marked(a) ==> g.nums[a] == last + 1;
  }

  /** What every flood leaves: two areas in use have one number exactly when open portals join them, and
      the unused areas have number zero. */
  ghost predicate Flooded(m: Map, open: seq<bool>, nums: seq<int>)
  {
    && (forall a {:trigger nums[a]} :: 0 <= a < |nums| ==>
         (nums[a] > 0 <==> m.Used(a)) && (!m.Used(a) ==> nums[a] == 0))
    && forall a, b {:trigger nums[a], nums[b]} :: 0 <= a < |nums| && 0 <= b < |nums| && m.Used(a) && m.Used(b) ==>
         (nums[a] == nums[b] <==> Connected(m, open, a, b))
  }

  lemma FloodedNow(m: Map, open: seq<bool>, f: Flood, last: int)
    requires |m.areas| <= |f.nums| == |f.valids| && Numbered(m, open, f, |m.areas|, last)
    requires forall a {:trigger f.nums[a]} :: 0 <= a < |f.nums| && !m.Used(a) ==> f.nums[a] == 0
    ensures Flooded(m, open, f.nums)
  {
    assert forall a {:trigger f.nums[a]} :: 1 <= a < |m.areas| ==> f.Marked(a);
    forall a, b | 0 <= a < |f.nums| && 0 <= b < |f.nums| && m.Used(a) && m.Used(b)
      ensures f.nums[a] == f.nums[b] <==> Connected(m, open, a, b)
    {
      assert f.Marked(a) && f.Marked(b);
      if Connected(m, open, a, b) {
        var path :| IsPath(m, open, path) && path[0] == a && path[|path| - 1] == b;
        OneNumber(m, open, f, path);
      }
    }
  }

  datatype Answer = Answer(connected: bool) | BadArea

  class AreaTable {
    const world: Map
    const floodNum: array<int>
    const floodValid: array<int>
    const portalOpen: array<bool>
    var floodCount: int
    var noAreas: bool

    ghost predicate Shaped()
      reads this, floodNum, floodValid
    {
      && world.WellFormed() && floodNum != floodValid
      && floodNum.Length == floodValid.Length == MAX_BSP_AREAS && portalOpen.Length == MAX_BSP_AREA_PORTALS
      && 0 <= floodCount && (forall a {:trigger floodValid[a]} :: 0 <= a < floodValid.Length ==>
           floodValid[a] <= floodCount && (!world.Used(a) ==> floodValid[a] == 0))
      && forall a {:trigger floodNum[a]} :: 0 <= a < floodNum.Length && !world.Used(a) ==> floodNum[a] == 0
    }

    ghost predicate Valid()
      reads this, floodNum, floodValid, portalOpen
    {
      Shaped() && Flooded(world, portalOpen[..], floodNum[..])
    }

    ghost function State(): Flood
      reads this, floodNum, floodValid
    {
      Flood(floodNum[..], floodValid[..], floodCount)
    }

    ghost function Unflooded(): set<nat>
      reads this, floodValid
    {
      set a: nat | a < floodValid.Length && floodValid[a] != floodCount
    }

    method FloodArea(area: nat, n: int) returns (reflooded: bool)
      requires Shaped() && world.Used(area) && floodCount > 0 && n > 0
      requires Closed(world, portalOpen[..], State(), n)
      requires State().Marked(area) ==> floodNum[area] == n
      modifies floodNum, floodValid
      ensures !reflooded && Shaped()
      ensures Spread(world, portalOpen[..], old(State()), State(), area, n)
      ensures Drained(world, portalOpen[..], old(State()), State(), n, -1)
      ensures State().Marked(area) && floodNum[area] == n
      ensures Unflooded() <= old(Unflooded())
      decreases Unflooded()
    {
      hide Closed, Spread, Drained, Flooding, Connected, Leads;
      ghost var open, f := portalOpen[..], State();
      if floodValid[area] == floodCount {
        NothingFlooded(world, open, f, area, n);
        return floodNum[area] != n;
      }
      FloodingStarts(world, open, f, area, n);
      floodNum[area] := n;
      floodValid[area] := floodCount;
      assert area in old(Unflooded()) && area !in Unflooded();

      var p := world.areas[area].firstPortal;
      var i := 0;
      while i < world.areas[area].numPortals
        invariant p == world.areas[area].firstPortal + i && i <= world.areas[area].numPortals
        invariant Shaped() && Flooding(world, open, f, State(), area, n, p)
        invariant Unflooded() < old(Unflooded())
      {
        assert world.Lists(area, p);
        ghost var g, other := State(), world.portals[p].otherArea;
        if portalOpen[world.portals[p].portalNum] {
          MayFlood(world, open, f, g, area, n, p);
          reflooded := FloodArea(world.portals[p].otherArea, n);
          if reflooded {
            return;
          }
          FloodingOn(world, open, f, g, State(), area, n, p);
        } else {
          FloodingSkips(world, open, f, g, area, n, p);
        }
        i, p := i + 1, p + 1;
      }
      FloodingEnds(world, open, f, State(), area, n);
      return false;
    }

    method FloodAreaConnections() returns (reflooded: bool)
      requires Shaped()
      modifies this`floodCount, floodNum, floodValid
      ensures !reflooded && Valid()
    {
      hide Closed, Spread, Drained, Connected, Leads, Joined, Flooded;
      ghost var open := portalOpen[..];
      floodCount := floodCount + 1;
      var n := 0;
      var i := 1;
      NoneNumbered(world, open, State());
      while i < |world.areas|
        invariant 1 <= i <= |world.areas| && 0 <= n
        invariant Shaped() && floodCount > 0 && portalOpen[..] == open
        invariant Numbered(world, open, State(), i, n)
      {
        ghost var f := State();
        if floodValid[i] != floodCount {
          n := n + 1;
          NotYetNumbered(world, open, f, i, n);
          reflooded := FloodArea(i, n);
          if reflooded {
            return;
          }
          NumberedOn(world, open, f, State(), i, n - 1);
        }
        i := i + 1;
      }
      FloodedNow(world, open, State(), n);
      return false;
    }

    /** A loaded map: every portal shut, and a first flood. */
    constructor (world: Map)
      requires world.WellFormed()
      ensures Valid() && this.world == world && forall i :: 0 <= i < portalOpen.Length ==> !portalOpen[i]
      ensures fresh(floodNum) && fresh(floodValid) && fresh(portalOpen) && !noAreas
    {
      this.world := world;
      floodNum := new int[MAX_BSP_AREAS](_ => 0);
      floodValid := new int[MAX_BSP_AREAS](_ => 0);
      portalOpen := new bool[MAX_BSP_AREA_PORTALS](_ => false);
      floodCount, noAreas := 0, false;
      new;
      var _ := FloodAreaConnections();
    }

    /** The number of the portal one past the last is let through. */
    method SetAreaPortalState(portalNum: nat, open: bool) returns (bad: bool)
      requires Valid() && portalNum != MAX_BSP_AREA_PORTALS
      modifies this`floodCount, floodNum, floodValid, portalOpen
      ensures Valid() && bad == (portalNum > |world.portals|)
      ensures portalOpen[..] == if bad then old(portalOpen[..]) else old(portalOpen[..])[portalNum := open]
    {
      if portalNum > |world.portals| {
        return true;
      }
      portalOpen[portalNum] := open;
      bad := FloodAreaConnections();
    }

    /** Area zero and the slot past the last area pass for areas joined to each other only. */
    method AreasConnected(area1: nat, area2: nat) returns (r: Answer)
      requires Valid() && area1 != MAX_BSP_AREAS && area2 != MAX_BSP_AREAS
      ensures noAreas ==> r == Answer(true)
      ensures !noAreas && (area1 > |world.areas| || area2 > |world.areas|) <==> r == BadArea
      ensures !noAreas && world.Used(area1) && world.Used(area2) ==>
        r == Answer(Connected(world, portalOpen[..], area1, area2))
      ensures !noAreas && r != BadArea && !(world.Used(area1) && world.Used(area2)) ==>
        r == Answer(!world.Used(area1) && !world.Used(area2))
    {
      if noAreas {
        return Answer(true);
      }
      if area1 > |world.areas| || area2 > |world.areas| {
        return BadArea;
      }
      assert floodNum[..][area1] == floodNum[area1] && floodNum[..][area2] == floodNum[area2];
      return Answer(floodNum[area1] == floodNum[area2]);
    }

    /** The row of bits of the areas seen from `area`: those joined to it, or from area zero all of them. */
    method WriteAreaBits(buffer: array<bv8>, area: nat) returns (bytes: nat)
      requires Valid() && buffer.Length >= MAX_BSP_AREAS / 8 && area < |world.areas|
      requires (buffer as object) != floodNum && (buffer as object) != portalOpen
      modifies buffer
      ensures bytes == (|world.areas| + 7) / 8 <= buffer.Length
      ensures forall i {:trigger InRow(buffer[..bytes], i)} :: 0 <= i < 8 * bytes ==>
        (InRow(buffer[..bytes], i) <==>
           noAreas ||
             (i < |world.areas| && (area == 0 || (world.Used(i) && Connected(world, portalOpen[..], area, i)))))
      ensures buffer[bytes..] == old(buffer[bytes..])
    {
      hide Flooded, Connected, InRow, Mask;
      ghost var nums, open := floodNum[..], portalOpen[..];
      bytes := (|world.areas| + 7) / 8;
      FillRow(buffer, bytes, if noAreas then 0xff else 0);
      RowOf(buffer[..bytes], noAreas);
      if !noAreas {
        var num := floodNum[area];
        var i := 0;
        while i < |world.areas|
          invariant 0 <= i <= |world.areas| && buffer[bytes..] == old(buffer[bytes..])
          invariant floodNum[..] == nums && SetBelow(buffer[..bytes], nums, num, area == 0, i)
        {
          SetNext(buffer[..bytes], nums, num, area == 0, i);
          if floodNum[i] == num || area == 0 {
            SetIn(buffer, bytes, i);
          }
          i := i + 1;
        }
        RowMeans(world, open, nums, buffer[..bytes], area);
      }
    }
  }

  method SetIn(buffer: array<bv8>, bytes: nat, i: nat)
    requires i / 8 < bytes <= buffer.Length
    modifies buffer
    ensures buffer[bytes..] == old(buffer[bytes..])
    ensures buffer[..bytes] == old(buffer[..bytes])[i / 8 := old(buffer[i / 8]) | Mask(i % 8)]
  {
    buffer[i / 8] := buffer[i / 8] | Mask(i % 8);
  }

  method FillRow(buffer: array<bv8>, bytes: nat, fill: bv8)
    requires bytes <= buffer.Length
    modifies buffer
    ensures buffer[bytes..] == old(buffer[bytes..]) && forall j :: 0 <= j < bytes ==> buffer[j] == fill
  {
    var k := 0;
    while k < bytes
      invariant 0 <= k <= bytes && buffer[bytes..] == old(buffer[bytes..])
      invariant forall j :: 0 <= j < k ==> buffer[j] == fill
    {
      buffer[k] := fill;
      k := k + 1;
    }
  }

  /** The bits of the areas before `i` are as they should be, and no later one is set. */
  ghost predicate SetBelow(row: seq<bv8>, nums: seq<int>, num: int, all: bool, i: nat)
  {
    && i <= |nums|
    && forall j {:trigger InRow(row, j)} :: 0 <= j < 8 * |row| ==> (InRow(row, j) <==> j < i && (nums[j] == num || all))
  }

  lemma SetNext(row: seq<bv8>, nums: seq<int>, num: int, all: bool, i: nat)
    requires SetBelow(row, nums, num, all, i) && i < |nums| && i / 8 < |row|
    ensures nums[i] == num || all ==> SetBelow(row[i / 8 := row[i / 8] | Mask(i % 8)], nums, num, all, i + 1)
    ensures !(nums[i] == num || all) ==> SetBelow(row, nums, num, all, i + 1)
  {
    hide InRow, Mask;
    SetBits(row, i);
  }

  lemma RowMeans(m: Map, open: seq<bool>, nums: seq<int>, row: seq<bv8>, area: nat)
    requires Flooded(m, open, nums) && area < |m.areas| <= |nums|
    requires SetBelow(row, nums, nums[area], area == 0, |m.areas|)
    ensures forall i {:trigger InRow(row, i)} :: 0 <= i < 8 * |row| ==>
      (InRow(row, i) <==> i < |m.areas| && (area == 0 || (m.Used(i) && Connected(m, open, area, i))))
  {
    hide InRow, Connected;
    hide m.WellFormed;
    forall i | 0 <= i < 8 * |row|
      ensures InRow(row, i) <==> i < |m.areas| && (area == 0 || (m.Used(i) && Connected(m, open, area, i)))
    {
      assert InRow(row, i) <==> i < |m.areas| && (nums[i] == nums[area] || area == 0);
      if i < |m.areas| && area != 0 { assert nums[i] > 0 <==> m.Used(i); }
    }
  }

  lemma RowOf(row: seq<bv8>, all: bool)
    requires forall j :: 0 <= j < |row| ==> row[j] == if all then 0xff else 0
    ensures forall i {:trigger InRow(row, i)} :: 0 <= i < 8 * |row| ==> (InRow(row, i) <==> all)
  {
    forall i | 0 <= i < 8 * |row|
      ensures InRow(row, i) <==> all
    {
      EveryBit(i % 8);
    }
  }

  lemma NoneNumbered(m: Map, open: seq<bool>, f: Flood)
    requires |f.nums| == |f.valids| && forall a :: 0 <= a < |f.valids| ==> f.valids[a] < f.now
    ensures Numbered(m, open, f, 1, 0)
  {
  }

  lemma NotYetNumbered(m: Map, open: seq<bool>, f: Flood, i: int, n: nat)
    requires Numbered(m, open, f, i, n - 1)
    ensures Closed(m, open, f, n)
  {
  }
}
