/** Managed memory (src/mem.c): blocks may be linked below other blocks and are then freed with them. */
module MemForest {
  import opened Sequences

  const MEM_TAG_ALL := -1

  datatype Pointer = Null | At(address: nat)

  datatype Block = Block(tag: int, parent: Pointer, children: seq<nat>, size: nat)

  /** The blocks allocated, by address. */
  type Heap = map<nat, Block>

  // ----- the forest

  /** Every block is a root or in just one block's list of children; `rank` grows from parent to child, so
      that there are no cycles. */
  ghost predicate Forest(h: Heap, rank: map<nat, nat>)
  {
    && rank.Keys == h.Keys
    && (forall c {:trigger h[c]} :: c in h ==> ParentKnows(h, rank, c))
    && forall p {:trigger h[p]} :: p in h ==> ChildrenKnow(h, p)
  }

  ghost predicate ParentKnows(h: Heap, rank: map<nat, nat>, c: nat)
    requires c in h && rank.Keys == h.Keys
  {
    h[c].parent.At? ==>
      h[c].parent.address in h && c in h[h[c].parent.address].children && rank[h[c].parent.address] < rank[c]
  }

  ghost predicate ChildrenKnow(h: Heap, p: nat)
    requires p in h
  {
    Distinct(h[p].children)
      && forall c {:trigger c in h[p].children} :: c in h[p].children ==> c in h && h[c].parent == At(p)
  }

  /** The block is `top` or descends from it. */
  ghost predicate Under(h: Heap, rank: map<nat, nat>, x: nat, top: nat)
    requires Forest(h, rank) && x in h
    decreases rank[x]
  {
    x == top || (h[x].parent.At? && (assert ParentKnows(h, rank, x); Under(h, rank, h[x].parent.address, top)))
  }

  ghost function Tree(h: Heap, rank: map<nat, nat>, top: nat): (t: set<nat>)
    requires Forest(h, rank)
    ensures forall x :: x in t <==> x in h && Under(h, rank, x, top)
  {
    set x | x in h && Under(h, rank, x, top)
  }

  ghost function RootOf(h: Heap, rank: map<nat, nat>, x: nat): (r: nat)
    requires Forest(h, rank) && x in h
    ensures r in h && h[r].parent == Null
    decreases rank[x]
  {
    if h[x].parent == Null then x else (assert ParentKnows(h, rank, x); RootOf(h, rank, h[x].parent.address))
  }

  lemma {:induction false} RootIsTop(h: Heap, rank: map<nat, nat>, x: nat, r: nat)
    requires Forest(h, rank) && x in h && r in h && h[r].parent == Null
    ensures Under(h, rank, x, r) <==> RootOf(h, rank, x) == r
    decreases rank[x]
  {
    if h[x].parent.At? {
      assert ParentKnows(h, rank, x);
      RootIsTop(h, rank, h[x].parent.address, r);
    }
  }

  lemma {:induction false} UnderRank(h: Heap, rank: map<nat, nat>, x: nat, top: nat)
    requires Forest(h, rank) && x in h && Under(h, rank, x, top)
    ensures top in h && rank[top] <= rank[x]
    decreases rank[x]
  {
    if x != top {
      assert ParentKnows(h, rank, x);
      UnderRank(h, rank, h[x].parent.address, top);
    }
  }

  lemma {:induction false} UnderParent(h: Heap, rank: map<nat, nat>, x: nat, c: nat, p: nat)
    requires Forest(h, rank) && x in h && p in h && c in h[p].children && Under(h, rank, x, c)
    ensures Under(h, rank, x, p)
    decreases rank[x]
  {
    assert ChildrenKnow(h, p) && ParentKnows(h, rank, x);
    if x == c {
      assert Under(h, rank, p, p);
    } else {
      UnderParent(h, rank, h[x].parent.address, c, p);
    }
  }

  ghost predicate UnderSome(h: Heap, rank: map<nat, nat>, x: nat, list: seq<nat>)
    requires Forest(h, rank) && x in h
  {
    exists i :: 0 <= i < |list| && Under(h, rank, x, list[i])
  }

  /** What lies under a block is the block and what lies under its children. */
  lemma {:induction false} UnderChild(h: Heap, rank: map<nat, nat>, x: nat, p: nat)
    requires Forest(h, rank) && x in h && p in h
    ensures Under(h, rank, x, p) <==> x == p || UnderSome(h, rank, x, h[p].children)
    decreases rank[x]
  {
    if UnderSome(h, rank, x, h[p].children) {
      var i :| 0 <= i < |h[p].children| && Under(h, rank, x, h[p].children[i]);
      UnderParent(h, rank, x, h[p].children[i], p);
    }
    if x != p && Under(h, rank, x, p) {
      var q := h[x].parent.address;
      assert ParentKnows(h, rank, x);
      if q == p {
        var i :| 0 <= i < |h[p].children| && h[p].children[i] == x;
        assert Under(h, rank, x, h[p].children[i]);
      } else {
        UnderChild(h, rank, q, p);
        var i :| 0 <= i < |h[p].children| && Under(h, rank, q, h[p].children[i]);
        assert Under(h, rank, x, h[p].children[i]);
      }
    }
  }

  /** No block lies under two children of one block. */
  lemma {:induction false} SiblingsApart(h: Heap, rank: map<nat, nat>, x: nat, p: nat, c: nat, d: nat)
    requires Forest(h, rank) && x in h && p in h && c in h[p].children && d in h[p].children && c != d
    requires Under(h, rank, x, c)
    ensures !Under(h, rank, x, d)
    decreases rank[x]
  {
    assert ChildrenKnow(h, p) && ParentKnows(h, rank, c) && ParentKnows(h, rank, d);
    if x == c {
      if Under(h, rank, c, d) { UnderRank(h, rank, p, d); }
    } else if x == d {
      UnderRank(h, rank, p, c);
    } else {
      assert ParentKnows(h, rank, x);
      SiblingsApart(h, rank, h[x].parent.address, p, c, d);
    }
  }

  // ----- sizes

  ghost function Total(h: Heap): nat
  {
    if h == map[] then 0
    else
      var x :| x in h;
      h[x].size + Total(h - {x})
  }

  lemma {:induction false} TotalWithout(h: Heap, x: nat)
    requires x in h
    ensures Total(h) == h[x].size + Total(h - {x})
  {
    var y :| y in h && Total(h) == h[y].size + Total(h - {y});
    if y != x {
      TotalWithout(h - {y}, x);
      TotalWithout(h - {x}, y);
      assert h - {y} - {x} == h - {x} - {y};
    }
  }

  /** Only the sizes matter. */
  lemma {:induction false} TotalAgrees(h: Heap, g: Heap)
    requires h.Keys == g.Keys && forall x {:trigger g[x]} :: x in h ==> h[x].size == g[x].size
    ensures Total(h) == Total(g)
  {
    if h != map[] {
      var x :| x in h;
      TotalWithout(h, x);
      TotalWithout(g, x);
      TotalAgrees(h - {x}, g - {x});
    } else {
      assert g == map[];
    }
  }

  // ----- one operation on the forest

  lemma {:induction false} RemoveDistinct(list: seq<nat>, x: nat)
    requires Distinct(list)
    ensures Distinct(Remove(list, x)) && x !in Remove(list, x)
  {
    if list != [] {
      var rest := list[1..];
      assert forall i :: 0 <= i < |rest| ==> rest[i] == list[i + 1];
      if list[0] != x {
        RemoveDistinct(rest, x);
        var left := Remove(rest, x);
        assert Remove(list, x) == [list[0]] + left;
        forall j | 0 <= j < |left|
          ensures left[j] != list[0]
        {
          assert left[j] in left && left[j] in rest;
        }
      }
    }
  }

  function SetChildren(h: Heap, p: nat, children: seq<nat>): (r: Heap)
    requires p in h
  {
    h[p := h[p].(children := children)]
  }

  function Allocated(h: Heap, x: nat, tag: int, parent: Pointer, size: nat): (r: Heap)
    requires parent.At? ==> parent.address in h
  {
    var h := h[x := Block(tag, parent, [], size)];
    if parent.At? then SetChildren(h, parent.address, [x] + h[parent.address].children) else h
  }

  /** Takes a block off its parent's list. */
  function Detached(h: Heap, c: nat): (r: Heap)
    requires c in h && (h[c].parent.At? ==> h[c].parent.address in h)
  {
    if h[c].parent.At? then SetChildren(h, h[c].parent.address, Remove(h[h[c].parent.address].children, c)) else h
  }

  function Linked(h: Heap, c: nat, p: nat): (r: Heap)
    requires c in h && p in h && (h[c].parent.At? ==> h[c].parent.address in h)
  {
    var h := Detached(h, c);
    var h := h[c := h[c].(parent := At(p))];
    SetChildren(h, p, [c] + h[p].children)
  }

  lemma AllocatedForest(h: Heap, rank: map<nat, nat>, x: nat, tag: int, parent: Pointer, size: nat)
    requires Forest(h, rank) && x !in h && (parent.At? ==> parent.address in h)
    ensures Forest(Allocated(h, x, tag, parent, size), rank[x := if parent.At? then rank[parent.address] + 1 else 0])
  {
    var h', rank' := Allocated(h, x, tag, parent, size), rank[x := if parent.At? then rank[parent.address] + 1 else 0];
    forall c | c in h'
      ensures ParentKnows(h', rank', c)
    {
      if c != x { assert ParentKnows(h, rank, c); }
    }
    forall p | p in h'
      ensures ChildrenKnow(h', p)
    {
      if p != x {
        assert ChildrenKnow(h, p);
        assert forall c :: c in h[p].children ==> c in h && c != x;
      }
    }
  }

  /** The ranks after the tree of `c` has been moved below `p`. */
  ghost function Deeper(h: Heap, rank: map<nat, nat>, c: nat, p: nat): (r: map<nat, nat>)
    requires Forest(h, rank) && p in h
    ensures r.Keys == h.Keys
  {
    map x | x in h :: if Under(h, rank, x, c) then rank[x] + rank[p] + 1 else rank[x]
  }

  lemma LinkedForest(h: Heap, rank: map<nat, nat>, c: nat, p: nat)
    requires Forest(h, rank) && c in h && p in h && !Under(h, rank, p, c)
    requires h[c].parent.At? ==> h[c].parent.address in h
    ensures Forest(Linked(h, c, p), Deeper(h, rank, c, p))
  {
    hide Linked, Deeper, ParentKnows, ChildrenKnow;
    assert p != c by { assert Under(h, rank, c, c); }
    var h', rank' := Linked(h, c, p), Deeper(h, rank, c, p);
    LinkedKeys(h, c, p);
    forall x | x in h'
      ensures ParentKnows(h', rank', x) && ChildrenKnow(h', x)
    {
      LinkedParents(h, rank, c, p, x);
      LinkedChildren(h, rank, c, p, x);
    }
  }

  lemma LinkedKeys(h: Heap, c: nat, p: nat)
    requires c in h && p in h && (h[c].parent.At? ==> h[c].parent.address in h)
    ensures Linked(h, c, p).Keys == h.Keys
    ensures forall x {:trigger Linked(h, c, p)[x]} :: x in h ==>
      && Linked(h, c, p)[x].size == h[x].size && Linked(h, c, p)[x].tag == h[x].tag
      && Linked(h, c, p)[x].parent == if x == c then At(p) else h[x].parent
  {
  }

  lemma LinkedParents(h: Heap, rank: map<nat, nat>, c: nat, p: nat, x: nat)
    requires Forest(h, rank) && c in h && p in h && x in h && !Under(h, rank, p, c)
    requires h[c].parent.At? ==> h[c].parent.address in h
    ensures x in Linked(h, c, p) && Deeper(h, rank, c, p).Keys == Linked(h, c, p).Keys
    ensures ParentKnows(Linked(h, c, p), Deeper(h, rank, c, p), x)
  {
    LinkedKeys(h, c, p);
    LinkedKeeps(h, c, p, if h[x].parent.At? then h[x].parent.address else p, x);
    hide Linked, ChildrenKnow;
    assert ParentKnows(h, rank, x);
    assert Under(h, rank, c, c);
    if x != c && h[x].parent.At? {
      assert Under(h, rank, x, c) <==> Under(h, rank, h[x].parent.address, c);
    }
  }

  lemma LinkedKeeps(h: Heap, c: nat, p: nat, q: nat, x: nat)
    requires c in h && p in h && (h[c].parent.At? ==> h[c].parent.address in h)
    ensures q in h && x in h[q].children && x != c ==> x in Linked(h, c, p)[q].children
    ensures c in Linked(h, c, p)[p].children
  {
  }

  lemma LinkedChildren(h: Heap, rank: map<nat, nat>, c: nat, p: nat, q: nat)
    requires Forest(h, rank) && c in h && p in h && q in h && p != c
    requires h[c].parent.At? ==> h[c].parent.address in h
    ensures q in Linked(h, c, p) && ChildrenKnow(Linked(h, c, p), q)
  {
    assert ChildrenKnow(h, q) && ParentKnows(h, rank, c);
    RemoveDistinct(h[q].children, c);
    LinkedKeys(h, c, p);
    var rest := if h[c].parent == At(q) then Remove(h[q].children, c) else h[q].children;
    assert c !in rest && Distinct(rest);
    assert Linked(h, c, p)[q].children == if q == p then [c] + rest else rest;
  }

  /** Linking a block puts its tree below the new parent, where freeing the parent will find it. */
  lemma {:induction false} LinkedUnder(h: Heap, rank: map<nat, nat>, c: nat, p: nat, x: nat)
    requires Forest(h, rank) && c in h && p in h && x in h && !Under(h, rank, p, c)
    requires h[c].parent.At? ==> h[c].parent.address in h
    ensures Forest(Linked(h, c, p), Deeper(h, rank, c, p))
    ensures Under(Linked(h, c, p), Deeper(h, rank, c, p), x, p) <==> Under(h, rank, x, p) || Under(h, rank, x, c)
    ensures Linked(h, c, p)[x].size == h[x].size && Linked(h, c, p)[x].tag == h[x].tag
    decreases rank[x]
  {
    LinkedForest(h, rank, c, p);
    LinkedKeys(h, c, p);
    hide Linked, Deeper;
    var h', rank' := Linked(h, c, p), Deeper(h, rank, c, p);
    if x != p && x != c && h[x].parent.At? {
      assert ParentKnows(h, rank, x) && ParentKnows(h', rank', x);
      LinkedUnder(h, rank, c, p, h[x].parent.address);
    } else if x == c {
      assert Under(h', rank', p, p);
    }
  }

  /** What is left when a tree is freed. */
  ghost function Pruned(h: Heap, rank: map<nat, nat>, p: nat): Heap
    requires Forest(h, rank) && p in h && (h[p].parent.At? ==> h[p].parent.address in h)
  {
    Detached(h, p) - Tree(h, rank, p)
  }

  lemma PrunedForest(h: Heap, rank: map<nat, nat>, p: nat)
    requires Forest(h, rank) && p in h && (h[p].parent.At? ==> h[p].parent.address in h)
    ensures Forest(Pruned(h, rank, p), rank - Tree(h, rank, p))
  {
    var h', rank' := Pruned(h, rank, p), rank - Tree(h, rank, p);
    assert ParentKnows(h, rank, p);
    forall c | c in h'
      ensures ParentKnows(h', rank', c)
    {
      assert ParentKnows(h, rank, c);
    }
    forall q | q in h'
      ensures ChildrenKnow(h', q)
    {
      assert ChildrenKnow(h, q);
      RemoveDistinct(h[q].children, p);
      forall c | c in h'[q].children
        ensures c in h'
      {
        assert c in h[q].children && c != p && ParentKnows(h, rank, c);
        assert Under(h, rank, c, p) <==> Under(h, rank, q, p);
      }
    }
  }

  // ----- freeing, child by child

  ghost function Trees(h: Heap, rank: map<nat, nat>, list: seq<nat>): set<nat>
    requires Forest(h, rank)
  {
    set x | x in h && UnderSome(h, rank, x, list)
  }

  lemma ChildIn(h: Heap, rank: map<nat, nat>, p: nat, i: nat)
    requires Forest(h, rank) && p in h && i < |h[p].children|
    ensures var c := h[p].children[i]; c in h[p].children && c in h && rank[p] < rank[c]
  {
    assert h[p].children[i] in h[p].children && ChildrenKnow(h, p);
    assert ParentKnows(h, rank, h[p].children[i]);
  }

  /** The trees of the children are apart, and properly part of the parent's. */
  lemma TreesNext(h: Heap, rank: map<nat, nat>, p: nat, i: nat)
    requires Forest(h, rank) && p in h && i < |h[p].children|
    ensures Trees(h, rank, h[p].children[..i + 1]) ==
      Trees(h, rank, h[p].children[..i]) + Tree(h, rank, h[p].children[i])
    ensures Trees(h, rank, h[p].children[..i]) !! Tree(h, rank, h[p].children[i])
    ensures Tree(h, rank, h[p].children[i]) < Tree(h, rank, p)
  {
    var list := h[p].children;
    var c := list[i];
    ChildIn(h, rank, p, i);
    assert ChildrenKnow(h, p);
    forall x | x in h
      ensures UnderSome(h, rank, x, list[..i + 1]) <==> UnderSome(h, rank, x, list[..i]) || Under(h, rank, x, c)
      ensures !(UnderSome(h, rank, x, list[..i]) && Under(h, rank, x, c))
      ensures Under(h, rank, x, c) ==> Under(h, rank, x, p) && x != p
    {
      if UnderSome(h, rank, x, list[..i]) {
        var j :| 0 <= j < i && Under(h, rank, x, list[..i][j]);
        assert list[j] in list && list[..i + 1][j] == list[j];
        SiblingsApart(h, rank, x, p, list[j], c);
      }
      if Under(h, rank, x, c) {
        assert list[..i + 1][i] == c;
        UnderParent(h, rank, x, c, p);
        UnderRank(h, rank, x, c);
      }
      if UnderSome(h, rank, x, list[..i + 1]) {
        var j :| 0 <= j < i + 1 && Under(h, rank, x, list[..i + 1][j]);
        if j < i { assert list[..i][j] == list[j]; }
      }
    }
    assert Under(h, rank, p, p);
  }

  lemma TreesAll(h: Heap, rank: map<nat, nat>, p: nat)
    requires Forest(h, rank) && p in h
    ensures Tree(h, rank, p) == {p} + Trees(h, rank, h[p].children) && p !in Trees(h, rank, h[p].children)
    ensures Trees(h, rank, []) == {} && p in Tree(h, rank, p)
  {
    forall x | x in h
      ensures Under(h, rank, x, p) <==> x == p || UnderSome(h, rank, x, h[p].children)
    {
      UnderChild(h, rank, x, p);
    }
    if UnderSome(h, rank, p, h[p].children) {
      var i :| 0 <= i < |h[p].children| && Under(h, rank, p, h[p].children[i]);
      ChildIn(h, rank, p, i);
      UnderRank(h, rank, p, h[p].children[i]);
    }
    assert Under(h, rank, p, p);
  }

  ghost predicate Intact(h: Heap, heap: Heap, some: set<nat>)
  {
    forall x {:trigger x in some} :: x in some ==> x in h && x in heap && heap[x] == h[x]
  }

  class MemState {
    var heap: Heap
    var roots: set<nat>
    var size: nat
    ghost var rank: map<nat, nat>

    ghost predicate Valid()
      reads this
    {
      Forest(heap, rank) && size == Total(heap) && roots == Roots(heap)
    }

    constructor ()
      ensures Valid() && heap == map[] && size == 0
    {
      heap, roots, size, rank := map[], {}, 0, map[];
    }

    /** Frees a block after everything below it.  `was` is the forest before any of it went. */
    method FreeTree(p: nat, ghost was: Heap, ghost wasRank: map<nat, nat>)
      requires Forest(was, wasRank) && p in was && Intact(was, heap, Tree(was, wasRank, p)) && size == Total(heap)
      modifies this`heap, this`size
      ensures heap == old(heap) - Tree(was, wasRank, p) && size == Total(heap)
      decreases Tree(was, wasRank, p)
    {
      hide Forest, Tree, Trees;
      TreesAll(was, wasRank, p);
      var children := heap[p].children;
      assert children[..0] == [];
      var i := 0;
      while i < |children|
        invariant 0 <= i <= |children| && size == Total(heap)
        invariant heap == old(heap) - Trees(was, wasRank, children[..i])
      {
        TreesNext(was, wasRank, p, i);
        ChildIn(was, wasRank, p, i);
        FreeTree(children[i], was, wasRank);
        i := i + 1;
      }
      assert children[..i] == children;
      TotalWithout(heap, p);
      size := size - heap[p].size;
      heap := heap - {p};
    }

    method Free(p: nat)
      requires Valid() && p in heap
      modifies this
      ensures Valid() && (old(heap)[p].parent.At? ==> old(heap)[p].parent.address in old(heap))
      ensures heap == Pruned(old(heap), old(rank), p) && rank == old(rank) - Tree(old(heap), old(rank), p)
    {
      assert ParentKnows(heap, rank, p);
      hide Forest, Tree, Under;
      ghost var was, wasRank := heap, rank;
      DetachKeeps(was, wasRank, p);
      if heap[p].parent.At? {
        var q := heap[p].parent.address;
        heap := SetChildren(heap, q, Remove(heap[q].children, p));
      } else {
        roots := roots - {p};
      }
      FreeTree(p, was, wasRank);
      rank := rank - Tree(was, wasRank, p);
      PrunedForest(was, wasRank, p);
      PrunedRoots(was, wasRank, p);
    }

    /** A block at an address not in use. */
    method Malloc(x: nat, bytes: nat, tag: int, parent: Pointer)
      requires Valid() && x !in heap && (parent.At? ==> parent.address in heap)
      modifies this
      ensures Valid() && heap == Allocated(old(heap), x, tag, parent, bytes) && size == old(size) + bytes
    {
      hide Forest, Total;
      AllocatedForest(heap, rank, x, tag, parent, bytes);
      AllocatedTotal(heap, x, tag, parent, bytes);
      RankKeys(heap, rank);
      rank := rank[x := if parent.At? then rank[parent.address] + 1 else 0];
      heap := heap[x := Block(tag, parent, [], bytes)];
      if parent.At? {
        heap := SetChildren(heap, parent.address, [x] + heap[parent.address].children);
      } else {
        roots := roots + {x};
      }
      size := size + bytes;
    }

    method Link(c: nat, p: nat) returns (r: nat)
      requires Valid() && c in heap && p in heap && !Under(heap, rank, p, c)
      modifies this
      ensures Valid() && r == c && size == old(size)
      ensures (old(heap)[c].parent.At? ==> old(heap)[c].parent.address in old(heap))
      ensures heap == Linked(old(heap), c, p) && rank == Deeper(old(heap), old(rank), c, p)
    {
      hide Distinct, ChildrenKnow, Total, Deeper, Remove;
      assert ParentKnows(heap, rank, c);
      assert p != c;
      hide Forest, Under, ParentKnows;
      LinkedForest(heap, rank, c, p);
      LinkedTotal(heap, c, p);
      assert heap[c].parent.At? ==> c !in Roots(heap);
      hide Roots;
      rank := Deeper(heap, rank, c, p);
      var h := heap;
      if h[c].parent.At? {
        var q := h[c].parent.address;
        h := SetChildren(h, q, Remove(h[q].children, c));
      } else {
        roots := roots - {c};
      }
      h := h[c := h[c].(parent := At(p))];
      heap := SetChildren(h, p, [c] + h[p].children);
      return c;
    }

    /** Only the tags of roots are looked at. */
    method FreeTag(tag: int)
      requires Valid()
      modifies this
      ensures Valid() && heap == old(heap) - Rooted(old(heap), old(rank), Tagged(old(heap), tag))
      ensures tag == MEM_TAG_ALL ==> heap == map[] && size == 0
    {
      hide Forest, Total, Tree, Rooted;
      ghost var was, wasRank := heap, rank;
      ghost var gone: set<nat> := {};
      NoneRooted(was, wasRank);
      var pending := roots;
      while pending != {}
        invariant pending <= roots == Roots(was) - gone && gone <= Tagged(was, tag) <= gone + pending
        invariant heap == was - Rooted(was, wasRank, gone) && size == Total(heap)
        decreases pending
      {
        var b :| b in pending;
        pending := pending - {b};
        RootedNext(was, wasRank, gone, b);
        assert b in heap && heap[b] == was[b] by { Untouched(was, wasRank, gone, b); }
        if tag == MEM_TAG_ALL || heap[b].tag == tag {
          Untouched(was, wasRank, gone, b);
          roots := roots - {b};
          FreeTree(b, was, wasRank);
          gone := gone + {b};
        }
      }
      assert gone == Tagged(was, tag);
      RootedForest(was, wasRank, gone);
      rank := wasRank - Rooted(was, wasRank, gone);
      AllTags(was, wasRank);
    }

    method Size() returns (bytes: nat)
      requires Valid()
      ensures bytes == Total(heap)
    {
      return size;
    }
  }

  lemma RankKeys(h: Heap, rank: map<nat, nat>)
    requires Forest(h, rank)
    ensures rank.Keys == h.Keys
  {
  }

  lemma NoneRooted(h: Heap, rank: map<nat, nat>)
    requires Forest(h, rank)
    ensures Rooted(h, rank, {}) == {}
  {
  }

  lemma Untouched(h: Heap, rank: map<nat, nat>, gone: set<nat>, b: nat)
    requires Forest(h, rank) && b in Roots(h) - gone
    ensures Intact(h, h - Rooted(h, rank, gone), Tree(h, rank, b))
    ensures b in h - Rooted(h, rank, gone)
  {
    RootedNext(h, rank, gone, b);
    assert Under(h, rank, b, b);
  }

  /** The blocks whose roots are among these. */
  ghost function Rooted(h: Heap, rank: map<nat, nat>, tops: set<nat>): (r: set<nat>)
    requires Forest(h, rank)
    ensures forall x :: x in r <==> x in h && RootOf(h, rank, x) in tops
  {
    set x | x in h && RootOf(h, rank, x) in tops
  }

  predicate Matches(tag: int, b: Block) { tag == MEM_TAG_ALL || b.tag == tag }

  ghost function Tagged(h: Heap, tag: int): set<nat>
  {
    set x | x in h && h[x].parent == Null && Matches(tag, h[x])
  }

  lemma RootedForest(h: Heap, rank: map<nat, nat>, tops: set<nat>)
    requires Forest(h, rank) && tops <= Roots(h)
    ensures Forest(h - Rooted(h, rank, tops), rank - Rooted(h, rank, tops))
    ensures Roots(h - Rooted(h, rank, tops)) == Roots(h) - tops
  {
    var h', rank' := h - Rooted(h, rank, tops), rank - Rooted(h, rank, tops);
    forall x | x in h'
      ensures ParentKnows(h', rank', x) && ChildrenKnow(h', x)
    {
      assert ParentKnows(h, rank, x) && ChildrenKnow(h, x);
      forall c | c in h[x].children
        ensures c in h'
      {
        assert ParentKnows(h, rank, c);
      }
    }
  }

  lemma RootedNext(h: Heap, rank: map<nat, nat>, tops: set<nat>, b: nat)
    requires Forest(h, rank) && b in Roots(h)
    ensures Rooted(h, rank, tops + {b}) == Rooted(h, rank, tops) + Tree(h, rank, b)
    ensures b !in tops ==> Rooted(h, rank, tops) !! Tree(h, rank, b)
  {
    forall x | x in h
      ensures Under(h, rank, x, b) <==> RootOf(h, rank, x) == b
    {
      RootIsTop(h, rank, x, b);
    }
  }

  /** A new block is as it was asked for; it comes first among its parent's children, and nothing else changes. */
  lemma AllocatedMeans(h: Heap, x: nat, tag: int, parent: Pointer, size: nat)
    requires x !in h && (parent.At? ==> parent.address in h)
    ensures var h' := Allocated(h, x, tag, parent, size);
      && h'.Keys == h.Keys + {x} && h'[x] == Block(tag, parent, [], size)
      && (forall y {:trigger h'[y]} :: y in h ==>
            && h'[y].tag == h[y].tag && h'[y].parent == h[y].parent && h'[y].size == h[y].size
            && h'[y].children == (if parent == At(y) then [x] else []) + h[y].children)
  {
  }

  /** A block that is linked comes first among the children of its new parent, and is gone from the old one's. */
  lemma LinkedMeans(h: Heap, c: nat, p: nat, y: nat)
    requires c in h && p in h && y in h && c != p
    requires h[c].parent.At? ==> h[c].parent.address in h
    ensures y in Linked(h, c, p)
    ensures Linked(h, c, p)[y].children ==
      (if y == p then [c] else []) + if h[c].parent == At(y) then Remove(h[y].children, c) else h[y].children
  {
    LinkedKeys(h, c, p);
  }

  /** Freeing by tag leaves exactly the blocks whose roots have another tag, just as they were. */
  lemma FreedByRoot(h: Heap, rank: map<nat, nat>, tag: int, x: nat)
    requires Forest(h, rank) && x in h
    ensures var left := h - Rooted(h, rank, Tagged(h, tag));
      x in left <==> tag != MEM_TAG_ALL && h[RootOf(h, rank, x)].tag != tag
  {
  }

  /** Freeing by tag goes by the tags of the roots: nothing with the tag is left just when every block with
      the tag lies in a tree whose root has it. */
  lemma TagIsOfRoots(h: Heap, rank: map<nat, nat>, tag: int)
    requires Forest(h, rank) && tag != MEM_TAG_ALL
    ensures var left := h - Rooted(h, rank, Tagged(h, tag));
      (forall x :: x in left ==> left[x].tag != tag) <==>
        forall x :: x in h && h[x].tag == tag ==> h[RootOf(h, rank, x)].tag == tag
  {
    var left := h - Rooted(h, rank, Tagged(h, tag));
    forall x | x in h
      ensures x in left <==> h[RootOf(h, rank, x)].tag != tag
    {
    }
  }

  /** A block with the tag, linked below one without it, survives. */
  lemma TagCanSurvive(tag: int, other: int)
    requires tag != other && tag != MEM_TAG_ALL
    ensures exists h: Heap, rank: map<nat, nat>, x: nat ::
      Forest(h, rank) && x in h && h[x].tag == tag && x in h - Rooted(h, rank, Tagged(h, tag))
  {
    var h: Heap := map[0 := Block(other, Null, [1], 0), 1 := Block(tag, At(0), [], 0)];
    var rank: map<nat, nat> := map[0 := 0, 1 := 1];
    assert ParentKnows(h, rank, 1) && ChildrenKnow(h, 0) && ChildrenKnow(h, 1);
    assert Forest(h, rank);
    assert RootOf(h, rank, 1) == 0;
    assert h[1].tag == tag && 1 in h - Rooted(h, rank, Tagged(h, tag));
  }

  /** With the tag that stands for all tags, nothing is left. */
  lemma AllTags(h: Heap, rank: map<nat, nat>)
    requires Forest(h, rank)
    ensures h - Rooted(h, rank, Tagged(h, MEM_TAG_ALL)) == map[]
    ensures Total(map[]) == 0
  {
  }

  lemma AllocatedTotal(h: Heap, x: nat, tag: int, parent: Pointer, size: nat)
    requires x !in h && (parent.At? ==> parent.address in h)
    ensures Total(Allocated(h, x, tag, parent, size)) == Total(h) + size
    ensures Roots(Allocated(h, x, tag, parent, size)) == Roots(h) + if parent.At? then {} else {x}
  {
    var h' := Allocated(h, x, tag, parent, size);
    TotalWithout(h', x);
    assert (h' - {x}).Keys == h.Keys;
    assert forall y :: y in h ==> h'[y].size == h[y].size && h'[y].parent == h[y].parent;
    hide Total, Allocated;
    TotalAgrees(h' - {x}, h);
  }

  lemma LinkedTotal(h: Heap, c: nat, p: nat)
    requires c in h && p in h && p != c && (h[c].parent.At? ==> h[c].parent.address in h)
    ensures Total(Linked(h, c, p)) == Total(h)
    ensures Roots(Linked(h, c, p)) == Roots(h) - {c}
  {
    LinkedKeys(h, c, p);
    hide Linked;
    TotalAgrees(Linked(h, c, p), h);
  }

  ghost function Roots(h: Heap): set<nat> { set x | x in h && h[x].parent == Null }

  lemma DetachKeeps(h: Heap, rank: map<nat, nat>, p: nat)
    requires Forest(h, rank) && p in h && (h[p].parent.At? ==> h[p].parent.address in h)
    ensures Intact(h, Detached(h, p), Tree(h, rank, p)) && Total(Detached(h, p)) == Total(h)
  {
    TotalAgrees(h, Detached(h, p));
    if h[p].parent.At? {
      assert ParentKnows(h, rank, p);
      if Under(h, rank, h[p].parent.address, p) { UnderRank(h, rank, h[p].parent.address, p); }
    }
  }

  lemma PrunedRoots(h: Heap, rank: map<nat, nat>, p: nat)
    requires Forest(h, rank) && p in h && (h[p].parent.At? ==> h[p].parent.address in h)
    ensures Roots(Pruned(h, rank, p)) == Roots(h) - {p}
  {
    forall x | x in Roots(h) && x != p
      ensures x !in Tree(h, rank, p)
    {
    }
    assert Under(h, rank, p, p);
  }
}
