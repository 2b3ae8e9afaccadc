/** Circular doubly linked lists threaded through the things they hold (src/server/sv_world.c).  A link is an
    index into the two arrays; the first `heads` links are list heads, and a link in no list has no
    predecessor. */
module AreaLinks {
  import opened Sequences

  const NULL := -1

  /** The links of a list in order, its head first and, once around, last. */
  function Nth(h: int, list: seq<int>, i: int): (l: int)
    requires 0 <= i <= |list| + 1
    ensures l == h || l in list
  {
    if 0 < i <= |list| then list[i - 1] else h
  }

  ghost predicate IsRing(prev: seq<int>, next: seq<int>, h: int, list: seq<int>)
  {
    && |prev| == |next| && 0 <= h < |next| && (forall x :: x in list ==> 0 <= x < |next|)
    && forall i {:trigger Nth(h, list, i)} :: 0 <= i <= |list| ==>
         next[Nth(h, list, i)] == Nth(h, list, i + 1) && prev[Nth(h, list, i + 1)] == Nth(h, list, i)
  }

  /** A ring is untouched by changes elsewhere. */
  lemma RingStays(prev: seq<int>, next: seq<int>, prev': seq<int>, next': seq<int>, h: int, list: seq<int>)
    requires IsRing(prev, next, h, list) && |prev'| == |next'| == |next|
    requires prev'[h] == prev[h] && next'[h] == next[h]
    requires forall x {:trigger x in list} :: x in list ==> prev'[x] == prev[x] && next'[x] == next[x]
    ensures IsRing(prev', next', h, list)
  {
    forall i | 0 <= i <= |list|
      ensures next'[Nth(h, list, i)] == Nth(h, list, i + 1) && prev'[Nth(h, list, i + 1)] == Nth(h, list, i)
    {
      assert Nth(h, list, i) == h || Nth(h, list, i) in list;
      assert Nth(h, list, i + 1) == h || Nth(h, list, i + 1) in list;
    }
  }

  /** A link inserted before the head comes last. */
  lemma RingGrows(prev: seq<int>, next: seq<int>, h: int, list: seq<int>, l: int)
    requires IsRing(prev, next, h, list) && Distinct(list) && h !in list && l !in list && l != h && 0 <= l < |next|
    ensures 0 <= prev[h] < |next| && (prev[h] == h || prev[h] in list)
    ensures IsRing(prev[l := prev[h]][h := l], next[l := h][prev[h] := l], h, list + [l])
  {
    var tail := prev[h];
    var n := |list|;
    assert Nth(h, list, n + 1) == h && tail == Nth(h, list, n);
    var prev', next' := prev[l := tail][h := l], next[l := h][tail := l];
    forall i | 0 <= i <= n + 1
      ensures next'[Nth(h, list + [l], i)] == Nth(h, list + [l], i + 1)
      ensures prev'[Nth(h, list + [l], i + 1)] == Nth(h, list + [l], i)
    {
      if i < n {
        assert Nth(h, list + [l], i) == Nth(h, list, i) && Nth(h, list + [l], i + 1) == Nth(h, list, i + 1);
      }
    }
  }

  /** A link taken out leaves the others in order. */
  lemma RingShrinks(prev: seq<int>, next: seq<int>, h: int, list: seq<int>, k: nat)
    requires IsRing(prev, next, h, list) && Distinct(list) && h !in list && k < |list| && 0 <= list[k] < |next|
    ensures var l := list[k];
      && 0 <= prev[l] < |next| && 0 <= next[l] < |next| && (prev[l] == h || prev[l] in list)
      && (next[l] == h || next[l] in list)
      && prev[next[l]] == l
      && IsRing(prev[next[l] := prev[l]], next[prev[l] := next[l]], h, list[..k] + list[k + 1..])
  {
    var l, rest := list[k], list[..k] + list[k + 1..];
    assert l in list;
    Without(list, k);
    assert Nth(h, list, k + 1) == l;
    var before, after := Nth(h, list, k), Nth(h, list, k + 2);
    assert prev[l] == before && next[l] == after;
    var prev', next' := prev[after := before], next[before := after];
    forall i | 0 <= i <= |rest|
      ensures next'[Nth(h, rest, i)] == Nth(h, rest, i + 1) && prev'[Nth(h, rest, i + 1)] == Nth(h, rest, i)
    {
      NthWithout(h, list, k, i);
      NthWithout(h, list, k, i + 1);
      if i != k {
        var j := if i < k then i else i + 1;
        assert next[Nth(h, list, j)] == Nth(h, list, j + 1) && prev[Nth(h, list, j + 1)] == Nth(h, list, j);
        NthDistinct(h, list, j, k);
        NthDistinct(h, list, j + 1, k + 2);
      }
    }
  }

  lemma Without(list: seq<int>, k: nat)
    requires Distinct(list) && k < |list|
    ensures var rest := list[..k] + list[k + 1..];
      Distinct(rest) && forall x :: x in rest <==> x in list && x != list[k]
  {
    var rest := list[..k] + list[k + 1..];
    forall x | x in list && x != list[k]
      ensures x in rest
    {
      var i :| 0 <= i < |list| && list[i] == x;
      assert rest[if i < k then i else i - 1] == x;
    }
    forall i, j | 0 <= i < j < |rest|
      ensures rest[i] != rest[j]
    {
      assert rest[i] == list[if i < k then i else i + 1] && rest[j] == list[if j < k then j else j + 1];
    }
    forall x | x in rest
      ensures x in list && x != list[k]
    {
      var i :| 0 <= i < |rest| && rest[i] == x;
      assert x == list[if i < k then i else i + 1];
    }
  }

  lemma NthWithout(h: int, list: seq<int>, k: nat, i: nat)
    requires k < |list| && i <= |list|
    ensures Nth(h, list[..k] + list[k + 1..], i) == Nth(h, list, if i <= k then i else i + 1)
  {
  }

  lemma NthDistinct(h: int, list: seq<int>, i: nat, j: nat)
    requires Distinct(list) && h !in list && i <= |list| + 1 && j <= |list| + 1
    ensures Nth(h, list, i) == Nth(h, list, j) <==> i == j || (i in {0, |list| + 1} && j in {0, |list| + 1})
  {
  }

  lemma {:induction false} RemoveAt(list: seq<int>, k: nat)
    requires Distinct(list) && k < |list|
    ensures Remove(list, list[k]) == list[..k] + list[k + 1..]
  {
    if k > 0 {
      assert list[1..][k - 1] == list[k];
      RemoveAt(list[1..], k - 1);
      assert list[..k] + list[k + 1..] == [list[0]] + (list[1..][..k - 1] + list[1..][k..]);
    }
  }

  ghost predicate RingsOk(prev: seq<int>, next: seq<int>, lists: seq<seq<int>>)
  {
    && |prev| == |next| && |lists| <= |prev|
    && forall h {:trigger lists[h]} :: 0 <= h < |lists| ==>
         if prev[h] == NULL then lists[h] == [] else IsRing(prev, next, h, lists[h]) && Distinct(lists[h])
  }

  /** List `h` holds just the links whose home is `h`; a link in no list has no predecessor. */
  ghost predicate Housed(prev: seq<int>, lists: seq<seq<int>>, home: seq<int>)
  {
    && |prev| == |home|
    && (forall h, x {:trigger x in lists[h]} :: 0 <= h < |lists| && x in lists[h] ==>
         |lists| <= x < |home| && home[x] == h)
    && (forall x {:trigger home[x]} :: |lists| <= x < |home| ==>
          && (home[x] == NULL <==> prev[x] == NULL)
          && (home[x] != NULL ==> 0 <= home[x] < |lists| && x in lists[home[x]]))
  }

  /** All the lists, those of heads not yet cleared being empty. */
  ghost predicate ListsOk(prev: seq<int>, next: seq<int>, heads: nat, lists: seq<seq<int>>, home: seq<int>)
  {
    |lists| == heads && RingsOk(prev, next, lists) && Housed(prev, lists, home)
  }

  lemma ListsGrow(prev: seq<int>, next: seq<int>, heads: nat, lists: seq<seq<int>>, home: seq<int>, l: int, h: int)
    requires ListsOk(prev, next, heads, lists, home)
    requires heads <= l < |home| && home[l] == NULL && 0 <= h < heads && prev[h] != NULL
    ensures 0 <= prev[h] < |next|
    ensures ListsOk(prev[l := prev[h]][h := l], next[l := h][prev[h] := l], heads, lists[h := lists[h] + [l]],
      home[l := h])
  {
    RingGrows(prev, next, h, lists[h], l);
    var prev', next', lists', home' :=
      prev[l := prev[h]][h := l], next[l := h][prev[h] := l], lists[h := lists[h] + [l]], home[l := h];
    assert forall x :: x in lists'[h] <==> x in lists[h] || x == l;
    forall g | 0 <= g < heads && g != h && prev[g] != NULL
      ensures IsRing(prev', next', g, lists[g])
    {
      RingStays(prev, next, prev', next', g, lists[g]);
    }
    DistinctGrows(lists[h], l);
  }

  lemma DistinctGrows(list: seq<int>, l: int)
    requires Distinct(list) && l !in list
    ensures Distinct(list + [l])
  {
  }

  lemma ListsShrink(prev: seq<int>, next: seq<int>, heads: nat, lists: seq<seq<int>>, home: seq<int>, l: int)
    requires ListsOk(prev, next, heads, lists, home) && heads <= l < |home| && home[l] != NULL
    ensures 0 <= prev[l] < |next| && 0 <= next[l] < |next| && 0 <= home[l] < heads && prev[next[l]] == l
    ensures ListsOk(prev[next[l] := prev[l]][l := NULL], next[prev[l] := next[l]][l := NULL], heads,
                    lists[home[l] := Remove(lists[home[l]], l)], home[l := NULL])
  {
    hide IsRing, Distinct;
    var h := home[l];
    assert prev[h] != NULL;
    var k :| 0 <= k < |lists[h]| && lists[h][k] == l;
    RingShrinks(prev, next, h, lists[h], k);
    RemoveAt(lists[h], k);
    RingsShrink(prev, next, lists, home, l, h, k);
    HousedShrink(prev, next, lists, home, l, h, k);
  }

  lemma RingsShrink(prev: seq<int>, next: seq<int>, lists: seq<seq<int>>, home: seq<int>, l: int, h: nat, k: nat)
    requires RingsOk(prev, next, lists) && Housed(prev, lists, home) && h < |lists| && prev[h] != NULL && k < |lists[h]|
    requires lists[h][k] == l
    requires |lists| <= l < |prev| && 0 <= prev[l] < |next| && 0 <= next[l] < |next| && prev[next[l]] == l
    requires (prev[l] == h || prev[l] in lists[h]) && (next[l] == h || next[l] in lists[h])
    requires IsRing(prev[next[l] := prev[l]], next[prev[l] := next[l]], h, lists[h][..k] + lists[h][k + 1..])
    ensures RingsOk(prev[next[l] := prev[l]][l := NULL], next[prev[l] := next[l]][l := NULL],
      lists[h := lists[h][..k] + lists[h][k + 1..]])
  {
    hide IsRing;
    Without(lists[h], k);
    hide Distinct;
    var rest := lists[h][..k] + lists[h][k + 1..];
    var prev1, next1 := prev[next[l] := prev[l]], next[prev[l] := next[l]];
    var prev', next' := prev1[l := NULL], next1[l := NULL];
    RingStays(prev1, next1, prev', next', h, rest);
    forall g | 0 <= g < |lists| && g != h && prev[g] != NULL
      ensures IsRing(prev', next', g, lists[g])
    {
      assert l in lists[h];
      assert forall x :: x in lists[g] ==> |lists| <= x < |prev| && home[x] == g;
      assert forall x :: x in lists[h] ==> |lists| <= x < |prev| && home[x] == h;
      RingStays(prev, next, prev', next', g, lists[g]);
    }
  }

  lemma HousedShrink(prev: seq<int>, next: seq<int>, lists: seq<seq<int>>, home: seq<int>, l: int, h: nat, k: nat)
    requires Housed(prev, lists, home) && h < |lists| <= |prev| && k < |lists[h]| && lists[h][k] == l
    requires Distinct(lists[h])
    requires |lists| <= l < |prev| == |next| && home[l] == h
    requires 0 <= prev[l] < |next| && 0 <= next[l] < |next| && (next[l] == h || next[l] in lists[h])
    ensures Housed(prev[next[l] := prev[l]][l := NULL], lists[h := lists[h][..k] + lists[h][k + 1..]], home[l := NULL])
  {
    Without(lists[h], k);
    hide Distinct;
  }

  class Links {
    const heads: nat
    const prev: array<int>
    const next: array<int>
    ghost var lists: seq<seq<int>>
    ghost var home: seq<int>

    ghost predicate Valid()
      reads this, prev, next
    {
      prev != next && prev.Length == next.Length && ListsOk(prev[..], next[..], heads, lists, home)
    }

    ghost predicate Cleared(h: int)
      reads this, prev
    {
      0 <= h < heads && h < prev.Length && prev[h] != NULL
    }

    constructor (heads: nat, size: nat)
      requires heads <= size
      ensures Valid() && this.heads == heads && prev.Length == size && fresh(prev) && fresh(next)
      ensures lists == seq(heads, _ => []) && home == seq(size, _ => NULL)
      ensures forall h :: 0 <= h < size ==> prev[h] == NULL
    {
      this.heads := heads;
      prev := new int[size](_ => NULL);
      next := new int[size](_ => NULL);
      lists, home := seq(heads, _ => []), seq(size, _ => NULL);
    }

    method ClearLink(h: int)
      requires Valid() && 0 <= h < heads && prev[h] == NULL
      modifies prev, next
      ensures Valid() && prev[..] == old(prev[..])[h := h]
    {
      ghost var was, was' := prev[..], next[..];
      prev[h], next[h] := h, h;
      forall g | 0 <= g < heads && g != h && was[g] != NULL
        ensures IsRing(prev[..], next[..], g, lists[g])
      {
        RingStays(was, was', prev[..], next[..], g, lists[g]);
      }
      assert IsRing(prev[..], next[..], h, []);
    }

    method InsertLink(l: int, before: int)
      requires Valid() && heads <= l < prev.Length && home[l] == NULL && Cleared(before)
      modifies this`lists, this`home, prev, next
      ensures Valid() && lists == old(lists)[before := old(lists[before]) + [l]] && home == old(home)[l := before]
      ensures forall h :: 0 <= h < heads ==> (prev[h] == NULL <==> old(prev[h]) == NULL)
    {
      hide ListsOk;
      Sizes(prev[..], next[..], heads, lists, home);
      ListsGrow(prev[..], next[..], heads, lists, home, l, before);
      next[l] := before;
      prev[l] := prev[before];
      next[prev[l]] := l;
      prev[before] := l;
      lists, home := lists[before := lists[before] + [l]], home[l := before];
      assert prev[..] == old(prev[..])[l := old(prev[before])][before := l];
      assert next[..] == old(next[..])[l := before][old(prev[before]) := l];
    }

    /** Takes a link out of its list, if it is in one. */
    method Unlink(l: int)
      requires Valid() && heads <= l < prev.Length
      modifies this`lists, this`home, prev, next
      ensures Valid() && home == old(home)[l := NULL]
      ensures lists ==
        if old(home[l]) == NULL then old(lists) else old(lists)[old(home[l]) := Remove(old(lists)[old(home[l])], l)]
      ensures forall h :: 0 <= h < heads ==> (prev[h] == NULL <==> old(prev[h]) == NULL)
    {
      hide ListsOk;
      Sizes(prev[..], next[..], heads, lists, home);
      assert prev[..][l] == prev[l];
      if prev[l] == NULL {
        return;
      }
      ListsShrink(prev[..], next[..], heads, lists, home, l);
      prev[next[l]] := prev[l];
      next[prev[l]] := next[l];
      prev[l], next[l] := NULL, NULL;
      lists, home := lists[home[l] := Remove(lists[home[l]], l)], home[l := NULL];
      assert prev[..] == old(prev[..])[old(next[l]) := old(prev[l])][l := NULL];
      assert next[..] == old(next[..])[old(prev[l]) := old(next[l])][l := NULL];
    }
  }

  lemma Sizes(prev: seq<int>, next: seq<int>, heads: nat, lists: seq<seq<int>>, home: seq<int>)
    requires ListsOk(prev, next, heads, lists, home)
    ensures |prev| == |next| == |home| && heads <= |prev| && |lists| == heads
    ensures forall x {:trigger home[x]} :: heads <= x < |home| ==> (home[x] == NULL <==> prev[x] == NULL)
  {
  }
}
