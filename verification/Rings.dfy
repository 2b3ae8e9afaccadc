/** Arrays used as rings: a counter that only grows is reduced to a slot by the length of the array.  A
    window of the ring survives until the counter has run a whole lap past its start. */
module Rings {

  /** The slot of a count.  Masking a negative number in two's complement is the same remainder. */
  function Slot(k: int, lap: nat): (r: nat)
    requires lap > 0
    ensures r < lap
  {
    k % lap
  }

  function Window<T>(ring: seq<T>, first: nat, n: nat): (w: seq<T>)
    requires |ring| > 0
    ensures |w| == n
    ensures forall i {:trigger w[i]} :: 0 <= i < n ==> w[i] == ring[Slot(first + i, |ring|)]
  {
    seq(n, i requires 0 <= i < n => ring[Slot(first + i, |ring|)])
  }

  function Push<T>(ring: seq<T>, at: nat, x: T): (r: seq<T>)
    requires |ring| > 0
    ensures |r| == |ring|
  {
    ring[Slot(at, |ring|) := x]
  }

  function PushAll<T>(ring: seq<T>, at: nat, xs: seq<T>): (r: seq<T>)
    requires |ring| > 0
    ensures |r| == |ring|
    decreases |xs|
  {
    if xs == [] then ring else Push(PushAll(ring, at, xs[..|xs| - 1]), at + |xs| - 1, xs[|xs| - 1])
  }

  lemma Multiples(n: int, x: int)
    requires n > 0
    ensures x >= 1 ==> n * x >= n
    ensures x <= -1 ==> n * x <= -n
  {
  }

  lemma SlotUnique(b: nat, n: nat, q: int, r: nat)
    requires r < n && b == n * q + r
    ensures Slot(b, n) == r
  {
    var x := b / n - q;
    assert b == n * (b / n) + b % n;
    assert n * x == n * (b / n) - n * q;
    Multiples(n, x);
  }

  /** Two counts less than a lap apart fall into different slots. */
  lemma SlotsDiffer(a: nat, b: nat, n: nat)
    requires a < b < a + n
    ensures Slot(a, n) != Slot(b, n)
  {
    var q, r, d := a / n, a % n, b - a;
    assert a == n * q + r;
    if r + d < n {
      SlotUnique(b, n, q, r + d);
    } else {
      assert n * (q + 1) == n * q + n;
      SlotUnique(b, n, q + 1, r + d - n);
    }
  }

  lemma PushKeeps<T>(ring: seq<T>, first: nat, n: nat, at: nat, x: T)
    requires |ring| > 0 && first + n <= at < first + |ring|
    ensures Window(Push(ring, at, x), first, n) == Window(ring, first, n)
  {
    hide Slot;
    var v, w := Window(Push(ring, at, x), first, n), Window(ring, first, n);
    forall i | 0 <= i < n
      ensures v[i] == w[i]
    {
      SlotsDiffer(first + i, at, |ring|);
    }
  }

  lemma {:induction false} PushAllKeeps<T>(ring: seq<T>, first: nat, n: nat, at: nat, xs: seq<T>)
    requires |ring| > 0 && first + n <= at && at + |xs| <= first + |ring|
    ensures Window(PushAll(ring, at, xs), first, n) == Window(ring, first, n)
    decreases |xs|
  {
    if xs != [] {
      var m := |xs| - 1;
      PushAllKeeps(ring, first, n, at, xs[..m]);
      PushKeeps(PushAll(ring, at, xs[..m]), first, n, at + m, xs[m]);
    }
  }

  lemma {:induction false} PushAllWindow<T>(ring: seq<T>, at: nat, xs: seq<T>)
    requires 0 < |ring| && |xs| <= |ring|
    ensures Window(PushAll(ring, at, xs), at, |xs|) == xs
    decreases |xs|
  {
    if xs != [] {
      var m := |xs| - 1;
      PushAllWindow(ring, at, xs[..m]);
      PushKeeps(PushAll(ring, at, xs[..m]), at, m, at + m, xs[m]);
      var w, v := Window(PushAll(ring, at, xs), at, m + 1), Window(PushAll(ring, at, xs), at, m);
      assert forall i :: 0 <= i < m ==> w[i] == v[i];
    }
  }

  lemma {:induction false} PushAllAppend<T>(ring: seq<T>, at: nat, xs: seq<T>, ys: seq<T>)
    requires |ring| > 0
    ensures PushAll(ring, at, xs + ys) == PushAll(PushAll(ring, at, xs), at + |xs|, ys)
    decreases |ys|
  {
    if ys == [] {
      assert xs + ys == xs;
    } else {
      var m := |ys| - 1;
      PushAllAppend(ring, at, xs, ys[..m]);
      assert (xs + ys)[..|xs + ys| - 1] == xs + ys[..m];
    }
  }
}
