/** Sequences, and optional values, as several parts of the program use them. */
module Sequences {

  datatype Option<+T> = None | Some(value: T)

  function Flat<T>(pieces: seq<seq<T>>): seq<T>
  {
    if pieces == [] then [] else Flat(pieces[..|pieces| - 1]) + pieces[|pieces| - 1]
  }

  /** The first `n` elements, or all of them. */
  function Upto<T>(s: seq<T>, n: nat): seq<T> { if |s| <= n then s else s[..n] }

  lemma UptoOn<T>(s: seq<T>, x: seq<T>, n: nat)
    ensures Upto(Upto(s, n) + x, n) == Upto(s + x, n)
  {
  }

  ghost predicate Distinct<T>(list: seq<T>)
  {
    forall i, j {:trigger list[i], list[j]} :: 0 <= i < j < |list| ==> list[i] != list[j]
  }

  /** Without repetitions there are as many elements as places. */
  lemma {:induction false} DistinctSize<T>(list: seq<T>)
    requires Distinct(list)
    ensures |set x | x in list| == |list|
  {
    if list != [] {
      var n := |list| - 1;
      DistinctSize(list[..n]);
      assert list == list[..n] + [list[n]];
      assert (set x | x in list) == (set x | x in list[..n]) + {list[n]};
    }
  }

  function Remove<T(==)>(list: seq<T>, x: T): (r: seq<T>)
    ensures x !in list ==> r == list
    ensures forall y :: y in r ==> y in list
    ensures forall y :: y in list && y != x ==> y in r
  {
    if list == [] then [] else if list[0] == x then list[1..] else [list[0]] + Remove(list[1..], x)
  }
}
