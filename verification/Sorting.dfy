/** Sorting a sequence by a rank, stable, by insertion from the left. */
module Sorting {

  predicate Ascending<T>(s: seq<T>, rank: T -> real) { forall i, j :: 0 <= i < j < |s| ==> rank(s[i]) <= rank(s[j]) }

  function Insert<T>(s: seq<T>, x: T, rank: T -> real): (r: seq<T>)
    requires Ascending(s, rank)
    ensures Ascending(r, rank) && |r| == |s| + 1
    ensures r[|s|] == if s == [] || rank(s[|s| - 1]) <= rank(x) then x else s[|s| - 1]
  {
    if s == [] || rank(s[|s| - 1]) <= rank(x) then s + [x]
    else Insert(s[..|s| - 1], x, rank) + [s[|s| - 1]]
  }

  function Sorted<T>(s: seq<T>, rank: T -> real): (r: seq<T>)
    ensures Ascending(r, rank) && |r| == |s|
  {
    if s == [] then [] else Insert(Sorted(s[..|s| - 1], rank), s[|s| - 1], rank)
  }
}
