/** Joining the lists a loop appends, one per element, into one list; and keeping some
    elements of a list. */
module Sequences {

  /** [x for x in s if keep(x)] */
  function Filter<T>(s: seq<T>, keep: T -> bool): (r: seq<T>)
    ensures |r| <= |s|
    ensures forall x :: x in r ==> x in s && keep(x)
    ensures forall x :: x in s && keep(x) ==> x in r
  {
    if s == [] then []
    else
      var n := |s| - 1;
      assert s == s[..n] + [s[n]];
      Filter(s[..n], keep) + if keep(s[n]) then [s[n]] else []
  }

  lemma {:induction false} FilterDropsIff<T>(s: seq<T>, keep: T -> bool)
    ensures |Filter(s, keep)| < |s| <==> exists x :: x in s && !keep(x)
    ensures Filter(s, keep) == s <==> forall x :: x in s ==> keep(x)
  {
    if s != [] {
      var n := |s| - 1;
      assert s == s[..n] + [s[n]];
      FilterDropsIff(s[..n], keep);
    }
  }

  function Flat<T>(parts: seq<seq<T>>): seq<T> {
    if parts == [] then [] else Flat(parts[..|parts| - 1]) + parts[|parts| - 1]
  }

  lemma FlatOfOneMore<T>(parts: seq<seq<T>>, n: nat)
    requires n < |parts|
    ensures Flat(parts[..n + 1]) == Flat(parts[..n]) + parts[n]
  {
    assert parts[..n + 1][..n] == parts[..n];
  }

  lemma {:induction false} PartOf<T>(parts: seq<seq<T>>, x: T) returns (i: nat)
    requires x in Flat(parts)
    ensures i < |parts| && x in parts[i]
  {
    var n := |parts| - 1;
    if x in parts[n] {
      i := n;
    } else {
      i := PartOf(parts[..n], x);
    }
  }

  lemma {:induction false} InFlat<T>(parts: seq<seq<T>>, i: nat, x: T)
    requires i < |parts| && x in parts[i]
    ensures x in Flat(parts)
  {
    var n := |parts| - 1;
    if i < n {
      InFlat(parts[..n], i, x);
    }
  }

  lemma {:induction false} FlatOfSingletons<T>(parts: seq<seq<T>>, xs: seq<T>)
    requires |parts| == |xs| && forall i :: 0 <= i < |xs| ==> parts[i] == [xs[i]]
    ensures Flat(parts) == xs
  {
    if xs != [] {
      var n := |xs| - 1;
      FlatOfSingletons(parts[..n], xs[..n]);
      assert xs == xs[..n] + [xs[n]];
    }
  }

  /** Two lists of parts that agree except where the second is longer have one joined
      list exactly when it is nowhere longer. */
  lemma {:induction false} FlatGrowsWithAPart<T>(a: seq<seq<T>>, b: seq<seq<T>>, longer: seq<bool>)
    requires |a| == |b| == |longer|
    requires forall i :: 0 <= i < |a| ==> if longer[i] then |b[i]| > |a[i]| else b[i] == a[i]
    ensures if exists i :: 0 <= i < |longer| && longer[i] then |Flat(b)| > |Flat(a)| else Flat(b) == Flat(a)
  {
    if a != [] {
      var n := |a| - 1;
      FlatGrowsWithAPart(a[..n], b[..n], longer[..n]);
      assert (exists i :: 0 <= i < |longer| && longer[i]) <==> longer[n] || exists i :: 0 <= i < n && longer[..n][i];
    }
  }
}
