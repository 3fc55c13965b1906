/** The rolling windows of board-call durations (gui/connection.py): a bounded deque and
    the two numbers shown of it. */
module Latency {
  import opened Sorting
  import opened Wrappers

  const WINDOW_SIZE: nat := 40

  function LastN<T>(s: seq<T>, n: nat): seq<T> {
    if |s| <= n then s else s[|s| - n..]
  }

  /** record_latency: deque(maxlen=40).append, with an unmeasured or negative value
      ignored. */
  function Record(window: seq<real>, seconds: Option<real>): seq<real> {
    if seconds.None? || seconds.value < 0.0 then window else LastN(window + [seconds.value], WINDOW_SIZE)
  }

  predicate ValidSample(seconds: Option<real>) { seconds.Some? && seconds.value >= 0.0 }

  function RecordAll(window: seq<real>, samples: seq<Option<real>>): seq<real> {
    if samples == [] then window
    else Record(RecordAll(window, samples[..|samples| - 1]), samples[|samples| - 1])
  }

  function ValidOnes(samples: seq<Option<real>>): seq<real> {
    if samples == [] then []
    else
      var last := samples[|samples| - 1];
      ValidOnes(samples[..|samples| - 1]) + if ValidSample(last) then [last.value] else []
  }

  /** The window is the last forty valid samples since it was cleared, in order. */
  lemma {:induction false} WindowIsTheLastForty(samples: seq<Option<real>>)
    ensures RecordAll([], samples) == LastN(ValidOnes(samples), WINDOW_SIZE)
  {
    if samples != [] {
      WindowIsTheLastForty(samples[..|samples| - 1]);
    }
  }

  /** The window is an end of the valid samples, not the beginning: of n of them it has the last
      forty, or all when there are no more, each at its place. */
  lemma {:induction false} WindowIsAtTheEnd(samples: seq<Option<real>>, i: nat)
    ensures var window, valid := RecordAll([], samples), ValidOnes(samples);
            && |window| == (if |valid| < 40 then |valid| else 40)
            && (i < |window| ==> window[i] == valid[|valid| - |window| + i])
  {
    WindowIsTheLastForty(samples);
  }

  /** One more sample goes to the end, unless it is missing or negative; zero is a sample. */
  lemma OneMoreSample(window: seq<real>, seconds: Option<real>)
    requires |window| <= 40
    ensures var longer := Record(window, seconds);
            if seconds.None? || seconds.value < 0.0 then longer == window
            else |longer| <= 40 && longer != [] && longer[|longer| - 1] == seconds.value
                 && (|window| < 40 ==> longer == window + [seconds.value])
                 && (|window| == 40 ==> longer == window[1..] + [seconds.value])
    ensures ValidOnes([seconds]) == if seconds.Some? && seconds.value >= 0.0 then [seconds.value] else []
  {
    assert [seconds][..0] == [];
    if ValidSample(seconds) {
      var longer := window + [seconds.value];
      assert longer[|longer| - 1] == seconds.value;
      assert |window| == 40 ==> longer[1..] == window[1..] + [seconds.value];
    }
  }

  // ---- The median ----

  function Itself(x: real): real { x }

  /** statistics.median. */
  function Median(s: seq<real>): real
    requires s != []
  {
    Middle(Sorted(s, Itself))
  }

  function Middle(sorted: seq<real>): real
    requires sorted != []
  {
    var n := |sorted|;
    if n % 2 == 1 then sorted[n / 2] else (sorted[n / 2 - 1] + sorted[n / 2]) / 2.0
  }

  function Max(s: seq<real>): real
    requires s != []
  {
    if |s| == 1 then s[0] else if s[0] >= Max(s[1..]) then s[0] else Max(s[1..])
  }

  /** latency_stats: nothing while the window is empty. */
  function Stats(window: seq<real>): Option<(real, real)> {
    if window == [] then None else Some((Median(window), Max(window)))
  }

  function AtMost(s: seq<real>, x: real): nat {
    if s == [] then 0 else AtMost(s[..|s| - 1], x) + if s[|s| - 1] <= x then 1 else 0
  }

  function AtLeast(s: seq<real>, x: real): nat {
    if s == [] then 0 else AtLeast(s[..|s| - 1], x) + if s[|s| - 1] >= x then 1 else 0
  }

  lemma {:induction false} InsertCounts(s: seq<real>, y: real, x: real)
    requires Ascending(s, Itself)
    ensures AtMost(Insert(s, y, Itself), x) == AtMost(s, x) + if y <= x then 1 else 0
    ensures AtLeast(Insert(s, y, Itself), x) == AtLeast(s, x) + if y >= x then 1 else 0
  {
    if s == [] || s[|s| - 1] <= y {
      assert (s + [y])[..|s|] == s;
    } else {
      var n := |s| - 1;
      InsertCounts(s[..n], y, x);
      assert (Insert(s[..n], y, Itself) + [s[n]])[..n + 1] == Insert(s[..n], y, Itself);
    }
  }

  /** Sorting rearranges: every bound has as many samples on each side as before. */
  lemma {:induction false} SortedCounts(s: seq<real>, x: real)
    ensures AtMost(Sorted(s, Itself), x) == AtMost(s, x) && AtLeast(Sorted(s, Itself), x) == AtLeast(s, x)
  {
    if s != [] {
      SortedCounts(s[..|s| - 1], x);
      InsertCounts(Sorted(s[..|s| - 1], Itself), s[|s| - 1], x);
    }
  }

  lemma {:induction false} SomeOnEachSide(s: seq<real>, x: real)
    ensures AtMost(s, x) > 0 ==> exists y :: y in s && y <= x
    ensures AtLeast(s, x) > 0 ==> exists y :: y in s && y >= x
  {
    if s != [] {
      var front := s[..|s| - 1];
      SomeOnEachSide(front, x);
      assert s[|s| - 1] in s;
      if AtMost(front, x) > 0 {
        var y :| y in front && y <= x;
        assert y in s;
      }
      if AtLeast(front, x) > 0 {
        var y :| y in front && y >= x;
        assert y in s;
      }
    }
  }

  lemma {:induction false} PrefixAtMost(s: seq<real>, k: nat, x: real)
    requires k <= |s| && forall i :: 0 <= i < k ==> s[i] <= x
    ensures AtMost(s, x) >= k
  {
    if s != [] {
      PrefixAtMost(s[..|s| - 1], if k == |s| then k - 1 else k, x);
    }
  }

  lemma {:induction false} SuffixAtLeast(s: seq<real>, k: nat, x: real)
    requires k <= |s| && forall i :: |s| - k <= i < |s| ==> s[i] >= x
    ensures AtLeast(s, x) >= k
  {
    if k > 0 {
      SuffixAtLeast(s[..|s| - 1], k - 1, x);
    }
  }

  lemma {:induction false} MaxIsTheGreatest(s: seq<real>)
    requires s != []
    ensures Max(s) in s && forall x :: x in s ==> x <= Max(s)
  {
    if |s| > 1 {
      MaxIsTheGreatest(s[1..]);
      assert s == [s[0]] + s[1..];
    }
  }

  lemma MiddleSplits(t: seq<real>)
    requires t != [] && Ascending(t, Itself)
    ensures forall i :: 0 <= i < (|t| + 1) / 2 ==> t[i] <= Middle(t)
    ensures forall i :: |t| - (|t| + 1) / 2 <= i < |t| ==> t[i] >= Middle(t)
  {
    var n := |t|;
    if n % 2 == 0 {
      assert t[n / 2 - 1] <= t[n / 2];
    }
  }

  /** The median is a true one: at least half the samples are on each side of it; and
      it lies between the least sample and the shown maximum. */
  lemma {:induction false} MedianSplitsTheWindow(s: seq<real>)
    requires s != []
    ensures 2 * AtMost(s, Median(s)) >= |s| && 2 * AtLeast(s, Median(s)) >= |s|
    ensures Median(s) <= Max(s) && Max(s) in s && (exists x :: x in s && x <= Median(s))
    ensures forall x :: x in s ==> x <= Max(s)
  {
    var t, m, half := Sorted(s, Itself), Median(s), (|s| + 1) / 2;
    SortedCounts(s, m);
    MiddleSplits(t);
    PrefixAtMost(t, half, m);
    SuffixAtLeast(t, half, m);
    SomeOnEachSide(s, m);
    MaxIsTheGreatest(s);
  }

  /** Which sample is the median: with the samples in order it is the middle one, or half the sum of
      the two in the middle. */
  lemma MedianIsTheMiddle(s: seq<real>)
    requires s != []
    ensures var t := Sorted(s, Itself);
            && |t| == |s| && (forall i, j :: 0 <= i < j < |t| ==> t[i] <= t[j])
            && 2.0 * Median(s) == t[(|s| - 1) / 2] + t[|s| / 2]
  {
    hide Sorted;
    TwiceTheMiddle(Sorted(s, Itself));
    assert Ascending(Sorted(s, Itself), Itself);
  }

  lemma TwiceTheMiddle(t: seq<real>)
    requires t != []
    ensures 2.0 * Middle(t) == t[(|t| - 1) / 2] + t[|t| / 2]
  {
    if |t| % 2 == 1 {
      assert (|t| - 1) / 2 == |t| / 2;
    } else {
      assert (|t| - 1) / 2 == |t| / 2 - 1;
    }
  }

  /** What is shown: nothing of an empty window, and else the median first and the maximum second. */
  lemma MedianThenMaximum(window: seq<real>)
    ensures Stats(window).None? <==> |window| == 0
    ensures |window| > 0 ==>
              var (shown, most) := Stats(window).value;
              && 2 * AtMost(window, shown) >= |window| && 2 * AtLeast(window, shown) >= |window|
              && shown == Median(window) && most in window && forall x :: x in window ==> x <= most
  {
    if window != [] {
      MedianSplitsTheWindow(window);
    }
  }
}
