/**
 * Series.median() with skipna: the middle of the sorted values, or the mean
 * of the two middle ones when their number is even.
 */
module Statistics {

  predicate Sorted(s: seq<real>)
  {
    forall i, j :: 0 <= i < j < |s| ==> s[i] <= s[j]
  }

  function Insert(x: real, s: seq<real>): (r: seq<real>)
    ensures |r| == |s| + 1
  {
    if s == [] || x <= s[0] then [x] + s else [s[0]] + Insert(x, s[1..])
  }

  function Sort(xs: seq<real>): (r: seq<real>)
    ensures |r| == |xs|
  {
    if xs == [] then [] else Insert(xs[0], Sort(xs[1..]))
  }

  lemma {:induction false} InsertKeepsOrder(x: real, s: seq<real>)
    requires Sorted(s)
    ensures Sorted(Insert(x, s))
    ensures multiset(Insert(x, s)) == multiset(s) + multiset{x}
  {
    if s == [] || x <= s[0] {
      assert Insert(x, s) == [x] + s;
    } else {
      var t := Insert(x, s[1..]);
      InsertKeepsOrder(x, s[1..]);
      assert Insert(x, s) == [s[0]] + t;
      assert s == [s[0]] + s[1..];
      forall k | 0 <= k < |t| ensures s[0] <= t[k] {
        assert t[k] in multiset(t);
        if t[k] != x {
          assert t[k] in multiset(s[1..]);
          var m :| 0 <= m < |s[1..]| && s[1..][m] == t[k];
          assert s[m + 1] == t[k];
        }
      }
    }
  }

  /** Sorting yields the same values, in ascending order. */
  lemma {:induction false} SortIsSortedPermutation(xs: seq<real>)
    ensures Sorted(Sort(xs))
    ensures multiset(Sort(xs)) == multiset(xs)
  {
    if xs != [] {
      SortIsSortedPermutation(xs[1..]);
      InsertKeepsOrder(xs[0], Sort(xs[1..]));
      assert xs == [xs[0]] + xs[1..];
    }
  }

  lemma SortedHeadsEqual(a: seq<real>, b: seq<real>)
    requires Sorted(a) && Sorted(b) && multiset(a) == multiset(b) && a != [] && b != []
    ensures a[0] == b[0]
  {
    assert a[0] in multiset(b);
    var j :| 0 <= j < |b| && b[j] == a[0];
    assert b[0] in multiset(a);
    var i :| 0 <= i < |a| && a[i] == b[0];
    assert a[0] <= a[i] && b[0] <= b[j];
  }

  lemma TailMultiset(a: seq<real>)
    requires a != []
    ensures multiset(a[1..]) == multiset(a) - multiset{a[0]}
  {
    assert a == [a[0]] + a[1..];
  }

  /** Two sorted sequences with the same values are equal. */
  lemma {:induction false} SortedPermutationsEqual(a: seq<real>, b: seq<real>)
    requires Sorted(a) && Sorted(b) && multiset(a) == multiset(b)
    ensures a == b
    decreases |a|
  {
    assert |a| == |multiset(a)| == |b|;
    if a != [] {
      SortedHeadsEqual(a, b);
      TailMultiset(a);
      TailMultiset(b);
      SortedPermutationsEqual(a[1..], b[1..]);
      assert a == [a[0]] + a[1..];
      assert b == [b[0]] + b[1..];
    }
  }

  /** pandas' median of the values of xs. */
  function Median(xs: seq<real>): real
    requires xs != []
  {
    var s := Sort(xs);
    var n := |s|;
    if n % 2 == 1 then s[n / 2] else (s[n / 2 - 1] + s[n / 2]) / 2.0
  }

  /** The smallest value. */
  function Min(xs: seq<real>): (m: real)
    requires xs != []
    ensures m in xs
    ensures forall i :: 0 <= i < |xs| ==> m <= xs[i]
  {
    if |xs| == 1 then xs[0]
    else
      var rest := Min(xs[1..]);
      if xs[0] <= rest then xs[0] else rest
  }

  /** The largest value. */
  function Max(xs: seq<real>): (m: real)
    requires xs != []
    ensures m in xs
    ensures forall i :: 0 <= i < |xs| ==> xs[i] <= m
  {
    if |xs| == 1 then xs[0]
    else
      var rest := Max(xs[1..]);
      if xs[0] >= rest then xs[0] else rest
  }

  /** The median lies between the smallest and the largest value. */
  lemma MedianWithinRange(xs: seq<real>)
    requires xs != []
    ensures Min(xs) <= Median(xs) <= Max(xs)
  {
    var s := Sort(xs);
    var n := |s|;
    SortIsSortedPermutation(xs);
    assert s[0] in multiset(xs) && s[n - 1] in multiset(xs);
    assert Min(xs) <= s[0] && s[n - 1] <= Max(xs);
    assert s[0] <= s[n / 2] <= s[n - 1];
    if n % 2 == 0 {
      assert s[0] <= s[n / 2 - 1] <= s[n - 1];
    }
  }

  /** The median does not depend on the order of the values. */
  lemma MedianIgnoresOrder(xs: seq<real>, ys: seq<real>)
    requires xs != [] && multiset(xs) == multiset(ys)
    ensures ys != [] && Median(xs) == Median(ys)
  {
    assert |xs| == |multiset(xs)| == |ys|;
    SortIsSortedPermutation(xs);
    SortIsSortedPermutation(ys);
    SortedPermutationsEqual(Sort(xs), Sort(ys));
  }
}
