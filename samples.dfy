/**
 * Elementary operations on a sample of real numbers: its sum, its smallest
 * and largest element, and an ascending sort. These are the meanings of the
 * numpy reductions the statistics are built from, stated over exact reals.
 */
module Samples {

  /** The sum of a sample, accumulated from the back. */
  function Sum(s: seq<real>): real
  {
    if s == [] then 0.0 else Sum(s[..|s| - 1]) + s[|s| - 1]
  }

  lemma {:induction false} SumConcat(a: seq<real>, b: seq<real>)
    ensures Sum(a + b) == Sum(a) + Sum(b)
  {
    if b == [] {
      assert a + b == a;
    } else {
      assert (a + b)[..|a + b| - 1] == a + b[..|b| - 1];
      SumConcat(a, b[..|b| - 1]);
    }
  }

  /** Removing position j from s leaves a sample whose multiset lacks one copy of s[j]. */
  lemma RemoveAt(s: seq<real>, j: nat)
    requires j < |s|
    ensures s == s[..j] + [s[j]] + s[j + 1..]
    ensures multiset(s[..j] + s[j + 1..]) == multiset(s) - multiset{s[j]}
  {
    assert s == s[..j] + [s[j]] + s[j + 1..];
  }

  /** Matching the last element of s at position j of t leaves equal multisets behind. */
  lemma RemoveMatching(s: seq<real>, t: seq<real>, j: nat)
    requires |s| > 0 && multiset(s) == multiset(t) && j < |t| && t[j] == s[|s| - 1]
    ensures multiset(s[..|s| - 1]) == multiset(t[..j] + t[j + 1..])
  {
    var x := s[|s| - 1];
    assert s == s[..|s| - 1] + [x];
    assert multiset(s[..|s| - 1]) == multiset(s) - multiset{x};
    RemoveAt(t, j);
  }

  /** Taking position j out of t lowers the sum by exactly t[j]. */
  lemma SumRemoveAt(t: seq<real>, j: nat)
    requires j < |t|
    ensures Sum(t) == Sum(t[..j] + t[j + 1..]) + t[j]
  {
    var a, x, b := t[..j], t[j], t[j + 1..];
    assert t == (a + [x]) + b;
    assert Sum(t) == Sum(a + [x]) + Sum(b) by {
      SumConcat(a + [x], b);
    }
    assert Sum(a + [x]) == Sum(a) + x by {
      assert (a + [x])[..|a + [x]| - 1] == a;
    }
    assert Sum(a + b) == Sum(a) + Sum(b) by {
      SumConcat(a, b);
    }
  }

  /** The sum does not depend on the order of the elements. */
  lemma {:induction false} SumPermutation(s: seq<real>, t: seq<real>)
    requires multiset(s) == multiset(t)
    ensures Sum(s) == Sum(t)
  {
    if s == [] {
      assert |t| == |multiset(t)| == 0;
    } else {
      var x := s[|s| - 1];
      assert x in multiset(t);
      var j :| 0 <= j < |t| && t[j] == x;
      RemoveMatching(s, t, j);
      SumPermutation(s[..|s| - 1], t[..j] + t[j + 1..]);
      SumRemoveAt(t, j);
    }
  }

  /** The smallest element of a non-empty sample. */
  function Min(s: seq<real>): (m: real)
    requires |s| > 0
    ensures m in s
    ensures forall i :: 0 <= i < |s| ==> m <= s[i]
  {
    if |s| == 1 then s[0]
    else
      var m := Min(s[..|s| - 1]);
      if s[|s| - 1] < m then s[|s| - 1] else m
  }

  /** The largest element of a non-empty sample. */
  function Max(s: seq<real>): (m: real)
    requires |s| > 0
    ensures m in s
    ensures forall i :: 0 <= i < |s| ==> s[i] <= m
  {
    if |s| == 1 then s[0]
    else
      var m := Max(s[..|s| - 1]);
      if m < s[|s| - 1] then s[|s| - 1] else m
  }

  /** Min and Max depend only on which values occur, not on their order. */
  lemma MinMaxPermutation(s: seq<real>, t: seq<real>)
    requires |s| > 0 && multiset(s) == multiset(t)
    ensures |t| > 0 && Min(s) == Min(t) && Max(s) == Max(t)
  {
    assert |t| == |multiset(t)| == |multiset(s)| == |s|;
    forall x | x in s ensures x in t {
      assert x in multiset(s);
    }
    forall x | x in t ensures x in s {
      assert x in multiset(t);
    }
  }

  /** A lower bound on every element bounds the sum from below. */
  lemma {:induction false} SumAtLeast(s: seq<real>, b: real)
    requires forall i :: 0 <= i < |s| ==> b <= s[i]
    ensures (|s| as real) * b <= Sum(s)
  {
    if s != [] {
      var init := s[..|s| - 1];
      SumAtLeast(init, b);
      LinearStep(|init| as real, b);
    }
  }

  /** An upper bound on every element bounds the sum from above. */
  lemma {:induction false} SumAtMost(s: seq<real>, b: real)
    requires forall i :: 0 <= i < |s| ==> s[i] <= b
    ensures Sum(s) <= (|s| as real) * b
  {
    if s != [] {
      var init := s[..|s| - 1];
      SumAtMost(init, b);
      LinearStep(|init| as real, b);
    }
  }

  lemma LinearStep(n: real, x: real)
    ensures (n + 1.0) * x == n * x + x
  {
  }

  predicate Ascending(s: seq<real>)
  {
    forall i, j :: 0 <= i < j < |s| ==> s[i] <= s[j]
  }

  /** Places x in front of the first element that is not smaller. */
  function Insert(x: real, s: seq<real>): (r: seq<real>)
    requires Ascending(s)
    ensures Ascending(r)
    ensures multiset(r) == multiset(s) + multiset{x}
  {
    if s == [] then [x]
    else if x <= s[0] then [x] + s
    else
      var t := Insert(x, s[1..]);
      assert s == [s[0]] + s[1..];
      InsertAbove(x, s, t);
      ConsAscending(s[0], t);
      [s[0]] + t
  }

  /** Inserting x above s[0] into the tail leaves every element at least s[0]. */
  lemma InsertAbove(x: real, s: seq<real>, t: seq<real>)
    requires |s| > 0 && Ascending(s) && s[0] < x
    requires multiset(t) == multiset(s[1..]) + multiset{x}
    ensures forall i :: 0 <= i < |t| ==> s[0] <= t[i]
  {
    forall i | 0 <= i < |t| ensures s[0] <= t[i] {
      assert t[i] in multiset(t);
      if t[i] != x {
        assert t[i] in s[1..];
        var j :| 0 <= j < |s[1..]| && s[1..][j] == t[i];
        assert s[j + 1] == t[i];
      }
    }
  }

  /** A value no larger than any element of an ascending sequence can go in front. */
  lemma ConsAscending(y: real, t: seq<real>)
    requires Ascending(t)
    requires forall i :: 0 <= i < |t| ==> y <= t[i]
    ensures Ascending([y] + t)
  {
    var r := [y] + t;
    forall i, j | 0 <= i < j < |r| ensures r[i] <= r[j] {
      assert r[j] == t[j - 1];
      if i > 0 { assert r[i] == t[i - 1]; }
    }
  }

  /** The ascending arrangement of a sample (the order np.median uses). */
  function Sort(s: seq<real>): (r: seq<real>)
    ensures Ascending(r)
    ensures multiset(r) == multiset(s)
    ensures |r| == |s|
  {
    if s == [] then []
    else
      assert s == s[..|s| - 1] + [s[|s| - 1]];
      var r := Insert(s[|s| - 1], Sort(s[..|s| - 1]));
      assert |r| == |multiset(r)| == |multiset(s)| == |s|;
      r
  }

  /** There is only one ascending arrangement of a multiset of values. */
  lemma {:induction false} AscendingUnique(a: seq<real>, b: seq<real>)
    requires Ascending(a) && Ascending(b) && multiset(a) == multiset(b)
    ensures a == b
  {
    assert |a| == |multiset(a)| == |multiset(b)| == |b|;
    if a != [] {
      LeastFirst(a, b);
      LeastFirst(b, a);
      TailMultiset(a);
      TailMultiset(b);
      AscendingUnique(a[1..], b[1..]);
      assert a == [a[0]] + a[1..] && b == [b[0]] + b[1..];
    }
  }

  /** The first element of an ascending sequence is no larger than any value of the same multiset. */
  lemma LeastFirst(a: seq<real>, b: seq<real>)
    requires |a| > 0 && Ascending(b) && multiset(a) == multiset(b)
    ensures |b| > 0 && b[0] <= a[0]
  {
    assert a[0] in multiset(b);
    var j :| 0 <= j < |b| && b[j] == a[0];
    if j > 0 {
      assert b[0] <= b[j];
    }
  }

  lemma TailMultiset(a: seq<real>)
    requires |a| > 0
    ensures multiset(a[1..]) == multiset(a) - multiset{a[0]}
    ensures Ascending(a) ==> Ascending(a[1..])
  {
    assert a == [a[0]] + a[1..];
  }

  /** Every element of the sorted sample is an element of the sample. */
  lemma SortedElement(s: seq<real>, i: nat)
    requires i < |s|
    ensures Sort(s)[i] in s
  {
    assert Sort(s)[i] in multiset(Sort(s));
  }
}
