/**
 * The summarizer: mean, median and the histogram-peak "mode" estimate of the
 * combined sample, as np.mean, np.median, np.histogram(bins=100) and
 * np.argmax compute them, stated over exact reals.
 */
module Summarizer {
  import opened Samples

  /** The number of histogram bins the estimate uses. */
  const Bins: nat := 100

  datatype Error = EmptySample

  datatype Result<T> = Ok(value: T) | Err(error: Error)

  /** Arithmetic mean: the value that, taken |s| times, gives the sum. */
  function Mean(s: seq<real>): (m: real)
    requires |s| > 0
    ensures m * (|s| as real) == Sum(s)
  {
    Sum(s) / (|s| as real)
  }

  /** The mean never leaves the range of the sample. */
  lemma MeanWithin(s: seq<real>)
    requires |s| > 0
    ensures Min(s) <= Mean(s) <= Max(s)
  {
    MeanAtLeast(s, Min(s));
    MeanAtMost(s, Max(s));
  }

  lemma MeanAtLeast(s: seq<real>, b: real)
    requires |s| > 0 && forall i :: 0 <= i < |s| ==> b <= s[i]
    ensures b <= Mean(s)
  {
    var n, m := |s| as real, Mean(s);
    assert n * b <= m * n by {
      SumAtLeast(s, b);
    }
    ScaleCancel(b, m, n);
  }

  lemma MeanAtMost(s: seq<real>, b: real)
    requires |s| > 0 && forall i :: 0 <= i < |s| ==> s[i] <= b
    ensures Mean(s) <= b
  {
    var n, m := |s| as real, Mean(s);
    assert m * n <= n * b by {
      SumAtMost(s, b);
    }
    ScaleCancel(m, b, n);
  }

  lemma ScaleCancel(a: real, b: real, w: real)
    requires w > 0.0 && a * w <= b * w
    ensures a <= b
  {
  }

  /** Means of parts whose totals add up combine as a size-weighted sum. */
  lemma MeanOfParts(c: seq<real>, a: seq<real>, b: seq<real>)
    requires |a| > 0 && |b| > 0 && |c| == |a| + |b| && Sum(c) == Sum(a) + Sum(b)
    ensures Mean(c) * (|c| as real) == Mean(a) * (|a| as real) + Mean(b) * (|b| as real)
  {
  }

  lemma MeanPermutation(s: seq<real>, t: seq<real>)
    requires |s| > 0 && multiset(s) == multiset(t)
    ensures |t| == |s| && Mean(s) == Mean(t)
  {
    assert |t| == |multiset(t)| == |multiset(s)| == |s|;
    SumPermutation(s, t);
  }

  /**
   * Middle element of the sorted sample for odd length, the average of the
   * two middle elements for even length.
   */
  function Median(s: seq<real>): (m: real)
    requires |s| > 0
    ensures Min(s) <= m <= Max(s)
  {
    SortedElement(s, |s| / 2);
    SortedElement(s, (|s| - 1) / 2);
    MiddleOf(Sort(s))
  }

  /** The middle element of a sorted sample, or the mean of the two middle ones. */
  function MiddleOf(t: seq<real>): (m: real)
    requires |t| > 0
    ensures var n := |t|;
      (t[(n - 1) / 2] <= m <= t[n / 2]) || (t[n / 2] <= m <= t[(n - 1) / 2])
  {
    var n := |t|;
    if n % 2 == 1 then t[n / 2] else (t[n / 2 - 1] + t[n / 2]) / 2.0
  }

  /** The median does not depend on the order of the sample. */
  lemma MedianPermutation(s: seq<real>, t: seq<real>)
    requires |s| > 0 && multiset(s) == multiset(t)
    ensures |t| == |s| && Median(s) == Median(t)
  {
    assert |t| == |multiset(t)| == |multiset(s)| == |s|;
    AscendingUnique(Sort(s), Sort(t));
    assert Sort(s) == Sort(t);
  }

  /** The outer edges of the histogram. */
  datatype Range = Range(lo: real, hi: real)

  /**
   * [min, max] of the sample; when every value is the same, numpy widens the
   * range by half a unit on each side so that the bins have a width.
   */
  function BinRange(s: seq<real>): (r: Range)
    requires |s| > 0
    ensures r.lo < r.hi
    ensures Within(s, r.lo, r.hi)
    ensures Min(s) < Max(s) ==> r.lo == Min(s) && r.hi == Max(s)
    ensures Min(s) == Max(s) ==> r.lo == Min(s) - 0.5 && r.hi == Max(s) + 0.5
  {
    if Min(s) < Max(s) then Range(Min(s), Max(s)) else Range(Min(s) - 0.5, Max(s) + 0.5)
  }

  ghost predicate Within(s: seq<real>, lo: real, hi: real)
  {
    forall i :: 0 <= i < |s| ==> lo <= s[i] <= hi
  }

  function Width(lo: real, hi: real): real
  {
    (hi - lo) / (Bins as real)
  }

  /** The k-th of the Bins + 1 equally spaced edges from lo to hi. */
  function Edge(lo: real, hi: real, k: int): real
  {
    lo + (k as real) * Width(lo, hi)
  }

  lemma EdgeMonotone(lo: real, hi: real, j: int, k: int)
    requires lo < hi && j < k
    ensures Edge(lo, hi, j) < Edge(lo, hi, k)
  {
    assert Edge(lo, hi, k) - Edge(lo, hi, j) == ((k - j) as real) * Width(lo, hi);
  }

  lemma EdgeEnds(lo: real, hi: real)
    ensures Edge(lo, hi, 0) == lo && Edge(lo, hi, Bins) == hi
  {
  }

  /** Every left edge lies in [lo, hi). */
  lemma EdgeInRange(lo: real, hi: real, k: int)
    requires lo < hi && 0 <= k < Bins
    ensures lo <= Edge(lo, hi, k) < hi
  {
    EdgeEnds(lo, hi);
    EdgeMonotone(lo, hi, k, Bins);
    if 0 < k { EdgeMonotone(lo, hi, 0, k); }
  }

  /**
   * Bin k holds x: left-inclusive and right-exclusive, except that the last
   * bin holds its right edge as well.
   */
  predicate InBin(x: real, lo: real, hi: real, k: int)
  {
    && 0 <= k < Bins
    && Edge(lo, hi, k) <= x
    && (x < Edge(lo, hi, k + 1) || (k == Bins - 1 && x == hi))
  }

  /** The bin a value in [lo, hi] falls into. */
  function BinOf(x: real, lo: real, hi: real): (k: nat)
    requires lo < hi && lo <= x <= hi
    ensures InBin(x, lo, hi, k)
  {
    var w := Width(lo, hi);
    var t := (x - lo) / w;
    var q := t.Floor;
    ScaledPosition(x, lo, hi);
    var qr := q as real;
    assert qr <= t < qr + 1.0;
    ScaleStrict(t, qr + 1.0, w);
    if q >= Bins then
      assert x == hi by {
        assert t == Bins as real;
      }
      EdgeMonotone(lo, hi, Bins - 1, Bins);
      Bins - 1
    else
      ScaleWeak(qr, t, w);
      assert Edge(lo, hi, q) == lo + qr * w;
      assert Edge(lo, hi, q + 1) == lo + (qr + 1.0) * w;
      assert t * w == x - lo;
      assert t * w < (qr + 1.0) * w;
      assert x < Edge(lo, hi, q + 1);
      q
  }

  /** Where x sits in [lo, hi], measured in bin widths. */
  lemma ScaledPosition(x: real, lo: real, hi: real)
    requires lo < hi && lo <= x <= hi
    ensures Width(lo, hi) > 0.0
    ensures var t := (x - lo) / Width(lo, hi);
      t * Width(lo, hi) == x - lo && 0.0 <= t <= Bins as real
      && (t == Bins as real ==> x == hi)
  {
    var w := Width(lo, hi);
    var t := (x - lo) / w;
    assert t * w == x - lo;
    assert (Bins as real) * w == hi - lo;
    if t > Bins as real {
      ScaleStrict(Bins as real, t, w);
    }
    if t < 0.0 {
      ScaleStrict(t, 0.0, w);
    }
  }

  lemma ScaleStrict(a: real, b: real, w: real)
    requires a < b && w > 0.0
    ensures a * w < b * w
  {
  }

  lemma ScaleWeak(a: real, b: real, w: real)
    requires a <= b && w > 0.0
    ensures a * w <= b * w
  {
  }

  /** Bins partition [lo, hi]: a value lies in its own bin and in no other. */
  lemma BinUnique(x: real, lo: real, hi: real, j: int)
    requires lo < hi && lo <= x <= hi
    ensures InBin(x, lo, hi, j) <==> j == BinOf(x, lo, hi)
  {
    var k := BinOf(x, lo, hi);
    if InBin(x, lo, hi, j) {
      if j < k {
        if j + 1 < k { EdgeMonotone(lo, hi, j + 1, k); }
      } else if k < j {
        if k + 1 < j { EdgeMonotone(lo, hi, k + 1, j); }
        EdgeMonotone(lo, hi, j, Bins);
      }
    }
  }

  /** How many values of s fall into bin k; values outside [lo, hi] fall into none. */
  function CountBin(s: seq<real>, lo: real, hi: real, k: int): (c: nat)
    ensures c <= |s|
  {
    if s == [] then 0
    else CountBin(s[..|s| - 1], lo, hi, k) + (if InBin(s[|s| - 1], lo, hi, k) then 1 else 0)
  }

  /** The counts of np.histogram(s, bins=100) over [lo, hi]. */
  function Histogram(s: seq<real>, lo: real, hi: real): (c: seq<nat>)
    ensures |c| == Bins
  {
    seq(Bins, k => CountBin(s, lo, hi, k))
  }

  /** Total of the counts. */
  function Total(c: seq<nat>): nat
  {
    if c == [] then 0 else Total(c[..|c| - 1]) + c[|c| - 1]
  }

  lemma {:induction false} TotalIncrement(c: seq<nat>, b: nat)
    requires b < |c|
    ensures Total(c[b := c[b] + 1]) == Total(c) + 1
  {
    var d := c[b := c[b] + 1];
    if b < |c| - 1 {
      assert d[..|d| - 1] == c[..|c| - 1][b := c[b] + 1];
      TotalIncrement(c[..|c| - 1], b);
    } else {
      assert d[..|d| - 1] == c[..|c| - 1];
    }
  }

  lemma {:induction false} TotalZero(c: seq<nat>)
    requires forall j :: 0 <= j < |c| ==> c[j] == 0
    ensures Total(c) == 0
  {
    if c != [] {
      TotalZero(c[..|c| - 1]);
    }
  }

  /** Adding a value to the sample adds one to the count of its bin and nothing else. */
  lemma HistogramSnoc(s: seq<real>, x: real, lo: real, hi: real)
    requires lo < hi && lo <= x <= hi
    ensures var b := BinOf(x, lo, hi);
      Histogram(s + [x], lo, hi) == Histogram(s, lo, hi)[b := Histogram(s, lo, hi)[b] + 1]
  {
    var t := s + [x];
    assert t[..|t| - 1] == s;
    forall k | 0 <= k < Bins
      ensures CountBin(t, lo, hi, k) == CountBin(s, lo, hi, k) + (if k == BinOf(x, lo, hi) then 1 else 0)
    {
      BinUnique(x, lo, hi, k);
    }
  }

  /** Every value is counted exactly once: the counts add up to the sample size. */
  lemma {:induction false} HistogramTotal(s: seq<real>, lo: real, hi: real)
    requires lo < hi && Within(s, lo, hi)
    ensures Total(Histogram(s, lo, hi)) == |s|
  {
    if s == [] {
      TotalZero(Histogram(s, lo, hi));
    } else {
      var init, x := s[..|s| - 1], s[|s| - 1];
      assert s == init + [x];
      assert Within(init, lo, hi) && lo <= x <= hi;
      HistogramSnoc(init, x, lo, hi);
      HistogramTotal(init, lo, hi);
      TotalIncrement(Histogram(init, lo, hi), BinOf(x, lo, hi));
    }
  }

  /** A non-empty bin holds some value of the sample. */
  lemma {:induction false} CountBinOccupied(s: seq<real>, lo: real, hi: real, k: int)
    requires CountBin(s, lo, hi, k) > 0
    ensures exists i :: 0 <= i < |s| && InBin(s[i], lo, hi, k)
  {
    var init := s[..|s| - 1];
    if !InBin(s[|s| - 1], lo, hi, k) {
      CountBinOccupied(init, lo, hi, k);
      var i :| 0 <= i < |init| && InBin(init[i], lo, hi, k);
      assert s[i] == init[i];
    }
  }

  lemma {:induction false} CountBinConcat(a: seq<real>, b: seq<real>, lo: real, hi: real, k: int)
    ensures CountBin(a + b, lo, hi, k) == CountBin(a, lo, hi, k) + CountBin(b, lo, hi, k)
  {
    if b == [] {
      assert a + b == a;
    } else {
      assert (a + b)[..|a + b| - 1] == a + b[..|b| - 1];
      CountBinConcat(a, b[..|b| - 1], lo, hi, k);
    }
  }

  /** Bin counts do not depend on the order of the sample. */
  lemma {:induction false} CountBinPermutation(s: seq<real>, t: seq<real>, lo: real, hi: real, k: int)
    requires multiset(s) == multiset(t)
    ensures CountBin(s, lo, hi, k) == CountBin(t, lo, hi, k)
  {
    if s == [] {
      assert |t| == |multiset(t)| == 0;
    } else {
      var x := s[|s| - 1];
      assert x in multiset(t);
      var j :| 0 <= j < |t| && t[j] == x;
      RemoveMatching(s, t, j);
      CountBinPermutation(s[..|s| - 1], t[..j] + t[j + 1..], lo, hi, k);
      CountBinRemoveAt(t, j, lo, hi, k);
    }
  }

  /** Taking position j out of t lowers the count of bin k by one exactly when t[j] is in it. */
  lemma CountBinRemoveAt(t: seq<real>, j: nat, lo: real, hi: real, k: int)
    requires j < |t|
    ensures CountBin(t, lo, hi, k)
      == CountBin(t[..j] + t[j + 1..], lo, hi, k) + (if InBin(t[j], lo, hi, k) then 1 else 0)
  {
    var a, x, b := t[..j], t[j], t[j + 1..];
    assert t == (a + [x]) + b;
    assert CountBin(t, lo, hi, k) == CountBin(a + [x], lo, hi, k) + CountBin(b, lo, hi, k) by {
      CountBinConcat(a + [x], b, lo, hi, k);
    }
    assert CountBin(a + [x], lo, hi, k) == CountBin(a, lo, hi, k) + (if InBin(x, lo, hi, k) then 1 else 0) by {
      assert (a + [x])[..|a + [x]| - 1] == a;
    }
    assert CountBin(a + b, lo, hi, k) == CountBin(a, lo, hi, k) + CountBin(b, lo, hi, k) by {
      CountBinConcat(a, b, lo, hi, k);
    }
  }


  /**
   * np.argmax: the index of the largest count, the lowest such index when
   * several bins share the maximum.
   */
  function ArgMax(c: seq<nat>): (k: nat)
    requires |c| > 0
    ensures k < |c|
    ensures forall j :: 0 <= j < |c| ==> c[j] <= c[k]
    ensures forall j :: 0 <= j < k ==> c[j] < c[k]
  {
    if |c| == 1 then 0
    else
      var k := ArgMax(c[..|c| - 1]);
      if c[k] < c[|c| - 1] then |c| - 1 else k
  }

  /** A loop computing the histogram counts one value at a time. */
  method CountBins(s: seq<real>, lo: real, hi: real) returns (c: seq<nat>)
    requires lo < hi && Within(s, lo, hi)
    ensures c == Histogram(s, lo, hi)
    ensures Total(c) == |s|
  {
    c := seq(Bins, k => 0);
    assert c == Histogram(s[..0], lo, hi);
    for i := 0 to |s|
      invariant Within(s[..i], lo, hi)
      invariant c == Histogram(s[..i], lo, hi)
    {
      assert s[..i + 1] == s[..i] + [s[i]];
      HistogramSnoc(s[..i], s[i], lo, hi);
      var b := BinOf(s[i], lo, hi);
      c := c[b := c[b] + 1];
    }
    assert s[..|s|] == s;
    HistogramTotal(s, lo, hi);
  }

  /** A loop scanning the counts left to right for the first maximum. */
  method PeakBin(c: seq<nat>) returns (k: nat)
    requires |c| > 0
    ensures k == ArgMax(c)
    ensures forall j :: 0 <= j < |c| ==> c[j] <= c[k]
    ensures forall j :: 0 <= j < k ==> c[j] < c[k]
  {
    k := 0;
    var i := 1;
    while i < |c|
      invariant 1 <= i <= |c|
      invariant k == ArgMax(c[..i])
    {
      assert c[..i + 1][..i] == c[..i];
      if c[k] < c[i] {
        k := i;
      }
      i := i + 1;
    }
    assert c[..|c|] == c;
  }

  /** The histogram's peak bin is never empty and always holds a value of the sample. */
  lemma PeakOccupied(s: seq<real>, lo: real, hi: real)
    requires |s| > 0 && lo < hi && Within(s, lo, hi)
    ensures var c := Histogram(s, lo, hi);
      && c[ArgMax(c)] > 0
      && exists i :: 0 <= i < |s| && InBin(s[i], lo, hi, ArgMax(c))
  {
    var c := Histogram(s, lo, hi);
    var k := ArgMax(c);
    HistogramTotal(s, lo, hi);
    if c[k] == 0 {
      TotalZero(c);
    }
    CountBinOccupied(s, lo, hi, k);
  }

  /** The left edge of the leftmost fullest bin: bins[np.argmax(counts)]. */
  function ModeEstimate(s: seq<real>): (m: real)
    requires |s| > 0
    ensures Min(s) <= m <= Max(s)
    ensures Min(s) < Max(s) ==> m < Max(s)
    ensures Min(s) == Max(s) ==> m == Min(s)
  {
    var r := BinRange(s);
    var c := Histogram(s, r.lo, r.hi);
    var k := ArgMax(c);
    EdgeInRange(r.lo, r.hi, k);
    if Min(s) == Max(s) then
      ConstantPeak(s);
      Edge(r.lo, r.hi, k)
    else
      Edge(r.lo, r.hi, k)
  }

  /** On the widened range [v - 0.5, v + 0.5] the value v is the left edge of bin 50. */
  lemma ConstantEdges(v: real)
    ensures Edge(v - 0.5, v + 0.5, Bins / 2) == v
    ensures InBin(v, v - 0.5, v + 0.5, Bins / 2)
  {
    assert Width(v - 0.5, v + 0.5) == 1.0 / 100.0;
    assert Edge(v - 0.5, v + 0.5, Bins / 2 + 1) == v + 1.0 / 100.0;
  }

  /** When every value is v, all of them fall into bin 50, whose left edge is v. */
  lemma ConstantPeak(s: seq<real>)
    requires |s| > 0 && Min(s) == Max(s)
    ensures var r := BinRange(s);
      ArgMax(Histogram(s, r.lo, r.hi)) == Bins / 2 && Edge(r.lo, r.hi, Bins / 2) == Min(s)
  {
    var v := Min(s);
    var r := BinRange(s);
    var lo, hi := r.lo, r.hi;
    assert lo == v - 0.5 && hi == v + 0.5;
    ConstantEdges(v);
    var c := Histogram(s, lo, hi);
    var k := ArgMax(c);
    PeakOccupied(s, lo, hi);
    var i :| 0 <= i < |s| && InBin(s[i], lo, hi, k);
    assert s[i] == v by {
      assert Min(s) <= s[i] <= Max(s);
    }
    BinUnique(v, lo, hi, k);
    BinUnique(v, lo, hi, Bins / 2);
  }

  /** The estimate is the left edge of an occupied bin that no other bin outnumbers. */
  lemma ModeIsPeakEdge(s: seq<real>)
    requires |s| > 0
    ensures var r := BinRange(s);
      var c := Histogram(s, r.lo, r.hi);
      exists k :: 0 <= k < Bins && ModeEstimate(s) == Edge(r.lo, r.hi, k)
        && c[k] > 0
        && (forall j :: 0 <= j < Bins ==> c[j] <= c[k])
        && (forall j :: 0 <= j < k ==> c[j] < c[k])
        && (exists i :: 0 <= i < |s| && InBin(s[i], r.lo, r.hi, k))
  {
    var r := BinRange(s);
    PeakOccupied(s, r.lo, r.hi);
  }

  lemma HistogramPermutation(s: seq<real>, t: seq<real>, lo: real, hi: real)
    requires multiset(s) == multiset(t)
    ensures Histogram(s, lo, hi) == Histogram(t, lo, hi)
  {
    forall k | 0 <= k < Bins
      ensures CountBin(s, lo, hi, k) == CountBin(t, lo, hi, k)
    {
      CountBinPermutation(s, t, lo, hi, k);
    }
  }

  /** The mode estimate does not depend on the order of the sample. */
  lemma ModePermutation(s: seq<real>, t: seq<real>)
    requires |s| > 0 && multiset(s) == multiset(t)
    ensures |t| > 0 && ModeEstimate(s) == ModeEstimate(t)
  {
    MinMaxPermutation(s, t);
    var r := BinRange(s);
    HistogramPermutation(s, t, r.lo, r.hi);
  }

  /** The figures the page reports for one combined sample. */
  datatype SummaryStats = SummaryStats(mean: real, median: real, mode: real, binWidth: real)

  /** All three statistics of a sample, or an error for an empty one. */
  function Summarize(s: seq<real>): (r: Result<SummaryStats>)
    ensures r.Err? <==> |s| == 0
    ensures r.Ok? ==> (
      && |s| > 0
      && Min(s) <= r.value.mean <= Max(s)
      && Min(s) <= r.value.median <= Max(s)
      && Min(s) <= r.value.mode <= Max(s)
      && r.value.binWidth > 0.0)
  {
    if |s| == 0 then Err(EmptySample)
    else
      MeanWithin(s);
      var range := BinRange(s);
      Ok(SummaryStats(Mean(s), Median(s), ModeEstimate(s), Width(range.lo, range.hi)))
  }

  /** Summary statistics are order-independent. */
  lemma SummarizePermutation(s: seq<real>, t: seq<real>)
    requires multiset(s) == multiset(t)
    ensures Summarize(s) == Summarize(t)
  {
    assert |t| == |multiset(t)| == |multiset(s)| == |s|;
    if |s| > 0 {
      MeanPermutation(s, t);
      MedianPermutation(s, t);
      ModePermutation(s, t);
      MinMaxPermutation(s, t);
      assert BinRange(s) == BinRange(t);
    }
  }

  /** A sample of one repeated value v has mean v. */
  lemma ConstantMean(s: seq<real>, v: real)
    requires |s| > 0 && forall i :: 0 <= i < |s| ==> s[i] == v
    ensures Mean(s) == v
  {
    assert Min(s) == v == Max(s);
    MeanWithin(s);
  }

  /** A sample of one repeated value v has median v. */
  lemma ConstantMedian(s: seq<real>, v: real)
    requires |s| > 0 && forall i :: 0 <= i < |s| ==> s[i] == v
    ensures Median(s) == v
  {
    var n := |s|;
    SortedElement(s, n / 2);
    SortedElement(s, (n - 1) / 2);
  }

  /** A sample of one repeated value v has mean, median and mode v. */
  lemma ConstantSample(s: seq<real>, v: real)
    requires |s| > 0 && forall i :: 0 <= i < |s| ==> s[i] == v
    ensures Summarize(s) == Ok(SummaryStats(v, v, v, 1.0 / 100.0))
  {
    var r := BinRange(s);
    SummarizeFields(s);
    assert Mean(s) == v by {
      ConstantMean(s, v);
    }
    assert Median(s) == v by {
      ConstantMedian(s, v);
    }
    assert ModeEstimate(s) == v && r == Range(v - 0.5, v + 0.5) by {
      assert Min(s) == v == Max(s);
    }
    assert Width(r.lo, r.hi) == 1.0 / 100.0;
  }

  lemma SummarizeFields(s: seq<real>)
    requires |s| > 0
    ensures var r := BinRange(s);
      Summarize(s) == Ok(SummaryStats(Mean(s), Median(s), ModeEstimate(s), Width(r.lo, r.hi)))
  {
  }
}
