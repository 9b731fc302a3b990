/**
 * The classifier: puts the three statistics in ascending order (ties keep
 * the order Mean, Median, Mode), spells that order out as text, and decides
 * whether the mode estimate is trapped strictly between mean and median.
 */
module Classifier {

  /** The three statistics, in the order the page lists them. */
  datatype Statistic = Mean | Median | Mode {

    /** The label shown on the page. */
    function Name(): string
    {
      match this
      case Mean => "Mean"
      case Median => "Median"
      case Mode => "Mode"
    }

    /** Position in the listing order; a stable sort keeps ties in this order. */
    function Rank(): nat
    {
      match this
      case Mean => 0
      case Median => 1
      case Mode => 2
    }
  }

  /** One (label, value) pair. */
  datatype Entry = Entry(stat: Statistic, value: real)

  /** The pairs in listing order: Mean, Median, Mode. */
  function Entries(mean: real, median: real, mode: real): (e: seq<Entry>)
    ensures |e| == 3 && RankIncreasing(e)
  {
    [Entry(Mean, mean), Entry(Median, median), Entry(Mode, mode)]
  }

  predicate ByValue(r: seq<Entry>)
  {
    forall i, j :: 0 <= i < j < |r| ==> r[i].value <= r[j].value
  }

  predicate RankIncreasing(r: seq<Entry>)
  {
    forall i, j :: 0 <= i < j < |r| ==> r[i].stat.Rank() < r[j].stat.Rank()
  }

  /** Equal values appear in listing order. */
  predicate TiesByRank(r: seq<Entry>)
  {
    forall i, j :: 0 <= i < j < |r| && r[i].value == r[j].value ==> r[i].stat.Rank() < r[j].stat.Rank()
  }

  /** Places e in front of the first pair whose value is not smaller. */
  function InsertEntry(e: Entry, t: seq<Entry>): (r: seq<Entry>)
    ensures |r| == |t| + 1
  {
    if t == [] then [e]
    else if e.value <= t[0].value then [e] + t
    else [t[0]] + InsertEntry(e, t[1..])
  }

  /** Insertion keeps a sequence ascending by value and adds exactly the new pair. */
  lemma {:induction false} InsertEntrySorted(e: Entry, t: seq<Entry>)
    requires ByValue(t)
    ensures ByValue(InsertEntry(e, t))
    ensures multiset(InsertEntry(e, t)) == multiset(t) + multiset{e}
  {
    if t == [] {
    } else if e.value <= t[0].value {
      ConsByValue(e, t);
    } else {
      var tail := t[1..];
      assert t == [t[0]] + tail;
      InsertEntrySorted(e, tail);
      var u := InsertEntry(e, tail);
      forall i | 0 <= i < |u| ensures t[0].value <= u[i].value {
        assert u[i] in multiset(u);
      }
      ConsByValue(t[0], u);
    }
  }

  lemma ConsByValue(x: Entry, u: seq<Entry>)
    requires ByValue(u)
    requires forall i :: 0 <= i < |u| ==> x.value <= u[i].value
    ensures ByValue([x] + u)
  {
    var r := [x] + u;
    forall i, j | 0 <= i < j < |r| ensures r[i].value <= r[j].value {
      assert r[j] == u[j - 1];
      if i > 0 { assert r[i] == u[i - 1]; }
    }
  }

  /** sorted(pairs, key=value), as insertion of each pair into the sorted rest. */
  function SortByValue(s: seq<Entry>): (r: seq<Entry>)
    ensures |r| == |s|
  {
    if s == [] then [] else InsertEntry(s[0], SortByValue(s[1..]))
  }

  /** The sort is ascending by value, has the input's length and is a permutation of it. */
  lemma {:induction false} SortByValueSorted(s: seq<Entry>)
    ensures ByValue(SortByValue(s))
    ensures multiset(SortByValue(s)) == multiset(s)
    ensures |SortByValue(s)| == |s|
  {
    if s != [] {
      assert s == [s[0]] + s[1..];
      SortByValueSorted(s[1..]);
      InsertEntrySorted(s[0], SortByValue(s[1..]));
    }
    var r := SortByValue(s);
    assert |r| == |multiset(r)| == |multiset(s)| == |s|;
  }

  /** Inserting a pair that ranks before all others keeps ties in listing order. */
  lemma {:induction false} InsertStable(e: Entry, t: seq<Entry>)
    requires ByValue(t) && TiesByRank(t)
    requires forall i :: 0 <= i < |t| ==> e.stat.Rank() < t[i].stat.Rank()
    ensures TiesByRank(InsertEntry(e, t))
  {
    if t == [] {
    } else if e.value <= t[0].value {
      ConsTies(e, t);
    } else {
      var tail := t[1..];
      assert forall i :: 0 <= i < |tail| ==> tail[i] == t[i + 1];
      InsertStable(e, tail);
      InsertEntrySorted(e, tail);
      var u := InsertEntry(e, tail);
      forall j | 0 <= j < |u| && t[0].value == u[j].value
        ensures t[0].stat.Rank() < u[j].stat.Rank()
      {
        assert u[j] in multiset(u);
        if u[j] != e {
          assert u[j] in multiset(tail);
          var m :| 0 <= m < |tail| && tail[m] == u[j];
          assert t[m + 1] == u[j];
        }
      }
      ConsTies(t[0], u);
    }
  }

  lemma ConsTies(x: Entry, u: seq<Entry>)
    requires TiesByRank(u)
    requires forall i :: 0 <= i < |u| && x.value == u[i].value ==> x.stat.Rank() < u[i].stat.Rank()
    ensures TiesByRank([x] + u)
  {
    var r := [x] + u;
    forall i, j | 0 <= i < j < |r| && r[i].value == r[j].value
      ensures r[i].stat.Rank() < r[j].stat.Rank()
    {
      assert r[j] == u[j - 1];
      if i > 0 { assert r[i] == u[i - 1]; }
    }
  }

  /** The sort is stable: sorting pairs given in listing order leaves ties in that order. */
  lemma {:induction false} SortStable(s: seq<Entry>)
    requires RankIncreasing(s)
    ensures TiesByRank(SortByValue(s))
  {
    if s != [] {
      var tail := s[1..];
      SortStable(tail);
      SortByValueSorted(tail);
      var t := SortByValue(tail);
      forall i | 0 <= i < |t| ensures s[0].stat.Rank() < t[i].stat.Rank() {
        assert t[i] in multiset(t);
        var m :| 0 <= m < |tail| && tail[m] == t[i];
        assert s[m + 1] == t[i];
      }
      InsertStable(s[0], t);
    }
  }

  /** The three pairs in ascending order of value. */
  function Order(mean: real, median: real, mode: real): (r: seq<Entry>)
    ensures |r| == 3
  {
    SortByValue(Entries(mean, median, mode))
  }

  /**
   * The order is a permutation of the three pairs, ascending by value, with
   * equal values kept in the order Mean, Median, Mode.
   */
  lemma OrderSpec(mean: real, median: real, mode: real)
    ensures var r := Order(mean, median, mode);
      && |r| == 3
      && multiset(r) == multiset(Entries(mean, median, mode))
      && ByValue(r)
      && TiesByRank(r)
  {
    SortByValueSorted(Entries(mean, median, mode));
    SortStable(Entries(mean, median, mode));
  }

  /** The sort of the three pairs, unfolded: Mean inserted into Median inserted into [Mode]. */
  lemma OrderUnfold(mean: real, median: real, mode: real)
    ensures Order(mean, median, mode)
      == InsertEntry(Entry(Mean, mean), InsertEntry(Entry(Median, median), [Entry(Mode, mode)]))
  {
    var e := Entries(mean, median, mode);
    var last := [Entry(Mode, mode)];
    assert SortByValue(last) == last by {
      assert last[1..] == [];
    }
    assert e[1..][1..] == last;
    assert SortByValue(e[1..]) == InsertEntry(Entry(Median, median), last);
    assert SortByValue(e) == InsertEntry(e[0], SortByValue(e[1..]));
  }

  lemma InsertPair(x: Entry, y: Entry)
    ensures InsertEntry(x, [y]) == if x.value <= y.value then [x, y] else [y, x]
  {
    if y.value < x.value {
      assert [y][1..] == [];
    }
  }

  lemma InsertTriple(x: Entry, a: Entry, b: Entry)
    requires a.value <= b.value
    ensures InsertEntry(x, [a, b])
      == if x.value <= a.value then [x, a, b] else if x.value <= b.value then [a, x, b] else [a, b, x]
  {
    if a.value < x.value {
      assert [a, b][1..] == [b];
      InsertPair(x, b);
    }
  }

  /** The three pairs in order, spelled out by comparisons. */
  lemma OrderCases(mean: real, median: real, mode: real)
    ensures var x, y, z := Entry(Mean, mean), Entry(Median, median), Entry(Mode, mode);
      var p := if median <= mode then [y, z] else [z, y];
      Order(mean, median, mode)
        == if mean <= p[0].value then [x] + p
           else if mean <= p[1].value then [p[0], x, p[1]]
           else p + [x]
  {
    var x, y, z := Entry(Mean, mean), Entry(Median, median), Entry(Mode, mode);
    OrderUnfold(mean, median, mode);
    InsertPair(y, z);
    var p := if median <= mode then [y, z] else [z, y];
    InsertTriple(x, p[0], p[1]);
    assert [p[0], p[1]] == p;
  }

  /** The separator between labels in the order string. */
  const Separator: string := " < "

  /** sep.join(parts). */
  function Join(parts: seq<string>): (s: string)
    ensures |parts| > 0 ==> |parts[0]| <= |s| && s[..|parts[0]|] == parts[0]
  {
    if |parts| == 0 then ""
    else if |parts| == 1 then parts[0]
    else parts[0] + Separator + Join(parts[1..])
  }

  /** s.split(sep): the pieces between occurrences of the separator, left to right. */
  function Split(s: string): (parts: seq<string>)
    ensures |parts| > 0
    decreases |s|
  {
    if |s| < |Separator| then [s]
    else if s[..|Separator|] == Separator then [""] + Split(s[|Separator|..])
    else
      var rest := Split(s[1..]);
      [[s[0]] + rest[0]] + rest[1..]
  }

  /** A word with no space cannot overlap a separator. */
  predicate Plain(w: string)
  {
    forall i :: 0 <= i < |w| ==> w[i] != ' '
  }

  lemma {:induction false} SplitPlain(w: string)
    requires Plain(w)
    ensures Split(w) == [w]
  {
    if |w| >= |Separator| {
      assert w[..|Separator|] != Separator by {
        assert w[..|Separator|][0] == w[0];
      }
      SplitPlain(w[1..]);
      assert [w[0]] + w[1..] == w;
    }
  }

  lemma {:induction false} SplitPlainThenSeparator(w: string, rest: string)
    requires Plain(w)
    ensures Split(w + Separator + rest) == [w] + Split(rest)
  {
    var s := w + Separator + rest;
    if w == [] {
      assert s[..|Separator|] == Separator;
      assert s[|Separator|..] == rest;
    } else {
      assert s[..|Separator|] != Separator by {
        assert s[..|Separator|][0] == w[0];
      }
      assert s[1..] == w[1..] + Separator + rest;
      SplitPlainThenSeparator(w[1..], rest);
      assert [w[0]] + w[1..] == w;
    }
  }

  /** Splitting a join of space-free words gives the words back. */
  lemma {:induction false} SplitJoin(parts: seq<string>)
    requires |parts| > 0
    requires forall i :: 0 <= i < |parts| ==> Plain(parts[i])
    ensures Split(Join(parts)) == parts
  {
    if |parts| == 1 {
      SplitPlain(parts[0]);
    } else {
      SplitJoin(parts[1..]);
      SplitPlainThenSeparator(parts[0], Join(parts[1..]));
      assert parts == [parts[0]] + parts[1..];
    }
  }

  /** The labels of an ordering, left to right. */
  function Labels(r: seq<Entry>): (names: seq<string>)
    ensures |names| == |r|
    ensures forall i :: 0 <= i < |r| ==> names[i] == r[i].stat.Name()
  {
    seq(|r|, i requires 0 <= i < |r| => r[i].stat.Name())
  }

  /** " < ".join(labels) for an ordering. */
  function OrderString(r: seq<Entry>): string
  {
    Join(Labels(r))
  }

  /** The order string of three pairs names them left to right with " < " between. */
  lemma OrderStringOfThree(r: seq<Entry>)
    requires |r| == 3
    ensures OrderString(r) == r[0].stat.Name() + " < " + r[1].stat.Name() + " < " + r[2].stat.Name()
    ensures Split(OrderString(r)) == Labels(r)
  {
    var names := Labels(r);
    assert names == [r[0].stat.Name(), r[1].stat.Name(), r[2].stat.Name()];
    JoinThree(names);
    SplitOrderString(r);
  }

  /** Splitting the order string on " < " gives the labels back. */
  lemma SplitOrderString(r: seq<Entry>)
    requires |r| > 0
    ensures Split(OrderString(r)) == Labels(r)
  {
    var names := Labels(r);
    forall i | 0 <= i < |names| ensures Plain(names[i]) {
      NamePlain(r[i].stat);
    }
    SplitJoin(names);
  }

  lemma JoinThree(names: seq<string>)
    requires |names| == 3
    ensures Join(names) == names[0] + Separator + names[1] + Separator + names[2]
  {
    assert names[1..][1..] == [names[2]];
    assert Join(names[1..]) == names[1] + Separator + names[2];
  }

  /** No label contains a space. */
  lemma NamePlain(st: Statistic)
    ensures Plain(st.Name())
  {
  }

  /** Strict betweenness: median < mode < mean, or mean < mode < median. */
  predicate ModeTrapped(mean: real, median: real, mode: real): (b: bool)
    ensures b ==> Between(mode, mean, median)
    ensures b ==> mean != median && median != mode && mean != mode
  {
    (median < mode < mean) || (mean < mode < median)
  }

  /**
   * The mode is trapped exactly when it is the middle stat of the ordering
   * and the three values are distinct.
   */
  lemma TrappedIffModeInMiddle(mean: real, median: real, mode: real)
    ensures var r := Order(mean, median, mode);
      |r| == 3 &&
      (ModeTrapped(mean, median, mode) <==> (r[1].stat == Mode && r[0].value < r[1].value < r[2].value))
  {
    OrderCases(mean, median, mode);
  }

  /** What the page shows about the ordering. */
  datatype OrderingResult = OrderingResult(sorted: seq<Entry>, order: string, modeIsMiddle: bool)

  function Classify(mean: real, median: real, mode: real): (o: OrderingResult)
    ensures |o.sorted| == 3
    ensures multiset(o.sorted) == multiset(Entries(mean, median, mode))
    ensures ByValue(o.sorted) && TiesByRank(o.sorted)
    ensures o.order == OrderString(o.sorted)
    ensures Split(o.order) == Labels(o.sorted)
    ensures o.modeIsMiddle <==> ModeTrapped(mean, median, mode)
    ensures o.modeIsMiddle ==> o.sorted[1].stat == Mode
    ensures o.modeIsMiddle ==> mean != median && median != mode && mean != mode
  {
    var r := Order(mean, median, mode);
    ClassifyFacts(mean, median, mode, r);
    OrderingResult(r, OrderString(r), ModeTrapped(mean, median, mode))
  }

  lemma ClassifyFacts(mean: real, median: real, mode: real, r: seq<Entry>)
    requires r == Order(mean, median, mode)
    ensures |r| == 3
    ensures multiset(r) == multiset(Entries(mean, median, mode))
    ensures ByValue(r) && TiesByRank(r)
    ensures Split(OrderString(r)) == Labels(r)
    ensures ModeTrapped(mean, median, mode) ==> r[1].stat == Mode
  {
    OrderSpec(mean, median, mode);
    SplitOrderString(r);
    TrappedIffModeInMiddle(mean, median, mode);
  }

  /** x lies between a and b, inclusive, in either order. */
  predicate Between(x: real, a: real, b: real)
  {
    (a <= x <= b) || (b <= x <= a)
  }

  /** The two messages the page chooses between. */
  datatype PageVerdict = ModeTrappedMessage | MedianInMiddleMessage

  /** The page's choice as written: any untrapped mode is reported as "the Median is in the middle". */
  function VerdictAsWritten(mean: real, median: real, mode: real): (v: PageVerdict)
    ensures v == ModeTrappedMessage <==> ModeTrapped(mean, median, mode)
  {
    if ModeTrapped(mean, median, mode) then ModeTrappedMessage else MedianInMiddleMessage
  }

  /** With median 10 < mean 15 < mode 20 the page says the median is in the middle; the mean is. */
  lemma VerdictAsWrittenMisreports()
    ensures VerdictAsWritten(15.0, 10.0, 20.0) == MedianInMiddleMessage
    ensures !Between(10.0, 15.0, 20.0)
    ensures Order(15.0, 10.0, 20.0)[1].stat == Mean
  {
    MiddleIsBetween(15.0, 10.0, 20.0);
  }

  /** A verdict that names the statistic actually in the middle. */
  datatype Verdict = Trapped | InMiddle(middle: Statistic)

  /**
   * Trapped when the mode is strictly between mean and median; otherwise the
   * statistic in the middle of the ordering, whose value is then between the
   * other two.
   */
  function VerdictCorrected(mean: real, median: real, mode: real): (v: Verdict)
    ensures v == Trapped <==> ModeTrapped(mean, median, mode)
    ensures v == InMiddle(Mean) ==> Between(mean, median, mode)
    ensures v == InMiddle(Median) ==> Between(median, mean, mode)
    ensures v == InMiddle(Mode) ==> Between(mode, mean, median)
  {
    var r := Order(mean, median, mode);
    MiddleIsBetween(mean, median, mode);
    if ModeTrapped(mean, median, mode) then Trapped else InMiddle(r[1].stat)
  }

  /** The middle pair of the ordering has a value between those of the other two statistics. */
  lemma MiddleIsBetween(mean: real, median: real, mode: real)
    ensures var r := Order(mean, median, mode);
      && |r| == 3
      && (r[1].stat == Mean ==> Between(mean, median, mode))
      && (r[1].stat == Median ==> Between(median, mean, mode))
      && (r[1].stat == Mode ==> Between(mode, mean, median))
  {
    OrderCases(mean, median, mode);
  }

  /** Mean 10, median 20, mode 15: the mode is trapped. */
  lemma TrappedExample()
    ensures var o := Classify(10.0, 20.0, 15.0);
      && o.sorted == [Entry(Mean, 10.0), Entry(Mode, 15.0), Entry(Median, 20.0)]
      && o.order == "Mean < Mode < Median"
      && o.modeIsMiddle
  {
    assert Order(10.0, 20.0, 15.0) == [Entry(Mean, 10.0), Entry(Mode, 15.0), Entry(Median, 20.0)] by {
      OrderCases(10.0, 20.0, 15.0);
    }
    TrappedText(Classify(10.0, 20.0, 15.0));
  }

  lemma TrappedText(o: OrderingResult)
    requires o.sorted == [Entry(Mean, 10.0), Entry(Mode, 15.0), Entry(Median, 20.0)]
    requires o.order == OrderString(o.sorted)
    ensures o.order == "Mean < Mode < Median"
  {
    var names := Labels(o.sorted);
    assert names == ["Mean", "Mode", "Median"];
    JoinThree(names);
  }

  /** Mean 10, median 15, mode 20: the median is in the middle. */
  lemma StandardSkewExample()
    ensures var o := Classify(10.0, 15.0, 20.0);
      && o.sorted == Entries(10.0, 15.0, 20.0)
      && o.order == "Mean < Median < Mode"
      && !o.modeIsMiddle
  {
    assert Order(10.0, 15.0, 20.0) == Entries(10.0, 15.0, 20.0) by {
      OrderCases(10.0, 15.0, 20.0);
    }
    StandardSkewText(Classify(10.0, 15.0, 20.0));
  }

  lemma StandardSkewText(o: OrderingResult)
    requires o.sorted == [Entry(Mean, 10.0), Entry(Median, 15.0), Entry(Mode, 20.0)]
    requires o.order == OrderString(o.sorted)
    ensures o.order == "Mean < Median < Mode"
  {
    var names := Labels(o.sorted);
    assert names == ["Mean", "Median", "Mode"];
    JoinThree(names);
  }
}
