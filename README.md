# Distribution Mixer: statistics and verdict, modelled in Dafny

The Distribution Mixer page draws two Gaussian populations and concatenates
them. It then reports three figures for the combined sample: its mean, its
median, and a "mode" taken from the peak of a 100-bin histogram. Finally it
orders the three figures and says whether the mode is trapped strictly
between the mean and the median.

This project models that pipeline over exact `real` numbers, with both
samples given as inputs:

- `samples.dfy` (module `Samples`): sum, minimum, maximum and ascending sort
  of a sample. These give the meaning of the numpy reductions below.
- `sampler.dfy` (module `Sampler`): `np.concatenate` of the two populations.
- `summarizer.dfy` (module `Summarizer`): `np.mean`, `np.median`,
  `np.histogram(bins=100)` and `bins[np.argmax(counts)]`.
  - It includes two loop methods: one counts the bins, the other finds the
    leftmost fullest bin. Each is proved equal to its function.
- `classifier.dfy` (module `Classifier`):
  - the (label, value) pairs in listing order Mean, Median, Mode;
  - Python's stable `sorted` by value;
  - `" < ".join` of the labels, with its inverse `split`;
  - the trapped-mode predicate;
  - the choice of message.
- `pipeline.dfy` (module `Pipeline`): one whole run, from the two samples to
  the report. The report carries the page's own message choice and, beside
  it, the corrected verdict (see "## Findings").

Histogram conventions, as numpy defines them:
- The range is `[min, max]` of the combined sample.
- It is split into 100 equal-width bins. Each bin includes its left edge and
  excludes its right edge, except the last bin, which includes `max`.
- The reported mode is the left edge `min + k * (max - min) / 100` of the
  lowest-index bin `k` with the largest count.
- When every value is the same (`min == max`), numpy widens the range to
  `[v - 0.5, v + 0.5]`. The model does the same. All values then land in
  bin 50, whose left edge is `v`, so mean, median and mode are all `v` and
  the mode is not trapped (`Summarizer.ConstantSample`,
  `Pipeline.ConstantRun`).

An empty combined sample gives `Err(EmptySample)`. This is a modelling
choice, not numpy's behaviour (see "## Left out"), and the page's slider
bounds never produce an empty sample.

## Model

| member | source | states |
|---|---|---|
| `Sampler.Combine` | home.py:29 | combined length is n1 + n2; the first n1 elements are pop1 and the rest pop2, unchanged; its multiset is the union of the two |
| `Sampler.CombinedSum` | home.py:29 | the combined total is the sum of the two populations' totals |
| `Sampler.CombinedExtremes` | home.py:29 | combined min and max are the smaller min and the larger max of the two populations |
| `Pipeline.CombinedMeanIsWeighted` | home.py:29-32 | combined mean times (n1 + n2) equals mean1 * n1 + mean2 * n2, a size-weighted average |
| `Samples.Sum` | home.py:32 | definition of the total, accumulated from the back; its properties are in `SumConcat`, `SumPermutation`, `SumAtLeast` and `SumAtMost` |
| `Samples.SumConcat` | home.py:32 | the sum of a concatenation is the sum of the sums |
| `Samples.SumPermutation` | home.py:32 | the sum does not depend on the order of the elements |
| `Samples.SumAtLeast` | home.py:32 | a lower bound b on every element gives n * b <= sum |
| `Samples.SumAtMost` | home.py:32 | an upper bound b on every element gives sum <= n * b |
| `Samples.Min` | home.py:37 | the result is an element of the sample and no element is smaller |
| `Samples.Max` | home.py:37 | the result is an element of the sample and no element is larger |
| `Samples.MinMaxPermutation` | home.py:37 | min and max do not depend on the order of the sample |
| `Samples.Insert` | home.py:33 | inserting into an ascending sequence keeps it ascending and adds exactly one copy of the value |
| `Samples.Sort` | home.py:33 | the result is ascending, has the same length, and is a permutation of the input |
| `Samples.AscendingUnique` | home.py:33 | two ascending sequences with the same multiset are equal |
| `Samples.SortedElement` | home.py:33 | every element of the sorted sample occurs in the sample |
| `Summarizer.Mean` | home.py:32 | mean times the sample size is the sum |
| `Summarizer.MeanWithin` | home.py:32 | the mean lies in [min, max] of the sample |
| `Summarizer.ConstantMean` | home.py:32 | a sample of one repeated value v has mean v |
| `Summarizer.MeanPermutation` | home.py:32 | the mean does not depend on the order of the sample |
| `Summarizer.Median` | home.py:33 | the middle of the sorted sample (mean of the two middle elements for even length) lies in [min, max] |
| `Summarizer.MiddleOf` | home.py:33 | for odd length the middle element; for even length a value between the two middle elements |
| `Summarizer.ConstantMedian` | home.py:33 | a sample of one repeated value v has median v |
| `Summarizer.MedianPermutation` | home.py:33 | the median does not depend on the order of the sample |
| `Summarizer.BinRange` | home.py:37 | the range is [min, max] when min < max, and [v - 0.5, v + 0.5] when all values equal v; it contains every value and has positive width |
| `Summarizer.Edge` | home.py:37-38 | definition of the k-th of the 101 equally spaced edges `bins`; see `EdgeMonotone` and `EdgeInRange` |
| `Summarizer.InBin` | home.py:37 | definition of bin membership: left edge included, right edge excluded, except `hi` in the last bin; see `BinOf` and `BinUnique` |
| `Summarizer.EdgeMonotone` | home.py:37 | bin edges strictly increase with their index |
| `Summarizer.EdgeInRange` | home.py:37-38 | every left edge of the 100 bins lies in [lo, hi) |
| `Summarizer.BinOf` | home.py:37 | a value in [lo, hi] is placed in a bin that holds it: left edge <= x < right edge, or x = hi in the last bin |
| `Summarizer.BinUnique` | home.py:37 | bins partition [lo, hi]: a value is in bin j exactly when j is its computed bin |
| `Summarizer.CountBin` | home.py:37 | the number of sample values in bin k, never more than the sample size; see `CountBinPermutation` and `CountBinOccupied` |
| `Summarizer.Histogram` | home.py:37 | the 100 counts `counts`, one per bin; see `HistogramTotal`, `HistogramSnoc` and `CountBins` |
| `Summarizer.HistogramSnoc` | home.py:37 | appending one value raises the count of its bin by one and leaves the other 99 counts unchanged |
| `Summarizer.HistogramTotal` | home.py:37 | the 100 counts add up to the sample size |
| `Summarizer.CountBinOccupied` | home.py:37 | a bin with a positive count holds some value of the sample |
| `Summarizer.CountBinPermutation` | home.py:37 | each bin count does not depend on the order of the sample |
| `Summarizer.HistogramPermutation` | home.py:37 | the histogram does not depend on the order of the sample |
| `Summarizer.CountBins` | home.py:37 | the counting loop returns exactly the histogram counts, which total the sample size |
| `Summarizer.ArgMax` | home.py:38 | the index holds the largest count, and every lower index holds a strictly smaller count (leftmost maximum) |
| `Summarizer.PeakBin` | home.py:38 | the scanning loop returns the leftmost maximum, equal to `ArgMax` |
| `Summarizer.PeakOccupied` | home.py:37-38 | the peak bin of a non-empty sample has a positive count and holds a sample value |
| `Summarizer.ModeEstimate` | home.py:37-38 | the estimate lies in [min, max], strictly below max when min < max, and equals the common value when min == max |
| `Summarizer.ModeIsPeakEdge` | home.py:37-38 | the estimate is the left edge of an occupied bin that no bin outnumbers and that every lower bin undercounts |
| `Summarizer.ConstantPeak` | home.py:37-38 | for an all-equal sample the peak is bin 50, whose left edge is the common value |
| `Summarizer.ModePermutation` | home.py:37-38 | the mode estimate does not depend on the order of the sample |
| `Summarizer.Summarize` | home.py:32-38 | error exactly for the empty sample; otherwise mean, median and mode in [min, max] and a positive bin width |
| `Summarizer.SummarizePermutation` | home.py:32-38 | the summary of any reordering of the sample is the same |
| `Summarizer.ConstantSample` | home.py:32-38 | a sample of one repeated value v summarizes to mean = median = mode = v with bin width 1/100 |
| `Classifier.Entries` | home.py:65 | the dict's three (label, value) pairs, with ranks strictly increasing in listing order Mean, Median, Mode |
| `Classifier.InsertEntry` | home.py:66 | insertion of one pair in front of the first pair whose value is not smaller, adding one pair; see `InsertEntrySorted` and `InsertStable` |
| `Classifier.SortByValue` | home.py:66 | the insertion sort standing for `sorted(..., key=value)`, length preserved; see `SortByValueSorted` and `SortStable` |
| `Classifier.Order` | home.py:65-66 | `sorted_vals`: the sort of the three pairs, three long; see `OrderSpec` and `OrderCases` |
| `Classifier.InsertEntrySorted` | home.py:66 | inserting a pair keeps the sequence ascending by value and adds exactly that pair |
| `Classifier.SortByValueSorted` | home.py:66 | the result is ascending by value, has the same length, and is a permutation of the input |
| `Classifier.InsertStable` | home.py:66 | inserting a pair that ranks before all others keeps equal values in listing order |
| `Classifier.SortStable` | home.py:65-66 | sorting pairs given in listing order leaves equal values in that order (stability) |
| `Classifier.OrderSpec` | home.py:65-66 | the ordering has three pairs, is a permutation of (Mean, Median, Mode), is ascending by value, and keeps ties in the order Mean, Median, Mode |
| `Classifier.OrderCases` | home.py:65-66 | the ordering spelled out by comparisons: Median and Mode ordered first (Median first on a tie), then Mean placed before the first of them it does not exceed |
| `Classifier.Join` | home.py:67 | `" < ".join(parts)`; the first part is a prefix of the result; see `SplitJoin` and `JoinThree` |
| `Classifier.SplitPlain` | home.py:67 | splitting a word with no space on " < " gives that word alone |
| `Classifier.SplitPlainThenSeparator` | home.py:67 | splitting word + " < " + rest gives the word followed by the split of rest |
| `Classifier.SplitJoin` | home.py:67 | splitting the " < "-join of space-free words gives the words back |
| `Classifier.JoinThree` | home.py:67 | joining three labels gives label0 + " < " + label1 + " < " + label2 |
| `Classifier.SplitOrderString` | home.py:67 | splitting the order string of any non-empty ordering on " < " gives its labels back |
| `Classifier.Labels` | home.py:67 | one label per pair, in the ordering's order |
| `Classifier.OrderString` | home.py:67 | definition of `order_str` as the join of the labels; see `OrderStringOfThree` and `SplitOrderString` |
| `Classifier.OrderStringOfThree` | home.py:67 | the order string is label0 + " < " + label1 + " < " + label2, and splitting it gives the three labels back |
| `Classifier.ModeTrapped` | home.py:71 | the page's condition; when it holds the mode lies between mean and median and all three values are distinct; see `TrappedIffModeInMiddle` |
| `Classifier.TrappedIffModeInMiddle` | home.py:66-71 | the strict-betweenness predicate holds exactly when Mode is the middle label and the three sorted values are strictly increasing |
| `Classifier.Classify` | home.py:65-71 | sorted pairs as in `OrderSpec`, the order string of those pairs (which splits back into the labels), and a flag equal to the predicate; when the flag is set, Mode is the middle label and all three values are distinct |
| `Classifier.TrappedExample` | home.py:65-71 | mean 10, median 20, mode 15 gives "Mean < Mode < Median" with the mode trapped |
| `Classifier.TrappedText` | home.py:67 | the order string of the pairs (Mean 10, Mode 15, Median 20) is "Mean < Mode < Median" |
| `Classifier.StandardSkewExample` | home.py:65-71 | mean 10, median 15, mode 20 gives "Mean < Median < Mode" and the mode is not trapped |
| `Classifier.StandardSkewText` | home.py:67 | the order string of the pairs (Mean 10, Median 15, Mode 20) is "Mean < Median < Mode" |
| `Classifier.MiddleIsBetween` | home.py:66-71 | the middle statistic of the ordering has a value between those of the other two |
| `Classifier.VerdictAsWritten` | home.py:71-74 | the page picks the trapped message exactly when the predicate holds, and the median message otherwise |
| `Classifier.VerdictAsWrittenMisreports` | home.py:71-74 | for median 10 < mean 15 < mode 20 the page reports the median message, yet the median is not between the other two and the mean is the middle label |
| `Classifier.VerdictCorrected` | home.py:71-74 | trapped exactly when the predicate holds; otherwise it names the middle statistic, whose value lies between the other two |
| `Pipeline.Run` | home.py:29-74 | error exactly when both samples are empty. Otherwise the report holds: the concatenation; its summary; the `Classify` ordering, whose flag equals the trapped predicate; the page's message, `VerdictAsWritten`, which is the trapped message exactly when the flag is set; and the corrected verdict, `VerdictCorrected`, which agrees with the flag |
| `Pipeline.RunSymmetric` | home.py:29-74 | swapping the two populations changes neither the statistics, the ordering, the page's message, nor the corrected verdict |
| `Pipeline.ConstantRun` | home.py:29-74 | two populations of one repeated value v give mean = median = mode = v, no trapped mode, the page's median message, and a corrected verdict naming the Median |

## Left out

- Page setup, sliders, columns, and text, info, success and warning output (home.py:7-24, 53-74) are presentation only. The choice between the two messages is modelled, but not their text.
- Drawing the populations with `np.random.normal` (home.py:27-28) is random and a foreign call. The two samples are inputs to `Pipeline.Run`. The slider bounds mean sizes of at least 100 and 10. `Run` needs no such condition: it returns an error only when both samples are empty.
- Plotting with seaborn and matplotlib (home.py:41-50, 56) is rendering only. This covers the KDE overlay, the vertical lines and the legend.
- Two-decimal formatting of the numbers (home.py:45-47, 60-62) is float-to-text conversion.
- IEEE floating-point rounding is not modelled. This covers the sum, the division, the bin width, the bin edges and the bin assignment. Everything is exact over `real`, so numpy's float corrections at bin edges do not arise.
- numpy's range widening for `min == max` is not in the repository's files. numpy's `histogram` docstring says only that the range defaults to `(a.min(), a.max())`. The widening by 0.5 on each side comes from numpy's implementation, where it computes the outer bin edges, and the model follows that implementation.
- The empty combined sample: `Summarizer.Summarize` and `Pipeline.Run` return `Err(EmptySample)`, which is a modelling choice. numpy does not fail here: `np.mean` and `np.median` give nan, and `np.histogram` falls back to the range (0, 1), so the mode would be 0.0. NaN is not modelled. The case cannot arise on the page, because the slider bounds keep both sizes positive (home.py:19, 24).
- The unused `scipy.stats` import (home.py:5) does nothing.
- `Summarizer.Median`: it does not state that half the sample lies on each side. Its contract gives the bounds, and `MedianPermutation` gives order independence.

## Findings

| source | as written | input that shows it | evidently intended | confidence | as-written member | corrected member |
|---|---|---|---|---|---|---|
| home.py:71-74 | when the mode is not strictly between mean and median, the page always says "The Median is currently in the middle" | mean 15, median 10, mode 20 (order Median < Mean < Mode): the mean is in the middle, not the median | name the statistic that is actually in the middle | medium; not executed | `Classifier.VerdictAsWritten` (shown by `Classifier.VerdictAsWrittenMisreports`) | `Classifier.VerdictCorrected` (reported by `Pipeline.Run` as `corrected`, beside the page's `message`) |
