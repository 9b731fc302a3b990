/**
 * One run of the page from the two drawn populations on: combine them,
 * summarize the combined sample, and classify the three statistics.
 */
module Pipeline {
  import opened Samples
  import Sampler
  import Summarizer
  import Classifier

  /**
   * Everything the page derives from one pair of samples: the page's own
   * message choice, and beside it the verdict that names the statistic
   * actually in the middle.
   */
  datatype Report = Report(
    combined: seq<real>,
    stats: Summarizer.SummaryStats,
    ordering: Classifier.OrderingResult,
    message: Classifier.PageVerdict,
    corrected: Classifier.Verdict)

  function Run(pop1: seq<real>, pop2: seq<real>): (r: Summarizer.Result<Report>)
    ensures r.Err? <==> |pop1| + |pop2| == 0
    ensures r.Ok? ==> (
      && r.value.combined == Sampler.Combine(pop1, pop2)
      && r.value.stats == Summarizer.Summarize(r.value.combined).value
      && var st := r.value.stats;
         && r.value.ordering == Classifier.Classify(st.mean, st.median, st.mode)
         && r.value.message == Classifier.VerdictAsWritten(st.mean, st.median, st.mode)
         && r.value.corrected == Classifier.VerdictCorrected(st.mean, st.median, st.mode)
         && (r.value.ordering.modeIsMiddle <==> Classifier.ModeTrapped(st.mean, st.median, st.mode))
         && (r.value.message == Classifier.ModeTrappedMessage <==> r.value.ordering.modeIsMiddle)
         && (r.value.corrected == Classifier.Trapped <==> r.value.ordering.modeIsMiddle))
  {
    var c := Sampler.Combine(pop1, pop2);
    match Summarizer.Summarize(c)
    case Err(e) => Summarizer.Err(e)
    case Ok(st) =>
      Summarizer.Ok(Report(c, st,
        Classifier.Classify(st.mean, st.median, st.mode),
        Classifier.VerdictAsWritten(st.mean, st.median, st.mode),
        Classifier.VerdictCorrected(st.mean, st.median, st.mode)))
  }

  /**
   * The combined mean is the size-weighted average of the two sample means:
   * mean * (n1 + n2) == mean1 * n1 + mean2 * n2.
   */
  lemma CombinedMeanIsWeighted(pop1: seq<real>, pop2: seq<real>)
    requires |pop1| > 0 && |pop2| > 0
    ensures var c := Sampler.Combine(pop1, pop2);
      && |c| == |pop1| + |pop2|
      && Summarizer.Mean(c) * (|c| as real)
        == Summarizer.Mean(pop1) * (|pop1| as real) + Summarizer.Mean(pop2) * (|pop2| as real)
  {
    Sampler.CombinedSum(pop1, pop2);
    Summarizer.MeanOfParts(Sampler.Combine(pop1, pop2), pop1, pop2);
  }

  /** Which population comes first changes neither the statistics nor the verdict. */
  lemma RunSymmetric(pop1: seq<real>, pop2: seq<real>)
    ensures var a, b := Run(pop1, pop2), Run(pop2, pop1);
      && a.Err? == b.Err?
      && (a.Ok? ==> a.value.stats == b.value.stats && a.value.ordering == b.value.ordering
                    && a.value.message == b.value.message && a.value.corrected == b.value.corrected)
  {
    var c, d := Sampler.Combine(pop1, pop2), Sampler.Combine(pop2, pop1);
    assert multiset(c) == multiset(d);
    Summarizer.SummarizePermutation(c, d);
  }

  /**
   * Two populations of one repeated value give mean = median = mode, no trapped
   * mode, and the median (second in listing order) in the middle.
   */
  lemma ConstantRun(pop1: seq<real>, pop2: seq<real>, v: real)
    requires |pop1| + |pop2| > 0
    requires forall i :: 0 <= i < |pop1| ==> pop1[i] == v
    requires forall i :: 0 <= i < |pop2| ==> pop2[i] == v
    ensures Run(pop1, pop2).Ok?
    ensures Run(pop1, pop2).value.stats == Summarizer.SummaryStats(v, v, v, 1.0 / 100.0)
    ensures !Run(pop1, pop2).value.ordering.modeIsMiddle
    ensures Run(pop1, pop2).value.message == Classifier.MedianInMiddleMessage
    ensures Run(pop1, pop2).value.corrected == Classifier.InMiddle(Classifier.Median)
  {
    var c := Sampler.Combine(pop1, pop2);
    assert forall i :: 0 <= i < |c| ==> c[i] == v by {
      forall i | 0 <= i < |c| ensures c[i] == v {
        if i >= |pop1| { assert c[i] == pop2[i - |pop1|]; }
      }
    }
    Summarizer.ConstantSample(c, v);
    Classifier.OrderCases(v, v, v);
  }
}
