/**
 * The sampler: the two Gaussian populations are drawn outside the model and
 * arrive here as plain samples; the sampler's own work is to concatenate them.
 */
module Sampler {
  import opened Samples

  /** np.concatenate([pop1, pop2]): pop1 followed by pop2, elements untouched. */
  function Combine(pop1: seq<real>, pop2: seq<real>): (c: seq<real>)
    ensures |c| == |pop1| + |pop2|
    ensures c[..|pop1|] == pop1 && c[|pop1|..] == pop2
    ensures multiset(c) == multiset(pop1) + multiset(pop2)
  {
    pop1 + pop2
  }

  /** The combined total is the sum of the two populations' totals. */
  lemma CombinedSum(pop1: seq<real>, pop2: seq<real>)
    ensures Sum(Combine(pop1, pop2)) == Sum(pop1) + Sum(pop2)
  {
    SumConcat(pop1, pop2);
  }

  /** Neither population can push the combined extremes outside the union of its own. */
  lemma CombinedExtremes(pop1: seq<real>, pop2: seq<real>)
    requires |pop1| > 0 && |pop2| > 0
    ensures var c := Combine(pop1, pop2);
      && Min(c) == (if Min(pop1) <= Min(pop2) then Min(pop1) else Min(pop2))
      && Max(c) == (if Max(pop1) >= Max(pop2) then Max(pop1) else Max(pop2))
  {
    CombinedMin(pop1, pop2);
    CombinedMax(pop1, pop2);
  }

  lemma CombinedMin(pop1: seq<real>, pop2: seq<real>)
    requires |pop1| > 0 && |pop2| > 0
    ensures Min(Combine(pop1, pop2)) == (if Min(pop1) <= Min(pop2) then Min(pop1) else Min(pop2))
  {
    var c := Combine(pop1, pop2);
    var m := Min(c);
    var i :| 0 <= i < |pop1| && pop1[i] == Min(pop1);
    var j :| 0 <= j < |pop2| && pop2[j] == Min(pop2);
    assert c[i] == pop1[i] && c[|pop1| + j] == pop2[j];
    var k :| 0 <= k < |c| && c[k] == m;
    if k < |pop1| {
      assert c[k] == pop1[k];
    } else {
      assert c[k] == pop2[k - |pop1|];
    }
  }

  lemma CombinedMax(pop1: seq<real>, pop2: seq<real>)
    requires |pop1| > 0 && |pop2| > 0
    ensures Max(Combine(pop1, pop2)) == (if Max(pop1) >= Max(pop2) then Max(pop1) else Max(pop2))
  {
    var c := Combine(pop1, pop2);
    var m := Max(c);
    var i :| 0 <= i < |pop1| && pop1[i] == Max(pop1);
    var j :| 0 <= j < |pop2| && pop2[j] == Max(pop2);
    assert c[i] == pop1[i] && c[|pop1| + j] == pop2[j];
    var k :| 0 <= k < |c| && c[k] == m;
    if k < |pop1| {
      assert c[k] == pop1[k];
    } else {
      assert c[k] == pop2[k - |pop1|];
    }
  }
}
