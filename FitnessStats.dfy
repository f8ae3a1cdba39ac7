/**
 * Fitness bookkeeping of the genetic algorithm over idealised real numbers:
 * the absolute scores, their normalisation to fractions of the total, the
 * cumulative (roulette-wheel) array, and the statistics a generation reports.
 */
module FitnessStats {
  import opened Bits

  function Sum(s: seq<real>): real
  {
    if s == [] then 0.0 else Sum(s[..|s| - 1]) + s[|s| - 1]
  }

  /** Every fitness value divided by the total (`fitness / np.sum(fitness)`). */
  function Normalise(fs: seq<real>): (norm: seq<real>)
    requires Sum(fs) != 0.0
    ensures |norm| == |fs|
  {
    seq(|fs|, i requires 0 <= i < |fs| => fs[i] / Sum(fs))
  }

  /** Running totals (`np.cumsum`): entry i is the sum of entries 0..i. */
  function CumSum(s: seq<real>): (cum: seq<real>)
    ensures |cum| == |s|
  {
    seq(|s|, i requires 0 <= i < |s| => Sum(s[..i + 1]))
  }

  /** Absolute fitness of every genome, in population order. */
  function Scores(f: Genome -> real, pop: seq<Genome>): (fs: seq<real>)
    ensures |fs| == |pop|
  {
    seq(|pop|, i requires 0 <= i < |pop| => f(pop[i]))
  }

  predicate AllNonNegative(s: seq<real>)
  {
    forall i :: 0 <= i < |s| ==> s[i] >= 0.0
  }

  /** The first index holding the largest value (numpy's `argmax`). */
  function FirstArgMax(fs: seq<real>): (k: nat)
    requires |fs| > 0
    ensures k < |fs|
    ensures forall i :: 0 <= i < |fs| ==> fs[i] <= fs[k]
    ensures forall i :: 0 <= i < k ==> fs[i] < fs[k]
  {
    if |fs| == 1 then 0
    else
      var k := FirstArgMax(fs[..|fs| - 1]);
      if fs[|fs| - 1] > fs[k] then |fs| - 1 else k
  }

  /** The smallest value. */
  function MinOf(fs: seq<real>): (m: real)
    requires |fs| > 0
    ensures forall i :: 0 <= i < |fs| ==> m <= fs[i]
    ensures exists i :: 0 <= i < |fs| && m == fs[i]
  {
    if |fs| == 1 then fs[0]
    else
      var m := MinOf(fs[..|fs| - 1]);
      assert forall i :: 0 <= i < |fs| - 1 ==> fs[..|fs| - 1][i] == fs[i];
      if fs[|fs| - 1] < m then fs[|fs| - 1] else m
  }

  /** What `calcFitness` returns: best, worst, mean, and the ones of the best genome. */
  datatype Stats = Stats(best: real, worst: real, ave: real, numOnes: nat)

  function StatsOf(fs: seq<real>, pop: seq<Genome>): Stats
    requires |fs| == |pop| > 0
  {
    Stats(fs[FirstArgMax(fs)], MinOf(fs), Sum(fs) / (|fs| as real), CountOnes(pop[FirstArgMax(fs)]))
  }

  lemma {:induction false} SumBounds(s: seq<real>, lo: real, hi: real)
    requires forall i :: 0 <= i < |s| ==> lo <= s[i] <= hi
    ensures (|s| as real) * lo <= Sum(s) <= (|s| as real) * hi
  {
    if s != [] {
      SumBounds(s[..|s| - 1], lo, hi);
      assert (|s| as real) * lo == ((|s| - 1) as real) * lo + lo;
      assert (|s| as real) * hi == ((|s| - 1) as real) * hi + hi;
    }
  }

  /**
   * The reported statistics: worst <= mean <= best, best and worst are
   * attained, and the count of ones is that of the first genome attaining best.
   */
  lemma StatsSpec(fs: seq<real>, pop: seq<Genome>)
    requires |fs| == |pop| > 0
    ensures StatsOf(fs, pop).worst <= StatsOf(fs, pop).ave <= StatsOf(fs, pop).best
    ensures forall i :: 0 <= i < |fs| ==> StatsOf(fs, pop).worst <= fs[i] <= StatsOf(fs, pop).best
    ensures exists i :: 0 <= i < |fs| && fs[i] == StatsOf(fs, pop).worst
    ensures exists k ::
      && 0 <= k < |fs| && fs[k] == StatsOf(fs, pop).best
      && StatsOf(fs, pop).numOnes == CountOnes(pop[k])
      && (forall i :: 0 <= i < k ==> fs[i] < StatsOf(fs, pop).best)
  {
    var k := FirstArgMax(fs);
    var lo, hi := MinOf(fs), fs[k];
    SumBounds(fs, lo, hi);
    DivBounds(Sum(fs), |fs| as real, lo, hi);
  }

  lemma DivBounds(total: real, n: real, lo: real, hi: real)
    requires n > 0.0 && n * lo <= total <= n * hi
    ensures lo <= total / n <= hi
  {
  }

  lemma {:induction false} SumDivide(s: seq<real>, t: real)
    requires t != 0.0
    ensures Sum(seq(|s|, i requires 0 <= i < |s| => s[i] / t)) == Sum(s) / t
  {
    var d := seq(|s|, i requires 0 <= i < |s| => s[i] / t);
    if s != [] {
      var init := s[..|s| - 1];
      SumDivide(init, t);
      assert d[..|s| - 1] == seq(|init|, i requires 0 <= i < |init| => init[i] / t);
      assert Sum(d) == Sum(init) / t + s[|s| - 1] / t;
      assert Sum(init) / t + s[|s| - 1] / t == (Sum(init) + s[|s| - 1]) / t;
    }
  }

  /** The normalised fitness values sum to one. */
  lemma NormaliseSumsToOne(fs: seq<real>)
    requires Sum(fs) != 0.0
    ensures Sum(Normalise(fs)) == 1.0
  {
    var t := Sum(fs);
    SumDivide(fs, t);
    assert Normalise(fs) == seq(|fs|, i requires 0 <= i < |fs| => fs[i] / t);
    assert t / t == 1.0;
  }

  lemma {:induction false} SumPrefixMonotone(s: seq<real>, i: nat, j: nat)
    requires AllNonNegative(s) && i <= j <= |s|
    ensures Sum(s[..i]) <= Sum(s[..j])
  {
    if i < j {
      SumPrefixMonotone(s, i, j - 1);
      assert s[..j][..j - 1] == s[..j - 1];
    }
  }

  /**
   * With non-negative fitness and a positive total, the cumulative array is
   * non-decreasing, starts at or above zero and ends at exactly one.
   */
  lemma CumulativeSpec(fs: seq<real>)
    requires AllNonNegative(fs) && Sum(fs) > 0.0
    ensures |CumSum(Normalise(fs))| == |fs|
    ensures AllNonNegative(Normalise(fs))
    ensures forall i, j :: 0 <= i <= j < |fs| ==> 0.0 <= CumSum(Normalise(fs))[i] <= CumSum(Normalise(fs))[j]
    ensures |fs| > 0 ==> CumSum(Normalise(fs))[|fs| - 1] == 1.0
  {
    NormaliseNonNegative(fs);
    var norm := Normalise(fs);
    forall i, j | 0 <= i <= j < |fs| ensures 0.0 <= CumSum(norm)[i] <= CumSum(norm)[j] {
      CumSumMonotone(norm, i, j);
    }
    if |fs| > 0 {
      CumulativeEndsAtOne(fs);
    }
  }

  lemma NormaliseNonNegative(fs: seq<real>)
    requires AllNonNegative(fs) && Sum(fs) > 0.0
    ensures AllNonNegative(Normalise(fs))
  {
  }

  lemma CumSumMonotone(s: seq<real>, i: nat, j: nat)
    requires AllNonNegative(s) && i <= j < |s|
    ensures 0.0 <= CumSum(s)[i] <= CumSum(s)[j]
  {
    SumPrefixMonotone(s, 0, i + 1);
    SumPrefixMonotone(s, i + 1, j + 1);
    assert s[..0] == [];
  }

  /** Whatever the signs, a non-zero total makes the last cumulative entry one. */
  lemma CumulativeEndsAtOne(fs: seq<real>)
    requires |fs| > 0 && Sum(fs) != 0.0
    ensures CumSum(Normalise(fs))[|fs| - 1] == 1.0
  {
    assert Normalise(fs)[..|fs|] == Normalise(fs);
    NormaliseSumsToOne(fs);
  }
}
