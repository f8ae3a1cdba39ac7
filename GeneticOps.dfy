/**
 * The pure operators of the genetic algorithm: the two crossovers, per-locus
 * mutation given its flip decisions, the local search of the alternating-locus
 * ("learning") mode, and roulette-wheel index lookup.
 */
module GeneticOps {
  import opened Bits

  /** Number of completions of the odd loci tried by the local search. */
  const Trials: nat := 20

  /** Standard single-point crossover at point `c`: heads stay, tails swap. */
  function Cross(a: Genome, b: Genome, c: nat): (children: (Genome, Genome))
    requires |a| == |b| && 1 <= c < |a|
    ensures |children.0| == |a| && |children.1| == |a|
  {
    (a[..c] + b[c..], b[..c] + a[c..])
  }

  /**
   * Which parent every locus comes from, and conservation of bits: at each
   * locus the two children hold the same pair of values as the two parents.
   */
  lemma CrossLoci(a: Genome, b: Genome, c: nat)
    requires |a| == |b| && 1 <= c < |a|
    ensures forall i :: 0 <= i < c ==> Cross(a, b, c).0[i] == a[i] && Cross(a, b, c).1[i] == b[i]
    ensures forall i :: c <= i < |a| ==> Cross(a, b, c).0[i] == b[i] && Cross(a, b, c).1[i] == a[i]
    ensures forall i :: 0 <= i < |a| ==>
      multiset{Cross(a, b, c).0[i], Cross(a, b, c).1[i]} == multiset{a[i], b[i]}
  {
  }

  /** Crossover conserves the total number of ones. */
  lemma CrossConservesOnes(a: Genome, b: Genome, c: nat)
    requires |a| == |b| && 1 <= c < |a|
    ensures CountOnes(Cross(a, b, c).0) + CountOnes(Cross(a, b, c).1) == CountOnes(a) + CountOnes(b)
  {
    CountOnesAppend(a[..c], b[c..]);
    CountOnesAppend(b[..c], a[c..]);
    CountOnesAppend(a[..c], a[c..]);
    CountOnesAppend(b[..c], b[c..]);
    assert a[..c] + a[c..] == a;
    assert b[..c] + b[c..] == b;
  }

  /** Crossing the children again at the same point gives back the parents. */
  lemma CrossInvolution(a: Genome, b: Genome, c: nat)
    requires |a| == |b| && 1 <= c < |a|
    ensures Cross(Cross(a, b, c).0, Cross(a, b, c).1, c) == (a, b)
  {
    var (x, y) := Cross(a, b, c);
    assert x[..c] + y[c..] == a;
    assert y[..c] + x[c..] == b;
  }

  /**
   * Alternating-locus crossover: single-point crossover of the even-indexed
   * sub-genomes, spread back onto the even loci of two zero strings.
   */
  function LearningCross(a: Genome, b: Genome, c: nat): (children: (Genome, Genome))
    requires |a| == |b| && |a| % 2 == 0 && 1 <= c < |a| / 2
    ensures |children.0| == |a| && |children.1| == |a|
    ensures Evens(children.0) == Cross(Evens(a), Evens(b), c).0
    ensures Evens(children.1) == Cross(Evens(a), Evens(b), c).1
    ensures forall i :: 0 <= i < |a| && i % 2 == 1 ==> !children.0[i] && !children.1[i]
  {
    var sub := Cross(Evens(a), Evens(b), c);
    SpreadEvensSpec(sub.0, |a|);
    SpreadEvensSpec(sub.1, |a|);
    (SpreadEvens(sub.0, |a|), SpreadEvens(sub.1, |a|))
  }

  /** `crossOver` in either mode, with its random point `c` given. */
  function Crossover(a: Genome, b: Genome, c: nat, learning: bool): (children: (Genome, Genome))
    requires |a| == |b|
    requires if learning then |a| % 2 == 0 && 1 <= c < |a| / 2 else 1 <= c < |a|
    ensures |children.0| == |a| && |children.1| == |a|
  {
    if learning then LearningCross(a, b, c) else Cross(a, b, c)
  }

  /**
   * Per-locus mutation with the decisions `flips` drawn in advance; in
   * learning mode only the even loci are subject to it.
   */
  function Flip(g: Genome, flips: seq<bool>, evensOnly: bool): Genome
    requires |flips| == |g|
  {
    seq(|g|, j requires 0 <= j < |g| => if !evensOnly || j % 2 == 0 then g[j] != flips[j] else g[j])
  }

  /**
   * Mutation inverts exactly the decided loci (the even ones in learning
   * mode), keeps every other locus, and undoes itself with the same decisions.
   */
  lemma FlipSpec(g: Genome, flips: seq<bool>, evensOnly: bool)
    requires |flips| == |g|
    ensures |Flip(g, flips, evensOnly)| == |g|
    ensures Flip(Flip(g, flips, evensOnly), flips, evensOnly) == g
    ensures evensOnly ==> Odds(Flip(g, flips, evensOnly)) == Odds(g)
    ensures forall j :: 0 <= j < |g| && flips[j] && (!evensOnly || j % 2 == 0) ==>
      Flip(g, flips, evensOnly)[j] == !g[j]
    ensures forall j :: 0 <= j < |g| && !flips[j] ==> Flip(g, flips, evensOnly)[j] == g[j]
  {
    var r := Flip(g, flips, evensOnly);
    if evensOnly {
      forall i | 0 <= i < |g| / 2 ensures Odds(r)[i] == Odds(g)[i] {
        assert (2 * i + 1) % 2 == 1;
      }
    }
  }

  /** The genome `g` with its odd loci replaced by the big-endian encoding of `cand`. */
  function Trial(g: Genome, cand: nat): Genome
  {
    SetOdds(g, Encode(cand, |g| / 2))
  }

  /**
   * The genome kept by `guessTheRest` after its first `k` trials: the start
   * genome, replaced by a trial only when the trial scores strictly higher.
   */
  function Search(f: Genome -> real, g: Genome, cands: seq<nat>, k: nat): Genome
    requires k <= |cands|
  {
    if k == 0 then g
    else
      var best := Search(f, g, cands, k - 1);
      var t := Trial(g, cands[k - 1]);
      if f(t) > f(best) then t else best
  }

  /**
   * The local search keeps the length and the even loci, never loses score,
   * and returns the first trial with the highest score if that score beats
   * the start, the start otherwise.
   */
  lemma {:induction false} SearchSpec(f: Genome -> real, g: Genome, cands: seq<nat>, k: nat)
    requires k <= |cands|
    ensures |Search(f, g, cands, k)| == |g|
    ensures Evens(Search(f, g, cands, k)) == Evens(g)
    ensures f(Search(f, g, cands, k)) >= f(g)
    ensures forall j :: 0 <= j < k ==> f(Trial(g, cands[j])) <= f(Search(f, g, cands, k))
    ensures (forall j :: 0 <= j < k ==> f(Trial(g, cands[j])) <= f(g)) ==> Search(f, g, cands, k) == g
    ensures Search(f, g, cands, k) == g ||
      exists j :: 0 <= j < k && Search(f, g, cands, k) == Trial(g, cands[j]) &&
        f(Trial(g, cands[j])) > f(g) &&
        forall i :: 0 <= i < j ==> f(Trial(g, cands[i])) < f(Trial(g, cands[j]))
  {
    if k > 0 {
      SearchSpec(f, g, cands, k - 1);
      SetOddsSpec(g, Encode(cands[k - 1], |g| / 2));
      var prev := Search(f, g, cands, k - 1);
      var t := Trial(g, cands[k - 1]);
      if f(t) > f(prev) {
        assert Search(f, g, cands, k) == t;
        assert forall i :: 0 <= i < k - 1 ==> f(Trial(g, cands[i])) < f(t);
      }
    }
  }

  /** Distance between two reals. */
  function Dist(x: real, v: real): real
  {
    if x >= v then x - v else v - x
  }

  /** The first index minimising the distance to `v` (numpy's `argmin`). */
  function Nearest(cum: seq<real>, v: real): (k: nat)
    requires |cum| > 0
    ensures k < |cum|
    ensures forall i :: 0 <= i < |cum| ==> Dist(cum[k], v) <= Dist(cum[i], v)
    ensures forall i :: 0 <= i < k ==> Dist(cum[i], v) > Dist(cum[k], v)
  {
    if |cum| == 1 then 0
    else
      var k := Nearest(cum[..|cum| - 1], v);
      if Dist(cum[|cum| - 1], v) < Dist(cum[k], v) then |cum| - 1 else k
  }

  /**
   * `findNearest`: the nearest cumulative entry, moved one place on when that
   * entry lies below the draw. The result is never past the end when the draw
   * does not exceed the last entry.
   */
  function FindNearest(cum: seq<real>, v: real): (idx: nat)
    requires |cum| > 0
    ensures idx <= |cum|
    ensures v <= cum[|cum| - 1] ==> idx < |cum|
  {
    var k := Nearest(cum, v);
    if cum[k] < v then k + 1 else k
  }

  predicate StrictlyIncreasing(s: seq<real>)
  {
    forall i, j :: 0 <= i < j < |s| ==> s[i] < s[j]
  }

  /**
   * On a strictly increasing cumulative array, `findNearest` is the insertion
   * point of the draw: every earlier entry is below it, the chosen one is not.
   */
  lemma FindNearestIsInsertionPoint(cum: seq<real>, v: real)
    requires |cum| > 0 && StrictlyIncreasing(cum)
    ensures forall i :: 0 <= i < FindNearest(cum, v) ==> cum[i] < v
    ensures FindNearest(cum, v) < |cum| ==> cum[FindNearest(cum, v)] >= v
  {
    var k := Nearest(cum, v);
    if cum[k] < v {
      if k + 1 < |cum| {
        assert Dist(cum[k + 1], v) >= Dist(cum[k], v);
      }
    } else if k > 0 {
      assert Dist(cum[k - 1], v) > Dist(cum[k], v);
    }
  }

  /**
   * With two equal adjacent entries (a genome of fitness zero) the result can
   * be an index whose cumulative value is below the draw: here index 1,
   * whose own share of the wheel is empty.
   */
  lemma FindNearestTie()
    ensures FindNearest([0.5, 0.5, 1.0], 0.6) == 1
    ensures [0.5, 0.5, 1.0][1] < 0.6
  {
    var cum := [0.5, 0.5, 1.0];
    assert cum[..2][..1] == [0.5];
    assert Nearest(cum[..2], 0.6) == 0;
    assert Nearest(cum, 0.6) == 0;
  }
}
