/**
 * The genetic-algorithm engine (class `GA`): a population of fixed-length
 * genomes, its fitness arrays, and the generation step.
 *
 * Every random draw of the original is an explicit input: the integers the
 * population is built from, the roulette draws, the crossover decision and
 * point, the per-locus mutation decisions and the candidate completions of
 * the local search are all carried by the arguments.
 */
module GeneticAlgorithm {
  import opened Bits
  import opened GeneticOps
  import opened FitnessStats

  datatype GAError = DegenerateFitness

  datatype Result<T> = Success(value: T) | Failure(error: GAError)

  /**
   * The draws that produce one pair of offspring, in the order the generation
   * step consumes them: two roulette values in [0, 1), whether crossover
   * happens (the draw fell below pc) and at which point, the mutation
   * decisions (the draw fell below pm) for each child, and in learning mode
   * the candidate completions tried for each child.
   */
  datatype PairDraw = PairDraw(
    randA: real, randB: real,
    cross: bool, point: nat,
    flipsA: seq<bool>, flipsB: seq<bool>,
    guessA: seq<nat>, guessB: seq<nat>)

  /** A candidate completion is drawn uniformly from [0, 2^(len/2) - 1]. */
  predicate CandidatesOk(cands: seq<nat>, len: nat)
  {
    |cands| == Trials && forall j :: 0 <= j < |cands| ==> cands[j] < Pow2(len / 2)
  }

  /** The ranges the random generators draw from. */
  predicate DrawOk(d: PairDraw, len: nat, learning: bool)
  {
    && 0.0 <= d.randA < 1.0 && 0.0 <= d.randB < 1.0
    && (d.cross ==> if learning then len % 2 == 0 && 1 <= d.point < len / 2 else 1 <= d.point < len)
    && |d.flipsA| == len && |d.flipsB| == len
    && (learning ==> CandidatesOk(d.guessA, len) && CandidatesOk(d.guessB, len))
  }

  predicate AllOfLength(pop: seq<Genome>, len: nat)
  {
    forall i :: 0 <= i < |pop| ==> |pop[i]| == len
  }

  /**
   * The two offspring one iteration of `CreateNextGen` appends: roulette
   * selection of two parents, crossover or copy, mutation, and in learning
   * mode the local search on each child.
   */
  function Breed(pop: seq<Genome>, cum: seq<real>, d: PairDraw, len: nat, learning: bool, f: Genome -> real): (children: (Genome, Genome))
    requires |pop| > 0 && |cum| == |pop| && cum[|cum| - 1] == 1.0
    requires AllOfLength(pop, len) && DrawOk(d, len, learning)
    ensures |children.0| == len && |children.1| == len
  {
    var ia := FindNearest(cum, d.randA);
    var ib := FindNearest(cum, d.randB);
    var parents := if d.cross then Crossover(pop[ia], pop[ib], d.point, learning) else (pop[ia], pop[ib]);
    var a := Flip(parents.0, d.flipsA, learning);
    var b := Flip(parents.1, d.flipsB, learning);
    FlipSpec(parents.0, d.flipsA, learning);
    FlipSpec(parents.1, d.flipsB, learning);
    if learning then
      SearchSpec(f, a, d.guessA, Trials);
      SearchSpec(f, b, d.guessB, Trials);
      (Search(f, a, d.guessA, Trials), Search(f, b, d.guessB, Trials))
    else (a, b)
  }

  /** The population built by one generation: the offspring pairs in draw order. */
  function NextPopulation(pop: seq<Genome>, cum: seq<real>, draws: seq<PairDraw>, len: nat, learning: bool, f: Genome -> real): (next: seq<Genome>)
    requires |pop| > 0 && |cum| == |pop| && cum[|cum| - 1] == 1.0
    requires AllOfLength(pop, len) && forall i :: 0 <= i < |draws| ==> DrawOk(draws[i], len, learning)
    ensures |next| == 2 * |draws|
    ensures AllOfLength(next, len)
  {
    if draws == [] then []
    else
      var n := |draws| - 1;
      var c := Breed(pop, cum, draws[n], len, learning, f);
      NextPopulation(pop, cum, draws[..n], len, learning, f) + [c.0, c.1]
  }

  /** Extending the draws by one pair appends that pair's offspring. */
  lemma AppendPair(pop: seq<Genome>, cum: seq<real>, draws: seq<PairDraw>, i: nat, len: nat, learning: bool, f: Genome -> real)
    requires |pop| > 0 && |cum| == |pop| && cum[|cum| - 1] == 1.0
    requires AllOfLength(pop, len) && forall k :: 0 <= k < |draws| ==> DrawOk(draws[k], len, learning)
    requires i < |draws|
    ensures NextPopulation(pop, cum, draws[..i + 1], len, learning, f) ==
      NextPopulation(pop, cum, draws[..i], len, learning, f) +
      [Breed(pop, cum, draws[i], len, learning, f).0, Breed(pop, cum, draws[i], len, learning, f).1]
  {
    assert draws[..i + 1][..i] == draws[..i];
  }

  /** The population build of the constructor and of `Respawn`. */
  method Spawn(len: nat, draws: seq<nat>) returns (pop: seq<Genome>)
    requires len >= 1 && forall i :: 0 <= i < |draws| ==> draws[i] <= Pow2(len - 1)
    ensures |pop| == |draws| && AllOfLength(pop, len)
    ensures forall i :: 0 <= i < |pop| ==> Decode(pop[i]) == draws[i]
  {
    pop := [];
    for i := 0 to |draws|
      invariant |pop| == i && AllOfLength(pop, len)
      invariant forall k :: 0 <= k < i ==> Decode(pop[k]) == draws[k]
    {
      DecodeEncode(draws[i], len);
      pop := pop + [Encode(draws[i], len)];
    }
  }

  class GA {
    const length: nat
    const maxString: nat
    const popSize: nat
    var fitFunc: Genome -> real
    const learning: bool
    const pc: real
    const pm: real
    const fitness: array<real>
    var normFitness: seq<real>
    var cumFitness: seq<real>
    var population: seq<Genome>

    ghost predicate Valid()
      reads this
    {
      && length >= 1
      && maxString == Pow2(length - 1)
      && fitness.Length == popSize
      && |population| <= popSize
      && AllOfLength(population, length)
    }

    /** Builds `popSize` genomes from integers drawn in [0, 2^(length-1)]. */
    constructor (length: nat, popSize: nat, fitFunc: Genome -> real, pc: real, pm: real,
                 draws: seq<nat>, learning: bool)
      requires length >= 1 && |draws| == popSize
      requires forall i :: 0 <= i < |draws| ==> draws[i] <= Pow2(length - 1)
      ensures Valid() && fresh(fitness)
      ensures this.length == length && this.popSize == popSize && this.fitFunc == fitFunc
      ensures this.pc == pc && this.pm == pm && this.learning == learning
      ensures forall i :: 0 <= i < popSize ==> fitness[i] == 0.0
      ensures normFitness == seq(popSize, _ => 0.0) && cumFitness == seq(popSize, _ => 0.0)
      ensures |population| == popSize
      ensures forall i :: 0 <= i < popSize ==> Decode(population[i]) == draws[i]
    {
      this.length := length;
      this.maxString := Pow2(length - 1);
      this.popSize := popSize;
      this.fitFunc := fitFunc;
      this.learning := learning;
      this.pc := pc;
      this.pm := pm;
      this.fitness := new real[popSize](_ => 0.0);
      this.normFitness := seq(popSize, _ => 0.0);
      this.cumFitness := seq(popSize, _ => 0.0);
      var pop := Spawn(length, draws);
      this.population := pop;
    }

    /** Replaces the population by a freshly drawn one. */
    method Respawn(draws: seq<nat>)
      requires Valid() && |draws| == popSize
      requires forall i :: 0 <= i < |draws| ==> draws[i] <= maxString
      modifies this`population
      ensures Valid() && |population| == popSize
      ensures forall i :: 0 <= i < popSize ==> Decode(population[i]) == draws[i]
    {
      population := Spawn(length, draws);
    }

    /**
     * Scores every genome, normalises the scores and accumulates them, and
     * returns best, worst, mean and the ones of the best genome. A zero
     * total leaves no distribution to select from.
     */
    method CalcFitness() returns (st: Stats)
      requires Valid() && popSize >= 1 && |population| == popSize
      modifies fitness, this`normFitness, this`cumFitness
      ensures Valid()
      ensures fitness[..] == Scores(fitFunc, population)
      ensures st == StatsOf(fitness[..], population)
      ensures st.worst <= st.ave <= st.best
      ensures Sum(fitness[..]) != 0.0 ==>
        && normFitness == Normalise(fitness[..]) && cumFitness == CumSum(normFitness)
        && cumFitness[popSize - 1] == 1.0
      ensures Sum(fitness[..]) == 0.0 ==> normFitness == [] && cumFitness == []
    {
      for i := 0 to popSize
        invariant forall k :: 0 <= k < i ==> fitness[k] == fitFunc(population[k])
      {
        fitness[i] := fitFunc(population[i]);
      }
      var fs := fitness[..];
      assert fs == Scores(fitFunc, population);
      if Sum(fs) != 0.0 {
        normFitness := Normalise(fs);
        cumFitness := CumSum(normFitness);
        CumulativeEndsAtOne(fs);
      } else {
        normFitness := [];
        cumFitness := [];
      }
      StatsSpec(fs, population);
      st := StatsOf(fs, population);
    }

    /** Applies the mutation decisions to both children, locus by locus. */
    method MutatePair(a: Genome, b: Genome, flipsA: seq<bool>, flipsB: seq<bool>) returns (x: Genome, y: Genome)
      requires |a| == length && |b| == length && |flipsA| == length && |flipsB| == length
      ensures x == Flip(a, flipsA, learning) && y == Flip(b, flipsB, learning)
    {
      x, y := a, b;
      var step := if learning then 2 else 1;
      var j := 0;
      while j < length
        invariant 0 <= j && (learning ==> j % 2 == 0)
        invariant |x| == |a| && |y| == |b|
        invariant forall k :: 0 <= k < |a| ==>
          x[k] == if k < j && (!learning || k % 2 == 0) then a[k] != flipsA[k] else a[k]
        invariant forall k :: 0 <= k < |b| ==>
          y[k] == if k < j && (!learning || k % 2 == 0) then b[k] != flipsB[k] else b[k]
      {
        if flipsA[j] {
          x := x[j := !x[j]];
        }
        if flipsB[j] {
          y := y[j := !y[j]];
        }
        j := j + step;
      }
    }

    /**
     * `guessTheRest`: tries each candidate completion of the odd loci in turn
     * and keeps the first one that scores strictly higher than the best so far.
     */
    method GuessTheRest(genome: Genome, cands: seq<nat>) returns (best: Genome)
      requires |genome| == length && CandidatesOk(cands, length)
      ensures best == Search(fitFunc, genome, cands, Trials)
      ensures |best| == |genome| && Evens(best) == Evens(genome)
      ensures fitFunc(best) >= fitFunc(genome)
      ensures forall j :: 0 <= j < Trials ==> fitFunc(Trial(genome, cands[j])) <= fitFunc(best)
      ensures best == genome ||
        exists j :: 0 <= j < Trials && best == Trial(genome, cands[j]) &&
          fitFunc(best) > fitFunc(genome) &&
          (forall i :: 0 <= i < j ==> fitFunc(Trial(genome, cands[i])) < fitFunc(best))
    {
      best := genome;
      var bestScore := fitFunc(best);
      var current := genome;
      var half := length / 2;
      for i := 0 to Trials
        invariant best == Search(fitFunc, genome, cands, i)
        invariant bestScore == fitFunc(best)
        invariant i == 0 ==> current == genome
        invariant i > 0 ==> current == Trial(genome, cands[i - 1])
      {
        if i > 0 {
          SetOddsTwice(genome, Encode(cands[i - 1], half), Encode(cands[i], half));
        }
        current := SetOdds(current, Encode(cands[i], half));
        var score := fitFunc(current);
        if score > bestScore {
          best := current;
          bestScore := score;
        }
      }
      SearchSpec(fitFunc, genome, cands, Trials);
    }

    /** One iteration of the generation loop: select, cross or copy, mutate, and in learning mode search. */
    method BreedPair(pop: seq<Genome>, cum: seq<real>, d: PairDraw) returns (indA: Genome, indB: Genome)
      requires |pop| > 0 && |cum| == |pop| && cum[|cum| - 1] == 1.0
      requires AllOfLength(pop, length) && DrawOk(d, length, learning)
      ensures (indA, indB) == Breed(pop, cum, d, length, learning, fitFunc)
    {
      var idxA := FindNearest(cum, d.randA);
      var idxB := FindNearest(cum, d.randB);
      if d.cross {
        var children := Crossover(pop[idxA], pop[idxB], d.point, learning);
        indA, indB := children.0, children.1;
      } else {
        indA, indB := pop[idxA], pop[idxB];
      }
      indA, indB := MutatePair(indA, indB, d.flipsA, d.flipsB);
      if learning {
        FlipSpec(indA, d.flipsA, learning);
        FlipSpec(indB, d.flipsB, learning);
        indA := GuessTheRest(indA, d.guessA);
        indB := GuessTheRest(indB, d.guessB);
      }
    }

    /** The loop of the generation step: one offspring pair per draw, appended in order. */
    method BuildGeneration(pop: seq<Genome>, cum: seq<real>, draws: seq<PairDraw>) returns (nextPop: seq<Genome>)
      requires |pop| > 0 && |cum| == |pop| && cum[|cum| - 1] == 1.0
      requires AllOfLength(pop, length) && forall i :: 0 <= i < |draws| ==> DrawOk(draws[i], length, learning)
      ensures nextPop == NextPopulation(pop, cum, draws, length, learning, fitFunc)
      ensures |nextPop| == 2 * |draws| && AllOfLength(nextPop, length)
    {
      nextPop := [];
      for i := 0 to |draws|
        invariant nextPop == NextPopulation(pop, cum, draws[..i], length, learning, fitFunc)
      {
        var indA, indB := BreedPair(pop, cum, draws[i]);
        AppendPair(pop, cum, draws, i, length, learning, fitFunc);
        nextPop := nextPop + [indA, indB];
      }
      assert draws[..|draws|] == draws;
    }

    /**
     * One generation: scores the population, then builds `popSize / 2`
     * offspring pairs and replaces the population with them. Returns the
     * statistics of the population it replaced.
     */
    method CreateNextGen(draws: seq<PairDraw>) returns (r: Result<Stats>)
      requires Valid() && popSize >= 1 && |population| == popSize
      requires |draws| == popSize / 2 && forall i :: 0 <= i < |draws| ==> DrawOk(draws[i], length, learning)
      modifies fitness, this`normFitness, this`cumFitness, this`population
      ensures Valid()
      ensures fitness[..] == Scores(fitFunc, old(population))
      ensures Sum(fitness[..]) == 0.0 ==>
        && r == Failure(DegenerateFitness) && population == old(population)
        && normFitness == [] && cumFitness == []
      ensures Sum(fitness[..]) != 0.0 ==>
        && r == Success(StatsOf(fitness[..], old(population)))
        && normFitness == Normalise(fitness[..])
        && cumFitness == CumSum(normFitness)
        && cumFitness[popSize - 1] == 1.0
        && population == NextPopulation(old(population), cumFitness, draws, length, learning, fitFunc)
        && |population| == 2 * (popSize / 2)
    {
      var st := CalcFitness();
      if Sum(fitness[..]) == 0.0 {
        return Failure(DegenerateFitness);
      }
      var nextPop := BuildGeneration(population, cumFitness, draws);
      population := nextPop;
      return Success(st);
    }

    /** Replaces the fitness callback; nothing is re-evaluated. */
    method SetFitFunction(newFunc: Genome -> real)
      requires Valid()
      modifies this`fitFunc
      ensures Valid() && fitFunc == newFunc
    {
      fitFunc := newFunc;
    }
  }
}
