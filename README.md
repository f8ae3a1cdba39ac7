# biooptimize: a verified model of the GA and particle-swarm engines

This project models the comparison-based core of two optimisers.

- `GA.py`: a genetic algorithm over fixed-length bit strings. It builds a population from random integers and scores it with a fitness callback. It selects parents by roulette wheel over the cumulative normalised fitness, and breeds them by single-point crossover and per-locus mutation. In "learning" mode, crossover and mutation act only on the even loci. The odd loci are then filled by a 20-trial local search (`guessTheRest`).
- `Swarm.py`: the bookkeeping of a particle swarm. This covers each particle's current and personal-best fitness and position, and the global best with its owner. In ring-topology mode it also covers each particle's local-best neighbour inside a window of `radius` places on either side.

Modelling choices:

- Genomes are `seq<bool>`, with index 0 the most significant bit. `'uint:L=n'` is the big-endian encoding `Bits.Encode`.
- Fitness values are Dafny `real`s.
- Every random draw is an explicit argument:
  - the integers of the initial population;
  - the roulette draws, the crossover decision and point;
  - the per-locus mutation decisions, already compared with `pm`;
  - the candidate completions of the local search;
  - the unit samples and velocities of the initial swarm.
- The fitness callbacks are fields of arrow type.
- The GA's fitness array is a Dafny `array`. Its population and its normalised and cumulative arrays are sequences that the methods reassign.
- The swarm's per-particle data are arrays updated in place.

Modules:

| module | file | contents |
|---|---|---|
| `Bits` | Bits.dfy | big-endian encode/decode, counting ones, the `[::2]` and `[1::2]` slices and their assignment |
| `GeneticOps` | GeneticOps.dfy | both crossovers, mutation by flip decisions, the local-search specification, `findNearest` |
| `FitnessStats` | FitnessStats.dfy | scores, normalisation, cumulative sums, the statistics `calcFitness` returns |
| `GeneticAlgorithm` | GA.dfy | class `GA` with its loops, and the specification of one generation |
| `SwarmSpec` | SwarmSpec.dfy | the running global best and the ring-window scan, as functions |
| `ParticleSwarm` | Swarm.dfy | class `Swarm` over arrays, with construction, `calc_fitness`, `set_local_best` and the accessors |

The model follows the code, including where the code departs from the engines' intended design:

- The initial population is drawn as integers in [0, 2^(L-1)], inclusive at both ends, not as independent uniform bits.
- `findNearest` can return an index whose cumulative value is below the draw (`GeneticOps.FindNearestTie`).
- A generation holds `2 * (popSize / 2)` genomes, not `popSize`.

The one exception is a zero total fitness. There the code divides by zero and carries on, and `CreateNextGen` still builds a new population and returns the statistics. When every score is zero, the normalised and cumulative arrays are all NaN, `argmin` over them returns index 0, and every draw selects genome 0 as both parents. When scores of mixed sign sum to zero, the normalised entries are +inf, -inf or NaN, and the running total is NaN from the first zero score or from the first point where it has met both infinities, whichever comes first. `argmin` then returns the first NaN entry, and that genome is always selected. For example, scores [1.0, -1.0] give the cumulative array [inf, NaN], so genome 1 is selected. Scores [1.0, 0.0, -1.0] give the normalised array [inf, NaN, -inf] and the cumulative array [inf, NaN, NaN], so genome 1 is selected although it scored zero. The model takes an explicit policy instead: the normalised and cumulative arrays are left empty, and `CreateNextGen` reports `DegenerateFitness` without replacing the population.

## Model

| member | source | states |
|---|---|---|
| Bits.Pow2 | GA.py:21 | defines 2^n, which gives `maxString` (GA.py:21) and `halfMax` (GA.py:112); it is at least one |
| Bits.Encode | GA.py:32-34 | the `uint:L=n` string of `n` has exactly L bits |
| Bits.Decode | GA.py:32-34 | an L-bit string denotes a value below 2^L |
| Bits.DecodeEncode | GA.py:32-34 | any n < 2^L encoded on L bits decodes back to n |
| Bits.EncodeDecode | GA.py:32-34 | re-encoding a string's value on its own length gives the string back |
| Bits.CountOnes | GA.py:63 | the number of set bits never exceeds the length |
| Bits.CountOnesAppend | GA.py:63 | the set bits of a concatenation are the sum of the set bits of its parts |
| Bits.Evens | GA.py:84-85 | defines the `[::2]` slice (loci 0, 2, 4, ...); its properties are in `Bits.SetOddsSpec` and `Bits.SpreadEvensSpec` |
| Bits.Odds | GA.py:117 | defines the `[1::2]` slice (loci 1, 3, 5, ...); its properties are in `Bits.SetOddsSpec` and `GeneticOps.FlipSpec` |
| Bits.SetOdds | GA.py:117 | defines the assignment `current[1::2] = sub`; its properties are in `Bits.SetOddsSpec` and `Bits.SetOddsTwice` |
| Bits.SpreadEvens | GA.py:90-100 | defines `x = BitArray(L); x[::2] = sub`; its properties are in `Bits.SpreadEvensSpec` |
| Bits.SetOddsSpec | GA.py:117 | writing `current[1::2]` keeps the length and the even loci, and the odd loci read back as exactly the written bits |
| Bits.SetOddsTwice | GA.py:113-117 | a second write of the odd loci erases the first, so each trial depends only on the start genome and its own candidate |
| Bits.SpreadEvensSpec | GA.py:90-100 | assigning `x[::2]` on a zero string puts the sub-genome on the even loci and leaves every odd locus false |
| GeneticOps.Cross | GA.py:70-81 | both children of a single-point crossover have the parents' length |
| GeneticOps.CrossLoci | GA.py:75-80 | before point c each child takes its own parent's loci, from c on the other parent's; at every locus the children hold the same multiset of bits as the parents |
| GeneticOps.CrossConservesOnes | GA.py:75-80 | crossover preserves the total number of ones across the pair |
| GeneticOps.CrossInvolution | GA.py:75-80 | crossing the children again at the same point gives back the parents |
| GeneticOps.LearningCross | GA.py:82-101 | for even L, the children's even loci are the single-point crossover of the parents' even sub-genomes, and every odd locus of both children is false |
| GeneticOps.Crossover | GA.py:66-101 | in either mode both children keep the parents' length |
| GeneticOps.Flip | GA.py:157-169 | defines mutation by given flip decisions, only on even loci in learning mode; its properties are in `GeneticOps.FlipSpec` |
| GeneticOps.FlipSpec | GA.py:157-169 | each locus with a flip decision is inverted (only even loci in learning mode); every locus without one keeps its value; in learning mode the odd loci are untouched; applying the same decisions twice restores the genome |
| GeneticOps.Trial | GA.py:114-117 | defines one trial of the local search: the genome with its odd loci set to the encoding of a candidate; its properties are in `Bits.SetOddsSpec` |
| GeneticOps.Search | GA.py:104-122 | defines the genome the local search keeps after k trials, replaced only on a strictly higher score; its properties are in `GeneticOps.SearchSpec` |
| GeneticOps.Dist | GA.py:128 | defines `abs(cum[i] - value)`; its use is specified by `GeneticOps.Nearest` |
| GeneticOps.SearchSpec | GA.py:104-122 | the local search keeps the length and the even loci and never lowers the score; its result beats or ties every candidate; it is the start genome unless a candidate scores strictly higher, and then it is the first candidate with the highest score |
| GeneticOps.Nearest | GA.py:128 | `argmin` of the distance: a minimiser, and strictly better than every earlier index |
| GeneticOps.FindNearest | GA.py:124-131 | the index is at most n, and below n whenever the draw does not exceed the last cumulative entry |
| GeneticOps.FindNearestIsInsertionPoint | GA.py:124-131 | on a strictly increasing cumulative array the result is the insertion point: every earlier entry is below the draw and the chosen entry is not |
| GeneticOps.FindNearestTie | GA.py:128-131 | with equal adjacent entries, the draw 0.6 on [0.5, 0.5, 1.0] selects index 1, whose entry lies below the draw |
| FitnessStats.Sum | GA.py:56 | defines `np.sum`; its properties are in `FitnessStats.SumBounds`, `FitnessStats.SumDivide` and `FitnessStats.NormaliseSumsToOne` |
| FitnessStats.StatsOf | GA.py:59-64 | defines the tuple `calcFitness` returns; its properties are in `FitnessStats.StatsSpec` |
| FitnessStats.Normalise | GA.py:56 | one normalised value per genome |
| FitnessStats.CumSum | GA.py:58 | one running total per entry |
| FitnessStats.Scores | GA.py:53-54 | one score per genome |
| FitnessStats.FirstArgMax | GA.py:60-63 | `argmax`: a maximal index, strictly above every earlier entry |
| FitnessStats.MinOf | GA.py:61 | `min`: a lower bound that some entry attains |
| FitnessStats.SumBounds | GA.py:62 | a sum of n values in [lo, hi] lies in [n*lo, n*hi] |
| FitnessStats.StatsSpec | GA.py:59-64 | worst <= mean <= best; best and worst bound every score and are attained; the count of ones is that of the first genome with the best score |
| FitnessStats.DivBounds | GA.py:62 | a mean of values in [lo, hi] lies in [lo, hi] |
| FitnessStats.SumDivide | GA.py:56 | dividing every entry by t divides the sum by t |
| FitnessStats.NormaliseSumsToOne | GA.py:56 | with a non-zero total, the normalised fitness sums to exactly one |
| FitnessStats.SumPrefixMonotone | GA.py:58 | prefix sums of non-negative values grow with the prefix |
| FitnessStats.NormaliseNonNegative | GA.py:56 | non-negative fitness with a positive total normalises to non-negative values |
| FitnessStats.CumSumMonotone | GA.py:58 | the running totals of non-negative values are non-negative and non-decreasing |
| FitnessStats.CumulativeSpec | GA.py:55-58 | with non-negative fitness and a positive total, the cumulative array is non-negative, non-decreasing and ends at one |
| FitnessStats.CumulativeEndsAtOne | GA.py:56-58 | with any non-zero total the last cumulative entry is exactly one |
| GeneticAlgorithm.CandidatesOk | GA.py:112-114 | defines the local-search candidates: 20 integers drawn in [0, 2^(L/2) - 1] |
| GeneticAlgorithm.DrawOk | GA.py:75 | defines the ranges of one pair's draws: roulette values in [0, 1); a crossover point in [1, L-1], or in [1, L/2-1] in learning mode (GA.py:93); one mutation decision per locus for each child; candidates as `CandidatesOk` in learning mode |
| GeneticAlgorithm.Breed | GA.py:141-174 | one iteration of the generation loop yields two children of length L |
| GeneticAlgorithm.NextPopulation | GA.py:139-176 | a generation of k draws has 2k genomes, all of length L |
| GeneticAlgorithm.AppendPair | GA.py:173-174 | each iteration appends its two children, in order, after those of the earlier iterations |
| GeneticAlgorithm.Spawn | GA.py:31-34 | one L-bit genome per drawn integer, decoding back to that integer |
| GeneticAlgorithm.GA.constructor | GA.py:7-34 | the parameters are stored; fitness, normalised and cumulative arrays are popSize zeros; the population is popSize genomes decoding to the drawn integers |
| GeneticAlgorithm.GA.Respawn | GA.py:36-45 | the population is replaced by popSize genomes decoding to the new draws; nothing else changes |
| GeneticAlgorithm.GA.CalcFitness | GA.py:47-64 | the fitness array holds every genome's score; the statistics are those of `StatsOf` with worst <= mean <= best; with a non-zero total the cumulative array is the running total of the normalised scores and ends at one |
| GeneticAlgorithm.GA.MutatePair | GA.py:157-169 | the children are the parents with every decided locus flipped, only even loci in learning mode |
| GeneticAlgorithm.GA.GuessTheRest | GA.py:104-122 | the loop computes the local-search result: even loci kept, score never lower, at least as good as every candidate, the first strictly best candidate or the start |
| GeneticAlgorithm.GA.BreedPair | GA.py:141-174 | selection, crossover or copy, mutation and the learning-mode search together compute `Breed` |
| GeneticAlgorithm.GA.BuildGeneration | GA.py:139-174 | the loop's list is `NextPopulation` of the draws: 2k genomes of length L in draw order |
| GeneticAlgorithm.GA.CreateNextGen | GA.py:133-177 | the fitness array scores the population before replacement and the returned statistics describe it; with a zero total the call fails, the population stays and the normalised and cumulative arrays are empty; otherwise the normalised array is the scores over their total, the cumulative array is its running total and ends at one and the population becomes `NextPopulation`, with 2*(popSize/2) genomes of length L |
| GeneticAlgorithm.GA.SetFitFunction | GA.py:179-183 | only the fitness callback changes |
| SwarmSpec.Wrap | Swarm.py:52 | `i % n` lies on the ring [0, n) for every integer i, negative included |
| SwarmSpec.InWindow | Swarm.py:51-52 | defines the ring window of a particle: the indices (idx + k) mod n for -r <= k <= r; used by the invariant `Swarm.LocalBestsInWindow` |
| SwarmSpec.OwnIndexInWindow | Swarm.py:30 | the initial `arange` local bests lie in their windows |
| SwarmSpec.GlobalScan | Swarm.py:43-45 | defines the running global best and owner over one pass; its properties are in `SwarmSpec.GlobalScanSpec` |
| SwarmSpec.GlobalScanSpec | Swarm.py:43-45 | the global best becomes the maximum of its old value and all current fitnesses; the owner is unchanged when nothing beats the old best, and otherwise is the first particle attaining the new best |
| SwarmSpec.GlobalScanStep | Swarm.py:43-45 | one more particle compared is one step of the running-best update |
| SwarmSpec.WindowScan | Swarm.py:49-54 | the local best after a partial scan is a valid particle index |
| SwarmSpec.WindowScanSpec | Swarm.py:51-54 | the scan result is at least as fit as its start and every particle scanned; it stays put unless some particle is strictly fitter, and otherwise it is a scanned particle |
| SwarmSpec.WindowScanInWindow | Swarm.py:49-54 | a full scan started inside the window ends inside it and dominates every particle of the window |
| ParticleSwarm.ArrayOf | Swarm.py:24-30 | a fresh array holding the given values (the numpy arrays built at construction) |
| ParticleSwarm.Zeros | Swarm.py:25-26 | n zeros |
| ParticleSwarm.Repeat | Swarm.py:24 | n copies of a row |
| ParticleSwarm.Range | Swarm.py:30 | entry i is i |
| ParticleSwarm.Place | Swarm.py:21 | one placed coordinate per bound |
| ParticleSwarm.PlaceAll | Swarm.py:19-21 | one placed position per particle, each of the bounds' dimension |
| ParticleSwarm.PlaceWithinBounds | Swarm.py:18-21 | a unit sample in [0, 1) is placed inside [lo, hi], strictly below hi when lo < hi |
| ParticleSwarm.PlacePositions | Swarm.py:19-21 | the nested rescaling loop computes `PlaceAll` |
| ParticleSwarm.Swarm.constructor | Swarm.py:6-32 | the object invariant holds; positions are the placed samples; velocities are as given; personal bests and current fitness are zero; the global best is 0.0 owned by particle 0; each particle is its own local best |
| ParticleSwarm.NewSwarm | Swarm.py:6-33 | after construction and the first evaluation pass: the swarm and its six arrays are fresh, so it owns them exclusively and later `CalcFitness` calls may update them; the configuration (bounds, fitness callback, speed limit, coefficients, radius, flags) is stored; positions are the placed samples and velocities as given; each current fitness is the fitness at the start position; each personal best and its position are that fitness and position when positive, zero and the origin otherwise; the global best is the running best from 0.0 owned by particle 0; local bests stay `arange` in global mode and are each particle's window scan from itself in ring mode |
| ParticleSwarm.Swarm.FirstPass | Swarm.py:33-47 | from the initial best-tracking state, the first `calc_fitness` sets personal bests to the positive current fitnesses with their positions, the global best to the running best from 0.0, and in ring mode each local best to the scan of its window started from itself |
| ParticleSwarm.Swarm.CalcFitness | Swarm.py:35-47 | the invariant is kept; each personal best becomes the max of old and current and never decreases; its position moves only on strict improvement; the global best follows the running-best scan and never decreases; local bests change only in ring mode, as the window scan; positions and velocities are untouched |
| ParticleSwarm.Swarm.EvaluateParticles | Swarm.py:36-45 | the per-particle loop establishes all of the above except the local bests |
| ParticleSwarm.Swarm.EvaluateParticle | Swarm.py:39-45 | one particle's fitness and bests are updated on strict improvement; every other particle is untouched |
| ParticleSwarm.Swarm.SetLocalBest | Swarm.py:49-54 | every local best is the window scan of current fitness, stays a valid index in its window, and dominates every particle of its window; only `local_best` is written |
| ParticleSwarm.Swarm.ScanNeighbourhood | Swarm.py:51-54 | the inner loop computes one particle's window scan, stays in the window and leaves the other local bests alone |
| ParticleSwarm.Swarm.GetBestFitness | Swarm.py:79-80 | returns the global best, which bounds every personal best |
| ParticleSwarm.Swarm.GetBestPosition | Swarm.py:82-83 | returns the personal-best position of the owner of the global best, whose personal best is the global best |
| ParticleSwarm.Swarm.GetInertia | Swarm.py:105-106 | returns the inertia |
| ParticleSwarm.Swarm.SetInertia | Swarm.py:108-109 | only the inertia changes, and a following `GetInertia` returns it |

## Left out

- Seeding and the random streams (`random.seed`, `np.random.seed`, `randint`, `rand`, `uniform`). Their draws are arguments, and the draw ranges are preconditions.
- The order in which the two children's mutation draws interleave is not modelled. Each child receives its own sequence of flip decisions.
- `bitstring.BitArray` itself. Genomes are sequences, and slices are sequence operations.
- Floating-point rounding. Fitness values are idealised as reals, so a cumulative array whose last entry falls just below one is not modelled.
- The comparisons `< pc` and `< pm` are given as pre-decided booleans.
- GeneticAlgorithm.GA.CalcFitness: with a zero total the code yields NaN/inf arrays. The model leaves the normalised and cumulative arrays empty, and `CreateNextGen` fails with `DegenerateFitness`.
- GeneticAlgorithm.GA.CreateNextGen: with an odd popSize the new population is one genome short. A later call would then index past its end. The precondition `|population| == popSize` excludes that call rather than modelling the crash.
- GeneticOps.LearningCross: requires an even length. With an odd length the code's slice assignment fails, and that failure is not modelled.
- GeneticAlgorithm.GA.constructor: the seed argument is not modelled.
- GeneticAlgorithm.DrawOk: when the crossover-point range is empty (length 1 in standard mode, length 2 in learning mode), the code's `randint` raises `ValueError` as soon as crossover is chosen. The model admits only draws without crossover there, so that crash is not modelled.
- Validation of the configuration is not modelled. The GA constructor requires a length of at least one. A population size of at least one is required by `GA.CalcFitness` and `GA.CreateNextGen`, because the code's `fitness.max()` raises on an empty array. The swarm constructor requires one position and one velocity per particle, each of the bounds' dimension.
- The fitness callbacks are uninterpreted. `num_ones` is returned as a natural number rather than a float.
- `update_velocity` and `update_position`, including the `decCog` decay of `cog`, are not modelled. They are floating-point vector arithmetic with `sqrt` clamping and random draws.
- `plot_particles` (file output through matplotlib) and `get_ave_pos` (a float mean) are not modelled.
- ParticleSwarm.Swarm.GetBestPosition: the code returns a numpy row view of `best_position`, which a later `calc_fitness` overwrites in place when that particle's personal best improves. The model returns a sequence that stays as it was when returned, so that aliasing is not captured. The precondition `particles > 0` also leaves out the code's `IndexError` on an empty swarm.
- ParticleSwarm.Swarm.constructor: the `local_best` array is allocated in both modes. The code creates it, and `radius`, only in ring mode. Global mode never reads either of them.
- ParticleSwarm.NewSwarm: `__init__` is modelled in two steps. The constructor does the field set-up, and `NewSwarm` then runs the first `CalcFitness` pass on the new object through `Swarm.FirstPass`.
