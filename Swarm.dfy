/**
 * The particle-swarm engine (class `Swarm`): per-particle arrays of positions,
 * current and best fitness and best positions, the global best and its
 * owner, and in ring-topology mode each particle's local-best neighbour.
 *
 * Initial positions and velocities are inputs (their sampling is random);
 * the velocity and position updates are not part of this model.
 */
module ParticleSwarm {
  import opened SwarmSpec

  type Vector = seq<real>

  /** numpy's `zeros(n)`. */
  function Zeros(n: nat): (z: seq<real>)
    ensures |z| == n && forall i :: 0 <= i < n ==> z[i] == 0.0
  {
    seq(n, _ => 0.0)
  }

  /** `n` copies of `v` (the rows of a two-dimensional `zeros`). */
  function Repeat(n: nat, v: Vector): (r: seq<Vector>)
    ensures |r| == n && forall i :: 0 <= i < n ==> r[i] == v
  {
    seq(n, _ => v)
  }

  /** numpy's `arange(n)`: every particle starts as its own local best. */
  function Range(n: nat): (r: seq<nat>)
    ensures |r| == n && forall i :: 0 <= i < n ==> r[i] == i
  {
    seq(n, i => i)
  }

  /** A fresh array holding `s` (numpy's array construction). */
  method ArrayOf<T>(s: seq<T>) returns (a: array<T>)
    ensures fresh(a) && a[..] == s
  {
    a := new T[|s|](i requires 0 <= i < |s| => s[i]);
  }

  /** Coordinate `j` of a unit sample `u` stretched onto the interval `bounds[j]`. */
  function Place(u: Vector, bounds: seq<(real, real)>): (p: Vector)
    requires |u| == |bounds|
    ensures |p| == |u|
  {
    seq(|u|, j requires 0 <= j < |u| => u[j] * (bounds[j].1 - bounds[j].0) + bounds[j].0)
  }

  /** Every row of `unit` placed in the search box. */
  function PlaceAll(unit: seq<Vector>, bounds: seq<(real, real)>): (pos: seq<Vector>)
    requires forall i :: 0 <= i < |unit| ==> |unit[i]| == |bounds|
    ensures |pos| == |unit| && forall i :: 0 <= i < |pos| ==> |pos[i]| == |bounds|
  {
    seq(|unit|, i requires 0 <= i < |unit| => Place(unit[i], bounds))
  }

  /**
   * A sample drawn from [0, 1) in every coordinate lands inside each interval
   * [lo, hi] with lo <= hi, strictly below hi when lo < hi.
   */
  lemma PlaceWithinBounds(u: Vector, bounds: seq<(real, real)>)
    requires |u| == |bounds|
    requires forall j :: 0 <= j < |u| ==> 0.0 <= u[j] < 1.0 && bounds[j].0 <= bounds[j].1
    ensures forall j :: 0 <= j < |u| ==> bounds[j].0 <= Place(u, bounds)[j] <= bounds[j].1
    ensures forall j :: 0 <= j < |u| && bounds[j].0 < bounds[j].1 ==> Place(u, bounds)[j] < bounds[j].1
  {
    forall j | 0 <= j < |u|
      ensures bounds[j].0 <= Place(u, bounds)[j] <= bounds[j].1
      ensures bounds[j].0 < bounds[j].1 ==> Place(u, bounds)[j] < bounds[j].1
    {
      var w := bounds[j].1 - bounds[j].0;
      assert Place(u, bounds)[j] == u[j] * w + bounds[j].0;
      assert u[j] * w >= 0.0;
      assert (1.0 - u[j]) * w >= 0.0;
      assert w > 0.0 ==> (1.0 - u[j]) * w > 0.0;
    }
  }

  /**
   * The constructor's rescaling loop: each coordinate of each unit sample is
   * stretched onto its interval, particle by particle and coordinate by coordinate.
   */
  method PlacePositions(unit: seq<Vector>, bounds: seq<(real, real)>) returns (pos: seq<Vector>)
    requires forall i :: 0 <= i < |unit| ==> |unit[i]| == |bounds|
    ensures pos == PlaceAll(unit, bounds)
  {
    pos := unit;
    for i := 0 to |unit|
      invariant |pos| == |unit|
      invariant forall k :: 0 <= k < i ==> pos[k] == Place(unit[k], bounds)
      invariant forall k :: i <= k < |unit| ==> pos[k] == unit[k]
    {
      var row := unit[i];
      for j := 0 to |bounds|
        invariant |row| == |bounds|
        invariant forall m :: 0 <= m < j ==> row[m] == unit[i][m] * (bounds[m].1 - bounds[m].0) + bounds[m].0
        invariant forall m :: j <= m < |bounds| ==> row[m] == unit[i][m]
      {
        row := row[j := row[j] * (bounds[j].1 - bounds[j].0) + bounds[j].0];
      }
      forall m | 0 <= m < |bounds| ensures row[m] == Place(unit[i], bounds)[m] {
      }
      assert row == Place(unit[i], bounds);
      pos := pos[i := row];
    }
  }

  class Swarm {
    const size: nat
    const bounds: seq<(real, real)>
    const particles: nat
    const doGlobal: bool
    const vMax: real
    const fitFunc: Vector -> real
    var inertia: real
    var cog: real
    const social: real
    const radius: nat
    const decCog: bool
    const position: array<Vector>
    const velocity: array<Vector>
    const bestPosition: array<Vector>
    const currFitness: array<real>
    const bestFitness: array<real>
    var globalBest: real
    var globalBestIdx: nat
    const localBest: array<nat>

    /** The object invariant: the parts below, each kept by every method. */
    ghost predicate Valid()
      reads this, position, velocity, bestPosition, currFitness, bestFitness, localBest
    {
      Shape() && Dimensions() && GlobalBestHeld() && LocalBestsInWindow()
    }

    /** Every position and personal-best position has one coordinate per bound. */
    ghost predicate Dimensions()
      reads position, bestPosition
    {
      && position.Length == particles && bestPosition.Length == particles
      && forall i :: 0 <= i < particles ==> |position[i]| == size && |bestPosition[i]| == size
    }

    /**
     * The global best is the largest personal best and is the personal best
     * of the particle that owns it.
     */
    ghost predicate GlobalBestHeld()
      reads this, bestFitness
    {
      && bestFitness.Length == particles
      && (particles == 0 ==> globalBestIdx == 0)
      && (particles > 0 ==> globalBestIdx < particles && bestFitness[globalBestIdx] == globalBest)
      && (forall i :: 0 <= i < particles ==> bestFitness[i] <= globalBest)
    }

    /** Every particle's local best is a particle of its ring window. */
    ghost predicate LocalBestsInWindow()
      reads localBest
    {
      && localBest.Length == particles
      && forall i :: 0 <= i < particles ==> localBest[i] < particles && InWindow(localBest[i], i, radius, particles)
    }

    /** One entry per particle in every array, and no two arrays shared. */
    ghost predicate Shape()
    {
      && size == |bounds|
      && position.Length == particles && velocity.Length == particles && bestPosition.Length == particles
      && currFitness.Length == particles && bestFitness.Length == particles && localBest.Length == particles
      && position != bestPosition && position != velocity && velocity != bestPosition
      && currFitness != bestFitness
    }

    /**
     * The field set-up of construction: the unit samples placed in the
     * search box as positions, the given velocities,
     * zero personal bests at the origin, a zero global best owned by
     * particle 0 and every particle its own local best. `NewSwarm` follows
     * it with the first evaluation pass, as construction does.
     */
    constructor (bounds: seq<(real, real)>, numParticles: nat, vMax: real, fitFunc: Vector -> real,
                 inertia: real, cog: real, social: real, radius: nat, decCog: bool, doGlobal: bool,
                 unitPosition: seq<Vector>, initVelocity: seq<Vector>)
      requires |unitPosition| == numParticles && |initVelocity| == numParticles
      requires forall i :: 0 <= i < numParticles ==> |unitPosition[i]| == |bounds| && |initVelocity[i]| == |bounds|
      ensures Valid()
      ensures fresh(position) && fresh(velocity) && fresh(bestPosition)
      ensures fresh(currFitness) && fresh(bestFitness) && fresh(localBest)
      ensures this.bounds == bounds && this.particles == numParticles && this.vMax == vMax
      ensures this.fitFunc == fitFunc && this.inertia == inertia && this.cog == cog && this.social == social
      ensures this.radius == radius && this.decCog == decCog && this.doGlobal == doGlobal
      ensures position[..] == PlaceAll(unitPosition, bounds) && velocity[..] == initVelocity
      ensures bestPosition[..] == Repeat(numParticles, Zeros(|bounds|))
      ensures currFitness[..] == Zeros(numParticles) && bestFitness[..] == Zeros(numParticles)
      ensures localBest[..] == Range(numParticles)
      ensures globalBest == 0.0 && globalBestIdx == 0
    {
      this.size := |bounds|;
      this.bounds := bounds;
      this.particles := numParticles;
      this.doGlobal := doGlobal;
      this.vMax := vMax;
      this.fitFunc := fitFunc;
      this.inertia := inertia;
      this.cog := cog;
      this.social := social;
      this.radius := radius;
      this.decCog := decCog;
      var placed := PlacePositions(unitPosition, bounds);
      var pos := ArrayOf(placed);
      var vel := ArrayOf(initVelocity);
      var bestPos := ArrayOf(Repeat(numParticles, Zeros(|bounds|)));
      var curr := ArrayOf(Zeros(numParticles));
      var best := ArrayOf(Zeros(numParticles));
      var local := ArrayOf(Range(numParticles));
      this.position, this.velocity, this.bestPosition := pos, vel, bestPos;
      this.currFitness, this.bestFitness, this.localBest := curr, best, local;
      this.globalBest := 0.0;
      this.globalBestIdx := 0;
      new;
      OwnIndexInWindow(numParticles, radius);
    }

    /**
     * Evaluates every particle, raises personal bests that are strictly
     * beaten, tracks the global best and its owner, and in ring mode then
     * recomputes the local bests.
     */
    method CalcFitness()
      requires Valid()
      modifies currFitness, bestFitness, bestPosition, this`globalBest, this`globalBestIdx, localBest
      ensures Valid()
      ensures forall i :: 0 <= i < particles ==> currFitness[i] == fitFunc(position[i])
      ensures forall i :: 0 <= i < particles ==>
        && bestFitness[i] == (if currFitness[i] > old(bestFitness[i]) then currFitness[i] else old(bestFitness[i]))
        && bestPosition[i] == (if currFitness[i] > old(bestFitness[i]) then position[i] else old(bestPosition[i]))
      ensures forall i :: 0 <= i < particles ==> bestFitness[i] >= old(bestFitness[i])
      ensures (globalBest, globalBestIdx) == GlobalScan(currFitness[..], old(globalBest), old(globalBestIdx))
      ensures globalBest >= old(globalBest)
      ensures doGlobal ==> localBest[..] == old(localBest[..])
      ensures !doGlobal ==> forall idx :: 0 <= idx < particles ==>
        localBest[idx] == WindowScan(currFitness[..], old(localBest[idx]), idx, radius, 2 * radius + 1)
    {
      EvaluateParticles();
      if !doGlobal {
        SetLocalBest();
      }
    }

    /**
     * The evaluation pass that ends construction, run from the initial
     * best-tracking state: personal bests become the positive current
     * fitnesses (with their positions), the global best is the running best
     * from 0.0 owned by particle 0, and in ring mode each local best is the
     * scan of its window started from the particle itself.
     */
    method FirstPass()
      requires Valid()
      requires bestFitness[..] == Zeros(particles) && bestPosition[..] == Repeat(particles, Zeros(size))
      requires localBest[..] == Range(particles) && globalBest == 0.0 && globalBestIdx == 0
      modifies currFitness, bestFitness, bestPosition, this`globalBest, this`globalBestIdx, localBest
      ensures Valid()
      ensures forall i :: 0 <= i < particles ==> currFitness[i] == fitFunc(position[i])
      ensures forall i :: 0 <= i < particles ==>
        && bestFitness[i] == (if currFitness[i] > 0.0 then currFitness[i] else 0.0)
        && bestPosition[i] == (if currFitness[i] > 0.0 then position[i] else Zeros(size))
      ensures (globalBest, globalBestIdx) == GlobalScan(currFitness[..], 0.0, 0)
      ensures doGlobal ==> localBest[..] == Range(particles)
      ensures !doGlobal ==> forall idx :: 0 <= idx < particles ==>
        localBest[idx] == WindowScan(currFitness[..], idx, idx, radius, 2 * radius + 1)
    {
      CalcFitness();
    }

    /** The loop of `CalcFitness` over the particles, before the local bests are recomputed. */
    method EvaluateParticles()
      requires Valid()
      modifies currFitness, bestFitness, bestPosition, this`globalBest, this`globalBestIdx
      ensures Valid()
      ensures forall i :: 0 <= i < particles ==> currFitness[i] == fitFunc(position[i])
      ensures forall i :: 0 <= i < particles ==>
        && bestFitness[i] == (if currFitness[i] > old(bestFitness[i]) then currFitness[i] else old(bestFitness[i]))
        && bestPosition[i] == (if currFitness[i] > old(bestFitness[i]) then position[i] else old(bestPosition[i]))
      ensures (globalBest, globalBestIdx) == GlobalScan(currFitness[..], old(globalBest), old(globalBestIdx))
      ensures globalBest >= old(globalBest)
    {
      for i := 0 to particles
        invariant forall k :: 0 <= k < i ==> currFitness[k] == fitFunc(position[k])
        invariant forall k :: 0 <= k < i ==>
          && bestFitness[k] == (if currFitness[k] > old(bestFitness[k]) then currFitness[k] else old(bestFitness[k]))
          && bestPosition[k] == (if currFitness[k] > old(bestFitness[k]) then position[k] else old(bestPosition[k]))
        invariant forall k :: i <= k < particles ==>
          bestFitness[k] == old(bestFitness[k]) && bestPosition[k] == old(bestPosition[k])
        invariant forall k :: 0 <= k < particles ==> |bestPosition[k]| == size
        invariant (globalBest, globalBestIdx) == GlobalScan(currFitness[..i], old(globalBest), old(globalBestIdx))
        invariant particles == 0 ==> globalBestIdx == 0
        invariant particles > 0 ==> globalBestIdx < particles && bestFitness[globalBestIdx] == globalBest
        invariant forall k :: 0 <= k < particles ==> bestFitness[k] <= globalBest
        invariant globalBest >= old(globalBest)
      {
        ghost var before := currFitness[..];
        EvaluateParticle(i);
        assert currFitness[..i] == before[..i];
        GlobalScanStep(currFitness[..], i, old(globalBest), old(globalBestIdx));
      }
      assert currFitness[..particles] == currFitness[..];
    }

    /** One iteration of that loop: evaluate particle `i` and update the bests it may beat. */
    method EvaluateParticle(i: nat)
      requires i < particles && Shape()
      modifies currFitness, bestFitness, bestPosition, this`globalBest, this`globalBestIdx
      ensures currFitness[i] == fitFunc(position[i])
      ensures bestFitness[i] == if currFitness[i] > old(bestFitness[i]) then currFitness[i] else old(bestFitness[i])
      ensures bestPosition[i] == if currFitness[i] > old(bestFitness[i]) then position[i] else old(bestPosition[i])
      ensures forall k :: 0 <= k < particles && k != i ==>
        currFitness[k] == old(currFitness[k]) && bestFitness[k] == old(bestFitness[k]) && bestPosition[k] == old(bestPosition[k])
      ensures (globalBest, globalBestIdx) ==
        if currFitness[i] > old(globalBest) then (currFitness[i], i) else (old(globalBest), old(globalBestIdx))
    {
      currFitness[i] := fitFunc(position[i]);
      if currFitness[i] > bestFitness[i] {
        bestFitness[i] := currFitness[i];
        bestPosition[i] := position[i];
      }
      if currFitness[i] > globalBest {
        globalBest := currFitness[i];
        globalBestIdx := i;
      }
    }

    /**
     * Ring topology: each particle compares the current fitness of every
     * particle within `radius` places of it (wrapping round) with that of
     * its local best, and moves to one only on strict improvement.
     */
    method SetLocalBest()
      requires Valid()
      modifies localBest
      ensures Valid()
      ensures forall idx :: 0 <= idx < particles ==>
        localBest[idx] == WindowScan(currFitness[..], old(localBest[idx]), idx, radius, 2 * radius + 1)
      ensures forall idx, i :: 0 <= idx < particles && idx - radius <= i <= idx + radius ==>
        currFitness[Wrap(i, particles)] <= currFitness[localBest[idx]]
    {
      for idx := 0 to particles
        invariant forall k :: 0 <= k < particles ==> localBest[k] < particles && InWindow(localBest[k], k, radius, particles)
        invariant forall k :: 0 <= k < idx ==>
          localBest[k] == WindowScan(currFitness[..], old(localBest[k]), k, radius, 2 * radius + 1)
        invariant forall k :: idx <= k < particles ==> localBest[k] == old(localBest[k])
      {
        ScanNeighbourhood(idx);
      }
      forall idx | 0 <= idx < particles
        ensures forall i :: idx - radius <= i <= idx + radius ==>
          currFitness[Wrap(i, particles)] <= currFitness[localBest[idx]]
      {
        WindowScanInWindow(currFitness[..], old(localBest[idx]), idx, radius);
      }
    }

    /** The inner loop of `SetLocalBest`: the window scan of one particle. */
    method ScanNeighbourhood(idx: nat)
      requires Shape() && idx < particles
      requires localBest[idx] < particles && InWindow(localBest[idx], idx, radius, particles)
      modifies localBest
      ensures localBest[idx] == WindowScan(currFitness[..], old(localBest[idx]), idx, radius, 2 * radius + 1)
      ensures localBest[idx] < particles && InWindow(localBest[idx], idx, radius, particles)
      ensures forall k :: 0 <= k < particles && k != idx ==> localBest[k] == old(localBest[k])
    {
      var i := idx - radius;
      while i < idx + radius + 1
        invariant idx - radius <= i <= idx + radius + 1
        invariant localBest[idx] == WindowScan(currFitness[..], old(localBest[idx]), idx, radius, i - (idx - radius))
        invariant forall k :: 0 <= k < particles && k != idx ==> localBest[k] == old(localBest[k])
      {
        var j := i % particles;
        if currFitness[j] > currFitness[localBest[idx]] {
          localBest[idx] := j;
        }
        i := i + 1;
      }
      WindowScanInWindow(currFitness[..], old(localBest[idx]), idx, radius);
    }

    method GetBestFitness() returns (best: real)
      requires Valid()
      ensures best == globalBest
      ensures forall i :: 0 <= i < particles ==> bestFitness[i] <= best
    {
      best := globalBest;
    }

    /** The personal-best position of the particle owning the global best. */
    method GetBestPosition() returns (pos: Vector)
      requires Valid() && particles > 0
      ensures pos == bestPosition[globalBestIdx] && bestFitness[globalBestIdx] == globalBest
      ensures |pos| == size
    {
      pos := bestPosition[globalBestIdx];
    }

    method GetInertia() returns (w: real)
      ensures w == inertia
    {
      w := inertia;
    }

    method SetInertia(w: real)
      requires Valid()
      modifies this`inertia
      ensures Valid() && inertia == w
    {
      inertia := w;
    }
  }

  /**
   * Construction of a swarm: the field set-up followed by the first
   * evaluation pass, after which every particle's current fitness is its
   * fitness at its start position, its personal best is that fitness and
   * position when positive (zero and the origin otherwise), the global best
   * is the first strictly largest of the positive current fitnesses, and in
   * ring mode each local best is the scan of its window started from itself.
   */
  method NewSwarm(bounds: seq<(real, real)>, numParticles: nat, vMax: real, fitFunc: Vector -> real,
                  inertia: real, cog: real, social: real, radius: nat, decCog: bool, doGlobal: bool,
                  unitPosition: seq<Vector>, initVelocity: seq<Vector>) returns (s: Swarm)
    requires |unitPosition| == numParticles && |initVelocity| == numParticles
    requires forall i :: 0 <= i < numParticles ==> |unitPosition[i]| == |bounds| && |initVelocity[i]| == |bounds|
    ensures fresh(s) && s.Valid()
    ensures fresh(s.position) && fresh(s.velocity) && fresh(s.bestPosition)
    ensures fresh(s.currFitness) && fresh(s.bestFitness) && fresh(s.localBest)
    ensures s.particles == numParticles && s.inertia == inertia && s.cog == cog
    ensures s.position[..] == PlaceAll(unitPosition, bounds) && s.velocity[..] == initVelocity
    ensures forall i :: 0 <= i < numParticles ==> s.currFitness[i] == fitFunc(PlaceAll(unitPosition, bounds)[i])
    ensures forall i :: 0 <= i < numParticles ==>
      s.bestFitness[i] == (if s.currFitness[i] > 0.0 then s.currFitness[i] else 0.0)
    ensures (s.globalBest, s.globalBestIdx) == GlobalScan(s.currFitness[..], 0.0, 0)
    ensures s.bounds == bounds && s.size == |bounds| && s.fitFunc == fitFunc && s.vMax == vMax
    ensures s.social == social && s.radius == radius && s.decCog == decCog && s.doGlobal == doGlobal
    ensures forall i :: 0 <= i < s.particles ==>
      s.bestPosition[i] == (if s.currFitness[i] > 0.0 then s.position[i] else Zeros(s.size))
    ensures s.doGlobal ==> s.localBest[..] == Range(s.particles)
    ensures !s.doGlobal ==> forall idx :: 0 <= idx < s.particles ==>
      s.localBest[idx] == WindowScan(s.currFitness[..], idx, idx, s.radius, 2 * s.radius + 1)
  {
    s := new Swarm(bounds, numParticles, vMax, fitFunc, inertia, cog, social, radius, decCog, doGlobal,
                   unitPosition, initVelocity);
    s.FirstPass();
  }
}
