/**
 * What the particle swarm's best-tracking computes, as functions over the
 * fitness values: the running global best of one evaluation pass, and the
 * scan of a particle's ring neighbourhood for its local best.
 */
module SwarmSpec {

  /** Python's `i % n` for a positive modulus: the position of `i` on a ring of `n` particles. */
  function Wrap(i: int, n: nat): (j: nat)
    requires n > 0
    ensures j < n
  {
    i % n
  }

  /** `j` is one of the particles (idx + k) mod n, -r <= k <= r. */
  predicate InWindow(j: nat, idx: int, r: nat, n: nat)
    requires n > 0
  {
    exists i :: idx - r <= i <= idx + r && j == Wrap(i, n)
  }

  /** Every particle lies in its own window (the initial `arange` local bests). */
  lemma OwnIndexInWindow(n: nat, r: nat)
    ensures forall i :: 0 <= i < n ==> InWindow(i, i, r, n)
  {
    forall i | 0 <= i < n ensures InWindow(i, i, r, n) {
      assert i == Wrap(i, n);
    }
  }

  /**
   * Global best (value, owner) after comparing `cs` in order against the
   * running best `gb` owned by `gi`, replacing it on strict improvement.
   */
  function GlobalScan(cs: seq<real>, gb: real, gi: nat): (res: (real, nat))
  {
    if cs == [] then (gb, gi)
    else
      var prev := GlobalScan(cs[..|cs| - 1], gb, gi);
      if cs[|cs| - 1] > prev.0 then (cs[|cs| - 1], |cs| - 1) else prev
  }

  /**
   * The scan yields the maximum of `gb` and all of `cs`; the owner moves to the
   * first index attaining it when that maximum beats `gb`, and stays otherwise.
   */
  lemma {:induction false} GlobalScanSpec(cs: seq<real>, gb: real, gi: nat)
    ensures GlobalScan(cs, gb, gi).0 >= gb
    ensures forall k :: 0 <= k < |cs| ==> cs[k] <= GlobalScan(cs, gb, gi).0
    ensures (forall k :: 0 <= k < |cs| ==> cs[k] <= gb) ==> GlobalScan(cs, gb, gi) == (gb, gi)
    ensures (exists k :: 0 <= k < |cs| && cs[k] > gb) ==>
      && GlobalScan(cs, gb, gi).1 < |cs|
      && cs[GlobalScan(cs, gb, gi).1] == GlobalScan(cs, gb, gi).0
      && forall k :: 0 <= k < GlobalScan(cs, gb, gi).1 ==> cs[k] < GlobalScan(cs, gb, gi).0
  {
    if cs != [] {
      var init := cs[..|cs| - 1];
      GlobalScanSpec(init, gb, gi);
      assert forall k :: 0 <= k < |init| ==> init[k] == cs[k];
    }
  }

  /** One more particle compared: the scan of a longer prefix is one step of the running best. */
  lemma GlobalScanStep(cs: seq<real>, i: nat, gb: real, gi: nat)
    requires i < |cs|
    ensures GlobalScan(cs[..i + 1], gb, gi) ==
      if cs[i] > GlobalScan(cs[..i], gb, gi).0 then (cs[i], i) else GlobalScan(cs[..i], gb, gi)
  {
    assert cs[..i + 1][..i] == cs[..i];
  }

  /**
   * The local-best index of particle `idx` after the first `t` positions
   * idx - r, idx - r + 1, ... of its window have been compared with it,
   * starting from `cur`; it is replaced only on strictly higher fitness.
   */
  function WindowScan(fit: seq<real>, cur: nat, idx: int, r: nat, t: nat): (b: nat)
    requires cur < |fit|
    ensures b < |fit|
  {
    if t == 0 then cur
    else
      var b := WindowScan(fit, cur, idx, r, t - 1);
      var j := Wrap(idx - r + t - 1, |fit|);
      if fit[j] > fit[b] then j else b
  }

  /**
   * The scan ends on an index at least as fit as every particle it looked at
   * and as its start; it keeps the start unless some particle is strictly
   * fitter, and otherwise lands on a particle it looked at.
   */
  lemma {:induction false} WindowScanSpec(fit: seq<real>, cur: nat, idx: int, r: nat, t: nat)
    requires cur < |fit|
    ensures fit[WindowScan(fit, cur, idx, r, t)] >= fit[cur]
    ensures forall i :: idx - r <= i < idx - r + t ==> fit[Wrap(i, |fit|)] <= fit[WindowScan(fit, cur, idx, r, t)]
    ensures (forall i :: idx - r <= i < idx - r + t ==> fit[Wrap(i, |fit|)] <= fit[cur]) ==>
      WindowScan(fit, cur, idx, r, t) == cur
    ensures WindowScan(fit, cur, idx, r, t) == cur ||
      exists i :: idx - r <= i < idx - r + t && WindowScan(fit, cur, idx, r, t) == Wrap(i, |fit|)
  {
    if t > 0 {
      WindowScanSpec(fit, cur, idx, r, t - 1);
    }
  }

  /** A full scan of the window stays in the window and dominates all of it. */
  lemma WindowScanInWindow(fit: seq<real>, cur: nat, idx: int, r: nat)
    requires cur < |fit| && InWindow(cur, idx, r, |fit|)
    ensures InWindow(WindowScan(fit, cur, idx, r, 2 * r + 1), idx, r, |fit|)
    ensures forall i :: idx - r <= i <= idx + r ==> fit[Wrap(i, |fit|)] <= fit[WindowScan(fit, cur, idx, r, 2 * r + 1)]
  {
    WindowScanSpec(fit, cur, idx, r, 2 * r + 1);
  }
}
