/**
 * Fixed-length bit strings, the genomes of the genetic algorithm.
 *
 * A genome is a `seq<bool>` standing for a `bitstring.BitArray`; index 0 is
 * the most significant bit, so `Encode` is the `'uint:L=n'` construction and
 * `Decode` reads such a string back as an unsigned big-endian integer.
 */
module Bits {

  type Genome = seq<bool>

  function Pow2(n: nat): (r: nat)
    ensures r >= 1
  {
    if n == 0 then 1 else 2 * Pow2(n - 1)
  }

  /**
   * Big-endian unsigned encoding of `n` on `len` bits. The `'uint:L=n'`
   * construction rejects n >= 2^L; every caller here keeps n below 2^len
   * (see `DecodeEncode`), where the encoding is exact.
   */
  function Encode(n: nat, len: nat): (r: Genome)
    ensures |r| == len
  {
    if len == 0 then [] else Encode(n / 2, len - 1) + [n % 2 == 1]
  }

  /** The unsigned integer a bit string denotes, most significant bit first. */
  function Decode(s: Genome): (v: nat)
    ensures v < Pow2(|s|)
  {
    if s == [] then 0 else 2 * Decode(s[..|s| - 1]) + (if s[|s| - 1] then 1 else 0)
  }

  lemma {:induction false} DecodeEncode(n: nat, len: nat)
    requires n < Pow2(len)
    ensures Decode(Encode(n, len)) == n
  {
    if len > 0 {
      var e := Encode(n, len);
      assert e[..len - 1] == Encode(n / 2, len - 1);
      DecodeEncode(n / 2, len - 1);
    }
  }

  lemma {:induction false} EncodeDecode(s: Genome)
    ensures Encode(Decode(s), |s|) == s
  {
    if s != [] {
      var init := s[..|s| - 1];
      var b := if s[|s| - 1] then 1 else 0;
      assert (2 * Decode(init) + b) / 2 == Decode(init);
      EncodeDecode(init);
      assert init + [s[|s| - 1]] == s;
    }
  }

  /** Number of set bits (`BitArray.count(True)`). */
  function CountOnes(s: Genome): (c: nat)
    ensures c <= |s|
  {
    if s == [] then 0 else CountOnes(s[..|s| - 1]) + (if s[|s| - 1] then 1 else 0)
  }

  lemma {:induction false} CountOnesAppend(a: Genome, b: Genome)
    ensures CountOnes(a + b) == CountOnes(a) + CountOnes(b)
  {
    if b != [] {
      assert (a + b)[..|a + b| - 1] == a + b[..|b| - 1];
      CountOnesAppend(a, b[..|b| - 1]);
    } else {
      assert a + b == a;
    }
  }

  /** The loci 0, 2, 4, ... of `s` (the slice `s[::2]`). */
  function Evens(s: Genome): Genome
  {
    seq((|s| + 1) / 2, i requires 0 <= i < (|s| + 1) / 2 => s[2 * i])
  }

  /** The loci 1, 3, 5, ... of `s` (the slice `s[1::2]`). */
  function Odds(s: Genome): Genome
  {
    seq(|s| / 2, i requires 0 <= i < |s| / 2 => s[2 * i + 1])
  }

  /** `s` with its odd loci overwritten by `sub` (the assignment `s[1::2] = sub`). */
  function SetOdds(s: Genome, sub: Genome): Genome
    requires |sub| == |s| / 2
  {
    seq(|s|, i requires 0 <= i < |s| => if i % 2 == 1 then sub[i / 2] else s[i])
  }

  /**
   * A zero string of length `len` whose even loci are overwritten by `sub`
   * (`x = BitArray(len); x[::2] = sub`).
   */
  function SpreadEvens(sub: Genome, len: nat): Genome
    requires |sub| == (len + 1) / 2
  {
    seq(len, i requires 0 <= i < len => if i % 2 == 0 then sub[i / 2] else false)
  }

  /** Writing the odd loci keeps the even loci and installs exactly `sub`. */
  lemma SetOddsSpec(s: Genome, sub: Genome)
    requires |sub| == |s| / 2
    ensures |SetOdds(s, sub)| == |s|
    ensures Evens(SetOdds(s, sub)) == Evens(s)
    ensures Odds(SetOdds(s, sub)) == sub
  {
    var r := SetOdds(s, sub);
    forall i | 0 <= i < |Evens(r)| ensures Evens(r)[i] == Evens(s)[i] {
      assert (2 * i) % 2 == 0;
    }
    forall i | 0 <= i < |sub| ensures Odds(r)[i] == sub[i] {
      assert (2 * i + 1) % 2 == 1 && (2 * i + 1) / 2 == i;
    }
  }

  /** A second write of the odd loci erases the first one. */
  lemma SetOddsTwice(s: Genome, x: Genome, y: Genome)
    requires |x| == |s| / 2 && |y| == |s| / 2
    ensures SetOdds(SetOdds(s, x), y) == SetOdds(s, y)
  {
  }

  /** Spreading a sub-genome puts it on the even loci and clears every odd locus. */
  lemma SpreadEvensSpec(sub: Genome, len: nat)
    requires |sub| == (len + 1) / 2
    ensures |SpreadEvens(sub, len)| == len
    ensures Evens(SpreadEvens(sub, len)) == sub
    ensures forall i :: 0 <= i < len && i % 2 == 1 ==> !SpreadEvens(sub, len)[i]
  {
    var r := SpreadEvens(sub, len);
    forall i | 0 <= i < |sub| ensures Evens(r)[i] == sub[i] {
      assert (2 * i) % 2 == 0 && (2 * i) / 2 == i;
    }
  }
}
