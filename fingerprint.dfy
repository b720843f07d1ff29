/** Perceptual fingerprints, their Hamming distance and the similarity test
    of `Configs.isSimilar`. Python integers are unbounded and non-negative
    here, so every operation is defined on `nat`; a fingerprint computed from
    a frame is an 8-byte big-endian value, hence below 2^64. */
module Fingerprint {

  /** 2^64: one more than the largest 8-byte fingerprint. */
  const HASH_MODULUS: nat := 0x1_0000_0000_0000_0000

  /** A fingerprint produced by the perceptual hasher. */
  type Hash = h: nat | h < HASH_MODULUS

  /** 2^k. */
  function Pow2(k: nat): (r: nat)
    ensures r >= 1
  {
    if k == 0 then 1 else 2 * Pow2(k - 1)
  }

  /** Bit `i` (0 = least significant) of the binary expansion of `n`. */
  function Bit(n: nat, i: nat): (b: nat)
    ensures b < 2
  {
    if i == 0 then n % 2 else Bit(n / 2, i - 1)
  }

  /** The bitwise exclusive or `a ^ b` of two non-negative integers. */
  function Xor(a: nat, b: nat): nat
    decreases a + b
  {
    if a == 0 && b == 0 then 0
    else 2 * Xor(a / 2, b / 2) + (if a % 2 == b % 2 then 0 else 1)
  }

  /** The number of 1 digits in the binary expansion of `n`: `bin(n).count('1')`. */
  function PopCount(n: nat): nat {
    if n == 0 then 0 else n % 2 + PopCount(n / 2)
  }

  /** `hamming(a, b)`: the number of bit positions at which `a` and `b` differ. */
  function Hamming(a: nat, b: nat): nat {
    PopCount(Xor(a, b))
  }

  /** Xor is bitwise: each bit of `a ^ b` is set exactly when the bits of `a`
      and `b` at that position differ. */
  lemma {:induction false} XorBit(a: nat, b: nat, i: nat)
    ensures Bit(Xor(a, b), i) == if Bit(a, i) == Bit(b, i) then 0 else 1
    decreases i
  {
    if a == 0 && b == 0 {
      ZeroBits(i);
    } else if i > 0 {
      XorBit(a / 2, b / 2, i - 1);
      assert Xor(a, b) / 2 == Xor(a / 2, b / 2);
    }
  }

  lemma {:induction false} ZeroBits(i: nat)
    ensures Bit(0, i) == 0
  {
    if i > 0 {
      ZeroBits(i - 1);
    }
  }

  lemma {:induction false} XorZeroLeft(n: nat)
    ensures Xor(0, n) == n
  {
    if n != 0 {
      XorZeroLeft(n / 2);
    }
  }

  /** 2^k - 1 has k bits set. */
  lemma {:induction false} PopCountOnes(k: nat)
    ensures PopCount(Pow2(k) - 1) == k
  {
    if k > 0 {
      PopCountOnes(k - 1);
      assert Pow2(k) - 1 == 2 * (Pow2(k - 1) - 1) + 1;
    }
  }

  lemma {:induction false} XorSymmetric(a: nat, b: nat)
    ensures Xor(a, b) == Xor(b, a)
    decreases a + b
  {
    if a != 0 || b != 0 {
      XorSymmetric(a / 2, b / 2);
    }
  }

  lemma {:induction false} XorZeroIff(a: nat, b: nat)
    ensures Xor(a, b) == 0 <==> a == b
    decreases a + b
  {
    if a != 0 || b != 0 {
      XorZeroIff(a / 2, b / 2);
    }
  }

  lemma {:induction false} PopCountZeroIff(n: nat)
    ensures PopCount(n) == 0 <==> n == 0
  {
    if n != 0 {
      PopCountZeroIff(n / 2);
    }
  }

  /** The distance does not depend on the order of its arguments. */
  lemma HammingSymmetric(a: nat, b: nat)
    ensures Hamming(a, b) == Hamming(b, a)
  {
    XorSymmetric(a, b);
  }

  /** The distance is zero exactly between equal fingerprints. */
  lemma HammingZeroIff(a: nat, b: nat)
    ensures Hamming(a, b) == 0 <==> a == b
  {
    XorZeroIff(a, b);
    PopCountZeroIff(Xor(a, b));
  }

  lemma {:induction false} XorBelow(a: nat, b: nat, k: nat)
    requires a < Pow2(k) && b < Pow2(k)
    ensures Xor(a, b) < Pow2(k)
    decreases k
  {
    if k > 0 && (a != 0 || b != 0) {
      XorBelow(a / 2, b / 2, k - 1);
    }
  }

  lemma {:induction false} PopCountBelow(n: nat, k: nat)
    requires n < Pow2(k)
    ensures PopCount(n) <= k
    decreases k
  {
    if k > 0 && n != 0 {
      PopCountBelow(n / 2, k - 1);
    }
  }

  lemma {:induction false} Pow2Add(a: nat, b: nat)
    ensures Pow2(a + b) == Pow2(a) * Pow2(b)
    decreases a
  {
    if a > 0 {
      Pow2Add(a - 1, b);
    }
  }

  lemma Pow2Is64()
    ensures Pow2(64) == HASH_MODULUS
  {
    assert Pow2(2) == 4;
    Pow2Add(2, 2);
    assert Pow2(4) == 16;
    Pow2Add(4, 4);
    assert Pow2(8) == 0x100;
    Pow2Add(8, 8);
    assert Pow2(16) == 0x1_0000;
    Pow2Add(16, 16);
    assert Pow2(32) == 0x1_0000_0000;
    Pow2Add(32, 32);
  }

  /** Two 8-byte fingerprints differ in at most 64 positions. */
  lemma HammingAtMost64(a: Hash, b: Hash)
    ensures Hamming(a, b) <= 64
  {
    Pow2Is64();
    XorBelow(a, b, 64);
    PopCountBelow(Xor(a, b), 64);
  }

  /** The bit width the threshold formula uses (`8 * 4`). */
  const THRESHOLD_BITS: nat := 32

  /** The configured similarity ratio. */
  const SIMILARITY: real := 0.8

  /** The distance bound used when the ratio is not changed. */
  const DEFAULT_MAX_HAMMING_DISTANCE: int := 7

  /** `math.ceil(x)`. */
  function Ceil(x: real): (r: int)
    ensures r as real - 1.0 < x <= r as real
  {
    -((-x).Floor)
  }

  /** `math.ceil(bits * (1 - similarity))`: distances strictly below this
      count as the same picture. */
  function MaxHammingDistance(bits: nat, similarity: real): int {
    Ceil(bits as real * (1.0 - similarity))
  }

  /** With the configured ratio the bound is 7, the class default. */
  lemma DefaultThreshold()
    ensures MaxHammingDistance(THRESHOLD_BITS, SIMILARITY) == DEFAULT_MAX_HAMMING_DISTANCE
  {
  }

  /** What `isSimilar` decides: `hash` is a member of `hashes`, or some member
      is at distance strictly below `threshold`. */
  predicate Similar(hashes: set<nat>, hash: nat, threshold: int) {
    hash in hashes || exists h :: h in hashes && Hamming(h, hash) < threshold
  }

  /** `Configs.isSimilar`: the exact-member fast path, then a scan of the set
      that stops at the first member close enough. */
  method IsSimilar(hashes: set<nat>, hash: nat, threshold: int) returns (similar: bool)
    ensures similar <==> Similar(hashes, hash, threshold)
  {
    if hash in hashes {
      return true;
    }
    var rest := hashes;
    while rest != {}
      invariant rest <= hashes
      invariant forall h :: h in hashes && h !in rest ==> Hamming(h, hash) >= threshold
      decreases |rest|
    {
      var h :| h in rest;
      var diff := Hamming(h, hash);
      if diff < threshold {
        return true;
      }
      rest := rest - {h};
    }
    return false;
  }

  /** An exact member is similar whatever the threshold. */
  lemma MemberIsSimilar(hashes: set<nat>, hash: nat, threshold: int)
    requires hash in hashes
    ensures Similar(hashes, hash, threshold)
  {
  }

  /** Nothing is similar to a member of the empty set. */
  lemma EmptyNeverSimilar(hash: nat, threshold: int)
    ensures !Similar({}, hash, threshold)
  {
  }

  /** With a positive threshold the exact-member fast path changes nothing:
      the test is exactly "some member is closer than the threshold". */
  lemma SimilarIffClose(hashes: set<nat>, hash: nat, threshold: int)
    requires threshold >= 1
    ensures Similar(hashes, hash, threshold) <==> exists h :: h in hashes && Hamming(h, hash) < threshold
  {
    if hash in hashes {
      HammingZeroIff(hash, hash);
    }
  }

  /** With a threshold of zero or less only exact members are similar. */
  lemma SimilarNonPositive(hashes: set<nat>, hash: nat, threshold: int)
    requires threshold <= 0
    ensures Similar(hashes, hash, threshold) <==> hash in hashes
  {
  }

  /** Raising the threshold can only turn more tests positive. */
  lemma SimilarMonotone(hashes: set<nat>, hash: nat, t1: int, t2: int)
    requires t1 <= t2 && Similar(hashes, hash, t1)
    ensures Similar(hashes, hash, t2)
  {
  }

  /** A larger set can only turn more tests positive. */
  lemma SimilarSubset(small: set<nat>, large: set<nat>, hash: nat, threshold: int)
    requires small <= large && Similar(small, hash, threshold)
    ensures Similar(large, hash, threshold)
  {
  }
}
