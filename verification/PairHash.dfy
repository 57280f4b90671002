/** The two hash functions of a pair of hash codes: one with a division and one without. */
module PairHash {

  const M := 0x7FFF_FFFF
  const HALF_32 := 0x8000_0000
  const RANGE_32 := 0x1_0000_0000
  const RANGE_63 := 0x8000_0000_0000_0000
  const RANGE_64 := 0x1_0000_0000_0000_0000

  /** A hash code: a 32-bit signed number. */
  predicate IsInt(h: int) {
    -HALF_32 <= h < HALF_32
  }

  function ToUInt64(h: int): nat {
    h % RANGE_64
  }

  function ToInt(n: nat): int
    requires n < RANGE_32
  {
    if n < HALF_32 then n else n - RANGE_32
  }

  /** Both hash functions begin with this number, in 64-bit arithmetic. */
  function Pairing64(hc1: int, hc2: int): (c: nat)
    ensures c < RANGE_64
  {
    var sum := (ToUInt64(hc1) + ToUInt64(hc2)) % RANGE_64;
    ((sum * ((sum + 1) % RANGE_64)) % RANGE_64 / 2 + ToUInt64(hc1)) % RANGE_64
  }

  function Pairing(a: nat, b: nat): nat {
    (a + b) * (a + b + 1) / 2 + a
  }

  function Triangle(n: nat): nat {
    if n == 0 then 0 else Triangle(n - 1) + n
  }

  lemma {:induction false} TriangleIsHalf(n: nat)
    ensures n * (n + 1) == 2 * Triangle(n)
  {
    if n > 0 {
      TriangleIsHalf(n - 1);
      assert n * (n + 1) == (n - 1) * n + 2 * n;
    }
  }

  lemma {:induction false} TriangleGrows(m: nat, n: nat)
    requires m < n
    ensures Triangle(m) + m < Triangle(n)
    decreases n
  {
    if m < n - 1 { TriangleGrows(m, n - 1); }
  }

  /** The number tells the pair. */
  lemma PairingIsInjective(a: nat, b: nat, a': nat, b': nat)
    requires Pairing(a, b) == Pairing(a', b')
    ensures a == a' && b == b'
  {
    TriangleIsHalf(a + b);
    TriangleIsHalf(a' + b');
    assert Pairing(a, b) == Triangle(a + b) + a && Pairing(a', b') == Triangle(a' + b') + a';
    if a + b < a' + b' { TriangleGrows(a + b, a' + b'); }
    if a' + b' < a + b { TriangleGrows(a' + b', a + b); }
  }

  lemma PairingIs(a: nat, b: nat)
    ensures Pairing(a, b) == Triangle(a + b) + a
  {
    TriangleIsHalf(a + b);
  }

  /** The numbers count the pairs diagonal by diagonal from the pair 0, 0 on: this is the next pair. */
  function NextPair(a: nat, b: nat): (nat, nat) {
    if b > 0 then (a + 1, b - 1) else (0, a + 1)
  }

  lemma WalksDiagonals(a: nat, b: nat)
    ensures Pairing(NextPair(a, b).0, NextPair(a, b).1) == Pairing(a, b) + 1
    ensures Pairing(0, 0) == 0
  {
    PairingIs(0, 0);
    PairingIs(a, b);
    PairingIs(NextPair(a, b).0, NextPair(a, b).1);
  }

  lemma ProductGrows(n: nat, k: nat)
    requires n <= k
    ensures n * (n + 1) <= k * (k + 1)
  {
    assert k * (k + 1) == n * (n + 1) + (k - n) * (k + n + 1);
  }

  /** Non-negative codes lose no bits in 64-bit arithmetic. */
  lemma PairingFits(hc1: int, hc2: int)
    requires 0 <= hc1 < HALF_32 && 0 <= hc2 < HALF_32
    ensures Pairing64(hc1, hc2) == Pairing(hc1, hc2) < RANGE_63 - 1
  {
    var sum := hc1 + hc2;
    var p := sum * (sum + 1);
    ProductGrows(sum, 0xFFFF_FFFE);
    assert 0 <= p <= 0xFFFF_FFFD_0000_0002;
    Small(hc1);
    Small(hc2);
    Small(sum);
    Small(sum + 1);
    Small(p);
    Small(p / 2 + hc1);
  }

  lemma Small(n: nat)
    requires n < RANGE_64
    ensures n % RANGE_64 == n
  {
  }

  function HashWithDivision(hc1: int, hc2: int): (h: int)
    ensures 0 <= h < M
  {
    Pairing64(hc1, hc2) % M
  }

  /** What the second version makes of the number R, cut to 32 bits, of 31-bit units and the rest Q: R is
    * made smaller by M if it is large, and so is the sum.
    */
  function Fold(r: nat, q: nat): (h: int)
    requires r < RANGE_32 && q < HALF_32
  {
    var rq := ((if r >= HALF_32 then r - M else r) + q) % RANGE_32;
    if rq < M then ToInt(rq) else if rq - M == M then 0 else ToInt(rq - M)
  }

  function Folded(c: nat): (h: int)
    requires c < RANGE_64
  {
    Fold((c / HALF_32) % RANGE_32, c % HALF_32)
  }

  lemma FoldSmall(k: nat, q: nat)
    requires k < RANGE_32 && q < HALF_32
    ensures Fold(k, q) == (k + q) % M <==> HALF_32 * k + q < RANGE_63 - 1
  {
  }

  lemma FoldLarge(k: nat, q: nat)
    requires RANGE_32 <= k < 2 * RANGE_32 && q < HALF_32
    ensures Fold(k - RANGE_32, q) != (k + q) % M
  {
  }

  /** Folding is the remainder modulo M exactly for the numbers below 2^63 - 1. */
  lemma FoldedIsRemainder(c: nat)
    requires c < RANGE_64
    ensures Folded(c) == c % M <==> c < RANGE_63 - 1
  {
    var k, q := c / HALF_32, c % HALF_32;
    assert c == HALF_32 * k + q == M * k + (k + q);
    SameRemainder(c, k, k + q);
    if c < RANGE_63 {
      assert k % RANGE_32 == k;
      FoldSmall(k, q);
    } else {
      assert k % RANGE_32 == k - RANGE_32;
      FoldLarge(k, q);
    }
  }

  lemma SameRemainder(c: nat, k: nat, x: nat)
    requires c == M * k + x
    ensures c % M == x % M
  {
  }

  /** The number modulo M without a division. */
  method Reduce(c: nat) returns (h: int)
    requires c < RANGE_64
    ensures h == Folded(c) && (h == c % M <==> c < RANGE_63 - 1)
  {
    FoldedIsRemainder(c);
    var r, q := (c / HALF_32) % RANGE_32, c % HALF_32;
    if r >= HALF_32 { r := r - M; }
    var rq := (r + q) % RANGE_32;
    if rq < M { return ToInt(rq); }
    rq := rq - M;
    return if rq == M then 0 else ToInt(rq);
  }

  method HashWithoutDivision(hc1: int, hc2: int) returns (h: int)
    requires IsInt(hc1) && IsInt(hc2)
    ensures h == Folded(Pairing64(hc1, hc2))
    ensures h == HashWithDivision(hc1, hc2) <==> Pairing64(hc1, hc2) < RANGE_63 - 1
    ensures 0 <= hc1 && 0 <= hc2 ==> h == HashWithDivision(hc1, hc2)
  {
    h := Reduce(Pairing64(hc1, hc2));
    if 0 <= hc1 && 0 <= hc2 { PairingFits(hc1, hc2); }
  }

  /** A pair with a negative code and its two hashes: the second one is negative. */
  lemma NegativeCodesDiffer()
    ensures HashWithDivision(-1, 0) == 3
    ensures Folded(Pairing64(-1, 0)) == -HALF_32
  {
    var a, b := ToUInt64(-1), ToUInt64(0);
    assert a == RANGE_64 - 1 && b == 0;
    assert (a + b) % RANGE_64 == a && (a + 1) % RANGE_64 == 0 && a * 0 == 0;
    assert Pairing64(-1, 0) == (0 + a) % RANGE_64 == RANGE_64 - 1;
    assert (RANGE_64 - 1) / HALF_32 == 0x1_FFFF_FFFF && (RANGE_64 - 1) % HALF_32 == M;
    assert 0x1_FFFF_FFFF % RANGE_32 == 0xFFFF_FFFF;
    assert (0xFFFF_FFFF - M + M) % RANGE_32 == 0xFFFF_FFFF;
  }
}
