/** Powers of a seed matrix under the Kronecker product, as an explicit matrix and entry by entry. */
module KroneckerPower {
  import opened Hiding

  type Seed = (int, int) -> real

  function Pow(d: nat, k: nat): nat {
    if k == 0 then 1 else d * Pow(d, k - 1)
  }

  function PowReal(x: real, k: nat): real {
    if k == 0 then 1.0 else x * PowReal(x, k - 1)
  }

  /** Entry (i, j) of the k-th power: the product of the seed entries at the base-d digits of i and j. */
  ghost function Entry(seed: Seed, d: nat, k: nat, i: nat, j: nat): real
    requires d > 0
  {
    if k == 0 then 1.0 else seed(i % d, j % d) * Entry(seed, d, k - 1, i / d, j / d)
  }

  ghost predicate Square(m: array2<real>) {
    m.Length0 == m.Length1
  }

  /** m is the k-th power of the seed. */
  ghost predicate IsPower(m: array2<real>, seed: Seed, d: nat, k: nat)
    requires d > 0
    reads m
  {
    Square(m) && m.Length0 == Pow(d, k) && forall i, j | 0 <= i < m.Length0 && 0 <= j < m.Length0 :: m[i, j] == Entry(seed, d, k, i, j)
  }

  ghost predicate Is(m: array2<real>, seed: Seed)
    reads m
  {
    Square(m) && forall i, j | 0 <= i < m.Length0 && 0 <= j < m.Length0 :: m[i, j] == seed(i, j)
  }

  lemma Associates(x: real, y: real, z: real)
    ensures (x * y) * z == x * (y * z)
  {
  }

  /** One more digit. */
  lemma DigitStep(seed: Seed, d: nat, k: nat, i: nat, j: nat, prob: real, x: real)
    requires d > 0 && x == seed(i % d, j % d)
    ensures prob * Entry(seed, d, k + 1, i, j) == (prob * x) * Entry(seed, d, k, i / d, j / d)
  {
    EntryStep(seed, d, k, i, j);
    Associates(prob, x, Entry(seed, d, k, i / d, j / d));
  }

  /** One round of the loop: `goal` is what the product comes to in the end. */
  method TakeDigit(m: array2<real>, prob: real, i: nat, j: nat, ghost seed: Seed, ghost k: nat, ghost goal: real)
    returns (p: real, i': nat, j': nat)
    requires m.Length0 > 0 && Is(m, seed) && goal == prob * Entry(seed, m.Length0, k + 1, i, j)
    ensures goal == p * Entry(seed, m.Length0, k, i', j')
  {
    var d := m.Length0;
    var x := m[i % d, j % d];
    DigitStep(seed, d, k, i, j, prob, x);
    p, i', j' := prob * x, i / d, j / d;
  }

  /** The probability of an edge, digit by digit; it stops at a factor 0. */
  method GetEdgeProb(m: array2<real>, nid1: nat, nid2: nat, iters: nat, ghost seed: Seed) returns (prob: real)
    requires m.Length0 > 0 && Is(m, seed)
    ensures prob == Entry(seed, m.Length0, iters, nid1, nid2)
  {
    ghost var goal := Entry(seed, m.Length0, iters, nid1, nid2);
    prob := 1.0;
    var i: nat, j: nat := nid1, nid2;
    Commutes(goal, 1.0);
    TimesOne(goal);
    for level := 0 to iters
      invariant goal == prob * Entry(seed, m.Length0, iters - level, i, j)
    {
      prob, i, j := TakeDigit(m, prob, i, j, seed, iters - level - 1, goal);
      if prob == 0.0 {
        TimesZero(Entry(seed, m.Length0, iters - level - 1, i, j));
        return 0.0;
      }
    }
    TimesOne(prob);
  }

  lemma TimesZero(x: real)
    ensures 0.0 * x == 0.0
  {
  }

  // ---------- the explicit product ----------

  lemma DivMod(a: nat, d: nat, b: nat)
    requires b < d
    ensures (a * d + b) / d == a && (a * d + b) % d == b
  {
    assert a * d + b == d * a + b;
    DivModUnique(a * d + b, d, a, b);
  }

  lemma AtLeast(d: nat, x: int)
    requires x >= 1
    ensures d * x >= d
  {
    assert d * x == d * (x - 1) + d;
  }

  lemma DivModUnique(n: nat, d: nat, a: nat, b: nat)
    requires b < d && n == d * a + b
    ensures n / d == a && n % d == b
  {
    var q, r := n / d, n % d;
    assert n == d * q + r;
    assert d * (a - q) == d * a - d * q == r - b;
    assert d * (q - a) == b - r;
    if q < a { AtLeast(d, a - q); }
    if a < q { AtLeast(d, q - a); }
  }

  lemma RoomFor(a: nat, n: nat, d: nat)
    requires a < n
    ensures (a + 1) * d == a * d + d <= n * d
  {
    var k: nat := n - a - 1;
    assert n * d == (a + 1) * d + k * d;
  }

  lemma Digit(i: nat, n: nat, d: nat)
    requires d > 0 && i < n * d
    ensures i / d < n && i % d < d && i == i / d * d + i % d
  {
    assert i == d * (i / d) + i % d;
    if i / d >= n {
      RoomUp(n, i / d, d);
    }
  }

  lemma RoomUp(n: nat, q: nat, d: nat)
    requires n <= q
    ensures n * d <= q * d
  {
    assert (q - n) * d >= 0;
  }

  ghost predicate WantedIs(x: real, left: array2<real>, right: array2<real>, i: nat, j: nat, piece: Piece)
    reads left, right
  {
    var d := right.Length0;
    match piece case Whole =>
      Square(left) && Square(right) && d > 0 && i / d < left.Length0 && j / d < left.Length0 ==>
        x == left[i / d, j / d] * right[i % d, j % d]
  }

  ghost predicate IsWanted(x: real, left: array2<real>, right: array2<real>, i: nat, j: nat)
    reads left, right
  {
    forall piece: Piece :: WantedIs(x, left, right, i, j, piece)
  }

  /** Entry (i, j) of the product is an entry of the left matrix times one of the right matrix. */
  ghost function Wanted(left: array2<real>, right: array2<real>, i: nat, j: nat): real
    reads left, right
  {
    WantedExists(left, right, i, j);
    var x :| IsWanted(x, left, right, i, j);
    x
  }

  lemma WantedExists(left: array2<real>, right: array2<real>, i: nat, j: nat)
    ensures exists x :: IsWanted(x, left, right, i, j)
  {
    var d := right.Length0;
    if Square(left) && Square(right) && d > 0 && i / d < left.Length0 && j / d < left.Length0 {
      assert IsWanted(left[i / d, j / d] * right[i % d, j % d], left, right, i, j);
    } else {
      assert IsWanted(0.0, left, right, i, j);
    }
  }

  lemma WantedAt(left: array2<real>, right: array2<real>, i: nat, j: nat) returns (a: nat, b: nat, c: nat, e: nat)
    requires Square(left) && Square(right) && right.Length0 > 0
    requires i < left.Length0 * right.Length0 && j < left.Length0 * right.Length0
    ensures var d := right.Length0; a == i / d && b == j / d && c == i % d && e == j % d
    ensures a < left.Length0 && b < left.Length0 && c < right.Length0 && e < right.Length0
    ensures Wanted(left, right, i, j) == left[a, b] * right[c, e]
  {
    var d := right.Length0;
    Digit(i, left.Length0, d);
    Digit(j, left.Length0, d);
    a, b, c, e := i / d, j / d, i % d, j % d;
    WantedDigits(left, right, i, j, a, b, c, e);
  }

  lemma WantedDigits(left: array2<real>, right: array2<real>, i: nat, j: nat, a: nat, b: nat, c: nat, e: nat)
    requires Square(left) && Square(right) && right.Length0 > 0
    requires a == i / right.Length0 && b == j / right.Length0 && c == i % right.Length0 && e == j % right.Length0
    requires a < left.Length0 && b < left.Length0 && c < right.Length0 && e < right.Length0
    ensures Wanted(left, right, i, j) == left[a, b] * right[c, e]
  {
    assert WantedIs(Wanted(left, right, i, j), left, right, i, j, Whole);
  }

  /** Writes val times the right matrix at (top, lft). */
  method MulBlock(result: array2<real>, val: real, right: array2<real>, top: nat, lft: nat)
    requires Square(right) && result != right
    requires top + right.Length0 <= result.Length0 && lft + right.Length0 <= result.Length1
    modifies result
    ensures forall a, b | 0 <= a < right.Length0 && 0 <= b < right.Length0 :: result[top + a, lft + b] == val * right[a, b]
    ensures forall i, j | 0 <= i < result.Length0 && 0 <= j < result.Length1
              && !(top <= i < top + right.Length0 && lft <= j < lft + right.Length0) :: result[i, j] == old(result[i, j])
  {
    var d := right.Length0;
    for r2 := 0 to d
      invariant forall a, b | 0 <= a < r2 && 0 <= b < d :: result[top + a, lft + b] == val * right[a, b]
      invariant forall i, j | 0 <= i < result.Length0 && 0 <= j < result.Length1
                  && !(top <= i < top + d && lft <= j < lft + d) :: result[i, j] == old(result[i, j])
    {
      for c2 := 0 to d
        invariant forall a, b | 0 <= a < r2 && 0 <= b < d :: result[top + a, lft + b] == val * right[a, b]
        invariant forall b | 0 <= b < c2 :: result[top + r2, lft + b] == val * right[r2, b]
        invariant forall i, j | 0 <= i < result.Length0 && 0 <= j < result.Length1
                    && !(top <= i < top + d && lft <= j < lft + d) :: result[i, j] == old(result[i, j])
      {
        result[top + r2, lft + c2] := val * right[r2, c2];
      }
    }
  }

  /** The entries of block (r1, c1), which begins at (top, lft). */
  lemma BlockIsWanted(left: array2<real>, right: array2<real>, r1: nat, c1: nat, top: nat, lft: nat, a: nat, b: nat)
    requires Square(left) && Square(right) && r1 < left.Length0 && c1 < left.Length0
    requires a < right.Length0 && b < right.Length0 && top == r1 * right.Length0 && lft == c1 * right.Length0
    ensures Wanted(left, right, top + a, lft + b) == left[r1, c1] * right[a, b]
  {
    DivMod(r1, right.Length0, a);
    DivMod(c1, right.Length0, b);
    assert WantedIs(Wanted(left, right, top + a, lft + b), left, right, top + a, lft + b, Whole);
  }

  /** The Kronecker product, block by block. */
  method KronMul(left: array2<real>, right: array2<real>) returns (result: array2<real>)
    requires Square(left) && Square(right)
    ensures fresh(result) && Square(result) && result.Length0 == left.Length0 * right.Length0
    ensures forall i, j | 0 <= i < result.Length0 && 0 <= j < result.Length0 :: result[i, j] == Wanted(left, right, i, j)
  {
    var n, d := left.Length0, right.Length0;
    var size := n * d;
    result := new real[size, size];
    var top := 0;
    for r1 := 0 to n
      invariant top == r1 * d <= size
      invariant forall i, j | 0 <= i < top && 0 <= j < size :: result[i, j] == Wanted(left, right, i, j)
    {
      RoomFor(r1, n, d);
      MulRow(result, left, right, r1, top);
      top := top + d;
    }
  }

  /** The blocks of one row of the left matrix. */
  method MulRow(result: array2<real>, left: array2<real>, right: array2<real>, r1: nat, top: nat)
    requires Square(left) && Square(right) && Square(result)
    requires result.Length0 == left.Length0 * right.Length0 && result != left && result != right
    requires r1 < left.Length0 && top == r1 * right.Length0 && top + right.Length0 <= result.Length0
    modifies result
    ensures forall i, j | top <= i < top + right.Length0 && 0 <= j < result.Length0 :: result[i, j] == Wanted(left, right, i, j)
    ensures forall i, j | 0 <= i < top && 0 <= j < result.Length0 :: result[i, j] == old(result[i, j])
  {
    var n, d, size := left.Length0, right.Length0, result.Length0;
    var lft := 0;
    for c1 := 0 to n
      invariant lft == c1 * d <= size
      invariant forall i, j | top <= i < top + d && 0 <= j < lft :: result[i, j] == Wanted(left, right, i, j)
      invariant forall i, j | 0 <= i < top && 0 <= j < size :: result[i, j] == old(result[i, j])
    {
      RoomFor(c1, n, d);
      MulBlock(result, left[r1, c1], right, top, lft);
      forall i, j | top <= i < top + d && lft <= j < lft + d ensures result[i, j] == Wanted(left, right, i, j) {
        var a, b := i - top, j - lft;
        assert result[top + a, lft + b] == left[r1, c1] * right[a, b];
        BlockIsWanted(left, right, r1, c1, top, lft, a, b);
      }
      lft := lft + d;
    }
  }

  lemma EntryStep(seed: Seed, d: nat, k: nat, i: nat, j: nat)
    requires d > 0
    ensures Entry(seed, d, k + 1, i, j) == seed(i % d, j % d) * Entry(seed, d, k, i / d, j / d)
  {
  }

  lemma Commutes(x: real, y: real)
    ensures x * y == y * x
  {
  }

  /** Entry (i, j) of the product with the seed belongs to the next power. */
  lemma PowerStep(out: array2<real>, m: array2<real>, seed: Seed, k: nat, i: nat, j: nat)
    requires m.Length0 > 0 && Is(m, seed) && IsPower(out, seed, m.Length0, k)
    requires i < out.Length0 * m.Length0 && j < out.Length0 * m.Length0
    ensures Wanted(out, m, i, j) == Entry(seed, m.Length0, k + 1, i, j)
  {
    var a, b, c, e := WantedAt(out, m, i, j);
    EntryStep(seed, m.Length0, k, i, j);
    Commutes(out[a, b], m[c, e]);
  }

  method MulPower(out: array2<real>, m: array2<real>, ghost seed: Seed, ghost k: nat) returns (next: array2<real>)
    requires m.Length0 > 0 && Is(m, seed) && IsPower(out, seed, m.Length0, k)
    ensures IsPower(next, seed, m.Length0, k + 1)
  {
    next := KronMul(out, m);
    PowStep(m.Length0, k);
    forall i, j | 0 <= i < next.Length0 && 0 <= j < next.Length0 ensures next[i, j] == Entry(seed, m.Length0, k + 1, i, j) {
      PowerStep(out, m, seed, k, i, j);
    }
  }

  lemma PowStep(d: nat, k: nat)
    ensures Pow(d, k + 1) == Pow(d, k) * d
  {
  }

  /** The explicit power: KronPwr with n iterations gives the power n + 1. */
  method KronPwr(m: array2<real>, iters: nat, ghost seed: Seed) returns (out: array2<real>)
    requires m.Length0 > 0 && Is(m, seed)
    ensures IsPower(out, seed, m.Length0, iters + 1)
  {
    var d := m.Length0;
    out := new real[d, d]((i, j) requires 0 <= i < d && 0 <= j < d reads m => m[i, j]);
    FirstPower(seed, d);
    for iter := 0 to iters
      invariant IsPower(out, seed, d, iter + 1)
    {
      out := MulPower(out, m, seed, iter + 1);
    }
  }

  lemma TimesOne(x: real)
    ensures x * 1.0 == x
  {
  }

  lemma FirstEntry(seed: Seed, d: nat, i: nat, j: nat)
    requires i < d && j < d
    ensures Entry(seed, d, 1, i, j) == seed(i, j)
  {
    DivModUnique(i, d, 0, i);
    DivModUnique(j, d, 0, j);
    EntryStep(seed, d, 0, i, j);
    TimesOne(seed(i, j));
  }

  lemma FirstPower(seed: Seed, d: nat)
    requires d > 0
    ensures Pow(d, 1) == d && forall i, j | 0 <= i < d && 0 <= j < d :: Entry(seed, d, 1, i, j) == seed(i, j)
  {
    PowStep(d, 0);
    forall i, j | 0 <= i < d && 0 <= j < d ensures Entry(seed, d, 1, i, j) == seed(i, j) {
      FirstEntry(seed, d, i, j);
    }
  }

  // ---------- the sum of all entries ----------

  ghost function Sum(n: nat, f: int -> real): real {
    if n == 0 then 0.0 else Sum(n - 1, f) + f(n - 1)
  }

  lemma {:induction false} SumSame(n: nat, f: int -> real, g: int -> real)
    requires forall i | 0 <= i < n :: f(i) == g(i)
    ensures Sum(n, f) == Sum(n, g)
  {
    if n > 0 { SumSame(n - 1, f, g); }
  }

  lemma {:induction false} SumScaled(n: nat, f: int -> real, g: int -> real, c: real)
    requires forall i | 0 <= i < n :: g(i) == c * f(i)
    ensures Sum(n, g) == c * Sum(n, f)
  {
    if n > 0 {
      SumScaled(n - 1, f, g, c);
      assert c * (Sum(n - 1, f) + f(n - 1)) == c * Sum(n - 1, f) + c * f(n - 1);
    }
  }

  lemma {:induction false} SumSplit(n: nat, k: nat, f: int -> real, g: int -> real)
    requires forall i | 0 <= i < k :: g(i) == f(n + i)
    ensures Sum(n + k, f) == Sum(n, f) + Sum(k, g)
  {
    if k > 0 { SumSplit(n, k - 1, f, g); }
  }

  ghost predicate Splits(f: int -> real, outer: int -> real, inner: int -> real, d: nat, a: int, b: int) {
    f(d * a + b) == outer(a) * inner(b)
  }

  /** A sum over m blocks of d numbers each, all of which are multiples of the same d numbers. */
  lemma {:induction false} SumBlocks(m: nat, d: nat, f: int -> real, outer: int -> real, inner: int -> real)
    requires forall a, b | 0 <= a < m && 0 <= b < d :: Splits(f, outer, inner, d, a, b)
    ensures Sum(d * m, f) == Sum(m, outer) * Sum(d, inner)
  {
    if m > 0 {
      SumBlocks(m - 1, d, f, outer, inner);
      OneBlock(m - 1, d, f, outer, inner, d * (m - 1));
      assert d * m == d * (m - 1) + d;
      Distributes(Sum(m - 1, outer), outer(m - 1), Sum(d, inner));
    }
  }

  lemma OneBlock(a: nat, d: nat, f: int -> real, outer: int -> real, inner: int -> real, base: nat)
    requires base == d * a && forall b | 0 <= b < d :: Splits(f, outer, inner, d, a, b)
    ensures Sum(base + d, f) == Sum(base, f) + outer(a) * Sum(d, inner)
  {
    var g := (i: int) => f(base + i);
    SumSplit(base, d, f, g);
    forall i | 0 <= i < d ensures g(i) == outer(a) * inner(i) {
      assert Splits(f, outer, inner, d, a, i);
    }
    SumScaled(d, inner, g, outer(a));
  }

  lemma Distributes(x: real, y: real, z: real)
    ensures (x + y) * z == x * z + y * z
  {
  }

  ghost function EntryAt(seed: Seed, d: nat, k: nat, i: int, j: int): real {
    if d > 0 && i >= 0 && j >= 0 then Entry(seed, d, k, i, j) else 0.0
  }

  ghost function Row(seed: Seed, d: nat, k: nat, i: int): int -> real {
    (j: int) => EntryAt(seed, d, k, i, j)
  }

  ghost function RowSum(seed: Seed, d: nat, k: nat, i: int): real {
    Sum(Pow(d, k), Row(seed, d, k, i))
  }

  ghost function RowOfSeed(seed: Seed, i: int): int -> real {
    (j: int) => seed(i, j)
  }

  ghost function SeedRow(seed: Seed, d: nat, i: int): real {
    Sum(d, RowOfSeed(seed, i))
  }

  ghost function Rows(seed: Seed, d: nat, k: nat): int -> real {
    (i: int) => RowSum(seed, d, k, i)
  }

  ghost function EntrySum(seed: Seed, d: nat, k: nat): real {
    Sum(Pow(d, k), Rows(seed, d, k))
  }

  ghost function SeedRows(seed: Seed, d: nat): int -> real {
    (i: int) => SeedRow(seed, d, i)
  }

  ghost function SeedSum(seed: Seed, d: nat): real {
    Sum(d, SeedRows(seed, d))
  }

  lemma DigitsOf(d: nat, a: nat, b: nat)
    requires b < d
    ensures (d * a + b) / d == a && (d * a + b) % d == b
  {
    DivModUnique(d * a + b, d, a, b);
  }

  lemma EntryOfNext(seed: Seed, d: nat, k: nat, a: nat, b: nat, c: nat, e: nat)
    requires b < d && e < d
    ensures EntryAt(seed, d, k + 1, d * a + b, d * c + e) == EntryAt(seed, d, k, a, c) * seed(b, e)
  {
    DigitsOf(d, a, b);
    DigitsOf(d, c, e);
    EntryStep(seed, d, k, d * a + b, d * c + e);
  }

  lemma RowBlocks(seed: Seed, d: nat, k: nat, a: nat, b: nat, i: nat)
    requires b < d && i == d * a + b
    ensures var f, outer, inner := Row(seed, d, k + 1, i), Row(seed, d, k, a), RowOfSeed(seed, b);
            forall c, e | 0 <= c < Pow(d, k) && 0 <= e < d :: Splits(f, outer, inner, d, c, e)
  {
    var f, outer, inner := Row(seed, d, k + 1, i), Row(seed, d, k, a), RowOfSeed(seed, b);
    forall c, e | 0 <= c < Pow(d, k) && 0 <= e < d ensures Splits(f, outer, inner, d, c, e) {
      EntryOfNext(seed, d, k, a, b, c, e);
    }
  }

  lemma RowSumIs(seed: Seed, d: nat, k: nat, i: int, n: nat)
    requires n == Pow(d, k)
    ensures RowSum(seed, d, k, i) == Sum(n, Row(seed, d, k, i))
  {
  }

  lemma PowNext(d: nat, k: nat) returns (m: nat, n: nat)
    ensures m == Pow(d, k) && n == Pow(d, k + 1) && n == d * m
  {
    m, n := Pow(d, k), Pow(d, k + 1);
  }

  /** A row of the next power sums to a row of this one times a row of the seed. */
  lemma RowOfNext(seed: Seed, d: nat, k: nat, a: nat, b: nat, i: nat)
    requires b < d && i == d * a + b
    ensures RowSum(seed, d, k + 1, i) == RowSum(seed, d, k, a) * SeedRow(seed, d, b)
  {
    var m, n := PowNext(d, k);
    RowBlocks(seed, d, k, a, b, i);
    RowSumIs(seed, d, k, a, m);
    RowSumIs(seed, d, k + 1, i, n);
    BlockSums(n, m, d, Row(seed, d, k + 1, i), Row(seed, d, k, a), RowOfSeed(seed, b));
  }

  /** The entries of the k-th power sum to the k-th power of the sum of the seed. */
  lemma {:induction false} SumIsPower(seed: Seed, d: nat, k: nat)
    requires d > 0
    ensures EntrySum(seed, d, k) == PowReal(SeedSum(seed, d), k)
  {
    if k == 0 {
      var row, all := Row(seed, d, 0, 0), Rows(seed, d, 0);
      assert Sum(1, row) == Sum(0, row) + row(0) && Sum(1, all) == Sum(0, all) + all(0);
    } else {
      SumIsPower(seed, d, k - 1);
      SumOfNext(seed, d, k - 1);
      Commutes(EntrySum(seed, d, k - 1), SeedSum(seed, d));
    }
  }

  lemma AsSplits(f: int -> real, outer: int -> real, inner: int -> real, d: nat, a: int, b: int, i: int)
    requires i == d * a + b && f(i) == outer(a) * inner(b)
    ensures Splits(f, outer, inner, d, a, b)
  {
  }

  lemma RowsAt(seed: Seed, d: nat, k: nat, i: int)
    ensures Rows(seed, d, k)(i) == RowSum(seed, d, k, i) && SeedRows(seed, d)(i) == SeedRow(seed, d, i)
  {
  }

  lemma RowSplits(seed: Seed, d: nat, k: nat, a: nat, b: nat, i: nat)
    requires b < d && i == d * a + b
    ensures Rows(seed, d, k + 1)(i) == Rows(seed, d, k)(a) * SeedRows(seed, d)(b)
  {
    RowOfNext(seed, d, k, a, b, i);
    RowsAt(seed, d, k + 1, i);
    RowsAt(seed, d, k, a);
    RowsAt(seed, d, k, b);
  }

  lemma SumOfNext(seed: Seed, d: nat, k: nat)
    requires d > 0
    ensures EntrySum(seed, d, k + 1) == EntrySum(seed, d, k) * SeedSum(seed, d)
  {
    AllSplit(seed, d, k);
    BlockSums(Pow(d, k + 1), Pow(d, k), d, Rows(seed, d, k + 1), Rows(seed, d, k), SeedRows(seed, d));
  }

  lemma BlockSums(size: nat, m: nat, d: nat, f: int -> real, outer: int -> real, inner: int -> real)
    requires size == d * m && forall a, b | 0 <= a < m && 0 <= b < d :: Splits(f, outer, inner, d, a, b)
    ensures Sum(size, f) == Sum(m, outer) * Sum(d, inner)
  {
    SumBlocks(m, d, f, outer, inner);
  }

  lemma AllSplit(seed: Seed, d: nat, k: nat)
    ensures var f, outer, inner := Rows(seed, d, k + 1), Rows(seed, d, k), SeedRows(seed, d);
            forall a, b | 0 <= a < Pow(d, k) && 0 <= b < d :: Splits(f, outer, inner, d, a, b)
  {
    var f, outer, inner := Rows(seed, d, k + 1), Rows(seed, d, k), SeedRows(seed, d);
    forall a, b | 0 <= a < Pow(d, k) && 0 <= b < d ensures Splits(f, outer, inner, d, a, b) {
      RowSplits(seed, d, k, a, b, d * a + b);
      AsSplits(f, outer, inner, d, a, b, d * a + b);
    }
  }

  // ---------- summing a matrix ----------

  /** A matrix in one row after the other. */
  ghost function Flat(f: Seed, n: nat): int -> real {
    (i: int) => if n > 0 then f(i / n, i % n) else 0.0
  }

  /** One more row. */
  lemma FlatRow(f: Seed, n: nat, a: nat, base: nat)
    requires n > 0 && base == a * n
    ensures Sum(base + n, Flat(f, n)) == Sum(base, Flat(f, n)) + SeedRow(f, n, a)
  {
    var row := RowOfSeed(f, a);
    forall b | 0 <= b < n ensures row(b) == Flat(f, n)(base + b) {
      DivMod(a, n, b);
    }
    SumSplit(base, n, Flat(f, n), row);
  }

  lemma {:induction false} FlatSum(f: Seed, n: nat, a: nat)
    requires n > 0
    ensures Sum(a * n, Flat(f, n)) == Sum(a, SeedRows(f, n))
  {
    if a > 0 {
      FlatSum(f, n, a - 1);
      FlatRow(f, n, a - 1, (a - 1) * n);
      assert (a - 1) * n + n == a * n;
    }
  }

  /** The sum of all entries. */
  method GetMtxSum(m: array2<real>, ghost f: Seed) returns (sum: real)
    requires m.Length0 > 0 && Is(m, f)
    ensures sum == SeedSum(f, m.Length0)
  {
    var n := m.Length0;
    sum := 0.0;
    for i := 0 to n * n
      invariant sum == Sum(i, Flat(f, n))
    {
      Digit(i, n, n);
      sum := sum + m[i / n, i % n];
    }
    FlatSum(f, n, n);
  }

  /** The entries of a power as a matrix of their own. */
  ghost function Entries(seed: Seed, d: nat, k: nat): Seed {
    (i: int, j: int) => EntryAt(seed, d, k, i, j)
  }

  lemma EntriesSum(seed: Seed, d: nat, k: nat)
    ensures SeedSum(Entries(seed, d, k), Pow(d, k)) == EntrySum(seed, d, k)
  {
    var n := Pow(d, k);
    forall i: int | 0 <= i < n ensures SeedRows(Entries(seed, d, k), n)(i) == Rows(seed, d, k)(i) {
      SumSame(n, RowOfSeed(Entries(seed, d, k), i), Row(seed, d, k, i));
    }
    SumSame(n, SeedRows(Entries(seed, d, k), n), Rows(seed, d, k));
  }

  lemma {:induction false} PowPositive(d: nat, k: nat)
    requires d > 0
    ensures Pow(d, k) > 0
  {
    if k > 0 { PowPositive(d, k - 1); }
  }

  /** The entries of the explicit power sum to the power of the sum of the seed. */
  method PowerSum(m: array2<real>, iters: nat, ghost seed: Seed) returns (seedSum: real, powerSum: real)
    requires m.Length0 > 0 && Is(m, seed)
    ensures powerSum == PowReal(seedSum, iters + 1)
    ensures seedSum == SeedSum(seed, m.Length0)
  {
    ghost var d := m.Length0;
    seedSum := GetMtxSum(m, seed);
    var out := KronPwr(m, iters, seed);
    PowPositive(d, iters + 1);
    forall i, j | 0 <= i < out.Length0 && 0 <= j < out.Length0 ensures out[i, j] == Entries(seed, d, iters + 1)(i, j) {
    }
    powerSum := GetMtxSum(out, Entries(seed, d, iters + 1));
    EntriesSum(seed, d, iters + 1);
    SumIsPower(seed, d, iters + 1);
  }
}
