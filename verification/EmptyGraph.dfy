/** The likelihood of an empty graph from a formula in the sums of the seed, and what that makes of the sum
  * over the edges: on as many nodes as the power has rows it is the sum over all pairs of nodes.
  */
module EmptyGraph {
  import opened KroneckerPower
  import L = Likelihood

  // ---------- the formula ----------

  ghost function Squared(seed: Seed): Seed {
    (i: int, j: int) => seed(i, j) * seed(i, j)
  }

  /** The second-order approximation of log(1 - p). */
  ghost function NoEdgeTerm(p: real): real {
    -p - 0.5 * (p * p)
  }

  ghost function NoEdgeTerms(seed: Seed, d: nat, k: nat): Seed {
    (i: int, j: int) => NoEdgeTerm(EntryAt(seed, d, k, i, j))
  }

  lemma SquareOfProduct(x: real, y: real)
    ensures (x * y) * (x * y) == (x * x) * (y * y)
  {
    assert (x * y) * (x * y) == x * (y * (x * y)) == x * ((y * x) * y) == x * (x * (y * y));
  }

  /** The power of the squares has the squares of the power. */
  lemma {:induction false} SquareEntry(seed: Seed, d: nat, k: nat, i: nat, j: nat)
    requires d > 0
    ensures Entry(Squared(seed), d, k, i, j) == Entry(seed, d, k, i, j) * Entry(seed, d, k, i, j)
  {
    if k > 0 {
      SquareEntry(seed, d, k - 1, i / d, j / d);
      SquareOfProduct(seed(i % d, j % d), Entry(seed, d, k - 1, i / d, j / d));
    }
  }

  lemma {:induction false} SumCombines(n: nat, f: int -> real, g: int -> real, h: int -> real)
    requires forall i | 0 <= i < n :: h(i) == -f(i) - 0.5 * g(i)
    ensures Sum(n, h) == -Sum(n, f) - 0.5 * Sum(n, g)
  {
    if n > 0 { SumCombines(n - 1, f, g, h); }
  }

  lemma SeedSumCombines(n: nat, f: Seed, g: Seed, h: Seed)
    requires forall i, j | 0 <= i < n && 0 <= j < n :: h(i, j) == -f(i, j) - 0.5 * g(i, j)
    ensures SeedSum(h, n) == -SeedSum(f, n) - 0.5 * SeedSum(g, n)
  {
    forall i | 0 <= i < n ensures SeedRows(h, n)(i) == -SeedRows(f, n)(i) - 0.5 * SeedRows(g, n)(i) {
      SumCombines(n, RowOfSeed(f, i), RowOfSeed(g, i), RowOfSeed(h, i));
    }
    SumCombines(n, SeedRows(f, n), SeedRows(g, n), SeedRows(h, n));
  }

  /** The sum over all places is given by the sums of the seed's entries and of their squares. */
  lemma FormulaIsSum(seed: Seed, d: nat, k: nat)
    requires d > 0
    ensures SeedSum(NoEdgeTerms(seed, d, k), Pow(d, k))
            == -PowReal(SeedSum(seed, d), k) - 0.5 * PowReal(SeedSum(Squared(seed), d), k)
  {
    var n, f, g, h := Pow(d, k), Entries(seed, d, k), Entries(Squared(seed), d, k), NoEdgeTerms(seed, d, k);
    forall i, j | 0 <= i < n && 0 <= j < n ensures h(i, j) == -f(i, j) - 0.5 * g(i, j) {
      SquareEntry(seed, d, k, i, j);
    }
    SeedSumCombines(n, f, g, h);
    EntriesSum(seed, d, k);
    EntriesSum(Squared(seed), d, k);
    SumIsPower(seed, d, k);
    SumIsPower(Squared(seed), d, k);
  }

  lemma FlatAt(seed: Seed, n: nat, i: nat, x: real)
    requires n > 0 && x == seed(i / n, i % n)
    ensures Sum(i + 1, Flat(seed, n)) == Sum(i, Flat(seed, n)) + x
    ensures Sum(i + 1, Flat(Squared(seed), n)) == Sum(i, Flat(Squared(seed), n)) + x * x
  {
  }

  method Power(x: real, k: nat) returns (p: real)
    ensures p == PowReal(x, k)
  {
    p := 1.0;
    for i := 0 to k
      invariant p == PowReal(x, i)
    {
      p := x * p;
    }
  }

  /** The likelihood of an empty graph in as many steps as the seed has entries. */
  method GetApxEmptyGraphLL(m: array2<real>, iters: nat, ghost seed: Seed) returns (ll: real)
    requires m.Length0 > 0 && Is(m, seed)
    ensures ll == SeedSum(NoEdgeTerms(seed, m.Length0, iters), Pow(m.Length0, iters))
  {
    var n := m.Length0;
    var sum, sumSq := 0.0, 0.0;
    for i := 0 to n * n
      invariant sum == Sum(i, Flat(seed, n)) && sumSq == Sum(i, Flat(Squared(seed), n))
    {
      Digit(i, n, n);
      var x := m[i / n, i % n];
      FlatAt(seed, n, i, x);
      sum, sumSq := sum + x, sumSq + x * x;
    }
    FlatSum(seed, n, n);
    FlatSum(Squared(seed), n, n);
    FormulaIsSum(seed, n, iters);
    var p := Power(sum, iters);
    var q := Power(sumSq, iters);
    ll := -p - 0.5 * q;
  }

  // ---------- what it is good for ----------

  ghost function AsTerm(f: Seed): L.Term {
    (u: nat, v: nat) => f(u, v)
  }

  lemma {:induction false} RowsMatch(f: Seed, u: nat, n: nat)
    ensures L.RowSum(AsTerm(f), u, n) == Sum(n, RowOfSeed(f, u))
  {
    if n > 0 { RowsMatch(f, u, n - 1); }
  }

  lemma {:induction false} GridMatches(f: Seed, m: nat, n: nat)
    ensures L.Grid(AsTerm(f), m, n) == Sum(m, SeedRows(f, n))
  {
    if m > 0 {
      GridMatches(f, m - 1, n);
      RowsMatch(f, m - 1, n);
    }
  }

  /** The sum over the edges alone, started with the formula, is the sum over all pairs of nodes of what an
    * edge or no edge is worth at their places, whatever the permutation.
    */
  lemma EdgeSumIsFull(graph: L.Graph, m: L.Model, perm: seq<nat>, inv: seq<nat>, seed: Seed, d: nat, k: nat)
    requires d > 0 && |graph.outs| == |perm| == Pow(d, k) && L.Inverse(perm, inv)
    requires m.noEdge == AsTerm(NoEdgeTerms(seed, d, k))
    requires m.empty == -PowReal(SeedSum(seed, d), k) - 0.5 * PowReal(SeedSum(Squared(seed), d), k)
    ensures L.FullLL(graph, m.empty, L.Gain(m.edge, m.noEdge), perm) == L.Grid(L.PairTerm(graph, m, perm), |perm|, |perm|)
  {
    L.EdgesGiveAllPairs(graph, m, perm);
    L.AnyPermutation(m.noEdge, perm, inv);
    GridMatches(NoEdgeTerms(seed, d, k), |perm|, |perm|);
    FormulaIsSum(seed, d, k);
  }
}
