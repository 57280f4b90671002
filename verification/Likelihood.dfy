/** The log-likelihood of a node permutation, kept up to date as two nodes are swapped. The terms of
  * an edge are arbitrary real functions of its row and column.
  */
module Likelihood {

  // ---------- sums over rows, columns and the whole grid ----------

  type Term = (nat, nat) -> real

  ghost function RowSum(g: Term, u: nat, n: nat): real {
    if n == 0 then 0.0 else RowSum(g, u, n - 1) + g(u, n - 1)
  }

  ghost function ColSum(g: Term, v: nat, m: nat): real {
    if m == 0 then 0.0 else ColSum(g, v, m - 1) + g(m - 1, v)
  }

  ghost function Grid(g: Term, m: nat, n: nat): real {
    if m == 0 then 0.0 else Grid(g, m - 1, n) + RowSum(g, m - 1, n)
  }

  ghost function Without(g: Term, a: nat): Term {
    (u: nat, v: nat) => if u == a || v == a then 0.0 else g(u, v)
  }

  lemma {:induction false} RowWithout(g: Term, a: nat, u: nat, n: nat)
    ensures u == a ==> RowSum(Without(g, a), u, n) == 0.0
    ensures u != a ==> RowSum(Without(g, a), u, n) == RowSum(g, u, n) - if a < n then g(u, a) else 0.0
  {
    if n > 0 { RowWithout(g, a, u, n - 1); }
  }

  lemma {:induction false} ColWithout(g: Term, a: nat, v: nat, m: nat)
    ensures v != a ==> ColSum(Without(g, a), v, m) == ColSum(g, v, m) - if a < m then g(a, v) else 0.0
  {
    if m > 0 { ColWithout(g, a, v, m - 1); }
  }

  /** Taking a node out of the grid takes out its row and its column, which share one place. */
  lemma {:induction false} RemoveNode(g: Term, a: nat, m: nat, n: nat)
    requires a < n
    ensures Grid(g, m, n) == Grid(Without(g, a), m, n) + ColSum(g, a, m) + if a < m then RowSum(g, a, n) - g(a, a) else 0.0
  {
    if m > 0 {
      RemoveNode(g, a, m - 1, n);
      RowWithout(g, a, m - 1, n);
    }
  }

  /** The terms of one node: its row and its column, their common place counted once. */
  ghost function Delta(g: Term, a: nat, n: nat): real {
    RowSum(g, a, n) + ColSum(g, a, n) - g(a, a)
  }

  lemma RemoveTwo(g: Term, a: nat, b: nat, n: nat)
    requires a < n && b < n && a != b
    ensures Grid(g, n, n) - Delta(g, a, n) - Delta(g, b, n) + g(a, b) + g(b, a) == Grid(Without(Without(g, a), b), n, n)
  {
    RemoveNode(g, a, n, n);
    RemoveNode(Without(g, a), b, n, n);
    RowWithout(g, a, b, n);
    ColWithout(g, a, b, n);
  }

  ghost predicate Agree(g: Term, h: Term, m: nat, n: nat) {
    forall u: nat, v: nat | u < m && v < n :: g(u, v) == h(u, v)
  }

  lemma {:induction false} RowSame(g: Term, h: Term, u: nat, m: nat, n: nat)
    requires Agree(g, h, m, n) && u < m
    ensures RowSum(g, u, n) == RowSum(h, u, n)
  {
    if n > 0 { RowSame(g, h, u, m, n - 1); }
  }

  lemma {:induction false} GridSame(g: Term, h: Term, m: nat, n: nat)
    requires Agree(g, h, m, n)
    ensures Grid(g, m, n) == Grid(h, m, n)
  {
    if m > 0 {
      GridSame(g, h, m - 1, n);
      RowSame(g, h, m - 1, m, n);
    }
  }

  // ---------- sums over adjacency lists ----------

  ghost function ListSum(f: nat -> real, l: seq<nat>): real {
    if l == [] then 0.0 else ListSum(f, l[..|l| - 1]) + f(l[|l| - 1])
  }

  lemma ListSumStep(f: nat -> real, l: seq<nat>, e: nat)
    requires e < |l|
    ensures ListSum(f, l[..e + 1]) == ListSum(f, l[..e]) + f(l[e])
  {
    assert l[..e + 1][..e] == l[..e];
  }

  /** The same over all numbers below n, in their order. */
  ghost function RangeSum(f: nat -> real, l: seq<nat>, n: nat): real {
    if n == 0 then 0.0 else RangeSum(f, l, n - 1) + if n - 1 in l then f(n - 1) else 0.0
  }

  ghost predicate Sorted(l: seq<nat>, n: nat) {
    && (forall i, j | 0 <= i < j < |l| :: l[i] < l[j])
    && (forall i | 0 <= i < |l| :: l[i] < n)
  }

  lemma {:induction false} RangeSame(f: nat -> real, l: seq<nat>, k: seq<nat>, n: nat)
    requires forall v: nat | v < n :: v in l <==> v in k
    ensures RangeSum(f, l, n) == RangeSum(f, k, n)
  {
    if n > 0 { RangeSame(f, l, k, n - 1); }
  }

  lemma NoneLarger(l: seq<nat>, n: nat, i: nat)
    requires Sorted(l, n) && i < |l|
    ensures l[i] <= l[|l| - 1] < n
  {
  }

  /** The largest number of a sorted list comes last. */
  lemma LastOfSorted(l: seq<nat>, n: nat)
    requires Sorted(l, n) && n > 0
    ensures n - 1 in l ==> l[|l| - 1] == n - 1 && Sorted(l[..|l| - 1], n - 1)
    ensures n - 1 !in l ==> Sorted(l, n - 1)
  {
    if n - 1 in l {
      var i :| 0 <= i < |l| && l[i] == n - 1;
      NoneLarger(l, n, i);
    } else {
      forall i | 0 <= i < |l| ensures l[i] < n - 1 {
        assert l[i] in l;
      }
    }
  }

  lemma {:induction false} ListIsRange(f: nat -> real, l: seq<nat>, n: nat)
    requires Sorted(l, n)
    ensures ListSum(f, l) == RangeSum(f, l, n)
    decreases n
  {
    if n == 0 {
      assert l == [];
    } else {
      LastOfSorted(l, n);
      if n - 1 in l {
        var k := l[..|l| - 1];
        ListIsRange(f, k, n - 1);
        assert l == k + [n - 1];
        RangeSame(f, l, k, n - 1);
      } else {
        ListIsRange(f, l, n - 1);
      }
    }
  }

  // ---------- the graph and its likelihood ----------

  /** A directed graph on the nodes below |outs| without multiple edges; both lists are sorted. */
  datatype Graph = Graph(outs: seq<seq<nat>>, ins: seq<seq<nat>>)

  ghost predicate IsGraph(graph: Graph) {
    var n := |graph.outs|;
    && |graph.ins| == n
    && (forall u | 0 <= u < n :: Sorted(graph.outs[u], n) && Sorted(graph.ins[u], n))
    && (forall u, v | 0 <= u < n && 0 <= v < n :: v in graph.outs[u] <==> u in graph.ins[v])
  }

  predicate IsEdge(graph: Graph, u: nat, v: nat) {
    u < |graph.outs| && v < |graph.outs| && v in graph.outs[u]
  }

  ghost predicate Onto(perm: seq<nat>, n: nat) {
    |perm| == n && forall i | 0 <= i < n :: perm[i] < n
  }

  /** The weight of each edge, at the places its ends have in the permutation. */
  ghost function Weights(graph: Graph, w: Term, perm: seq<nat>): Term {
    (u: nat, v: nat) => if IsEdge(graph, u, v) && u < |perm| && v < |perm| then w(perm[u], perm[v]) else 0.0
  }

  /** The full likelihood: that of an empty graph and the weights of all edges. */
  ghost function FullLL(graph: Graph, empty: real, w: Term, perm: seq<nat>): real {
    empty + Grid(Weights(graph, w, perm), |graph.outs|, |graph.outs|)
  }

  // ---------- what the full likelihood is ----------

  lemma {:induction false} RowZero(g: Term, u: nat, n: nat)
    requires forall v: nat | v < n :: g(u, v) == 0.0
    ensures RowSum(g, u, n) == 0.0
  {
    if n > 0 { RowZero(g, u, n - 1); }
  }

  lemma {:induction false} GridZero(g: Term, m: nat, n: nat)
    requires forall u: nat, v: nat | u < m && v < n :: g(u, v) == 0.0
    ensures Grid(g, m, n) == 0.0
  {
    if m > 0 {
      GridZero(g, m - 1, n);
      RowZero(g, m - 1, n);
    }
  }

  /** Without edges there is nothing but the value for an empty graph. */
  lemma NoEdges(graph: Graph, empty: real, w: Term, perm: seq<nat>)
    requires forall u | 0 <= u < |graph.outs| :: graph.outs[u] == []
    ensures FullLL(graph, empty, w, perm) == empty
  {
    assert forall u: nat, v: nat :: !IsEdge(graph, u, v);
    GridZero(Weights(graph, w, perm), |graph.outs|, |graph.outs|);
  }

  lemma {:induction false} RowDiffers(g: Term, h: Term, u: nat, b: nat, n: nat)
    requires forall v: nat | v < n && v != b :: g(u, v) == h(u, v)
    ensures RowSum(h, u, n) - RowSum(g, u, n) == if b < n then h(u, b) - g(u, b) else 0.0
  {
    if n > 0 { RowDiffers(g, h, u, b, n - 1); }
  }

  lemma {:induction false} GridDiffers(g: Term, h: Term, a: nat, b: nat, m: nat, n: nat)
    requires b < n && forall u: nat, v: nat | u < m && v < n && !(u == a && v == b) :: g(u, v) == h(u, v)
    ensures Grid(h, m, n) - Grid(g, m, n) == if a < m then h(a, b) - g(a, b) else 0.0
  {
    if m > 0 {
      GridDiffers(g, h, a, b, m - 1, n);
      RowDiffers(g, h, m - 1, if m - 1 == a then b else n, n);
    }
  }

  /** One more edge, from a to b, adds what an edge there is worth instead of what none is. */
  lemma OneMoreEdge(graph: Graph, more: Graph, m: Model, perm: seq<nat>, a: nat, b: nat)
    requires |more.outs| == |graph.outs| && Onto(perm, |graph.outs|) && a < |graph.outs| && b < |graph.outs|
    requires !IsEdge(graph, a, b)
    requires forall u: nat, v: nat | u < |graph.outs| && v < |graph.outs| :: IsEdge(more, u, v) <==> IsEdge(graph, u, v) || (u == a && v == b)
    ensures FullLL(more, m.empty, Gain(m.edge, m.noEdge), perm)
            == FullLL(graph, m.empty, Gain(m.edge, m.noEdge), perm) + m.edge(perm[a], perm[b]) - m.noEdge(perm[a], perm[b])
  {
    var w, n := Gain(m.edge, m.noEdge), |graph.outs|;
    GridDiffers(Weights(graph, w, perm), Weights(more, w, perm), a, b, n, n);
  }

  /** What the pair u, v is worth: an edge there, or none. */
  ghost function PairTerm(graph: Graph, m: Model, perm: seq<nat>): Term {
    (u: nat, v: nat) =>
      if u < |perm| && v < |perm| then (if IsEdge(graph, u, v) then m.edge(perm[u], perm[v]) else m.noEdge(perm[u], perm[v])) else 0.0
  }

  /** g at the places that the permutation gives the nodes. */
  ghost function Placed(g: Term, perm: seq<nat>): Term {
    (u: nat, v: nat) => if u < |perm| && v < |perm| then g(perm[u], perm[v]) else 0.0
  }

  lemma {:induction false} RowAdds(g: Term, h: Term, k: Term, u: nat, n: nat)
    requires forall v: nat | v < n :: g(u, v) + h(u, v) == k(u, v)
    ensures RowSum(g, u, n) + RowSum(h, u, n) == RowSum(k, u, n)
  {
    if n > 0 { RowAdds(g, h, k, u, n - 1); }
  }

  lemma {:induction false} GridAdds(g: Term, h: Term, k: Term, m: nat, n: nat)
    requires forall u: nat, v: nat | u < m && v < n :: g(u, v) + h(u, v) == k(u, v)
    ensures Grid(g, m, n) + Grid(h, m, n) == Grid(k, m, n)
  {
    if m > 0 {
      GridAdds(g, h, k, m - 1, n);
      RowAdds(g, h, k, m - 1, n);
    }
  }

  /** If the value for an empty graph is the sum over all pairs without an edge, the sum over the edges
    * alone gives the sum over all pairs of what each is worth.
    */
  lemma EdgesGiveAllPairs(graph: Graph, m: Model, perm: seq<nat>)
    requires Onto(perm, |graph.outs|)
    ensures var n := |graph.outs|;
            FullLL(graph, m.empty, Gain(m.edge, m.noEdge), perm) - Grid(PairTerm(graph, m, perm), n, n)
            == m.empty - Grid(Placed(m.noEdge, perm), n, n)
  {
    var n := |graph.outs|;
    GridAdds(Placed(m.noEdge, perm), Weights(graph, Gain(m.edge, m.noEdge), perm), PairTerm(graph, m, perm), n, n);
  }

  // ---------- sums do not depend on the permutation ----------

  lemma {:induction false} ListSumRemove(f: nat -> real, l: seq<nat>, i: nat)
    requires i < |l|
    ensures ListSum(f, l) == ListSum(f, l[..i] + l[i + 1..]) + f(l[i])
  {
    var n := |l| - 1;
    if i == n {
      assert l[..i] + l[i + 1..] == l[..n];
    } else {
      var rest, less := l[..i] + l[i + 1..], l[..n][..i] + l[..n][i + 1..];
      ListSumRemove(f, l[..n], i);
      assert rest[..|rest| - 1] == less && rest[|rest| - 1] == l[n];
    }
  }

  lemma Removed(k: seq<nat>, i: nat)
    requires i < |k|
    ensures multiset(k) == multiset(k[..i] + k[i + 1..]) + multiset{k[i]}
  {
    assert k == k[..i] + [k[i]] + k[i + 1..];
  }

  lemma SplitOff(l: seq<nat>, k: seq<nat>) returns (i: nat)
    requires multiset(l) == multiset(k) && l != []
    ensures i < |k| && k[i] == l[|l| - 1] && multiset(l[..|l| - 1]) == multiset(k[..i] + k[i + 1..])
  {
    var x := l[|l| - 1];
    assert x in multiset(k);
    i :| 0 <= i < |k| && k[i] == x;
    Removed(k, i);
    Removed(l, |l| - 1);
    assert l[..|l| - 1] + l[|l|..] == l[..|l| - 1];
    assert multiset(l[..|l| - 1]) == multiset(l) - multiset{x};
    assert multiset(k[..i] + k[i + 1..]) == multiset(k) - multiset{x};
  }

  lemma {:induction false} ListShuffle(f: nat -> real, l: seq<nat>, k: seq<nat>)
    requires multiset(l) == multiset(k)
    ensures ListSum(f, l) == ListSum(f, k)
  {
    if l == [] {
      assert |multiset(k)| == 0;
    } else {
      var i := SplitOff(l, k);
      ListShuffle(f, l[..|l| - 1], k[..i] + k[i + 1..]);
      ListSumRemove(f, k, i);
    }
  }

  ghost predicate Different(l: seq<nat>) {
    forall i, j | 0 <= i < j < |l| :: l[i] != l[j]
  }

  lemma {:induction false} CountOfDifferent(l: seq<nat>, x: nat)
    requires Different(l)
    ensures multiset(l)[x] == if x in l then 1 else 0
  {
    if l != [] {
      var n := |l| - 1;
      CountOfDifferent(l[..n], x);
      assert l == l[..n] + [l[n]];
      assert multiset(l) == multiset(l[..n]) + multiset{l[n]};
    }
  }

  lemma SameElements(l: seq<nat>, k: seq<nat>)
    requires Different(l) && Different(k) && forall x: nat :: x in l <==> x in k
    ensures multiset(l) == multiset(k)
  {
    forall x: nat ensures multiset(l)[x] == multiset(k)[x] {
      CountOfDifferent(l, x);
      CountOfDifferent(k, x);
    }
  }

  ghost function UpTo(n: nat): (s: seq<nat>)
    ensures |s| == n && forall i | 0 <= i < n :: s[i] == i
  {
    seq(n, i => i)
  }

  lemma PermutationOfAll(perm: seq<nat>, inv: seq<nat>)
    requires Inverse(perm, inv)
    ensures multiset(perm) == multiset(UpTo(|perm|))
  {
    var all := UpTo(|perm|);
    forall x: nat ensures x in perm <==> x in all {
      if x < |perm| { assert perm[inv[x]] == x && all[x] == x; }
    }
    forall i, j | 0 <= i < j < |perm| ensures perm[i] != perm[j] {
      assert inv[perm[i]] == i && inv[perm[j]] == j;
    }
    SameElements(perm, all);
  }

  ghost function RowAt(g: Term, u: nat): nat -> real {
    (v: nat) => g(u, v)
  }

  ghost function RowSums(g: Term, n: nat): nat -> real {
    (u: nat) => RowSum(g, u, n)
  }

  lemma {:induction false} PlacedRow(g: Term, perm: seq<nat>, u: nat, k: nat)
    requires u < |perm| && k <= |perm|
    ensures RowSum(Placed(g, perm), u, k) == ListSum(RowAt(g, perm[u]), perm[..k])
  {
    if k > 0 {
      PlacedRow(g, perm, u, k - 1);
      ListSumStep(RowAt(g, perm[u]), perm, k - 1);
    }
  }

  lemma {:induction false} RowIsList(g: Term, u: nat, n: nat)
    ensures RowSum(g, u, n) == ListSum(RowAt(g, u), UpTo(n))
  {
    if n > 0 {
      RowIsList(g, u, n - 1);
      assert UpTo(n)[..n - 1] == UpTo(n - 1);
    }
  }

  lemma {:induction false} GridIsList(g: Term, m: nat, n: nat)
    ensures Grid(g, m, n) == ListSum(RowSums(g, n), UpTo(m))
  {
    if m > 0 {
      GridIsList(g, m - 1, n);
      assert UpTo(m)[..m - 1] == UpTo(m - 1);
    }
  }

  lemma {:induction false} PlacedGrid(g: Term, perm: seq<nat>, inv: seq<nat>, m: nat)
    requires Inverse(perm, inv) && m <= |perm|
    ensures Grid(Placed(g, perm), m, |perm|) == ListSum(RowSums(g, |perm|), perm[..m])
  {
    if m > 0 {
      PlacedGrid(g, perm, inv, m - 1);
      ListSumStep(RowSums(g, |perm|), perm, m - 1);
      PlacedRow(g, perm, m - 1, |perm|);
      PermutationOfAll(perm, inv);
      ListShuffle(RowAt(g, perm[m - 1]), perm, UpTo(|perm|));
      RowIsList(g, perm[m - 1], |perm|);
      assert perm[..|perm|] == perm;
    }
  }

  /** The sum over all pairs of nodes of what is at their places is that over all places. */
  lemma AnyPermutation(g: Term, perm: seq<nat>, inv: seq<nat>)
    requires Inverse(perm, inv)
    ensures Grid(Placed(g, perm), |perm|, |perm|) == Grid(g, |perm|, |perm|)
  {
    PlacedGrid(g, perm, inv, |perm|);
    assert perm[..|perm|] == perm;
    PermutationOfAll(perm, inv);
    ListShuffle(RowSums(g, |perm|), perm, UpTo(|perm|));
    GridIsList(g, |perm|, |perm|);
  }

  // ---------- sums over one node's edges ----------

  ghost function OutWeight(w: Term, perm: seq<nat>, u: nat): nat -> real
    requires u < |perm|
  {
    (v: nat) => if v < |perm| then w(perm[u], perm[v]) else 0.0
  }

  ghost function InWeight(w: Term, perm: seq<nat>, v: nat): nat -> real
    requires v < |perm|
  {
    (u: nat) => if u < |perm| then w(perm[u], perm[v]) else 0.0
  }

  lemma {:induction false} RowIsRange(graph: Graph, w: Term, perm: seq<nat>, u: nat, k: nat)
    requires IsGraph(graph) && u < |graph.outs| && Onto(perm, |graph.outs|) && k <= |graph.outs|
    ensures RowSum(Weights(graph, w, perm), u, k) == RangeSum(OutWeight(w, perm, u), graph.outs[u], k)
  {
    if k > 0 {
      RowIsRange(graph, w, perm, u, k - 1);
      var v: nat := k - 1;
      assert OutWeight(w, perm, u)(v) == w(perm[u], perm[v]);
    }
  }

  lemma {:induction false} ColIsRange(graph: Graph, w: Term, perm: seq<nat>, v: nat, k: nat)
    requires IsGraph(graph) && v < |graph.outs| && Onto(perm, |graph.outs|) && k <= |graph.outs|
    ensures ColSum(Weights(graph, w, perm), v, k) == RangeSum(InWeight(w, perm, v), graph.ins[v], k)
  {
    if k > 0 {
      ColIsRange(graph, w, perm, v, k - 1);
      var u: nat := k - 1;
      assert InWeight(w, perm, v)(u) == w(perm[u], perm[v]);
    }
  }

  /** The out-list of a node gives its row, the in-list its column. */
  lemma ListsGiveSums(graph: Graph, w: Term, perm: seq<nat>, u: nat)
    requires IsGraph(graph) && u < |graph.outs| && Onto(perm, |graph.outs|)
    ensures ListSum(OutWeight(w, perm, u), graph.outs[u]) == RowSum(Weights(graph, w, perm), u, |graph.outs|)
    ensures ListSum(InWeight(w, perm, u), graph.ins[u]) == ColSum(Weights(graph, w, perm), u, |graph.outs|)
  {
    var n := |graph.outs|;
    ListIsRange(OutWeight(w, perm, u), graph.outs[u], n);
    ListIsRange(InWeight(w, perm, u), graph.ins[u], n);
    RowIsRange(graph, w, perm, u, n);
    ColIsRange(graph, w, perm, u, n);
  }

  function Swapped(s: seq<nat>, i: nat, j: nat): (t: seq<nat>)
    requires i < |s| && j < |s|
    ensures |t| == |s| && t[i] == s[j] && t[j] == s[i] && forall k | 0 <= k < |s| && k != i && k != j :: t[k] == s[k]
  {
    s[i := s[j]][j := s[i]]
  }

  lemma SwapTwice(s: seq<nat>, i: nat, j: nat)
    requires i < |s| && j < |s|
    ensures Swapped(Swapped(s, i, j), j, i) == s
  {
  }

  /** Without the terms of a and b, the sums before and after they are swapped are the same. */
  lemma SwapIsLocal(graph: Graph, w: Term, perm: seq<nat>, a: nat, b: nat)
    requires IsGraph(graph) && Onto(perm, |graph.outs|) && a < |graph.outs| && b < |graph.outs| && a != b
    ensures var n, g, h := |graph.outs|, Weights(graph, w, perm), Weights(graph, w, Swapped(perm, a, b));
            Grid(g, n, n) - Delta(g, a, n) - Delta(g, b, n) + g(a, b) + g(b, a)
            == Grid(h, n, n) - Delta(h, a, n) - Delta(h, b, n) + h(a, b) + h(b, a)
  {
    var n, g, h := |graph.outs|, Weights(graph, w, perm), Weights(graph, w, Swapped(perm, a, b));
    RemoveTwo(g, a, b, n);
    RemoveTwo(h, a, b, n);
    GridSame(Without(Without(g, a), b), Without(Without(h, a), b), n, n);
  }

  /** Each permutation is the inverse of the other. */
  ghost predicate Inverse(perm: seq<nat>, inv: seq<nat>) {
    && Onto(perm, |perm|) && Onto(inv, |perm|)
    && (forall i | 0 <= i < |perm| :: inv[perm[i]] == i)
    && (forall j | 0 <= j < |perm| :: perm[inv[j]] == j)
  }

  lemma SwapKeepsInverse(perm: seq<nat>, inv: seq<nat>, a: nat, b: nat)
    requires Inverse(perm, inv) && a < |perm| && b < |perm|
    ensures Inverse(Swapped(perm, a, b), Swapped(inv, perm[b], perm[a]))
  {
  }

  /** What an edge at row u and column v adds, over what it adds when it is missing. */
  ghost function Gain(edge: Term, noEdge: Term): Term {
    (u: nat, v: nat) => edge(u, v) - noEdge(u, v)
  }

  /** The terms of two nodes, the edges between them counted once. */
  ghost function TermsOf(graph: Graph, w: Term, perm: seq<nat>, nid1: nat, nid2: nat): real {
    var g, n := Weights(graph, w, perm), |graph.outs|;
    Delta(g, nid1, n) + Delta(g, nid2, n) - g(nid1, nid2) - g(nid2, nid1)
  }

  /** A value kept up to date with the terms of two nodes is as far from the full sum as before. */
  lemma SwapChangesTerms(graph: Graph, empty: real, w: Term, perm: seq<nat>, a: nat, b: nat)
    requires IsGraph(graph) && Onto(perm, |graph.outs|) && a < |graph.outs| && b < |graph.outs|
    ensures var perm' := Swapped(perm, a, b);
            FullLL(graph, empty, w, perm') - TermsOf(graph, w, perm', a, b) == FullLL(graph, empty, w, perm) - TermsOf(graph, w, perm, a, b)
  {
    if a == b {
      assert Swapped(perm, a, b) == perm;
    } else {
      SwapIsLocal(graph, w, perm, a, b);
    }
  }

  /** The log-likelihood of an edge and its derivatives by each parameter, with those of no edge and the
    * values for an empty graph.
    */
  datatype Model = Model(edge: Term, noEdge: Term, empty: real)

  datatype Draw = Draw(nid1: nat, nid2: nat, logU: real)

  /** The draw d leaves a permutation as it is or swaps its two nodes. */
  ghost predicate MayFollow(perm: seq<nat>, d: Draw, perm': seq<nat>) {
    perm' == perm || (d.nid1 < |perm| && d.nid2 < |perm| && perm' == Swapped(perm, d.nid1, d.nid2))
  }

  ghost function SumLL(graph: Graph, m: Model, perms: seq<seq<nat>>): real {
    if perms == [] then 0.0
    else SumLL(graph, m, perms[..|perms| - 1]) + FullLL(graph, m.empty, Gain(m.edge, m.noEdge), perms[|perms| - 1])
  }

  lemma SumLLStep(graph: Graph, m: Model, perms: seq<seq<nat>>, perm: seq<nat>)
    ensures SumLL(graph, m, perms + [perm]) == SumLL(graph, m, perms) + FullLL(graph, m.empty, Gain(m.edge, m.noEdge), perm)
  {
    assert (perms + [perm])[..|perms|] == perms;
  }

  /** One permutation gives its own sum. */
  lemma SumLLOne(graph: Graph, m: Model, perm: seq<nat>)
    ensures SumLL(graph, m, [perm]) == FullLL(graph, m.empty, Gain(m.edge, m.noEdge), perm)
  {
    SumLLStep(graph, m, [], perm);
    assert [] + [perm] == [perm];
  }

  /** Two walks one after the other give both sums. */
  lemma {:induction false} SumLLSplits(graph: Graph, m: Model, perms: seq<seq<nat>>, more: seq<seq<nat>>)
    ensures SumLL(graph, m, perms + more) == SumLL(graph, m, perms) + SumLL(graph, m, more)
    decreases |more|
  {
    if more == [] {
      assert perms + more == perms;
    } else {
      var rest, last := more[..|more| - 1], more[|more| - 1];
      assert more == rest + [last];
      SumLLSplits(graph, m, perms, rest);
      SumLLStep(graph, m, rest, last);
      assert perms + (rest + [last]) == (perms + rest) + [last];
      SumLLStep(graph, m, perms + rest, last);
    }
  }

  class KroneckerLL {
    const graph: Graph
    const like: Model
    const params: seq<Model>
    var logLike: real
    var gradV: seq<real>
    var nodePerm: seq<nat>
    var invertPerm: seq<nat>

    ghost predicate Valid()
      reads this
    {
      IsGraph(graph) && |nodePerm| == |graph.outs| && Inverse(nodePerm, invertPerm) && |gradV| == |params|
    }

    /** Enough to compute sums: while a derivative is updated, the inverse does not follow the permutation. */
    ghost predicate Ready()
      reads this
    {
      IsGraph(graph) && Onto(nodePerm, |graph.outs|)
    }

    ghost function FullOf(m: Model): real
      reads this
    {
      FullLL(graph, m.empty, Gain(m.edge, m.noEdge), nodePerm)
    }

    ghost function Full(): real
      reads this
    {
      FullOf(like)
    }

    ghost function Terms(m: Model, nid1: nat, nid2: nat): real
      reads this
    {
      TermsOf(graph, Gain(m.edge, m.noEdge), nodePerm, nid1, nid2)
    }

    /** Any permutation of the nodes may be the first. */
    constructor (graph: Graph, like: Model, params: seq<Model>, perm: seq<nat>, ghost inv: seq<nat>)
      requires IsGraph(graph) && |perm| == |graph.outs| && Inverse(perm, inv)
      ensures Valid() && nodePerm == perm && this.graph == graph && this.like == like && this.params == params
    {
      this.graph, this.like, this.params := graph, like, params;
      logLike, gradV, nodePerm := 0.0, seq(|params|, _ => 0.0), perm;
      invertPerm := perm;
      new;
      SetIPerm(perm, inv);
    }

    /** Computes the inverse of a permutation. */
    method SetIPerm(perm: seq<nat>, ghost inv: seq<nat>)
      requires Inverse(perm, inv)
      modifies this`invertPerm
      ensures invertPerm == inv
    {
      invertPerm := seq(|perm|, _ => 0);
      for i := 0 to |perm|
        invariant |invertPerm| == |perm| && forall k | 0 <= k < i :: invertPerm[perm[k]] == k
      {
        invertPerm := invertPerm[perm[i] := i];
      }
      forall j | 0 <= j < |perm| ensures invertPerm[j] == inv[j] {
        assert perm[inv[j]] == j;
      }
    }

    /** The sum over all pairs, with an edge or without. */
    ghost function AllPairs(m: Model): real
      reads this
    {
      Grid(PairTerm(graph, m, nodePerm), |graph.outs|, |graph.outs|)
    }

    /** The sum over all pairs when there is no edge. */
    ghost function NoPairs(m: Model): real
      reads this
    {
      Grid(Placed(m.noEdge, nodePerm), |graph.outs|, |graph.outs|)
    }

    /** The slow sum: every pair of nodes is looked at. */
    method CalcFullSum(m: Model) returns (sum: real)
      requires Ready()
      ensures sum == AllPairs(m)
    {
      ghost var g, n := PairTerm(graph, m, nodePerm), |graph.outs|;
      sum := 0.0;
      for nid1 := 0 to |graph.outs|
        invariant sum == Grid(g, nid1, n)
      {
        for nid2 := 0 to |graph.outs|
          invariant sum == Grid(g, nid1, n) + RowSum(g, nid1, nid2)
        {
          assert g(nid1, nid2) ==
                 if IsEdge(graph, nid1, nid2) then m.edge(nodePerm[nid1], nodePerm[nid2]) else m.noEdge(nodePerm[nid1], nodePerm[nid2]);
          if IsEdge(graph, nid1, nid2) {
            sum := sum + m.edge(nodePerm[nid1], nodePerm[nid2]);
          } else {
            sum := sum + m.noEdge(nodePerm[nid1], nodePerm[nid2]);
          }
        }
      }
    }

    /** A full sum from scratch, edge by edge: the value for an empty graph if there is no edge, and the
      * sum over all pairs if that value is the sum over all pairs without edges.
      */
    method CalcSum(m: Model) returns (sum: real)
      requires Ready()
      ensures sum == FullOf(m)
      ensures (forall u | 0 <= u < |graph.outs| :: graph.outs[u] == []) ==> sum == m.empty
      ensures sum - AllPairs(m) == m.empty - NoPairs(m)
    {
      if forall u | 0 <= u < |graph.outs| :: graph.outs[u] == [] {
        NoEdges(graph, m.empty, Gain(m.edge, m.noEdge), nodePerm);
      }
      EdgesGiveAllPairs(graph, m, nodePerm);
      ghost var w, n := Gain(m.edge, m.noEdge), |graph.outs|;
      ghost var g := Weights(graph, w, nodePerm);
      sum := m.empty;
      for nid := 0 to |graph.outs|
        invariant sum == m.empty + Grid(g, nid, n)
      {
        sum := AddOuts(m, nid, sum);
        ListsGiveSums(graph, w, nodePerm, nid);
      }
    }

    /** Adds the edges from a node. */
    method AddOuts(m: Model, nid: nat, start: real) returns (sum: real)
      requires Ready() && nid < |graph.outs|
      ensures sum == start + ListSum(OutWeight(Gain(m.edge, m.noEdge), nodePerm, nid), graph.outs[nid])
    {
      ghost var f := OutWeight(Gain(m.edge, m.noEdge), nodePerm, nid);
      var row, outs := nodePerm[nid], graph.outs[nid];
      sum := start;
      for e := 0 to |outs|
        invariant sum == start + ListSum(f, outs[..e])
      {
        var col := nodePerm[outs[e]];
        sum := sum - m.noEdge(row, col) + m.edge(row, col);
        ListSumStep(f, outs, e);
      }
      assert outs[..|outs|] == outs;
    }

    /** Adds the edges to a node. */
    method AddIns(m: Model, nid: nat, start: real) returns (sum: real)
      requires Ready() && nid < |graph.outs|
      ensures sum == start + ListSum(InWeight(Gain(m.edge, m.noEdge), nodePerm, nid), graph.ins[nid])
    {
      ghost var f := InWeight(Gain(m.edge, m.noEdge), nodePerm, nid);
      var col, ins := nodePerm[nid], graph.ins[nid];
      sum := start;
      for e := 0 to |ins|
        invariant sum == start + ListSum(f, ins[..e])
      {
        var row := nodePerm[ins[e]];
        sum := sum + (-m.noEdge(row, col) + m.edge(row, col));
        ListSumStep(f, ins, e);
      }
      assert ins[..|ins|] == ins;
    }

    method CalcApxGraphLL()
      requires Valid()
      modifies this`logLike
      ensures logLike == Full() && logLike - AllPairs(like) == like.empty - NoPairs(like)
    {
      logLike := CalcSum(like);
    }

    method CalcApxGraphDLL()
      requires Valid()
      modifies this`gradV
      ensures Valid() && forall p | 0 <= p < |params| :: gradV[p] == FullOf(params[p])
      ensures forall p | 0 <= p < |params| :: gradV[p] - AllPairs(params[p]) == params[p].empty - NoPairs(params[p])
    {
      for p := 0 to |params|
        invariant Valid() && forall q | 0 <= q < p :: gradV[q] == FullOf(params[q])
        invariant forall q | 0 <= q < p :: gradV[q] - AllPairs(params[q]) == params[q].empty - NoPairs(params[q])
      {
        var sum := CalcSum(params[p]);
        gradV := gradV[p := sum];
      }
    }

    /** What a node gets when all its edges are put in the graph. */
    method NodeDelta(m: Model, nid: nat) returns (delta: real)
      requires Ready()
      ensures delta == if nid < |graph.outs| then Delta(Weights(graph, Gain(m.edge, m.noEdge), nodePerm), nid, |graph.outs|) else 0.0
    {
      if nid >= |graph.outs| { return 0.0; }
      ghost var w := Gain(m.edge, m.noEdge);
      var place := nodePerm[nid];
      delta := AddOuts(m, nid, 0.0);
      delta := AddIns(m, nid, delta);
      ListsGiveSums(graph, w, nodePerm, nid);
      if IsEdge(graph, nid, nid) {
        delta := delta + (m.noEdge(place, place) - m.edge(place, place));
      }
    }

    /** `val` without the terms of two nodes. */
    method TakeOut(m: Model, val: real, nid1: nat, nid2: nat) returns (r: real)
      requires Ready() && nid1 < |graph.outs| && nid2 < |graph.outs|
      ensures r == val - Terms(m, nid1, nid2)
    {
      var d1 := NodeDelta(m, nid1);
      var d2 := NodeDelta(m, nid2);
      r := val - d1 - d2;
      var prev1, prev2 := nodePerm[nid1], nodePerm[nid2];
      if IsEdge(graph, nid1, nid2) {
        r := r + (-m.noEdge(prev1, prev2) + m.edge(prev1, prev2));
      }
      if IsEdge(graph, nid2, nid1) {
        r := r + (-m.noEdge(prev2, prev1) + m.edge(prev2, prev1));
      }
    }

    /** `val` with the terms of two nodes at the places they have now. */
    method PutBack(m: Model, val: real, nid1: nat, nid2: nat) returns (r: real)
      requires Ready() && nid1 < |graph.outs| && nid2 < |graph.outs|
      ensures r == val + Terms(m, nid1, nid2)
    {
      var d1 := NodeDelta(m, nid1);
      var d2 := NodeDelta(m, nid2);
      r := val + d1 + d2;
      var new1, new2 := nodePerm[nid1], nodePerm[nid2];
      if IsEdge(graph, nid1, nid2) {
        r := r + (m.noEdge(new1, new2) - m.edge(new1, new2));
      }
      if IsEdge(graph, nid2, nid1) {
        r := r + (m.noEdge(new2, new1) - m.edge(new2, new1));
      }
    }

    /** Swaps two nodes. The likelihood goes from that of the old permutation to that of the new one
      * though only the edges of the two nodes are looked at.
      */
    method SwapNodesLL(nid1: nat, nid2: nat) returns (ll: real)
      requires Valid() && nid1 < |graph.outs| && nid2 < |graph.outs|
      modifies this`logLike, this`nodePerm, this`invertPerm
      ensures Valid() && nodePerm == Swapped(old(nodePerm), nid1, nid2)
      ensures ll == logLike && logLike - Full() == old(logLike) - old(Full())
    {
      logLike := TakeOut(like, logLike, nid1, nid2);
      SwapChangesTerms(graph, like.empty, Gain(like.edge, like.noEdge), nodePerm, nid1, nid2);
      SwapKeepsInverse(nodePerm, invertPerm, nid1, nid2);
      nodePerm := Swapped(nodePerm, nid1, nid2);
      invertPerm := Swapped(invertPerm, nodePerm[nid1], nodePerm[nid2]);
      logLike := PutBack(like, logLike, nid1, nid2);
      ll := logLike;
    }

    /** One step of the sampler for the two nodes it has drawn and the logarithm of its third draw. */
    method SampleNextPerm(d: Draw) returns (accepted: bool)
      requires Valid() && d.nid1 < |graph.outs| && d.nid2 < |graph.outs|
      modifies this`logLike, this`nodePerm, this`invertPerm
      ensures Valid()
      ensures accepted ==> nodePerm == Swapped(old(nodePerm), d.nid1, d.nid2) && logLike - Full() == old(logLike) - old(Full())
      ensures var gain := FullLL(graph, like.empty, Gain(like.edge, like.noEdge), Swapped(old(nodePerm), d.nid1, d.nid2)) - old(Full());
              accepted <==> d.logU <= gain
      ensures !accepted ==> logLike == old(logLike) && nodePerm == old(nodePerm) && invertPerm == old(invertPerm)
    {
      ghost var perm, inv := nodePerm, invertPerm;
      var oldLL := logLike;
      var newLL := SwapNodesLL(d.nid1, d.nid2);
      if d.logU > newLL - oldLL {
        logLike := oldLL;
        SwapTwice(perm, d.nid1, d.nid2);
        nodePerm := Swapped(nodePerm, d.nid2, d.nid1);
        SwapTwice(inv, perm[d.nid1], perm[d.nid2]);
        invertPerm := Swapped(invertPerm, nodePerm[d.nid2], nodePerm[d.nid1]);
        return false;
      }
      accepted := true;
    }

    /** One derivative after a swap: the permutation is new, the derivative still old. For its old terms
      * the swap is taken back and then made again.
      */
    method UpdateOne(m: Model, grad: real, nid1: nat, nid2: nat) returns (dll: real)
      requires Valid() && nid1 < |graph.outs| && nid2 < |graph.outs|
      modifies this`nodePerm
      ensures Valid() && nodePerm == old(nodePerm)
      ensures dll - FullOf(m) == grad - FullLL(graph, m.empty, Gain(m.edge, m.noEdge), Swapped(nodePerm, nid1, nid2))
    {
      ghost var perm := nodePerm;
      SwapChangesTerms(graph, m.empty, Gain(m.edge, m.noEdge), perm, nid1, nid2);
      SwapTwice(perm, nid2, nid1);
      assert Swapped(perm, nid1, nid2) == Swapped(perm, nid2, nid1);
      nodePerm := Swapped(nodePerm, nid1, nid2);
      dll := TakeOut(m, grad, nid1, nid2);
      nodePerm := Swapped(nodePerm, nid1, nid2);
      assert nodePerm == perm;
      dll := PutBack(m, dll, nid1, nid2);
    }

    /** All derivatives after a swap. */
    method UpdateGraphDLL(nid1: nat, nid2: nat)
      requires Valid() && nid1 < |graph.outs| && nid2 < |graph.outs|
      modifies this`gradV, this`nodePerm
      ensures Valid() && nodePerm == old(nodePerm)
      ensures forall p | 0 <= p < |params| :: var m := params[p];
                gradV[p] - FullOf(m) == old(gradV)[p] - FullLL(graph, m.empty, Gain(m.edge, m.noEdge), Swapped(nodePerm, nid1, nid2))
    {
      for p := 0 to |params|
        invariant Valid() && nodePerm == old(nodePerm)
        invariant forall q | p <= q < |params| :: gradV[q] == old(gradV)[q]
        invariant forall q | 0 <= q < p :: var m := params[q];
                    gradV[q] - FullOf(m) == old(gradV)[q] - FullLL(graph, m.empty, Gain(m.edge, m.noEdge), Swapped(nodePerm, nid1, nid2))
      {
        var dll := UpdateOne(params[p], gradV[p], nid1, nid2);
        gradV := gradV[p := dll];
      }
    }

    /** All sums are those of the current permutation. */
    ghost predicate UpToDate()
      requires |gradV| == |params|
      reads this
    {
      logLike == Full() && forall p | 0 <= p < |params| :: gradV[p] == FullOf(params[p])
    }

    ghost predicate InGraph(ds: seq<Draw>) {
      forall i | 0 <= i < |ds| :: ds[i].nid1 < |graph.outs| && ds[i].nid2 < |graph.outs|
    }

    /** A step of the sampler and, if it is accepted, the update of the derivatives. */
    method SampleOnce(d: Draw)
      requires Valid() && UpToDate() && InGraph([d])
      modifies this
      ensures Valid() && UpToDate()
      ensures MayFollow(old(nodePerm), d, nodePerm)
    {
      ghost var perm := nodePerm;
      assert [d][0] == d;
      var accepted := SampleNextPerm(d);
      if accepted {
        SwapTwice(perm, d.nid2, d.nid1);
        assert Swapped(nodePerm, d.nid1, d.nid2) == perm;
        UpdateGraphDLL(d.nid1, d.nid2);
      }
    }

    method WarmUp(ds: seq<Draw>)
      requires Valid() && InGraph(ds)
      modifies this`logLike, this`nodePerm, this`invertPerm
      ensures Valid()
    {
      CalcApxGraphLL();
      for s := 0 to |ds|
        invariant Valid()
      {
        var accepted := SampleNextPerm(ds[s]);
      }
    }

    method AddGradients(sums: seq<real>) returns (more: seq<real>)
      requires Valid() && |sums| == |params|
      ensures |more| == |params| && forall p | 0 <= p < |params| :: more[p] == sums[p] + gradV[p]
    {
      more := sums;
      for p := 0 to |params|
        invariant |more| == |params|
        invariant forall q | 0 <= q < |params| :: more[q] == if q < p then sums[q] + gradV[q] else sums[q]
      {
        more := more[p := more[p] + gradV[p]];
      }
    }

    /** The sums so far are those over the permutations met. */
    ghost predicate Summed(ll: real, sums: seq<real>, perms: seq<seq<nat>>) {
      && ll == SumLL(graph, like, perms) && |sums| == |params|
      && forall p | 0 <= p < |params| :: sums[p] == SumLL(graph, params[p], perms)
    }

    lemma SummedStep(ll: real, sums: seq<real>, more: seq<real>, perms: seq<seq<nat>>)
      requires Valid() && UpToDate() && Summed(ll, sums, perms)
      requires |more| == |params| && forall p | 0 <= p < |params| :: more[p] == sums[p] + gradV[p]
      ensures Summed(ll + logLike, more, perms + [nodePerm])
    {
      SumLLStep(graph, like, perms, nodePerm);
      forall p | 0 <= p < |params| ensures more[p] == SumLL(graph, params[p], perms + [nodePerm]) {
        SumLLStep(graph, params[p], perms, nodePerm);
      }
    }

    method SampleMany(draws: seq<Draw>) returns (ll: real, sums: seq<real>, ghost perms: seq<seq<nat>>)
      requires Valid() && UpToDate() && InGraph(draws)
      modifies this
      ensures Valid() && UpToDate() && |perms| == |draws| && (draws != [] ==> perms[|draws| - 1] == nodePerm)
      ensures forall i | 0 < i < |draws| :: MayFollow(perms[i - 1], draws[i], perms[i])
      ensures Summed(ll, sums, perms)
    {
      ll, sums, perms := 0.0, seq(|params|, _ => 0.0), [];
      for s := 0 to |draws|
        invariant Valid() && UpToDate() && |perms| == s && (s > 0 ==> perms[s - 1] == nodePerm)
        invariant forall i | 0 < i < s :: MayFollow(perms[i - 1], draws[i], perms[i])
        invariant Summed(ll, sums, perms)
      {
        SampleOnce(draws[s]);
        var more := AddGradients(sums);
        SummedStep(ll, sums, more, perms);
        ll, sums, perms := ll + logLike, more, perms + [nodePerm];
      }
    }

    /** A random walk over permutations: the averages of the likelihood and its derivatives over the
      * permutations met, all of them kept up to date by swaps, are the averages of the full sums.
      */
    method SampleGradient(warmUp: seq<Draw>, draws: seq<Draw>) returns (avgLL: real, avgGradV: seq<real>, ghost perms: seq<seq<nat>>)
      requires Valid() && InGraph(warmUp) && InGraph(draws) && draws != []
      modifies this
      ensures Valid() && UpToDate() && |perms| == |draws| && perms[|draws| - 1] == nodePerm
      ensures forall i | 0 < i < |draws| :: MayFollow(perms[i - 1], draws[i], perms[i])
      ensures avgLL == SumLL(graph, like, perms) / |draws| as real
      ensures |avgGradV| == |params|
      ensures forall p | 0 <= p < |params| :: avgGradV[p] == SumLL(graph, params[p], perms) / |draws| as real
    {
      if warmUp != [] { WarmUp(warmUp); }
      CalcApxGraphLL();
      CalcApxGraphDLL();
      var ll, sums;
      ll, sums, perms := SampleMany(draws);
      var n := |draws| as real;
      avgLL := ll / n;
      avgGradV := seq(|params|, p requires 0 <= p < |sums| => sums[p] / n);
    }
  }
}
