/** The next arrangement of a vector in lexicographic order, in place. */
module Permutation {

  // ---------- lexicographic order ----------

  /** s and t first differ at k, where s is smaller. */
  ghost predicate LessAt(s: seq<int>, t: seq<int>, k: nat) {
    |s| == |t| && k < |s| && s[..k] == t[..k] && s[k] < t[k]
  }

  ghost predicate Less(s: seq<int>, t: seq<int>) {
    exists k: nat :: LessAt(s, t, k)
  }

  ghost predicate Same(s: seq<int>, t: seq<int>) {
    multiset(s) == multiset(t)
  }

  ghost predicate Ascending(s: seq<int>) {
    forall i, j | 0 <= i < j < |s| :: s[i] <= s[j]
  }

  ghost predicate Descending(s: seq<int>) {
    forall i, j | 0 <= i < j < |s| :: s[i] >= s[j]
  }

  lemma SameLength(s: seq<int>, t: seq<int>)
    requires Same(s, t)
    ensures |s| == |t|
  {
    assert |multiset(s)| == |s| && |multiset(t)| == |t|;
  }

  /** Sequences with the same beginning. */
  lemma SameTail(p: seq<int>, s: seq<int>, t: seq<int>)
    requires Same(p + s, p + t)
    ensures Same(s, t)
  {
    assert multiset(p + s) == multiset(p) + multiset(s);
    assert multiset(p + t) == multiset(p) + multiset(t);
    assert multiset(s) == multiset(p + s) - multiset(p);
    assert multiset(t) == multiset(p + t) - multiset(p);
  }

  lemma LessTail(p: seq<int>, s: seq<int>, t: seq<int>)
    requires Less(s, t)
    ensures Less(p + s, p + t)
  {
    var k: nat :| LessAt(s, t, k);
    assert (p + s)[..|p| + k] == p + s[..k];
    assert (p + t)[..|p| + k] == p + t[..k];
    assert LessAt(p + s, p + t, |p| + k);
  }

  lemma LessHead(p: seq<int>, x: int, s: seq<int>, y: int, t: seq<int>)
    requires x < y && |s| == |t|
    ensures Less(p + [x] + s, p + [y] + t)
  {
    var a, b := p + [x] + s, p + [y] + t;
    assert a[..|p|] == p == b[..|p|];
    assert LessAt(a, b, |p|);
  }

  lemma LessAtIsStrict(s: seq<int>, t: seq<int>, k: nat, j: nat)
    requires LessAt(s, t, k)
    ensures !LessAt(t, s, j)
  {
    if j < k {
      assert s[..k][j] == t[..k][j];
    } else if k < j <= |s| {
      assert s[..j][k] == s[k] && t[..j][k] == t[k];
    }
  }

  lemma LessIsStrict(s: seq<int>, t: seq<int>)
    requires Less(s, t)
    ensures !Less(t, s) && s != t
  {
    var k: nat :| LessAt(s, t, k);
    forall j: nat ensures !LessAt(t, s, j) {
      LessAtIsStrict(s, t, k, j);
    }
  }

  /** The ascending arrangement is the smallest. */
  lemma {:induction false} AscendingIsLeast(s: seq<int>, t: seq<int>)
    requires Ascending(s) && Same(s, t)
    ensures s == t || Less(s, t)
    decreases |s|
  {
    SameLength(s, t);
    if s != [] {
      assert t[0] in multiset(s) by { assert t[0] in multiset(t); }
      assert s == [s[0]] + s[1..] && t == [t[0]] + t[1..];
      if s[0] == t[0] {
        SameTail([s[0]], s[1..], t[1..]);
        AscendingIsLeast(s[1..], t[1..]);
        if s[1..] != t[1..] { LessTail([s[0]], s[1..], t[1..]); }
      } else {
        assert LessAt(s, t, 0);
      }
    }
  }

  /** The descending arrangement is the greatest. */
  lemma {:induction false} DescendingIsGreatest(s: seq<int>, t: seq<int>)
    requires Descending(s) && Same(s, t)
    ensures s == t || Less(t, s)
    decreases |s|
  {
    SameLength(s, t);
    if s != [] {
      assert t[0] in multiset(s) by { assert t[0] in multiset(t); }
      assert s == [s[0]] + s[1..] && t == [t[0]] + t[1..];
      if s[0] == t[0] {
        SameTail([s[0]], s[1..], t[1..]);
        DescendingIsGreatest(s[1..], t[1..]);
        if s[1..] != t[1..] { LessTail([s[0]], t[1..], s[1..]); }
      } else {
        assert LessAt(t, s, 0);
      }
    }
  }

  // ---------- the successor ----------

  /** t is the arrangement that comes right after s. */
  ghost predicate Successor(s: seq<int>, t: seq<int>) {
    Same(s, t) && Less(s, t) && forall u :: Same(s, u) && Less(s, u) ==> u == t || Less(t, u)
  }

  ghost predicate Greatest(s: seq<int>) {
    forall u :: Same(s, u) ==> u == s || Less(u, s)
  }

  /** An arrangement has a successor exactly when it is not the greatest. */
  lemma NoSuccessorOfGreatest(s: seq<int>, t: seq<int>)
    requires Greatest(s)
    ensures !Successor(s, t)
  {
    if Successor(s, t) { LessIsStrict(s, t); }
  }

  /** s is p, then x, then a descending rest in which y is the last number greater than x; t has y and
    * x exchanged and the rest, then, backwards. That makes t the successor of s.
    */
  lemma SwapAndFlip(s: seq<int>, t: seq<int>, p: seq<int>, x: int, rest: seq<int>, y: int, tail: seq<int>)
    requires s == p + [x] + rest && t == p + [y] + tail
    requires Descending(rest) && Ascending(tail) && Same(s, t)
    requires x < y && forall z :: z in rest && x < z ==> y <= z
    ensures Successor(s, t)
  {
    SameLength(s, t);
    LessHead(p, x, rest, y, tail);
    forall u | Same(s, u) && Less(s, u) ensures u == t || Less(t, u) {
      NoneBetween(s, t, p, x, rest, y, tail, u);
    }
  }

  lemma SameBefore(s: seq<int>, u: seq<int>, k: nat, n: nat)
    requires n <= k <= |s| && k <= |u| && s[..k] == u[..k]
    ensures s[..n] == u[..n]
  {
    assert s[..n] == s[..k][..n] && u[..n] == u[..k][..n];
  }

  lemma NoneBetween(s: seq<int>, t: seq<int>, p: seq<int>, x: int, rest: seq<int>, y: int, tail: seq<int>, u: seq<int>)
    requires s == p + [x] + rest && t == p + [y] + tail
    requires Descending(rest) && Ascending(tail) && Same(s, t)
    requires x < y && forall z :: z in rest && x < z ==> y <= z
    requires Same(s, u) && Less(s, u)
    ensures u == t || Less(t, u)
  {
    SameLength(s, t);
    SameLength(s, u);
    LessIsStrict(s, u);
    var k: nat :| LessAt(s, u, k);
    if k < |p| {
      assert t[..k] == s[..k];
      assert LessAt(t, u, k);
    } else {
      SameBefore(s, u, k, |p|);
      assert u[..|p|] == p;
      var z, v := u[|p|], u[|p| + 1..];
      assert u == p + [z] + v;
      if k == |p| {
        HeadDiffers(p, x, rest, y, tail, z, v);
      } else {
        SameBefore(s, u, k, |p| + 1);
        assert z == u[..|p| + 1][|p|] == s[..|p| + 1][|p|] == x;
        SameHead(p, x, rest, v);
      }
    }
  }

  /** An arrangement above s that differs at x is t or lies above t. */
  lemma HeadDiffers(p: seq<int>, x: int, rest: seq<int>, y: int, tail: seq<int>, z: int, v: seq<int>)
    requires Ascending(tail) && Same(p + [x] + rest, p + [z] + v) && Same(p + [y] + tail, p + [z] + v)
    requires x < z && forall w :: w in rest && x < w ==> y <= w
    ensures p + [z] + v == p + [y] + tail || Less(p + [y] + tail, p + [z] + v)
  {
    Head(p, x, rest, z, v);
    SameLength(p + [y] + tail, p + [z] + v);
    if y < z {
      LessHead(p, y, tail, z, v);
    } else {
      SameTail(p + [y], tail, v);
      AscendingIsLeast(tail, v);
      if tail != v { LessTail(p + [y], tail, v); }
    }
  }

  /** No arrangement with x at its place lies above s. */
  lemma SameHead(p: seq<int>, x: int, rest: seq<int>, v: seq<int>)
    requires Descending(rest) && Same(p + [x] + rest, p + [x] + v)
    ensures !Less(p + [x] + rest, p + [x] + v)
  {
    SameTail(p + [x], rest, v);
    DescendingIsGreatest(rest, v);
    if rest != v {
      LessTail(p + [x], v, rest);
      LessIsStrict(p + [x] + v, p + [x] + rest);
    } else if Less(p + [x] + rest, p + [x] + v) {
      LessIsStrict(p + [x] + rest, p + [x] + v);
    }
  }

  /** The number after p in another arrangement comes from the rest, if it is not x. */
  lemma Head(p: seq<int>, x: int, rest: seq<int>, z: int, v: seq<int>)
    requires Same(p + [x] + rest, p + [z] + v) && z != x
    ensures z in rest
  {
    assert p + [x] + rest == p + ([x] + rest) && p + [z] + v == p + ([z] + v);
    SameTail(p, [x] + rest, [z] + v);
    assert z in multiset([z] + v);
    assert multiset([x] + rest) == multiset{x} + multiset(rest);
    assert z in multiset(rest);
  }

  // ---------- the algorithm ----------

  function Backwards(s: seq<int>): (t: seq<int>)
    ensures |t| == |s| && forall i | 0 <= i < |s| :: t[i] == s[|s| - 1 - i]
  {
    seq(|s|, i requires 0 <= i < |s| => s[|s| - 1 - i])
  }

  lemma {:induction false} BackwardsIsSame(s: seq<int>)
    ensures Same(s, Backwards(s))
    decreases |s|
  {
    if s != [] {
      BackwardsIsSame(s[1..]);
      assert s == [s[0]] + s[1..];
      assert Backwards(s) == Backwards(s[1..]) + [s[0]];
    }
  }

  lemma Trivial(s: seq<int>)
    requires |s| < 2
    ensures Greatest(s) && Ascending(s)
  {
    forall u | Same(s, u) ensures u == s {
      SameLength(s, u);
      if |s| == 1 {
        assert u[0] in multiset(s);
      }
    }
  }

  lemma NotFound(s: seq<int>, t: seq<int>)
    requires Descending(s) && t == Backwards(s)
    ensures Greatest(s) && Same(s, t) && Ascending(t)
  {
    BackwardsIsSame(s);
    forall u | Same(s, u) ensures u == s || Less(u, s) {
      DescendingIsGreatest(s, u);
    }
  }

  ghost predicate Pivot(s: seq<int>, next: nat, mid: nat) {
    && next < mid < |s| && Descending(s[next + 1..]) && s[next] < s[mid]
    && forall k | mid < k < |s| :: s[k] <= s[next]
  }

  function Exchanged(s: seq<int>, i: nat, j: nat): (t: seq<int>)
    requires i < |s| && j < |s|
    ensures |t| == |s| && Same(s, t)
  {
    s[i := s[j]][j := s[i]]
  }

  /** s with the stretch from lo to hi, both included, backwards. */
  function TurnedBetween(s: seq<int>, lo: nat, hi: nat): (t: seq<int>)
    requires lo <= hi < |s|
    ensures |t| == |s|
  {
    s[..lo] + Backwards(s[lo..hi + 1]) + s[hi + 1..]
  }

  lemma TurnedToEnd(s: seq<int>, lo: nat, hi: nat)
    requires lo <= hi && hi + 1 == |s|
    ensures TurnedBetween(s, lo, hi) == s[..lo] + Backwards(s[lo..])
  {
    assert s[lo..hi + 1] == s[lo..] && s[hi + 1..] == [];
  }

  /** What the two inner steps do to s. */
  lemma Found(s: seq<int>, next: nat, mid: nat, s': seq<int>, t: seq<int>)
    requires Pivot(s, next, mid) && s' == Exchanged(s, next, mid)
    requires t == s'[..next + 1] + Backwards(s'[next + 1..])
    ensures Successor(s, t)
  {
    var p, rest, tail := s[..next], s[next + 1..], Backwards(s'[next + 1..]);
    FlippedIsSame(s', next + 1, t);
    FlippedIsAscending(s, next, mid);
    LeastAbove(s, next, mid, rest);
    Parted(s, next);
    assert s'[..next + 1] == p + [s[mid]] by {
      Parted(s', next);
      assert s'[..next] == p;
    }
    SwapAndFlip(s, t, p, s[next], rest, s[mid], tail);
  }

  lemma FoundInPlace(s: seq<int>, next: nat, mid: nat, s': seq<int>, hi: nat, t: seq<int>)
    requires Pivot(s, next, mid) && s' == Exchanged(s, next, mid) && hi + 1 == |s|
    requires t == TurnedBetween(s', next + 1, hi)
    ensures Successor(s, t)
  {
    TurnedToEnd(s', next + 1, hi);
    Found(s, next, mid, s', t);
  }

  lemma Parted(s: seq<int>, n: nat)
    requires n < |s|
    ensures s[..n + 1] == s[..n] + [s[n]] && s == s[..n] + [s[n]] + s[n + 1..]
  {
  }

  lemma FlippedIsSame(s: seq<int>, n: nat, t: seq<int>)
    requires n <= |s| && t == s[..n] + Backwards(s[n..])
    ensures Same(s, t)
  {
    BackwardsIsSame(s[n..]);
    assert s == s[..n] + s[n..];
  }

  lemma LeastAbove(s: seq<int>, next: nat, mid: nat, rest: seq<int>)
    requires Pivot(s, next, mid) && rest == s[next + 1..]
    ensures forall z :: z in rest && s[next] < z ==> s[mid] <= z
  {
    forall z | z in rest && s[next] < z ensures s[mid] <= z {
      var k :| 0 <= k < |rest| && rest[k] == z;
      assert rest[mid - next - 1] == s[mid] && s[next + 1 + k] == z;
    }
  }

  lemma FlippedIsAscending(s: seq<int>, next: nat, mid: nat)
    requires Pivot(s, next, mid)
    ensures Ascending(Backwards(Exchanged(s, next, mid)[next + 1..]))
  {
    var rest := s[next + 1..];
    var rest' := Exchanged(s, next, mid)[next + 1..];
    var m := mid - next - 1;
    assert rest' == rest[m := s[next]];
    forall i, j | 0 <= i < j < |rest| ensures rest'[i] >= rest'[j] {
      assert rest[i] >= rest[j];
      assert j == m ==> rest[i] >= rest[m];
      assert i == m ==> rest[j] == s[next + 1 + j];
    }
  }

  method Swap(a: array<int>, i: nat, j: nat)
    requires i < a.Length && j < a.Length
    modifies a
    ensures a[..] == Exchanged(old(a[..]), i, j)
  {
    a[i], a[j] := a[j], a[i];
  }

  /** Reverses the numbers from lo to hi, both included. */
  method ReverseBetween(a: array<int>, lo: nat, hi: nat)
    requires lo <= hi < a.Length
    modifies a
    ensures a[..] == TurnedBetween(old(a[..]), lo, hi)
  {
    ghost var s := a[..];
    var l, r := lo, hi;
    while l < r
      invariant lo <= l <= r + 1 && r <= hi && l - lo == hi - r
      invariant forall k | lo <= k <= hi && (k < l || r < k) :: a[k] == s[lo + hi - k]
      invariant forall k | 0 <= k < a.Length && (k < lo || l <= k <= r || hi < k) :: a[k] == s[k]
    {
      Swap(a, l, r);
      l, r := l + 1, r - 1;
    }
  }

  /** Reverses all numbers. */
  method Reverse(a: array<int>)
    modifies a
    ensures a[..] == Backwards(old(a[..]))
  {
    for i := 0 to a.Length / 2
      invariant forall k | 0 <= k < a.Length && (k < i || a.Length - i <= k) :: a[k] == old(a[a.Length - 1 - k])
      invariant forall k | i <= k < a.Length - i :: a[k] == old(a[k])
    {
      Swap(a, i, a.Length - i - 1);
    }
  }

  /** The rightmost number greater than the one at next. */
  method FindMid(a: array<int>, next: nat) returns (mid: nat)
    requires next + 1 < a.Length && a[next] < a[next + 1] && Descending(a[..][next + 1..])
    ensures Pivot(a[..], next, mid)
  {
    mid := a.Length - 1;
    while a[next] >= a[mid]
      invariant next < mid < a.Length
      invariant forall k | mid < k < a.Length :: a[k] <= a[next]
      decreases mid
    {
      mid := mid - 1;
    }
  }

  /** Exchanges the two numbers and turns around all that comes after the first of them. */
  method SwapAndReverse(a: array<int>, next: nat, mid: nat)
    requires Pivot(a[..], next, mid)
    modifies a
    ensures Successor(old(a[..]), a[..])
  {
    ghost var s := a[..];
    Swap(a, next, mid);
    ghost var s' := a[..];
    ReverseBetween(a, next + 1, a.Length - 1);
    FoundInPlace(s, next, mid, s', a.Length - 1, a[..]);
  }

  /** Turns the greatest arrangement around. */
  method StartOver(a: array<int>)
    requires Descending(a[..])
    modifies a
    ensures Greatest(old(a[..])) && Same(old(a[..]), a[..]) && Ascending(a[..])
  {
    ghost var s := a[..];
    Reverse(a);
    NotFound(s, a[..]);
  }

  lemma MoreDescends(s: seq<int>, n: nat)
    requires n + 1 < |s| && Descending(s[n + 1..]) && s[n] >= s[n + 1]
    ensures Descending(s[n..])
  {
    var t := s[n..];
    forall i, j | 0 <= i < j < |t| ensures t[i] >= t[j] {
      assert s[n + 1..][0] >= s[n + 1..][j - 1];
      if i > 0 { assert s[n + 1..][i - 1] >= s[n + 1..][j - 1]; }
    }
  }

  /** Goes to the next arrangement; from the greatest one it goes to the least. */
  method NextPerm(a: array<int>) returns (found: bool)
    modifies a
    ensures found ==> Successor(old(a[..]), a[..])
    ensures !found ==> Greatest(old(a[..])) && Same(old(a[..]), a[..]) && Ascending(a[..])
  {
    var last, next := a.Length, a.Length - 1;
    if last < 2 {
      Trivial(a[..]);
      return false;
    }
    ghost var s := a[..];
    while true
      invariant 0 < next < last && a[..] == s
      invariant Descending(s[next..])
      decreases next
    {
      var next1 := next;
      next := next - 1;
      if a[next] < a[next1] {
        var mid := FindMid(a, next);
        SwapAndReverse(a, next, mid);
        return true;
      }
      MoreDescends(s, next);
      if next == 0 {
        assert s[0..] == s;
        StartOver(a);
        return false;
      }
    }
  }
}
