/** The block capacities a new blob file is made with, and what they are good for. */
module BlockLengths {
  import opened BlobStore

  function Pow2(k: nat): (p: nat)
    ensures p >= 1
  {
    if k == 0 then 1 else 2 * Pow2(k - 1)
  }

  lemma {:induction false} Pow2Grows(j: nat, k: nat)
    requires j <= k
    ensures Pow2(j) <= Pow2(k)
  {
    if j < k { Pow2Grows(j, k - 1); }
  }

  lemma Pow2Of30()
    ensures Pow2(30) == MAX_BLOCK
  {
    assert Pow2(5) == 32;
    assert Pow2(10) == 1024;
    assert Pow2(15) == 32768;
    assert Pow2(20) == 1048576;
    assert Pow2(25) == 33554432;
  }

  // ---------- sorting ----------

  ghost predicate Ascending(s: seq<nat>) {
    forall i, j | 0 <= i <= j < |s| :: s[i] <= s[j]
  }

  /** s with n at its place. */
  function Inserted(s: seq<nat>, n: nat): seq<nat> {
    if s == [] || n <= s[0] then [n] + s else [s[0]] + Inserted(s[1..], n)
  }

  function Sorted(s: seq<nat>): seq<nat> {
    if s == [] then [] else Inserted(Sorted(s[1..]), s[0])
  }

  lemma {:induction false} InsertedIsSame(s: seq<nat>, n: nat)
    ensures multiset(Inserted(s, n)) == multiset(s) + multiset{n}
  {
    if s != [] && n > s[0] {
      InsertedIsSame(s[1..], n);
      assert s == [s[0]] + s[1..];
    }
  }

  lemma Prepend(a: nat, t: seq<nat>)
    requires Ascending(t) && forall x | x in t :: a <= x
    ensures Ascending([a] + t)
  {
    forall j | 0 <= j < |t| ensures a <= t[j] {
      assert t[j] in t;
    }
  }

  lemma {:induction false} InsertedIsSorted(s: seq<nat>, n: nat)
    requires Ascending(s)
    ensures Ascending(Inserted(s, n))
  {
    if s == [] || n <= s[0] {
      forall x | x in s ensures n <= x {
        assert s[0] <= x;
      }
      Prepend(n, s);
    } else {
      var t := Inserted(s[1..], n);
      InsertedIsSorted(s[1..], n);
      InsertedIsSame(s[1..], n);
      forall x | x in t ensures s[0] <= x {
        assert x in multiset(t);
        if x != n { assert x in multiset(s[1..]); }
      }
      Prepend(s[0], t);
    }
  }

  lemma {:induction false} SortedIsSorted(s: seq<nat>)
    ensures Ascending(Sorted(s)) && multiset(Sorted(s)) == multiset(s)
  {
    if s != [] {
      SortedIsSorted(s[1..]);
      InsertedIsSorted(Sorted(s[1..]), s[0]);
      InsertedIsSame(Sorted(s[1..]), s[0]);
      assert s == [s[0]] + s[1..];
    }
  }

  // ---------- the capacities ----------

  /** The lengths from `from` on, in steps, that are less than `below`; the original has the constants
    * RANGES and, for the powers of two, 31.
    */
  datatype Range = Range(from: nat, below: nat, step: nat)

  const RANGES := [
    Range(10, 100, 10), Range(100, 10000, 100), Range(10000, 100000, 1000), Range(100000, 1000000, 25000),
    Range(1000000, 10000000, 1000000), Range(10000000, 100000000, 10000000)]

  function Steps(r: Range): seq<nat>
    requires r.step > 0
    decreases r.below - r.from
  {
    if r.from >= r.below then [] else [r.from] + Steps(r.(from := r.from + r.step))
  }

  function AllSteps(rs: seq<Range>): seq<nat>
    requires forall r | r in rs :: r.step > 0
  {
    if rs == [] then [] else AllSteps(rs[..|rs| - 1]) + Steps(rs[|rs| - 1])
  }

  function Powers(n: nat): seq<nat> {
    if n == 0 then [] else Powers(n - 1) + [Pow2(n - 1)]
  }

  /** Powers of two, and some rounder numbers. */
  function Lengths(powers: nat, ranges: seq<Range>): seq<nat>
    requires Fit(powers, ranges)
  {
    Powers(powers) + AllSteps(ranges)
  }

  predicate Fit(powers: nat, ranges: seq<Range>) {
    powers > 0 && Pow2(powers - 1) == MAX_BLOCK && forall r | r in ranges :: r.step > 0 && r.below <= MAX_BLOCK
  }

  method AddSteps(lens: seq<nat>, r: Range) returns (more: seq<nat>)
    requires r.step > 0
    ensures more == lens + Steps(r)
  {
    more := lens;
    var len := r.from;
    while len < r.below
      invariant more + Steps(r.(from := len)) == lens + Steps(r)
      decreases r.below - len
    {
      more, len := more + [len], len + r.step;
    }
  }

  method AddLengths(powers: nat, ranges: seq<Range>) returns (lens: seq<nat>)
    requires Fit(powers, ranges)
    ensures lens == Lengths(powers, ranges)
  {
    lens := [];
    for p2 := 0 to powers
      invariant lens == Powers(p2)
    {
      lens := lens + [Pow2(p2)];
    }
    for i := 0 to |ranges|
      invariant lens == Powers(powers) + AllSteps(ranges[..i])
    {
      assert ranges[..i + 1][..i] == ranges[..i];
      lens := AddSteps(lens, ranges[i]);
    }
    assert ranges[..|ranges|] == ranges;
  }

  lemma {:induction false} StepsBelow(r: Range, x: nat)
    requires r.step > 0 && x in Steps(r)
    ensures x < r.below
    decreases r.below - r.from
  {
    if x != r.from { StepsBelow(r.(from := r.from + r.step), x); }
  }

  lemma {:induction false} AllStepsBelow(rs: seq<Range>, x: nat, below: nat)
    requires forall r | r in rs :: r.step > 0 && r.below <= below
    requires x in AllSteps(rs)
    ensures x < below
  {
    var n := |rs| - 1;
    if x in Steps(rs[n]) { StepsBelow(rs[n], x); } else { AllStepsBelow(rs[..n], x, below); }
  }

  lemma {:induction false} PowersAre(n: nat, k: nat)
    ensures k < n ==> Pow2(k) in Powers(n)
    ensures n > 0 ==> forall x | x in Powers(n) :: x <= Pow2(n - 1)
  {
    if n > 0 {
      PowersAre(n - 1, k);
      if n > 1 { Pow2Grows(n - 2, n - 1); }
    }
  }

  /** A power of two that is at least n and less than 2n. */
  lemma {:induction false} PowerAbove(n: nat, k: nat) returns (j: nat)
    requires 1 <= n <= Pow2(k)
    ensures j <= k && n <= Pow2(j) < 2 * n
  {
    if Pow2(k) < 2 * n {
      j := k;
    } else {
      j := PowerAbove(n, k - 1);
    }
  }

  lemma LengthsAre(powers: nat, ranges: seq<Range>, k: nat)
    requires Fit(powers, ranges)
    ensures forall x | x in Lengths(powers, ranges) :: x <= MAX_BLOCK
    ensures k < powers ==> Pow2(k) in Lengths(powers, ranges)
  {
    PowersAre(powers, k);
    forall x | x in AllSteps(ranges) ensures x <= MAX_BLOCK {
      AllStepsBelow(ranges, x, MAX_BLOCK);
    }
  }

  /** What sorting leaves of the lengths. */
  lemma SortedLengths(lens: seq<nat>, powers: nat, ranges: seq<Range>, k: nat)
    requires Fit(powers, ranges) && lens == Sorted(Lengths(powers, ranges))
    ensures Ascending(lens) && forall x | x in lens :: x <= MAX_BLOCK
    ensures k < powers ==> Pow2(k) in lens
  {
    var all := Lengths(powers, ranges);
    SortedIsSorted(all);
    LengthsAre(powers, ranges, k);
    forall x ensures x in lens <==> x in all {
      assert x in multiset(lens) <==> x in multiset(all);
    }
  }

  /** x is one of the lengths of the range. */
  ghost predicate StepOf(x: nat, r: Range)
    requires r.step > 0
  {
    r.from <= x < r.below && (x - r.from) % r.step == 0
  }

  lemma {:induction false} StepsAre(r: Range, x: nat)
    requires r.step > 0
    ensures x in Steps(r) <==> StepOf(x, r)
    decreases r.below - r.from
  {
    if r.from < r.below {
      var next := r.(from := r.from + r.step);
      StepsAre(next, x);
      FirstStep(x, r, next);
    }
  }

  /** The first length, and those of the range that begins one step later. */
  lemma FirstStep(x: nat, r: Range, next: Range)
    requires r.step > 0 && r.from < r.below && next == r.(from := r.from + r.step)
    ensures StepOf(x, r) <==> x == r.from || StepOf(x, next)
  {
    if x >= next.from {
      OneStepLess(x - r.from, r.step);
    } else if r.from < x {
      Between(x - r.from, r.step);
    }
  }

  lemma OneStepLess(n: nat, step: nat)
    requires 0 < step <= n
    ensures n % step == (n - step) % step
  {
    var q, r := (n - step) / step, (n - step) % step;
    assert n == step * (q + 1) + r;
    Unique(n, step, q + 1, r);
  }

  lemma Between(n: nat, step: nat)
    requires 0 < n < step
    ensures n % step == n
  {
  }

  lemma AtLeast(d: nat, x: int)
    requires x >= 1
    ensures d * x >= d
  {
    assert d * x == d * (x - 1) + d;
  }

  lemma Unique(n: nat, d: nat, q: nat, r: nat)
    requires r < d && n == d * q + r
    ensures n % d == r
  {
    var p := n / d;
    assert d * (q - p) == n % d - r && d * (p - q) == r - n % d;
    if p < q { AtLeast(d, q - p); }
    if q < p { AtLeast(d, p - q); }
  }

  ghost predicate StepOfAny(x: nat, rs: seq<Range>)
    requires forall r | r in rs :: r.step > 0
  {
    exists i | 0 <= i < |rs| :: StepOf(x, rs[i])
  }

  lemma {:induction false} AllStepsAre(rs: seq<Range>, x: nat)
    requires forall r | r in rs :: r.step > 0
    ensures x in AllSteps(rs) <==> StepOfAny(x, rs)
  {
    if rs != [] {
      var n := |rs| - 1;
      AllStepsAre(rs[..n], x);
      StepsAre(rs[n], x);
      LastRange(rs, x);
    }
  }

  lemma LastRange(rs: seq<Range>, x: nat)
    requires rs != [] && forall r | r in rs :: r.step > 0
    ensures StepOfAny(x, rs) <==> StepOfAny(x, rs[..|rs| - 1]) || StepOf(x, rs[|rs| - 1])
  {
    var n := |rs| - 1;
    if StepOfAny(x, rs[..n]) {
      var i :| 0 <= i < n && StepOf(x, rs[..n][i]);
      assert StepOf(x, rs[i]);
    }
    if StepOfAny(x, rs) {
      var i :| 0 <= i < |rs| && StepOf(x, rs[i]);
      assert i < n ==> StepOf(x, rs[..n][i]);
    }
  }

  ghost predicate PowerBelow(x: nat, n: nat) {
    exists k: nat | k < n :: x == Pow2(k)
  }

  lemma {:induction false} PowersAreAll(n: nat, x: nat)
    ensures x in Powers(n) <==> PowerBelow(x, n)
  {
    if n > 0 {
      PowersAreAll(n - 1, x);
      assert x == Pow2(n - 1) ==> PowerBelow(x, n);
    }
  }

  /** There is a class for the sizes up to 2^30 and for no other, and of the block that a blob gets
    * more than half is used.
    */
  ghost predicate Serves(lens: seq<nat>, n: nat) {
    if n <= MAX_BLOCK then ClassOf(lens, n) < |lens| && lens[ClassOf(lens, n)] < 2 * if n == 0 then 1 else n
    else ClassOf(lens, n) == |lens|
  }

  lemma NearestClass(lens: seq<nat>, n: nat, p: nat)
    requires Ascending(lens) && p in lens && n <= p < (2 * if n == 0 then 1 else n) && n <= MAX_BLOCK
    ensures Serves(lens, n)
  {
    var i :| 0 <= i < |lens| && lens[i] == p;
    assert ClassOf(lens, n) <= i;
  }

  lemma TooLong(lens: seq<nat>, n: nat)
    requires n > MAX_BLOCK && forall x | x in lens :: x <= MAX_BLOCK
    ensures Serves(lens, n)
  {
    forall i | 0 <= i < |lens| ensures lens[i] <= MAX_BLOCK {
      assert lens[i] in lens;
    }
  }

  lemma LengthsServe(lens: seq<nat>, powers: nat, ranges: seq<Range>, n: nat)
    requires Fit(powers, ranges) && lens == Sorted(Lengths(powers, ranges))
    ensures Capacities(lens) && Serves(lens, n)
  {
    SortedLengths(lens, powers, ranges, 0);
    assert lens[|lens| - 1] in lens;
    if n <= MAX_BLOCK {
      var j := PowerAbove(if n == 0 then 1 else n, powers - 1);
      SortedLengths(lens, powers, ranges, j);
      NearestClass(lens, n, Pow2(j));
    } else {
      TooLong(lens, n);
    }
  }

  lemma SortedHas(s: seq<nat>, x: nat)
    ensures x in Sorted(s) <==> x in s
  {
    SortedIsSorted(s);
    assert x in Sorted(s) <==> x in multiset(Sorted(s));
    assert x in s <==> x in multiset(s);
  }

  lemma SortedHasAll(powers: nat, ranges: seq<Range>, x: nat)
    requires Fit(powers, ranges)
    ensures x in Sorted(Lengths(powers, ranges)) <==> PowerBelow(x, powers) || StepOfAny(x, ranges)
  {
    SortedHas(Lengths(powers, ranges), x);
    PowersAreAll(powers, x);
    AllStepsAre(ranges, x);
  }

  /** The capacities of a new blob file, for any constants that fit. */
  method GenBlockLenV(powers: nat, ranges: seq<Range>) returns (lens: seq<nat>)
    requires Fit(powers, ranges)
    ensures Capacities(lens) && forall n: nat :: Serves(lens, n)
    ensures lens == Sorted(Lengths(powers, ranges))
    ensures forall x: nat :: x in lens <==> PowerBelow(x, powers) || StepOfAny(x, ranges)
  {
    lens := AddLengths(powers, ranges);
    lens := Sorted(lens);
    forall x: nat ensures x in lens <==> PowerBelow(x, powers) || StepOfAny(x, ranges) {
      SortedHasAll(powers, ranges, x);
    }
    LengthsServe(lens, powers, ranges, 0);
    forall n: nat ensures Serves(lens, n) {
      LengthsServe(lens, powers, ranges, n);
    }
  }

  lemma RangesFit(r: Range)
    requires r in RANGES
    ensures r.step > 0 && r.below <= MAX_BLOCK
  {
  }

  lemma PowerOf(powers: nat, last: nat)
    requires last == 30 && powers == last + 1
    ensures Pow2(powers - 1) == MAX_BLOCK
  {
    Pow2Of30();
  }

  /** The ranges of the original, in numbers. */
  lemma StandardSteps(x: nat)
    ensures (forall r | r in RANGES :: r.step > 0) &&
            (StepOfAny(x, RANGES) <==>
              || (10 <= x < 100 && (x - 10) % 10 == 0) || (100 <= x < 10000 && (x - 100) % 100 == 0)
              || (10000 <= x < 100000 && (x - 10000) % 1000 == 0) || (100000 <= x < 1000000 && (x - 100000) % 25000 == 0)
              || (1000000 <= x < 10000000 && (x - 1000000) % 1000000 == 0)
              || (10000000 <= x < 100000000 && (x - 10000000) % 10000000 == 0))
  {
    assert |RANGES| == 6;
    assert StepOfAny(x, RANGES) <==>
      || StepOf(x, RANGES[0]) || StepOf(x, RANGES[1]) || StepOf(x, RANGES[2])
      || StepOf(x, RANGES[3]) || StepOf(x, RANGES[4]) || StepOf(x, RANGES[5]);
  }

  /** The constants that the original has do fit. */
  lemma StandardFits(powers: nat)
    requires powers == 31
    ensures Fit(powers, RANGES)
  {
    PowerOf(powers, powers - 1);
    forall r | r in RANGES ensures r.step > 0 && r.below <= MAX_BLOCK {
      RangesFit(r);
    }
  }
}
