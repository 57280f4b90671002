/** The bank: any number of processes that move money between accounts by transactions,
  * reading each balance they need once and keeping it, with its version, in a cache.
  */
module Bank {
  import opened RamCloud
  import opened Protocol
  import opened Invariant
  import opened Preservation
  import opened Steps
  import opened Refinement
  import opened Anomalies
  import opened Decimal

  type Cache = map<Key, (int, nat)>

  // ---------- one transfer ----------

  /** What the first of the chosen accounts pays, and each other one receives. */
  function Change(accts: seq<Key>, k: Key): int {
    if accts == [] then 0 else if k == accts[0] then -(|accts| - 1) else if k in accts then 1 else 0
  }

  ghost predicate IsTransfer(mt: MiniTransaction, accts: seq<Key>, cache: Cache) {
    && (forall k :: k in mt <==> k in accts)
    && (forall k :: k in accts ==> k in cache)
    && (forall k :: k in accts ==> mt[k] == Put(Render(cache[k].0 + Change(accts, k)), Exactly(cache[k].1)))
  }

  predicate Distinct(ks: seq<Key>) {
    forall i, j | 0 <= i < j < |ks| :: ks[i] != ks[j]
  }

  /** The write of the account at `oid`. */
  function NewValue(accts: seq<Key>, cache: Cache, oid: Key): int
    requires oid in cache
  {
    cache[oid].0 + Change(accts, oid)
  }

  /** What is filled in for the accounts of ks. */
  ghost predicate Filled(mt: MiniTransaction, newValues: map<Key, int>, ks: seq<Key>, accts: seq<Key>, cache: Cache)
    requires forall k :: k in accts ==> k in cache
    requires forall k :: k in ks ==> k in accts
  {
    && (forall k :: k in mt <==> k in ks)
    && (forall k :: k in ks ==> mt[k] == Put(Render(NewValue(accts, cache, k)), Exactly(cache[k].1)))
    && (forall k :: k in ks ==> k in newValues && newValues[k] == NewValue(accts, cache, k))
  }

  /** The loop of the bank's algorithm that fills the minitransaction. */
  method BuildTransfer(accts: seq<Key>, cache: Cache) returns (mt: MiniTransaction, newValues: map<Key, int>)
    requires |accts| >= 2 && Distinct(accts) && forall k :: k in accts ==> k in cache
    ensures IsTransfer(mt, accts, cache)
    ensures forall k :: k in accts ==> k in newValues && newValues[k] == cache[k].0 + Change(accts, k)
  {
    mt, newValues := map[], map[];
    for i := 0 to |accts|
      invariant Filled(mt, newValues, accts[..i], accts, cache)
    {
      var oid := accts[i];
      var (value, version) := cache[oid];
      if oid == accts[0] {
        value := value - |accts[1..]|;
      } else {
        value := value + 1;
      }
      assert value == NewValue(accts, cache, oid);
      FilledStep(mt, newValues, accts[..i], accts, cache, oid);
      newValues := newValues[oid := value];
      mt := mt[oid := Put(Render(value), Exactly(version))];
      assert accts[..i + 1] == accts[..i] + [oid];
    }
    assert accts[..|accts|] == accts;
  }

  /** The first account pays one to each of the others, if nobody has changed them since they were read. */
  lemma PaysOneEach(mt: MiniTransaction, newValues: map<Key, int>, accts: seq<Key>, cache: Cache)
    requires |accts| >= 2 && Distinct(accts) && IsTransfer(mt, accts, cache)
    requires forall k :: k in accts ==> k in newValues && newValues[k] == cache[k].0 + Change(accts, k)
    ensures newValues[accts[0]] == cache[accts[0]].0 - (|accts| - 1)
    ensures forall i | 1 <= i < |accts| :: newValues[accts[i]] == cache[accts[i]].0 + 1
    ensures forall k :: k in accts ==> mt[k] == Put(Render(newValues[k]), RejectRules(cache[k].1, true, false, false, true))
  {
  }

  lemma FilledStep(mt: MiniTransaction, newValues: map<Key, int>, ks: seq<Key>, accts: seq<Key>, cache: Cache, oid: Key)
    requires (forall k :: k in accts ==> k in cache) && (forall k :: k in ks ==> k in accts) && oid in accts
    requires Filled(mt, newValues, ks, accts, cache)
    ensures var value := NewValue(accts, cache, oid);
            Filled(mt[oid := Put(Render(value), Exactly(cache[oid].1))], newValues[oid := value], ks + [oid], accts, cache)
  {
  }

  // ---------- sums over accounts ----------

  ghost function Value(d: Option<Data>): int {
    if d.Some? && Parse(d.value).Some? then Parse(d.value).value else 0
  }

  /** The logical sum over all accounts. */
  ghost function Total(sh: Shared, all: seq<Key>): int {
    if all == [] then 0 else Value(Logical(sh, all[0])) + Total(sh, all[1..])
  }

  /** What a minitransaction adds to k, compared with the version its rules ask for. */
  ghost function Delta(sh: Shared, mt: MiniTransaction, k: Key): int {
    if k in mt && mt[k].Put? && 1 <= mt[k].rr.givenVersion <= |Obj(sh, k).log| && Obj(sh, k).log[mt[k].rr.givenVersion - 1].Clean?
    then Value(Some(mt[k].data)) - Value(Some(Obj(sh, k).log[mt[k].rr.givenVersion - 1].data))
    else 0
  }

  ghost function SumDelta(sh: Shared, mt: MiniTransaction, all: seq<Key>): int {
    if all == [] then 0 else Delta(sh, mt, all[0]) + SumDelta(sh, mt, all[1..])
  }

  ghost function SumChange(accts: seq<Key>, all: seq<Key>): int {
    if all == [] then 0 else Change(accts, all[0]) + SumChange(accts, all[1..])
  }

  lemma {:induction false} CountIn(s: set<Key>, first: Key, n: int, all: seq<Key>, sum: int)
    requires Distinct(all) && forall k :: k in s ==> k in all
    requires first !in s
    requires sum == SumPick(s, first, n, all)
    ensures sum == |s| + if first in all then n else 0
  {
    if all != [] {
      var rest := s - {all[0]};
      assert all == [all[0]] + all[1..];
      SumPickSame(s, rest, first, n, all[1..]);
      CountIn(rest, first, n, all[1..], SumPick(rest, first, n, all[1..]));
    } else {
      assert s == {};
    }
  }

  ghost function SumPick(s: set<Key>, first: Key, n: int, all: seq<Key>): int {
    if all == [] then 0 else (if all[0] == first then n else if all[0] in s then 1 else 0) + SumPick(s, first, n, all[1..])
  }

  lemma {:induction false} SumPickSame(s: set<Key>, s': set<Key>, first: Key, n: int, all: seq<Key>)
    requires forall k :: k in all ==> (k in s <==> k in s')
    ensures SumPick(s, first, n, all) == SumPick(s', first, n, all)
  {
    if all != [] {
      SumPickSame(s, s', first, n, all[1..]);
    }
  }

  lemma {:induction false} ChangePicks(accts: seq<Key>, all: seq<Key>)
    requires accts != [] && Distinct(accts)
    ensures SumChange(accts, all) == SumPick((set k | k in accts[1..]), accts[0], -(|accts| - 1), all)
  {
    if all != [] {
      ChangePicks(accts, all[1..]);
      assert accts == [accts[0]] + accts[1..];
    }
  }

  lemma {:induction false} DistinctCount(ks: seq<Key>)
    requires Distinct(ks)
    ensures |set k | k in ks| == |ks|
  {
    if ks == [] {
      assert (set k | k in ks) == {};
    } else {
      DistinctCount(ks[1..]);
      assert (set k | k in ks) == {ks[0]} + set k | k in ks[1..];
    }
  }

  /** A transfer moves money and makes none. */
  lemma ChangesCancel(accts: seq<Key>, all: seq<Key>)
    requires accts != [] && Distinct(accts) && Distinct(all) && forall k :: k in accts ==> k in all
    ensures SumChange(accts, all) == 0
  {
    var s := set k | k in accts[1..];
    ChangePicks(accts, all);
    DistinctCount(accts[1..]);
    CountIn(s, accts[0], -(|accts| - 1), all, SumChange(accts, all));
  }

  // ---------- processes ----------

  datatype BankWorld = BankWorld(w: World, caches: map<ClientId, Cache>)

  datatype BankLabel =
    | Fetch(c: ClientId, account: Key)
    | Transfer(c: ClientId, txid: Txid, accts: seq<Key>, mt: MiniTransaction, objects: seq<Key>)
    | Go(c: ClientId, choice: Choice)
    | Crash(c: ClientId)

  ghost function AsLabel(l: BankLabel): Label {
    match l
    case Fetch(c, k) => Begin(c, AskRead(k, MUST_EXIST))
    case Transfer(c, t, _, mt, objects) => Begin(c, AskCommit(t, mt, objects))
    case Go(c, choice) => Run(c, choice)
    case Crash(c) => Abandon(c)
  }

  ghost predicate CanDo(b: BankWorld, l: BankLabel, all: seq<Key>) {
    && l.c in b.caches
    && Enabled(b.w, AsLabel(l))
    && match l
       case Fetch(c, k) => k in all && k !in b.caches[c]
       case Transfer(c, _, accts, mt, _) =>
         |accts| >= 2 && Distinct(accts) && (forall k :: k in accts ==> k in all) && IsTransfer(mt, accts, b.caches[c])
       case _ => true
  }

  /** The cache after the client's operation returned with `o`; `mt` is what it committed. */
  ghost function Remember(cache: Cache, o: Outcome, mt: MiniTransaction): Cache {
    match o
    case Found(k, d, v) => if Parse(d).Some? then cache[k := (Parse(d).value, v)] else cache
    case TxCommitted(_, versions) =>
      map k | k in cache.Keys + versions.Keys && (k in cache || IsPutVersion(mt, versions, k)) ::
        if IsPutVersion(mt, versions, k) then (Value(Some(mt[k].data)), versions[k].value) else cache[k]
    case TxRejected(_, k, _) => cache - {k}
    case _ => cache
  }

  ghost predicate IsPutVersion(mt: MiniTransaction, versions: map<Key, Option<nat>>, k: Key) {
    k in mt && mt[k].Put? && k in versions && versions[k].Some?
  }

  ghost function CacheAfter(b: BankWorld, l: BankLabel, all: seq<Key>): Cache
    requires CanDo(b, l, all)
  {
    var cl := Do(b.w, AsLabel(l)).clients[l.c];
    if l.Crash? then map[]
    else if cl.Idle? && b.w.clients[l.c].Busy? then
      Remember(b.caches[l.c], cl.outcome, if b.w.clients[l.c].task.Committing? then b.w.clients[l.c].task.mt else map[])
    else b.caches[l.c]
  }

  ghost function BankDo(b: BankWorld, l: BankLabel, all: seq<Key>): BankWorld
    requires CanDo(b, l, all)
  {
    BankWorld(Do(b.w, AsLabel(l)), b.caches[l.c := CacheAfter(b, l, all)])
  }

  ghost predicate BankInit(b: BankWorld, all: seq<Key>) {
    && Distinct(all) && Init(b.w)
    && (forall k :: k in b.w.sh.objs <==> k in all)
    && (forall k | k in all :: b.w.sh.objs[k] == Cell([Clean(Render(0))], true))
    && (forall c | c in b.caches :: b.caches[c] == map[])
  }

  // ---------- invariant ----------

  /** A cached pair is the true content of the account at that version. */
  ghost predicate CacheTrue(sh: Shared, cache: Cache) {
    forall k | k in cache :: IsBalance(sh, k, cache[k].1, cache[k].0)
  }

  ghost predicate IsBalance(sh: Shared, k: Key, v: nat, value: int) {
    1 <= v <= |Obj(sh, k).log| && Obj(sh, k).log[v - 1].Clean? && Parse(Obj(sh, k).log[v - 1].data) == Some(value)
  }

  /** A minitransaction that the bank began: it writes balances over versions that were
    * clean balances, and its changes cancel out.
    */
  ghost predicate PlanOk(sh: Shared, mt: MiniTransaction, all: seq<Key>) {
    && (forall k | k in mt :: k in all && PutOk(sh, k, mt[k]))
    && SumDelta(sh, mt, all) == 0
  }

  ghost predicate PutOk(sh: Shared, k: Key, op: Op) {
    && op.Put? && Parse(op.data).Some? && op.rr == Exactly(op.rr.givenVersion)
    && WasCleanAt(sh, k, op.rr.givenVersion)
  }

  ghost predicate WasCleanAt(sh: Shared, k: Key, v: nat) {
    1 <= v <= |Obj(sh, k).log| && Obj(sh, k).log[v - 1].Clean?
  }

  /** A mask is never older than the version its transaction was computed from. */
  ghost predicate MaskAge(sh: Shared, k: Key, i: int)
    requires IsMask(sh, k, i)
  {
    var t := Obj(sh, k).log[i].txid;
    t in sh.plan && k in sh.plan[t] ==> i >= sh.plan[t][k].rr.givenVersion
  }

  ghost predicate BankTask(task: Task) {
    task.Reading? || task.Committing?
  }

  ghost predicate BankInv(b: BankWorld, all: seq<Key>) {
    && Distinct(all) && Inv(b.w) && NoDeletes(b.w)
    && (forall t | t in b.w.sh.plan :: PlanOk(b.w.sh, b.w.sh.plan[t], all))
    && (forall k, i | IsMask(b.w.sh, k, i) :: MaskAge(b.w.sh, k, i))
    && (forall k | k in all :: Logical(b.w.sh, k).Some? && Parse(Logical(b.w.sh, k).value).Some?)
    && Total(b.w.sh, all) == 0
    && (forall c | c in b.caches :: CacheTrue(b.w.sh, b.caches[c]))
    && (forall c | c in b.w.clients && b.w.clients[c].Busy? :: BankTask(b.w.clients[c].task))
  }

  // ---------- stability ----------

  lemma {:induction false} SumDeltaStable(sh: Shared, sh': Shared, mt: MiniTransaction, all: seq<Key>)
    requires forall k | k in mt :: PutOk(sh, k, mt[k])
    requires forall k :: Obj(sh, k).log <= Obj(sh', k).log
    ensures SumDelta(sh', mt, all) == SumDelta(sh, mt, all)
  {
    if all != [] {
      SumDeltaStable(sh, sh', mt, all[1..]);
      if all[0] in mt { assert PutOk(sh, all[0], mt[all[0]]); }
    }
  }

  lemma PlansStable(sh: Shared, sh': Shared, c: ClientId, mt: MiniTransaction, all: seq<Key>)
    requires Evolves(sh, sh', c) && PlanOk(sh, mt, all)
    ensures PlanOk(sh', mt, all)
  {
    SumDeltaStable(sh, sh', mt, all);
    forall k | k in mt ensures PutOk(sh', k, mt[k]) {
      assert PutOk(sh, k, mt[k]) && Obj(sh, k).log <= Obj(sh', k).log;
    }
  }

  lemma CacheStable(sh: Shared, sh': Shared, c: ClientId, cache: Cache)
    requires Evolves(sh, sh', c) && CacheTrue(sh, cache)
    ensures CacheTrue(sh', cache)
  {
    forall k | k in cache ensures IsBalance(sh', k, cache[k].1, cache[k].0) {
      assert Obj(sh, k).log <= Obj(sh', k).log;
    }
  }

  lemma {:induction false} TotalSame(sh: Shared, sh': Shared, all: seq<Key>)
    requires forall k | k in all :: Logical(sh', k) == Logical(sh, k)
    ensures Total(sh', all) == Total(sh, all)
  {
    if all != [] {
      TotalSame(sh, sh', all[1..]);
    }
  }

  /** Committing a plan changes the total by the sum of its deltas. */
  lemma {:induction false} TotalCommit(sh: Shared, sh': Shared, mt: MiniTransaction, all: seq<Key>)
    requires forall k | k in all && k !in mt :: Logical(sh', k) == Logical(sh, k)
    requires forall k | k in all && k in mt :: Value(Logical(sh', k)) == Value(Logical(sh, k)) + Delta(sh, mt, k)
    ensures Total(sh', all) == Total(sh, all) + SumDelta(sh, mt, all)
  {
    if all != [] {
      TotalCommit(sh, sh', mt, all[1..]);
    }
  }

  lemma DeltaOf(sh: Shared, mt: MiniTransaction, k: Key, v: nat, old_: int, new_: int)
    requires k in mt && mt[k] == Put(Render(new_), Exactly(v)) && IsBalance(sh, k, v, old_)
    ensures Delta(sh, mt, k) == new_ - old_
  {
    RoundTrip(new_);
  }

  lemma OneDelta(sh: Shared, accts: seq<Key>, mt: MiniTransaction, cache: Cache, k: Key)
    requires IsTransfer(mt, accts, cache) && CacheTrue(sh, cache) && accts != []
    ensures Delta(sh, mt, k) == Change(accts, k)
  {
    if k in accts {
      DeltaOf(sh, mt, k, cache[k].1, cache[k].0, cache[k].0 + Change(accts, k));
    }
  }

  lemma {:induction false} SameSum(sh: Shared, mt: MiniTransaction, accts: seq<Key>, all: seq<Key>)
    requires forall k | k in all :: Delta(sh, mt, k) == Change(accts, k)
    ensures SumDelta(sh, mt, all) == SumChange(accts, all)
  {
    if all != [] {
      SameSum(sh, mt, accts, all[1..]);
    }
  }

  /** A new transfer, computed from a true cache, changes each account as it says. */
  lemma TransferDelta(sh: Shared, accts: seq<Key>, mt: MiniTransaction, cache: Cache, all: seq<Key>)
    requires IsTransfer(mt, accts, cache) && CacheTrue(sh, cache) && accts != []
    ensures SumDelta(sh, mt, all) == SumChange(accts, all)
  {
    forall k | k in all ensures Delta(sh, mt, k) == Change(accts, k) {
      OneDelta(sh, accts, mt, cache, k);
    }
    SameSum(sh, mt, accts, all);
  }

  // ---------- the commit of a transfer ----------

  /** At the commit point every account of the plan still has the balance its rule asks for. */
  lemma PlanFitsBalances(b: BankWorld, all: seq<Key>, c: ClientId, k: Key)
    requires BankInv(b, all) && c in b.w.clients && b.w.clients[c].Busy?
    requires ReadyToCommit(b.w.sh, c, b.w.clients[c].task) && k in b.w.clients[c].task.mt
    ensures var sh, mt := b.w.sh, b.w.clients[c].task.mt;
            Value(Effect(mt[k], Logical(sh, k))) == Value(Logical(sh, k)) + Delta(sh, mt, k)
  {
    PlanFits(b.w.sh, all, c, b.w.clients[c].task, k);
  }

  lemma PlanFits(sh: Shared, all: seq<Key>, c: ClientId, task: Task, k: Key)
    requires ReadyToCommit(sh, c, task) && k in task.mt && PlanOk(sh, sh.plan[task.txid], all)
    requires forall i | IsMask(sh, k, i) :: MaskAge(sh, k, i)
    ensures Value(Effect(task.mt[k], Logical(sh, k))) == Value(Logical(sh, k)) + Delta(sh, task.mt, k)
  {
    MineStillMasked(sh, c, task, k);
    var i := |Obj(sh, k).log| - 1;
    assert IsMask(sh, k, i) && MaskOk(sh, k, i) && MaskAge(sh, k, i);
    MaskedDelta(sh, task.txid, task.mt, k);
  }

  /** Under a mask that was put over the version a Put asks for lies what the Put is compared with. */
  lemma MaskedDelta(sh: Shared, t: Txid, mt: MiniTransaction, k: Key)
    requires k in mt && PutOk(sh, k, mt[k]) && MaskedBy(sh, k, t) && Logical(sh, k) == Top(Obj(sh, k)).under
    requires var i := |Obj(sh, k).log| - 1;
             IsMask(sh, k, i) && Justified(sh, k, i, mt[k].rr) && i >= mt[k].rr.givenVersion
    ensures Value(Effect(mt[k], Logical(sh, k))) == Value(Logical(sh, k)) + Delta(sh, mt, k)
  {
  }

  /** What the commit point does to one account of the plan. */
  lemma AccountCommits(b: BankWorld, all: seq<Key>, c: ClientId, k: Key)
    requires BankInv(b, all) && c in b.w.clients && b.w.clients[c].Busy?
    requires ReadyToCommit(b.w.sh, c, b.w.clients[c].task) && k in b.w.clients[c].task.mt
    ensures var sh, task := b.w.sh, b.w.clients[c].task;
            var sh' := AfterIntent(sh, task);
            && Value(Logical(sh', k)) == Value(Logical(sh, k)) + Delta(sh, task.mt, k)
            && Logical(sh', k) == Some(task.mt[k].data) && Parse(task.mt[k].data).Some?
  {
    var sh, task := b.w.sh, b.w.clients[c].task;
    CommitChangesMine(sh, c, task, k);
    PlanFitsBalances(b, all, c, k);
    assert PlanOk(sh, sh.plan[task.txid], all) && PutOk(sh, k, task.mt[k]);
  }

  lemma OwnPlan(b: BankWorld, all: seq<Key>, c: ClientId)
    requires BankInv(b, all) && c in b.w.clients && b.w.clients[c].Busy? && ReadyToCommit(b.w.sh, c, b.w.clients[c].task)
    ensures PlanOk(b.w.sh, b.w.clients[c].task.mt, all)
  {
    assert PlanOk(b.w.sh, b.w.sh.plan[b.w.clients[c].task.txid], all);
  }

  lemma OthersCommit(sh: Shared, c: ClientId, task: Task, all: seq<Key>)
    requires ReadyToCommit(sh, c, task)
    ensures forall k | k in all && k !in task.mt :: Logical(AfterIntent(sh, task), k) == Logical(sh, k)
  {
    forall k | k in all && k !in task.mt ensures Logical(AfterIntent(sh, task), k) == Logical(sh, k) {
      CommitKeepsOthers(sh, c, task, k);
    }
  }

  lemma CommitKeepsTotal(b: BankWorld, all: seq<Key>, c: ClientId)
    requires BankInv(b, all) && c in b.w.clients && b.w.clients[c].Busy?
    requires ReadyToCommit(b.w.sh, c, b.w.clients[c].task)
    ensures Total(AfterIntent(b.w.sh, b.w.clients[c].task), all) == 0
    ensures forall k | k in all ::
              Logical(AfterIntent(b.w.sh, b.w.clients[c].task), k).Some? &&
              Parse(Logical(AfterIntent(b.w.sh, b.w.clients[c].task), k).value).Some?
  {
    var sh, task := b.w.sh, b.w.clients[c].task;
    var sh' := AfterIntent(sh, task);
    OwnPlan(b, all, c);
    OthersCommit(sh, c, task, all);
    forall k | k in task.mt
      ensures Value(Logical(sh', k)) == Value(Logical(sh, k)) + Delta(sh, task.mt, k)
      ensures Logical(sh', k) == Some(task.mt[k].data) && Parse(task.mt[k].data).Some?
    {
      AccountCommits(b, all, c, k);
    }
    TotalCommit(sh, sh', task.mt, all);
  }

  /** In the bank nothing is revived, written or deleted but by transactions. */
  lemma BankEvents(w: World, l: Label)
    requires Inv(w) && NoDeletes(w) && Enabled(w, l)
    requires w.clients[l.c].Busy? ==> BankTask(w.clients[l.c].task)
    ensures EventOf(w, l).Internal? || EventOf(w, l).Saw? || EventOf(w, l).Misled? || EventOf(w, l).AllAtOnce?
  {
    assert ClientInv(w.sh, l.c, w.clients[l.c]);
    if l.Run? && w.clients[l.c].pc.UnmaskWrite? {
      var pc := w.clients[l.c].pc;
      assert WasUnder(w.sh, pc.todo[0], pc.version, pc.txid, pc.under);
      assert pc.under.Some? ==> HasData(Obj(w.sh, pc.todo[0]).log[pc.version - 1]);
    }
  }

  lemma CommitEvent(w: World, l: Label)
    requires Inv(w) && Enabled(w, l) && EventOf(w, l).AllAtOnce?
    ensures l.Run? && ReadyToCommit(w.sh, l.c, w.clients[l.c].task) && Do(w, l).sh == AfterIntent(w.sh, w.clients[l.c].task)
  {
    assert ClientInv(w.sh, l.c, w.clients[l.c]);
  }

  lemma SameView(sh: Shared, sh': Shared, k: Key)
    requires ViewOf(sh') == ViewOf(sh)
    ensures Logical(sh', k) == Logical(sh, k)
  {
    assert Look(ViewOf(sh), k) == Logical(sh, k) && Look(ViewOf(sh'), k) == Logical(sh', k);
  }

  /** Every other step of the bank is invisible. */
  lemma OtherStepsInvisible(w: World, l: Label)
    requires Inv(w) && NoDeletes(w) && Enabled(w, l)
    requires w.clients[l.c].Busy? ==> BankTask(w.clients[l.c].task)
    requires !EventOf(w, l).AllAtOnce?
    ensures forall k :: Logical(Do(w, l).sh, k) == Logical(w.sh, k)
  {
    BankEvents(w, l);
    LabelShows(w, l);
    forall k ensures Logical(Do(w, l).sh, k) == Logical(w.sh, k) {
      SameView(w.sh, Do(w, l).sh, k);
    }
  }

  // ---------- every step ----------

  lemma TotalKept(b: BankWorld, all: seq<Key>, l: Label)
    requires BankInv(b, all) && Enabled(b.w, l)
    ensures var sh' := Do(b.w, l).sh;
            && Total(sh', all) == 0
            && forall k | k in all :: Logical(sh', k).Some? && Parse(Logical(sh', k).value).Some?
  {
    if EventOf(b.w, l).AllAtOnce? {
      CommitEvent(b.w, l);
      CommitKeepsTotal(b, all, l.c);
    } else {
      OtherStepsInvisible(b.w, l);
      TotalSame(b.w.sh, Do(b.w, l).sh, all);
    }
  }

  lemma PlansKept(b: BankWorld, all: seq<Key>, l: BankLabel)
    requires BankInv(b, all) && CanDo(b, l, all)
    ensures var sh' := Do(b.w, AsLabel(l)).sh;
            forall t | t in sh'.plan :: PlanOk(sh', sh'.plan[t], all)
  {
    var sh, sh' := b.w.sh, Do(b.w, AsLabel(l)).sh;
    InvKept(b.w, AsLabel(l));
    PlanGrows(b.w, AsLabel(l));
    forall t | t in sh'.plan ensures PlanOk(sh', sh'.plan[t], all) {
      if t in sh.plan {
        PlansStable(sh, sh', l.c, sh.plan[t], all);
      } else {
        NewPlan(b, all, l);
      }
    }
  }

  lemma PlanGrows(w: World, l: Label)
    requires Enabled(w, l)
    ensures forall t | t in Do(w, l).sh.plan && t !in w.sh.plan ::
              l.Begin? && l.request.AskCommit? && t == l.request.txid && Do(w, l).sh.plan[t] == l.request.mt
  {
    if l.Run? {
      TaskStays(w.sh, w.clients[l.c], l.choice);
    }
  }

  lemma SameCaches(sh: Shared, sh': Shared, cache: Cache)
    requires CacheTrue(sh, cache) && sh'.objs == sh.objs
    ensures CacheTrue(sh', cache)
  {
    forall k | k in cache ensures IsBalance(sh', k, cache[k].1, cache[k].0) {
      assert Obj(sh', k) == Obj(sh, k) && IsBalance(sh, k, cache[k].1, cache[k].0);
    }
  }

  lemma TransferOk(sh: Shared, accts: seq<Key>, mt: MiniTransaction, cache: Cache, all: seq<Key>)
    requires IsTransfer(mt, accts, cache) && CacheTrue(sh, cache) && |accts| >= 2
    requires Distinct(accts) && Distinct(all) && forall k :: k in accts ==> k in all
    ensures PlanOk(sh, mt, all)
  {
    forall k | k in mt ensures k in all && PutOk(sh, k, mt[k]) {
      RoundTrip(cache[k].0 + Change(accts, k));
      assert IsBalance(sh, k, cache[k].1, cache[k].0);
    }
    TransferDelta(sh, accts, mt, cache, all);
    ChangesCancel(accts, all);
  }

  lemma NewPlan(b: BankWorld, all: seq<Key>, l: BankLabel)
    requires BankInv(b, all) && CanDo(b, l, all) && l.Transfer?
    ensures PlanOk(Do(b.w, AsLabel(l)).sh, l.mt, all)
  {
    SameCaches(b.w.sh, Do(b.w, AsLabel(l)).sh, b.caches[l.c]);
    TransferOk(Do(b.w, AsLabel(l)).sh, l.accts, l.mt, b.caches[l.c], all);
  }

  lemma MasksKept(b: BankWorld, all: seq<Key>, l: BankLabel)
    requires BankInv(b, all) && CanDo(b, l, all)
    ensures var sh' := Do(b.w, AsLabel(l)).sh;
            forall k, i | IsMask(sh', k, i) :: MaskAge(sh', k, i)
  {
    var sh, sh' := b.w.sh, Do(b.w, AsLabel(l)).sh;
    InvKept(b.w, AsLabel(l));
    forall k, i | IsMask(sh', k, i) ensures MaskAge(sh', k, i) {
      var t := Obj(sh', k).log[i].txid;
      assert Obj(sh, k).log <= Obj(sh', k).log;
      if i < |Obj(sh, k).log| {
        assert IsMask(sh, k, i) && MaskAge(sh, k, i) && MaskOk(sh, k, i);
      } else {
        assert Owns(sh, l.c, t);
        assert PlanOk(sh, sh.plan[t], all);
        assert k in sh.plan[t] ==> PutOk(sh, k, sh.plan[t][k]);
      }
    }
  }

  lemma RememberFound(sh: Shared, cache: Cache, k: Key, d: Data, v: nat)
    requires CacheTrue(sh, cache) && WasClean(sh, k, v, d)
    ensures CacheTrue(sh, Remember(cache, Found(k, d, v), map[]))
  {
  }

  /** The versions mt_commit returns name the new balances, whoever wrote them back. */
  lemma CommittedBalance(sh: Shared, t: Txid, versions: map<Key, Option<nat>>, all: seq<Key>, k: Key)
    requires OutcomeInv(sh, TxCommitted(t, versions)) && PlanOk(sh, sh.plan[t], all) && IsPutVersion(sh.plan[t], versions, k)
    ensures IsBalance(sh, k, versions[k].value, Value(Some(sh.plan[t][k].data)))
  {
    assert VersionTrue(sh, t, k, sh.plan[t][k], versions[k]);
    assert PutOk(sh, k, sh.plan[t][k]);
  }

  lemma RememberCommitted(sh: Shared, cache: Cache, t: Txid, versions: map<Key, Option<nat>>, all: seq<Key>)
    requires CacheTrue(sh, cache) && OutcomeInv(sh, TxCommitted(t, versions)) && PlanOk(sh, sh.plan[t], all)
    ensures CacheTrue(sh, Remember(cache, TxCommitted(t, versions), sh.plan[t]))
  {
    var r := Remember(cache, TxCommitted(t, versions), sh.plan[t]);
    forall k | k in r ensures IsBalance(sh, k, r[k].1, r[k].0) {
      if IsPutVersion(sh.plan[t], versions, k) {
        CommittedBalance(sh, t, versions, all, k);
      } else {
        assert IsBalance(sh, k, cache[k].1, cache[k].0);
      }
    }
  }

  lemma CachesKept(b: BankWorld, all: seq<Key>, l: BankLabel)
    requires BankInv(b, all) && CanDo(b, l, all)
    requires var w' := Do(b.w, AsLabel(l));
             Inv(w') && Evolves(b.w.sh, w'.sh, l.c) && forall t | t in w'.sh.plan :: PlanOk(w'.sh, w'.sh.plan[t], all)
    ensures CacheTrue(Do(b.w, AsLabel(l)).sh, CacheAfter(b, l, all))
  {
    var cl := b.w.clients[l.c];
    var w' := Do(b.w, AsLabel(l));
    CacheStable(b.w.sh, w'.sh, l.c, b.caches[l.c]);
    if l.Go? && w'.clients[l.c].Idle? {
      assert ClientInv(b.w.sh, l.c, cl) && ClientInv(w'.sh, l.c, w'.clients[l.c]);
      ReturnKept(b.w.sh, w'.sh, l.c, cl, w'.clients[l.c].outcome, b.caches[l.c], l.choice, all);
    }
  }

  lemma ReturnKept(sh: Shared, sh': Shared, c: ClientId, cl: Client, o: Outcome, cache: Cache, ch: Choice, all: seq<Key>)
    requires cl.Busy? && Coherent(cl) && TaskInv(sh, c, cl.task) && Step(sh, cl, ch) == (sh', Idle(o))
    requires OutcomeInv(sh', o) && CacheTrue(sh', cache)
    requires forall t | t in sh'.plan :: PlanOk(sh', sh'.plan[t], all)
    ensures CacheTrue(sh', Remember(cache, o, if cl.task.Committing? then cl.task.mt else map[]))
  {
    match o {
      case Found(k, d, v) => RememberFound(sh', cache, k, d, v);
      case TxCommitted(t, versions) =>
        CommitReturnsOwn(sh, cl, ch);
        TaskStays(sh, cl, ch);
        RememberCommitted(sh', cache, t, versions, all);
      case _ =>
    }
  }

  lemma CommitReturnsOwn(sh: Shared, cl: Client, ch: Choice)
    requires cl.Busy? && Coherent(cl)
    requires Step(sh, cl, ch).1.Idle? && Step(sh, cl, ch).1.outcome.TxCommitted?
    ensures cl.task.Committing? && Step(sh, cl, ch).1.outcome.txid == cl.task.txid
  {
  }

  lemma TasksKept(b: BankWorld, all: seq<Key>, l: BankLabel)
    requires BankInv(b, all) && CanDo(b, l, all)
    ensures var w' := Do(b.w, AsLabel(l));
            forall c | c in w'.clients && w'.clients[c].Busy? :: BankTask(w'.clients[c].task)
  {
    if l.Go? {
      TaskKind(b.w.sh, b.w.clients[l.c], l.choice);
    }
  }

  lemma TaskKind(sh: Shared, cl: Client, ch: Choice)
    requires cl.Busy? && Coherent(cl) && BankTask(cl.task)
    ensures Step(sh, cl, ch).1.Busy? ==> BankTask(Step(sh, cl, ch).1.task)
  {
  }

  lemma OtherCaches(sh: Shared, sh': Shared, c: ClientId, caches: map<ClientId, Cache>, caches': map<ClientId, Cache>)
    requires c in caches' && caches' == caches[c := caches'[c]] && CacheTrue(sh', caches'[c])
    requires Evolves(sh, sh', c) && forall d | d in caches :: CacheTrue(sh, caches[d])
    ensures forall d | d in caches' :: CacheTrue(sh', caches'[d])
  {
    forall d | d in caches ensures CacheTrue(sh', caches[d]) {
      CacheStable(sh, sh', c, caches[d]);
    }
  }

  lemma NextCaches(b: BankWorld, l: BankLabel, all: seq<Key>)
    requires BankInv(b, all) && CanDo(b, l, all)
    ensures var b' := BankDo(b, l, all); forall c | c in b'.caches :: CacheTrue(b'.w.sh, b'.caches[c])
  {
    InvKept(b.w, AsLabel(l));
    PlansKept(b, all, l);
    CachesKept(b, all, l);
    OtherCaches(b.w.sh, Do(b.w, AsLabel(l)).sh, l.c, b.caches, BankDo(b, l, all).caches);
  }

  lemma BankInvKept(b: BankWorld, l: BankLabel, all: seq<Key>)
    requires BankInv(b, all) && CanDo(b, l, all)
    ensures BankInv(BankDo(b, l, all), all)
  {
    InvKept(b.w, AsLabel(l));
    assert KeepsObjects(AsLabel(l));
    NoDeletesKept(b.w, AsLabel(l));
    PlansKept(b, all, l);
    MasksKept(b, all, l);
    TotalKept(b, all, AsLabel(l));
    TasksKept(b, all, l);
    NextCaches(b, l, all);
  }

  lemma {:induction false} TotalZero(sh: Shared, all: seq<Key>)
    requires forall k | k in all :: Value(Logical(sh, k)) == 0
    ensures Total(sh, all) == 0
  {
    if all != [] {
      TotalZero(sh, all[1..]);
    }
  }

  lemma BankStarts(b: BankWorld, all: seq<Key>)
    requires BankInit(b, all)
    ensures BankInv(b, all)
  {
    InvInit(b.w);
    RoundTrip(0);
    forall k | k in all ensures Logical(b.w.sh, k) == Some(Render(0)) {
      assert Obj(b.w.sh, k) == b.w.sh.objs[k];
    }
    TotalZero(b.w.sh, all);
  }

  /** A run of the bank. */
  ghost predicate BankRun(bs: seq<BankWorld>, ls: seq<BankLabel>, all: seq<Key>, n: nat)
    requires |bs| == |ls| + 1 && n <= |ls|
  {
    if n == 0 then BankInit(bs[0], all)
    else BankRun(bs, ls, all, n - 1) && CanDo(bs[n - 1], ls[n - 1], all) && bs[n] == BankDo(bs[n - 1], ls[n - 1], all)
  }

  /** Conservation: in every reachable state of the bank, with any number of processes,
    * crashes and half-done transfers, the logical sum over all accounts is zero, and what
    * every process has cached is the true balance at the cached version.
    */
  lemma {:induction false} BankConserves(bs: seq<BankWorld>, ls: seq<BankLabel>, all: seq<Key>, n: nat)
    requires |bs| == |ls| + 1 && n <= |ls| && BankRun(bs, ls, all, n)
    ensures BankInv(bs[n], all)
    ensures Total(bs[n].w.sh, all) == 0
    ensures forall c | c in bs[n].caches :: CacheTrue(bs[n].w.sh, bs[n].caches[c])
  {
    if n == 0 {
      BankStarts(bs[0], all);
    } else {
      BankConserves(bs, ls, all, n - 1);
      BankInvKept(bs[n - 1], ls[n - 1], all);
    }
  }
}
