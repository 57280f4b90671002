/** What the protocol guarantees over whole runs. */
module Theorems {
  import opened RamCloud
  import opened Protocol
  import opened Invariant
  import opened Preservation
  import opened Steps
  import opened Refinement

  // ---------- facts that stay ----------

  /** t will never commit. */
  ghost predicate Dead(sh: Shared, t: Txid) {
    !IsCommitted(sh, t) && (IsAborted(sh, t) || (t in sh.plan && t !in sh.open))
  }

  /** t is over and has no mask anywhere. */
  ghost predicate Finished(sh: Shared, t: Txid) {
    t in sh.plan && t !in sh.open && Unmasked(sh, t)
  }

  lemma FateStep(sh: Shared, sh': Shared, c: ClientId, t: Txid)
    requires Evolves(sh, sh', c) && TxOk(sh, t) && TxOk(sh', t) && sh.open.Keys <= sh.plan.Keys
    ensures IsCommitted(sh, t) ==> IsCommitted(sh', t)
    ensures Dead(sh, t) ==> Dead(sh', t)
    ensures Finished(sh, t) ==> Finished(sh', t)
  {
    assert Tx(sh, t).log <= Tx(sh', t).log;
  }

  lemma FateTraceStep(r: Trace, n: nat, t: Txid)
    requires IsTrace(r) && n < |r.labels|
    ensures IsCommitted(r.worlds[n].sh, t) ==> IsCommitted(r.worlds[n + 1].sh, t)
    ensures Dead(r.worlds[n].sh, t) ==> Dead(r.worlds[n + 1].sh, t)
    ensures Finished(r.worlds[n].sh, t) ==> Finished(r.worlds[n + 1].sh, t)
  {
    TraceStep(r, n);
    FateStep(r.worlds[n].sh, r.worlds[n + 1].sh, r.labels[n].c, t);
  }

  lemma {:induction false} FateStays(r: Trace, m: nat, n: nat, t: Txid)
    requires IsTrace(r) && m <= n < |r.worlds|
    ensures IsCommitted(r.worlds[m].sh, t) ==> IsCommitted(r.worlds[n].sh, t)
    ensures Dead(r.worlds[m].sh, t) ==> Dead(r.worlds[n].sh, t)
    ensures Finished(r.worlds[m].sh, t) ==> Finished(r.worlds[n].sh, t)
  {
    if m < n {
      FateStays(r, m, n - 1, t);
      FateTraceStep(r, n - 1, t);
    }
  }

  lemma TraceStep(r: Trace, n: nat)
    requires IsTrace(r) && n < |r.labels|
    ensures SharedInv(r.worlds[n].sh) && SharedInv(r.worlds[n + 1].sh)
    ensures Evolves(r.worlds[n].sh, r.worlds[n + 1].sh, r.labels[n].c)
  {
    Reachable(r, n);
    StepAt(r, n, |r.labels|);
    InvKept(r.worlds[n], r.labels[n]);
  }

  // ---------- all or nothing ----------

  /** The step takes t's mask off k, applying t's operation to it. */
  ghost predicate WritesBack(w: World, l: Label, t: Txid, k: Key) {
    && Enabled(w, l) && l.Run? && w.clients[l.c].pc.ApplyWrite? && w.clients[l.c].pc.txid == t
    && MaskedBy(w.sh, k, t) && !MaskedBy(Do(w, l).sh, k, t)
  }

  /** The step takes t's mask off k, putting back what was under it. */
  ghost predicate RollsBack(w: World, l: Label, t: Txid, k: Key) {
    && Enabled(w, l) && l.Run? && w.clients[l.c].pc.UnmaskWrite? && w.clients[l.c].pc.txid == t
    && MaskedBy(w.sh, k, t) && !MaskedBy(Do(w, l).sh, k, t)
  }

  lemma OthersKeepTheirs(sh: Shared, c: ClientId, cl: Client, ch: Choice, t: Txid, k: Key)
    requires SharedInv(sh) && ClientInv(sh, c, cl) && cl.Busy? && (cl.pc.UnmaskWrite? || cl.pc.ApplyWrite?)
    requires MaskedBy(sh, k, t) && Obj(Step(sh, cl, ch).0, k) != Obj(sh, k)
    ensures cl.pc.txid == t
    ensures if cl.pc.ApplyWrite? then IsCommitted(sh, t) else Dead(sh, t)
  {
    ExactlyIsExact(Obj(sh, k), cl.pc.version);
    if cl.pc.UnmaskWrite? {
      RollbackFate(sh, k, t);
    }
  }

  /** A mask only ever comes off by a write-back, of a committed transaction, or by a
    * rollback, of one that will never commit.
    */
  lemma OnlyTwoWaysOff(w: World, l: Label, t: Txid, k: Key)
    requires Inv(w) && Enabled(w, l) && MaskedBy(w.sh, k, t) && !MaskedBy(Do(w, l).sh, k, t)
    ensures (WritesBack(w, l, t, k) && IsCommitted(w.sh, t)) || (RollsBack(w, l, t, k) && Dead(w.sh, t))
  {
    if l.Run? {
      var cl := w.clients[l.c];
      assert ClientInv(w.sh, l.c, cl);
      if cl.pc.Direct? || cl.pc.Act? {
        UserStepsRespectMasks(w, l, k, t);
      } else if cl.pc.UnmaskWrite? || cl.pc.ApplyWrite? {
        OthersKeepTheirs(w.sh, l.c, cl, l.choice, t, k);
      } else {
        SameObjects(w.sh, cl, l.choice);
      }
    }
  }

  /** In one run, one transaction never has one object written back and another (or the
    * same one) rolled back, however many stale helpers race and whoever deletes what from
    * the transaction table.
    */
  lemma AllOrNothing(r: Trace, i: nat, j: nat, t: Txid, k: Key, l: Key)
    requires IsTrace(r) && i < |r.labels| && j < |r.labels|
    requires WritesBack(r.worlds[i], r.labels[i], t, k)
    ensures !RollsBack(r.worlds[j], r.labels[j], t, l)
  {
    Reachable(r, i);
    Reachable(r, j);
    OnlyTwoWaysOff(r.worlds[i], r.labels[i], t, k);
    if RollsBack(r.worlds[j], r.labels[j], t, l) {
      OnlyTwoWaysOff(r.worlds[j], r.labels[j], t, l);
      if i <= j { FateStays(r, i, j, t); } else { FateStays(r, j, i, t); }
      assert false;
    }
  }

  // ---------- finishing and outcomes ----------

  /** Whenever any client is about to delete an intent, no object is masked by that
    * transaction, and none ever will be again.
    */
  lemma FinishedBeforeDelete(r: Trace, m: nat, n: nat, c: ClientId, k: Key)
    requires IsTrace(r) && m <= n < |r.worlds|
    requires c in r.worlds[m].clients && r.worlds[m].clients[c].Busy? && r.worlds[m].clients[c].pc.DeleteIntent?
    ensures !MaskedBy(r.worlds[n].sh, k, r.worlds[m].clients[c].pc.txid)
  {
    Reachable(r, m);
    assert ClientInv(r.worlds[m].sh, c, r.worlds[m].clients[c]);
    FateStays(r, m, n, r.worlds[m].clients[c].pc.txid);
  }

  /** So it is when a coordinator is about to delete the tombstone that made it give up. */
  lemma RolledBackBeforeDelete(r: Trace, m: nat, n: nat, c: ClientId, k: Key)
    requires IsTrace(r) && m <= n < |r.worlds|
    requires c in r.worlds[m].clients && r.worlds[m].clients[c].Busy? && r.worlds[m].clients[c].pc.DeleteTombstone?
    ensures r.worlds[m].clients[c].task.Committing? && !MaskedBy(r.worlds[n].sh, k, r.worlds[m].clients[c].task.txid)
  {
    Reachable(r, m);
    assert ClientInv(r.worlds[m].sh, c, r.worlds[m].clients[c]);
    FateStays(r, m, n, r.worlds[m].clients[c].task.txid);
  }

  /** Whatever a coordinator returns with, inconsistencies included, it leaves no mask behind. */
  lemma NoMaskLeftBehind(r: Trace, m: nat, n: nat, c: ClientId, k: Key)
    requires IsTrace(r) && m < n < |r.worlds| && r.labels[m].Run? && r.labels[m].c == c
    requires c in r.worlds[m].clients && r.worlds[m].clients[c].Busy? && r.worlds[m].clients[c].task.Committing?
    requires c in r.worlds[m + 1].clients && r.worlds[m + 1].clients[c].Idle?
    ensures !MaskedBy(r.worlds[n].sh, k, r.worlds[m].clients[c].task.txid)
  {
    Reachable(r, m);
    StepAt(r, m, |r.labels|);
    var w, l := r.worlds[m], r.labels[m];
    var cl := w.clients[c];
    assert ClientInv(w.sh, c, cl);
    ReturnUnmasked(w.sh, c, cl, l.choice);
    FateStays(r, m + 1, n, cl.task.txid);
  }

  lemma ReturnUnmasked(sh: Shared, c: ClientId, cl: Client, ch: Choice)
    requires SharedInv(sh) && ClientInv(sh, c, cl) && cl.Busy? && Coherent(cl) && cl.task.Committing?
    requires Lists(ch.order, Iterated(sh, cl)) && Step(sh, cl, ch).1.Idle?
    ensures Finished(Step(sh, cl, ch).0, cl.task.txid)
  {
    StepKept(sh, c, cl, ch);
    CommitReports(sh, cl, ch);
    if Step(sh, cl, ch).1.outcome == Failed(Inconsistent) {
      if cl.pc.DeleteIntent? {
        DeleteReturns(sh, c, cl.task, cl.pc.txid, cl.pc.intentVersion, ch);
      } else {
        UnmaskReturns(sh, c, cl, ch);
      }
    }
  }

  lemma DeleteReturns(sh: Shared, c: ClientId, task: Task, t: Txid, iv: nat, ch: Choice)
    requires At(sh, c, task, DeleteIntent(t, iv)) && task.Committing?
    requires Lists(ch.order, Iterated(sh, Busy(task, DeleteIntent(t, iv))))
    requires DoDeleteIntent(sh, task, t, iv, ch).1 == Idle(Failed(Inconsistent))
    ensures Finished(DoDeleteIntent(sh, task, t, iv, ch).0, task.txid)
  {
    OrderCovers(sh, c, task, DeleteIntent(t, iv), ch.order);
    if task.phase.Masking? {
      assert ch.order == [] && OnlyOn(Close(sh, task.txid), task.txid, []);
    }
  }

  lemma UnmaskReturns(sh: Shared, c: ClientId, cl: Client, ch: Choice)
    requires SharedInv(sh) && ClientInv(sh, c, cl) && cl.Busy? && Coherent(cl) && cl.task.Committing?
    requires !cl.pc.DeleteIntent? && Step(sh, cl, ch).1 == Idle(Failed(Inconsistent))
    ensures Finished(Step(sh, cl, ch).0, cl.task.txid)
  {
    FailsUnmasking(sh, cl, ch);
    if cl.pc.UnmaskRead? {
      LastRead(sh, cl.task, cl.pc.txid, cl.pc.todo);
    } else {
      LastWrite(sh, cl.task, cl.pc.txid, cl.pc.todo, cl.pc.version, cl.pc.under);
    }
  }

  lemma FailsUnmasking(sh: Shared, cl: Client, ch: Choice)
    requires cl.Busy? && Coherent(cl) && cl.task.Committing? && PcInv(sh, cl.task, cl.pc)
    requires !cl.pc.DeleteIntent? && Step(sh, cl, ch).1 == Idle(Failed(Inconsistent))
    ensures !cl.task.phase.Masking? && (cl.pc.UnmaskRead? || cl.pc.UnmaskWrite?)
  {
  }

  lemma LastRead(sh: Shared, task: Task, t: Txid, todo: seq<Key>)
    requires TaskOk(task) && todo != [] && OnlyOn(sh, t, todo) && DoUnmaskRead(sh, task, t, todo).1.Idle?
    ensures DoUnmaskRead(sh, task, t, todo).0 == sh && Unmasked(sh, t)
  {
    assert todo == [todo[0]];
  }

  lemma LastWrite(sh: Shared, task: Task, t: Txid, todo: seq<Key>, v: nat, under: Option<Data>)
    requires TaskOk(task) && todo != [] && OnlyOn(sh, t, todo) && DoUnmaskWrite(sh, task, t, todo, v, under).1.Idle?
    ensures var sh' := DoUnmaskWrite(sh, task, t, todo, v, under).0;
            sh'.plan == sh.plan && sh'.open == sh.open && Unmasked(sh', t)
  {
    assert todo == [todo[0]];
    NoNewMasksUnmasking(sh, todo[0], v, under, t, todo);
  }

  /** Deleting the intent is refused, and mt_commit or a helper raises an inconsistency,
    * exactly when a late tombstone has taken the place of the intent.
    */
  lemma DeleteRefusedByLateTombstone(sh: Shared, c: ClientId, task: Task, t: Txid, iv: nat, ch: Choice)
    requires At(sh, c, task, DeleteIntent(t, iv))
    ensures Delete(Tx(sh, t), NotAfter(iv)).0.Err? <==> Tx(sh, t).present && Top(Tx(sh, t)).Tombstone?
    ensures FindsInconsistency(DoDeleteIntent(sh, task, t, iv, ch).1) <==> Tx(sh, t).present && Top(Tx(sh, t)).Tombstone?
  {
    assert TxOk(sh, t);
  }

  /** The client returns the error, or will when it has taken its masks off. */
  ghost predicate FindsInconsistency(cl: Client) {
    match cl
    case Idle(o) => o == Failed(Inconsistent)
    case Busy(task, _) => task.Committing? && task.phase.Failing? && task.phase.error == Inconsistent
  }

  /** A client told that its transaction was rejected or expired can rely on it never
    * taking effect; one told that it committed, on it having taken effect. In any case no
    * object is masked by it any more.
    */
  lemma OutcomesAreFinal(r: Trace, m: nat, n: nat, c: ClientId)
    requires IsTrace(r) && m <= n < |r.worlds| && c in r.worlds[m].clients && r.worlds[m].clients[c].Idle?
    ensures match r.worlds[m].clients[c].outcome
            case TxRejected(t, _, _) => !IsCommitted(r.worlds[n].sh, t) && Finished(r.worlds[n].sh, t)
            case TxExpired(t) => !IsCommitted(r.worlds[n].sh, t) && Finished(r.worlds[n].sh, t)
            case TxCommitted(t, _) => IsCommitted(r.worlds[n].sh, t) && Finished(r.worlds[n].sh, t)
            case _ => true
  {
    Reachable(r, m);
    assert ClientInv(r.worlds[m].sh, c, r.worlds[m].clients[c]);
    match r.worlds[m].clients[c].outcome {
      case TxRejected(t, _, _) => FateStays(r, m, n, t);
      case TxExpired(t) => FateStays(r, m, n, t);
      case TxCommitted(t, _) => FateStays(r, m, n, t);
      case _ =>
    }
  }

  /** Versions handed to callers by reads, writes and commits name clean objects with the
    * data that was read or written, for good; the exception is the version a commit
    * reports for a Touch of an object that did not exist.
    */
  lemma ReportedVersionsAreTrue(r: Trace, m: nat, n: nat, c: ClientId, k: Key)
    requires IsTrace(r) && m <= n < |r.worlds| && c in r.worlds[m].clients && r.worlds[m].clients[c].Idle?
    ensures var sh := r.worlds[n].sh;
            match r.worlds[m].clients[c].outcome
            case Found(l, d, v) => WasClean(sh, l, v, d)
            case Wrote(l, d, v) => WasClean(sh, l, v, d)
            case TxCommitted(t, versions) =>
              k in versions ==> t in sh.plan && k in sh.plan[t] && VersionTrue(sh, t, k, sh.plan[t][k], versions[k])
            case _ => true
  {
    Reachable(r, m);
    assert ClientInv(r.worlds[m].sh, c, r.worlds[m].clients[c]);
    OutcomeInvStays(r, m, n, r.worlds[m].clients[c].outcome);
  }

  lemma OutcomeTraceStep(r: Trace, n: nat, o: Outcome)
    requires IsTrace(r) && n < |r.labels| && OutcomeInv(r.worlds[n].sh, o)
    ensures OutcomeInv(r.worlds[n + 1].sh, o)
  {
    TraceStep(r, n);
    OutcomeStable(r.worlds[n].sh, r.worlds[n + 1].sh, r.labels[n].c, o);
  }

  lemma {:induction false} OutcomeInvStays(r: Trace, m: nat, n: nat, o: Outcome)
    requires IsTrace(r) && m <= n < |r.worlds| && OutcomeInv(r.worlds[m].sh, o)
    ensures OutcomeInv(r.worlds[n].sh, o)
  {
    if m < n {
      OutcomeInvStays(r, m, n - 1, o);
      OutcomeTraceStep(r, n - 1, o);
    }
  }

  // ---------- no deadlock ----------

  /** Coordinator c is still masking, and its next object is masked by d's transaction. */
  ghost predicate WaitsFor(w: World, c: ClientId, d: ClientId) {
    && IsMasking(w, c) && IsMasking(w, d)
    && MaskedBy(w.sh, KeyOf(w.clients[c].task), w.clients[d].task.txid)
  }

  ghost predicate IsMasking(w: World, c: ClientId) {
    c in w.clients && w.clients[c].Busy? && w.clients[c].task.Committing? && AtClean(w.clients[c].task)
  }

  lemma WaitsUpwards(w: World, c: ClientId, d: ClientId)
    requires Inv(w) && WaitsFor(w, c, d)
    ensures Before(KeyOf(w.clients[c].task), KeyOf(w.clients[d].task))
  {
    var k := KeyOf(w.clients[c].task);
    var task := w.clients[d].task;
    assert ClientInv(w.sh, d, w.clients[d]);
    assert IsMask(w.sh, k, |Obj(w.sh, k).log| - 1);
    assert k in task.objects[..|task.masked|];
  }

  /** A chain of coordinators, each waiting for the next. */
  ghost predicate WaitChain(w: World, cs: seq<ClientId>) {
    |cs| >= 2 && forall i | 0 <= i < |cs| - 1 :: WaitsFor(w, cs[i], cs[i + 1])
  }

  lemma {:induction false} ChainClimbs(w: World, cs: seq<ClientId>)
    requires Inv(w) && WaitChain(w, cs)
    ensures IsMasking(w, cs[0]) && IsMasking(w, cs[|cs| - 1])
    ensures Before(KeyOf(w.clients[cs[0]].task), KeyOf(w.clients[cs[|cs| - 1]].task))
  {
    var n := |cs| - 1;
    assert WaitsFor(w, cs[n - 1], cs[n]);
    WaitsUpwards(w, cs[n - 1], cs[n]);
    if n >= 2 {
      forall i | 0 <= i < n - 1 ensures WaitsFor(w, cs[..n][i], cs[..n][i + 1]) {
        assert WaitsFor(w, cs[i], cs[i + 1]);
      }
      ChainClimbs(w, cs[..n]);
    }
  }

  /** Deadlock freedom: in no reachable state do coordinators wait for each other in a
    * circle.
    */
  lemma NoDeadlock(r: Trace, n: nat, cs: seq<ClientId>)
    requires IsTrace(r) && n < |r.worlds| && WaitChain(r.worlds[n], cs)
    ensures cs[0] != cs[|cs| - 1]
  {
    Reachable(r, n);
    ChainClimbs(r.worlds[n], cs);
  }

  // ---------- nobody gets stuck ----------

  lemma {:induction false} InsertSorted(ks: seq<Key>, k: Key) returns (ls: seq<Key>)
    requires Sorted(ks) && k !in ks
    ensures Sorted(ls) && (forall x :: x in ls <==> x == k || x in ks)
  {
    if ks == [] {
      ls := [k];
    } else if Before(k, ks[0]) {
      ls := [k] + ks;
    } else {
      var rest := InsertSorted(ks[1..], k);
      ls := [ks[0]] + rest;
      forall x | x in rest ensures Before(ks[0], x) {
      }
    }
  }

  /** Every set of keys can be put in order. */
  lemma {:induction false} SortedListing(keys: set<Key>) returns (ks: seq<Key>)
    ensures Sorted(ks) && Lists(ks, keys)
  {
    if keys == {} {
      ks := [];
    } else {
      var k :| k in keys;
      var rest := SortedListing(keys - {k});
      ks := InsertSorted(rest, k);
    }
  }

  /** In a reachable state every busy client can take its next step, and every transaction
    * can be begun by an idle one under any fresh txid.
    */
  lemma NeverStuck(w: World, c: ClientId, expired: bool, t: Txid, mt: MiniTransaction)
    requires Inv(w) && c in w.clients
    ensures w.clients[c].Busy? ==> exists order :: Enabled(w, Run(c, Choice(expired, order)))
    ensures w.clients[c].Idle? && t != 0 && t !in w.sh.plan ==> exists objects :: Enabled(w, Begin(c, AskCommit(t, mt, objects)))
  {
    assert ClientInv(w.sh, c, w.clients[c]);
    var order := SortedListing(Iterated(w.sh, w.clients[c]));
    assert w.clients[c].Busy? ==> Enabled(w, Run(c, Choice(expired, order)));
    var objects := SortedListing(mt.Keys);
    assert w.clients[c].Idle? && t != 0 && t !in w.sh.plan ==> Enabled(w, Begin(c, AskCommit(t, mt, objects)));
  }
}
