/** Every step of a busy client keeps the invariant, one program point at a time. */
module Steps {
  import opened RamCloud
  import opened Protocol
  import opened Invariant
  import opened Preservation

  /** Client c may go from sh to sh', becoming cl'. */
  ghost predicate Kept(sh: Shared, c: ClientId, next: (Shared, Client)) {
    SharedInv(next.0) && Evolves(sh, next.0, c) && ClientInv(next.0, c, next.1)
  }

  ghost predicate At(sh: Shared, c: ClientId, task: Task, pc: Pc) {
    SharedInv(sh) && ClientInv(sh, c, Busy(task, pc))
  }

  // ---------- returning from unmasking and write-back ----------

  lemma {:induction false} NewVersionsOf(mt: MiniTransaction, objects: seq<Key>, masked: seq<nat>)
    requires |objects| == |masked| && forall k :: k in objects ==> k in mt
    requires forall i, j | 0 <= i < j < |objects| :: objects[i] != objects[j]
    ensures forall k :: k in NewVersions(mt, objects, masked) <==> k in objects
    ensures forall j | 0 <= j < |objects| :: NewVersions(mt, objects, masked)[objects[j]] == NewVersion(mt[objects[j]], masked[j])
  {
    if objects != [] {
      NewVersionsOf(mt, objects[1..], masked[1..]);
      assert objects == [objects[0]] + objects[1..];
      forall j | 0 < j < |objects|
        ensures NewVersions(mt, objects, masked)[objects[j]] == NewVersion(mt[objects[j]], masked[j])
      {
        assert objects[1..][j - 1] == objects[j] && masked[1..][j - 1] == masked[j];
      }
    }
  }

  /** When nothing is masked by t any more, the versions mt_commit computes are true. */
  lemma CommitReturns(sh: Shared, c: ClientId, task: Task)
    requires SharedInv(sh) && TaskOk(task) && TaskInv(sh, c, task)
    requires task.Committing? && task.phase.Committed? && Unmasked(sh, task.txid)
    ensures OutcomeInv(sh, TxCommitted(task.txid, NewVersions(task.mt, task.objects, task.masked)))
  {
    var t, mt, objects, masked := task.txid, task.mt, task.objects, task.masked;
    NewVersionsOf(mt, objects, masked);
    forall j | 0 <= j < |objects|
      ensures VersionTrue(sh, t, objects[j], mt[objects[j]], NewVersion(mt[objects[j]], masked[j]))
    {
      OneVersion(sh, objects[j], masked[j], t);
    }
  }

  lemma OneVersion(sh: Shared, k: Key, v: nat, t: Txid)
    requires SharedInv(sh) && WasMasked(sh, k, v, t) && IsCommitted(sh, t) && !MaskedBy(sh, k, t)
    ensures t in sh.plan && k in sh.plan[t] && VersionTrue(sh, t, k, sh.plan[t][k], NewVersion(sh.plan[t][k], v))
  {
    MaskLeft(sh, k, v, t);
  }

  /** A mask of a committed transaction that is no longer on has been written back. */
  lemma MaskLeft(sh: Shared, k: Key, v: nat, t: Txid)
    requires SharedInv(sh) && WasMasked(sh, k, v, t) && IsCommitted(sh, t) && !MaskedBy(sh, k, t)
    ensures t in sh.plan && k in sh.plan[t]
    ensures var d := Effect(sh.plan[t][k], Obj(sh, k).log[v - 1].under);
            d.Some? ==> WasClean(sh, k, v + 1, d.value)
  {
    assert IsMask(sh, k, v - 1);
    assert TxOk(sh, t);
  }

  lemma HelpReturns(sh: Shared, c: ClientId, task: Task)
    requires SharedInv(sh) && TaskOk(task) && TaskInv(sh, c, task) && Routed(task)
    requires task.Committing? && !task.phase.Masking? ==> Unmasked(sh, task.txid)
    requires task.Committing? && task.phase.Masking? ==> AtClean(task)
    ensures ClientInv(sh, c, AfterHelp(task))
  {
    if task.Committing? && task.phase.Committed? {
      CommitReturns(sh, c, task);
    }
  }

  lemma UnmaskStarts(sh: Shared, c: ClientId, task: Task, t: Txid, todo: seq<Key>)
    requires SharedInv(sh) && TaskOk(task) && TaskInv(sh, c, task) && Routed(task)
    requires HelpOk(task, t, true) && Rollbackable(sh, t) && RollingBack(sh, task, t, todo)
    requires task.Committing? && task.phase.Masking? ==> AtClean(task)
    ensures ClientInv(sh, c, StartUnmask(task, t, todo))
  {
    if todo == [] {
      HelpReturns(sh, c, task);
    }
  }

  lemma ApplyStarts(sh: Shared, c: ClientId, task: Task, t: Txid, mt: MiniTransaction, todo: seq<Key>)
    requires SharedInv(sh) && TaskOk(task) && TaskInv(sh, c, task) && Routed(task)
    requires HelpOk(task, t, false) && Finishing(sh, t, mt, todo)
    ensures ClientInv(sh, c, StartApply(task, t, mt, todo, 1))
  {
    if todo != [] { assert todo[0] in todo; }
  }

  lemma RaiseKept(sh: Shared, c: ClientId, task: Task, key: Key, e: Error, order: seq<Key>)
    requires SharedInv(sh) && TaskOk(task) && TaskInv(sh, c, task)
    requires task.Committing? && task.phase.Masking? ==> OnlyOn(sh, task.txid, order)
    ensures Kept(sh, c, Raise(sh, task, key, e, order))
  {
    if task.Committing? && task.phase.Masking? {
      var t := task.txid;
      CloseChange(sh, c, t);
      assert TxOk(sh, t);
      UnmaskStarts(Close(sh, t), c, task.(phase := Failing(key, e)), t, order);
    }
  }

  /** The order in which a coordinator takes its masks off when it gives up leaves out none. */
  lemma OrderCovers(sh: Shared, c: ClientId, task: Task, pc: Pc, order: seq<Key>)
    requires SharedInv(sh) && TaskOk(task) && TaskInv(sh, c, task) && Lists(order, Iterated(sh, Busy(task, pc)))
    requires pc.ReadObject? || pc.DeleteIntent?
    ensures task.Committing? && task.phase.Masking? ==> OnlyOn(sh, task.txid, order)
  {
    if task.Committing? && task.phase.Masking? {
      forall k | MaskedBy(sh, k, task.txid) ensures k in order {
        assert IsMask(sh, k, |Obj(sh, k).log| - 1);
        assert k in Iterated(sh, Busy(task, pc));
      }
    }
  }

  // ---------- the program points ----------

  lemma MissingKept(sh: Shared, c: ClientId, task: Task, ch: Choice)
    requires At(sh, c, task, ReadObject) && Lists(ch.order, Iterated(sh, Busy(task, ReadObject)))
    ensures Kept(sh, c, Missing(sh, task, ch))
  {
    OrderCovers(sh, c, task, ReadObject, ch.order);
    RaiseKept(sh, c, task, KeyOf(task), NoObject, ch.order);
    Unchanged(sh, c);
  }

  lemma ReadObjectKept(sh: Shared, c: ClientId, task: Task, ch: Choice)
    requires At(sh, c, task, ReadObject) && Lists(ch.order, Iterated(sh, Busy(task, ReadObject)))
    ensures Kept(sh, c, DoReadObject(sh, task, ch))
  {
    OrderCovers(sh, c, task, ReadObject, ch.order);
    var k := KeyOf(task);
    var cell := Obj(sh, k);
    match Check(cell, RawReadRules(RulesOf(task)))
    case Some(e) =>
      if e == NoObject { MissingKept(sh, c, task, ch); } else { RaiseKept(sh, c, task, k, e, ch.order); }
    case None =>
      FoundKept(sh, c, task, ch);
  }

  lemma FoundKept(sh: Shared, c: ClientId, task: Task, ch: Choice)
    requires At(sh, c, task, ReadObject) && Check(Obj(sh, KeyOf(task)), RawReadRules(RulesOf(task))).None?
    requires task.Committing? && task.phase.Masking? ==> OnlyOn(sh, task.txid, ch.order)
    ensures Kept(sh, c, DoReadObject(sh, task, ch))
  {
    if Top(Obj(sh, KeyOf(task))).Clean? && RulesOf(task).objectExists {
      RaiseKept(sh, c, task, KeyOf(task), ObjectExists, ch.order);
    } else {
      GoesOn(sh, c, task, ch);
    }
  }

  lemma GoesOn(sh: Shared, c: ClientId, task: Task, ch: Choice)
    requires At(sh, c, task, ReadObject) && Check(Obj(sh, KeyOf(task)), RawReadRules(RulesOf(task))).None?
    requires Top(Obj(sh, KeyOf(task))).Clean? ==> !RulesOf(task).objectExists
    ensures Kept(sh, c, DoReadObject(sh, task, ch))
  {
    Unchanged(sh, c);
    if Top(Obj(sh, KeyOf(task))).Masked? {
      assert IsMask(sh, KeyOf(task), |Obj(sh, KeyOf(task)).log| - 1);
    }
  }

  lemma DirectKept(sh: Shared, c: ClientId, task: Task)
    requires At(sh, c, task, Direct)
    ensures Kept(sh, c, DoDirect(sh, task))
  {
    if Check(Obj(sh, task.key), task.rr).None? {
      PlainChange(sh, c, task.key, if task.Writing? then Some(task.data) else None);
    }
  }

  lemma ActKept(sh: Shared, c: ClientId, task: Task, found: Option<(Data, nat)>)
    requires At(sh, c, task, Act(found))
    ensures Kept(sh, c, DoAct(sh, task, found))
  {
    if task.Committing? {
      MaskKept(sh, c, task, found);
    } else {
      SingleActKept(sh, c, task, found);
    }
  }

  lemma SingleActKept(sh: Shared, c: ClientId, task: Task, found: Option<(Data, nat)>)
    requires At(sh, c, task, Act(found)) && !task.Committing?
    ensures Kept(sh, c, DoAct(sh, task, found))
  {
    if found.Some? { ExactlyIsExact(Obj(sh, task.key), found.value.1); }
    if DoAct(sh, task, found).0 == sh {
      Unchanged(sh, c);
    } else {
      PlainChange(sh, c, task.key, if task.Deleting? then None else Some(task.data));
    }
  }

  lemma MaskKept(sh: Shared, c: ClientId, task: Task, found: Option<(Data, nat)>)
    requires At(sh, c, task, Act(found)) && task.Committing?
    ensures Kept(sh, c, DoAct(sh, task, found))
  {
    var cell := Obj(sh, KeyOf(task));
    if Check(cell, if found.Some? then Exactly(found.value.1) else MUST_BE_ABSENT).None? {
      MaskPassed(sh, task, found);
      var (sh', cl') := DoAct(sh, task, found);
      var task' := task.(masked := task.masked + [|cell.log| + 1]);
      MaskSucceeds(sh, sh', c, task, task', if found.Some? then Some(found.value.0) else None);
      MaskNext(sh', c, task');
    } else {
      Unchanged(sh, c);
      MaskRefused(sh, task, found);
    }
  }

  /** The write of a mask that went through has met the object that was read, or none. */
  lemma MaskPassed(sh: Shared, task: Task, found: Option<(Data, nat)>)
    requires AtAct(task, found) && task.Committing? && PcInv(sh, task, Act(found))
    requires Check(Obj(sh, KeyOf(task)), if found.Some? then Exactly(found.value.1) else MUST_BE_ABSENT).None?
    ensures var k := KeyOf(task);
            var cell, under := Obj(sh, k), if found.Some? then Some(found.value.0) else None;
            && Free(sh, k)
            && (if found.Some? then
                  cell.present && Top(cell) == Clean(found.value.0) && Accepts(RulesOf(task), |cell.log|)
                else !RulesOf(task).objectDoesntExist)
            && DoAct(sh, task, found) == (SetObj(sh, k, Cell(cell.log + [Masked(task.txid, under)], true)),
                                          NextMask(task.(masked := task.masked + [|cell.log| + 1])))
  {
    if found.Some? { ExactlyIsExact(Obj(sh, KeyOf(task)), found.value.1); }
  }

  lemma MaskRefused(sh: Shared, task: Task, found: Option<(Data, nat)>)
    requires AtAct(task, found) && task.Committing?
    requires Check(Obj(sh, KeyOf(task)), if found.Some? then Exactly(found.value.1) else MUST_BE_ABSENT).Some?
    ensures DoAct(sh, task, found) == (sh, Busy(task, ReadObject))
  {
  }

  lemma MaskNext(sh: Shared, c: ClientId, task: Task)
    requires TaskInv(sh, c, task) && TaskOk(task) && task.Committing? && task.phase.Masking?
    ensures ClientInv(sh, c, NextMask(task))
  {
  }

  lemma MaskSucceeds(sh: Shared, sh': Shared, c: ClientId, task: Task, task': Task, under: Option<Data>)
    requires SharedInv(sh) && TaskInv(sh, c, task) && AtClean(task) && task.Committing?
    requires Free(sh, KeyOf(task))
    requires under.None? ==> !RulesOf(task).objectDoesntExist
    requires under.Some? ==>
               var cell := Obj(sh, KeyOf(task));
               cell.present && Top(cell) == Clean(under.value) && Accepts(RulesOf(task), |cell.log|)
    requires sh' == SetObj(sh, KeyOf(task), Cell(Obj(sh, KeyOf(task)).log + [Masked(task.txid, under)], true))
    requires task' == task.(masked := task.masked + [|Obj(sh, KeyOf(task)).log| + 1])
    ensures SharedInv(sh') && Evolves(sh, sh', c) && TaskInv(sh', c, task')
  {
    var k := KeyOf(task);
    forall i | IsMask(sh, k, i) ensures Obj(sh, k).log[i].txid != task.txid {
      assert k !in task.objects[..|task.masked|];
    }
    MaskChange(sh, c, k, task.txid, under);
    MaskCounts(sh, sh', c, task, task', under);
  }

  /** The coordinator's own books after one more mask. */
  lemma MaskCounts(sh: Shared, sh': Shared, c: ClientId, task: Task, task': Task, under: Option<Data>)
    requires TaskInv(sh, c, task) && AtClean(task) && task.Committing?
    requires sh' == SetObj(sh, KeyOf(task), Cell(Obj(sh, KeyOf(task)).log + [Masked(task.txid, under)], true))
    requires task' == task.(masked := task.masked + [|Obj(sh, KeyOf(task)).log| + 1])
    ensures TaskInv(sh', c, task')
  {
    var k := KeyOf(task);
    var n := |task.masked|;
    forall j | 0 <= j <= n ensures WasMasked(sh', task.objects[j], task'.masked[j], task.txid) {
      assert j < n ==> WasMasked(sh, task.objects[j], task.masked[j], task.txid);
    }
    assert task.objects[..n + 1] == task.objects[..n] + [k];
    forall l, i | IsMask(sh', l, i) && Obj(sh', l).log[i].txid == task.txid ensures l in task.objects[..n + 1] {
      assert l != k ==> IsMask(sh, l, i);
    }
  }

  lemma ReadTxKept(sh: Shared, c: ClientId, task: Task, t: Txid, ch: Choice)
    requires At(sh, c, task, ReadTx(t))
    requires Lists(ch.order, Iterated(sh, Busy(task, ReadTx(t))))
    ensures Kept(sh, c, DoReadTx(sh, task, t, ch))
  {
    assert TxOk(sh, t);
    if IsCommitted(sh, t) {
      IntentOutlivesMasks(sh, t);
      CommittedMasks(sh, t);
      if Tx(sh, t).present && |Tx(sh, t).log| == 1 {
        ApplyStarts(sh, c, task, t, sh.plan[t], ch.order);
      }
    }
  }

  lemma CommittedMasks(sh: Shared, t: Txid)
    requires SharedInv(sh) && IsCommitted(sh, t)
    ensures t in sh.plan && forall k | MaskedBy(sh, k, t) :: k in sh.plan[t]
  {
    assert TxOk(sh, t);
    forall k | MaskedBy(sh, k, t) ensures k in sh.plan[t] {
      assert IsMask(sh, k, |Obj(sh, k).log| - 1);
    }
  }

  lemma PutTombstoneKept(sh: Shared, c: ClientId, task: Task, t: Txid)
    requires At(sh, c, task, PutTombstone(t))
    ensures Kept(sh, c, DoPutTombstone(sh, task, t))
  {
    if !Tx(sh, t).present {
      TombstoneChange(sh, c, t);
    }
  }

  lemma UnmaskReadKept(sh: Shared, c: ClientId, task: Task, t: Txid, todo: seq<Key>)
    requires At(sh, c, task, UnmaskRead(t, todo))
    ensures Kept(sh, c, DoUnmaskRead(sh, task, t, todo))
  {
    Unchanged(sh, c);
    if MaskedBy(sh, todo[0], t) {
      UnmasksNext(sh, c, task, t, todo);
    } else {
      OneLessMask(sh, t, todo);
      UnmaskStarts(sh, c, task, t, todo[1..]);
    }
  }

  lemma UnmasksNext(sh: Shared, c: ClientId, task: Task, t: Txid, todo: seq<Key>)
    requires At(sh, c, task, UnmaskRead(t, todo)) && MaskedBy(sh, todo[0], t)
    ensures DoUnmaskRead(sh, task, t, todo).0 == sh && ClientInv(sh, c, DoUnmaskRead(sh, task, t, todo).1)
  {
  }

  lemma OneLessMask(sh: Shared, t: Txid, todo: seq<Key>)
    requires todo != [] && !MaskedBy(sh, todo[0], t)
    ensures OnlyOn(sh, t, todo) ==> OnlyOn(sh, t, todo[1..])
  {
    assert todo == [todo[0]] + todo[1..];
  }

  /** A mask of t that a client may roll back is not the mask of a committed transaction. */
  lemma RollbackFate(sh: Shared, k: Key, t: Txid)
    requires SharedInv(sh) && Rollbackable(sh, t) && MaskedBy(sh, k, t)
    ensures !IsCommitted(sh, t) && (t in sh.open ==> IsAborted(sh, t))
  {
  }

  lemma Unmasking(sh: Shared, c: ClientId, task: Task, t: Txid, k: Key, v: nat, under: Option<Data>)
    requires SharedInv(sh) && TaskInv(sh, c, task) && Rollbackable(sh, t) && WasUnder(sh, k, v, t, under)
    requires Replace(sh, k, NotAfter(v), under).0.Ok?
    ensures var sh' := Replace(sh, k, NotAfter(v), under).1;
            SharedInv(sh') && Evolves(sh, sh', c) && TaskInv(sh', c, task) && Rollbackable(sh', t)
  {
    var cell := Obj(sh, k);
    ExactlyIsExact(cell, v);
    if cell.present {
      RollbackFate(sh, k, t);
      ReleaseChange(sh, c, k, t);
    } else {
      PlainChange(sh, c, k, under);
    }
    HelperEvolves(sh, Replace(sh, k, NotAfter(v), under).1, c, task, t);
  }

  lemma UnmaskWriteKept(sh: Shared, c: ClientId, task: Task, t: Txid, todo: seq<Key>, v: nat, under: Option<Data>)
    requires At(sh, c, task, UnmaskWrite(t, todo, v, under))
    ensures Kept(sh, c, DoUnmaskWrite(sh, task, t, todo, v, under))
  {
    var (r, sh') := Replace(sh, todo[0], NotAfter(v), under);
    if r.Ok? {
      Unmasking(sh, c, task, t, todo[0], v, under);
      NoNewMasksUnmasking(sh, todo[0], v, under, t, todo);
      OneLessMask(sh', t, todo);
      UnmaskStarts(sh', c, task, t, todo[1..]);
    } else {
      Unchanged(sh, c);
    }
  }

  lemma NoNewMasksUnmasking(sh: Shared, k: Key, v: nat, under: Option<Data>, t: Txid, todo: seq<Key>)
    requires Replace(sh, k, NotAfter(v), under).0.Ok?
    ensures var sh' := Replace(sh, k, NotAfter(v), under).1;
            !MaskedBy(sh', k, t) && (OnlyOn(sh, t, todo) ==> OnlyOn(sh', t, todo))
  {
  }

  /** Helping leaves the helper's own task as it was. */
  lemma HelperEvolves(sh: Shared, sh': Shared, c: ClientId, task: Task, t: Txid)
    requires SharedInv(sh) && SharedInv(sh') && Evolves(sh, sh', c) && TaskInv(sh, c, task)
    requires sh'.plan == sh.plan && sh'.open == sh.open && sh'.txs == sh.txs
    requires forall k, i | IsMask(sh', k, i) :: IsMask(sh, k, i)
    ensures TaskInv(sh', c, task)
    ensures Rollbackable(sh, t) ==> Rollbackable(sh', t)
  {
  }

  lemma ApplyReadKept(sh: Shared, c: ClientId, task: Task, t: Txid, mt: MiniTransaction, todo: seq<Key>, iv: nat)
    requires At(sh, c, task, ApplyRead(t, mt, todo, iv))
    ensures Kept(sh, c, DoApplyRead(sh, task, t, mt, todo, iv))
  {
    Unchanged(sh, c);
    if MaskedBy(sh, todo[0], t) {
      AppliesNext(sh, c, task, t, mt, todo, iv);
    } else {
      OneLessToDo(sh, t, mt, todo);
      ApplyStarts(sh, c, task, t, mt, todo[1..]);
    }
  }

  lemma AppliesNext(sh: Shared, c: ClientId, task: Task, t: Txid, mt: MiniTransaction, todo: seq<Key>, iv: nat)
    requires At(sh, c, task, ApplyRead(t, mt, todo, iv)) && MaskedBy(sh, todo[0], t)
    ensures DoApplyRead(sh, task, t, mt, todo, iv).0 == sh && ClientInv(sh, c, DoApplyRead(sh, task, t, mt, todo, iv).1)
  {
  }

  lemma OneLessToDo(sh: Shared, t: Txid, mt: MiniTransaction, todo: seq<Key>)
    requires Finishing(sh, t, mt, todo) && todo != [] && !MaskedBy(sh, todo[0], t)
    ensures Finishing(sh, t, mt, todo[1..])
  {
    assert todo == [todo[0]] + todo[1..];
  }

  lemma ApplyWriteKept(sh: Shared, c: ClientId, task: Task, t: Txid, mt: MiniTransaction, todo: seq<Key>, iv: nat, v: nat, under: Option<Data>)
    requires At(sh, c, task, ApplyWrite(t, mt, todo, iv, v, under))
    ensures Kept(sh, c, DoApplyWrite(sh, task, t, mt, todo, iv, v, under))
  {
    var k := todo[0];
    var cell := Obj(sh, k);
    ExactlyIsExact(cell, v);
    var sh' := Replace(sh, k, Exactly(v), Effect(mt[k], under)).1;
    if cell.present && |cell.log| == v {
      WriteBack(sh, c, task, t, mt, todo);
    } else {
      Unchanged(sh, c);
      MaskedOnce(sh, k, v, t);
      OneLessToDo(sh, t, mt, todo);
    }
    ApplyStarts(sh', c, task, t, mt, todo[1..]);
  }

  lemma WriteBack(sh: Shared, c: ClientId, task: Task, t: Txid, mt: MiniTransaction, todo: seq<Key>)
    requires SharedInv(sh) && TaskOk(task) && TaskInv(sh, c, task) && Finishing(sh, t, mt, todo)
    requires todo != [] && MaskedBy(sh, todo[0], t)
    ensures var k := todo[0];
            var sh' := SetObj(sh, k, Become(Obj(sh, k), Effect(mt[k], Top(Obj(sh, k)).under)));
            SharedInv(sh') && Evolves(sh, sh', c) && TaskInv(sh', c, task) && Finishing(sh', t, mt, todo[1..])
  {
    var k := todo[0];
    assert TxOk(sh, t);
    assert todo == [k] + todo[1..];
    ReleaseChange(sh, c, k, t);
    HelperEvolves(sh, SetObj(sh, k, Become(Obj(sh, k), Effect(mt[k], Top(Obj(sh, k)).under))), c, task, t);
  }

  /** An old mask of t cannot be on again. */
  lemma MaskedOnce(sh: Shared, k: Key, v: nat, t: Txid)
    requires SharedInv(sh) && WasMasked(sh, k, v, t)
    requires Gone(sh, k, v - 1)
    ensures !MaskedBy(sh, k, t)
  {
    assert OneMaskEach(sh, k);
    assert IsMask(sh, k, v - 1);
    assert MaskedBy(sh, k, t) ==> IsMask(sh, k, |Obj(sh, k).log| - 1);
  }

  lemma DeleteIntentKept(sh: Shared, c: ClientId, task: Task, t: Txid, iv: nat, ch: Choice)
    requires At(sh, c, task, DeleteIntent(t, iv)) && Lists(ch.order, Iterated(sh, Busy(task, DeleteIntent(t, iv))))
    ensures Kept(sh, c, DoDeleteIntent(sh, task, t, iv, ch))
  {
    OrderCovers(sh, c, task, DeleteIntent(t, iv), ch.order);
    if Check(Tx(sh, t), NotAfter(iv)).None? {
      IntentDeleted(sh, c, task, t, iv);
    } else {
      RaiseKept(sh, c, task, Key(0, 0), Inconsistent, ch.order);
    }
  }

  lemma IntentDeleted(sh: Shared, c: ClientId, task: Task, t: Txid, iv: nat)
    requires At(sh, c, task, DeleteIntent(t, iv))
    ensures Kept(sh, c, (SetTx(sh, t, Cell(Tx(sh, t).log, false)), AfterHelp(task)))
  {
    TxDeleteChange(sh, c, t);
    var sh' := SetTx(sh, t, Cell(Tx(sh, t).log, false));
    assert TaskInv(sh', c, task);
    HelpReturns(sh', c, task);
  }

  lemma IntentWritten(sh: Shared, c: ClientId, task: Task, ch: Choice)
    requires At(sh, c, task, PutIntent) && !Tx(sh, task.txid).present
    requires Lists(ch.order, task.mt.Keys)
    ensures var t, task' := task.txid, task.(phase := Committed);
            var sh' := Close(SetTx(sh, t, Cell(Tx(sh, t).log + [Intent(task.mt)], true)), t);
            && |Tx(sh', t).log| == 1 && SharedInv(sh') && Evolves(sh, sh', c)
            && TaskOk(task') && TaskInv(sh', c, task') && Finishing(sh', t, task.mt, ch.order)
  {
    var t := task.txid;
    CommitChange(sh, c, t);
    CommittedMasks(Close(SetTx(sh, t, Cell(Tx(sh, t).log + [Intent(task.mt)], true)), t), t);
  }

  lemma PutIntentKept(sh: Shared, c: ClientId, task: Task, ch: Choice)
    requires At(sh, c, task, PutIntent)
    requires Lists(ch.order, Iterated(sh, Busy(task, PutIntent)))
    ensures Kept(sh, c, DoPutIntent(sh, task, ch))
  {
    var t := task.txid;
    if !Tx(sh, t).present {
      IntentWritten(sh, c, task, ch);
      var sh' := Close(SetTx(sh, t, Cell(Tx(sh, t).log + [Intent(task.mt)], true)), t);
      ApplyStarts(sh', c, task.(phase := Committed), t, task.mt, ch.order);
    } else {
      IntentRefused(sh, c, task);
    }
  }

  lemma IntentRefused(sh: Shared, c: ClientId, task: Task)
    requires At(sh, c, task, PutIntent) && Tx(sh, task.txid).present
    ensures Kept(sh, c, (Close(sh, task.txid), StartUnmask(task.(phase := Expired), task.txid, task.objects)))
  {
    var t := task.txid;
    assert TxOk(sh, t);
    CloseChange(sh, c, t);
    OwnMasks(sh, c, task);
    UnmaskStarts(Close(sh, t), c, task.(phase := Expired), t, task.objects);
  }

  lemma OwnMasks(sh: Shared, c: ClientId, task: Task)
    requires TaskInv(sh, c, task) && task.Committing? && task.phase.Masking?
    ensures OnlyOn(Close(sh, task.txid), task.txid, task.objects)
  {
    forall k | MaskedBy(Close(sh, task.txid), k, task.txid) ensures k in task.objects {
      assert IsMask(sh, k, |Obj(sh, k).log| - 1);
    }
  }

  lemma DeleteTombstoneKept(sh: Shared, c: ClientId, task: Task)
    requires At(sh, c, task, DeleteTombstone)
    ensures Kept(sh, c, DoDeleteTombstone(sh, task))
  {
    TxDeleteChange(sh, c, task.txid);
  }

  lemma StepKept(sh: Shared, c: ClientId, cl: Client, ch: Choice)
    requires SharedInv(sh) && ClientInv(sh, c, cl) && cl.Busy? && Coherent(cl)
    requires Lists(ch.order, Iterated(sh, cl))
    ensures Kept(sh, c, Step(sh, cl, ch))
  {
    var task := cl.task;
    match cl.pc
    case Direct => DirectKept(sh, c, task);
    case ReadObject => ReadObjectKept(sh, c, task, ch);
    case Act(found) => ActKept(sh, c, task, found);
    case ReadTx(t) => ReadTxKept(sh, c, task, t, ch);
    case PutTombstone(t) => PutTombstoneKept(sh, c, task, t);
    case UnmaskRead(t, todo) => UnmaskReadKept(sh, c, task, t, todo);
    case UnmaskWrite(t, todo, v, under) => UnmaskWriteKept(sh, c, task, t, todo, v, under);
    case ApplyRead(t, mt, todo, iv) => ApplyReadKept(sh, c, task, t, mt, todo, iv);
    case ApplyWrite(t, mt, todo, iv, v, under) => ApplyWriteKept(sh, c, task, t, mt, todo, iv, v, under);
    case DeleteIntent(t, iv) => DeleteIntentKept(sh, c, task, t, iv, ch);
    case PutIntent => PutIntentKept(sh, c, task, ch);
    case DeleteTombstone => DeleteTombstoneKept(sh, c, task);
  }

  /** Only the operations on objects that some reject rule guards change objects. */
  lemma SameObjects(sh: Shared, cl: Client, ch: Choice)
    requires cl.Busy? && Coherent(cl)
    requires !cl.pc.Direct? && !cl.pc.Act? && !cl.pc.UnmaskWrite? && !cl.pc.ApplyWrite?
    ensures Step(sh, cl, ch).0.objs == sh.objs
    ensures forall k :: Obj(Step(sh, cl, ch).0, k) == Obj(sh, k)
  {
  }

  // ---------- whole worlds ----------

  lemma BeginCommit(sh: Shared, sh': Shared, c: ClientId, request: Request)
    requires SharedInv(sh) && request.AskCommit? && RequestOk(sh, request)
    requires sh' == sh.(plan := sh.plan[request.txid := request.mt], open := sh.open[request.txid := c])
    ensures Evolves(sh, sh', c) && ClientInv(sh', c, Start(request))
  {
    forall k, i | IsMask(sh', k, i) ensures Obj(sh', k).log[i].txid != request.txid {
      assert IsMask(sh, k, i) && MaskOk(sh, k, i);
    }
  }

  lemma BeginKept(w: World, c: ClientId, request: Request)
    requires Inv(w) && Enabled(w, Begin(c, request))
    ensures var w' := Do(w, Begin(c, request));
            Kept(w.sh, c, (w'.sh, w'.clients[c]))
  {
    var w' := Do(w, Begin(c, request));
    if request.AskCommit? {
      forall t ensures TxOk(w'.sh, t) { assert TxOk(w.sh, t); }
      forall k, i | IsMask(w'.sh, k, i) ensures MaskOk(w'.sh, k, i) {
        assert IsMask(w.sh, k, i) && MaskOk(w.sh, k, i);
      }
      KeepsOneMaskEach(w.sh, w'.sh);
      BeginCommit(w.sh, w'.sh, c, request);
    } else {
      Unchanged(w.sh, c);
    }
  }

  lemma AbandonKept(w: World, c: ClientId)
    requires Inv(w) && Enabled(w, Abandon(c))
    ensures var w' := Do(w, Abandon(c));
            Kept(w.sh, c, (w'.sh, w'.clients[c]))
  {
    var task := w.clients[c].task;
    if task.Committing? {
      CloseChange(w.sh, c, task.txid);
    }
  }

  lemma InvKept(w: World, l: Label)
    requires Inv(w) && Enabled(w, l)
    ensures Inv(Do(w, l)) && Evolves(w.sh, Do(w, l).sh, l.c)
  {
    var w' := Do(w, l);
    match l {
      case Begin(c, request) => BeginKept(w, c, request);
      case Run(c, ch) => StepKept(w.sh, c, w.clients[c], ch);
      case Abandon(c) => AbandonKept(w, c);
    }
    forall d | d in w'.clients ensures ClientInv(w'.sh, d, w'.clients[d]) {
      if d != l.c {
        assert ClientInv(w.sh, d, w.clients[d]);
        match w.clients[d] {
          case Idle(o) => OutcomeStable(w.sh, w'.sh, l.c, o);
          case Busy(task, pc) =>
            TaskStable(w.sh, w'.sh, l.c, d, task);
            PcStable(w.sh, w'.sh, l.c, d, task, pc);
        }
      }
    }
  }

  lemma InvInit(w: World)
    requires Init(w)
    ensures Inv(w)
  {
  }

  /** Every state of every run, with any number of clients, satisfies the invariant. */
  lemma {:induction false} Reachable(r: Trace, n: nat)
    requires IsTrace(r) && n < |r.worlds|
    ensures Inv(r.worlds[n])
  {
    if n == 0 {
      InvInit(r.worlds[0]);
    } else {
      Reachable(r, n - 1);
      StepAt(r, n - 1, |r.labels|);
      InvKept(r.worlds[n - 1], r.labels[n - 1]);
    }
  }
}
