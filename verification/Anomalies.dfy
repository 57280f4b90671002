/** Where the code does less than its documentation promises, and exactly when. */
module Anomalies {
  import opened RamCloud
  import opened Protocol
  import opened Invariant
  import opened Preservation
  import opened Steps
  import opened Refinement

  // ---------- unmasking can bring a deleted object back ----------

  /** Unmasking changes the logical store exactly when the object it read as masked, with
    * data, has meanwhile been unmasked and deleted by others: its write is only rejected
    * for a newer object, not for a missing one.
    */
  lemma UnmaskRevivesExactlyWhenGone(sh: Shared, c: ClientId, task: Task, t: Txid, todo: seq<Key>, v: nat, under: Option<Data>, ch: Choice)
    requires At(sh, c, task, UnmaskWrite(t, todo, v, under))
    ensures ViewOf(DoUnmaskWrite(sh, task, t, todo, v, under).0) != ViewOf(sh) <==>
            !Obj(sh, todo[0]).present && under.Some?
  {
    UnmaskShows(sh, c, task, t, todo, v, under, ch);
    if !Obj(sh, todo[0]).present && under.Some? {
      assert todo[0] !in ViewOf(sh);
    }
  }

  // ---------- an object that does not exist can be in the way ----------

  /** k carries a mask under which there is nothing and, if the mask's transaction is committed, will be
    * nothing: it removes k, or only checks an object that does not exist.
    */
  ghost predicate HidesNothing(sh: Shared, k: Key) {
    && Obj(sh, k).present && Top(Obj(sh, k)).Masked?
    && var t, under := Top(Obj(sh, k)).txid, Top(Obj(sh, k)).under;
       if !IsCommitted(sh, t) then under.None?
       else k in Tx(sh, t).log[0].mt && match Tx(sh, t).log[0].mt[k] case Touch(_) => under.None? case Put(_, _) => false case Remove(_) => true
  }

  lemma HiddenIsAbsent(sh: Shared, k: Key)
    requires SharedInv(sh)
    ensures HidesNothing(sh, k) <==> Obj(sh, k).present && Logical(sh, k) == None
  {
    if Obj(sh, k).present && Top(Obj(sh, k)).Masked? {
      var t := Top(Obj(sh, k)).txid;
      assert IsMask(sh, k, |Obj(sh, k).log| - 1) && TxOk(sh, t);
    }
  }

  /** What an operation that is passed on directly meets: a mask is never at the version that its caller
    * has seen clean.
    */
  lemma DirectRefused(sh: Shared, task: Task)
    requires (task.Writing? || task.Deleting?) && PcInv(sh, task, Direct)
    requires Obj(sh, task.key).present && Top(Obj(sh, task.key)).Masked?
    ensures DoDirect(sh, task).1 == Idle(Failed(if task.rr.objectExists then ObjectExists else WrongVersion))
  {
  }

  /** A write or delete passed on directly finds no object and does not ask for one: it is refused all
    * the same exactly when a mask hides that there is none.
    */
  lemma AbsentRefusedDirectly(sh: Shared, task: Task)
    requires SharedInv(sh) && (task.Writing? || task.Deleting?) && PcInv(sh, task, Direct)
    requires Logical(sh, task.key) == None && !task.rr.objectDoesntExist
    ensures DoDirect(sh, task).1.outcome.Failed? <==> HidesNothing(sh, task.key)
  {
    HiddenIsAbsent(sh, task.key);
  }

  /** The client has been refused, or has an error to report once it has unmasked its objects. */
  ghost predicate GaveUp(cl: Client) {
    match cl
    case Idle(o) => o.Failed? || o.TxRejected?
    case Busy(task, _) => task.Committing? && task.phase.Failing?
  }

  /** The same for an operation that reads its object first, single or of a transaction: a mask must hide
    * that there is no object, and the number that the mask took must violate the version rules.
    */
  lemma AbsentRefusedAtRead(sh: Shared, task: Task, ch: Choice)
    requires SharedInv(sh) && AtClean(task) && !task.Reading? && !task.Updating?
    requires Logical(sh, KeyOf(task)) == None && !RulesOf(task).objectDoesntExist
    ensures GaveUp(DoReadObject(sh, task, ch).1) <==>
            HidesNothing(sh, KeyOf(task)) && Violates(Obj(sh, KeyOf(task)), RulesOf(task), WrongVersion)
  {
    HiddenIsAbsent(sh, KeyOf(task));
  }

  /** The operation of the client has a mask over no object in its way. A client whose own rules keep it
    * off masked objects is always refused; one that reads first, only for the version of the mask.
    */
  ghost predicate Blocked(sh: Shared, cl: Client)
    requires cl.Busy? && Coherent(cl)
  {
    match cl.pc
    case Direct => HidesNothing(sh, cl.task.key)
    case ReadObject => HidesNothing(sh, KeyOf(cl.task)) && Violates(Obj(sh, KeyOf(cl.task)), RulesOf(cl.task), WrongVersion)
    case _ => false
  }

  /** An operation of any kind is refused because of what an object is that does not exist exactly when
    * a mask over no object is in its way.
    */
  lemma MisledExactlyWhenHidden(w: World, l: Label)
    requires Inv(w) && Enabled(w, l)
    ensures EventOf(w, l).Misled? <==> l.Run? && Blocked(w.sh, w.clients[l.c])
  {
    if l.Run? {
      var cl := w.clients[l.c];
      assert ClientInv(w.sh, l.c, cl);
      if cl.pc.Direct? {
        DirectMisled(w.sh, cl, l.choice);
      } else if cl.pc.ReadObject? {
        ReadMisled(w.sh, cl, l.choice);
      } else if cl.pc.Act? && !cl.task.Committing? {
        ActRefuses(w.sh, cl.task, cl.pc.found);
      }
    }
  }

  lemma DirectMisled(sh: Shared, cl: Client, ch: Choice)
    requires SharedInv(sh) && cl.Busy? && Coherent(cl) && cl.pc.Direct? && PcInv(sh, cl.task, Direct)
    ensures StepEvent(sh, cl, ch).Misled? <==> HidesNothing(sh, cl.task.key)
  {
    HiddenIsAbsent(sh, cl.task.key);
    if Obj(sh, cl.task.key).present && Top(Obj(sh, cl.task.key)).Masked? {
      DirectRefused(sh, cl.task);
    }
  }

  lemma ReadMisled(sh: Shared, cl: Client, ch: Choice)
    requires SharedInv(sh) && cl.Busy? && Coherent(cl) && cl.pc.ReadObject?
    ensures StepEvent(sh, cl, ch).Misled? <==>
            HidesNothing(sh, KeyOf(cl.task)) && Violates(Obj(sh, KeyOf(cl.task)), RulesOf(cl.task), WrongVersion)
  {
    HiddenIsAbsent(sh, KeyOf(cl.task));
  }

  lemma ActRefuses(sh: Shared, task: Task, found: Option<(Data, nat)>)
    requires AtAct(task, found) && !task.Committing?
    ensures DoAct(sh, task, found).1.Idle? && DoAct(sh, task, found).1.outcome.Failed? ==>
            DoAct(sh, task, found).1.outcome.error == NoObject
  {
  }

  // ---------- a mask takes a version ----------

  /** Version v + 1 is the last one and masks what version v was. */
  ghost predicate MaskOver(sh: Shared, k: Key, v: nat)
    requires SeenClean(sh, k, v) && v > 0
  {
    var c := Obj(sh, k);
    c.present && |c.log| == v + 1 && Top(c).Masked? && Top(c).under == Some(c.log[v - 1].data)
  }

  /** A caller has seen version v of an object, and now there is a newer one, so the version is refused.
    * That is for the sake of a mask alone, with no newer data anywhere, exactly when the mask was put
    * right over v; and then the object is still what the caller saw unless the mask's transaction commits.
    */
  lemma NewerForMaskOnly(sh: Shared, k: Key, v: nat)
    requires SharedInv(sh) && SeenClean(sh, k, v) && v > 0 && Obj(sh, k).present && |Obj(sh, k).log| > v
    ensures var c := Obj(sh, k);
            (forall i | v <= i < |c.log| :: c.log[i].Masked? && c.log[i].under.Some?) <==> MaskOver(sh, k, v)
    ensures MaskOver(sh, k, v) && !IsCommitted(sh, Top(Obj(sh, k)).txid) ==> Logical(sh, k) == Some(Obj(sh, k).log[v - 1].data)
  {
    var i := |Obj(sh, k).log| - 1;
    if Top(Obj(sh, k)).Masked? {
      assert IsMask(sh, k, i) && MaskOk(sh, k, i);
    }
  }

  // ---------- without deletes ----------

  /** Nobody deletes: neither on their own nor in a transaction. */
  ghost predicate KeepsObjects(l: Label) {
    l.Begin? ==>
      && !l.request.AskDelete?
      && (l.request.AskCommit? ==> forall k | k in l.request.mt :: !l.request.mt[k].Remove?)
  }

  ghost predicate HasData(x: Content) {
    x.Clean? || x.under.Some?
  }

  /** An object that ever had data still has. */
  ghost predicate DataLasts(sh: Shared) {
    forall k, i | 0 <= i < |Obj(sh, k).log| && HasData(Obj(sh, k).log[i]) :: Obj(sh, k).present && HasData(Top(Obj(sh, k)))
  }

  ghost predicate NoDeletes(w: World) {
    && DataLasts(w.sh)
    && (forall t, k | t in w.sh.plan && k in w.sh.plan[t] :: !w.sh.plan[t][k].Remove?)
    && (forall c | c in w.clients && w.clients[c].Busy? :: !w.clients[c].task.Deleting?)
  }

  /** One object becomes `cell`; it keeps its data if it had any. */
  lemma DataLastsSet(sh: Shared, k: Key, cell: Cell<Content>)
    requires DataLasts(sh)
    requires Obj(sh, k).present && HasData(Top(Obj(sh, k))) ==> cell.present && HasData(Top(cell))
    requires cell.log == Obj(sh, k).log || (cell.present && cell.log == Obj(sh, k).log + [Top(cell)])
    ensures DataLasts(SetObj(sh, k, cell))
  {
    var sh' := SetObj(sh, k, cell);
    forall l, i | 0 <= i < |Obj(sh', l).log| && HasData(Obj(sh', l).log[i])
      ensures Obj(sh', l).present && HasData(Top(Obj(sh', l)))
    {
      if i < |Obj(sh, l).log| {
        assert HasData(Obj(sh, l).log[i]);
      }
    }
  }

  lemma DataLastsReplace(sh: Shared, k: Key, rr: RejectRules, d: Option<Data>)
    requires DataLasts(sh)
    requires d.None? && Check(Obj(sh, k), rr).None? && Obj(sh, k).present ==> !HasData(Top(Obj(sh, k)))
    ensures DataLasts(Replace(sh, k, rr, d).1)
  {
    if Check(Obj(sh, k), rr).None? {
      DataLastsSet(sh, k, Become(Obj(sh, k), d));
    }
  }

  lemma DataLastsAct(sh: Shared, task: Task, found: Option<(Data, nat)>)
    requires AtAct(task, found) && !task.Deleting? && DataLasts(sh)
    ensures DataLasts(DoAct(sh, task, found).0)
  {
    var sh' := DoAct(sh, task, found).0;
    if sh' != sh {
      DataLastsSet(sh, KeyOf(task), Obj(sh', KeyOf(task)));
    }
  }

  lemma DataLastsStep(sh: Shared, c: ClientId, cl: Client, ch: Choice)
    requires SharedInv(sh) && ClientInv(sh, c, cl) && cl.Busy? && !cl.task.Deleting? && DataLasts(sh)
    requires forall t, k | t in sh.plan && k in sh.plan[t] :: !sh.plan[t][k].Remove?
    ensures DataLasts(Step(sh, cl, ch).0)
  {
    match cl.pc
    case UnmaskWrite(t, todo, v, under) =>
      ExactlyIsExact(Obj(sh, todo[0]), v);
      DataLastsReplace(sh, todo[0], NotAfter(v), under);
    case ApplyWrite(t, mt, todo, iv, v, under) =>
      ExactlyIsExact(Obj(sh, todo[0]), v);
      assert mt == sh.plan[t] && !sh.plan[t][todo[0]].Remove?;
      DataLastsReplace(sh, todo[0], Exactly(v), Effect(mt[todo[0]], under));
    case Direct =>
      var sh' := DoDirect(sh, cl.task).0;
      if sh' != sh { DataLastsSet(sh, cl.task.key, Obj(sh', cl.task.key)); }
    case Act(found) => DataLastsAct(sh, cl.task, found);
    case _ => SameObjects(sh, cl, ch);
  }

  lemma TaskStays(sh: Shared, cl: Client, ch: Choice)
    requires cl.Busy? && Coherent(cl)
    ensures Step(sh, cl, ch).0.plan == sh.plan
    ensures Step(sh, cl, ch).1.Busy? ==> (Step(sh, cl, ch).1.task.Deleting? ==> cl.task.Deleting?)
  {
    match cl.pc
    case Act(found) => ActStays(sh, cl.task, found);
    case ReadObject => ReadStays(sh, cl.task, ch);
    case _ =>
  }

  lemma ActStays(sh: Shared, task: Task, found: Option<(Data, nat)>)
    requires AtAct(task, found)
    ensures DoAct(sh, task, found).0.plan == sh.plan
    ensures DoAct(sh, task, found).1.Busy? ==> (DoAct(sh, task, found).1.task.Deleting? ==> task.Deleting?)
  {
  }

  lemma ReadStays(sh: Shared, task: Task, ch: Choice)
    requires AtClean(task)
    ensures DoReadObject(sh, task, ch).0.plan == sh.plan
    ensures DoReadObject(sh, task, ch).1.Busy? ==> (DoReadObject(sh, task, ch).1.task.Deleting? ==> task.Deleting?)
  {
  }

  lemma NoDeletesKept(w: World, l: Label)
    requires Inv(w) && NoDeletes(w) && Enabled(w, l) && KeepsObjects(l)
    ensures NoDeletes(Do(w, l))
  {
    match l {
      case Run(c, ch) =>
        assert ClientInv(w.sh, c, w.clients[c]);
        DataLastsStep(w.sh, c, w.clients[c], ch);
        TaskStays(w.sh, w.clients[c], ch);
      case Begin(_, _) =>
        forall k ensures Obj(Do(w, l).sh, k) == Obj(w.sh, k) {
        }
      case Abandon(_) =>
        forall k ensures Obj(Do(w, l).sh, k) == Obj(w.sh, k) {
        }
    }
  }

  lemma {:induction false} NoDeletesReachable(r: Trace, n: nat)
    requires IsTrace(r) && n < |r.worlds| && NoDeletes(r.worlds[0])
    requires forall i | 0 <= i < n :: KeepsObjects(r.labels[i])
    ensures NoDeletes(r.worlds[n])
  {
    if n > 0 {
      NoDeletesReachable(r, n - 1);
      Reachable(r, n - 1);
      StepAt(r, n - 1, |r.labels|);
      NoDeletesKept(r.worlds[n - 1], r.labels[n - 1]);
    }
  }

  /** In a run without deletes nothing is ever revived: together with `RunRefines`, every
    * mask, unmask, tombstone, write-back and clean-up is then invisible.
    */
  lemma NothingRevivedWithoutDeletes(r: Trace, n: nat)
    requires IsTrace(r) && n < |r.labels| && NoDeletes(r.worlds[0])
    requires forall i | 0 <= i < n :: KeepsObjects(r.labels[i])
    ensures Enabled(r.worlds[n], r.labels[n]) && !EventOf(r.worlds[n], r.labels[n]).Revived?
  {
    NoDeletesReachable(r, n);
    Reachable(r, n);
    StepAt(r, n, |r.labels|);
    var w, l := r.worlds[n], r.labels[n];
    if l.Run? && w.clients[l.c].pc.UnmaskWrite? {
      var pc := w.clients[l.c].pc;
      assert ClientInv(w.sh, l.c, w.clients[l.c]);
      assert WasUnder(w.sh, pc.todo[0], pc.version, pc.txid, pc.under);
      assert pc.under.Some? ==> HasData(Obj(w.sh, pc.todo[0]).log[pc.version - 1]);
    }
  }
}
