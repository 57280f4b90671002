/** What users see: a plain store without masks, in which a transaction happens at once.
  * Every step of the protocol is one event of that store, most of them none at all.
  */
module Refinement {
  import opened RamCloud
  import opened Protocol
  import opened Invariant
  import opened Preservation
  import opened Steps

  // ---------- the logical store ----------

  /** The value of an object: under a mask, what the mask's transaction makes of it. */
  ghost function Logical(sh: Shared, k: Key): Option<Data> {
    var c := Obj(sh, k);
    if !c.present then None
    else
      match Top(c)
      case Clean(d) => Some(d)
      case Masked(t, under) => Settled(sh, t, k, under)
  }

  type View = imap<Key, Data>

  ghost function ViewOf(sh: Shared): View {
    imap k: Key | Logical(sh, k).Some? :: Logical(sh, k).value
  }

  ghost function Look(m: View, k: Key): Option<Data> {
    if k in m then Some(m[k]) else None
  }

  datatype Event =
    | Internal
    | Saw(key: Key, value: Option<Data>)
    | Stored(key: Key, data: Data, rr: RejectRules)
    | Erased(key: Key, rr: RejectRules)
    | AllAtOnce(txid: Txid, mt: MiniTransaction)
    | Revived(key: Key, data: Data)
    | Misled(key: Key)

  /** The reject rules an object without version numbers can be tested for. */
  ghost predicate ExistenceOk(rr: RejectRules, value: Option<Data>) {
    if value.Some? then !rr.objectExists else !rr.objectDoesntExist
  }

  /** What an operation of a transaction does to an object: nothing if it only checks its rules. */
  ghost predicate Does(op: Op, before: Option<Data>, after: Option<Data>) {
    match op
    case Touch(_) => after == before
    case Put(d, _) => after == Some(d)
    case Remove(_) => after == None
  }

  /** The sequential specification: writes and deletes obey their reject rules. Two events are anomalies:
    * a `Revived` brings back an object nobody wrote, and a `Misled` is the refusal of an operation
    * because of what an object is that does not exist.
    */
  ghost predicate SpecNext(m: View, e: Event, m': View) {
    match e
    case Internal => m' == m
    case Saw(k, value) => m' == m && Look(m, k) == value
    case Stored(k, d, rr) => ExistenceOk(rr, Look(m, k)) && m' == m[k := d]
    case Erased(k, rr) => ExistenceOk(rr, Look(m, k)) && m' == imap l | l in m && l != k :: m[l]
    case AllAtOnce(_, mt) =>
      && (forall k | k in mt :: ExistenceOk(mt[k].rr, Look(m, k)))
      && (forall k | k in mt :: Does(mt[k], Look(m, k), Look(m', k)))
      && (forall k | k !in mt :: Look(m', k) == Look(m, k))
    case Revived(k, d) => k !in m && m' == m[k := d]
    case Misled(k) => k !in m && m' == m
  }

  /** The event of a step, read off the client's program point and the raw result. */
  ghost function StepEvent(sh: Shared, cl: Client, ch: Choice): Event
    requires cl.Busy? && Coherent(cl)
  {
    var task := cl.task;
    match cl.pc
    case ReadObject => ReadEvent(sh, task)
    case Act(_) =>
      var cl' := Step(sh, cl, ch).1;
      if cl'.Busy? || task.Committing? then Internal else EventOfOutcome(sh, task.key, task.rr, cl'.outcome)
    case Direct => EventOfOutcome(sh, task.key, task.rr, Step(sh, cl, ch).1.outcome)
    case UnmaskWrite(_, todo, _, under) =>
      if !Obj(sh, todo[0]).present && under.Some? then Revived(todo[0], under.value) else Internal
    case PutIntent => if Tx(sh, task.txid).present then Internal else AllAtOnce(task.txid, task.mt)
    case _ => Internal
  }

  /** Finding out that a rule is violated is an event too: for a transaction, the one that dooms it. */
  ghost function ReadEvent(sh: Shared, task: Task): Event
    requires AtClean(task)
  {
    var k, rr := KeyOf(task), RulesOf(task);
    match Read(Obj(sh, k), RawReadRules(rr))
    case Err(e) =>
      if e != NoObject then Refusal(sh, k)
      else if rr.objectDoesntExist || task.Reading? || task.Updating? then Saw(k, None)
      else if task.Deleting? then Erased(k, rr)
      else Internal
    case Ok((content, _)) =>
      if content.Clean? && (task.Reading? || rr.objectExists) then Saw(k, Some(content.data)) else Internal
  }

  /** An operation is refused because k exists or because of its version, though k may not exist. */
  ghost function Refusal(sh: Shared, k: Key): Event {
    if Logical(sh, k).Some? then Saw(k, Logical(sh, k)) else Misled(k)
  }

  ghost function EventOf(w: World, l: Label): Event
    requires Enabled(w, l)
  {
    if l.Run? then StepEvent(w.sh, w.clients[l.c], l.choice) else Internal
  }

  ghost function EventOfOutcome(sh: Shared, k: Key, rr: RejectRules, o: Outcome): Event {
    match o
    case Wrote(_, d, _) => Stored(k, d, rr)
    case Deleted(_) => Erased(k, rr)
    case Failed(e) => if e == NoObject then Saw(k, None) else Refusal(sh, k)
    case _ => Internal
  }

  // ---------- how changes of the store show ----------

  lemma SameLogical(sh: Shared, sh': Shared)
    requires forall k :: Logical(sh', k) == Logical(sh, k)
    ensures ViewOf(sh') == ViewOf(sh)
  {
  }

  lemma PlainShows(sh: Shared, k: Key, d: Option<Data>)
    ensures var sh' := SetObj(sh, k, Become(Obj(sh, k), d));
            forall l :: Logical(sh', l) == if l == k then d else Logical(sh, l)
  {
  }

  lemma MaskHides(sh: Shared, k: Key, t: Txid, under: Option<Data>)
    requires !IsCommitted(sh, t) && Logical(sh, k) == under
    ensures var sh' := SetObj(sh, k, Cell(Obj(sh, k).log + [Masked(t, under)], true));
            forall l :: Logical(sh', l) == Logical(sh, l)
  {
  }

  /** Whatever happens at a txid after its fate is decided, or short of committing, is
    * invisible.
    */
  lemma TxHides(sh: Shared, sh': Shared)
    requires sh'.objs == sh.objs
    requires forall t :: IsCommitted(sh', t) <==> IsCommitted(sh, t)
    requires forall t | IsCommitted(sh, t) :: |Tx(sh', t).log| > 0 && Tx(sh', t).log[0] == Tx(sh, t).log[0]
    ensures ViewOf(sh') == ViewOf(sh)
  {
    forall k ensures Logical(sh', k) == Logical(sh, k) {
      assert Obj(sh', k) == Obj(sh, k);
    }
  }

  /** While a transaction is open and no tombstone is in its way, every mask its
    * coordinator has put is still on, at the version it was put, over exactly the clean
    * data its reject rules accepted.
    */
  lemma StillMasked(sh: Shared, c: ClientId, task: Task, j: nat)
    requires SharedInv(sh) && TaskInv(sh, c, task)
    requires task.Committing? && task.phase.Masking? && !IsAborted(sh, task.txid) && j < |task.masked|
    ensures var k := task.objects[j];
            && MaskedBy(sh, k, task.txid)
            && |Obj(sh, k).log| == task.masked[j]
            && k in task.mt && Justified(sh, k, task.masked[j] - 1, task.mt[k].rr)
            && Logical(sh, k) == Top(Obj(sh, k)).under
            && ExistenceOk(task.mt[k].rr, Logical(sh, k))
  {
    var k := task.objects[j];
    assert WasMasked(sh, k, task.masked[j], task.txid);
    assert IsMask(sh, k, task.masked[j] - 1);
    assert TxOk(sh, task.txid);
  }

  /** The store after client c created the intent of its commit. */
  ghost function AfterIntent(sh: Shared, task: Task): Shared
    requires task.Committing?
  {
    Close(SetTx(sh, task.txid, Cell(Tx(sh, task.txid).log + [Intent(task.mt)], true)), task.txid)
  }

  ghost predicate ReadyToCommit(sh: Shared, c: ClientId, task: Task) {
    SharedInv(sh) && TaskInv(sh, c, task) && AtPutIntent(task) && !Tx(sh, task.txid).present
  }

  lemma CommitChangesMine(sh: Shared, c: ClientId, task: Task, k: Key)
    requires ReadyToCommit(sh, c, task) && k in task.mt
    ensures ExistenceOk(task.mt[k].rr, Logical(sh, k))
    ensures Logical(AfterIntent(sh, task), k) == Effect(task.mt[k], Logical(sh, k))
    ensures Does(task.mt[k], Logical(sh, k), Logical(AfterIntent(sh, task), k))
  {
    var sh' := AfterIntent(sh, task);
    IntentLogged(sh, c, task);
    MineStillMasked(sh, c, task, k);
    assert Obj(sh', k) == Obj(sh, k);
  }

  lemma MineIndex(sh: Shared, c: ClientId, task: Task, k: Key) returns (j: nat)
    requires ReadyToCommit(sh, c, task) && k in task.mt
    ensures !IsAborted(sh, task.txid) && j < |task.masked| && task.objects[j] == k
  {
    IntentLogged(sh, c, task);
    assert k in task.objects;
    j :| 0 <= j < |task.objects| && task.objects[j] == k;
  }

  lemma MineStillMasked(sh: Shared, c: ClientId, task: Task, k: Key)
    requires ReadyToCommit(sh, c, task) && k in task.mt
    ensures HeldAsAccepted(sh, k, task.txid, task.mt[k].rr) && Logical(sh, k) == Top(Obj(sh, k)).under
    ensures ExistenceOk(task.mt[k].rr, Logical(sh, k))
  {
    var j := MineIndex(sh, c, task, k);
    StillMasked(sh, c, task, j);
  }

  /** t's mask is on k, over exactly a version that the rules accepted, or over no object. */
  ghost predicate HeldAsAccepted(sh: Shared, k: Key, t: Txid, rr: RejectRules) {
    MaskedBy(sh, k, t) && Justified(sh, k, |Obj(sh, k).log| - 1, rr)
  }

  lemma IntentLogged(sh: Shared, c: ClientId, task: Task)
    requires ReadyToCommit(sh, c, task)
    ensures Tx(sh, task.txid).log == []
    ensures Tx(AfterIntent(sh, task), task.txid).log == [Intent(task.mt)]
  {
    assert TxOk(sh, task.txid);
  }

  lemma CommitKeepsOthers(sh: Shared, c: ClientId, task: Task, k: Key)
    requires ReadyToCommit(sh, c, task) && k !in task.mt
    ensures Logical(AfterIntent(sh, task), k) == Logical(sh, k)
  {
    assert TxOk(sh, task.txid);
    assert Obj(AfterIntent(sh, task), k) == Obj(sh, k);
  }

  /** The commit point: creating the intent is possible only while every object of the
    * transaction is masked with its reject rules met, and it changes all of them at once.
    */
  lemma CommitShows(sh: Shared, c: ClientId, task: Task)
    requires ReadyToCommit(sh, c, task)
    ensures forall k | k in task.mt :: HeldAsAccepted(sh, k, task.txid, task.mt[k].rr)
    ensures SpecNext(ViewOf(sh), AllAtOnce(task.txid, task.mt), ViewOf(AfterIntent(sh, task)))
  {
    var m, m' := ViewOf(sh), ViewOf(AfterIntent(sh, task));
    forall k ensures Look(m, k) == Logical(sh, k) && Look(m', k) == Logical(AfterIntent(sh, task), k) {
    }
    forall k | k in task.mt
      ensures ExistenceOk(task.mt[k].rr, Look(m, k)) && Does(task.mt[k], Look(m, k), Look(m', k))
    {
      CommitChangesMine(sh, c, task, k);
    }
    forall k | k in task.mt ensures HeldAsAccepted(sh, k, task.txid, task.mt[k].rr) {
      MineStillMasked(sh, c, task, k);
    }
    forall k | k !in task.mt ensures Look(m', k) == Look(m, k) {
      CommitKeepsOthers(sh, c, task, k);
    }
  }

  // ---------- steps ----------

  /** The step of a client at `pc` shows as its event. */
  ghost predicate Shows(sh: Shared, cl: Client, ch: Choice)
    requires cl.Busy? && Coherent(cl)
  {
    SpecNext(ViewOf(sh), StepEvent(sh, cl, ch), ViewOf(Step(sh, cl, ch).0))
  }

  lemma CloseHides(sh: Shared, t: Txid)
    ensures ViewOf(Close(sh, t)) == ViewOf(sh)
  {
    TxHides(sh, Close(sh, t));
  }

  lemma ViewPlain(sh: Shared, k: Key, d: Option<Data>)
    ensures var m, m' := ViewOf(sh), ViewOf(SetObj(sh, k, Become(Obj(sh, k), d)));
            m' == if d.Some? then m[k := d.value] else imap l | l in m && l != k :: m[l]
  {
    PlainShows(sh, k, d);
  }

  lemma ReadObjectShows(sh: Shared, task: Task, ch: Choice)
    requires AtClean(task)
    ensures Shows(sh, Busy(task, ReadObject), ch)
  {
    ReadKeepsView(sh, task, ch);
    ReadEventShows(sh, task);
  }

  lemma ReadKeepsView(sh: Shared, task: Task, ch: Choice)
    requires AtClean(task)
    ensures ViewOf(DoReadObject(sh, task, ch).0) == ViewOf(sh)
  {
    var sh' := DoReadObject(sh, task, ch).0;
    if task.Committing? {
      CloseHides(sh, task.txid);
      assert sh' == sh || sh' == Close(sh, task.txid);
    } else {
      assert sh' == sh;
    }
  }

  lemma ReadEventShows(sh: Shared, task: Task)
    requires AtClean(task)
    ensures SpecNext(ViewOf(sh), ReadEvent(sh, task), ViewOf(sh))
  {
  }

  /** The reject rules let the operation through, and no mask hides what the object is. */
  ghost predicate RulesMet(sh: Shared, k: Key, rr: RejectRules) {
    && !Violates(Obj(sh, k), rr, NoObject) && !Violates(Obj(sh, k), rr, ObjectExists) && !Violates(Obj(sh, k), rr, WrongVersion)
    && Free(sh, k)
  }

  lemma MetShows(sh: Shared, k: Key, rr: RejectRules)
    requires RulesMet(sh, k, rr)
    ensures ExistenceOk(rr, Look(ViewOf(sh), k))
  {
  }

  /** Only an object that was seen clean, or none, is ever overwritten or deleted directly. */
  lemma DirectHits(sh: Shared, task: Task)
    requires (task.Writing? || task.Deleting?) && PcInv(sh, task, Direct) && Check(Obj(sh, task.key), task.rr).None?
    ensures RulesMet(sh, task.key, task.rr)
  {
  }

  /** An operation that went through, seen from outside. */
  lemma PassShows(sh: Shared, k: Key, rr: RejectRules, d: Option<Data>)
    requires RulesMet(sh, k, rr)
    ensures SpecNext(ViewOf(sh), if d.Some? then Stored(k, d.value, rr) else Erased(k, rr), ViewOf(SetObj(sh, k, Become(Obj(sh, k), d))))
  {
    MetShows(sh, k, rr);
    ViewPlain(sh, k, d);
  }

  lemma DirectShows(sh: Shared, task: Task, ch: Choice)
    requires (task.Writing? || task.Deleting?) && PcInv(sh, task, Direct)
    ensures Shows(sh, Busy(task, Direct), ch)
  {
    if Check(Obj(sh, task.key), task.rr).None? {
      DirectPass(sh, task, ch);
      DirectHits(sh, task);
      PassShows(sh, task.key, task.rr, if task.Writing? then Some(task.data) else None);
    } else {
      DirectRefusal(sh, task, ch);
      if Obj(sh, task.key).present { RefusalShows(sh, task.key); } else { AbsenceShows(sh, task.key); }
    }
  }

  lemma DirectPass(sh: Shared, task: Task, ch: Choice)
    requires (task.Writing? || task.Deleting?) && Check(Obj(sh, task.key), task.rr).None?
    ensures DoDirect(sh, task).0 == SetObj(sh, task.key, Become(Obj(sh, task.key), if task.Writing? then Some(task.data) else None))
    ensures StepEvent(sh, Busy(task, Direct), ch) ==
            if task.Writing? then Stored(task.key, task.data, task.rr) else Erased(task.key, task.rr)
  {
  }

  lemma DirectRefusal(sh: Shared, task: Task, ch: Choice)
    requires (task.Writing? || task.Deleting?) && Check(Obj(sh, task.key), task.rr).Some?
    ensures DoDirect(sh, task).0 == sh
    ensures StepEvent(sh, Busy(task, Direct), ch) == if Obj(sh, task.key).present then Refusal(sh, task.key) else Saw(task.key, None)
  {
  }

  lemma AbsenceShows(sh: Shared, k: Key)
    requires !Obj(sh, k).present
    ensures SpecNext(ViewOf(sh), Saw(k, None), ViewOf(sh))
  {
  }

  lemma RefusalShows(sh: Shared, k: Key)
    ensures SpecNext(ViewOf(sh), Refusal(sh, k), ViewOf(sh))
  {
  }

  lemma MaskShows(sh: Shared, c: ClientId, task: Task, found: Option<(Data, nat)>, ch: Choice)
    requires At(sh, c, task, Act(found)) && task.Committing?
    ensures Shows(sh, Busy(task, Act(found)), ch)
  {
    var k := KeyOf(task);
    if found.Some? { ExactlyIsExact(Obj(sh, k), found.value.1); }
    var under := if found.Some? then Some(found.value.0) else None;
    var sh' := DoAct(sh, task, found).0;
    if sh' != sh {
      assert Logical(sh, k) == under;
      assert sh' == SetObj(sh, k, Cell(Obj(sh, k).log + [Masked(task.txid, under)], true));
      NotYetCommitted(sh, c, task);
      MaskHides(sh, k, task.txid, under);
      SameLogical(sh, sh');
    }
  }

  lemma NotYetCommitted(sh: Shared, c: ClientId, task: Task)
    requires SharedInv(sh) && TaskInv(sh, c, task) && task.Committing? && task.phase.Masking?
    ensures !IsCommitted(sh, task.txid)
  {
    assert TxOk(sh, task.txid);
  }

  /** After a clean read the operation goes through only if its own rules are met at that step too. */
  lemma ActHits(sh: Shared, task: Task, found: Option<(Data, nat)>)
    requires AtAct(task, found) && !task.Committing? && PcInv(sh, task, Act(found)) && Routed(task)
    requires DoAct(sh, task, found).1.Idle? && !DoAct(sh, task, found).1.outcome.Failed?
    ensures RulesMet(sh, task.key, task.rr)
    ensures DoAct(sh, task, found).0 == SetObj(sh, task.key, Become(Obj(sh, task.key), if task.Deleting? then None else Some(task.data)))
  {
    if found.Some? { ExactlyIsExact(Obj(sh, task.key), found.value.1); }
  }

  lemma ActShows(sh: Shared, task: Task, found: Option<(Data, nat)>, ch: Choice)
    requires AtAct(task, found) && !task.Committing? && PcInv(sh, task, Act(found)) && Routed(task)
    ensures Shows(sh, Busy(task, Act(found)), ch)
  {
    var cl' := DoAct(sh, task, found).1;
    if cl'.Idle? && !cl'.outcome.Failed? {
      ActHits(sh, task, found);
      PassShows(sh, task.key, task.rr, if task.Deleting? then None else Some(task.data));
      ActEvent(sh, task, found, ch);
    } else {
      StillActs(sh, task, found);
    }
  }

  lemma ActEvent(sh: Shared, task: Task, found: Option<(Data, nat)>, ch: Choice)
    requires AtAct(task, found) && !task.Committing?
    requires DoAct(sh, task, found).1.Idle? && !DoAct(sh, task, found).1.outcome.Failed?
    ensures StepEvent(sh, Busy(task, Act(found)), ch) == if task.Deleting? then Erased(task.key, task.rr) else Stored(task.key, task.data, task.rr)
  {
  }

  lemma StillActs(sh: Shared, task: Task, found: Option<(Data, nat)>)
    requires AtAct(task, found) && !task.Committing?
    requires DoAct(sh, task, found).1.Busy? || DoAct(sh, task, found).1.outcome.Failed?
    ensures DoAct(sh, task, found).0 == sh
    ensures DoAct(sh, task, found).1.Idle? ==> DoAct(sh, task, found).1.outcome == Failed(NoObject) && Look(ViewOf(sh), task.key) == None
  {
    assert !Obj(sh, task.key).present ==> Look(ViewOf(sh), task.key) == None;
  }

  lemma UnmaskShows(sh: Shared, c: ClientId, task: Task, t: Txid, todo: seq<Key>, v: nat, under: Option<Data>, ch: Choice)
    requires At(sh, c, task, UnmaskWrite(t, todo, v, under))
    ensures Shows(sh, Busy(task, UnmaskWrite(t, todo, v, under)), ch)
  {
    var k := todo[0];
    ExactlyIsExact(Obj(sh, k), v);
    ViewPlain(sh, k, under);
    if Obj(sh, k).present && |Obj(sh, k).log| == v {
      RollbackFate(sh, k, t);
      PlainShows(sh, k, under);
      SameLogical(sh, SetObj(sh, k, Become(Obj(sh, k), under)));
    }
  }

  lemma ApplyShows(sh: Shared, c: ClientId, task: Task, t: Txid, mt: MiniTransaction, todo: seq<Key>, iv: nat, v: nat, under: Option<Data>, ch: Choice)
    requires At(sh, c, task, ApplyWrite(t, mt, todo, iv, v, under))
    ensures Shows(sh, Busy(task, ApplyWrite(t, mt, todo, iv, v, under)), ch)
  {
    var k := todo[0];
    assert TxOk(sh, t);
    ExactlyIsExact(Obj(sh, k), v);
    if Obj(sh, k).present && |Obj(sh, k).log| == v {
      var d := Effect(mt[k], under);
      PlainShows(sh, k, d);
      SameLogical(sh, SetObj(sh, k, Become(Obj(sh, k), d)));
    }
  }

  lemma TxCellHides(sh: Shared, t: Txid, cell: Cell<TxObject>)
    requires Tx(sh, t).log <= cell.log && (cell.log == Tx(sh, t).log || cell.log[|Tx(sh, t).log|].Tombstone?)
    ensures ViewOf(SetTx(sh, t, cell)) == ViewOf(sh)
  {
    TxHides(sh, SetTx(sh, t, cell));
  }

  /** Steps in the transaction table other than the commit itself. */
  lemma TxStepShows(sh: Shared, task: Task, pc: Pc, ch: Choice)
    requires Coherent(Busy(task, pc))
    requires pc.PutTombstone? || pc.DeleteIntent? || pc.DeleteTombstone?
    ensures Shows(sh, Busy(task, pc), ch)
  {
    match pc {
      case PutTombstone(t) => TxCellHides(sh, t, Cell(Tx(sh, t).log + [Tombstone], true));
      case DeleteIntent(t, _) =>
        TxCellHides(sh, t, Cell(Tx(sh, t).log, false));
        if task.Committing? { CloseHides(sh, task.txid); }
      case DeleteTombstone => TxCellHides(sh, task.txid, Cell(Tx(sh, task.txid).log, false));
    }
  }

  lemma PutIntentShows(sh: Shared, c: ClientId, task: Task, ch: Choice)
    requires At(sh, c, task, PutIntent)
    ensures Shows(sh, Busy(task, PutIntent), ch)
  {
    if Tx(sh, task.txid).present {
      CloseHides(sh, task.txid);
    } else {
      CommitShows(sh, c, task);
    }
  }

  lemma StepShows(sh: Shared, c: ClientId, cl: Client, ch: Choice)
    requires SharedInv(sh) && ClientInv(sh, c, cl) && cl.Busy? && Coherent(cl)
    ensures Shows(sh, cl, ch)
  {
    var task := cl.task;
    match cl.pc
    case Direct => DirectShows(sh, task, ch);
    case ReadObject => ReadObjectShows(sh, task, ch);
    case Act(found) =>
      if task.Committing? {
        MaskShows(sh, c, task, found, ch);
      } else {
        ActShows(sh, task, found, ch);
      }
    case UnmaskWrite(t, todo, v, under) => UnmaskShows(sh, c, task, t, todo, v, under, ch);
    case ApplyWrite(t, mt, todo, iv, v, under) => ApplyShows(sh, c, task, t, mt, todo, iv, v, under, ch);
    case PutTombstone(_) => TxStepShows(sh, task, cl.pc, ch);
    case DeleteIntent(_, _) => TxStepShows(sh, task, cl.pc, ch);
    case DeleteTombstone => TxStepShows(sh, task, cl.pc, ch);
    case PutIntent => PutIntentShows(sh, c, task, ch);
    case _ =>
  }

  lemma LabelShows(w: World, l: Label)
    requires Inv(w) && Enabled(w, l)
    ensures SpecNext(ViewOf(w.sh), EventOf(w, l), ViewOf(Do(w, l).sh))
  {
    match l {
      case Run(c, ch) => StepShows(w.sh, c, w.clients[c], ch);
      case Begin(c, request) =>
        var sh' := Do(w, l).sh;
        forall t ensures Tx(sh', t) == Tx(w.sh, t) {
        }
        TxHides(w.sh, sh');
      case Abandon(c) =>
        if w.clients[c].task.Committing? {
          CloseHides(w.sh, w.clients[c].task.txid);
        }
    }
  }

  /** Atomic refinement: step by step, every run of any number of coordinators, helpers and
    * abandoned clients is a run of the sequential specification.
    */
  lemma RunRefines(r: Trace, n: nat)
    requires IsTrace(r) && n < |r.labels|
    ensures Enabled(r.worlds[n], r.labels[n])
    ensures SpecNext(ViewOf(r.worlds[n].sh), EventOf(r.worlds[n], r.labels[n]), ViewOf(r.worlds[n + 1].sh))
  {
    Reachable(r, n);
    StepAt(r, n, |r.labels|);
    LabelShows(r.worlds[n], r.labels[n]);
  }

  /** A transaction does to every object at once what its operation says: a check leaves it as it was, a
    * write gives it the new data, a delete removes it. No other object changes.
    */
  lemma CommitDoes(r: Trace, n: nat, k: Key)
    requires IsTrace(r) && n < |r.labels|
    ensures Enabled(r.worlds[n], r.labels[n])
    ensures var e := EventOf(r.worlds[n], r.labels[n]);
            var before, after := Logical(r.worlds[n].sh, k), Logical(r.worlds[n + 1].sh, k);
            e.AllAtOnce? ==>
              if k !in e.mt then after == before
              else match e.mt[k] case Touch(_) => after == before case Put(d, _) => after == Some(d) case Remove(_) => after == None
  {
    RunRefines(r, n);
    LookIs(r.worlds[n].sh, k);
    LookIs(r.worlds[n + 1].sh, k);
  }

  lemma LookIs(sh: Shared, k: Key)
    ensures Look(ViewOf(sh), k) == Logical(sh, k)
  {
  }

  // ---------- what callers are told ----------

  /** The error names a rule that the object breaks; an inconsistency is about none. */
  ghost predicate Refuses(c: Cell<Content>, rr: RejectRules, e: Error) {
    e == Inconsistent || Violates(c, rr, e)
  }

  /** Object k becomes `cell` and nothing else changes. */
  ghost predicate Becomes(sh: Shared, sh': Shared, k: Key, cell: Cell<Content>) {
    sh'.txs == sh.txs && forall l :: Obj(sh', l) == if l == k then cell else Obj(sh, l)
  }

  /** What a caller is told, in terms of the step in which it is told. A read returns the object there
    * is; a write or delete has just taken effect on an object that met all its reject rules, or on none;
    * a refusal names a rule that is violated. A read asks for an object in any case.
    */
  ghost predicate Answers(sh: Shared, task: Task, o: Outcome, sh': Shared) {
    match task
    case Reading(k, rr) =>
      (match o
       case Found(l, d, v) => l == k && Obj(sh, k).present && |Obj(sh, k).log| == v && Top(Obj(sh, k)) == Clean(d) && RulesMet(sh, k, rr)
       case Failed(e) => Refuses(Obj(sh, k), rr.(objectDoesntExist := true), e)
       case _ => false)
    case Deleting(k, rr) =>
      (match o
       case Deleted(l) => l == k && RulesMet(sh, k, rr) && Becomes(sh, sh', k, Cell(Obj(sh, k).log, false))
       case Failed(e) => Refuses(Obj(sh, k), rr, e)
       case _ => false)
    case Committing(t, _, _, _, _) =>
      (match o
       case TxCommitted(s, _) => s == t
       case TxRejected(s, _, _) => s == t
       case TxExpired(s) => s == t
       case Failed(e) => e == Inconsistent
       case _ => false)
    case _ =>
      (match o
       case Wrote(l, d, v) =>
         && l == task.key && d == task.data && v == |Obj(sh, l).log| + 1
         && RulesMet(sh, l, task.rr) && Becomes(sh, sh', l, Cell(Obj(sh, l).log + [Clean(d)], true))
       case Failed(e) => Refuses(Obj(sh, task.key), task.rr, e)
       case _ => false)
  }

  /** The event of that step is the one the caller is told of. */
  ghost predicate Tells(e: Event, task: Task, o: Outcome) {
    !task.Committing? ==>
      match o
      case Found(k, d, _) => e == Saw(k, Some(d))
      case Wrote(k, d, _) => e == Stored(k, d, task.rr)
      case Deleted(k) => e == Erased(k, task.rr)
      case Failed(NoObject) => e == Saw(task.key, None)
      case Failed(Inconsistent) => e == Internal
      case Failed(_) => (e.Saw? && e.key == task.key && e.value.Some?) || e == Misled(task.key)
      case _ => e == Internal
  }

  ghost predicate Reports(sh: Shared, cl: Client, ch: Choice)
    requires cl.Busy? && Coherent(cl)
  {
    var (sh', cl') := Step(sh, cl, ch);
    cl'.Idle? ==>
      && Answers(sh, cl.task, cl'.outcome, sh') && Tells(StepEvent(sh, cl, ch), cl.task, cl'.outcome)
      && (cl'.outcome == Failed(Inconsistent) ==> cl.task.Committing? || cl.pc.DeleteIntent?)
  }

  lemma ReadReports(sh: Shared, task: Task, ch: Choice)
    requires AtClean(task) && Routed(task) && !task.Committing?
    ensures Reports(sh, Busy(task, ReadObject), ch)
  {
  }

  lemma DirectReports(sh: Shared, task: Task, ch: Choice)
    requires (task.Writing? || task.Deleting?) && PcInv(sh, task, Direct)
    ensures Reports(sh, Busy(task, Direct), ch)
  {
    if Check(Obj(sh, task.key), task.rr).None? { DirectHits(sh, task); }
  }

  lemma ActReports(sh: Shared, task: Task, found: Option<(Data, nat)>, ch: Choice)
    requires AtAct(task, found) && !task.Committing? && PcInv(sh, task, Act(found)) && Routed(task)
    ensures Reports(sh, Busy(task, Act(found)), ch)
  {
    var (sh', cl') := DoAct(sh, task, found);
    if cl'.Idle? && !cl'.outcome.Failed? { ActHits(sh, task, found); }
  }

  lemma CommitReports(sh: Shared, cl: Client, ch: Choice)
    requires cl.Busy? && Coherent(cl) && cl.task.Committing? && PcInv(sh, cl.task, cl.pc)
    ensures Reports(sh, cl, ch)
  {
  }

  lemma HelpReports(sh: Shared, cl: Client, ch: Choice)
    requires cl.Busy? && Coherent(cl) && !cl.task.Committing?
    requires !cl.pc.Direct? && !cl.pc.ReadObject? && !cl.pc.Act?
    requires PcInv(sh, cl.task, cl.pc)
    ensures Reports(sh, cl, ch)
  {
  }

  lemma OneReports(sh: Shared, cl: Client, ch: Choice)
    requires cl.Busy? && Coherent(cl) && !cl.task.Committing? && PcInv(sh, cl.task, cl.pc) && (cl.pc.Direct? || Routed(cl.task))
    ensures Reports(sh, cl, ch)
  {
    if cl.pc.Direct? {
      DirectReports(sh, cl.task, ch);
    } else if cl.pc.ReadObject? {
      ReadReports(sh, cl.task, ch);
    } else if cl.pc.Act? {
      ActReports(sh, cl.task, cl.pc.found, ch);
    } else {
      HelpReports(sh, cl, ch);
    }
  }

  /** The step in which an operation returns is the step of its event, and what the caller is told is
    * true of the store in that step, reject rules included.
    */
  lemma ReturnsAtItsEvent(w: World, l: Label)
    requires Inv(w) && Enabled(w, l) && l.Run?
    ensures Reports(w.sh, w.clients[l.c], l.choice)
    ensures SpecNext(ViewOf(w.sh), EventOf(w, l), ViewOf(Do(w, l).sh))
  {
    var cl := w.clients[l.c];
    LabelShows(w, l);
    assert ClientInv(w.sh, l.c, cl);
    if cl.task.Committing? {
      CommitReports(w.sh, cl, l.choice);
    } else {
      OneReports(w.sh, cl, l.choice);
    }
  }

  /** Users' own writes and deletes leave every masked object alone. */
  lemma UserStepsRespectMasks(w: World, l: Label, k: Key, t: Txid)
    requires Inv(w) && Enabled(w, l) && l.Run?
    requires var cl := w.clients[l.c]; cl.pc.Direct? || cl.pc.Act?
    requires MaskedBy(w.sh, k, t)
    ensures Obj(Do(w, l).sh, k) == Obj(w.sh, k)
  {
    var cl := w.clients[l.c];
    assert ClientInv(w.sh, l.c, cl);
    if cl.pc.Act? && cl.pc.found.Some? {
      ExactlyIsExact(Obj(w.sh, KeyOf(cl.task)), cl.pc.found.value.1);
    }
  }
}
