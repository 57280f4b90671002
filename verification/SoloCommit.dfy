/** A coordinator that runs alone commits, unless a reject rule of one of its operations is broken, and it
  * needs no more raw operations than a bound that can be read off the store.
  */
module SoloCommit {
  import opened RamCloud
  import opened Protocol
  import opened Invariant
  import opened Preservation
  import opened Steps
  import opened Refinement
  import opened Recovery

  // ---------- the bound ----------

  /** For the objects still to be masked: reading each of them clean and masking it. */
  ghost function Waiting(sh: Shared, ks: seq<Key>): nat {
    if ks == [] then 0 else Cost(sh, ks[0], ReadObject) + 1 + Waiting(sh, ks[1..])
  }

  /** After that, creating the intent, two operations for each object, and deleting the intent. */
  ghost function FinishCost(pc: Pc, n: nat): int {
    match pc
    case PutIntent => 2 * n + 2
    case ApplyRead(_, _, todo, _) => 2 * |todo| + 1
    case ApplyWrite(_, _, todo, _, _, _) => 2 * |todo|
    case UnmaskRead(_, todo) => 2 * |todo|
    case UnmaskWrite(_, todo, _, _) => 2 * |todo| - 1
    case _ => 1
  }

  ghost function CommitCost(sh: Shared, task: Task, pc: Pc): int
    requires task.Committing?
  {
    var n := |task.objects|;
    if AtClean(task) then TaskCost(sh, task, pc) + Waiting(sh, task.objects[|task.masked| + 1..]) + 2 * n + 2
    else FinishCost(pc, n)
  }

  // ---------- what a coordinator that runs alone knows ----------

  ghost predicate FreshOwn(sh: Shared, t: Txid, pc: Pc) {
    match pc
    case PutIntent => true
    case ApplyRead(s, _, _, _) => s == t && IntentThere(sh, t)
    case ApplyWrite(s, _, todo, _, v, _) =>
      s == t && IntentThere(sh, t) && todo != [] && MaskedBy(sh, todo[0], t) && |Obj(sh, todo[0]).log| == v
    case DeleteIntent(s, _) => s == t && IntentThere(sh, t)
    case UnmaskRead(s, _) => s == t
    case UnmaskWrite(s, todo, v, _) => s == t && todo != [] && MaskedBy(sh, todo[0], t) && |Obj(sh, todo[0]).log| == v
    case _ => false
  }

  /** Nobody has touched the place of its intent; and it never meets a tombstone there. */
  ghost predicate Untouched(sh: Shared, task: Task)
    requires task.Committing?
  {
    match task.phase
    case Masking => Tx(sh, task.txid).log == []
    case Failing(_, e) => e != Inconsistent
    case Expired => false
    case Committed => true
  }

  ghost predicate Knows(sh: Shared, task: Task, pc: Pc)
    requires task.Committing?
  {
    Untouched(sh, task) && if AtClean(task) then Fresh(sh, KeyOf(task), pc) else FreshOwn(sh, task.txid, pc)
  }

  ghost predicate LoneCommit(sh: Shared, c: ClientId, task: Task, pc: Pc) {
    SharedInv(sh) && task.Committing? && ClientInv(sh, c, Busy(task, pc)) && Knows(sh, task, pc)
  }

  /** What one step of it brings: it is nearer to its end, which is a commit or a rejection. */
  ghost predicate Closer(task: Task, cost: int, next: (Shared, Client))
    requires task.Committing?
  {
    match next.1
    case Busy(task', pc') =>
      && task'.Committing? && task'.txid == task.txid && task'.objects == task.objects
      && Knows(next.0, task', pc') && CommitCost(next.0, task', pc') < cost
    case Idle(o) =>
      match o case TxCommitted(t, _) => t == task.txid case TxRejected(t, _, _) => t == task.txid case _ => false
  }

  // ---------- helping others does not make other objects dearer ----------

  lemma {:induction false} WaitingFalls(sh: Shared, sh': Shared, ks: seq<Key>)
    requires forall x | x in ks :: Cost(sh', x, ReadObject) <= Cost(sh, x, ReadObject)
    ensures Waiting(sh', ks) <= Waiting(sh, ks)
  {
    if ks != [] { WaitingFalls(sh, sh', ks[1..]); }
  }

  lemma HelpFalls(sh: Shared, c: ClientId, task: Task, pc: Pc, ch: Choice, x: Key)
    requires Lone(sh, c, task, pc) && task.Committing? && !pc.ReadObject? && !pc.Act?
    ensures Cost(Step(sh, Busy(task, pc), ch).0, x, ReadObject) <= Cost(sh, x, ReadObject)
  {
    if pc.DeleteIntent? {
      DeleteFalls(sh, task, pc.txid, pc.intentVersion, ch, x);
    } else if pc.UnmaskWrite? || pc.ApplyWrite? {
      ReplaceFalls(sh, pc.todo[0], x, if pc.UnmaskWrite? then NotAfter(pc.version) else Exactly(pc.version),
                   if pc.UnmaskWrite? then pc.under else Effect(pc.mt[pc.todo[0]], pc.under));
    }
  }

  lemma DeleteFalls(sh: Shared, task: Task, t: Txid, iv: nat, ch: Choice, x: Key)
    requires TaskOk(task) && Unmasked(sh, t)
    ensures Cost(DoDeleteIntent(sh, task, t, iv, ch).0, x, ReadObject) <= Cost(sh, x, ReadObject)
  {
    assert !MaskedBy(sh, x, t);
  }

  lemma ReplaceFalls(sh: Shared, k: Key, x: Key, rr: RejectRules, d: Option<Data>)
    ensures Cost(Replace(sh, k, rr, d).1, x, ReadObject) <= Cost(sh, x, ReadObject)
  {
  }

  /** The place of its own intent stays as it is: it helps other transactions. */
  lemma HelpsOthers(sh: Shared, c: ClientId, task: Task, pc: Pc, ch: Choice)
    requires Lone(sh, c, task, pc) && task.Committing? && !pc.ReadObject? && !pc.Act? && Tx(sh, task.txid).log == []
    ensures Tx(Step(sh, Busy(task, pc), ch).0, task.txid) == Tx(sh, task.txid)
  {
    if pc.PutTombstone? {
      NotMine(sh, c, task, pc);
    }
  }

  lemma NotMine(sh: Shared, c: ClientId, task: Task, pc: Pc)
    requires Lone(sh, c, task, pc) && task.Committing? && pc.PutTombstone?
    ensures pc.txid != task.txid
  {
    var k := KeyOf(task);
    assert IsMask(sh, k, |Obj(sh, k).log| - 1);
    assert k !in task.objects[..|task.masked|];
  }

  lemma HelpCloser(sh: Shared, c: ClientId, task: Task, pc: Pc, ch: Choice)
    requires LoneCommit(sh, c, task, pc) && AtClean(task) && !pc.ReadObject? && !pc.Act?
    requires ch.expired && Lists(ch.order, Iterated(sh, Busy(task, pc)))
    ensures Closer(task, CommitCost(sh, task, pc), Step(sh, Busy(task, pc), ch))
  {
    HelpNearer(sh, c, task, pc, ch);
    HelpsOthers(sh, c, task, pc, ch);
    RestHelped(sh, c, task, pc, ch, task.objects[|task.masked| + 1..]);
    NearerIsCloser(sh, task, pc, Step(sh, Busy(task, pc), ch));
  }

  lemma RestHelped(sh: Shared, c: ClientId, task: Task, pc: Pc, ch: Choice, ks: seq<Key>)
    requires Lone(sh, c, task, pc) && task.Committing? && !pc.ReadObject? && !pc.Act?
    ensures Waiting(Step(sh, Busy(task, pc), ch).0, ks) <= Waiting(sh, ks)
  {
    forall x | x in ks ensures Cost(Step(sh, Busy(task, pc), ch).0, x, ReadObject) <= Cost(sh, x, ReadObject) {
      HelpFalls(sh, c, task, pc, ch, x);
    }
    WaitingFalls(sh, Step(sh, Busy(task, pc), ch).0, ks);
  }

  lemma NearerIsCloser(sh: Shared, task: Task, pc: Pc, next: (Shared, Client))
    requires task.Committing? && AtClean(task) && Untouched(sh, task) && !pc.Act? && Nearer(task, Cost(sh, KeyOf(task), pc), next)
    requires Tx(next.0, task.txid) == Tx(sh, task.txid)
    requires Waiting(next.0, task.objects[|task.masked| + 1..]) <= Waiting(sh, task.objects[|task.masked| + 1..])
    ensures Closer(task, CommitCost(sh, task, pc), next)
  {
  }

  // ---------- its own objects ----------

  lemma {:induction false} AtMost(s: seq<Key>)
    ensures |set k | k in s| <= |s|
  {
    if s == [] {
      assert (set k | k in s) == {};
    } else {
      AtMost(s[1..]);
      assert (set k | k in s) == (set k | k in s[1..]) + {s[0]};
    }
  }

  lemma OrderLength(sh: Shared, task: Task, order: seq<Key>)
    requires task.Committing? && AtClean(task) && Lists(order, Iterated(sh, Busy(task, ReadObject)))
    ensures |order| <= |task.objects|
  {
    ListLength(order, Iterated(sh, Busy(task, ReadObject)));
    AtMost(task.objects[..|task.masked|]);
  }

  lemma SameWaiting(sh: Shared, sh': Shared, ks: seq<Key>)
    requires sh'.objs == sh.objs && sh'.txs == sh.txs
    ensures Waiting(sh', ks) <= Waiting(sh, ks)
  {
    forall x | x in ks ensures Cost(sh', x, ReadObject) <= Cost(sh, x, ReadObject) {
      assert Obj(sh', x) == Obj(sh, x);
      assert IsMasked(sh, x) ==> Tx(sh', Top(Obj(sh, x)).txid) == Tx(sh, Top(Obj(sh, x)).txid);
    }
    WaitingFalls(sh, sh', ks);
  }

  /** A rejection ends the masking; what is masked is unmasked first. */
  lemma RaiseCloser(sh: Shared, task: Task, k: Key, e: Error, order: seq<Key>, cost: int)
    requires task.Committing? && AtClean(task) && e != Inconsistent && |order| <= |task.objects| && cost > 2 * |task.objects|
    ensures Closer(task, cost, Raise(sh, task, k, e, order))
  {
  }

  lemma ReadCloser(sh: Shared, c: ClientId, task: Task, ch: Choice)
    requires LoneCommit(sh, c, task, ReadObject) && AtClean(task) && Lists(ch.order, Iterated(sh, Busy(task, ReadObject)))
    ensures Closer(task, CommitCost(sh, task, ReadObject), DoReadObject(sh, task, ch))
  {
    var cost := CommitCost(sh, task, ReadObject);
    OrderLength(sh, task, ch.order);
    var cell := Obj(sh, KeyOf(task));
    var check := Check(cell, RawReadRules(RulesOf(task)));
    if check.Some? && (check != Some(NoObject) || RulesOf(task).objectDoesntExist) {
      RaiseCloser(sh, task, KeyOf(task), check.value, ch.order, cost);
    } else if check.None? && Top(cell).Clean? && RulesOf(task).objectExists {
      RaiseCloser(sh, task, KeyOf(task), ObjectExists, ch.order, cost);
    } else if IsMasked(sh, KeyOf(task)) {
      MaskedCloser(sh, c, task, ch);
    } else {
      CleanCloser(sh, task, ch);
    }
  }

  lemma MaskedCloser(sh: Shared, c: ClientId, task: Task, ch: Choice)
    requires LoneCommit(sh, c, task, ReadObject) && AtClean(task) && IsMasked(sh, KeyOf(task))
    requires Check(Obj(sh, KeyOf(task)), RawReadRules(RulesOf(task))).None?
    ensures Closer(task, CommitCost(sh, task, ReadObject), DoReadObject(sh, task, ch))
  {
    MaskedNearer(sh, c, task, ch);
  }

  lemma CleanCloser(sh: Shared, task: Task, ch: Choice)
    requires task.Committing? && Untouched(sh, task) && AtClean(task) && !IsMasked(sh, KeyOf(task))
    requires var check := Check(Obj(sh, KeyOf(task)), RawReadRules(RulesOf(task)));
             if check.Some? then check == Some(NoObject) && !RulesOf(task).objectDoesntExist else !RulesOf(task).objectExists
    ensures Closer(task, CommitCost(sh, task, ReadObject), DoReadObject(sh, task, ch))
  {
  }

  /** The mask succeeds, since nobody was there between the read and it. */
  lemma ActCloser(sh: Shared, c: ClientId, task: Task, found: Option<(Data, nat)>)
    requires LoneCommit(sh, c, task, Act(found)) && AtClean(task)
    ensures Closer(task, CommitCost(sh, task, Act(found)), DoAct(sh, task, found))
  {
    var task' := task.(masked := task.masked + [|Obj(sh, KeyOf(task)).log| + 1]);
    MaskGoesOn(sh, task, found, task');
    RestFalls(sh, c, task, DoAct(sh, task, found).0);
    NextCloser(sh, task, DoAct(sh, task, found).0, task');
  }

  lemma RestFalls(sh: Shared, c: ClientId, task: Task, sh': Shared)
    requires task.Committing? && AtClean(task) && TaskInv(sh, c, task)
    requires sh'.txs == sh.txs && forall x | x != KeyOf(task) :: Obj(sh', x) == Obj(sh, x)
    ensures Waiting(sh', task.objects[|task.masked| + 1..]) <= Waiting(sh, task.objects[|task.masked| + 1..])
  {
    var rest := task.objects[|task.masked| + 1..];
    forall x | x in rest ensures Cost(sh', x, ReadObject) <= Cost(sh, x, ReadObject) {
      assert x != KeyOf(task);
      assert IsMasked(sh, x) ==> Tx(sh', Top(Obj(sh, x)).txid) == Tx(sh, Top(Obj(sh, x)).txid);
    }
    WaitingFalls(sh, sh', rest);
  }

  lemma NextCloser(sh: Shared, task: Task, sh': Shared, task': Task)
    requires task.Committing? && AtClean(task) && Tx(sh', task.txid).log == []
    requires task'.Committing? && task' == task.(masked := task'.masked) && |task'.masked| == |task.masked| + 1
    requires Waiting(sh', task.objects[|task.masked| + 1..]) <= Waiting(sh, task.objects[|task.masked| + 1..])
    ensures Closer(task, 1 + Waiting(sh, task.objects[|task.masked| + 1..]) + 2 * |task.objects| + 2, (sh', NextMask(task')))
  {
    var j := |task.masked|;
    if j + 1 < |task.objects| { assert task.objects[j + 1..][1..] == task.objects[j + 2..]; }
  }

  lemma MaskGoesOn(sh: Shared, task: Task, found: Option<(Data, nat)>, task': Task)
    requires AtAct(task, found) && task.Committing? && Fresh(sh, KeyOf(task), Act(found))
    requires task' == task.(masked := task.masked + [|Obj(sh, KeyOf(task)).log| + 1])
    ensures DoAct(sh, task, found).1 == NextMask(task') && DoAct(sh, task, found).0.txs == sh.txs
    ensures forall x | x != KeyOf(task) :: Obj(DoAct(sh, task, found).0, x) == Obj(sh, x)
  {
  }

  lemma IntentCloser(sh: Shared, c: ClientId, task: Task, ch: Choice)
    requires LoneCommit(sh, c, task, PutIntent) && Lists(ch.order, Iterated(sh, Busy(task, PutIntent)))
    ensures Closer(task, CommitCost(sh, task, PutIntent), DoPutIntent(sh, task, ch))
  {
    ListLength(ch.order, task.mt.Keys);
    ListLength(task.objects, task.mt.Keys);
    FreshIntent(sh, task, ch);
  }

  /** Nothing is in the way of the intent. */
  lemma FreshIntent(sh: Shared, task: Task, ch: Choice)
    requires AtPutIntent(task) && Tx(sh, task.txid).log == [] && |ch.order| == |task.objects|
    ensures Closer(task, 2 * |task.objects| + 2, DoPutIntent(sh, task, ch))
  {
  }

  lemma ApplyCloser(sh: Shared, c: ClientId, task: Task, pc: Pc, ch: Choice)
    requires LoneCommit(sh, c, task, pc) && !AtClean(task) && (pc.ApplyRead? || pc.ApplyWrite? || pc.DeleteIntent?)
    ensures Closer(task, CommitCost(sh, task, pc), Step(sh, Busy(task, pc), ch))
  {
    if pc.ApplyRead? { ApplyReadCloser(sh, c, task, pc, ch); }
  }

  lemma ApplyReadCloser(sh: Shared, c: ClientId, task: Task, pc: Pc, ch: Choice)
    requires LoneCommit(sh, c, task, pc) && !AtClean(task) && pc.ApplyRead?
    ensures Closer(task, CommitCost(sh, task, pc), Step(sh, Busy(task, pc), ch))
  {
    assert task.phase.Committed?;
    OwnRead(sh, task, pc.txid, pc.mt, pc.todo, pc.intentVersion);
  }

  lemma OwnRead(sh: Shared, task: Task, t: Txid, mt: MiniTransaction, todo: seq<Key>, iv: nat)
    requires TaskOk(task) && task.Committing? && task.phase.Committed? && todo != [] && t == task.txid && IntentThere(sh, t)
    ensures Closer(task, 2 * |todo| + 1, DoApplyRead(sh, task, t, mt, todo, iv))
  {
  }

  lemma UnmaskCloser(sh: Shared, c: ClientId, task: Task, pc: Pc, ch: Choice)
    requires LoneCommit(sh, c, task, pc) && !AtClean(task) && (pc.UnmaskRead? || pc.UnmaskWrite?)
    ensures Closer(task, CommitCost(sh, task, pc), Step(sh, Busy(task, pc), ch))
  {
  }

  /** Writing its own transaction back, or taking its masks off. */
  lemma OwnCloser(sh: Shared, c: ClientId, task: Task, pc: Pc, ch: Choice)
    requires LoneCommit(sh, c, task, pc) && !AtClean(task) && !pc.PutIntent?
    ensures Closer(task, CommitCost(sh, task, pc), Step(sh, Busy(task, pc), ch))
  {
    if pc.UnmaskRead? || pc.UnmaskWrite? {
      UnmaskCloser(sh, c, task, pc, ch);
    } else {
      ApplyCloser(sh, c, task, pc, ch);
    }
  }

  lemma CommitCloser(sh: Shared, c: ClientId, task: Task, pc: Pc, ch: Choice)
    requires LoneCommit(sh, c, task, pc) && ch.expired && Lists(ch.order, Iterated(sh, Busy(task, pc)))
    ensures Closer(task, CommitCost(sh, task, pc), Step(sh, Busy(task, pc), ch))
  {
    if !AtClean(task) {
      if pc.PutIntent? { IntentCloser(sh, c, task, ch); } else { OwnCloser(sh, c, task, pc, ch); }
    } else if pc.ReadObject? {
      ReadCloser(sh, c, task, ch);
    } else if pc.Act? {
      ActCloser(sh, c, task, pc.found);
    } else {
      HelpCloser(sh, c, task, pc, ch);
    }
  }

  // ---------- the whole call ----------

  ghost predicate EndsWell(t: Txid, o: Outcome) {
    match o case TxCommitted(s, _) => s == t case TxRejected(s, _, _) => s == t case _ => false
  }

  ghost predicate OnTheWay(sh: Shared, c: ClientId, cl: Client, t: Txid, steps: nat, bound: int) {
    match cl
    case Busy(task, pc) => LoneCommit(sh, c, task, pc) && task.txid == t && steps + CommitCost(sh, task, pc) <= bound
    case Idle(o) => EndsWell(t, o) && steps <= bound
  }

  lemma CommitStep(w: World, c: ClientId, order: seq<Key>, t: Txid, steps: nat, bound: int)
    requires c in w.clients && w.clients[c].Busy? && OnTheWay(w.sh, c, w.clients[c], t, steps, bound)
    requires Enabled(w, Run(c, Choice(true, order)))
    ensures var w' := Do(w, Run(c, Choice(true, order))); c in w'.clients && OnTheWay(w'.sh, c, w'.clients[c], t, steps + 1, bound)
  {
    var cl := w.clients[c];
    CostIsPositive(w.sh, c, cl.task, cl.pc);
    StepKept(w.sh, c, cl, Choice(true, order));
    CommitCloser(w.sh, c, cl.task, cl.pc, Choice(true, order));
  }

  lemma CostIsPositive(sh: Shared, c: ClientId, task: Task, pc: Pc)
    requires LoneCommit(sh, c, task, pc)
    ensures CommitCost(sh, task, pc) >= 1
  {
    assert pc.ApplyRead? || pc.ApplyWrite? || pc.UnmaskRead? || pc.UnmaskWrite? ==> |pc.todo| >= 1;
  }

  lemma {:induction false} AloneCommits(ws: seq<World>, orders: seq<seq<Key>>, c: ClientId, t: Txid, n: nat, bound: int)
    requires n < |ws| && n <= |orders| && Alone(ws, orders, c, n)
    requires c in ws[0].clients && OnTheWay(ws[0].sh, c, ws[0].clients[c], t, 0, bound)
    ensures c in ws[n].clients && OnTheWay(ws[n].sh, c, ws[n].clients[c], t, n, bound)
  {
    if n > 0 {
      AloneCommits(ws, orders, c, t, n - 1, bound);
      CommitStep(ws[n - 1], c, orders[n - 1], t, n - 1, bound);
    }
  }

  lemma CommitStarts(w: World, c: ClientId, t: Txid, mt: MiniTransaction, objects: seq<Key>) returns (task: Task, pc: Pc)
    requires Inv(w) && Enabled(w, Begin(c, AskCommit(t, mt, objects)))
    ensures var w' := Do(w, Begin(c, AskCommit(t, mt, objects)));
            c in w'.clients && w'.clients[c] == Busy(task, pc) && task.Committing? && task.txid == t && LoneCommit(w'.sh, c, task, pc)
  {
    task, pc := Committing(t, mt, objects, [], Masking), if |objects| == 0 then PutIntent else ReadObject;
    InvKept(w, Begin(c, AskCommit(t, mt, objects)));
    assert TxOk(w.sh, t);
    var w' := Do(w, Begin(c, AskCommit(t, mt, objects)));
    assert ClientInv(w'.sh, c, w'.clients[c]);
  }

  /** Begin a transaction in any reachable state, however many clients stopped and wherever they did, and
    * let its coordinator run alone with its clock past the timeouts. It cannot take more raw operations
    * than `CommitCost` says, and it is told that the transaction committed or that a rule was broken.
    */
  lemma SoloCommits(r: Trace, m: nat, ws: seq<World>, orders: seq<seq<Key>>, c: ClientId, t: Txid, mt: MiniTransaction, objects: seq<Key>)
      returns (bound: nat)
    requires IsTrace(r) && m < |r.worlds| && |ws| == |orders| + 1
    requires Enabled(r.worlds[m], Begin(c, AskCommit(t, mt, objects))) && ws[0] == Do(r.worlds[m], Begin(c, AskCommit(t, mt, objects)))
    requires Alone(ws, orders, c, |orders|)
    ensures ws[0].clients[c].Busy? && ws[0].clients[c].task.Committing? && bound == CommitCost(ws[0].sh, ws[0].clients[c].task, ws[0].clients[c].pc)
    ensures |orders| <= bound && c in ws[|orders|].clients
    ensures ws[|orders|].clients[c].Idle? ==> EndsWell(t, ws[|orders|].clients[c].outcome)
    ensures |orders| == bound ==> ws[|orders|].clients[c].Idle?
  {
    Reachable(r, m);
    var task, pc := CommitStarts(r.worlds[m], c, t, mt, objects);
    CostIsPositive(ws[0].sh, c, task, pc);
    bound := CommitCost(ws[0].sh, task, pc);
    AloneCommits(ws, orders, c, t, |orders|, bound);
    var cl := ws[|orders|].clients[c];
    if cl.Busy? { CostIsPositive(ws[|orders|].sh, c, cl.task, cl.pc); }
  }
}
