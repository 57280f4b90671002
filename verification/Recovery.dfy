/** Recovery: whatever others left behind when they stopped, a client that runs alone, with the
  * masks expired, gets its answer after a bounded number of raw operations.
  */
module Recovery {
  import opened RamCloud
  import opened Protocol
  import opened Invariant
  import opened Preservation
  import opened Steps
  import opened Refinement

  lemma {:induction false} ListLength(order: seq<Key>, keys: set<Key>)
    requires Lists(order, keys)
    ensures |order| == |keys|
  {
    if order == [] {
      assert keys == {};
    } else {
      var k := order[0];
      forall x | x in order[1..] ensures x in keys - {k} {
      }
      forall x | x in keys - {k} ensures x in order[1..] {
        assert order == [k] + order[1..];
      }
      ListLength(order[1..], keys - {k});
    }
  }

  /** k carries some mask. */
  ghost predicate IsMasked(sh: Shared, k: Key) {
    Obj(sh, k).present && Top(Obj(sh, k)).Masked?
  }

  /** Raw operations needed once the client knows that t masks its object. */
  ghost function CleanCost(sh: Shared, t: Txid): nat {
    if !Tx(sh, t).present then 5
    else match Top(Tx(sh, t)) case Tombstone => 4 case Intent(mt) => 2 * |mt| + 3
  }

  /** An upper bound on the raw operations up to and with the one that reads k clean. */
  ghost function Cost(sh: Shared, k: Key, pc: Pc): nat {
    match pc
    case ReadTx(t) => CleanCost(sh, t)
    case PutTombstone(_) => 4
    case UnmaskRead(_, _) => 3
    case UnmaskWrite(_, _, _, _) => 2
    case ApplyRead(_, _, todo, _) => 2 * |todo| + 2
    case ApplyWrite(_, _, todo, _, _, _) => 2 * |todo| + 1
    case DeleteIntent(_, _) => 2
    case _ => if IsMasked(sh, k) then 1 + CleanCost(sh, Top(Obj(sh, k)).txid) else 1
  }

  /** The bound for the whole task at its object: but for reads, one more operation comes after the clean read. */
  ghost function TaskCost(sh: Shared, task: Task, pc: Pc): nat
    requires AtClean(task)
  {
    if pc.Act? then 1 else Cost(sh, KeyOf(task), pc) + if task.Reading? then 0 else 1
  }

  /** What a client that runs alone knows stays so. */
  ghost predicate Fresh(sh: Shared, k: Key, pc: Pc) {
    match pc
    case ReadObject => true
    case Act(found) => if found.Some? then WasLast(sh, k, found.value.0, found.value.1) else !Obj(sh, k).present
    case ReadTx(t) => MaskedBy(sh, k, t)
    case PutTombstone(t) => MaskedBy(sh, k, t) && !Tx(sh, t).present
    case UnmaskRead(t, todo) => MaskedBy(sh, k, t) && todo == [k]
    case UnmaskWrite(t, todo, v, _) => MaskedBy(sh, k, t) && todo == [k] && |Obj(sh, k).log| == v
    case ApplyRead(t, _, todo, _) => IntentThere(sh, t) && (IsMasked(sh, k) ==> MaskedBy(sh, k, t))
    case ApplyWrite(t, _, todo, _, v, _) =>
      && IntentThere(sh, t) && (IsMasked(sh, k) ==> MaskedBy(sh, k, t))
      && todo != [] && MaskedBy(sh, todo[0], t) && |Obj(sh, todo[0]).log| == v
    case DeleteIntent(t, _) => IntentThere(sh, t) && !IsMasked(sh, k)
    case _ => false
  }

  ghost predicate WasLast(sh: Shared, k: Key, d: Data, v: nat) {
    Obj(sh, k).present && |Obj(sh, k).log| == v && Top(Obj(sh, k)) == Clean(d)
  }

  ghost predicate IntentThere(sh: Shared, t: Txid) {
    Tx(sh, t).present && |Tx(sh, t).log| == 1
  }

  /** Client c is on its way to a clean read of its next object, or right behind it, and alone. */
  ghost predicate Lone(sh: Shared, c: ClientId, task: Task, pc: Pc) {
    SharedInv(sh) && ClientInv(sh, c, Busy(task, pc)) && AtClean(task) && Fresh(sh, KeyOf(task), pc)
  }

  // ---------- getting rid of a mask ----------

  /** The next step of a helping client: it is still at it, and nearer to its clean read. */
  ghost predicate Nearer(task: Task, cost: nat, next: (Shared, Client))
    requires AtClean(task)
  {
    next.1.Busy? && next.1.task == task && !next.1.pc.Act? && Fresh(next.0, KeyOf(task), next.1.pc) && Cost(next.0, KeyOf(task), next.1.pc) < cost
  }

  lemma TxNearer(sh: Shared, c: ClientId, task: Task, pc: Pc, ch: Choice)
    requires Lone(sh, c, task, pc) && pc.ReadTx? && ch.expired && Lists(ch.order, Iterated(sh, Busy(task, pc)))
    ensures Nearer(task, Cost(sh, KeyOf(task), pc), Step(sh, Busy(task, pc), ch))
  {
    assert TxOk(sh, pc.txid);
    assert IsMask(sh, KeyOf(task), |Obj(sh, KeyOf(task)).log| - 1);
    ListLength(ch.order, Iterated(sh, Busy(task, pc)));
  }

  lemma UnmaskNearer(sh: Shared, c: ClientId, task: Task, pc: Pc, ch: Choice)
    requires Lone(sh, c, task, pc) && (pc.PutTombstone? || pc.UnmaskRead? || pc.UnmaskWrite?)
    ensures Nearer(task, Cost(sh, KeyOf(task), pc), Step(sh, Busy(task, pc), ch))
  {
  }

  lemma ApplyReadNearer(sh: Shared, c: ClientId, task: Task, pc: Pc, ch: Choice)
    requires Lone(sh, c, task, pc) && pc.ApplyRead?
    ensures Nearer(task, Cost(sh, KeyOf(task), pc), Step(sh, Busy(task, pc), ch))
  {
  }

  lemma ApplyWriteNearer(sh: Shared, c: ClientId, task: Task, pc: Pc, ch: Choice)
    requires Lone(sh, c, task, pc) && pc.ApplyWrite?
    ensures Nearer(task, Cost(sh, KeyOf(task), pc), Step(sh, Busy(task, pc), ch))
  {
  }

  lemma DeleteNearer(sh: Shared, c: ClientId, task: Task, pc: Pc, ch: Choice)
    requires Lone(sh, c, task, pc) && pc.DeleteIntent?
    ensures Nearer(task, Cost(sh, KeyOf(task), pc), Step(sh, Busy(task, pc), ch))
  {
  }

  lemma MaskedNearer(sh: Shared, c: ClientId, task: Task, ch: Choice)
    requires Lone(sh, c, task, ReadObject) && IsMasked(sh, KeyOf(task)) && Check(Obj(sh, KeyOf(task)), RawReadRules(RulesOf(task))).None?
    ensures Nearer(task, Cost(sh, KeyOf(task), ReadObject), Step(sh, Busy(task, ReadObject), ch))
  {
  }

  /** Helping brings the clean read nearer, whatever the client wants to do then. */
  lemma HelpNearer(sh: Shared, c: ClientId, task: Task, pc: Pc, ch: Choice)
    requires Lone(sh, c, task, pc) && !pc.ReadObject? && !pc.Act? && ch.expired && Lists(ch.order, Iterated(sh, Busy(task, pc)))
    ensures Nearer(task, Cost(sh, KeyOf(task), pc), Step(sh, Busy(task, pc), ch))
  {
    if pc.ReadTx? {
      TxNearer(sh, c, task, pc, ch);
    } else if pc.ApplyRead? {
      ApplyReadNearer(sh, c, task, pc, ch);
    } else if pc.ApplyWrite? {
      ApplyWriteNearer(sh, c, task, pc, ch);
    } else if pc.DeleteIntent? {
      DeleteNearer(sh, c, task, pc, ch);
    } else {
      UnmaskNearer(sh, c, task, pc, ch);
    }
  }

  // ---------- single operations ----------

  /** How an operation ends: with what it asked for, now in the store, or with an error that its caller's
    * reject rules ask for; never with an inconsistency, and a read never on a mask.
    */
  ghost predicate GoodEnd(sh: Shared, task: Task, o: Outcome)
    requires !task.Committing?
  {
    var k := task.key;
    match o
    case Found(l, d, v) => task.Reading? && l == k && WasLast(sh, k, d, v)
    case Wrote(l, d, v) => (task.Writing? || task.Updating?) && l == k && d == task.data && WasLast(sh, k, d, v)
    case Deleted(l) => task.Deleting? && l == k && !Obj(sh, k).present
    case Failed(NoObject) => !Obj(sh, k).present && (task.rr.objectDoesntExist || task.Reading?)
    case Failed(ObjectExists) => task.rr.objectExists && Obj(sh, k).present && Top(Obj(sh, k)).Clean?
    case Failed(WrongVersion) => Violates(Obj(sh, k), task.rr, WrongVersion)
    case _ => false
  }

  /** What one step of a lone client brings, apart from keeping the invariants. */
  ghost predicate OneLess(task: Task, cost: nat, next: (Shared, Client))
    requires !task.Committing?
  {
    if next.1.Busy? then next.1.task == task && Fresh(next.0, task.key, next.1.pc) && TaskCost(next.0, task, next.1.pc) < cost
    else GoodEnd(next.0, task, next.1.outcome)
  }

  lemma ReadOneLess(sh: Shared, c: ClientId, task: Task, ch: Choice)
    requires Lone(sh, c, task, ReadObject) && !task.Committing?
    ensures OneLess(task, TaskCost(sh, task, ReadObject), DoReadObject(sh, task, ch))
  {
  }

  lemma ActOneLess(sh: Shared, c: ClientId, task: Task, found: Option<(Data, nat)>)
    requires Lone(sh, c, task, Act(found)) && !task.Committing?
    ensures OneLess(task, 1, DoAct(sh, task, found))
  {
  }

  lemma StepOneLess(sh: Shared, c: ClientId, task: Task, pc: Pc, ch: Choice)
    requires Lone(sh, c, task, pc) && !task.Committing? && ch.expired && Lists(ch.order, Iterated(sh, Busy(task, pc)))
    ensures OneLess(task, TaskCost(sh, task, pc), Step(sh, Busy(task, pc), ch))
  {
    if pc.ReadObject? {
      ReadOneLess(sh, c, task, ch);
    } else if pc.Act? {
      ActOneLess(sh, c, task, pc.found);
    } else {
      HelpNearer(sh, c, task, pc, ch);
    }
  }

  ghost predicate Progress(c: ClientId, task: Task, cost: nat, next: (Shared, Client))
    requires AtClean(task) && !task.Committing?
  {
    if next.1.Busy? then next.1.task == task && Lone(next.0, c, task, next.1.pc) && TaskCost(next.0, task, next.1.pc) < cost
    else GoodEnd(next.0, task, next.1.outcome)
  }

  lemma StepProgress(w: World, c: ClientId, task: Task, order: seq<Key>)
    requires c in w.clients && w.clients[c].Busy? && w.clients[c].task == task && !task.Committing? && Lone(w.sh, c, task, w.clients[c].pc)
    requires Enabled(w, Run(c, Choice(true, order)))
    ensures var w' := Do(w, Run(c, Choice(true, order)));
            Progress(c, task, TaskCost(w.sh, task, w.clients[c].pc), (w'.sh, w'.clients[c]))
  {
    StepKept(w.sh, c, w.clients[c], Choice(true, order));
    StepOneLess(w.sh, c, task, w.clients[c].pc, Choice(true, order));
  }

  /** From ws[0] on, only client c moves, its clock past every timeout. */
  ghost predicate Alone(ws: seq<World>, orders: seq<seq<Key>>, c: ClientId, n: nat)
    requires n < |ws| && n <= |orders|
  {
    n > 0 ==>
      && Alone(ws, orders, c, n - 1)
      && Enabled(ws[n - 1], Run(c, Choice(true, orders[n - 1])))
      && ws[n] == Do(ws[n - 1], Run(c, Choice(true, orders[n - 1])))
  }

  lemma {:induction false} AloneProgress(ws: seq<World>, orders: seq<seq<Key>>, c: ClientId, task: Task, n: nat)
    requires n < |ws| && n <= |orders| && Alone(ws, orders, c, n)
    requires SharedInv(ws[0].sh) && c in ws[0].clients && ws[0].clients[c] == Busy(task, ReadObject) && !task.Committing?
    requires ClientInv(ws[0].sh, c, ws[0].clients[c])
    ensures c in ws[n].clients && AtClean(task)
    ensures var cl := ws[n].clients[c];
            if cl.Busy? then
              cl.task == task && Lone(ws[n].sh, c, task, cl.pc) && n + TaskCost(ws[n].sh, task, cl.pc) <= TaskCost(ws[0].sh, task, ReadObject)
            else n <= TaskCost(ws[0].sh, task, ReadObject) && GoodEnd(ws[n].sh, task, cl.outcome)
  {
    if n > 0 {
      AloneProgress(ws, orders, c, task, n - 1);
      StepProgress(ws[n - 1], c, task, orders[n - 1]);
    }
  }

  lemma CostsOne(sh: Shared, task: Task, pc: Pc)
    requires AtClean(task)
    ensures TaskCost(sh, task, pc) >= 1
  {
  }

  lemma Starts(r: Trace, m: nat, c: ClientId)
    requires IsTrace(r) && m < |r.worlds| && c in r.worlds[m].clients
    ensures SharedInv(r.worlds[m].sh) && ClientInv(r.worlds[m].sh, c, r.worlds[m].clients[c])
  {
    Reachable(r, m);
  }

  /** Solo recovery: start a read, write, update or delete in any reachable state, however many clients
    * stopped and wherever they did, and let its client run alone with its clock past the timeouts. It
    * cannot take more raw operations than `TaskCost` says, and it ends well.
    */
  lemma SoloRecovery(r: Trace, m: nat, ws: seq<World>, orders: seq<seq<Key>>, c: ClientId, task: Task)
    requires IsTrace(r) && m < |r.worlds| && |ws| == |orders| + 1 && ws[0] == r.worlds[m]
    requires c in ws[0].clients && ws[0].clients[c] == Busy(task, ReadObject) && !task.Committing?
    requires Alone(ws, orders, c, |orders|)
    ensures AtClean(task) && |orders| <= TaskCost(ws[0].sh, task, ReadObject)
    ensures c in ws[|orders|].clients
    ensures ws[|orders|].clients[c].Idle? ==> GoodEnd(ws[|orders|].sh, task, ws[|orders|].clients[c].outcome)
    ensures |orders| == TaskCost(ws[0].sh, task, ReadObject) ==> ws[|orders|].clients[c].Idle?
  {
    Starts(r, m, c);
    AloneProgress(ws, orders, c, task, |orders|);
    if ws[|orders|].clients[c].Busy? { CostsOne(ws[|orders|].sh, task, ws[|orders|].clients[c].pc); }
  }
}
