/** What the outcomes of transactions say about the run behind them. */
module Outcomes {
  import opened RamCloud
  import opened Protocol
  import opened Invariant
  import opened Preservation
  import opened Steps
  import opened Refinement
  import opened Theorems
  import opened Anomalies

  // ---------- which versions a commit reports ----------

  /** Version v of k is, or was, there. */
  ghost predicate HasVersion(sh: Shared, k: Key, v: nat) {
    1 <= v <= |Obj(sh, k).log|
  }

  /** The operation leaves an object where `under` was under its mask. */
  ghost predicate Leaves(op: Op, under: Option<Data>) {
    match op case Touch(_) => under.Some? case Put(_, _) => true case Remove(_) => false
  }

  /** The write-back of t's operation leaves the version above the mask exactly when the operation leaves
    * an object: of a check what was under the mask, of a write its data. Otherwise it leaves none.
    */
  lemma WriteBackLeaves(w: World, l: Label, t: Txid, k: Key)
    requires Inv(w) && WritesBack(w, l, t, k)
    ensures t in w.sh.plan && k in w.sh.plan[t]
    ensures var sh, v, op, under := Do(w, l).sh, |Obj(w.sh, k).log| + 1, w.sh.plan[t][k], Top(Obj(w.sh, k)).under;
            && (HasVersion(sh, k, v) <==> Leaves(op, under)) && (Obj(sh, k).present <==> Leaves(op, under))
            && match op
               case Touch(_) => under.Some? ==> WasClean(sh, k, v, under.value)
               case Put(data, _) => WasClean(sh, k, v, data)
               case Remove(_) => !Obj(sh, k).present
  {
    OnlyTwoWaysOff(w, l, t, k);
    assert ClientInv(w.sh, l.c, w.clients[l.c]);
    assert IsMask(w.sh, k, |Obj(w.sh, k).log| - 1);
    ExactlyIsExact(Obj(w.sh, k), w.clients[l.c].pc.version);
  }

  lemma ReplaceAddsOne(sh: Shared, k: Key, rr: RejectRules, d: Option<Data>, l: Key)
    ensures AddsOne(sh, Replace(sh, k, rr, d).1, l)
  {
  }

  ghost predicate AddsOne(sh: Shared, sh': Shared, k: Key) {
    |Obj(sh', k).log| > |Obj(sh, k).log| ==> |Obj(sh', k).log| == |Obj(sh, k).log| + 1 && Obj(sh', k).present
  }

  /** A new version is the current one after the step that wrote it. */
  lemma StepAddsOne(sh: Shared, cl: Client, ch: Choice, k: Key)
    requires cl.Busy? && Coherent(cl)
    ensures AddsOne(sh, Step(sh, cl, ch).0, k)
  {
    if cl.pc.UnmaskWrite? {
      ReplaceAddsOne(sh, cl.pc.todo[0], NotAfter(cl.pc.version), cl.pc.under, k);
    } else if cl.pc.ApplyWrite? {
      ReplaceAddsOne(sh, cl.pc.todo[0], Exactly(cl.pc.version), Effect(cl.pc.mt[cl.pc.todo[0]], cl.pc.under), k);
    } else if cl.pc.Direct? || cl.pc.Act? {
    } else {
      SameObjects(sh, cl, ch);
    }
  }

  lemma LabelAddsOne(w: World, l: Label, k: Key)
    requires Enabled(w, l)
    ensures AddsOne(w.sh, Do(w, l).sh, k)
  {
    if l.Run? { StepAddsOne(w.sh, w.clients[l.c], l.choice, k); }
  }

  /** In the world before, the mask was on, at that version, or was not yet there. */
  lemma MaskBefore(sh: Shared, sh': Shared, c: ClientId, k: Key, v: nat, t: Txid)
    requires SharedInv(sh) && SharedInv(sh') && Evolves(sh, sh', c) && AddsOne(sh, sh', k)
    requires WasMasked(sh', k, v, t) && !MaskedBy(sh', k, t)
    ensures WasMasked(sh, k, v, t)
    ensures MaskedBy(sh, k, t) ==> |Obj(sh, k).log| == v
  {
    assert Obj(sh, k).log <= Obj(sh', k).log;
    if MaskedBy(sh, k, t) {
      assert OneMaskEach(sh, k);
      assert IsMask(sh, k, |Obj(sh, k).log| - 1) && IsMask(sh, k, v - 1);
    }
  }

  lemma NoMaskAtFirst(w: World, k: Key, v: nat, t: Txid)
    requires Init(w)
    ensures !WasMasked(w.sh, k, v, t)
  {
  }

  lemma MaskJustBefore(r: Trace, n: nat, k: Key, v: nat, t: Txid)
    requires IsTrace(r) && n < |r.labels| && WasMasked(r.worlds[n + 1].sh, k, v, t) && !MaskedBy(r.worlds[n + 1].sh, k, t)
    ensures WasMasked(r.worlds[n].sh, k, v, t)
    ensures MaskedBy(r.worlds[n].sh, k, t) ==> |Obj(r.worlds[n].sh, k).log| == v
  {
    StepAt(r, n, |r.labels|);
    TraceStep(r, n);
    LabelAddsOne(r.worlds[n], r.labels[n], k);
    MaskBefore(r.worlds[n].sh, r.worlds[n + 1].sh, r.labels[n].c, k, v, t);
  }

  /** The step of the run that took the mask off. */
  lemma {:induction false} MaskCameOff(r: Trace, n: nat, k: Key, v: nat, t: Txid) returns (m: nat)
    requires IsTrace(r) && n < |r.worlds| && WasMasked(r.worlds[n].sh, k, v, t) && !MaskedBy(r.worlds[n].sh, k, t)
    ensures m < n && MaskedBy(r.worlds[m].sh, k, t) && |Obj(r.worlds[m].sh, k).log| == v && !MaskedBy(r.worlds[m + 1].sh, k, t)
  {
    if n == 0 {
      NoMaskAtFirst(r.worlds[0], k, v, t);
    }
    m := n - 1;
    MaskJustBefore(r, m, k, v, t);
    if !MaskedBy(r.worlds[m].sh, k, t) {
      m := MaskCameOff(r, m, k, v, t);
    }
  }

  /** A version that a commit reports is the one that some client's write-back of k came to, and it has
    * ever named what the operation left if and only if the operation left an object.
    */
  lemma ReportedVersionExactly(r: Trace, n: nat, c: ClientId, k: Key) returns (m: nat)
    requires IsTrace(r) && n < |r.worlds| && c in r.worlds[n].clients && r.worlds[n].clients[c].Idle?
    requires var o := r.worlds[n].clients[c].outcome; o.TxCommitted? && k in o.versions && o.versions[k].Some?
    ensures var o := r.worlds[n].clients[c].outcome;
            && m < n && WritesBack(r.worlds[m], r.labels[m], o.txid, k)
            && o.txid in r.worlds[m].sh.plan && k in r.worlds[m].sh.plan[o.txid]
            && o.versions[k].value == |Obj(r.worlds[m].sh, k).log| + 1
            && (HasVersion(r.worlds[m + 1].sh, k, o.versions[k].value) <==>
                Leaves(r.worlds[m].sh.plan[o.txid][k], Top(Obj(r.worlds[m].sh, k)).under))
  {
    var o, sh := r.worlds[n].clients[c].outcome, r.worlds[n].sh;
    Reachable(r, n);
    assert ClientInv(sh, c, r.worlds[n].clients[c]);
    assert VersionTrue(sh, o.txid, k, sh.plan[o.txid][k], o.versions[k]);
    m := MaskCameOff(r, n, k, o.versions[k].value - 1, o.txid);
    Reachable(r, m);
    StepAt(r, m, |r.labels|);
    OnlyTwoWaysOff(r.worlds[m], r.labels[m], o.txid, k);
    if Dead(r.worlds[m].sh, o.txid) { FateStays(r, m, n, o.txid); }
    WriteBackLeaves(r.worlds[m], r.labels[m], o.txid, k);
  }

  // ---------- why a transaction was rejected ----------

  /** The client has a rejection of its transaction t to report, or has just reported it. */
  ghost predicate Complains(cl: Client, t: Txid, k: Key, e: Error) {
    match cl
    case Idle(o) => o == TxRejected(t, k, e)
    case Busy(task, _) => task.Committing? && task.txid == t && task.phase == Failing(k, e) && e != Inconsistent
  }

  /** The rules of t's operation on k refuse what is stored at k with this error, and rightly so for the
    * object there is, unless a mask hides that there is none.
    */
  ghost predicate Rejects(sh: Shared, t: Txid, k: Key, e: Error) {
    && t in sh.plan && k in sh.plan[t] && e != Inconsistent && Refuses(Obj(sh, k), sh.plan[t][k].rr, e)
    && (e == NoObject ==> Logical(sh, k) == None)
    && (e == ObjectExists ==> Logical(sh, k).Some?)
    && (e == WrongVersion ==> Logical(sh, k).Some? || HidesNothing(sh, k))
  }

  /** In this step c was about to mask k for t and its operation there was refused. To the logical store
    * that is looking at k, or being misled about it if a mask hides that there is no k.
    */
  ghost predicate Raises(sh: Shared, cl: Client, ch: Choice, t: Txid, k: Key, e: Error) {
    && cl.Busy? && cl.task.Committing? && cl.task.txid == t && cl.pc.ReadObject? && AtClean(cl.task) && KeyOf(cl.task) == k
    && Rejects(sh, t, k, e)
    && StepEvent(sh, cl, ch) == if HidesNothing(sh, k) then Misled(k) else Saw(k, Logical(sh, k))
  }

  lemma RaiseComplains(sh: Shared, task: Task, key: Key, error: Error, order: seq<Key>, t: Txid, k: Key, e: Error)
    requires TaskOk(task) && Complains(Raise(sh, task, key, error, order).1, t, k, e)
    ensures task.Committing? && task.phase.Masking? && t == task.txid && k == key && e == error && e != Inconsistent
  {
  }

  lemma ReadComplains(sh: Shared, c: ClientId, task: Task, ch: Choice, t: Txid, k: Key, e: Error)
    requires At(sh, c, task, ReadObject) && Complains(DoReadObject(sh, task, ch).1, t, k, e)
    ensures Raises(sh, Busy(task, ReadObject), ch, t, k, e)
  {
    HiddenIsAbsent(sh, KeyOf(task));
    var key, cell := KeyOf(task), Obj(sh, KeyOf(task));
    match Check(cell, RawReadRules(RulesOf(task)))
    case Some(error) =>
      RaiseComplains(sh, task, key, error, ch.order, t, k, e);
    case None =>
      RaiseComplains(sh, task, key, ObjectExists, ch.order, t, k, e);
  }

  lemma SingleNeverComplains(sh: Shared, cl: Client, ch: Choice, t: Txid, k: Key, e: Error)
    requires cl.Busy? && Coherent(cl) && !cl.task.Committing?
    ensures !Complains(Step(sh, cl, ch).1, t, k, e)
  {
    if cl.pc.Act? {
      ActNeverComplains(sh, cl.task, cl.pc.found, t, k, e);
    }
  }

  lemma ActNeverComplains(sh: Shared, task: Task, found: Option<(Data, nat)>, t: Txid, k: Key, e: Error)
    requires AtAct(task, found)
    ensures !Complains(DoAct(sh, task, found).1, t, k, e)
  {
  }

  lemma HelpComplains(task: Task, t: Txid, todo: seq<Key>, t': Txid, k: Key, e: Error)
    requires TaskOk(task) && Complains(StartUnmask(task, t', todo), t, k, e)
    ensures Complains(Busy(task, ReadObject), t, k, e)
  {
  }

  lemma LaterComplains(sh: Shared, c: ClientId, cl: Client, ch: Choice, t: Txid, k: Key, e: Error)
    requires cl.Busy? && Coherent(cl) && cl.task.Committing? && !cl.pc.ReadObject? && !cl.pc.Act?
    requires PcInv(sh, cl.task, cl.pc) && Complains(Step(sh, cl, ch).1, t, k, e)
    ensures Complains(cl, t, k, e)
  {
    if Complains(StartUnmask(cl.task, 0, []), t, k, e) { HelpComplains(cl.task, t, [], 0, k, e); }
    if cl.pc.UnmaskRead? || cl.pc.UnmaskWrite? {
      UnmaskComplains(sh, cl, ch, t, k, e);
    }
  }

  lemma UnmaskComplains(sh: Shared, cl: Client, ch: Choice, t: Txid, k: Key, e: Error)
    requires cl.Busy? && Coherent(cl) && cl.task.Committing? && (cl.pc.UnmaskRead? || cl.pc.UnmaskWrite?)
    requires Complains(Step(sh, cl, ch).1, t, k, e)
    ensures Complains(cl, t, k, e)
  {
    var todo := cl.pc.todo[1..];
    if Complains(StartUnmask(cl.task, cl.pc.txid, todo), t, k, e) { HelpComplains(cl.task, t, todo, cl.pc.txid, k, e); }
  }

  lemma StepComplains(sh: Shared, c: ClientId, cl: Client, ch: Choice, t: Txid, k: Key, e: Error)
    requires SharedInv(sh) && ClientInv(sh, c, cl) && cl.Busy? && Coherent(cl) && Complains(Step(sh, cl, ch).1, t, k, e)
    ensures Complains(cl, t, k, e) || Raises(sh, cl, ch, t, k, e)
  {
    if !cl.task.Committing? {
      SingleNeverComplains(sh, cl, ch, t, k, e);
    } else if cl.pc.ReadObject? {
      ReadComplains(sh, c, cl.task, ch, t, k, e);
    } else if cl.pc.Act? {
      ActNeverComplains(sh, cl.task, cl.pc.found, t, k, e);
    } else {
      LaterComplains(sh, c, cl, ch, t, k, e);
    }
  }

  lemma LabelComplains(w: World, l: Label, c: ClientId, t: Txid, k: Key, e: Error)
    requires Inv(w) && Enabled(w, l) && c in w.clients && Complains(Do(w, l).clients[c], t, k, e)
    ensures Complains(w.clients[c], t, k, e) || (l.c == c && l.Run? && Raises(w.sh, w.clients[c], l.choice, t, k, e))
  {
    assert ClientInv(w.sh, c, w.clients[c]);
    if l.c == c && l.Run? { StepComplains(w.sh, c, w.clients[c], l.choice, t, k, e); }
  }

  lemma DoKeepsClients(w: World, l: Label)
    requires Enabled(w, l)
    ensures Do(w, l).clients.Keys == w.clients.Keys
  {
  }

  /** The reason given for a rejection is true, unless a mask hides that there is no object: in the step
    * in which the client gave up, the object named did not meet the reject rules of its operation, in the
    * way that the error says, and that step is an event of the logical store.
    */
  lemma {:induction false} RejectionHasReason(r: Trace, n: nat, c: ClientId, t: Txid, k: Key, e: Error) returns (m: nat)
    requires IsTrace(r) && n < |r.worlds| && c in r.worlds[n].clients && Complains(r.worlds[n].clients[c], t, k, e)
    ensures m < n && r.labels[m].c == c && r.labels[m].Run? && c in r.worlds[m].clients
    ensures Raises(r.worlds[m].sh, r.worlds[m].clients[c], r.labels[m].choice, t, k, e)
  {
    if n > 0 {
      m := n - 1;
      Reachable(r, m);
      StepAt(r, m, |r.labels|);
      DoKeepsClients(r.worlds[m], r.labels[m]);
      LabelComplains(r.worlds[m], r.labels[m], c, t, k, e);
      if Complains(r.worlds[m].clients[c], t, k, e) {
        m := RejectionHasReason(r, m, c, t, k, e);
      }
    }
  }

  // ---------- a transaction happens once, while its coordinator is at work ----------

  ghost predicate Commits(sh: Shared, sh': Shared, t: Txid) {
    !IsCommitted(sh, t) && IsCommitted(sh', t)
  }

  ghost predicate IsCommitOf(e: Event, t: Txid) {
    e.AllAtOnce? && e.txid == t
  }

  lemma ActKeepsTxs(sh: Shared, task: Task, found: Option<(Data, nat)>)
    requires AtAct(task, found)
    ensures DoAct(sh, task, found).0.txs == sh.txs
  {
  }

  /** Outside the transaction table nothing commits. */
  lemma ElsewhereNoCommit(sh: Shared, cl: Client, ch: Choice, t: Txid)
    requires cl.Busy? && Coherent(cl) && !cl.pc.PutIntent? && !cl.pc.PutTombstone? && !cl.pc.DeleteIntent? && !cl.pc.DeleteTombstone?
    ensures !Commits(sh, Step(sh, cl, ch).0, t)
  {
    if cl.pc.Act? {
      ActKeepsTxs(sh, cl.task, cl.pc.found);
    }
    assert Tx(Step(sh, cl, ch).0, t) == Tx(sh, t);
  }

  lemma TableNoCommit(sh: Shared, cl: Client, ch: Choice, t: Txid)
    requires cl.Busy? && Coherent(cl) && (cl.pc.PutTombstone? || cl.pc.DeleteIntent? || cl.pc.DeleteTombstone?)
    ensures !Commits(sh, Step(sh, cl, ch).0, t)
  {
  }

  lemma NoCommitEvent(sh: Shared, cl: Client, ch: Choice, t: Txid)
    requires cl.Busy? && Coherent(cl) && !cl.pc.PutIntent?
    ensures !IsCommitOf(StepEvent(sh, cl, ch), t)
  {
  }

  lemma PutIntentCommits(sh: Shared, c: ClientId, task: Task, ch: Choice, t: Txid)
    requires At(sh, c, task, PutIntent)
    ensures Commits(sh, DoPutIntent(sh, task, ch).0, t) <==> IsCommitOf(StepEvent(sh, Busy(task, PutIntent), ch), t)
  {
    if !Tx(sh, task.txid).present {
      IntentLogged(sh, c, task);
    }
  }

  /** The event of a transaction is the step in which its first intent is created, and no other. */
  lemma CommitsAtEvent(w: World, l: Label, t: Txid)
    requires Inv(w) && Enabled(w, l)
    ensures Commits(w.sh, Do(w, l).sh, t) <==> IsCommitOf(EventOf(w, l), t)
  {
    if l.Run? {
      var cl := w.clients[l.c];
      assert ClientInv(w.sh, l.c, cl);
      if cl.pc.PutIntent? {
        PutIntentCommits(w.sh, l.c, cl.task, l.choice, t);
      } else {
        NoCommitEvent(w.sh, cl, l.choice, t);
        if cl.pc.PutTombstone? || cl.pc.DeleteIntent? || cl.pc.DeleteTombstone? {
          TableNoCommit(w.sh, cl, l.choice, t);
        } else {
          ElsewhereNoCommit(w.sh, cl, l.choice, t);
        }
      }
    }
  }

  /** Step n of the run is the event of transaction t. */
  ghost predicate CommitsIn(r: Trace, n: nat, t: Txid)
    requires IsTrace(r)
  {
    n < |r.labels| && Enabled(r.worlds[n], r.labels[n]) && IsCommitOf(EventOf(r.worlds[n], r.labels[n]), t)
  }

  lemma CommitMarks(r: Trace, n: nat, t: Txid)
    requires IsTrace(r) && CommitsIn(r, n, t)
    ensures !IsCommitted(r.worlds[n].sh, t) && IsCommitted(r.worlds[n + 1].sh, t)
  {
    Reachable(r, n);
    StepAt(r, n, |r.labels|);
    CommitsAtEvent(r.worlds[n], r.labels[n], t);
  }

  /** No transaction takes effect twice in a run, whatever becomes of its intent. */
  lemma CommitsAtMostOnce(r: Trace, m: nat, n: nat, t: Txid)
    requires IsTrace(r) && CommitsIn(r, m, t) && CommitsIn(r, n, t)
    ensures m == n
  {
    if m < n {
      NotAgain(r, m, n, t);
    } else if n < m {
      NotAgain(r, n, m, t);
    }
  }

  lemma NotAgain(r: Trace, m: nat, n: nat, t: Txid)
    requires IsTrace(r) && m < n && CommitsIn(r, m, t)
    ensures !CommitsIn(r, n, t)
  {
    CommitMarks(r, m, t);
    if n < |r.labels| {
      FateStays(r, m + 1, n, t);
      if CommitsIn(r, n, t) { CommitMarks(r, n, t); }
    }
  }

  /** The client works on its transaction t. */
  ghost predicate WorksOn(cl: Client, t: Txid, mt: MiniTransaction) {
    cl.Busy? && cl.task.Committing? && cl.task.txid == t && cl.task.mt == mt
  }

  /** The client has committed t and will say so, or has just said so. */
  ghost predicate Succeeds(cl: Client, t: Txid) {
    match cl
    case Idle(o) => o.TxCommitted? && o.txid == t
    case Busy(task, _) => task.Committing? && task.txid == t && task.phase.Committed?
  }

  lemma ActKeepsTask(sh: Shared, task: Task, found: Option<(Data, nat)>, t: Txid, mt: MiniTransaction)
    requires AtAct(task, found)
    ensures WorksOn(DoAct(sh, task, found).1, t, mt) ==> task.Committing? && task.txid == t && task.mt == mt
    ensures !Succeeds(DoAct(sh, task, found).1, t)
  {
  }

  lemma StepKeepsTask(sh: Shared, cl: Client, ch: Choice, t: Txid, mt: MiniTransaction)
    requires cl.Busy? && Coherent(cl) && WorksOn(Step(sh, cl, ch).1, t, mt)
    ensures WorksOn(cl, t, mt)
  {
    if cl.pc.Act? {
      ActKeepsTask(sh, cl.task, cl.pc.found, t, mt);
    }
  }

  lemma SingleNeverSucceeds(sh: Shared, cl: Client, ch: Choice, t: Txid)
    requires cl.Busy? && Coherent(cl) && !cl.task.Committing?
    ensures !Succeeds(Step(sh, cl, ch).1, t)
  {
    if cl.pc.Act? {
      ActKeepsTask(sh, cl.task, cl.pc.found, t, map[]);
    }
  }

  lemma StepSucceeds(sh: Shared, cl: Client, ch: Choice, t: Txid)
    requires cl.Busy? && Coherent(cl) && cl.task.Committing? && !cl.pc.PutIntent? && Succeeds(Step(sh, cl, ch).1, t)
    ensures Succeeds(cl, t)
  {
    if cl.pc.Act? {
      ActKeepsTask(sh, cl.task, cl.pc.found, t, map[]);
    }
  }

  lemma IntentSucceeds(sh: Shared, task: Task, ch: Choice, t: Txid)
    requires AtPutIntent(task) && Succeeds(DoPutIntent(sh, task, ch).1, t)
    ensures task.txid == t && StepEvent(sh, Busy(task, PutIntent), ch) == AllAtOnce(t, task.mt)
  {
  }

  lemma LabelSucceeds(w: World, l: Label, c: ClientId, t: Txid)
    requires Inv(w) && Enabled(w, l) && c in w.clients && Succeeds(Do(w, l).clients[c], t)
    ensures Succeeds(w.clients[c], t) || (l.c == c && IsCommitOf(EventOf(w, l), t) && WorksOn(w.clients[c], t, EventOf(w, l).mt))
  {
    var cl := w.clients[c];
    assert ClientInv(w.sh, c, cl);
    if l.c == c && l.Run? {
      if !cl.task.Committing? {
        SingleNeverSucceeds(w.sh, cl, l.choice, t);
      } else if cl.pc.PutIntent? {
        IntentSucceeds(w.sh, cl.task, l.choice, t);
      } else {
        StepSucceeds(w.sh, cl, l.choice, t);
      }
    }
  }

  /** The step in which a transaction took effect whose coordinator has committed it. */
  lemma {:induction false} SucceededAt(r: Trace, n: nat, c: ClientId, t: Txid) returns (m: nat)
    requires IsTrace(r) && n < |r.worlds| && c in r.worlds[n].clients && Succeeds(r.worlds[n].clients[c], t)
    ensures m < n && CommitsIn(r, m, t) && r.labels[m].c == c && c in r.worlds[m].clients
    ensures WorksOn(r.worlds[m].clients[c], t, EventOf(r.worlds[m], r.labels[m]).mt)
  {
    if n > 0 {
      m := n - 1;
      Reachable(r, m);
      StepAt(r, m, |r.labels|);
      DoKeepsClients(r.worlds[m], r.labels[m]);
      LabelSucceeds(r.worlds[m], r.labels[m], c, t);
      if Succeeds(r.worlds[m].clients[c], t) {
        m := SucceededAt(r, m, c, t);
      }
    }
  }

  ghost predicate Begins(l: Label, c: ClientId, t: Txid, mt: MiniTransaction) {
    l.Begin? && l.c == c && l.request.AskCommit? && l.request.txid == t && l.request.mt == mt
  }

  lemma LabelBegins(w: World, l: Label, c: ClientId, t: Txid, mt: MiniTransaction)
    requires Enabled(w, l) && c in w.clients && WorksOn(Do(w, l).clients[c], t, mt)
    ensures WorksOn(w.clients[c], t, mt) || Begins(l, c, t, mt)
  {
    if l.c == c && l.Run? {
      StepKeepsTask(w.sh, w.clients[c], l.choice, t, mt);
    }
  }

  lemma {:induction false} BegunAt(r: Trace, n: nat, c: ClientId, t: Txid, mt: MiniTransaction) returns (b: nat)
    requires IsTrace(r) && n < |r.worlds| && c in r.worlds[n].clients && WorksOn(r.worlds[n].clients[c], t, mt)
    ensures b < n && Begins(r.labels[b], c, t, mt)
  {
    if n > 0 {
      b := n - 1;
      StepAt(r, b, |r.labels|);
      DoKeepsClients(r.worlds[b], r.labels[b]);
      LabelBegins(r.worlds[b], r.labels[b], c, t, mt);
      if WorksOn(r.worlds[b].clients[c], t, mt) {
        b := BegunAt(r, b, c, t, mt);
      }
    }
  }

  /** A transaction that is reported committed took effect exactly once: in a step of its own
    * coordinator, after the call began and before it returned, with the operations it was called with.
    */
  lemma CommittedExactlyOnce(r: Trace, n: nat, c: ClientId, t: Txid) returns (b: nat, m: nat)
    requires IsTrace(r) && n < |r.worlds| && c in r.worlds[n].clients && r.worlds[n].clients[c].Idle?
    requires r.worlds[n].clients[c].outcome.TxCommitted? && r.worlds[n].clients[c].outcome.txid == t
    ensures b < m < n && CommitsIn(r, m, t) && Begins(r.labels[b], c, t, EventOf(r.worlds[m], r.labels[m]).mt)
    ensures r.labels[m].c == c && c in r.worlds[m].clients && WorksOn(r.worlds[m].clients[c], t, EventOf(r.worlds[m], r.labels[m]).mt)
    ensures forall i | CommitsIn(r, i, t) :: i == m
  {
    m := SucceededAt(r, n, c, t);
    b := BegunAt(r, m, c, t, EventOf(r.worlds[m], r.labels[m]).mt);
    forall i | CommitsIn(r, i, t) ensures i == m {
      CommitsAtMostOnce(r, i, m, t);
    }
  }

  /** The step in which a committed transaction took effect. */
  lemma {:induction false} CommittedSomewhere(r: Trace, n: nat, t: Txid) returns (m: nat)
    requires IsTrace(r) && n < |r.worlds| && IsCommitted(r.worlds[n].sh, t)
    ensures m < n && CommitsIn(r, m, t)
  {
    if n > 0 {
      m := n - 1;
      Reachable(r, m);
      StepAt(r, m, |r.labels|);
      if IsCommitted(r.worlds[m].sh, t) {
        m := CommittedSomewhere(r, m, t);
      } else {
        CommitsAtEvent(r.worlds[m], r.labels[m], t);
      }
    }
  }

  /** A transaction counts as committed exactly when it took effect in an earlier step. */
  lemma CommittedIffHappened(r: Trace, n: nat, t: Txid)
    requires IsTrace(r) && n < |r.worlds|
    ensures IsCommitted(r.worlds[n].sh, t) <==> exists m: nat :: m < n && CommitsIn(r, m, t)
  {
    if IsCommitted(r.worlds[n].sh, t) {
      var m := CommittedSomewhere(r, n, t);
    }
    forall m: nat | m < n && CommitsIn(r, m, t) ensures IsCommitted(r.worlds[n].sh, t) {
      CommitMarks(r, m, t);
      FateStays(r, m + 1, n, t);
    }
  }

  lemma CommittedAtEnd(r: Trace, i: nat, t: Txid)
    requires IsTrace(r) && CommitsIn(r, i, t)
    ensures IsCommitted(r.worlds[|r.labels|].sh, t)
  {
    CommitMarks(r, i, t);
    FateStays(r, i + 1, |r.labels|, t);
  }

  /** A transaction that is reported rejected or expired takes effect nowhere in the run. */
  lemma NeverCommits(r: Trace, n: nat, c: ClientId, i: nat)
    requires IsTrace(r) && n < |r.worlds| && c in r.worlds[n].clients && r.worlds[n].clients[c].Idle?
    requires r.worlds[n].clients[c].outcome.TxRejected? || r.worlds[n].clients[c].outcome.TxExpired?
    ensures !CommitsIn(r, i, r.worlds[n].clients[c].outcome.txid)
  {
    var t := r.worlds[n].clients[c].outcome.txid;
    OutcomesAreFinal(r, n, |r.labels|, c);
    if CommitsIn(r, i, t) { CommittedAtEnd(r, i, t); }
  }
}
