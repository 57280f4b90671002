/** What the callers of single operations and transactions get for what they asked. */
module Requests {
  import opened RamCloud
  import opened Protocol
  import opened Invariant
  import opened Steps
  import opened Refinement
  import opened Outcomes

  /** The client is carrying out the request. */
  ghost predicate CarriesOut(cl: Client, request: Request) {
    cl.Busy? &&
    match request
    case AskRead(k, rr) => cl.task == Reading(k, rr)
    case AskWrite(k, data, rr) => cl.task == Writing(k, data, rr) || cl.task == Updating(k, data, rr)
    case AskDelete(k, rr) => cl.task == Deleting(k, rr)
    case AskCommit(t, mt, objects) =>
      cl.task.Committing? && cl.task.txid == t && cl.task.mt == mt && cl.task.objects == objects
  }

  /** What a caller may be told, in terms of what it asked for and of the store in the step in which it is
    * told. A read returns the clean object there is, which breaks none of the caller's rules. A write has
    * just put the caller's data as the next version of an object, or of none, that broke none of them; a
    * delete has just removed such an object. A refusal names a rule of the caller that is broken. When a
    * transaction has committed or expired, the step has just deleted its intent or the tombstone.
    */
  ghost predicate Serves(sh: Shared, request: Request, o: Outcome, sh': Shared) {
    match request
    case AskRead(k, rr) =>
      if o.Found? then
        o.key == k && Obj(sh, k).present && o.version == |Obj(sh, k).log| && Top(Obj(sh, k)) == Clean(o.data) && RulesMet(sh, k, rr)
      else
        o.Failed? && Refuses(Obj(sh, k), rr.(objectDoesntExist := true), o.error)
    case AskWrite(k, data, rr) =>
      if o.Wrote? then
        && o.key == k && o.data == data && o.version == |Obj(sh, k).log| + 1
        && RulesMet(sh, k, rr) && Becomes(sh, sh', k, Cell(Obj(sh, k).log + [Clean(data)], true))
      else
        o.Failed? && Refuses(Obj(sh, k), rr, o.error)
    case AskDelete(k, rr) =>
      if o.Deleted? then
        o.key == k && RulesMet(sh, k, rr) && Becomes(sh, sh', k, Cell(Obj(sh, k).log, false))
      else
        o.Failed? && Refuses(Obj(sh, k), rr, o.error)
    case AskCommit(t, _, _) =>
      match o
      case TxCommitted(s, _) => s == t && !Tx(sh', t).present
      case TxRejected(s, _, _) => s == t
      case TxExpired(s) => s == t && !Tx(sh', t).present
      case Failed(e) => e == Inconsistent
      case _ => false
  }

  /** The event of that step in the logical store, for a single operation. */
  ghost predicate Happens(e: Event, request: Request, o: Outcome) {
    match request
    case AskRead(k, _) => if o.Found? then e == Saw(k, Some(o.data)) else RefusedAs(e, k, o)
    case AskWrite(k, data, rr) => if o.Wrote? then e == Stored(k, data, rr) else RefusedAs(e, k, o)
    case AskDelete(k, rr) => if o.Deleted? then e == Erased(k, rr) else RefusedAs(e, k, o)
    case AskCommit(_, _, _) => true
  }

  ghost predicate RefusedAs(e: Event, k: Key, o: Outcome) {
    o.Failed? &&
    match o.error
    case NoObject => e == Saw(k, None)
    case Inconsistent => e == Internal
    case _ => (e.Saw? && e.key == k && e.value.Some?) || e == Misled(k)
  }

  lemma StartCarriesOut(request: Request)
    ensures CarriesOut(Start(request), request)
  {
  }

  lemma ActCarriesOn(sh: Shared, task: Task, found: Option<(Data, nat)>, request: Request)
    requires AtAct(task, found) && CarriesOut(Busy(task, Act(found)), request)
    ensures DoAct(sh, task, found).1.Busy? ==> CarriesOut(DoAct(sh, task, found).1, request)
  {
  }

  lemma SingleCarriesOn(sh: Shared, cl: Client, ch: Choice)
    requires cl.Busy? && Coherent(cl) && !cl.task.Committing? && !cl.pc.Act?
    ensures Step(sh, cl, ch).1.Busy? ==> Step(sh, cl, ch).1.task == cl.task
  {
  }

  lemma CommitCarriesOn(sh: Shared, cl: Client, ch: Choice, request: Request)
    requires cl.Busy? && Coherent(cl) && cl.task.Committing? && !cl.pc.Act? && CarriesOut(cl, request)
    ensures Step(sh, cl, ch).1.Busy? ==> CarriesOut(Step(sh, cl, ch).1, request)
  {
  }

  lemma StepCarriesOn(sh: Shared, cl: Client, ch: Choice, request: Request)
    requires cl.Busy? && Coherent(cl) && CarriesOut(cl, request)
    ensures Step(sh, cl, ch).1.Busy? ==> CarriesOut(Step(sh, cl, ch).1, request)
  {
    if cl.pc.Act? {
      ActCarriesOn(sh, cl.task, cl.pc.found, request);
    } else if cl.task.Committing? {
      CommitCarriesOn(sh, cl, ch, request);
    } else {
      SingleCarriesOn(sh, cl, ch);
    }
  }

  /** In label b client c made its request, and since then, up to step n, it has only been carrying it out. */
  ghost predicate LastAsked(r: Trace, b: nat, n: nat, c: ClientId) {
    && b < n <= |r.labels| && r.labels[b].Begin? && r.labels[b].c == c
    && forall i | b < i < n && r.labels[i].c == c :: r.labels[i].Run?
  }

  lemma NobodyBusyAtFirst(w: World, c: ClientId)
    requires Init(w) && c in w.clients
    ensures w.clients[c].Idle?
  {
  }

  lemma LabelCarriesOn(w: World, l: Label, c: ClientId, request: Request)
    requires Enabled(w, l) && c in w.clients && Do(w, l).clients[c].Busy?
    ensures l.c == c && !l.Run? ==> l.Begin? && CarriesOut(Do(w, l).clients[c], l.request)
    ensures l.c != c || l.Run? ==> w.clients[c].Busy? && (CarriesOut(w.clients[c], request) ==> CarriesOut(Do(w, l).clients[c], request))
  {
    if l.c == c && l.Run? {
      if CarriesOut(w.clients[c], request) { StepCarriesOn(w.sh, w.clients[c], l.choice, request); }
    } else if l.c == c && l.Begin? {
      StartCarriesOut(l.request);
    }
  }

  /** A busy client is carrying out its last request. */
  lemma {:induction false} BusyWithLast(r: Trace, n: nat, c: ClientId) returns (b: nat)
    requires IsTrace(r) && n < |r.worlds| && c in r.worlds[n].clients && r.worlds[n].clients[c].Busy?
    ensures LastAsked(r, b, n, c) && CarriesOut(r.worlds[n].clients[c], r.labels[b].request)
  {
    if n == 0 {
      NobodyBusyAtFirst(r.worlds[0], c);
    } else {
      var w, l := r.worlds[n - 1], r.labels[n - 1];
      StepAt(r, n - 1, |r.labels|);
      DoKeepsClients(w, l);
      if l.c == c && l.Begin? {
        b := n - 1;
        LabelCarriesOn(w, l, c, l.request);
      } else {
        LabelCarriesOn(w, l, c, AskRead(Key(0, 0), NO_RULES));
        b := BusyWithLast(r, n - 1, c);
        LabelCarriesOn(w, l, c, r.labels[b].request);
      }
    }
  }

  lemma ServedAsAsked(sh: Shared, cl: Client, ch: Choice, request: Request)
    requires cl.Busy? && Coherent(cl) && CarriesOut(cl, request) && Reports(sh, cl, ch) && Step(sh, cl, ch).1.Idle?
    requires PcInv(sh, cl.task, cl.pc)
    ensures Serves(sh, request, Step(sh, cl, ch).1.outcome, Step(sh, cl, ch).0)
    ensures Happens(StepEvent(sh, cl, ch), request, Step(sh, cl, ch).1.outcome)
  {
    if cl.task.Committing? { TableLeftClean(sh, cl, ch); }
  }

  lemma TableLeftClean(sh: Shared, cl: Client, ch: Choice)
    requires cl.Busy? && Coherent(cl) && cl.task.Committing? && PcInv(sh, cl.task, cl.pc) && Step(sh, cl, ch).1.Idle?
    ensures var o := Step(sh, cl, ch).1.outcome; o.TxCommitted? || o.TxExpired? ==> !Tx(Step(sh, cl, ch).0, cl.task.txid).present
  {
    if !cl.pc.DeleteIntent? && !cl.pc.DeleteTombstone? { EarlierEnd(sh, cl, ch); }
  }

  lemma EarlierEnd(sh: Shared, cl: Client, ch: Choice)
    requires cl.Busy? && Coherent(cl) && cl.task.Committing? && PcInv(sh, cl.task, cl.pc) && Step(sh, cl, ch).1.Idle?
    requires !cl.pc.DeleteIntent? && !cl.pc.DeleteTombstone?
    ensures Step(sh, cl, ch).1.outcome.Failed? || Step(sh, cl, ch).1.outcome.TxRejected?
  {
  }

  /** Every operation answers the request it was called with: when a client returns, its last request is
    * the one answered, with its own object, data and reject rules, in a step in which what it is told is true.
    */
  lemma ReturnsWhatWasAsked(r: Trace, n: nat, c: ClientId) returns (b: nat)
    requires IsTrace(r) && n < |r.labels| && r.labels[n].c == c && r.labels[n].Run?
    requires c in r.worlds[n + 1].clients && r.worlds[n + 1].clients[c].Idle?
    ensures LastAsked(r, b, n, c) && Enabled(r.worlds[n], r.labels[n])
    ensures Serves(r.worlds[n].sh, r.labels[b].request, r.worlds[n + 1].clients[c].outcome, r.worlds[n + 1].sh)
    ensures Happens(EventOf(r.worlds[n], r.labels[n]), r.labels[b].request, r.worlds[n + 1].clients[c].outcome)
  {
    var w, l := r.worlds[n], r.labels[n];
    Reachable(r, n);
    StepAt(r, n, |r.labels|);
    b := BusyWithLast(r, n, c);
    ReturnsAtItsEvent(w, l);
    assert ClientInv(w.sh, c, w.clients[c]);
    ServedAsAsked(w.sh, w.clients[c], l.choice, r.labels[b].request);
  }

  // ---------- patience ----------

  /** A client only comes to put a tombstone from reading that there is nothing at the txid of a mask
    * after the mask's time is up.
    */
  lemma PatientUntilTimeout(w: World, l: Label, c: ClientId)
    requires Inv(w) && Enabled(w, l) && c in w.clients
    requires c in Do(w, l).clients && Do(w, l).clients[c].Busy? && Do(w, l).clients[c].pc.PutTombstone?
    ensures w.clients[c].Busy? && (w.clients[c].pc.PutTombstone? || w.clients[c].pc.ReadTx?)
    ensures l.c == c ==> l.Run? && l.choice.expired && w.clients[c].pc.ReadTx?
                         && w.clients[c].pc.txid == Do(w, l).clients[c].pc.txid && !Tx(w.sh, w.clients[c].pc.txid).present
  {
    if l.c == c && l.Run? {
      PatientStep(w.sh, w.clients[c], l.choice);
    }
  }

  lemma PatientStep(sh: Shared, cl: Client, ch: Choice)
    requires cl.Busy? && Coherent(cl) && Step(sh, cl, ch).1.Busy? && Step(sh, cl, ch).1.pc.PutTombstone?
    ensures ch.expired && cl.pc.ReadTx? && Step(sh, cl, ch).1.pc.txid == cl.pc.txid && !Tx(sh, cl.pc.txid).present
  {
    if cl.pc.Act? { PatientAct(sh, cl.task, cl.pc.found); }
  }

  lemma PatientAct(sh: Shared, task: Task, found: Option<(Data, nat)>)
    requires AtAct(task, found)
    ensures DoAct(sh, task, found).1.Busy? ==> !DoAct(sh, task, found).1.pc.PutTombstone?
  {
  }
}
