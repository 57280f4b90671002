/** Client-side transactions as a transition system. Each client is a program counter with
  * its locals; one step is one raw operation on the store together with the local work up
  * to the next raw operation. Any client may take the next step, and a client may stop for
  * good, or be abandoned and restarted, between any two raw operations.
  */
module Protocol {
  import opened RamCloud

  // ---------- data ----------

  datatype Key = Key(table: nat, oid: nat)

  /** The order in which Python sorts (table, oid) pairs. */
  predicate Before(a: Key, b: Key) {
    a.table < b.table || (a.table == b.table && a.oid < b.oid)
  }

  type Data = string
  type Txid = nat
  type ClientId = nat

  /** What a data object holds: plain data, or data under the mask of a transaction. A mask
    * without data is a seed: the object does not exist outside that transaction.
    */
  datatype Content = Clean(data: Data) | Masked(txid: Txid, under: Option<Data>)

  /** One operation of a minitransaction; a Touch only checks its reject rules. */
  datatype Op = Touch(rr: RejectRules) | Put(data: Data, rr: RejectRules) | Remove(rr: RejectRules)

  type MiniTransaction = map<Key, Op>

  datatype TxObject = Intent(mt: MiniTransaction) | Tombstone

  /** The store shared by all clients: data objects and the transaction table. The fields
    * `plan` and `open` only record what clients are up to: the minitransaction each txid
    * was drawn for, and which clients are still on their way to the commit point. No step
    * depends on them.
    */
  datatype Shared = Shared(
    objs: map<Key, Cell<Content>>,
    txs: map<Txid, Cell<TxObject>>,
    plan: map<Txid, MiniTransaction>,
    open: map<Txid, ClientId>)

  function Obj(sh: Shared, k: Key): Cell<Content> {
    if k in sh.objs then sh.objs[k] else Cell([], false)
  }

  function Tx(sh: Shared, t: Txid): Cell<TxObject> {
    if t in sh.txs then sh.txs[t] else Cell([], false)
  }

  function SetObj(sh: Shared, k: Key, c: Cell<Content>): Shared {
    sh.(objs := sh.objs[k := c])
  }

  function SetTx(sh: Shared, t: Txid, c: Cell<TxObject>): Shared {
    sh.(txs := sh.txs[t := c])
  }

  /** The coordinator of `t` gives up or passes the commit point. */
  function Close(sh: Shared, t: Txid): Shared {
    sh.(open := sh.open - {t})
  }

  // ---------- clients ----------

  datatype Phase =
    | Masking
    | Failing(key: Key, error: Error)  // unmasking before the error is raised
    | Expired                          // unmasking because a tombstone blocked the intent
    | Committed                        // past the point of no return

  /** What a client was called to do. A commit has masked objects[..|masked|]. */
  datatype Task =
    | Reading(key: Key, rr: RejectRules)
    | Updating(key: Key, data: Data, rr: RejectRules)
    | Writing(key: Key, data: Data, rr: RejectRules)
    | Deleting(key: Key, rr: RejectRules)
    | Committing(txid: Txid, mt: MiniTransaction, objects: seq<Key>, masked: seq<nat>, phase: Phase)

  /** The raw operation a busy client performs next. `Act` is the conditional operation of
    * the task itself, after a clean read; the other constructors from `ReadTx` on belong
    * to the procedures that clean up after a transaction.
    */
  datatype Pc =
    | Direct
    | ReadObject
    | Act(found: Option<(Data, nat)>)
    | ReadTx(txid: Txid)
    | PutTombstone(txid: Txid)
    | UnmaskRead(txid: Txid, todo: seq<Key>)
    | UnmaskWrite(txid: Txid, todo: seq<Key>, version: nat, under: Option<Data>)
    | ApplyRead(txid: Txid, mt: MiniTransaction, todo: seq<Key>, intentVersion: nat)
    | ApplyWrite(txid: Txid, mt: MiniTransaction, todo: seq<Key>, intentVersion: nat, version: nat, under: Option<Data>)
    | DeleteIntent(txid: Txid, intentVersion: nat)
    | PutIntent
    | DeleteTombstone

  datatype Outcome =
    | Started
    | Abandoned
    | Failed(error: Error)
    | Found(key: Key, data: Data, version: nat)
    | Wrote(key: Key, data: Data, version: nat)
    | Deleted(key: Key)
    | TxCommitted(txid: Txid, versions: map<Key, Option<nat>>)
    | TxRejected(txid: Txid, key: Key, error: Error)
    | TxExpired(txid: Txid)

  datatype Client = Idle(outcome: Outcome) | Busy(task: Task, pc: Pc)

  /** The free choices of a step: whether the clock is past the mask's timeout, and the
    * order in which a dictionary is iterated.
    */
  datatype Choice = Choice(expired: bool, order: seq<Key>)

  /** A commit only lists objects of its minitransaction; once committed, all are masked. */
  predicate TaskOk(task: Task) {
    task.Committing? ==>
      && (forall k :: k in task.objects ==> k in task.mt)
      && |task.masked| <= |task.objects|
      && (task.phase.Committed? ==> |task.masked| == |task.objects|)
  }

  /** The task is after a clean read of its object. */
  predicate AtClean(task: Task) {
    TaskOk(task) && (task.Committing? ==> task.phase.Masking? && |task.masked| < |task.objects|)
  }

  predicate AtAct(task: Task, found: Option<(Data, nat)>) {
    AtClean(task) && !task.Reading? && (found.None? ==> task.Writing? || task.Committing?)
  }

  predicate AtPutIntent(task: Task) {
    TaskOk(task) && task.Committing? && task.phase.Masking? && |task.masked| == |task.objects|
  }

  /** The locals each program point relies on exist. */
  predicate Coherent(cl: Client) {
    cl.Busy? ==>
      && TaskOk(cl.task)
      && match cl.pc
         case Direct => cl.task.Writing? || cl.task.Deleting?
         case ReadObject => AtClean(cl.task)
         case Act(found) => AtAct(cl.task, found)
         case ReadTx(_) => AtClean(cl.task)
         case PutTombstone(_) => AtClean(cl.task)
         case UnmaskRead(_, todo) => todo != []
         case UnmaskWrite(_, todo, _, _) => todo != []
         case ApplyRead(_, mt, todo, _) => todo != []
         case ApplyWrite(_, mt, todo, _, _, _) => todo != [] && todo[0] in mt
         case DeleteIntent(_, _) => true
         case PutIntent => AtPutIntent(cl.task)
         case DeleteTombstone => cl.task.Committing? && cl.task.phase.Expired?
  }

  function KeyOf(task: Task): Key
    requires AtClean(task)
  {
    if task.Committing? then task.objects[|task.masked|] else task.key
  }

  function RulesOf(task: Task): RejectRules
    requires AtClean(task)
  {
    if task.Committing? then task.mt[KeyOf(task)].rr else task.rr
  }

  // ---------- steps ----------

  /** What `_read_rr` passes to the raw read: a seed may stand where the caller wants no
    * object, so that rule is left for later.
    */
  function RawReadRules(rr: RejectRules): RejectRules {
    rr.(objectExists := false, objectDoesntExist := true)
  }

  /** What an operation leaves of the data under its mask. */
  function Effect(op: Op, under: Option<Data>): Option<Data> {
    match op
    case Touch(_) => under
    case Put(data, _) => Some(data)
    case Remove(_) => None
  }

  /** The version of an object after the commit: one above its masked version. */
  function NewVersion(op: Op, masked: nat): Option<nat> {
    if op.Remove? then None else Some(masked + 1)
  }

  function NewVersions(mt: MiniTransaction, objects: seq<Key>, masked: seq<nat>): map<Key, Option<nat>>
    requires |objects| == |masked| && forall k :: k in objects ==> k in mt
  {
    if objects == [] then map[]
    else NewVersions(mt, objects[1..], masked[1..])[objects[0] := NewVersion(mt[objects[0]], masked[0])]
  }

  /** The unmasking or write-back is over: back to whoever asked for it. */
  function AfterHelp(task: Task): Client
    requires TaskOk(task)
  {
    if !task.Committing? then Busy(task, ReadObject)
    else
      match task.phase
      case Masking => Busy(task, ReadObject)
      case Failing(key, e) => Idle(if e == Inconsistent then Failed(e) else TxRejected(task.txid, key, e))
      case Expired => Busy(task, DeleteTombstone)
      case Committed =>
        Idle(TxCommitted(task.txid, NewVersions(task.mt, task.objects, task.masked)))
  }

  function StartUnmask(task: Task, t: Txid, todo: seq<Key>): Client
    requires TaskOk(task)
  {
    if todo == [] then AfterHelp(task) else Busy(task, UnmaskRead(t, todo))
  }

  function StartApply(task: Task, t: Txid, mt: MiniTransaction, todo: seq<Key>, version: nat): Client {
    if todo == [] then Busy(task, DeleteIntent(t, version)) else Busy(task, ApplyRead(t, mt, todo, version))
  }

  function NextMask(task: Task): Client
    requires task.Committing?
  {
    if |task.masked| < |task.objects| then Busy(task, ReadObject) else Busy(task, PutIntent)
  }

  /** An exception leaves the task. A commit that is still masking unmasks what it masked,
    * in any order, before it passes the exception on; it will never write its intent.
    */
  function Raise(sh: Shared, task: Task, key: Key, e: Error, order: seq<Key>): (Shared, Client)
    requires TaskOk(task)
  {
    if task.Committing? && task.phase.Masking? then
      (Close(sh, task.txid), StartUnmask(task.(phase := Failing(key, e)), task.txid, order))
    else
      (sh, Idle(Failed(e)))
  }

  /** The raw read found nothing. */
  function Missing(sh: Shared, task: Task, ch: Choice): (Shared, Client)
    requires AtClean(task)
  {
    if RulesOf(task).objectDoesntExist || task.Reading? || task.Updating? then
      Raise(sh, task, KeyOf(task), NoObject, ch.order)
    else if task.Deleting? then
      (sh, Idle(Deleted(task.key)))
    else
      (sh, Busy(task, Act(None)))
  }

  function DoReadObject(sh: Shared, task: Task, ch: Choice): (Shared, Client)
    requires AtClean(task)
  {
    match Read(Obj(sh, KeyOf(task)), RawReadRules(RulesOf(task)))
    case Err(e) => if e == NoObject then Missing(sh, task, ch) else Raise(sh, task, KeyOf(task), e, ch.order)
    case Ok((content, version)) =>
      if content.Masked? then (sh, Busy(task, ReadTx(content.txid)))
      else if RulesOf(task).objectExists then Raise(sh, task, KeyOf(task), ObjectExists, ch.order)
      else if task.Reading? then (sh, Idle(Found(task.key, content.data, version)))
      else (sh, Busy(task, Act(Some((content.data, version)))))
  }

  function DoAct(sh: Shared, task: Task, found: Option<(Data, nat)>): (Shared, Client)
    requires AtAct(task, found)
  {
    var k := KeyOf(task);
    match task
    case Updating(_, data, _) =>
      (match Write(Obj(sh, k), Exactly(found.value.1), Clean(data))
       case (Ok(v), c) => (SetObj(sh, k, c), Idle(Wrote(k, data, v)))
       case (Err(e), _) => if e == NoObject then (sh, Idle(Failed(e))) else (sh, Busy(task, ReadObject)))
    case Writing(_, data, _) =>
      (match Write(Obj(sh, k), if found.Some? then NotAfter(found.value.1) else MUST_BE_ABSENT, Clean(data))
       case (Ok(v), c) => (SetObj(sh, k, c), Idle(Wrote(k, data, v)))
       case (Err(_), _) => (sh, Busy(task, ReadObject)))
    case Deleting(_, rr) =>
      (match Delete(Obj(sh, k), NotAfter(found.value.1).(objectDoesntExist := rr.objectDoesntExist))
       case (Ok(_), c) => (SetObj(sh, k, c), Idle(Deleted(k)))
       case (Err(e), _) => if e == NoObject then (sh, Idle(Failed(e))) else (sh, Busy(task, ReadObject)))
    case Committing(t, _, _, masked, _) =>
      (match Write(Obj(sh, k), if found.Some? then Exactly(found.value.1) else MUST_BE_ABSENT,
                   Masked(t, if found.Some? then Some(found.value.0) else None))
       case (Ok(v), c) => (SetObj(sh, k, c), NextMask(task.(masked := masked + [v])))
       case (Err(_), _) => (sh, Busy(task, ReadObject)))
  }

  /** A write or delete whose own rules already keep it off masked objects. */
  function DoDirect(sh: Shared, task: Task): (Shared, Client)
    requires task.Writing? || task.Deleting?
  {
    if task.Writing? then
      match Write(Obj(sh, task.key), task.rr, Clean(task.data))
      case (Ok(v), c) => (SetObj(sh, task.key, c), Idle(Wrote(task.key, task.data, v)))
      case (Err(e), _) => (sh, Idle(Failed(e)))
    else
      match Delete(Obj(sh, task.key), task.rr)
      case (Ok(_), c) => (SetObj(sh, task.key, c), Idle(Deleted(task.key)))
      case (Err(e), _) => (sh, Idle(Failed(e)))
  }

  function DoReadTx(sh: Shared, task: Task, t: Txid, ch: Choice): (Shared, Client)
    requires AtClean(task)
  {
    match Read(Tx(sh, t), MUST_EXIST)
    case Err(_) => (sh, Busy(task, if ch.expired then PutTombstone(t) else ReadObject))
    case Ok((Tombstone, _)) => (sh, Busy(task, UnmaskRead(t, [KeyOf(task)])))
    case Ok((Intent(mt), version)) => (sh, StartApply(task, t, mt, ch.order, version))
  }

  function DoPutTombstone(sh: Shared, task: Task, t: Txid): (Shared, Client)
    requires AtClean(task)
  {
    match Write(Tx(sh, t), MUST_BE_ABSENT, Tombstone)
    case (Ok(_), c) => (SetTx(sh, t, c), Busy(task, UnmaskRead(t, [KeyOf(task)])))
    case (Err(_), _) => (sh, Busy(task, ReadObject))
  }

  function DoUnmaskRead(sh: Shared, task: Task, t: Txid, todo: seq<Key>): (Shared, Client)
    requires TaskOk(task) && todo != []
  {
    match Read(Obj(sh, todo[0]), MUST_EXIST)
    case Err(_) => (sh, StartUnmask(task, t, todo[1..]))
    case Ok((content, version)) =>
      if content.Masked? && content.txid == t
      then (sh, Busy(task, UnmaskWrite(t, todo, version, content.under)))
      else (sh, StartUnmask(task, t, todo[1..]))
  }

  /** Put `d` back where version `version` of `k` was, without its mask; None removes it. */
  function Replace(sh: Shared, k: Key, rr: RejectRules, d: Option<Data>): (Result<nat>, Shared) {
    var (r, c) := if d.None? then Delete(Obj(sh, k), rr) else Write(Obj(sh, k), rr, Clean(d.value));
    (r, if r.Ok? then SetObj(sh, k, c) else sh)
  }

  function DoUnmaskWrite(sh: Shared, task: Task, t: Txid, todo: seq<Key>, version: nat, under: Option<Data>): (Shared, Client)
    requires TaskOk(task) && todo != []
  {
    match Replace(sh, todo[0], NotAfter(version), under)
    case (Ok(_), sh') => (sh', StartUnmask(task, t, todo[1..]))
    case (Err(_), _) => (sh, Busy(task, UnmaskRead(t, todo)))
  }

  function DoApplyRead(sh: Shared, task: Task, t: Txid, mt: MiniTransaction, todo: seq<Key>, iv: nat): (Shared, Client)
    requires TaskOk(task) && todo != []
  {
    match Read(Obj(sh, todo[0]), MUST_EXIST)
    case Err(_) => (sh, StartApply(task, t, mt, todo[1..], iv))
    case Ok((content, version)) =>
      if content.Masked? && content.txid == t
      then (sh, Busy(task, ApplyWrite(t, mt, todo, iv, version, content.under)))
      else (sh, StartApply(task, t, mt, todo[1..], iv))
  }

  /** A single attempt: if it is rejected, someone else has cleaned the object up. */
  function DoApplyWrite(sh: Shared, task: Task, t: Txid, mt: MiniTransaction, todo: seq<Key>, iv: nat, version: nat, under: Option<Data>): (Shared, Client)
    requires todo != [] && todo[0] in mt
  {
    var (_, sh') := Replace(sh, todo[0], Exactly(version), Effect(mt[todo[0]], under));
    (sh', StartApply(task, t, mt, todo[1..], iv))
  }

  function DoDeleteIntent(sh: Shared, task: Task, t: Txid, iv: nat, ch: Choice): (Shared, Client)
    requires TaskOk(task)
  {
    match Delete(Tx(sh, t), NotAfter(iv))
    case (Ok(_), c) => (SetTx(sh, t, c), AfterHelp(task))
    case (Err(_), _) => Raise(sh, task, Key(0, 0), Inconsistent, ch.order)
  }

  function DoPutIntent(sh: Shared, task: Task, ch: Choice): (Shared, Client)
    requires AtPutIntent(task)
  {
    var t := task.txid;
    match Write(Tx(sh, t), MUST_BE_ABSENT, Intent(task.mt))
    case (Ok(version), c) =>
      (Close(SetTx(sh, t, c), t), StartApply(task.(phase := Committed), t, task.mt, ch.order, version))
    case (Err(_), _) =>
      (Close(sh, t), StartUnmask(task.(phase := Expired), t, task.objects))
  }

  function DoDeleteTombstone(sh: Shared, task: Task): (Shared, Client)
    requires task.Committing?
  {
    var (_, c) := Delete(Tx(sh, task.txid), NO_RULES);
    (SetTx(sh, task.txid, c), Idle(TxExpired(task.txid)))
  }

  /** One raw operation of a busy client. */
  function Step(sh: Shared, cl: Client, ch: Choice): (Shared, Client)
    requires cl.Busy? && Coherent(cl)
  {
    var task := cl.task;
    match cl.pc
    case Direct => DoDirect(sh, task)
    case ReadObject => DoReadObject(sh, task, ch)
    case Act(found) => DoAct(sh, task, found)
    case ReadTx(t) => DoReadTx(sh, task, t, ch)
    case PutTombstone(t) => DoPutTombstone(sh, task, t)
    case UnmaskRead(t, todo) => DoUnmaskRead(sh, task, t, todo)
    case UnmaskWrite(t, todo, version, under) => DoUnmaskWrite(sh, task, t, todo, version, under)
    case ApplyRead(t, mt, todo, iv) => DoApplyRead(sh, task, t, mt, todo, iv)
    case ApplyWrite(t, mt, todo, iv, version, under) => DoApplyWrite(sh, task, t, mt, todo, iv, version, under)
    case DeleteIntent(t, iv) => DoDeleteIntent(sh, task, t, iv, ch)
    case PutIntent => DoPutIntent(sh, task, ch)
    case DeleteTombstone => DoDeleteTombstone(sh, task)
  }

  // ---------- the world ----------

  datatype World = World(sh: Shared, clients: map<ClientId, Client>)

  datatype Request =
    | AskRead(key: Key, rr: RejectRules)
    | AskWrite(key: Key, data: Data, rr: RejectRules)
    | AskDelete(key: Key, rr: RejectRules)
    | AskCommit(txid: Txid, mt: MiniTransaction, objects: seq<Key>)

  datatype Label =
    | Begin(c: ClientId, request: Request)
    | Run(c: ClientId, choice: Choice)
    | Abandon(c: ClientId)

  predicate Lists(order: seq<Key>, keys: set<Key>) {
    && (forall k :: k in order ==> k in keys) && (forall k :: k in keys ==> k in order)
    && (forall i, j | 0 <= i < j < |order| :: order[i] != order[j])
  }

  predicate Sorted(ks: seq<Key>) {
    forall i, j | 0 <= i < j < |ks| :: Before(ks[i], ks[j])
  }

  /** The dictionary, if any, whose iteration order a step chooses. */
  function Iterated(sh: Shared, cl: Client): set<Key> {
    if !cl.Busy? then {}
    else if cl.pc.PutIntent? && cl.task.Committing? then cl.task.mt.Keys
    else if cl.pc.ReadTx? && Tx(sh, cl.pc.txid).present && Top(Tx(sh, cl.pc.txid)).Intent? then Top(Tx(sh, cl.pc.txid)).mt.Keys
    else if (cl.pc.ReadObject? || cl.pc.DeleteIntent?) && cl.task.Committing? && cl.task.phase.Masking? && |cl.task.masked| <= |cl.task.objects|
    then set k | k in cl.task.objects[..|cl.task.masked|]
    else {}
  }

  /** Callers only give version numbers at which they saw the object clean. */
  predicate SeenClean(sh: Shared, k: Key, version: nat) {
    version <= |Obj(sh, k).log| && (version > 0 ==> Obj(sh, k).log[version - 1].Clean?)
  }

  predicate IsDirect(rr: RejectRules) {
    rr.objectExists || rr.versionGtGiven
  }

  predicate RequestOk(sh: Shared, request: Request) {
    match request
    case AskRead(_, _) => true
    case AskWrite(k, _, rr) => rr.versionGtGiven ==> SeenClean(sh, k, rr.givenVersion)
    case AskDelete(k, rr) => rr.versionGtGiven ==> SeenClean(sh, k, rr.givenVersion)
    case AskCommit(t, mt, objects) => t != 0 && t !in sh.plan && Sorted(objects) && Lists(objects, mt.Keys)
  }

  function Start(request: Request): Client {
    match request
    case AskRead(k, rr) => Busy(Reading(k, rr), ReadObject)
    case AskWrite(k, data, rr) =>
      if IsDirect(rr) then Busy(Writing(k, data, rr), Direct)
      else if rr.objectDoesntExist then Busy(Updating(k, data, rr), ReadObject)
      else Busy(Writing(k, data, rr), ReadObject)
    case AskDelete(k, rr) => Busy(Deleting(k, rr), if IsDirect(rr) then Direct else ReadObject)
    case AskCommit(t, mt, objects) => NextMask(Committing(t, mt, objects, [], Masking))
  }

  predicate Enabled(w: World, l: Label) {
    && l.c in w.clients
    && var cl := w.clients[l.c];
       match l
       case Begin(_, request) => cl.Idle? && RequestOk(w.sh, request)
       case Run(_, ch) => cl.Busy? && Coherent(cl) && Lists(ch.order, Iterated(w.sh, cl))
       case Abandon(_) => cl.Busy?
  }

  function Do(w: World, l: Label): World
    requires Enabled(w, l)
  {
    var cl := w.clients[l.c];
    match l
    case Begin(c, request) =>
      var sh := if request.AskCommit?
                then w.sh.(plan := w.sh.plan[request.txid := request.mt], open := w.sh.open[request.txid := c])
                else w.sh;
      World(sh, w.clients[c := Start(request)])
    case Run(c, ch) =>
      var (sh, cl') := Step(w.sh, cl, ch);
      World(sh, w.clients[c := cl'])
    case Abandon(c) =>
      var sh := if cl.task.Committing? then Close(w.sh, cl.task.txid) else w.sh;
      World(sh, w.clients[c := Idle(Abandoned)])
  }

  /** Initially nothing is masked, no transaction has begun and every client is idle. */
  predicate Init(w: World) {
    && w.sh.txs == map[] && w.sh.plan == map[] && w.sh.open == map[]
    && (forall k | k in w.sh.objs :: forall i | 0 <= i < |w.sh.objs[k].log| :: w.sh.objs[k].log[i].Clean?)
    && (forall c | c in w.clients :: w.clients[c] == Idle(Started))
  }

  /** A run of the system: worlds[i] goes to worlds[i + 1] by labels[i]. */
  datatype Trace = Trace(worlds: seq<World>, labels: seq<Label>)

  predicate IsTrace(r: Trace) {
    |r.worlds| == |r.labels| + 1 && Init(r.worlds[0]) && Follows(r, |r.labels|)
  }

  /** The first n steps of r are steps of the system. */
  predicate Follows(r: Trace, n: nat)
    requires |r.worlds| == |r.labels| + 1 && n <= |r.labels|
  {
    n > 0 ==> Follows(r, n - 1) && Enabled(r.worlds[n - 1], r.labels[n - 1]) && r.worlds[n] == Do(r.worlds[n - 1], r.labels[n - 1])
  }

  lemma {:induction false} StepAt(r: Trace, m: nat, n: nat)
    requires |r.worlds| == |r.labels| + 1 && m < n <= |r.labels| && Follows(r, n)
    ensures Enabled(r.worlds[m], r.labels[m]) && r.worlds[m + 1] == Do(r.worlds[m], r.labels[m])
  {
    if m < n - 1 {
      StepAt(r, m, n - 1);
    }
  }
}
