/** What holds in every reachable state. The invariant of the shared store speaks about
  * every mask ever written, since logs keep them; each client has its own invariant about
  * the locals it carries. A step keeps its own client's invariant, and changes the store
  * only in ways (`Evolves`) that no other client's invariant can notice.
  */
module Invariant {
  import opened RamCloud
  import opened Protocol

  // ---------- vocabulary ----------

  /** The first object ever written at a txid decides its fate. */
  ghost predicate IsCommitted(sh: Shared, t: Txid) {
    |Tx(sh, t).log| > 0 && Tx(sh, t).log[0].Intent?
  }

  ghost predicate IsAborted(sh: Shared, t: Txid) {
    |Tx(sh, t).log| > 0 && Tx(sh, t).log[0].Tombstone?
  }

  ghost predicate MaskedBy(sh: Shared, k: Key, t: Txid) {
    Obj(sh, k).present && Top(Obj(sh, k)).Masked? && Top(Obj(sh, k)).txid == t
  }

  ghost predicate Unmasked(sh: Shared, t: Txid) {
    forall k :: !MaskedBy(sh, k, t)
  }

  /** Version i + 1 of k carries a mask. */
  ghost predicate IsMask(sh: Shared, k: Key, i: int) {
    0 <= i < |Obj(sh, k).log| && Obj(sh, k).log[i].Masked?
  }

  /** Version i + 1 of k is no longer the current one. */
  ghost predicate Gone(sh: Shared, k: Key, i: int) {
    i + 1 < |Obj(sh, k).log| || !Obj(sh, k).present
  }

  /** What becomes of data `under` a mask of t on k, going by t's fate so far. */
  ghost function Settled(sh: Shared, t: Txid, k: Key, under: Option<Data>): Option<Data> {
    if IsCommitted(sh, t) && k in Tx(sh, t).log[0].mt then Effect(Tx(sh, t).log[0].mt[k], under) else under
  }

  /** The rules accept an object of version `v`. */
  ghost predicate Accepts(rr: RejectRules, v: nat) {
    !rr.objectExists && (rr.versionEqGiven ==> v != rr.givenVersion) && (rr.versionGtGiven ==> v <= rr.givenVersion)
  }

  /** The mask at version i + 1 was put exactly over what the operation's rules accepted:
    * data equal to the clean version right before it, or, for a seed, no object.
    */
  ghost predicate Justified(sh: Shared, k: Key, i: int, rr: RejectRules)
    requires IsMask(sh, k, i)
  {
    match Obj(sh, k).log[i].under
    case None => !rr.objectDoesntExist
    case Some(d) => i >= 1 && Obj(sh, k).log[i - 1] == Clean(d) && Accepts(rr, i)
  }

  // ---------- invariant of the store ----------

  ghost predicate TxOk(sh: Shared, t: Txid) {
    var c := Tx(sh, t);
    |c.log| > 0 ==>
      && t in sh.plan
      && (c.log[0].Intent? ==> c.log[0].mt == sh.plan[t] && t !in sh.open)
      && (forall i | 1 <= i < |c.log| :: c.log[i].Tombstone?)
      && (t in sh.open ==> c.present)
  }

  /** The mask-or-tombstone invariant: while a transaction may still commit, none of its
    * masks is lost unless a tombstone is in its way; while it is committed, its intent
    * stays until the last mask is gone; and every mask that is gone has left exactly what
    * the fate of its transaction calls for.
    */
  ghost predicate MaskOk(sh: Shared, k: Key, i: int)
    requires IsMask(sh, k, i)
  {
    var c := Obj(sh, k);
    var t := c.log[i].txid;
    && t in sh.plan && k in sh.plan[t] && Justified(sh, k, i, sh.plan[t][k].rr)
    && (if Gone(sh, k, i) then
          && (t in sh.open ==> IsAborted(sh, t))
          && var d := Settled(sh, t, k, c.log[i].under);
             d.Some? ==> i + 1 < |c.log| && c.log[i + 1] == Clean(d.value)
        else
          IsCommitted(sh, t) ==> Tx(sh, t).present && |Tx(sh, t).log| == 1)
  }

  ghost predicate OneMaskEach(sh: Shared, k: Key) {
    forall i, j | IsMask(sh, k, i) && IsMask(sh, k, j) && i < j ::
      Obj(sh, k).log[i].txid != Obj(sh, k).log[j].txid
  }

  ghost predicate SharedInv(sh: Shared) {
    && 0 !in sh.plan
    && sh.open.Keys <= sh.plan.Keys
    && (forall t :: TxOk(sh, t))
    && (forall k, i | IsMask(sh, k, i) :: MaskOk(sh, k, i))
    && (forall k :: OneMaskEach(sh, k))
  }

  // ---------- invariants of the clients ----------

  /** Taking t's masks off without applying t does no harm. */
  ghost predicate Rollbackable(sh: Shared, t: Txid) {
    || IsAborted(sh, t)
    || (t in sh.plan && t !in sh.open && !IsCommitted(sh, t))
    || (t in sh.plan && t !in sh.open && IsCommitted(sh, t) && Unmasked(sh, t))
  }

  ghost predicate WasClean(sh: Shared, k: Key, v: nat, d: Data) {
    1 <= v <= |Obj(sh, k).log| && Obj(sh, k).log[v - 1] == Clean(d)
  }

  ghost predicate WasMasked(sh: Shared, k: Key, v: nat, t: Txid) {
    1 <= v <= |Obj(sh, k).log| && Obj(sh, k).log[v - 1].Masked? && Obj(sh, k).log[v - 1].txid == t
  }

  ghost predicate WasUnder(sh: Shared, k: Key, v: nat, t: Txid, under: Option<Data>) {
    WasMasked(sh, k, v, t) && Obj(sh, k).log[v - 1].under == under
  }

  /** t is committed and only objects in `todo` can still carry its mask. */
  ghost predicate Finishing(sh: Shared, t: Txid, mt: MiniTransaction, todo: seq<Key>) {
    && t in sh.plan && sh.plan[t] == mt && t !in sh.open && IsCommitted(sh, t)
    && (forall k :: k in todo ==> k in mt)
    && (forall k :: MaskedBy(sh, k, t) ==> k in todo)
  }

  ghost predicate TaskInv(sh: Shared, c: ClientId, task: Task) {
    match task
    case Committing(t, mt, objects, masked, phase) =>
      && t in sh.plan && sh.plan[t] == mt && Sorted(objects) && Lists(objects, mt.Keys)
      && |masked| <= |objects|
      && (forall j | 0 <= j < |masked| :: WasMasked(sh, objects[j], masked[j], t))
      && (if phase.Masking? then
            && t in sh.open && sh.open[t] == c
            && (forall k, i | IsMask(sh, k, i) && Obj(sh, k).log[i].txid == t :: k in objects[..|masked|])
          else
            && t !in sh.open
            && (phase.Committed? <==> IsCommitted(sh, t)))
    case _ => true
  }

  /** Only objects in `todo` can still carry t's mask. */
  ghost predicate OnlyOn(sh: Shared, t: Txid, todo: seq<Key>) {
    forall k :: MaskedBy(sh, k, t) ==> k in todo
  }

  /** A coordinator that has given up takes its own masks off, and forgets none. */
  ghost predicate RollingBack(sh: Shared, task: Task, t: Txid, todo: seq<Key>) {
    task.Committing? && !task.phase.Masking? ==> t == task.txid && OnlyOn(sh, t, todo)
  }

  /** A commit past its commit point only finishes itself; a failed one only unmasks. */
  ghost predicate HelpOk(task: Task, t: Txid, unmasking: bool) {
    task.Committing? ==>
      && (task.phase.Masking? ==> AtClean(task))
      && if unmasking then !task.phase.Committed? else task.phase.Masking? || (task.phase.Committed? && t == task.txid)
  }

  /** Which procedure a request's reject rules lead to, when they do not allow the direct operation. */
  ghost predicate Routed(task: Task) {
    match task
    case Updating(_, _, rr) => !IsDirect(rr) && rr.objectDoesntExist
    case Writing(_, _, rr) => !IsDirect(rr) && !rr.objectDoesntExist
    case Deleting(_, rr) => !IsDirect(rr)
    case _ => true
  }

  ghost predicate PcInv(sh: Shared, task: Task, pc: Pc) {
    match pc
    case Direct => (task.Writing? || task.Deleting?) && IsDirect(task.rr) && (task.rr.versionGtGiven ==> SeenClean(sh, task.key, task.rr.givenVersion))
    case Act(found) =>
      AtAct(task, found) &&
      (match found
       case Some((d, v)) => WasClean(sh, KeyOf(task), v, d) && Accepts(RulesOf(task), v)
       case None => !RulesOf(task).objectDoesntExist)
    case ReadTx(t) => t in sh.plan
    case PutTombstone(t) => t in sh.plan
    case UnmaskRead(t, todo) => HelpOk(task, t, true) && Rollbackable(sh, t) && RollingBack(sh, task, t, todo)
    case UnmaskWrite(t, todo, v, under) =>
      HelpOk(task, t, true) && Rollbackable(sh, t) && RollingBack(sh, task, t, todo) && todo != [] && WasUnder(sh, todo[0], v, t, under)
    case ApplyRead(t, mt, todo, iv) => HelpOk(task, t, false) && iv == 1 && Finishing(sh, t, mt, todo)
    case ApplyWrite(t, mt, todo, iv, v, under) =>
      HelpOk(task, t, false) && iv == 1 && Finishing(sh, t, mt, todo) && todo != [] && WasUnder(sh, todo[0], v, t, under)
    case DeleteIntent(t, iv) =>
      HelpOk(task, t, false) && iv == 1 && t in sh.plan && t !in sh.open && IsCommitted(sh, t) && Unmasked(sh, t)
    case DeleteTombstone => task.Committing? && Unmasked(sh, task.txid)
    case _ => true
  }

  /** The version mt_commit reports for k: one above the version of t's mask, which holds
    * what the operation wrote, if it left an object at all.
    */
  ghost predicate VersionTrue(sh: Shared, t: Txid, k: Key, op: Op, version: Option<nat>) {
    match version
    case None => op.Remove?
    case Some(v) =>
      && !op.Remove?
      && v >= 2 && WasMasked(sh, k, v - 1, t)
      && match op
         case Touch(_) => var under := Obj(sh, k).log[v - 2].under; under.Some? ==> WasClean(sh, k, v, under.value)
         case Put(data, _) => WasClean(sh, k, v, data)
  }

  ghost predicate OutcomeInv(sh: Shared, o: Outcome) {
    match o
    case Found(k, d, v) => WasClean(sh, k, v, d)
    case Wrote(k, d, v) => WasClean(sh, k, v, d)
    case TxCommitted(t, versions) =>
      && t in sh.plan && t !in sh.open && IsCommitted(sh, t) && Unmasked(sh, t)
      && versions.Keys == sh.plan[t].Keys
      && (forall k | k in versions :: VersionTrue(sh, t, k, sh.plan[t][k], versions[k]))
    case TxRejected(t, _, _) => t in sh.plan && t !in sh.open && !IsCommitted(sh, t) && Unmasked(sh, t)
    case TxExpired(t) => t in sh.plan && t !in sh.open && !IsCommitted(sh, t) && Unmasked(sh, t)
    case _ => true
  }

  ghost predicate ClientInv(sh: Shared, c: ClientId, cl: Client) {
    match cl
    case Idle(o) => OutcomeInv(sh, o)
    case Busy(task, pc) => Coherent(cl) && TaskInv(sh, c, task) && PcInv(sh, task, pc) && (pc.Direct? || Routed(task))
  }

  ghost predicate Inv(w: World) {
    && SharedInv(w.sh)
    && forall c | c in w.clients :: ClientInv(w.sh, c, w.clients[c])
  }

  // ---------- what a step may do to the store ----------

  /** Client c's step from sh to sh': logs only grow, nobody else's transaction is opened,
    * closed, committed or given new masks, and a closed one stays closed.
    */
  ghost predicate Evolves(sh: Shared, sh': Shared, c: ClientId) {
    && (forall k :: Obj(sh, k).log <= Obj(sh', k).log)
    && (forall t :: Tx(sh, t).log <= Tx(sh', t).log)
    && (forall t | t in sh.plan :: t in sh'.plan && sh'.plan[t] == sh.plan[t])
    && (forall t | t in sh.open && sh.open[t] != c :: t in sh'.open && sh'.open[t] == sh.open[t])
    && (forall t | t in sh.plan && t in sh'.open :: t in sh.open && sh'.open[t] == sh.open[t])
    && (forall k, i | IsMask(sh', k, i) && i >= |Obj(sh, k).log| :: Owns(sh, c, Obj(sh', k).log[i].txid))
    && (forall k, t | MaskedBy(sh', k, t) && !MaskedBy(sh, k, t) :: Owns(sh, c, t))
    && (forall t | IsCommitted(sh', t) && !IsCommitted(sh, t) :: Owns(sh, c, t))
  }

  ghost predicate Owns(sh: Shared, c: ClientId, t: Txid) {
    t in sh.open && sh.open[t] == c
  }

  lemma TaskStable(sh: Shared, sh': Shared, c: ClientId, d: ClientId, task: Task)
    requires TaskInv(sh, d, task) && Evolves(sh, sh', c) && SharedInv(sh) && SharedInv(sh')
    requires c != d
    ensures TaskInv(sh', d, task)
  {
  }

  lemma PcStable(sh: Shared, sh': Shared, c: ClientId, d: ClientId, task: Task, pc: Pc)
    requires Coherent(Busy(task, pc)) && PcInv(sh, task, pc) && TaskInv(sh, d, task)
    requires Evolves(sh, sh', c) && SharedInv(sh) && SharedInv(sh')
    ensures PcInv(sh', task, pc)
  {
    if task.Committing? && !task.phase.Masking? { NoNewMasks(sh, sh', c, task.txid); }
  }

  /** A closed transaction gets no more masks. */
  lemma NoNewMasks(sh: Shared, sh': Shared, c: ClientId, t: Txid)
    requires Evolves(sh, sh', c) && t !in sh.open
    ensures forall k | MaskedBy(sh', k, t) :: MaskedBy(sh, k, t)
    ensures Unmasked(sh, t) ==> Unmasked(sh', t)
  {
  }

  lemma OutcomeStable(sh: Shared, sh': Shared, c: ClientId, o: Outcome)
    requires OutcomeInv(sh, o) && Evolves(sh, sh', c)
    requires SharedInv(sh)
    ensures OutcomeInv(sh', o)
  {
  }
}
