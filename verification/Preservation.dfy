/** Every step of every client keeps the invariant. The lemmas first treat the few ways in
  * which a step can change the store, then go through the program points.
  */
module Preservation {
  import opened RamCloud
  import opened Protocol
  import opened Invariant

  // ---------- changes of the store ----------

  /** `k` is free: no transaction has it masked. */
  ghost predicate Free(sh: Shared, k: Key) {
    Obj(sh, k).present ==> Top(Obj(sh, k)).Clean?
  }

  /** The next state of a cell whose object becomes `d`. */
  function Become(c: Cell<Content>, d: Option<Data>): Cell<Content> {
    if d.Some? then Cell(c.log + [Clean(d.value)], true) else Cell(c.log, false)
  }

  lemma Unchanged(sh: Shared, c: ClientId)
    ensures Evolves(sh, sh, c)
  {
  }

  lemma KeepsOneMaskEach(sh: Shared, sh': Shared)
    requires SharedInv(sh)
    requires forall k, i | IsMask(sh', k, i) :: IsMask(sh, k, i) && Obj(sh', k).log[i] == Obj(sh, k).log[i]
    ensures forall k :: OneMaskEach(sh', k)
  {
    forall k ensures OneMaskEach(sh', k) {
      assert OneMaskEach(sh, k);
    }
  }

  /** One object changes by at most one more version, which may only be a mask of c's. */
  lemma ObjEvolves(sh: Shared, c: ClientId, k: Key, cell: Cell<Content>)
    requires var old_ := Obj(sh, k);
             || (cell.log == old_.log && (cell.present ==> old_.present))
             || exists x :: cell.log == old_.log + [x] && (x.Masked? ==> Owns(sh, c, x.txid))
    ensures Evolves(sh, SetObj(sh, k, cell), c)
  {
  }

  /** A mask is as good as before when its object only goes on and its transaction stays as it is. */
  lemma MaskBehind(sh: Shared, sh': Shared, k: Key, cell: Cell<Content>, l: Key, i: int)
    requires Obj(sh, k).log <= cell.log && (|cell.log| > |Obj(sh, k).log| || !cell.present)
    requires Free(sh, k) && sh' == SetObj(sh, k, cell)
    requires IsMask(sh, l, i) && MaskOk(sh, l, i)
    ensures IsMask(sh', l, i) && MaskOk(sh', l, i)
  {
    assert l == k ==> Gone(sh, l, i);
  }

  lemma PlainChange(sh: Shared, c: ClientId, k: Key, d: Option<Data>)
    requires SharedInv(sh) && Free(sh, k)
    ensures var sh' := SetObj(sh, k, Become(Obj(sh, k), d)); SharedInv(sh') && Evolves(sh, sh', c)
  {
    var sh' := SetObj(sh, k, Become(Obj(sh, k), d));
    forall l, i | IsMask(sh', l, i) ensures MaskOk(sh', l, i) {
      assert IsMask(sh, l, i) && MaskOk(sh, l, i);
      MaskBehind(sh, sh', k, Become(Obj(sh, k), d), l, i);
    }
    forall t ensures TxOk(sh', t) { assert TxOk(sh, t); }
    KeepsOneMaskEach(sh, sh');
    ObjEvolves(sh, c, k, Become(Obj(sh, k), d));
  }

  lemma NewMaskOk(sh: Shared, sh': Shared, c: ClientId, k: Key, t: Txid, under: Option<Data>)
    requires Owns(sh, c, t) && t in sh.plan && k in sh.plan[t] && TxOk(sh, t)
    requires under.None? ==> !sh.plan[t][k].rr.objectDoesntExist
    requires under.Some? ==> Obj(sh, k).present && Top(Obj(sh, k)) == Clean(under.value) && Accepts(sh.plan[t][k].rr, |Obj(sh, k).log|)
    requires sh' == SetObj(sh, k, Cell(Obj(sh, k).log + [Masked(t, under)], true))
    ensures var i := |Obj(sh, k).log|; IsMask(sh', k, i) && MaskOk(sh', k, i)
  {
  }

  lemma MaskChange(sh: Shared, c: ClientId, k: Key, t: Txid, under: Option<Data>)
    requires SharedInv(sh) && Free(sh, k) && Owns(sh, c, t) && k in sh.plan[t]
    requires forall i | IsMask(sh, k, i) :: Obj(sh, k).log[i].txid != t
    requires under.None? ==> !sh.plan[t][k].rr.objectDoesntExist
    requires under.Some? ==> Obj(sh, k).present && Top(Obj(sh, k)) == Clean(under.value) && Accepts(sh.plan[t][k].rr, |Obj(sh, k).log|)
    ensures var sh' := SetObj(sh, k, Cell(Obj(sh, k).log + [Masked(t, under)], true)); SharedInv(sh') && Evolves(sh, sh', c)
  {
    var cell := Cell(Obj(sh, k).log + [Masked(t, under)], true);
    var sh' := SetObj(sh, k, cell);
    forall l, i | IsMask(sh', l, i) ensures MaskOk(sh', l, i) {
      if l != k || i < |Obj(sh, k).log| {
        assert IsMask(sh, l, i) && MaskOk(sh, l, i);
        MaskBehind(sh, sh', k, cell, l, i);
      } else {
        NewMaskOk(sh, sh', c, k, t, under);
      }
    }
    forall s ensures TxOk(sh', s) { assert TxOk(sh, s); }
    forall l ensures OneMaskEach(sh', l) {
      assert OneMaskEach(sh, l);
      forall i, j | IsMask(sh', l, i) && IsMask(sh', l, j) && i < j
        ensures Obj(sh', l).log[i].txid != Obj(sh', l).log[j].txid
      {
        assert IsMask(sh, l, i);
        assert j < |Obj(sh, l).log| ==> IsMask(sh, l, j);
      }
    }
    ObjEvolves(sh, c, k, cell);
  }

  lemma ReleasedMaskOk(sh: Shared, sh': Shared, k: Key, t: Txid, l: Key, i: int)
    requires MaskedBy(sh, k, t) && (t in sh.open ==> IsAborted(sh, t))
    requires sh' == SetObj(sh, k, Become(Obj(sh, k), Settled(sh, t, k, Top(Obj(sh, k)).under)))
    requires IsMask(sh, l, i) && MaskOk(sh, l, i)
    ensures MaskOk(sh', l, i)
  {
  }

  /** The current mask of t comes off, leaving what t's fate calls for. */
  lemma ReleaseChange(sh: Shared, c: ClientId, k: Key, t: Txid)
    requires SharedInv(sh) && MaskedBy(sh, k, t)
    requires t in sh.open ==> IsAborted(sh, t)
    ensures var d := Settled(sh, t, k, Top(Obj(sh, k)).under);
            var sh' := SetObj(sh, k, Become(Obj(sh, k), d));
            SharedInv(sh') && Evolves(sh, sh', c) && !MaskedBy(sh', k, t)
  {
    var d := Settled(sh, t, k, Top(Obj(sh, k)).under);
    var sh' := SetObj(sh, k, Become(Obj(sh, k), d));
    forall l, i | IsMask(sh', l, i) ensures MaskOk(sh', l, i) {
      assert IsMask(sh, l, i) && MaskOk(sh, l, i);
      ReleasedMaskOk(sh, sh', k, t, l, i);
    }
    forall s ensures TxOk(sh', s) { assert TxOk(sh, s); }
    KeepsOneMaskEach(sh, sh');
    ObjEvolves(sh, c, k, Obj(sh', k));
  }

  /** A committed transaction with a mask left still has its intent, and nothing else. */
  lemma IntentOutlivesMasks(sh: Shared, t: Txid)
    requires SharedInv(sh) && IsCommitted(sh, t)
    ensures Unmasked(sh, t) || (Tx(sh, t).present && |Tx(sh, t).log| == 1)
  {
    if k :| MaskedBy(sh, k, t) {
      assert IsMask(sh, k, |Obj(sh, k).log| - 1);
    }
  }

  lemma MaskUnderTombstone(sh: Shared, sh': Shared, t: Txid, k: Key, i: int)
    requires SharedInv(sh) && t in sh.plan && !Tx(sh, t).present && IsMask(sh, k, i)
    requires sh' == SetTx(sh, t, Cell(Tx(sh, t).log + [Tombstone], true))
    ensures IsMask(sh', k, i) && MaskOk(sh', k, i)
  {
    assert MaskOk(sh, k, i) && TxOk(sh, t);
  }

  lemma TombstoneChange(sh: Shared, c: ClientId, t: Txid)
    requires SharedInv(sh) && t in sh.plan && !Tx(sh, t).present
    ensures var sh' := SetTx(sh, t, Cell(Tx(sh, t).log + [Tombstone], true));
            SharedInv(sh') && Evolves(sh, sh', c) && Rollbackable(sh', t)
  {
    var sh' := SetTx(sh, t, Cell(Tx(sh, t).log + [Tombstone], true));
    assert TxOk(sh, t);
    forall s ensures TxOk(sh', s) { assert TxOk(sh, s); }
    forall l, i | IsMask(sh', l, i) ensures MaskOk(sh', l, i) {
      assert IsMask(sh, l, i);
      MaskUnderTombstone(sh, sh', t, l, i);
    }
    KeepsOneMaskEach(sh, sh');
    if IsCommitted(sh', t) {
      IntentOutlivesMasks(sh, t);
    }
  }

  lemma MaskPastDelete(sh: Shared, sh': Shared, t: Txid, k: Key, i: int)
    requires t !in sh.open && (IsCommitted(sh, t) ==> Unmasked(sh, t)) && sh' == SetTx(sh, t, Cell(Tx(sh, t).log, false))
    requires IsMask(sh, k, i) && MaskOk(sh, k, i)
    ensures IsMask(sh', k, i) && MaskOk(sh', k, i)
  {
    if Obj(sh, k).log[i].txid == t && !Gone(sh, k, i) { assert MaskedBy(sh, k, t); }
  }

  /** The object at a txid is deleted by someone who knows that t is over. */
  lemma TxDeleteChange(sh: Shared, c: ClientId, t: Txid)
    requires SharedInv(sh) && t !in sh.open && (IsCommitted(sh, t) ==> Unmasked(sh, t))
    ensures var sh' := SetTx(sh, t, Cell(Tx(sh, t).log, false)); SharedInv(sh') && Evolves(sh, sh', c)
  {
    var sh' := SetTx(sh, t, Cell(Tx(sh, t).log, false));
    forall s ensures TxOk(sh', s) { assert TxOk(sh, s); }
    forall l, i | IsMask(sh', l, i) ensures MaskOk(sh', l, i) {
      assert IsMask(sh, l, i) && MaskOk(sh, l, i);
      MaskPastDelete(sh, sh', t, l, i);
    }
    KeepsOneMaskEach(sh, sh');
  }

  lemma CommitChange(sh: Shared, c: ClientId, t: Txid)
    requires SharedInv(sh) && Owns(sh, c, t) && !Tx(sh, t).present
    ensures var sh' := Close(SetTx(sh, t, Cell(Tx(sh, t).log + [Intent(sh.plan[t])], true)), t);
            SharedInv(sh') && Evolves(sh, sh', c) && IsCommitted(sh', t) && |Tx(sh', t).log| == 1
  {
    var sh' := Close(SetTx(sh, t, Cell(Tx(sh, t).log + [Intent(sh.plan[t])], true)), t);
    assert TxOk(sh, t);
    forall s ensures TxOk(sh', s) { assert TxOk(sh, s); }
    forall l, i | IsMask(sh', l, i) ensures MaskOk(sh', l, i) {
      assert IsMask(sh, l, i) && MaskOk(sh, l, i);
    }
    KeepsOneMaskEach(sh, sh');
  }

  lemma CloseChange(sh: Shared, c: ClientId, t: Txid)
    requires SharedInv(sh) && (t in sh.open ==> sh.open[t] == c)
    ensures SharedInv(Close(sh, t)) && Evolves(sh, Close(sh, t), c)
  {
    var sh' := Close(sh, t);
    forall s ensures TxOk(sh', s) { assert TxOk(sh, s); }
    forall l, i | IsMask(sh', l, i) ensures MaskOk(sh', l, i) {
      assert IsMask(sh, l, i) && MaskOk(sh, l, i);
    }
    KeepsOneMaskEach(sh, sh');
  }
}
