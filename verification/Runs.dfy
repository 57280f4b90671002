/** Five runs of the system, step by step. */
module Runs {
  import opened Hiding
  import opened RamCloud
  import opened Protocol

  const A := Key(0, 1)
  const B := Key(0, 2)
  const IN_TIME := Choice(false, [])
  const TOO_LATE := Choice(true, [])
  const ONLY_A := Choice(false, [A])
  const NO_TX: Cell<TxObject> := Cell([], false)

  // ---------- building runs ----------

  ghost function Last(r: Trace): World
    requires IsTrace(r)
  {
    r.worlds[|r.labels|]
  }

  lemma {:induction false} SameSteps(r: Trace, r': Trace, n: nat)
    requires |r.worlds| == |r.labels| + 1 && |r'.worlds| == |r'.labels| + 1 && n <= |r.labels|
    requires r.worlds <= r'.worlds && r.labels <= r'.labels && Follows(r, n)
    ensures Follows(r', n)
  {
    if n > 0 {
      SameSteps(r, r', n - 1);
    }
  }

  lemma Extend(r: Trace, l: Label) returns (r': Trace)
    requires IsTrace(r) && Enabled(Last(r), l)
    ensures IsTrace(r') && r'.labels == r.labels + [l] && Last(r') == Do(Last(r), l)
  {
    r' := Trace(r.worlds + [Do(Last(r), l)], r.labels + [l]);
    SameSteps(r, r', |r.labels|);
  }

  /** What matters of a world: object A, the object at txid 1, the txids in use and clients 0, 1 and so
    * on. Object B never exists, and nothing is at txid 2.
    */
  datatype Scene = Scene(a: Cell<Content>, tx: Cell<TxObject>, plan: set<Txid>, cs: seq<Client>)

  ghost predicate Holds(sh: Shared, a: Cell<Content>, tx: Cell<TxObject>, plan: set<Txid>) {
    Obj(sh, A) == a && !Obj(sh, B).present && Tx(sh, 1) == tx && Tx(sh, 2) == NO_TX && sh.plan.Keys == plan
  }

  ghost predicate Shown(w: World, s: Scene) {
    && Holds(w.sh, s.a, s.tx, s.plan)
    && forall i | 0 <= i < |s.cs| :: i in w.clients && w.clients[i] == s.cs[i]
  }

  ghost predicate EndsPiece(r: Trace, s: Scene, piece: Piece) {
    match piece case Whole => IsTrace(r) && Shown(Last(r), s)
  }

  /** The run ends in the scene; behind a quantifier, so that proofs use it step by step. */
  ghost predicate Ends(r: Trace, s: Scene) {
    forall piece: Piece :: EndsPiece(r, s, piece)
  }

  lemma EndsIs(r: Trace, s: Scene)
    requires Ends(r, s)
    ensures IsTrace(r) && Shown(Last(r), s)
  {
    assert EndsPiece(r, s, Whole);
  }

  ghost predicate Makes(sh: Shared, cl: Client, ch: Choice, a: Cell<Content>, tx: Cell<TxObject>, cl': Client) {
    && cl.Busy? && Coherent(cl) && Lists(ch.order, Iterated(sh, cl))
    && Step(sh, cl, ch).1 == cl' && Holds(Step(sh, cl, ch).0, a, tx, sh.plan.Keys)
  }

  ghost predicate LeadsPiece(a: Cell<Content>, tx: Cell<TxObject>, plan: set<Txid>, cl: Client, ch: Choice,
                             a': Cell<Content>, tx': Cell<TxObject>, cl': Client, piece: Piece)
  {
    match piece case Whole => forall sh | Holds(sh, a, tx, plan) :: Makes(sh, cl, ch, a', tx', cl')
  }

  /** Wherever the store is like that, the next step of a client that is `cl` is the one given. */
  ghost predicate Leads(a: Cell<Content>, tx: Cell<TxObject>, plan: set<Txid>, cl: Client, ch: Choice,
                        a': Cell<Content>, tx': Cell<TxObject>, cl': Client)
  {
    forall piece: Piece :: LeadsPiece(a, tx, plan, cl, ch, a', tx', cl', piece)
  }

  lemma Take(r: Trace, s: Scene, c: nat, ch: Choice, a: Cell<Content>, tx: Cell<TxObject>, cl: Client) returns (r': Trace, s': Scene)
    requires Ends(r, s) && c < |s.cs| && Leads(s.a, s.tx, s.plan, s.cs[c], ch, a, tx, cl)
    ensures s' == Scene(a, tx, s.plan, s.cs[c := cl]) && Ends(r', s')
  {
    EndsIs(r, s);
    assert LeadsPiece(s.a, s.tx, s.plan, s.cs[c], ch, a, tx, cl, Whole);
    assert Makes(Last(r).sh, s.cs[c], ch, a, tx, cl);
    s' := Scene(a, tx, s.plan, s.cs[c := cl]);
    StepShown(Last(r), s, c, ch, s');
    r' := Extend(r, Run(c, ch));
  }

  lemma StepShown(w: World, s: Scene, c: nat, ch: Choice, s': Scene)
    requires Shown(w, s) && c < |s.cs| == |s'.cs| && s' == Scene(s'.a, s'.tx, s.plan, s.cs[c := s'.cs[c]])
    requires Makes(w.sh, s.cs[c], ch, s'.a, s'.tx, s'.cs[c])
    ensures Enabled(w, Run(c, ch)) && Shown(Do(w, Run(c, ch)), s')
  {
  }

  ghost predicate MayAskPiece(a: Cell<Content>, tx: Cell<TxObject>, plan: set<Txid>, request: Request, piece: Piece) {
    match piece case Whole => forall sh | Holds(sh, a, tx, plan) :: RequestOk(sh, request)
  }

  /** Wherever the store is like that, the request may be made. */
  ghost predicate MayAsk(a: Cell<Content>, tx: Cell<TxObject>, plan: set<Txid>, request: Request) {
    forall piece: Piece :: MayAskPiece(a, tx, plan, request, piece)
  }

  lemma Ask(r: Trace, s: Scene, c: nat, request: Request) returns (r': Trace, s': Scene)
    requires Ends(r, s) && c < |s.cs| && s.cs[c].Idle? && MayAsk(s.a, s.tx, s.plan, request)
    ensures s' == s.(plan := if request.AskCommit? then s.plan + {request.txid} else s.plan, cs := s.cs[c := Start(request)])
    ensures Ends(r', s')
  {
    EndsIs(r, s);
    assert MayAskPiece(s.a, s.tx, s.plan, request, Whole);
    assert RequestOk(Last(r).sh, request);
    r' := Extend(r, Begin(c, request));
    s' := s.(plan := if request.AskCommit? then s.plan + {request.txid} else s.plan, cs := s.cs[c := Start(request)]);
  }

  lemma FirstWorld(objs: map<Key, Cell<Content>>, s: Scene) returns (r: Trace)
    requires objs == map[] || objs == map[A := Cell([Clean("a")], true)]
    requires s == Scene(if A in objs then objs[A] else Cell([], false), NO_TX, {}, [Idle(Started), Idle(Started), Idle(Started)])
    ensures Ends(r, s)
  {
    r := Trace([World(Shared(objs, map[], map[], map[]), map[0 := Idle(Started), 1 := Idle(Started), 2 := Idle(Started)])], []);
  }

  // ---------- first run ----------

  // Client 0 wants to touch A and B. It masks A, finds no B, reads A's mask and is about to
  // take it off. Client 1 deletes A: it loses patience with the mask, puts a tombstone, takes
  // the mask off itself, deletes A and returns. Then client 0 writes.

  const TX1: MiniTransaction := map[A := Touch(NO_RULES), B := Touch(MUST_EXIST)]
  const PLAIN: seq<Content> := [Clean("a")]
  const MASKED: seq<Content> := PLAIN + [Masked(1, Some("a"))]
  const CLEANED: seq<Content> := MASKED + [Clean("a")]
  const A_PLAIN: Cell<Content> := Cell(PLAIN, true)
  const A_MASKED: Cell<Content> := Cell(MASKED, true)
  const A_CLEANED: Cell<Content> := Cell(CLEANED, true)
  const A_GONE: Cell<Content> := Cell(CLEANED, false)
  const TOMB: Cell<TxObject> := Cell([Tombstone], true)

  ghost function Toucher(masked: seq<nat>, phase: Phase, pc: Pc): Client {
    Busy(Committing(1, TX1, [A, B], masked, phase), pc)
  }

  ghost function Deleter(pc: Pc): Client {
    Busy(Deleting(A, NO_RULES), pc)
  }

  lemma TouchSteps()
    ensures Leads(A_PLAIN, NO_TX, {1}, Toucher([], Masking, ReadObject), IN_TIME,
                  A_PLAIN, NO_TX, Toucher([], Masking, Act(Some(("a", 1)))))
    ensures Leads(A_PLAIN, NO_TX, {1}, Toucher([], Masking, Act(Some(("a", 1)))), IN_TIME,
                  A_MASKED, NO_TX, Toucher([2], Masking, ReadObject))
  {
    assert [] + [2] == [2];
  }

  lemma TouchFails()
    ensures Leads(A_MASKED, NO_TX, {1}, Toucher([2], Masking, ReadObject), ONLY_A,
                  A_MASKED, NO_TX, Toucher([2], Failing(B, NoObject), UnmaskRead(1, [A])))
    ensures Leads(A_MASKED, NO_TX, {1}, Toucher([2], Failing(B, NoObject), UnmaskRead(1, [A])), IN_TIME,
                  A_MASKED, NO_TX, Toucher([2], Failing(B, NoObject), UnmaskWrite(1, [A], 2, Some("a"))))
  {
    assert [A, B][..1] == [A];
  }

  lemma DeleteWaiting()
    ensures Leads(A_MASKED, NO_TX, {1}, Deleter(ReadObject), IN_TIME,
                  A_MASKED, NO_TX, Deleter(ReadTx(1)))
    ensures Leads(A_MASKED, NO_TX, {1}, Deleter(ReadTx(1)), TOO_LATE,
                  A_MASKED, NO_TX, Deleter(PutTombstone(1)))
    ensures Leads(A_MASKED, NO_TX, {1}, Deleter(PutTombstone(1)), IN_TIME,
                  A_MASKED, TOMB, Deleter(UnmaskRead(1, [A])))
  {
  }

  lemma DeleteUnmasking()
    ensures Leads(A_MASKED, TOMB, {1}, Deleter(UnmaskRead(1, [A])), IN_TIME,
                  A_MASKED, TOMB, Deleter(UnmaskWrite(1, [A], 2, Some("a"))))
    ensures Leads(A_MASKED, TOMB, {1}, Deleter(UnmaskWrite(1, [A], 2, Some("a"))), IN_TIME,
                  A_CLEANED, TOMB, Deleter(ReadObject))
  {
  }

  lemma DeleteSteps()
    ensures Leads(A_CLEANED, TOMB, {1}, Deleter(ReadObject), IN_TIME,
                  A_CLEANED, TOMB, Deleter(Act(Some(("a", 3)))))
    ensures Leads(A_CLEANED, TOMB, {1}, Deleter(Act(Some(("a", 3)))), IN_TIME,
                  A_GONE, TOMB, Idle(Deleted(A)))
  {
  }

  lemma FirstHalf() returns (r: Trace, s: Scene)
    ensures Ends(r, s) && s.a == A_MASKED && s.tx == NO_TX && s.plan == {1} && |s.cs| == 3 && s.cs[1] == Idle(Started)
    ensures s.cs[0] == Toucher([2], Failing(B, NoObject), UnmaskWrite(1, [A], 2, Some("a")))
  {
    s := Scene(A_PLAIN, NO_TX, {}, [Idle(Started), Idle(Started), Idle(Started)]);
    r := FirstWorld(map[A := A_PLAIN], s);
    assert Sorted([A, B]) && Lists([A, B], TX1.Keys);
    r, s := Ask(r, s, 0, AskCommit(1, TX1, [A, B]));
    assert {} + {1} == {1};
    TouchSteps();
    r, s := Take(r, s, 0, IN_TIME, A_PLAIN, NO_TX, Toucher([], Masking, Act(Some(("a", 1)))));
    r, s := Take(r, s, 0, IN_TIME, A_MASKED, NO_TX, Toucher([2], Masking, ReadObject));
    TouchFails();
    r, s := Take(r, s, 0, ONLY_A, A_MASKED, NO_TX, Toucher([2], Failing(B, NoObject), UnmaskRead(1, [A])));
    r, s := Take(r, s, 0, IN_TIME, A_MASKED, NO_TX, Toucher([2], Failing(B, NoObject), UnmaskWrite(1, [A], 2, Some("a"))));
  }

  lemma FirstRun() returns (r: Trace, s: Scene)
    ensures Ends(r, s) && s.a == A_GONE && s.tx == TOMB && |s.cs| == 3 && s.cs[1] == Idle(Deleted(A))
    ensures s.cs[0] == Toucher([2], Failing(B, NoObject), UnmaskWrite(1, [A], 2, Some("a")))
  {
    r, s := FirstHalf();
    r, s := Ask(r, s, 1, AskDelete(A, NO_RULES));
    DeleteWaiting();
    r, s := Take(r, s, 1, IN_TIME, A_MASKED, NO_TX, Deleter(ReadTx(1)));
    r, s := Take(r, s, 1, TOO_LATE, A_MASKED, NO_TX, Deleter(PutTombstone(1)));
    r, s := Take(r, s, 1, IN_TIME, A_MASKED, TOMB, Deleter(UnmaskRead(1, [A])));
    DeleteUnmasking();
    r, s := Take(r, s, 1, IN_TIME, A_MASKED, TOMB, Deleter(UnmaskWrite(1, [A], 2, Some("a"))));
    r, s := Take(r, s, 1, IN_TIME, A_CLEANED, TOMB, Deleter(ReadObject));
    DeleteSteps();
    r, s := Take(r, s, 1, IN_TIME, A_CLEANED, TOMB, Deleter(Act(Some(("a", 3)))));
    r, s := Take(r, s, 1, IN_TIME, A_GONE, TOMB, Idle(Deleted(A)));
  }

  // ---------- second run ----------

  // Client 0 commits a transaction that only touches A, which does not exist, and is told that
  // A now has version 2. It has none; but when client 1 masks A, that mask is version 2. A
  // write of client 0 that is conditional on version 2 then wipes it.

  const TOUCH: MiniTransaction := map[A := Touch(NO_RULES)]
  const PUT: MiniTransaction := map[A := Put("b", NO_RULES)]
  const NO_A: Cell<Content> := Cell([], false)
  const SEED: seq<Content> := [Masked(1, None)]
  const A_SEED: Cell<Content> := Cell(SEED, true)
  const A_UNSEEDED: Cell<Content> := Cell(SEED, false)
  const A_RESEEDED: Cell<Content> := Cell(SEED + [Masked(2, None)], true)
  const TOUCHING: Cell<TxObject> := Cell([Intent(TOUCH)], true)
  const TOUCHED: Cell<TxObject> := Cell([Intent(TOUCH)], false)

  ghost function Committer(t: Txid, mt: MiniTransaction, masked: seq<nat>, phase: Phase, pc: Pc): Client {
    Busy(Committing(t, mt, [A], masked, phase), pc)
  }

  lemma SeedSteps()
    ensures Leads(NO_A, NO_TX, {1}, Committer(1, TOUCH, [], Masking, ReadObject), IN_TIME,
                  NO_A, NO_TX, Committer(1, TOUCH, [], Masking, Act(None)))
    ensures Leads(NO_A, NO_TX, {1}, Committer(1, TOUCH, [], Masking, Act(None)), IN_TIME,
                  A_SEED, NO_TX, Committer(1, TOUCH, [1], Masking, PutIntent))
    ensures Leads(A_SEED, NO_TX, {1}, Committer(1, TOUCH, [1], Masking, PutIntent), ONLY_A,
                  A_SEED, TOUCHING, Committer(1, TOUCH, [1], Committed, ApplyRead(1, TOUCH, [A], 1)))
  {
    assert [] + [1] == [1];
    assert Lists([A], TOUCH.Keys);
  }

  lemma SeedFinishing()
    ensures Leads(A_SEED, TOUCHING, {1}, Committer(1, TOUCH, [1], Committed, ApplyRead(1, TOUCH, [A], 1)), IN_TIME,
                  A_SEED, TOUCHING, Committer(1, TOUCH, [1], Committed, ApplyWrite(1, TOUCH, [A], 1, 1, None)))
    ensures Leads(A_SEED, TOUCHING, {1}, Committer(1, TOUCH, [1], Committed, ApplyWrite(1, TOUCH, [A], 1, 1, None)), IN_TIME,
                  A_UNSEEDED, TOUCHING, Committer(1, TOUCH, [1], Committed, DeleteIntent(1, 1)))
    ensures Leads(A_UNSEEDED, TOUCHING, {1}, Committer(1, TOUCH, [1], Committed, DeleteIntent(1, 1)), IN_TIME,
                  A_UNSEEDED, TOUCHED, Idle(TxCommitted(1, map[A := Some(2)])))
  {
    assert [A][1..] == [] && [1][1..] == [];
    assert NewVersions(TOUCH, [A], [1]) == map[A := Some(2)];
  }

  lemma NextSteps()
    ensures Leads(A_UNSEEDED, TOUCHED, {1, 2}, Committer(2, PUT, [], Masking, ReadObject), IN_TIME,
                  A_UNSEEDED, TOUCHED, Committer(2, PUT, [], Masking, Act(None)))
    ensures Leads(A_UNSEEDED, TOUCHED, {1, 2}, Committer(2, PUT, [], Masking, Act(None)), IN_TIME,
                  A_RESEEDED, TOUCHED, Committer(2, PUT, [2], Masking, PutIntent))
  {
    assert [] + [2] == [2];
  }

  lemma AskSeed()
    ensures MayAsk(NO_A, NO_TX, {}, AskCommit(1, TOUCH, [A]))
  {
    assert Sorted([A]) && Lists([A], TOUCH.Keys);
  }

  lemma AskNext()
    ensures MayAsk(A_UNSEEDED, TOUCHED, {1}, AskCommit(2, PUT, [A]))
  {
    assert Sorted([A]) && Lists([A], PUT.Keys);
  }

  lemma SeedRun() returns (r: Trace, s: Scene)
    ensures Ends(r, s) && s.a == A_UNSEEDED && s.tx == TOUCHED && s.plan == {1} && |s.cs| == 3
    ensures s.cs[0] == Idle(TxCommitted(1, map[A := Some(2)])) && s.cs[1] == Idle(Started)
  {
    s := Scene(NO_A, NO_TX, {}, [Idle(Started), Idle(Started), Idle(Started)]);
    r := FirstWorld(map[], s);
    AskSeed(); r, s := Ask(r, s, 0, AskCommit(1, TOUCH, [A]));
    assert {} + {1} == {1};
    SeedSteps();
    r, s := Take(r, s, 0, IN_TIME, NO_A, NO_TX, Committer(1, TOUCH, [], Masking, Act(None)));
    r, s := Take(r, s, 0, IN_TIME, A_SEED, NO_TX, Committer(1, TOUCH, [1], Masking, PutIntent));
    r, s := Take(r, s, 0, ONLY_A, A_SEED, TOUCHING, Committer(1, TOUCH, [1], Committed, ApplyRead(1, TOUCH, [A], 1)));
    SeedFinishing();
    r, s := Take(r, s, 0, IN_TIME, A_SEED, TOUCHING, Committer(1, TOUCH, [1], Committed, ApplyWrite(1, TOUCH, [A], 1, 1, None)));
    r, s := Take(r, s, 0, IN_TIME, A_UNSEEDED, TOUCHING, Committer(1, TOUCH, [1], Committed, DeleteIntent(1, 1)));
    r, s := Take(r, s, 0, IN_TIME, A_UNSEEDED, TOUCHED, Idle(TxCommitted(1, map[A := Some(2)])));
  }

  lemma SecondRun() returns (r: Trace, s: Scene)
    ensures Ends(r, s) && s.a == A_RESEEDED && s.tx == TOUCHED && |s.cs| == 3
    ensures s.cs[0] == Idle(TxCommitted(1, map[A := Some(2)])) && s.cs[1] == Committer(2, PUT, [2], Masking, PutIntent)
  {
    r, s := SeedRun();
    AskNext(); r, s := Ask(r, s, 1, AskCommit(2, PUT, [A]));
    assert {1} + {2} == {1, 2};
    NextSteps();
    r, s := Take(r, s, 1, IN_TIME, A_UNSEEDED, TOUCHED, Committer(2, PUT, [], Masking, Act(None)));
    r, s := Take(r, s, 1, IN_TIME, A_RESEEDED, TOUCHED, Committer(2, PUT, [2], Masking, PutIntent));
  }

  // ---------- third run ----------

  // Client 0 commits; client 1 has seen its mask, found no intent yet and will put a tombstone;
  // client 2 finds the intent, finishes for client 0 and deletes it. Only then does client 1 put
  // its tombstone, and client 0 fails to delete its intent.

  const A_NEW: Cell<Content> := Cell(MASKED + [Clean("b")], true)
  const PUTTING: Cell<TxObject> := Cell([Intent(PUT)], true)
  const FINISHED: Cell<TxObject> := Cell([Intent(PUT)], false)
  const LATE: Cell<TxObject> := Cell([Intent(PUT), Tombstone], true)

  ghost function Reader(pc: Pc): Client {
    Busy(Reading(A, NO_RULES), pc)
  }

  lemma PutSteps()
    ensures Leads(A_PLAIN, NO_TX, {1}, Committer(1, PUT, [], Masking, ReadObject), IN_TIME,
                  A_PLAIN, NO_TX, Committer(1, PUT, [], Masking, Act(Some(("a", 1)))))
    ensures Leads(A_PLAIN, NO_TX, {1}, Committer(1, PUT, [], Masking, Act(Some(("a", 1)))), IN_TIME,
                  A_MASKED, NO_TX, Committer(1, PUT, [2], Masking, PutIntent))
    ensures Leads(A_MASKED, NO_TX, {1}, Committer(1, PUT, [2], Masking, PutIntent), ONLY_A,
                  A_MASKED, PUTTING, Committer(1, PUT, [2], Committed, ApplyRead(1, PUT, [A], 1)))
  {
    assert [] + [2] == [2];
    assert Lists([A], PUT.Keys);
  }

  lemma ReaderSteps()
    ensures Leads(A_MASKED, NO_TX, {1}, Reader(ReadObject), IN_TIME,
                  A_MASKED, NO_TX, Reader(ReadTx(1)))
    ensures Leads(A_MASKED, NO_TX, {1}, Reader(ReadTx(1)), TOO_LATE,
                  A_MASKED, NO_TX, Reader(PutTombstone(1)))
    ensures Leads(A_NEW, FINISHED, {1}, Reader(PutTombstone(1)), IN_TIME,
                  A_NEW, LATE, Reader(UnmaskRead(1, [A])))
  {
  }

  lemma HelperSteps()
    ensures Leads(A_MASKED, PUTTING, {1}, Reader(ReadObject), IN_TIME,
                  A_MASKED, PUTTING, Reader(ReadTx(1)))
    ensures Leads(A_MASKED, PUTTING, {1}, Reader(ReadTx(1)), ONLY_A,
                  A_MASKED, PUTTING, Reader(ApplyRead(1, PUT, [A], 1)))
    ensures Leads(A_MASKED, PUTTING, {1}, Reader(ApplyRead(1, PUT, [A], 1)), IN_TIME,
                  A_MASKED, PUTTING, Reader(ApplyWrite(1, PUT, [A], 1, 2, Some("a"))))
  {
    assert Lists([A], PUT.Keys);
  }

  lemma HelperFinishing()
    ensures Leads(A_MASKED, PUTTING, {1}, Reader(ApplyWrite(1, PUT, [A], 1, 2, Some("a"))), IN_TIME,
                  A_NEW, PUTTING, Reader(DeleteIntent(1, 1)))
    ensures Leads(A_NEW, PUTTING, {1}, Reader(DeleteIntent(1, 1)), IN_TIME,
                  A_NEW, FINISHED, Reader(ReadObject))
  {
  }

  lemma PutFailing()
    ensures Leads(A_NEW, LATE, {1}, Committer(1, PUT, [2], Committed, ApplyRead(1, PUT, [A], 1)), IN_TIME,
                  A_NEW, LATE, Committer(1, PUT, [2], Committed, DeleteIntent(1, 1)))
    ensures Leads(A_NEW, LATE, {1}, Committer(1, PUT, [2], Committed, DeleteIntent(1, 1)), IN_TIME,
                  A_NEW, LATE, Idle(Failed(Inconsistent)))
  {
  }

  lemma ThirdRun() returns (r: Trace, s: Scene)
    ensures Ends(r, s) && s.a == A_NEW && s.tx == LATE && |s.cs| == 3 && s.cs[0] == Idle(Failed(Inconsistent))
  {
    s := Scene(A_PLAIN, NO_TX, {}, [Idle(Started), Idle(Started), Idle(Started)]);
    r := FirstWorld(map[A := A_PLAIN], s);
    AskPut(A_PLAIN); r, s := Ask(r, s, 0, AskCommit(1, PUT, [A]));
    assert {} + {1} == {1};
    PutSteps();
    r, s := Take(r, s, 0, IN_TIME, A_PLAIN, NO_TX, Committer(1, PUT, [], Masking, Act(Some(("a", 1)))));
    r, s := Take(r, s, 0, IN_TIME, A_MASKED, NO_TX, Committer(1, PUT, [2], Masking, PutIntent));
    r, s := Ask(r, s, 1, AskRead(A, NO_RULES));
    ReaderSteps();
    r, s := Take(r, s, 1, IN_TIME, A_MASKED, NO_TX, Reader(ReadTx(1)));
    r, s := Take(r, s, 1, TOO_LATE, A_MASKED, NO_TX, Reader(PutTombstone(1)));
    r, s := Take(r, s, 0, ONLY_A, A_MASKED, PUTTING, Committer(1, PUT, [2], Committed, ApplyRead(1, PUT, [A], 1)));
    r, s := Ask(r, s, 2, AskRead(A, NO_RULES));
    HelperSteps();
    r, s := Take(r, s, 2, IN_TIME, A_MASKED, PUTTING, Reader(ReadTx(1)));
    r, s := Take(r, s, 2, ONLY_A, A_MASKED, PUTTING, Reader(ApplyRead(1, PUT, [A], 1)));
    r, s := Take(r, s, 2, IN_TIME, A_MASKED, PUTTING, Reader(ApplyWrite(1, PUT, [A], 1, 2, Some("a"))));
    HelperFinishing();
    r, s := Take(r, s, 2, IN_TIME, A_NEW, PUTTING, Reader(DeleteIntent(1, 1)));
    r, s := Take(r, s, 2, IN_TIME, A_NEW, FINISHED, Reader(ReadObject));
    r, s := Take(r, s, 1, IN_TIME, A_NEW, LATE, Reader(UnmaskRead(1, [A])));
    PutFailing();
    r, s := Take(r, s, 0, IN_TIME, A_NEW, LATE, Committer(1, PUT, [2], Committed, DeleteIntent(1, 1)));
    r, s := Take(r, s, 0, IN_TIME, A_NEW, LATE, Idle(Failed(Inconsistent)));
  }

  // ---------- fourth run ----------

  // Client 0 reads A at version 1. Client 1 deletes A. The transaction of client 2 finds no A and
  // leaves a seed, which takes version 2, but has not committed.

  const A_DELETED: Cell<Content> := Cell(PLAIN, false)
  const A_SEEDED: Cell<Content> := Cell(PLAIN + [Masked(1, None)], true)

  lemma ReadSteps()
    ensures Leads(A_PLAIN, NO_TX, {}, Reader(ReadObject), IN_TIME, A_PLAIN, NO_TX, Idle(Found(A, "a", 1)))
  {
  }

  lemma RemoveSteps()
    ensures Leads(A_PLAIN, NO_TX, {}, Deleter(ReadObject), IN_TIME,
                  A_PLAIN, NO_TX, Deleter(Act(Some(("a", 1)))))
    ensures Leads(A_PLAIN, NO_TX, {}, Deleter(Act(Some(("a", 1)))), IN_TIME,
                  A_DELETED, NO_TX, Idle(Deleted(A)))
  {
  }

  lemma ReseedSteps()
    ensures Leads(A_DELETED, NO_TX, {1}, Committer(1, PUT, [], Masking, ReadObject), IN_TIME,
                  A_DELETED, NO_TX, Committer(1, PUT, [], Masking, Act(None)))
    ensures Leads(A_DELETED, NO_TX, {1}, Committer(1, PUT, [], Masking, Act(None)), IN_TIME,
                  A_SEEDED, NO_TX, Committer(1, PUT, [2], Masking, PutIntent))
  {
    assert [] + [2] == [2];
  }

  lemma AskPut(a: Cell<Content>)
    ensures MayAsk(a, NO_TX, {}, AskCommit(1, PUT, [A]))
  {
    assert Sorted([A]) && Lists([A], PUT.Keys);
  }

  lemma FourthRun() returns (r: Trace, s: Scene)
    ensures Ends(r, s) && s.a == A_SEEDED && s.tx == NO_TX && s.plan == {1} && |s.cs| == 3
    ensures s.cs[0] == Idle(Found(A, "a", 1)) && s.cs[1] == Idle(Deleted(A))
  {
    s := Scene(A_PLAIN, NO_TX, {}, [Idle(Started), Idle(Started), Idle(Started)]);
    r := FirstWorld(map[A := A_PLAIN], s);
    r, s := Ask(r, s, 0, AskRead(A, NO_RULES));
    ReadSteps();
    r, s := Take(r, s, 0, IN_TIME, A_PLAIN, NO_TX, Idle(Found(A, "a", 1)));
    r, s := Ask(r, s, 1, AskDelete(A, NO_RULES));
    RemoveSteps();
    r, s := Take(r, s, 1, IN_TIME, A_PLAIN, NO_TX, Deleter(Act(Some(("a", 1)))));
    r, s := Take(r, s, 1, IN_TIME, A_DELETED, NO_TX, Idle(Deleted(A)));
    AskPut(A_DELETED); r, s := Ask(r, s, 2, AskCommit(1, PUT, [A]));
    assert {} + {1} == {1};
    ReseedSteps();
    r, s := Take(r, s, 2, IN_TIME, A_DELETED, NO_TX, Committer(1, PUT, [], Masking, Act(None)));
    r, s := Take(r, s, 2, IN_TIME, A_SEEDED, NO_TX, Committer(1, PUT, [2], Masking, PutIntent));
  }

  // ---------- fifth run ----------

  // Client 0 reads A at version 1. The transaction of client 1 masks A, which takes version 2, but has
  // not committed.

  lemma FifthRun() returns (r: Trace, s: Scene)
    ensures Ends(r, s) && s.a == A_MASKED && s.tx == NO_TX && s.plan == {1} && |s.cs| == 3
    ensures s.cs[0] == Idle(Found(A, "a", 1))
  {
    s := Scene(A_PLAIN, NO_TX, {}, [Idle(Started), Idle(Started), Idle(Started)]);
    r := FirstWorld(map[A := A_PLAIN], s);
    r, s := Ask(r, s, 0, AskRead(A, NO_RULES));
    ReadSteps();
    r, s := Take(r, s, 0, IN_TIME, A_PLAIN, NO_TX, Idle(Found(A, "a", 1)));
    AskPut(A_PLAIN); r, s := Ask(r, s, 1, AskCommit(1, PUT, [A]));
    assert {} + {1} == {1};
    PutSteps();
    r, s := Take(r, s, 1, IN_TIME, A_PLAIN, NO_TX, Committer(1, PUT, [], Masking, Act(Some(("a", 1)))));
    r, s := Take(r, s, 1, IN_TIME, A_MASKED, NO_TX, Committer(1, PUT, [2], Masking, PutIntent));
  }
}
