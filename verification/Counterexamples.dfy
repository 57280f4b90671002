/** Where the five runs end. */
module Counterexamples {
  import opened RamCloud
  import opened Protocol
  import opened Invariant
  import opened Refinement
  import opened Anomalies
  import opened Runs

  /** A deleted object can come back: a run of two clients, with no failures, after which client 1 has
    * deleted A, has been told so, and A has its old data again.
    */
  lemma DeletedObjectComesBack() returns (r: Trace, l: Label)
    ensures IsTrace(r) && Enabled(Last(r), l)
    ensures 1 in Last(r).clients && Last(r).clients[1] == Idle(Deleted(A)) && l.c != 1
    ensures Logical(Last(r).sh, A) == None && Logical(Do(Last(r), l).sh, A) == Some("a")
  {
    var s;
    r, s := FirstRun();
    EndsIs(r, s);
    l := Run(0, IN_TIME);
  }

  /** A version reported by mt_commit can name the mask of somebody else's transaction. A write that
    * relies on it takes that mask off, and the transaction, which commits all the same, has no effect.
    */
  lemma ReportedVersionNamesMask() returns (r: Trace)
    ensures IsTrace(r)
    ensures var w := Last(r);
            && 0 in w.clients && w.clients[0] == Idle(TxCommitted(1, map[A := Some(2)]))
            && 1 in w.clients && w.clients[1] == Committer(2, PUT, [2], Masking, PutIntent)
            && !SeenClean(w.sh, A, 2)
            && var sh := DoDirect(w.sh, Writing(A, "c", NotAfter(2))).0;
               && MaskedBy(w.sh, A, 2) && !MaskedBy(sh, A, 2)
               && var sh' := Step(sh, w.clients[1], ONLY_A).0;
                  IsCommitted(sh', 2) && Logical(sh', A) == Some("c")
  {
    var s;
    r, s := SecondRun();
    EndsIs(r, s);
  }

  /** A create can be refused because the object exists though it does not: it is a seed, left by a
    * transaction that has not committed. Before, in and after the step there is no such object.
    */
  lemma CreateRefusedForNothing() returns (r: Trace, l: Label)
    ensures IsTrace(r) && Enabled(Last(r), l) && l.c == 0 && EventOf(Last(r), l) == Misled(A)
    ensures Last(r).clients[0] == Busy(Writing(A, "c", MUST_BE_ABSENT), Direct)
    ensures 0 in Do(Last(r), l).clients && Do(Last(r), l).clients[0] == Idle(Failed(ObjectExists))
    ensures Logical(Last(r).sh, A) == None && Logical(Do(Last(r), l).sh, A) == None
  {
    var s;
    r, s := SecondRun();
    r, s := Ask(r, s, 0, AskWrite(A, "c", MUST_BE_ABSENT));
    EndsIs(r, s);
    l := Run(0, IN_TIME);
  }

  /** A write or delete that is conditional on a version can be refused because of the version of an
    * object that does not exist. Client 0 has seen A at version 1 and asks to write it if there is no A or
    * that one. A has been deleted, and there is a seed, left by a transaction that has not committed.
    */
  lemma WriteRefusedForNothing() returns (r: Trace, l: Label)
    ensures IsTrace(r) && Enabled(Last(r), l) && l.c == 0 && EventOf(Last(r), l) == Misled(A)
    ensures SeenClean(Last(r).sh, A, 1) && Check<Content>(Cell([], false), NotAfter(1)).None?
    ensures Last(r).clients[0] == Busy(Writing(A, "c", NotAfter(1)), Direct)
    ensures 0 in Do(Last(r), l).clients && Do(Last(r), l).clients[0] == Idle(Failed(WrongVersion))
    ensures Logical(Last(r).sh, A) == None && Logical(Do(Last(r), l).sh, A) == None
  {
    var s;
    r, s := FourthRun();
    r, s := Ask(r, s, 0, AskWrite(A, "c", NotAfter(1)));
    EndsIs(r, s);
    l := Run(0, IN_TIME);
  }

  const PUT_NEW: MiniTransaction := map[A := Put("c", NotAfter(1))]

  /** So can a transaction with the same operation: it is rejected although the rules of its only
    * operation are met.
    */
  lemma RejectedForNothing() returns (r: Trace, l: Label)
    ensures IsTrace(r) && Enabled(Last(r), l) && l.c == 0 && EventOf(Last(r), l) == Misled(A)
    ensures Last(r).clients[0] == Committer(2, PUT_NEW, [], Masking, ReadObject)
    ensures 0 in Do(Last(r), l).clients && Do(Last(r), l).clients[0] == Idle(TxRejected(2, A, WrongVersion))
    ensures Logical(Last(r).sh, A) == None && Logical(Do(Last(r), l).sh, A) == None
  {
    var s;
    r, s := FourthRun();
    AskPutNew(s.plan); r, s := Ask(r, s, 0, AskCommit(2, PUT_NEW, [A]));
    EndsIs(r, s);
    l := Run(0, IN_TIME);
  }

  lemma AskPutNew(plan: set<Txid>)
    requires plan == {1}
    ensures MayAsk(A_SEEDED, NO_TX, plan, AskCommit(2, PUT_NEW, [A]))
  {
    assert Sorted([A]) && Lists([A], PUT_NEW.Keys);
  }

  /** A read that is conditional on a version is told of a wrong version where there is no object. */
  lemma ReadRefusedForNothing() returns (r: Trace, l: Label)
    ensures IsTrace(r) && Enabled(Last(r), l) && l.c == 0 && EventOf(Last(r), l) == Misled(A)
    ensures Last(r).clients[0] == Busy(Reading(A, Exactly(1)), ReadObject)
    ensures 0 in Do(Last(r), l).clients && Do(Last(r), l).clients[0] == Idle(Failed(WrongVersion))
    ensures Logical(Last(r).sh, A) == None && Logical(Do(Last(r), l).sh, A) == None
  {
    var s;
    r, s := FourthRun();
    r, s := Ask(r, s, 0, AskRead(A, Exactly(1)));
    EndsIs(r, s);
    l := Run(0, IN_TIME);
  }

  /** Client 0 has seen A at version 1, and A is what it was and has not been written; but a transaction
    * that has not committed masks it, and the mask took version 2.
    */
  lemma RefusedThoughUnchanged() returns (r: Trace, l: Label)
    ensures IsTrace(r) && Enabled(Last(r), l) && l.c == 0 && EventOf(Last(r), l) == Saw(A, Some("a"))
    ensures WasClean(Last(r).sh, A, 1, "a") && MaskOver(Last(r).sh, A, 1)
    ensures Last(r).clients[0] == Busy(Writing(A, "c", NotAfter(1)), Direct)
    ensures 0 in Do(Last(r), l).clients && Do(Last(r), l).clients[0] == Idle(Failed(WrongVersion))
  {
    var s;
    r, s := FifthRun();
    r, s := Ask(r, s, 0, AskWrite(A, "c", NotAfter(1)));
    EndsIs(r, s);
    l := Run(0, IN_TIME);
  }

  /** A transaction can commit, take effect on all its objects, and still be reported to its caller as
    * an inconsistency.
    */
  lemma CommittedButReportedBroken() returns (r: Trace)
    ensures IsTrace(r) && 0 in Last(r).clients && Last(r).clients[0] == Idle(Failed(Inconsistent))
    ensures IsCommitted(Last(r).sh, 1) && Logical(Last(r).sh, A) == Some("b") && !MaskedBy(Last(r).sh, A, 1)
  {
    var s;
    r, s := ThirdRun();
    EndsIs(r, s);
  }
}
