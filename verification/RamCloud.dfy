/** The versioned object store every client talks to: one cell per object, changed by
  * single atomic operations guarded by reject rules. A cell keeps every content it ever
  * had, so the version of an object is the length of its log, versions start at 1,
  * each write takes the next one, and a delete does not give versions back.
  */
module RamCloud {

  datatype Option<+T> = None | Some(value: T)

  datatype Error = NoObject | ObjectExists | WrongVersion | Inconsistent

  datatype Result<+T> = Ok(value: T) | Err(error: Error)

  datatype RejectRules = RejectRules(
    givenVersion: nat,
    objectDoesntExist: bool,
    objectExists: bool,
    versionEqGiven: bool,
    versionGtGiven: bool)

  const NO_RULES := RejectRules(0, false, false, false, false)
  const MUST_EXIST := RejectRules(0, true, false, false, false)
  const MUST_BE_ABSENT := RejectRules(0, false, true, false, false)

  /** Reject a missing object or one newer than `v`. Nothing rejects an older one. */
  function Exactly(v: nat): RejectRules {
    RejectRules(v, true, false, false, true)
  }

  function NotAfter(v: nat): RejectRules {
    RejectRules(v, false, false, false, true)
  }

  datatype RawCell<T> = Cell(log: seq<T>, present: bool)

  type Cell<T> = c: RawCell<T> | c.present ==> |c.log| > 0
    witness Cell([], false)

  /** The content an existing object has now. */
  function Top<T>(c: Cell<T>): T
    requires c.present
  {
    c.log[|c.log| - 1]
  }

  function Check<T>(c: Cell<T>, rr: RejectRules): Option<Error> {
    if !c.present then
      if rr.objectDoesntExist then Some(NoObject) else None
    else if rr.objectExists then
      Some(ObjectExists)
    else if (rr.versionEqGiven && |c.log| == rr.givenVersion) || (rr.versionGtGiven && |c.log| > rr.givenVersion) then
      Some(WrongVersion)
    else
      None
  }

  /** The rule that an error names is broken by what there is. */
  ghost predicate Violates<T>(c: Cell<T>, rr: RejectRules, e: Error) {
    match e
    case NoObject => rr.objectDoesntExist && !c.present
    case ObjectExists => rr.objectExists && c.present
    case WrongVersion =>
      c.present && ((rr.versionEqGiven && |c.log| == rr.givenVersion) || (rr.versionGtGiven && |c.log| > rr.givenVersion))
    case Inconsistent => false
  }

  /** An operation goes through exactly when no rule is broken, and otherwise names a broken one. */
  lemma ChecksAllRules<T>(c: Cell<T>, rr: RejectRules)
    ensures Check(c, rr).None? <==> !Violates(c, rr, NoObject) && !Violates(c, rr, ObjectExists) && !Violates(c, rr, WrongVersion)
    ensures Check(c, rr).Some? ==> Violates(c, rr, Check(c, rr).value)
  {
  }

  /** A read always rejects a missing object, whatever the caller's rules say. */
  function Read<T>(c: Cell<T>, rr: RejectRules): Result<(T, nat)> {
    match Check(c, rr.(objectDoesntExist := true))
    case Some(e) => Err(e)
    case None => Ok((Top(c), |c.log|))
  }

  function Write<T>(c: Cell<T>, rr: RejectRules, x: T): (Result<nat>, Cell<T>) {
    match Check(c, rr)
    case Some(e) => (Err(e), c)
    case None => (Ok(|c.log| + 1), Cell(c.log + [x], true))
  }

  function Delete<T>(c: Cell<T>, rr: RejectRules): (Result<nat>, Cell<T>) {
    match Check(c, rr)
    case Some(e) => (Err(e), c)
    case None => (Ok(|c.log|), Cell(c.log, false))
  }

  /** Although the rule only excludes newer versions, a client that has really seen
    * version `v` of a cell can use it to hit exactly the content it saw: versions only
    * grow, so an object that passes the check still has the content of version `v`.
    */
  lemma ExactlyIsExact<T>(c: Cell<T>, v: nat)
    requires 1 <= v <= |c.log|
    ensures Check(c, Exactly(v)).None? <==> c.present && |c.log| == v
    ensures Check(c, Exactly(v)).None? ==> Top(c) == c.log[v - 1]
    ensures Check(c, NotAfter(v)).None? <==> !c.present || |c.log| == v
  {
  }
}
