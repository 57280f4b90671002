/** Allocation of object IDs, and so of transaction IDs: clients reserve batches from a
  * shared 64-bit counter by compare-and-swap and hand the IDs of a batch out one by one.
  */
module OidRes {
  import opened RamCloud

  const RANGE: nat := 0x1_0000_0000_0000_0000

  type ClientId = nat

  /** What `pack` makes of a number: it is stored in 64 bits, so it wraps around. */
  function Pack(n: nat): nat {
    if n < RANGE then n else Pack(n - RANGE)
  }

  lemma {:induction false} PackIsRemainder(n: nat)
    ensures Pack(n) == n % RANGE
  {
    if n >= RANGE {
      PackIsRemainder(n - RANGE);
    }
  }

  // ---------- the algorithm ----------

  datatype Pc =
    | Ready
    | Reading(delta: nat)
    | Creating(delta: nat)
    | Updating(delta: nat, nextAvail: nat, version: nat)

  /** `reserved` is a stack: the next ID to hand out is its last element. The number of the
    * batch it is the rest of is only kept to speak about it.
    */
  datatype Client = Client(reserved: seq<nat>, pc: Pc, batch: nat)

  /** A batch that was reserved, and by whom. */
  datatype Batch = Batch(start: nat, delta: nat, owner: ClientId)

  /** An ID that was returned, and the batch it is from. */
  datatype Draw = Draw(client: ClientId, id: nat, batch: nat)

  /** The counter and the clients; `batches` and `draws` record what happened. */
  datatype World = World(counter: Cell<nat>, clients: map<ClientId, Client>, batches: seq<Batch>, draws: seq<Draw>)

  /** The IDs after the first of a batch, in descending order. */
  function Rest(start: nat, delta: nat): (s: seq<nat>)
    requires delta >= 1
    ensures |s| == delta - 1 && forall i | 0 <= i < |s| :: s[i] == start + delta - 1 - i
  {
    seq(delta - 1, i requires 0 <= i < delta - 1 => start + delta - 1 - i)
  }

  /** `next` is called; `delta` stays as it is during the call. */
  function Call(w: World, c: ClientId, delta: nat): World
    requires c in w.clients
  {
    var cl := w.clients[c];
    if cl.reserved != [] then
      var n := |cl.reserved| - 1;
      w.(clients := w.clients[c := cl.(reserved := cl.reserved[..n])], draws := w.draws + [Draw(c, cl.reserved[n], cl.batch)])
    else
      w.(clients := w.clients[c := cl.(pc := Reading(delta))])
  }

  /** One raw operation of a client that is inside `next`. */
  function Step(w: World, c: ClientId): World
    requires c in w.clients && w.clients[c].pc != Ready
    requires w.clients[c].pc.delta >= 1
  {
    match w.clients[c].pc
    case Reading(delta) =>
      (match Read(w.counter, MUST_EXIST)
       case Err(_) => SetPc(w, c, Creating(delta))
       case Ok((nextAvail, version)) => SetPc(w, c, Updating(delta, nextAvail, version)))
    case Creating(delta) =>
      (match Write(w.counter, MUST_BE_ABSENT, Pack(0 + delta))
       case (Ok(_), cell) => Reserve(w.(counter := cell), c, 0, delta)
       case (Err(_), _) => SetPc(w, c, Reading(delta)))
    case Updating(delta, nextAvail, version) =>
      (match Write(w.counter, Exactly(version), Pack(nextAvail + delta))
       case (Ok(_), cell) => Reserve(w.(counter := cell), c, nextAvail, delta)
       case (Err(_), _) => SetPc(w, c, Reading(delta)))
  }

  function SetPc(w: World, c: ClientId, pc: Pc): World
    requires c in w.clients
  {
    w.(clients := w.clients[c := w.clients[c].(pc := pc)])
  }

  /** The compare-and-swap succeeded: keep the rest of the batch, return its first ID. */
  function Reserve(w: World, c: ClientId, start: nat, delta: nat): World
    requires delta >= 1
  {
    var b := |w.batches|;
    w.(batches := w.batches + [Batch(start, delta, c)],
       clients := w.clients[c := Client(Rest(start, delta), Ready, b)],
       draws := w.draws + [Draw(c, start, b)])
  }

  datatype Label = Next(c: ClientId, delta: nat) | Run(c: ClientId) | Lose(c: ClientId)

  predicate Enabled(w: World, l: Label) {
    && l.c in w.clients
    && match l
       case Next(c, delta) => w.clients[c].pc.Ready? && delta >= 1
       case Run(c) => !w.clients[c].pc.Ready? && w.clients[c].pc.delta >= 1
       case Lose(_) => true
  }

  /** A client may also crash and start afresh, losing what it had reserved. */
  function Do(w: World, l: Label): World
    requires Enabled(w, l)
  {
    match l
    case Next(c, delta) => Call(w, c, delta)
    case Run(c) => Step(w, c)
    case Lose(c) => w.(clients := w.clients[c := Client([], Ready, 0)])
  }

  predicate Init(w: World) {
    w.counter == Cell([], false) && w.batches == [] && w.draws == [] && forall c | c in w.clients :: w.clients[c] == Client([], Ready, 0)
  }

  // ---------- invariant ----------

  /** How many IDs the first n batches have used up. */
  function Used(bs: seq<Batch>, n: nat): nat
    requires n <= |bs|
  {
    if n == 0 then 0 else Used(bs, n - 1) + bs[n - 1].delta
  }

  /** Batch j starts where the counter, with its 64 bits, stood before it, and version
    * j + 1 of the counter is where it stood after it.
    */
  ghost predicate BatchOk(log: seq<nat>, bs: seq<Batch>, j: nat)
    requires j < |bs| && |log| == |bs|
  {
    bs[j].delta >= 1 && bs[j].start == Pack(Used(bs, j)) && log[j] == Pack(Used(bs, j + 1))
  }

  ghost predicate CounterInv(w: World) {
    && |w.counter.log| == |w.batches| && (w.counter.present <==> |w.batches| > 0)
    && (forall j | 0 <= j < |w.batches| :: BatchOk(w.counter.log, w.batches, j))
  }

  ghost predicate DrawOk(bs: seq<Batch>, d: Draw) {
    && d.batch < |bs| && bs[d.batch].owner == d.client
    && bs[d.batch].start <= d.id < bs[d.batch].start + bs[d.batch].delta
  }

  /** Of two draws of one client, the later one is from a later batch or further into the
    * same one.
    */
  ghost predicate Later(d: Draw, e: Draw) {
    d.client == e.client ==> d.batch < e.batch || (d.batch == e.batch && d.id < e.id)
  }

  ghost predicate DrawsInv(w: World) {
    && (forall i | 0 <= i < |w.draws| :: DrawOk(w.batches, w.draws[i]))
    && (forall i, j | 0 <= i < j < |w.draws| :: Later(w.draws[i], w.draws[j]))
  }

  /** What a client still has reserved is the undrawn rest of its last batch. */
  ghost predicate ClientOk(w: World, c: ClientId, cl: Client) {
    && (cl.pc != Ready ==> cl.reserved == [])
    && (cl.reserved != [] ==>
          && cl.batch < |w.batches| && w.batches[cl.batch].owner == c
          && var end := w.batches[cl.batch].start + w.batches[cl.batch].delta;
             && |cl.reserved| < w.batches[cl.batch].delta
             && (forall i | 0 <= i < |cl.reserved| :: cl.reserved[i] == end - 1 - i)
             && (forall i | 0 <= i < |w.draws| && w.draws[i].client == c ::
                   w.draws[i].batch < cl.batch || (w.draws[i].batch == cl.batch && w.draws[i].id < end - |cl.reserved|)))
    && match cl.pc
       case Updating(delta, nextAvail, version) => 1 <= version <= |w.counter.log| && w.counter.log[version - 1] == nextAvail
       case _ => true
  }

  ghost predicate Inv(w: World) {
    && CounterInv(w) && DrawsInv(w)
    && forall c | c in w.clients :: ClientOk(w, c, w.clients[c])
  }

  // ---------- every step keeps it ----------

  lemma {:induction false} PackAdds(a: nat, b: nat)
    ensures Pack(Pack(a) + b) == Pack(a + b)
  {
    if a >= RANGE {
      PackAdds(a - RANGE, b);
    }
  }

  lemma {:induction false} PackBelow(n: nat)
    ensures Pack(n) < RANGE && Pack(n) <= n
  {
    if n >= RANGE {
      PackBelow(n - RANGE);
    }
  }

  lemma {:induction false} UsedPrefix(bs: seq<Batch>, b: Batch, n: nat)
    requires n <= |bs|
    ensures Used(bs + [b], n) == Used(bs, n)
  {
    if n > 0 {
      UsedPrefix(bs, b, n - 1);
    }
  }

  lemma ReserveCounts(w: World, w': World, b: Batch)
    requires CounterInv(w) && b.delta >= 1 && b.start == Pack(Used(w.batches, |w.batches|))
    requires w'.batches == w.batches + [b]
    requires w'.counter.present && w'.counter.log == w.counter.log + [Pack(b.start + b.delta)]
    ensures CounterInv(w')
  {
    var n := |w.batches|;
    forall j | 0 <= j <= n ensures BatchOk(w'.counter.log, w'.batches, j) {
      UsedPrefix(w.batches, b, j);
      if j < n {
        UsedPrefix(w.batches, b, j + 1);
        assert BatchOk(w.counter.log, w.batches, j);
      } else {
        PackAdds(Used(w.batches, n), b.delta);
      }
    }
  }

  lemma ReserveDraws(w: World, w': World, b: Batch)
    requires DrawsInv(w) && b.delta >= 1
    requires w'.batches == w.batches + [b] && w'.draws == w.draws + [Draw(b.owner, b.start, |w.batches|)]
    ensures DrawsInv(w')
  {
    forall i | 0 <= i < |w'.draws| ensures DrawOk(w'.batches, w'.draws[i]) {
      assert i < |w.draws| ==> DrawOk(w.batches, w.draws[i]);
    }
    forall i, j | 0 <= i < j < |w'.draws| ensures Later(w'.draws[i], w'.draws[j]) {
      assert DrawOk(w.batches, w.draws[i]);
      assert j < |w.draws| ==> Later(w.draws[i], w.draws[j]);
    }
  }

  lemma ReserveOthers(w: World, w': World, b: Batch, d: ClientId, cl: Client)
    requires DrawsInv(w) && ClientOk(w, d, cl) && d != b.owner
    requires w'.batches == w.batches + [b] && w'.draws == w.draws + [Draw(b.owner, b.start, |w.batches|)]
    requires w.counter.log <= w'.counter.log
    ensures ClientOk(w', d, cl)
  {
  }

  lemma ReserveOwn(w: World, w': World, b: Batch)
    requires DrawsInv(w) && b.delta >= 1
    requires w'.batches == w.batches + [b] && w'.draws == w.draws + [Draw(b.owner, b.start, |w.batches|)]
    ensures ClientOk(w', b.owner, Client(Rest(b.start, b.delta), Ready, |w.batches|))
  {
    forall i | 0 <= i < |w.draws| ensures w.draws[i].batch < |w.batches| {
      assert DrawOk(w.batches, w.draws[i]);
    }
  }

  lemma ReserveKeeps(w: World, c: ClientId, start: nat, delta: nat, cell: Cell<nat>)
    requires Inv(w) && c in w.clients && delta >= 1
    requires start == Pack(Used(w.batches, |w.batches|))
    requires cell.present && cell.log == w.counter.log + [Pack(start + delta)]
    ensures Inv(Reserve(w.(counter := cell), c, start, delta))
  {
    var w' := Reserve(w.(counter := cell), c, start, delta);
    var b := Batch(start, delta, c);
    ReserveCounts(w, w', b);
    ReserveDraws(w, w', b);
    forall d | d in w'.clients ensures ClientOk(w', d, w'.clients[d]) {
      if d == c { ReserveOwn(w, w', b); } else { ReserveOthers(w, w', b, d, w.clients[d]); }
    }
  }

  /** The version a client read the counter at is the current one only if the counter has
    * not moved.
    */
  lemma CounterStands(w: World)
    requires CounterInv(w)
    ensures w.counter.present ==> Top(w.counter) == Pack(Used(w.batches, |w.batches|))
    ensures !w.counter.present ==> 0 == Pack(Used(w.batches, |w.batches|))
  {
    if w.counter.present { assert BatchOk(w.counter.log, w.batches, |w.batches| - 1); }
  }

  lemma PopKeeps(w: World, c: ClientId, delta: nat)
    requires Inv(w) && c in w.clients && w.clients[c].reserved != []
    ensures Inv(Call(w, c, delta))
  {
    var w' := Call(w, c, delta);
    var cl := w.clients[c];
    assert ClientOk(w, c, cl);
    forall i | 0 <= i < |w'.draws| ensures DrawOk(w'.batches, w'.draws[i]) {
      assert i < |w.draws| ==> DrawOk(w.batches, w.draws[i]);
    }
    forall d | d in w'.clients ensures ClientOk(w', d, w'.clients[d]) {
      assert ClientOk(w, d, w.clients[d]);
    }
  }

  lemma StepKeeps(w: World, c: ClientId)
    requires Inv(w) && Enabled(w, Run(c))
    ensures Inv(Step(w, c))
  {
    CounterStands(w);
    assert ClientOk(w, c, w.clients[c]);
    match w.clients[c].pc
    case Reading(delta) =>
    case Creating(delta) =>
      if !w.counter.present { ReserveKeeps(w, c, 0, delta, Write(w.counter, MUST_BE_ABSENT, Pack(0 + delta)).1); }
    case Updating(delta, nextAvail, version) =>
      ExactlyIsExact(w.counter, version);
      if Check(w.counter, Exactly(version)).None? {
        ReserveKeeps(w, c, nextAvail, delta, Write(w.counter, Exactly(version), Pack(nextAvail + delta)).1);
      }
  }

  lemma InvKept(w: World, l: Label)
    requires Inv(w) && Enabled(w, l)
    ensures Inv(Do(w, l))
  {
    match l
    case Run(c) => StepKeeps(w, c);
    case Next(c, delta) => if w.clients[c].reserved != [] { PopKeeps(w, c, delta); }
    case Lose(c) =>
  }

  /** A run of the allocator. */
  ghost predicate IsRun(ws: seq<World>, ls: seq<Label>, n: nat)
    requires |ws| == |ls| + 1 && n <= |ls|
  {
    if n == 0 then Init(ws[0])
    else IsRun(ws, ls, n - 1) && Enabled(ws[n - 1], ls[n - 1]) && ws[n] == Do(ws[n - 1], ls[n - 1])
  }

  lemma {:induction false} Reachable(ws: seq<World>, ls: seq<Label>, n: nat)
    requires |ws| == |ls| + 1 && n <= |ls| && IsRun(ws, ls, n)
    ensures Inv(ws[n])
  {
    if n > 0 {
      Reachable(ws, ls, n - 1);
      InvKept(ws[n - 1], ls[n - 1]);
    }
  }

  // ---------- IDs are unique as long as the counter has not wrapped around ----------

  ghost predicate Disjoint(a: Batch, b: Batch) {
    a.start + a.delta <= b.start || b.start + b.delta <= a.start
  }

  /** No batch was reserved after the 64 bits of the counter were used up. */
  ghost predicate InRange(w: World) {
    |w.batches| > 0 ==> Used(w.batches, |w.batches| - 1) < RANGE
  }

  lemma {:induction false} UsedGrows(bs: seq<Batch>, i: nat, j: nat)
    requires i < j <= |bs|
    ensures Used(bs, i) + bs[i].delta <= Used(bs, j)
  {
    if i < j - 1 {
      UsedGrows(bs, i, j - 1);
    }
  }

  /** As long as the counter had not wrapped around, a batch starts right after all IDs
    * used before it.
    */
  lemma StartsAtUsed(w: World, j: nat)
    requires CounterInv(w) && j < |w.batches| && Used(w.batches, j) < RANGE
    ensures w.batches[j].start == Used(w.batches, j)
  {
    assert BatchOk(w.counter.log, w.batches, j);
  }

  lemma InRangeBefore(w: World, j: nat)
    requires InRange(w) && j < |w.batches|
    ensures Used(w.batches, j) < RANGE
  {
    if j < |w.batches| - 1 { UsedGrows(w.batches, j, |w.batches| - 1); }
  }

  lemma StartsGrow(w: World, i: nat, j: nat)
    requires CounterInv(w) && InRange(w) && i < j < |w.batches|
    ensures w.batches[i].start + w.batches[i].delta <= w.batches[j].start
  {
    UsedGrows(w.batches, i, j);
    InRangeBefore(w, i);
    InRangeBefore(w, j);
    StartsAtUsed(w, i);
    StartsAtUsed(w, j);
  }

  /** Some batch covers every number below what was used, up to the first wrap-around. */
  lemma {:induction false} Covered(w: World, x: nat, n: nat) returns (i: nat)
    requires CounterInv(w) && n <= |w.batches| && x < Used(w.batches, n)
    requires n > 0 ==> Used(w.batches, n - 1) < RANGE
    ensures i < n && w.batches[i].start <= x < w.batches[i].start + w.batches[i].delta
  {
    StartsAtUsed(w, n - 1);
    if x >= Used(w.batches, n - 1) {
      i := n - 1;
    } else {
      if n >= 2 { UsedGrows(w.batches, n - 2, n - 1); }
      i := Covered(w, x, n - 1);
    }
  }

  lemma {:induction false} FirstWrapped(bs: seq<Batch>, m: nat) returns (n: nat)
    requires m <= |bs| && Used(bs, m) >= RANGE
    ensures 0 < n <= m && Used(bs, n - 1) < RANGE <= Used(bs, n)
  {
    if Used(bs, m - 1) < RANGE {
      n := m;
    } else {
      n := FirstWrapped(bs, m - 1);
    }
  }

  lemma WrappedOverlaps(w: World) returns (i: nat, n: nat)
    requires CounterInv(w) && !InRange(w)
    ensures i < n < |w.batches| && !Disjoint(w.batches[i], w.batches[n])
  {
    n := FirstWrapped(w.batches, |w.batches| - 1);
    PackBelow(Used(w.batches, n));
    assert BatchOk(w.counter.log, w.batches, n);
    i := Covered(w, w.batches[n].start, n);
  }

  /** The batches reserved by all clients are pairwise disjoint if and only if the counter
    * had not wrapped around when the last of them was reserved.
    */
  lemma BatchesDisjoint(w: World)
    requires CounterInv(w)
    ensures InRange(w) <==> forall i, j | 0 <= i < j < |w.batches| :: Disjoint(w.batches[i], w.batches[j])
  {
    if InRange(w) {
      forall i, j | 0 <= i < j < |w.batches| ensures Disjoint(w.batches[i], w.batches[j]) {
        StartsGrow(w, i, j);
      }
    } else {
      var i, n := WrappedOverlaps(w);
    }
  }

  /** No ID is ever returned twice, to the same client or to different ones, and each
    * client's IDs strictly increase.
    */
  lemma NoIdTwice(ws: seq<World>, ls: seq<Label>, i: nat, j: nat)
    requires |ws| == |ls| + 1 && IsRun(ws, ls, |ls|) && InRange(ws[|ls|])
    requires i < j < |ws[|ls|].draws|
    ensures var draws := ws[|ls|].draws;
            && draws[i].id != draws[j].id
            && (draws[i].client == draws[j].client ==> draws[i].id < draws[j].id)
  {
    var w := ws[|ls|];
    Reachable(ws, ls, |ls|);
    var d, e := w.draws[i], w.draws[j];
    assert DrawOk(w.batches, d) && DrawOk(w.batches, e) && Later(d, e);
    if d.batch < e.batch {
      StartsGrow(w, d.batch, e.batch);
    } else if e.batch < d.batch {
      StartsGrow(w, e.batch, d.batch);
    }
  }

  /** A client that draws until it gets an ID other than zero needs at most two draws. */
  lemma ZeroAtMostOnce(ws: seq<World>, ls: seq<Label>, i: nat, j: nat)
    requires |ws| == |ls| + 1 && IsRun(ws, ls, |ls|) && InRange(ws[|ls|])
    requires i < j < |ws[|ls|].draws| && ws[|ls|].draws[i].id == 0
    ensures ws[|ls|].draws[j].id != 0
  {
    NoIdTwice(ws, ls, i, j);
  }

  /** An ID drawn now differs from everything earlier draws were used for. */
  lemma DrawIsFresh(ws: seq<World>, ls: seq<Label>, used: set<nat>, j: nat)
    requires |ws| == |ls| + 1 && IsRun(ws, ls, |ls|) && InRange(ws[|ls|])
    requires j < |ws[|ls|].draws|
    requires forall t | t in used :: exists i :: 0 <= i < j && ws[|ls|].draws[i].id == t
    ensures ws[|ls|].draws[j].id !in used
  {
    var id := ws[|ls|].draws[j].id;
    if id in used {
      var i :| 0 <= i < j && ws[|ls|].draws[i].id == id;
      NoIdTwice(ws, ls, i, j);
      assert false;
    }
  }

  // ---------- and not once it has ----------

  /** The run goes on by one step. */
  lemma GoOn(ws: seq<World>, ls: seq<Label>, l: Label) returns (vs: seq<World>, ms: seq<Label>)
    requires |ws| == |ls| + 1 && IsRun(ws, ls, |ls|) && Enabled(ws[|ls|], l)
    ensures |vs| == |ms| + 1 && IsRun(vs, ms, |ms|) && vs[|ms|] == Do(ws[|ls|], l)
  {
    vs, ms := ws + [Do(ws[|ls|], l)], ls + [l];
    SameRun(ws, ls, vs, ms, |ls|);
  }

  lemma {:induction false} SameRun(ws: seq<World>, ls: seq<Label>, vs: seq<World>, ms: seq<Label>, n: nat)
    requires |ws| == |ls| + 1 && |vs| == |ms| + 1 && ws <= vs && ls <= ms && n <= |ls| && IsRun(ws, ls, n)
    ensures IsRun(vs, ms, n)
  {
    if n > 0 { SameRun(ws, ls, vs, ms, n - 1); }
  }

  /** What a call with two raw operations, reading and writing the counter, makes of a world. */
  ghost predicate Called(w: World, w': World, c: ClientId, delta: nat) {
    var start := if w.counter.present then Top(w.counter) else 0;
    && w'.counter == Cell(w.counter.log + [Pack(start + delta)], true)
    && w'.draws == w.draws + [Draw(c, start, |w.batches|)] && w'.batches == w.batches + [Batch(start, delta, c)]
    && c in w'.clients && w'.clients[c].pc.Ready? && |w'.clients[c].reserved| == delta - 1
    && (forall i | 0 <= i < delta - 1 :: w'.clients[c].reserved[i] == start + delta - 1 - i)
    && w'.clients.Keys == w.clients.Keys && forall d | d in w.clients && d != c :: w'.clients[d] == w.clients[d]
  }

  /** A client that nobody disturbs gets its ID with two raw operations. */
  lemma TwoOperations(w: World, c: ClientId, delta: nat)
    requires c in w.clients && w.clients[c].pc == Reading(delta) && delta >= 1
    ensures Enabled(w, Run(c)) && Enabled(Do(w, Run(c)), Run(c))
    ensures Called(w, Do(Do(w, Run(c)), Run(c)), c, delta)
  {
    if w.counter.present { ExactlyIsExact(w.counter, |w.counter.log|); }
  }

  lemma CallSteps(w: World, c: ClientId, delta: nat) returns (w1: World, w2: World, w3: World)
    requires delta >= 1 && c in w.clients && w.clients[c] == Client([], Ready, 0)
    ensures Enabled(w, Next(c, delta)) && w1 == Do(w, Next(c, delta))
    ensures Enabled(w1, Run(c)) && w2 == Do(w1, Run(c)) && Enabled(w2, Run(c)) && w3 == Do(w2, Run(c))
    ensures Called(w, w3, c, delta)
  {
    w1 := Do(w, Next(c, delta));
    TwoOperations(w1, c, delta);
    w2 := Do(w1, Run(c));
    w3 := Do(w2, Run(c));
    assert w1.clients.Keys == w.clients.Keys;
  }

  lemma CallOnce(ws: seq<World>, ls: seq<Label>, c: ClientId, delta: nat) returns (vs: seq<World>, ms: seq<Label>)
    requires |ws| == |ls| + 1 && IsRun(ws, ls, |ls|) && delta >= 1
    requires var w := ws[|ls|]; c in w.clients && w.clients[c] == Client([], Ready, 0)
    ensures |vs| == |ms| + 1 && IsRun(vs, ms, |ms|) && Called(ws[|ls|], vs[|ms|], c, delta)
  {
    var w1, w2, w3 := CallSteps(ws[|ls|], c, delta);
    vs, ms := GoOn(ws, ls, Next(c, delta));
    vs, ms := GoOn(vs, ms, Run(c));
    vs, ms := GoOn(vs, ms, Run(c));
  }

  /** A run in which the counter wraps around: one client reserves 2^64 IDs and gets zero, and so does the
    * next one.
    */
  lemma ZeroTwice() returns (ws: seq<World>, ls: seq<Label>)
    ensures |ws| == |ls| + 1 && IsRun(ws, ls, |ls|)
    ensures ws[|ls|].draws == [Draw(0, 0, 0), Draw(1, 0, 1)] && !InRange(ws[|ls|])
  {
    var idle := Client([], Ready, 0);
    ws, ls := [World(Cell([], false), map[0 := idle, 1 := idle], [], [])], [];
    ws, ls := CallOnce(ws, ls, 0, RANGE);
    PackIsRemainder(RANGE);
    ws, ls := CallOnce(ws, ls, 1, 1);
    var bs := ws[|ls|].batches;
    assert bs == [Batch(0, RANGE, 0), Batch(0, 1, 1)];
    assert Used(bs, 1) == Used(bs, 0) + bs[0].delta;
  }
}
