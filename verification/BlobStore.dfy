/** A store of blobs in one random-access file. The file is cut into blocks of a few fixed
  * capacities; a deleted blob's block is put on the free list of its capacity, whose links
  * are kept inside the free blocks, and is used again for the next blob of that size class.
  */
module BlobStore {
  import opened Bytes
  import opened Hiding

  const BEGIN_TAG: nat := 0xABCD_EFFF
  const END_TAG: nat := 0xFFFE_DCBA
  const NIL: nat := 0xFFFF_FFFF
  const ACTIVE: byte := 1
  const FREE: byte := 2
  const MAX_FILE: nat := 1_000_000_000
  const MAX_BLOCK: nat := 0x4000_0000
  const INT_RANGE: nat := 0x8000_0000

  // ---------- blocks ----------

  datatype RawBlock = Active(cap: nat, data: seq<byte>) | Free(cap: nat, next: nat)

  predicate Fits(b: RawBlock) {
    b.cap <= MAX_BLOCK && match b case Active(cap, data) => |data| <= cap case Free(_, next) => next < WORD
  }

  type Block = b: RawBlock | Fits(b) witness Free(0, 0)

  function Signed(b: byte): int {
    if b < 128 then b as int else b as int - 256
  }

  function Checksum(data: seq<byte>): (n: nat)
    ensures n < 0x1000_0000
  {
    if data == [] then 0 else (Checksum(data[..|data| - 1]) + Signed(data[|data| - 1])) % 0x1000_0000
  }

  ghost function SumOf(data: seq<byte>): int {
    if data == [] then 0 else SumOf(data[..|data| - 1]) + data[|data| - 1] as int - if data[|data| - 1] < 128 then 0 else 256
  }

  /** The checksum is the sum of the bytes as signed numbers, modulo 2^28. */
  lemma {:induction false} ChecksumIsSum(data: seq<byte>)
    ensures Checksum(data) == SumOf(data) % 0x1000_0000
  {
    if data != [] {
      ChecksumIsSum(data[..|data| - 1]);
      RemainderAdds(SumOf(data[..|data| - 1]), Signed(data[|data| - 1]), 0x1000_0000);
    }
  }

  lemma RemainderAdds(a: int, b: int, m: int)
    requires m > 0
    ensures (a % m + b) % m == (a + b) % m
  {
    var q, r := a / m, (a % m + b) % m;
    assert a + b == m * (q + (a % m + b) / m) + r;
    RemainderIs(a + b, m, q + (a % m + b) / m, r);
  }

  lemma RemainderIs(n: int, m: int, q: int, r: int)
    requires 0 <= r < m && n == m * q + r
    ensures n % m == r
  {
    var p := n / m;
    assert m * (p - q) == r - n % m && m * (q - p) == n % m - r;
    if p > q { TimesAtLeast(m, p - q); }
    if q > p { TimesAtLeast(m, q - p); }
  }

  lemma TimesAtLeast(m: int, x: int)
    requires m > 0 && x >= 1
    ensures m * x >= m
  {
    assert m * x == m * (x - 1) + m;
  }

  lemma {:induction false} SumOfChanged(data: seq<byte>, i: nat, x: byte)
    requires i < |data|
    ensures SumOf(data[i := x]) - SumOf(data) == Signed(x) - Signed(data[i])
  {
    var n := |data| - 1;
    if i < n {
      SumOfChanged(data[..n], i, x);
      assert data[i := x][..n] == data[..n][i := x];
    } else {
      assert data[i := x][..n] == data[..n];
    }
  }

  /** One byte that changed is noticed. */
  lemma ChecksumTells(data: seq<byte>, i: nat, x: byte)
    requires i < |data| && x != data[i]
    ensures Checksum(data[i := x]) != Checksum(data)
  {
    ChecksumIsSum(data);
    ChecksumIsSum(data[i := x]);
    SumOfChanged(data, i, x);
    Apart(SumOf(data), SumOf(data[i := x]), 0x1000_0000);
  }

  lemma Apart(a: int, b: int, m: int)
    requires m > 0 && a != b && -m < a - b < m
    ensures a % m != b % m
  {
    var q := a / m - b / m;
    assert a - b == m * q + (a % m - b % m);
    if q >= 1 { assert m * q >= m; }
    if q <= -1 { assert m * q <= -m; }
  }

  function Size(b: Block): nat {
    b.cap + 21
  }

  /** The length of the data, the data, the padding and the checksum. */
  ghost function DataField(cap: nat, data: seq<byte>): (s: seq<byte>)
    requires |data| <= cap <= MAX_BLOCK
    ensures |s| == cap + 8
  {
    U32(|data|) + data + Zeros(cap - |data|) + U32(Checksum(data))
  }

  /** The bytes of a block between its capacity and its end tag. */
  ghost function Fore(b: Block): (s: seq<byte>)
    ensures |s| == b.cap + 9
  {
    match b
    case Active(cap, data) => [ACTIVE] + DataField(cap, data)
    case Free(cap, next) => [FREE] + (U32(next) + Zeros(cap + 4))
  }

  /** The layout of a block in bytes, looked up piece by piece so that a proof has it only where it
    * asks for it, with BodyIs and EncodeIs.
    */
  ghost predicate InBody(s: seq<byte>, b: Block, piece: Piece) {
    match piece case Whole => s == Fore(b) + U32(END_TAG)
  }

  ghost predicate IsBody(s: seq<byte>, b: Block) {
    |s| == b.cap + 13 && forall piece: Piece :: InBody(s, b, piece)
  }

  /** The bytes of a block after its capacity. */
  ghost function Body(b: Block): (s: seq<byte>)
    ensures |s| == b.cap + 13
  {
    assert IsBody(Fore(b) + U32(END_TAG), b);
    var s :| IsBody(s, b);
    s
  }

  lemma BodyIs(b: Block)
    ensures Body(b) == Fore(b) + U32(END_TAG)
  {
    assert InBody(Body(b), b, Whole);
  }

  ghost function Head(cap: nat): (s: seq<byte>)
    requires cap < WORD
    ensures |s| == 8
  {
    U32(BEGIN_TAG) + U32(cap)
  }

  ghost predicate InEncoding(s: seq<byte>, b: Block, piece: Piece) {
    match piece case Whole => s == Head(b.cap) + Body(b)
  }

  ghost predicate IsEncoding(s: seq<byte>, b: Block) {
    |s| == Size(b) && forall piece: Piece :: InEncoding(s, b, piece)
  }

  /** The bytes of a block. */
  ghost function Encode(b: Block): (s: seq<byte>)
    ensures |s| == Size(b)
  {
    assert IsEncoding(Head(b.cap) + Body(b), b);
    var s :| IsEncoding(s, b);
    s
  }

  lemma EncodeIs(b: Block)
    ensures Encode(b) == Head(b.cap) + Body(b)
  {
    assert InEncoding(Encode(b), b, Whole);
  }

  /** A header and then the chunks one after the other. */
  ghost function Joined(header: seq<byte>, chunks: seq<seq<byte>>): seq<byte> {
    if chunks == [] then header else Joined(header, chunks[..|chunks| - 1]) + chunks[|chunks| - 1]
  }

  ghost function Chunks(encode: Block -> seq<byte>, blocks: seq<Block>): (c: seq<seq<byte>>)
    ensures |c| == |blocks| && forall i | 0 <= i < |blocks| :: c[i] == encode(blocks[i])
  {
    seq(|blocks|, i requires 0 <= i < |blocks| => encode(blocks[i]))
  }

  ghost predicate InImage(file: seq<byte>, header: seq<byte>, blocks: seq<Block>, piece: Piece) {
    match piece case Whole => file == Joined(header, Chunks(Encode, blocks))
  }

  ghost predicate IsImage(file: seq<byte>, header: seq<byte>, blocks: seq<Block>) {
    forall piece: Piece :: InImage(file, header, blocks, piece)
  }

  /** The file: its header and its blocks. */
  ghost function Image(header: seq<byte>, blocks: seq<Block>): seq<byte> {
    assert IsImage(Joined(header, Chunks(Encode, blocks)), header, blocks);
    var file :| IsImage(file, header, blocks);
    file
  }

  lemma ImageIs(header: seq<byte>, blocks: seq<Block>)
    ensures Image(header, blocks) == Joined(header, Chunks(Encode, blocks))
  {
    assert InImage(Image(header, blocks), header, blocks, Whole);
  }

  lemma ChunksChange(encode: Block -> seq<byte>, blocks: seq<Block>, i: nat, b: Block)
    requires i < |blocks|
    ensures Chunks(encode, blocks[i := b]) == Chunks(encode, blocks)[i := encode(b)]
  {
  }

  lemma JoinedAppend(encode: Block -> seq<byte>, header: seq<byte>, blocks: seq<Block>, b: Block)
    ensures Joined(header, Chunks(encode, blocks + [b])) == Joined(header, Chunks(encode, blocks)) + encode(b)
  {
    assert Chunks(encode, blocks + [b])[..|blocks|] == Chunks(encode, blocks);
  }

  lemma {:induction false} JoinedAt(header: seq<byte>, chunks: seq<seq<byte>>, i: nat)
    requires i < |chunks|
    ensures var a, f := |Joined(header, chunks[..i])|, Joined(header, chunks);
            a + |chunks[i]| <= |f| && f[a..a + |chunks[i]|] == chunks[i]
  {
    var n := |chunks| - 1;
    if i < n {
      JoinedAt(header, chunks[..n], i);
      assert chunks[..n][..i] == chunks[..i];
    }
  }

  lemma {:induction false} JoinedPrefix(header: seq<byte>, chunks: seq<seq<byte>>)
    ensures |header| <= |Joined(header, chunks)| && Joined(header, chunks)[..|header|] == header
  {
    if chunks != [] { JoinedPrefix(header, chunks[..|chunks| - 1]); }
  }

  lemma {:induction false} JoinedRewrite(header: seq<byte>, chunks: seq<seq<byte>>, i: nat, h: seq<byte>, was: seq<byte>, now: seq<byte>)
    requires i < |chunks| && chunks[i] == h + was && |was| == |now|
    ensures var a, f := |Joined(header, chunks[..i])|, Joined(header, chunks);
            a + |h| + |now| <= |f| && Joined(header, chunks[i := h + now]) == Overwrite(f, a + |h|, now)
  {
    var n := |chunks| - 1;
    var p := Joined(header, chunks[..n]);
    if i < n {
      JoinedRewrite(header, chunks[..n], i, h, was, now);
      assert chunks[..n][..i] == chunks[..i];
      assert chunks[i := h + now][..n] == chunks[..n][i := h + now];
      OverwriteBefore(p, chunks[n], |Joined(header, chunks[..i])| + |h|, now);
    } else {
      assert chunks[i := h + now][..n] == chunks[..n];
      OverwriteEnd(p, h, was, now);
    }
  }

  // ---------- the tiling of the file ----------

  ghost predicate BlockAt(file: seq<byte>, a: nat, b: Block) {
    a + Size(b) <= |file| && file[a..a + Size(b)] == Encode(b)
  }

  /** The blocks lie one after the other from `first` to `end`. */
  ghost predicate Contiguous(blocks: seq<Block>, addrs: seq<nat>, first: nat, end: nat) {
    && |addrs| == |blocks|
    && (if |blocks| == 0 then end == first
        else addrs[0] == first && addrs[|addrs| - 1] + Size(blocks[|blocks| - 1]) == end)
    && (forall i | 0 < i < |blocks| :: Adjacent(blocks, addrs, i))
  }

  ghost predicate Adjacent(blocks: seq<Block>, addrs: seq<nat>, i: nat)
    requires |addrs| == |blocks| && 0 < i < |blocks|
  {
    addrs[i] == addrs[i - 1] + Size(blocks[i - 1])
  }

  lemma {:induction false} BlocksApart(blocks: seq<Block>, addrs: seq<nat>, first: nat, end: nat, i: nat, j: nat)
    requires Contiguous(blocks, addrs, first, end) && i <= j < |blocks|
    ensures first <= addrs[i] <= addrs[j]
    ensures i < j ==> addrs[i] + Size(blocks[i]) <= addrs[j]
    ensures addrs[j] + Size(blocks[j]) <= end
  {
    if i > 0 {
      BlocksApartUp(blocks, addrs, first, end, 0, i);
    }
    BlocksApartUp(blocks, addrs, first, end, i, j);
    BlocksApartUp(blocks, addrs, first, end, j, |blocks| - 1);
  }

  lemma {:induction false} BlocksApartUp(blocks: seq<Block>, addrs: seq<nat>, first: nat, end: nat, i: nat, j: nat)
    requires Contiguous(blocks, addrs, first, end) && i <= j < |blocks|
    ensures i == j || addrs[i] + Size(blocks[i]) <= addrs[j]
  {
    if i < j {
      BlocksApartUp(blocks, addrs, first, end, i, j - 1);
      assert Adjacent(blocks, addrs, j);
    }
  }

  lemma SameCapacities(blocks: seq<Block>, addrs: seq<nat>, first: nat, end: nat, i: nat, b: Block)
    requires Contiguous(blocks, addrs, first, end) && i < |blocks| && b.cap == blocks[i].cap
    ensures Contiguous(blocks[i := b], addrs, first, end)
  {
    var blocks' := blocks[i := b];
    forall j | 0 < j < |blocks| ensures Adjacent(blocks', addrs, j) {
      assert Adjacent(blocks, addrs, j);
    }
  }

  lemma OneMore(blocks: seq<Block>, addrs: seq<nat>, first: nat, end: nat, b: Block)
    requires Contiguous(blocks, addrs, first, end)
    ensures Contiguous(blocks + [b], addrs + [end], first, end + Size(b))
  {
    forall j | 0 < j <= |blocks| ensures Adjacent(blocks + [b], addrs + [end], j) {
      assert j < |blocks| ==> Adjacent(blocks, addrs, j);
    }
  }

  lemma {:induction false} AddressOf(header: seq<byte>, chunks: seq<seq<byte>>, blocks: seq<Block>, addrs: seq<nat>, end: nat, i: nat)
    requires Contiguous(blocks, addrs, |header|, end) && i <= |blocks| == |chunks|
    requires forall j | 0 <= j < |blocks| :: |chunks[j]| == Size(blocks[j])
    ensures |Joined(header, chunks[..i])| == if i < |blocks| then addrs[i] else end
  {
    if i > 0 {
      AddressOf(header, chunks, blocks, addrs, end, i - 1);
      assert chunks[..i][..i - 1] == chunks[..i - 1];
      if i < |blocks| { assert Adjacent(blocks, addrs, i); }
    }
  }

  lemma ImageLength(header: seq<byte>, blocks: seq<Block>, addrs: seq<nat>, end: nat)
    requires Contiguous(blocks, addrs, |header|, end)
    ensures |header| <= |Image(header, blocks)| == end && Image(header, blocks)[..|header|] == header
  {
    ImageIs(header, blocks);
    var chunks := Chunks(Encode, blocks);
    AddressOf(header, chunks, blocks, addrs, end, |blocks|);
    assert chunks[..|blocks|] == chunks;
    JoinedPrefix(header, chunks);
  }

  lemma ImageAppend(header: seq<byte>, blocks: seq<Block>, b: Block)
    ensures Image(header, blocks + [b]) == Image(header, blocks) + Encode(b)
  {
    ImageIs(header, blocks);
    ImageIs(header, blocks + [b]);
    JoinedAppend(Encode, header, blocks, b);
  }

  /** Each block is in the file where its address says. */
  lemma ImageBlock(header: seq<byte>, blocks: seq<Block>, addrs: seq<nat>, end: nat, i: nat)
    requires Contiguous(blocks, addrs, |header|, end) && i < |blocks|
    ensures BlockAt(Image(header, blocks), addrs[i], blocks[i])
  {
    ImageIs(header, blocks);
    AddressOf(header, Chunks(Encode, blocks), blocks, addrs, end, i);
    JoinedAt(header, Chunks(Encode, blocks), i);
  }

  lemma ImageRoom(header: seq<byte>, blocks: seq<Block>, addrs: seq<nat>, end: nat, i: nat)
    requires Contiguous(blocks, addrs, |header|, end) && i < |blocks|
    ensures addrs[i] + Size(blocks[i]) <= |Image(header, blocks)|
  {
    ImageLength(header, blocks, addrs, end);
    BlocksApart(blocks, addrs, |header|, end, i, i);
  }

  /** Writing another body over that of block i changes block i and nothing else. */
  lemma ImageRewrite(header: seq<byte>, blocks: seq<Block>, addrs: seq<nat>, end: nat, i: nat, b: Block)
    requires Contiguous(blocks, addrs, |header|, end) && i < |blocks| && b.cap == blocks[i].cap
    requires addrs[i] + Size(b) <= |Image(header, blocks)|
    ensures Image(header, blocks[i := b]) == Overwrite(Image(header, blocks), addrs[i] + 8, Body(b))
  {
    var chunks := Chunks(Encode, blocks);
    AddressOf(header, chunks, blocks, addrs, end, i);
    ImageIs(header, blocks);
    calc {
      Image(header, blocks[i := b]);
      { ImageIs(header, blocks[i := b]); }
      Joined(header, Chunks(Encode, blocks[i := b]));
      { ChunksChange(Encode, blocks, i, b); }
      Joined(header, chunks[i := Encode(b)]);
      { EncodedRewrite(header, chunks, i, blocks[i], b, addrs[i]); }
      Overwrite(Joined(header, chunks), addrs[i] + 8, Body(b));
    }
  }

  lemma EncodedRewrite(header: seq<byte>, chunks: seq<seq<byte>>, i: nat, was: Block, b: Block, a: nat)
    requires i < |chunks| && chunks[i] == Encode(was) && b.cap == was.cap && a == |Joined(header, chunks[..i])|
    ensures a + Size(b) <= |Joined(header, chunks)|
    ensures Joined(header, chunks[i := Encode(b)]) == Overwrite(Joined(header, chunks), a + 8, Body(b))
  {
    EncodeIs(was);
    EncodeIs(b);
    RewriteAt(header, chunks, i, Head(b.cap), Body(was), Body(b), Encode(b), a, |Joined(header, chunks)|);
  }

  lemma RewriteAt(header: seq<byte>, chunks: seq<seq<byte>>, i: nat, h: seq<byte>, was: seq<byte>, now: seq<byte>, chunk: seq<byte>,
                  a: nat, n: nat)
    requires i < |chunks| && chunks[i] == h + was && |was| == |now| && |h| == 8 && chunk == h + now
    requires a == |Joined(header, chunks[..i])| && n == |Joined(header, chunks)|
    ensures a + 8 + |now| <= n && Joined(header, chunks[i := chunk]) == Overwrite(Joined(header, chunks), a + 8, now)
  {
    JoinedRewrite(header, chunks, i, h, was, now);
  }

  // ---------- size classes and free lists ----------

  /** What the constructor needs of the block capacities. */
  ghost predicate Capacities(lens: seq<nat>) {
    && lens != [] && (forall i, j | 0 <= i <= j < |lens| :: lens[i] <= lens[j])
    && lens[|lens| - 1] <= MAX_BLOCK
  }

  /** The smallest class that holds n bytes; |lens| if there is none. */
  function ClassOf(lens: seq<nat>, n: nat): (c: nat)
    ensures c <= |lens|
    ensures c < |lens| ==> n <= lens[c]
    ensures forall i | 0 <= i < c :: lens[i] < n
  {
    if lens == [] || n <= lens[0] then 0
    else
      var c := ClassOf(lens[1..], n);
      assert forall i | 0 < i < c + 1 :: lens[i] == lens[1..][i - 1];
      c + 1
  }

  /** A chain is a list of block numbers; Link is the address of its p-th block, or none. */
  ghost function Link(addrs: seq<nat>, chain: seq<nat>, p: nat): nat {
    if p < |chain| && chain[p] < |addrs| then addrs[chain[p]] else NIL
  }

  /** The p-th block of a free list is free and has the address of the next one in it. */
  ghost predicate Linked(blocks: seq<RawBlock>, addrs: seq<nat>, cap: nat, chain: seq<nat>, p: nat)
    requires p < |chain|
  {
    chain[p] < |blocks| && blocks[chain[p]] == Free(cap, Link(addrs, chain, p + 1))
  }

  /** `chain` is a free list of blocks of capacity `cap`, without repetitions. */
  ghost predicate ChainOk(blocks: seq<RawBlock>, addrs: seq<nat>, cap: nat, chain: seq<nat>) {
    && (forall p | 0 <= p < |chain| :: Linked(blocks, addrs, cap, chain, p))
    && (forall p, q | 0 <= p < q < |chain| :: chain[p] != chain[q])
  }

  /** Every block has one of the capacities, and the free ones are in their class's list. */
  ghost predicate BlockListed(lens: seq<nat>, chains: seq<seq<nat>>, blocks: seq<RawBlock>, i: nat)
    requires i < |blocks|
  {
    var c := ClassOf(lens, blocks[i].cap);
    c < |lens| && lens[c] == blocks[i].cap && |chains| == |lens| && (blocks[i].Free? ==> i in chains[c])
  }

  /** The free list of class c is chains[c], and it is the only one of its capacity. */
  ghost predicate ClassOk(lens: seq<nat>, heads: seq<nat>, blocks: seq<RawBlock>, addrs: seq<nat>, chains: seq<seq<nat>>, c: nat)
    requires c < |lens| && |heads| == |lens| + 1 && |chains| == |lens|
  {
    && heads[c] == Link(addrs, chains[c], 0)
    && ChainOk(blocks, addrs, lens[c], chains[c])
    && (chains[c] != [] ==> ClassOf(lens, lens[c]) == c)
  }

  ghost predicate Lists(lens: seq<nat>, heads: seq<nat>, blocks: seq<RawBlock>, addrs: seq<nat>, chains: seq<seq<nat>>) {
    && |heads| == |lens| + 1 && |chains| == |lens| && |addrs| == |blocks|
    && (forall c | 0 <= c < |lens| :: ClassOk(lens, heads, blocks, addrs, chains, c))
    && (forall i | 0 <= i < |blocks| :: BlockListed(lens, chains, blocks, i))
  }

  /** Changing a block that a free list does not contain leaves the list as it is. */
  lemma ChainFrame(blocks: seq<RawBlock>, addrs: seq<nat>, cap: nat, chain: seq<nat>, i: nat, b: RawBlock)
    requires ChainOk(blocks, addrs, cap, chain) && i < |blocks| && i !in chain
    ensures ChainOk(blocks[i := b], addrs, cap, chain)
  {
    var blocks' := blocks[i := b];
    forall p | 0 <= p < |chain| ensures Linked(blocks', addrs, cap, chain, p) {
      assert Linked(blocks, addrs, cap, chain, p);
    }
  }

  lemma ChainTail(blocks: seq<RawBlock>, addrs: seq<nat>, cap: nat, chain: seq<nat>)
    requires ChainOk(blocks, addrs, cap, chain) && chain != []
    ensures ChainOk(blocks, addrs, cap, chain[1..]) && chain[0] !in chain[1..]
  {
    forall p | 0 <= p < |chain| - 1 ensures Linked(blocks, addrs, cap, chain[1..], p) {
      assert Linked(blocks, addrs, cap, chain, p + 1);
    }
  }

  lemma ChainCons(blocks: seq<RawBlock>, addrs: seq<nat>, cap: nat, chain: seq<nat>, i: nat)
    requires ChainOk(blocks, addrs, cap, chain) && i < |blocks| && |addrs| == |blocks| && i !in chain
    ensures ChainOk(blocks[i := Free(cap, Link(addrs, chain, 0))], addrs, cap, [i] + chain)
  {
    var blocks' := blocks[i := Free(cap, Link(addrs, chain, 0))];
    forall p | 0 <= p <= |chain| ensures Linked(blocks', addrs, cap, [i] + chain, p) {
      if p > 0 { assert Linked(blocks, addrs, cap, chain, p - 1); }
    }
  }

  lemma ChainAppend(blocks: seq<RawBlock>, addrs: seq<nat>, cap: nat, chain: seq<nat>, a: nat, b: RawBlock)
    requires ChainOk(blocks, addrs, cap, chain) && |addrs| == |blocks|
    ensures ChainOk(blocks + [b], addrs + [a], cap, chain)
    ensures Link(addrs + [a], chain, 0) == Link(addrs, chain, 0)
  {
    forall p | 0 <= p < |chain|
      ensures Linked(blocks + [b], addrs + [a], cap, chain, p) && chain[p] < |blocks|
    {
      assert Linked(blocks, addrs, cap, chain, p);
      if p + 1 < |chain| { assert Linked(blocks, addrs, cap, chain, p + 1); }
    }
  }

  /** A block in the list of class d has the capacity of class d. */
  lemma InList(lens: seq<nat>, heads: seq<nat>, blocks: seq<RawBlock>, addrs: seq<nat>, chains: seq<seq<nat>>, d: nat, i: nat)
    requires Lists(lens, heads, blocks, addrs, chains) && d < |lens| && i in chains[d]
    ensures i < |blocks| && blocks[i].Free? && ClassOf(lens, blocks[i].cap) == d && lens[d] == blocks[i].cap
  {
    assert ClassOk(lens, heads, blocks, addrs, chains, d);
    var p :| 0 <= p < |chains[d]| && chains[d][p] == i;
    assert Linked(blocks, addrs, lens[d], chains[d], p);
  }

  /** The first block of a free list becomes active. */
  lemma PopKeeps(lens: seq<nat>, heads: seq<nat>, blocks: seq<RawBlock>, addrs: seq<nat>, chains: seq<seq<nat>>, c: nat, b: RawBlock)
    requires Lists(lens, heads, blocks, addrs, chains) && c < |lens| && chains[c] != []
    requires b.Active? && b.cap == lens[c]
    ensures var i := chains[c][0];
            && i < |blocks| && blocks[i].Free? && blocks[i].cap == lens[c]
            && Lists(lens, heads[c := blocks[i].next], blocks[i := b], addrs, chains[c := chains[c][1..]])
  {
    var i := chains[c][0];
    assert ClassOk(lens, heads, blocks, addrs, chains, c);
    assert Linked(blocks, addrs, lens[c], chains[c], 0);
    InList(lens, heads, blocks, addrs, chains, c, i);
    ChainTail(blocks, addrs, lens[c], chains[c]);
    var heads', blocks', chains' := heads[c := blocks[i].next], blocks[i := b], chains[c := chains[c][1..]];
    forall d | 0 <= d < |lens| ensures ClassOk(lens, heads', blocks', addrs, chains', d) {
      assert ClassOk(lens, heads, blocks, addrs, chains, d);
      if d != c && i in chains[d] { InList(lens, heads, blocks, addrs, chains, d, i); }
      ChainFrame(blocks, addrs, lens[d], chains'[d], i, b);
    }
    forall j | 0 <= j < |blocks| ensures BlockListed(lens, chains', blocks', j) {
      assert BlockListed(lens, chains, blocks, j);
      if j != i && blocks[j].Free? && ClassOf(lens, blocks[j].cap) == c { assert j in chains[c][1..]; }
    }
  }

  /** An active block is freed and becomes the first of its list. */
  lemma PushKeeps(lens: seq<nat>, heads: seq<nat>, blocks: seq<RawBlock>, addrs: seq<nat>, chains: seq<seq<nat>>, i: nat)
    requires Lists(lens, heads, blocks, addrs, chains) && i < |blocks| && blocks[i].Active?
    ensures var cap := blocks[i].cap;
            var c := ClassOf(lens, cap);
            && c < |lens| && lens[c] == cap
            && Lists(lens, heads[c := addrs[i]], blocks[i := Free(cap, heads[c])], addrs, chains[c := [i] + chains[c]])
  {
    var cap := blocks[i].cap;
    assert BlockListed(lens, chains, blocks, i);
    var c := ClassOf(lens, cap);
    assert ClassOk(lens, heads, blocks, addrs, chains, c);
    var b := Free(cap, heads[c]);
    var heads', blocks', chains' := heads[c := addrs[i]], blocks[i := b], chains[c := [i] + chains[c]];
    forall d | 0 <= d < |lens| ensures ClassOk(lens, heads', blocks', addrs, chains', d) {
      assert ClassOk(lens, heads, blocks, addrs, chains, d);
      if i in chains[d] { InList(lens, heads, blocks, addrs, chains, d, i); }
      if d == c { ChainCons(blocks, addrs, cap, chains[c], i); } else { ChainFrame(blocks, addrs, lens[d], chains[d], i, b); }
    }
    forall j | 0 <= j < |blocks| ensures BlockListed(lens, chains', blocks', j) {
      assert BlockListed(lens, chains, blocks, j);
      assert i in chains'[c];
    }
  }

  lemma AppendKeeps(lens: seq<nat>, heads: seq<nat>, blocks: seq<RawBlock>, addrs: seq<nat>, chains: seq<seq<nat>>, a: nat, b: RawBlock)
    requires Lists(lens, heads, blocks, addrs, chains)
    requires b.Active? && ClassOf(lens, b.cap) < |lens| && lens[ClassOf(lens, b.cap)] == b.cap
    ensures Lists(lens, heads, blocks + [b], addrs + [a], chains)
  {
    forall d | 0 <= d < |lens| ensures ClassOk(lens, heads, blocks + [b], addrs + [a], chains, d) {
      assert ClassOk(lens, heads, blocks, addrs, chains, d);
      ChainAppend(blocks, addrs, lens[d], chains[d], a, b);
    }
    forall j | 0 <= j <= |blocks| ensures BlockListed(lens, chains, blocks + [b], j) {
      assert j < |blocks| ==> BlockListed(lens, chains, blocks, j);
    }
  }

  // ---------- reading a block ----------

  function StateOf(b: Block): byte {
    if b.Active? then ACTIVE else FREE
  }

  lemma SubSlice(file: seq<byte>, a: nat, s: seq<byte>, lo: nat, hi: nat)
    requires a + |s| <= |file| && file[a..a + |s|] == s && lo <= hi <= |s|
    ensures file[a + lo..a + hi] == s[lo..hi]
  {
    forall k | lo <= k < hi ensures file[a + k] == s[k] {
      assert file[a..a + |s|][k] == file[a + k];
    }
  }

  ghost predicate HasPieces(b: Block, s: seq<byte>)
    requires |s| == Size(b)
  {
    && s[0..4] == U32(BEGIN_TAG) && s[4..8] == U32(b.cap) && s[8..9] == [StateOf(b)]
    && s[9..13] == U32(if b.Active? then |b.data| else b.next)
    && s[b.cap + 17..b.cap + 21] == U32(END_TAG)
    && (b.Active? ==> s[13..13 + |b.data|] == b.data && s[b.cap + 13..b.cap + 17] == U32(Checksum(b.data)))
  }

  lemma Parts(a: seq<byte>, b: seq<byte>, c: seq<byte>, d: seq<byte>, e: seq<byte>, f: seq<byte>, g: seq<byte>, h: seq<byte>)
    requires |a| == |b| == |d| == |g| == |h| == 4 && |c| == 1
    ensures var s, n := a + b + (c + (d + e + f + g) + h), |e + f|;
            && |s| == n + 21 && s[0..4] == a && s[4..8] == b && s[8..9] == c && s[9..13] == d && s[13..13 + |e|] == e
            && s[n + 13..n + 17] == g && s[n + 17..n + 21] == h
  {
  }

  lemma Pieces(b: Block)
    ensures HasPieces(b, Encode(b))
  {
    EncodeIs(b);
    BodyIs(b);
    match b {
      case Active(cap, data) =>
        Parts(U32(BEGIN_TAG), U32(cap), [ACTIVE], U32(|data|), data, Zeros(cap - |data|), U32(Checksum(data)), U32(END_TAG));
      case Free(cap, next) =>
        assert Zeros(cap + 4) == Zeros(cap) + Zeros(4);
        Parts(U32(BEGIN_TAG), U32(cap), [FREE], U32(next), [], Zeros(cap), Zeros(4), U32(END_TAG));
        assert U32(next) + [] + Zeros(cap) + Zeros(4) == U32(next) + Zeros(cap + 4);
    }
  }

  /** The block b can be read at `a`, field by field. */
  ghost predicate FieldsAt(file: seq<byte>, a: nat, b: Block) {
    && a + Size(b) <= |file|
    && FromU32(file[a..a + 4]) == BEGIN_TAG && FromU32(file[a + 4..a + 8]) == b.cap
    && file[a + 8..a + 9] == [StateOf(b)]
    && FromU32(file[a + 9..a + 13]) == (if b.Active? then |b.data| else b.next)
    && file[a + b.cap + 17..a + b.cap + 21] == U32(END_TAG)
    && (b.Active? ==>
      && file[a + 13..a + 13 + |b.data|] == b.data
      && FromU32(file[a + b.cap + 13..a + b.cap + 17]) == Checksum(b.data))
  }

  lemma Fields(file: seq<byte>, a: nat, b: Block)
    requires BlockAt(file, a, b)
    ensures FieldsAt(file, a, b)
  {
    Pieces(b);
    FieldsOf(file, a, b, Encode(b));
  }

  lemma FieldsOf(file: seq<byte>, a: nat, b: Block, s: seq<byte>)
    requires |s| == Size(b) && a + |s| <= |file| && file[a..a + |s|] == s && HasPieces(b, s)
    ensures FieldsAt(file, a, b)
  {
    U32RoundTrip(BEGIN_TAG);
    U32RoundTrip(b.cap);
    U32RoundTrip(if b.Active? then |b.data| else b.next);
    SubSlice(file, a, s, 0, 4);
    SubSlice(file, a, s, 4, 8);
    SubSlice(file, a, s, 8, 9);
    SubSlice(file, a, s, 9, 13);
    SubSlice(file, a, s, b.cap + 17, b.cap + 21);
    if b.Active? {
      U32RoundTrip(Checksum(b.data));
      SubSlice(file, a, s, 13, 13 + |b.data|);
      SubSlice(file, a, s, b.cap + 13, b.cap + 17);
    }
  }

  // ---------- what the store holds ----------

  /** The addresses of the active blocks with their data. */
  ghost function ContentOf(blocks: seq<RawBlock>, addrs: seq<nat>): map<nat, seq<byte>>
    requires |addrs| == |blocks|
  {
    if blocks == [] then map[]
    else
      var n := |blocks| - 1;
      var m := ContentOf(blocks[..n], addrs[..n]);
      if blocks[n].Active? then m[addrs[n] := blocks[n].data] else m
  }

  ghost predicate Holds(contents: map<nat, seq<byte>>, blocks: seq<RawBlock>, addrs: seq<nat>) {
    |addrs| == |blocks| && contents == ContentOf(blocks, addrs)
  }

  ghost predicate Increasing(addrs: seq<nat>) {
    forall i, j | 0 <= i < j < |addrs| :: addrs[i] < addrs[j]
  }

  lemma {:induction false} KeyIsActive(blocks: seq<RawBlock>, addrs: seq<nat>, a: nat) returns (i: nat)
    requires |addrs| == |blocks| && a in ContentOf(blocks, addrs)
    ensures i < |blocks| && addrs[i] == a && blocks[i].Active?
  {
    var n := |blocks| - 1;
    if blocks[n].Active? && addrs[n] == a { i := n; } else { i := KeyIsActive(blocks[..n], addrs[..n], a); }
  }

  lemma {:induction false} ContentAt(blocks: seq<RawBlock>, addrs: seq<nat>, i: nat)
    requires |addrs| == |blocks| && Increasing(addrs) && i < |blocks|
    ensures addrs[i] in ContentOf(blocks, addrs) <==> blocks[i].Active?
    ensures blocks[i].Active? ==> ContentOf(blocks, addrs)[addrs[i]] == blocks[i].data
  {
    var n := |blocks| - 1;
    if i < n {
      ContentAt(blocks[..n], addrs[..n], i);
    } else if addrs[n] in ContentOf(blocks[..n], addrs[..n]) {
      var j := KeyIsActive(blocks[..n], addrs[..n], addrs[n]);
    }
  }

  lemma AddrsIncrease(blocks: seq<Block>, addrs: seq<nat>, first: nat, end: nat)
    requires Contiguous(blocks, addrs, first, end)
    ensures Increasing(addrs) && end !in addrs
  {
    forall i, j | 0 <= i < j < |addrs| ensures addrs[i] < addrs[j] {
      BlocksApart(blocks, addrs, first, end, i, j);
    }
    forall i | 0 <= i < |addrs| ensures addrs[i] < end {
      BlocksApart(blocks, addrs, first, end, i, i);
    }
  }

  /** Everything there is to know about a store; Image tells the bytes of its file. */
  datatype State = State(
    lens: seq<nat>, heads: seq<nat>, header: seq<byte>, end: nat,
    blocks: seq<Block>, addrs: seq<nat>, chains: seq<seq<nat>>, contents: map<nat, seq<byte>>)

  datatype Aspect = Sizes | Tiling | Listing | Holding

  ghost predicate Sound(s: State, aspect: Aspect) {
    match aspect
    case Sizes => Capacities(s.lens) && s.end < INT_RANGE
    case Tiling => Contiguous(s.blocks, s.addrs, |s.header|, s.end)
    case Listing => Lists(s.lens, s.heads, s.blocks, s.addrs, s.chains)
    case Holding => Holds(s.contents, s.blocks, s.addrs)
  }

  ghost predicate Good(s: State) {
    forall aspect: Aspect :: Sound(s, aspect)
  }

  const NOTHING := State([0], [NIL, NIL], [], 0, [], [], [[]], map[])

  type Store = s: State | Good(s) ghost witness NOTHING

  /** The capacity a blob gets is of the class it was found in. */
  lemma OwnClass(lens: seq<nat>, n: nat)
    requires ClassOf(lens, n) < |lens| && (forall i, j | 0 <= i <= j < |lens| :: lens[i] <= lens[j])
    ensures ClassOf(lens, lens[ClassOf(lens, n)]) == ClassOf(lens, n)
  {
    var c := ClassOf(lens, n);
    assert forall d | 0 <= d < c :: lens[d] < n;
    assert forall d | 0 <= d < c :: lens[d] < lens[c];
  }

  lemma HoldsAppended(contents: map<nat, seq<byte>>, blocks: seq<RawBlock>, addrs: seq<nat>, a: nat, b: RawBlock)
    requires Holds(contents, blocks, addrs) && b.Active? && a !in addrs
    ensures a !in contents && Holds(contents[a := b.data], blocks + [b], addrs + [a])
  {
    assert (blocks + [b])[..|blocks|] == blocks && (addrs + [a])[..|addrs|] == addrs;
    if a in contents {
      var i := KeyIsActive(blocks, addrs, a);
    }
  }

  lemma {:induction false} HoldsWritten(contents: map<nat, seq<byte>>, blocks: seq<RawBlock>, addrs: seq<nat>, i: nat, b: RawBlock)
    requires Holds(contents, blocks, addrs) && i < |blocks| && b.Active? && Increasing(addrs)
    ensures Holds(contents[addrs[i] := b.data], blocks[i := b], addrs)
    decreases |blocks|
  {
    var n := |blocks| - 1;
    var m := ContentOf(blocks[..n], addrs[..n]);
    if i < n {
      HoldsWritten(m, blocks[..n], addrs[..n], i, b);
      assert blocks[i := b][..n] == blocks[..n][i := b];
    } else {
      assert blocks[i := b][..n] == blocks[..n];
    }
  }

  lemma {:induction false} HoldsFreed(contents: map<nat, seq<byte>>, blocks: seq<RawBlock>, addrs: seq<nat>, i: nat, b: RawBlock)
    requires Holds(contents, blocks, addrs) && i < |blocks| && b.Free? && Increasing(addrs)
    ensures Holds(contents - {addrs[i]}, blocks[i := b], addrs)
    decreases |blocks|
  {
    var n := |blocks| - 1;
    var m := ContentOf(blocks[..n], addrs[..n]);
    if i < n {
      HoldsFreed(m, blocks[..n], addrs[..n], i, b);
      assert blocks[i := b][..n] == blocks[..n][i := b];
    } else {
      assert blocks[i := b][..n] == blocks[..n];
      if addrs[n] in m {
        var j := KeyIsActive(blocks[..n], addrs[..n], addrs[n]);
      }
    }
  }

  lemma ReplaceKeeps(lens: seq<nat>, heads: seq<nat>, blocks: seq<RawBlock>, addrs: seq<nat>, chains: seq<seq<nat>>, i: nat, b: RawBlock)
    requires Lists(lens, heads, blocks, addrs, chains) && i < |blocks| && blocks[i].Active? && b.Active? && b.cap == blocks[i].cap
    ensures Lists(lens, heads, blocks[i := b], addrs, chains)
  {
    var blocks' := blocks[i := b];
    forall d | 0 <= d < |lens| ensures ClassOk(lens, heads, blocks', addrs, chains, d) {
      assert ClassOk(lens, heads, blocks, addrs, chains, d);
      if i in chains[d] { InList(lens, heads, blocks, addrs, chains, d, i); }
      ChainFrame(blocks, addrs, lens[d], chains[d], i, b);
    }
    forall j | 0 <= j < |blocks| ensures BlockListed(lens, chains, blocks', j) {
      assert BlockListed(lens, chains, blocks, j);
    }
  }

  lemma IsSound(s: Store)
    ensures Sound(s, Sizes) && Sound(s, Tiling) && Sound(s, Listing) && Sound(s, Holding)
  {
  }

  lemma IsGood(s: State)
    requires Sound(s, Sizes) && Sound(s, Tiling) && Sound(s, Listing) && Sound(s, Holding)
    ensures Good(s)
  {
    forall aspect: Aspect ensures Sound(s, aspect) {
      match aspect case Sizes => case Tiling => case Listing => case Holding =>
    }
  }

  lemma GoodBlock(s: Store, i: nat)
    requires i < |s.addrs|
    ensures |s.blocks| == |s.addrs| && s.addrs[i] + Size(s.blocks[i]) <= s.end
    ensures s.addrs[i] in s.contents <==> s.blocks[i].Active?
    ensures s.blocks[i].Active? ==> s.contents[s.addrs[i]] == s.blocks[i].data
    ensures FieldsAt(Image(s.header, s.blocks), s.addrs[i], s.blocks[i])
  {
    IsSound(s);
    BlocksApart(s.blocks, s.addrs, |s.header|, s.end, i, i);
    AddrsIncrease(s.blocks, s.addrs, |s.header|, s.end);
    ContentAt(s.blocks, s.addrs, i);
    ImageBlock(s.header, s.blocks, s.addrs, s.end, i);
    Fields(Image(s.header, s.blocks), s.addrs[i], s.blocks[i]);
  }

  /** The bytes of a block in the file: the tag 0xABCDEFFF with its least significant byte first, the
    * capacity, 1 for an active and 2 for a free block, and at the end the tag 0xFFFEDCBA.
    */
  lemma BlockBytes(s: Store, i: nat)
    requires i < |s.addrs|
    ensures |s.blocks| == |s.addrs|
    ensures var f, a, cap := Image(s.header, s.blocks), s.addrs[i], s.blocks[i].cap;
            && a + cap + 21 <= |f|
            && f[a..a + 4] == [0xFF, 0xEF, 0xCD, 0xAB]
            && cap == f[a + 4] as nat + 0x100 * f[a + 5] as nat + 0x1_0000 * f[a + 6] as nat + 0x100_0000 * f[a + 7] as nat
            && f[a + 8] == (if s.blocks[i].Active? then 1 else 2)
            && f[a + cap + 17..a + cap + 21] == [0xBA, 0xDC, 0xFE, 0xFF]
  {
    GoodBlock(s, i);
    var f, a, cap := Image(s.header, s.blocks), s.addrs[i], s.blocks[i].cap;
    FourBytes(f[a..a + 4], BEGIN_TAG);
    FourBytes(f[a + 4..a + 8], cap);
    U32RoundTrip(END_TAG);
    FourBytes(f[a + cap + 17..a + cap + 21], END_TAG);
    assert f[a + 8..a + 9][0] == f[a + 8];
    assert f[a + 4..a + 8][0] == f[a + 4] && f[a + 4..a + 8][1] == f[a + 5];
    assert f[a + 4..a + 8][2] == f[a + 6] && f[a + 4..a + 8][3] == f[a + 7];
  }

  lemma FourBytes(s: seq<byte>, n: nat)
    requires |s| == 4 && FromU32(s) == n
    ensures s == [s[0], s[1], s[2], s[3]]
    ensures n == s[0] as nat + 0x100 * s[1] as nat + 0x1_0000 * s[2] as nat + 0x100_0000 * s[3] as nat
  {
    FromU32Is(s);
  }

  /** The head of a free list is an address in the file, or none. */
  lemma HeadIsWord(lens: seq<nat>, heads: seq<nat>, blocks: seq<Block>, addrs: seq<nat>, chains: seq<seq<nat>>, c: nat, first: nat, end: nat)
    requires Lists(lens, heads, blocks, addrs, chains) && Contiguous(blocks, addrs, first, end) && end < INT_RANGE && c < |lens|
    ensures heads[c] < WORD
  {
    assert ClassOk(lens, heads, blocks, addrs, chains, c);
    if chains[c] != [] {
      assert Linked(blocks, addrs, lens[c], chains[c], 0);
      BlocksApart(blocks, addrs, first, end, chains[c][0], chains[c][0]);
    }
  }

  /** The free list that begins at heads[c] has no cycle and holds exactly the free blocks of class c. */
  lemma FreeListIsExact(s: Store, c: nat, i: nat)
    requires c < |s.lens| && i < |s.blocks|
    ensures |s.chains| == |s.lens| == |s.heads| - 1 && s.heads[c] == Link(s.addrs, s.chains[c], 0)
    ensures ChainOk(s.blocks, s.addrs, s.lens[c], s.chains[c])
    ensures i in s.chains[c] <==> s.blocks[i].Free? && ClassOf(s.lens, s.blocks[i].cap) == c
  {
    IsSound(s);
    assert ClassOk(s.lens, s.heads, s.blocks, s.addrs, s.chains, c);
    assert BlockListed(s.lens, s.chains, s.blocks, i);
    if i in s.chains[c] {
      InList(s.lens, s.heads, s.blocks, s.addrs, s.chains, c, i);
    }
  }

  // ---------- what the operations do to it ----------

  lemma AppendedIsGood(s: Store, b: Block)
    requires b.Active? && s.end <= MAX_FILE && ClassOf(s.lens, b.cap) < |s.lens| && s.lens[ClassOf(s.lens, b.cap)] == b.cap
    ensures s.end !in s.contents
    ensures Good(s.(end := s.end + Size(b), blocks := s.blocks + [b], addrs := s.addrs + [s.end], contents := s.contents[s.end := b.data]))
  {
    IsSound(s);
    OneMore(s.blocks, s.addrs, |s.header|, s.end, b);
    AppendKeeps(s.lens, s.heads, s.blocks, s.addrs, s.chains, s.end, b);
    AddrsIncrease(s.blocks, s.addrs, |s.header|, s.end);
    HoldsAppended(s.contents, s.blocks, s.addrs, s.end, b);
    IsGood(s.(end := s.end + Size(b), blocks := s.blocks + [b], addrs := s.addrs + [s.end], contents := s.contents[s.end := b.data]));
  }

  /** `data` goes into a new block at the end of the file. */
  lemma Append(s: Store, c: nat, data: seq<byte>) returns (t: Store)
    requires c == ClassOf(s.lens, |data|) < |s.lens| && |Image(s.header, s.blocks)| <= MAX_FILE
    ensures Fits(Active(s.lens[c], data))
    ensures Image(t.header, t.blocks) == Image(s.header, s.blocks) + Encode(Active(s.lens[c], data))
    ensures var pt := |Image(s.header, s.blocks)|;
            pt !in s.contents && t.contents == s.contents[pt := data] && t.addrs == s.addrs + [pt]
    ensures t.lens == s.lens && t.heads == s.heads && t.header == s.header
  {
    IsSound(s);
    ImageLength(s.header, s.blocks, s.addrs, s.end);
    assert s.lens[c] <= s.lens[|s.lens| - 1];
    var b := Active(s.lens[c], data);
    OwnClass(s.lens, |data|);
    AppendedIsGood(s, b);
    ImageAppend(s.header, s.blocks, b);
    t := s.(end := s.end + Size(b), blocks := s.blocks + [b], addrs := s.addrs + [s.end], contents := s.contents[s.end := data]);
  }

  lemma RewrittenIsGood(s: Store, i: nat, b: Block, heads: seq<nat>, chains: seq<seq<nat>>, contents: map<nat, seq<byte>>)
    requires i < |s.blocks| && b.cap == s.blocks[i].cap
    requires Lists(s.lens, heads, s.blocks[i := b], s.addrs, chains) && Holds(contents, s.blocks[i := b], s.addrs)
    ensures Good(s.(heads := heads, blocks := s.blocks[i := b], chains := chains, contents := contents))
  {
    IsSound(s);
    SameCapacities(s.blocks, s.addrs, |s.header|, s.end, i, b);
    IsGood(s.(heads := heads, blocks := s.blocks[i := b], chains := chains, contents := contents));
  }

  /** Block i gets a new body. */
  lemma Rewrite(s: Store, t: Store, i: nat, b: Block)
    requires i < |s.blocks| && i < |s.addrs| && b.cap == s.blocks[i].cap && t.header == s.header && t.blocks == s.blocks[i := b]
    ensures s.addrs[i] + Size(b) <= |Image(s.header, s.blocks)|
    ensures Image(t.header, t.blocks) == Overwrite(Image(s.header, s.blocks), s.addrs[i] + 8, Body(b))
  {
    IsSound(s);
    ImageRoom(s.header, s.blocks, s.addrs, s.end, i);
    ImageRewrite(s.header, s.blocks, s.addrs, s.end, i, b);
  }

  /** The first free block of class c, block i, becomes active. */
  lemma ReuseBlock(s: Store, c: nat, data: seq<byte>) returns (t: Store, i: nat)
    requires c == ClassOf(s.lens, |data|) < |s.lens| && c < |s.heads| && s.heads[c] != NIL
    ensures i < |s.addrs| && i < |s.blocks| && s.addrs[i] == s.heads[c] && s.blocks[i].Free? && s.blocks[i].cap == s.lens[c]
    ensures Fits(Active(s.lens[c], data)) && t.blocks == s.blocks[i := Active(s.lens[c], data)]
    ensures t.contents == s.contents[s.heads[c] := data] && t.heads == s.heads[c := s.blocks[i].next]
    ensures t.lens == s.lens && t.header == s.header && t.addrs == s.addrs
  {
    IsSound(s);
    assert s.lens[c] <= s.lens[|s.lens| - 1];
    assert ClassOk(s.lens, s.heads, s.blocks, s.addrs, s.chains, c);
    assert Linked(s.blocks, s.addrs, s.lens[c], s.chains[c], 0);
    i := s.chains[c][0];
    var b := Active(s.lens[c], data);
    PopKeeps(s.lens, s.heads, s.blocks, s.addrs, s.chains, c, b);
    AddrsIncrease(s.blocks, s.addrs, |s.header|, s.end);
    HoldsWritten(s.contents, s.blocks, s.addrs, i, b);
    var heads, chains := s.heads[c := s.blocks[i].next], s.chains[c := s.chains[c][1..]];
    RewrittenIsGood(s, i, b, heads, chains, s.contents[s.addrs[i] := data]);
    t := s.(heads := heads, blocks := s.blocks[i := b], chains := chains, contents := s.contents[s.addrs[i] := data]);
  }

  /** The same in terms of the file; `was` is the free block. */
  lemma Reuse(s: Store, c: nat, data: seq<byte>) returns (t: Store, was: Block)
    requires c == ClassOf(s.lens, |data|) < |s.lens| && c < |s.heads| && s.heads[c] != NIL
    ensures was.Free? && was.cap == s.lens[c] && Fits(Active(s.lens[c], data)) && FieldsAt(Image(s.header, s.blocks), s.heads[c], was)
    ensures Image(t.header, t.blocks) == Overwrite(Image(s.header, s.blocks), s.heads[c] + 8, Body(Active(s.lens[c], data)))
    ensures s.heads[c] !in s.contents && t.contents == s.contents[s.heads[c] := data]
    ensures t.heads == s.heads[c := was.next]
    ensures t.lens == s.lens && t.header == s.header && t.addrs == s.addrs
  {
    var i;
    t, i := ReuseBlock(s, c, data);
    was := s.blocks[i];
    GoodBlock(s, i);
    Rewrite(s, t, i, Active(s.lens[c], data));
  }

  lemma FindBlock(s: Store, pt: nat) returns (i: nat, b: Block)
    requires pt in s.addrs
    ensures i < |s.addrs| && i < |s.blocks| && s.addrs[i] == pt && s.blocks[i] == b
    ensures FieldsAt(Image(s.header, s.blocks), pt, b)
    ensures pt in s.contents <==> b.Active?
    ensures b.Active? ==> s.contents[pt] == b.data
  {
    IsSound(s);
    i :| 0 <= i < |s.addrs| && s.addrs[i] == pt;
    GoodBlock(s, i);
    b := s.blocks[i];
  }

  /** Neither the end of the file nor the head of a free list is the address of a blob. */
  lemma PlacesAreFree(s: Store, c: nat)
    ensures |Image(s.header, s.blocks)| !in s.contents
    ensures c < |s.lens| && c < |s.heads| && s.heads[c] != NIL ==> s.heads[c] !in s.contents
  {
    IsSound(s);
    ImageLength(s.header, s.blocks, s.addrs, s.end);
    AddrsIncrease(s.blocks, s.addrs, |s.header|, s.end);
    if s.end in s.contents {
      var i := KeyIsActive(s.blocks, s.addrs, s.end);
    }
    if c < |s.lens| && s.heads[c] != NIL {
      assert ClassOk(s.lens, s.heads, s.blocks, s.addrs, s.chains, c);
      assert Linked(s.blocks, s.addrs, s.lens[c], s.chains[c], 0);
      GoodBlock(s, s.chains[c][0]);
    }
  }

  /** Active block i gets other data of at most its capacity. */
  lemma RefillBlockOf(s: Store, i: nat, data: seq<byte>) returns (t: Store)
    requires i < |s.addrs| && i < |s.blocks| && s.blocks[i].Active? && |data| <= s.blocks[i].cap
    ensures Fits(Active(s.blocks[i].cap, data)) && t.blocks == s.blocks[i := Active(s.blocks[i].cap, data)]
    ensures t.contents == s.contents[s.addrs[i] := data]
    ensures t.lens == s.lens && t.heads == s.heads && t.header == s.header && t.addrs == s.addrs
  {
    IsSound(s);
    var b := Active(s.blocks[i].cap, data);
    ReplaceKeeps(s.lens, s.heads, s.blocks, s.addrs, s.chains, i, b);
    AddrsIncrease(s.blocks, s.addrs, |s.header|, s.end);
    HoldsWritten(s.contents, s.blocks, s.addrs, i, b);
    RewrittenIsGood(s, i, b, s.heads, s.chains, s.contents[s.addrs[i] := data]);
    t := s.(blocks := s.blocks[i := b], contents := s.contents[s.addrs[i] := data]);
  }

  /** The same in terms of the file. */
  lemma Refill(s: Store, i: nat, pt: nat, cap: nat, data: seq<byte>) returns (t: Store)
    requires i < |s.addrs| && i < |s.blocks| && s.addrs[i] == pt && s.blocks[i].Active? && |data| <= cap == s.blocks[i].cap
    ensures pt + 8 <= |Image(s.header, s.blocks)| && Fits(Active(cap, data))
    ensures Image(t.header, t.blocks) == Overwrite(Image(s.header, s.blocks), pt + 8, Body(Active(cap, data)))
    ensures t.contents == s.contents[pt := data]
    ensures t.lens == s.lens && t.heads == s.heads && t.header == s.header && t.addrs == s.addrs
  {
    t := RefillBlockOf(s, i, data);
    Rewrite(s, t, i, Active(cap, data));
  }

  /** Active block i is freed. */
  lemma ReleaseBlock(s: Store, i: nat) returns (t: Store, c: nat)
    requires i < |s.addrs| && i < |s.blocks| && s.blocks[i].Active?
    ensures c == ClassOf(s.lens, s.blocks[i].cap) < |s.lens| && c < |s.heads| && s.lens[c] == s.blocks[i].cap
    ensures Fits(Free(s.lens[c], s.heads[c])) && t.blocks == s.blocks[i := Free(s.lens[c], s.heads[c])]
    ensures t.heads == s.heads[c := s.addrs[i]] && t.contents == s.contents - {s.addrs[i]}
    ensures t.lens == s.lens && t.header == s.header && t.addrs == s.addrs
  {
    IsSound(s);
    PushKeeps(s.lens, s.heads, s.blocks, s.addrs, s.chains, i);
    c := ClassOf(s.lens, s.blocks[i].cap);
    HeadIsWord(s.lens, s.heads, s.blocks, s.addrs, s.chains, c, |s.header|, s.end);
    var b := Free(s.blocks[i].cap, s.heads[c]);
    AddrsIncrease(s.blocks, s.addrs, |s.header|, s.end);
    HoldsFreed(s.contents, s.blocks, s.addrs, i, b);
    var heads, chains := s.heads[c := s.addrs[i]], s.chains[c := [i] + s.chains[c]];
    RewrittenIsGood(s, i, b, heads, chains, s.contents - {s.addrs[i]});
    t := s.(heads := heads, blocks := s.blocks[i := b], chains := chains, contents := s.contents - {s.addrs[i]});
  }

  /** The same in terms of the file. */
  lemma Release(s: Store, i: nat, pt: nat, cap: nat, c: nat) returns (t: Store)
    requires i < |s.addrs| && i < |s.blocks| && s.addrs[i] == pt && s.blocks[i].Active? && cap == s.blocks[i].cap
    requires c == ClassOf(s.lens, cap)
    ensures pt + 8 <= |Image(s.header, s.blocks)|
    ensures c < |s.lens| && c < |s.heads| && s.lens[c] == cap && Fits(Free(cap, s.heads[c]))
    ensures Image(t.header, t.blocks) == Overwrite(Image(s.header, s.blocks), pt + 8, Body(Free(cap, s.heads[c])))
    ensures t.heads == s.heads[c := pt] && t.contents == s.contents - {pt}
    ensures t.lens == s.lens && t.header == s.header && t.addrs == s.addrs
  {
    var d;
    t, d := ReleaseBlock(s, i);
    Rewrite(s, t, i, Free(cap, s.heads[c]));
  }

  // ---------- traversal ----------

  /** The addresses of the active blocks from block i on. */
  ghost function ActiveFrom(blocks: seq<RawBlock>, addrs: seq<nat>, i: nat): seq<nat>
    requires |addrs| == |blocks|
    decreases |blocks| - i
  {
    if i >= |blocks| then []
    else (if blocks[i].Active? then [addrs[i]] else []) + ActiveFrom(blocks, addrs, i + 1)
  }

  lemma {:induction false} ActiveIsMet(blocks: seq<RawBlock>, addrs: seq<nat>, i: nat, j: nat)
    requires |addrs| == |blocks| && i <= j < |blocks| && blocks[j].Active?
    ensures addrs[j] in ActiveFrom(blocks, addrs, i)
    decreases |blocks| - i
  {
    if i < j { ActiveIsMet(blocks, addrs, i + 1, j); }
  }

  lemma {:induction false} MetIsActive(blocks: seq<RawBlock>, addrs: seq<nat>, i: nat, a: nat) returns (j: nat)
    requires |addrs| == |blocks| && a in ActiveFrom(blocks, addrs, i)
    ensures i <= j < |blocks| && blocks[j].Active? && addrs[j] == a
    decreases |blocks| - i
  {
    if blocks[i].Active? && addrs[i] == a { j := i; } else { j := MetIsActive(blocks, addrs, i + 1, a); }
  }

  /** All that are met later lie further on. */
  lemma MetLater(blocks: seq<RawBlock>, addrs: seq<nat>, i: nat, u: seq<nat>)
    requires |addrs| == |blocks| && Increasing(addrs) && i < |blocks| && u == ActiveFrom(blocks, addrs, i + 1)
    ensures forall q | 0 <= q < |u| :: addrs[i] < u[q]
  {
    forall q | 0 <= q < |u| ensures addrs[i] < u[q] {
      var j := MetIsActive(blocks, addrs, i + 1, u[q]);
    }
  }

  lemma IncreasingCons(a: nat, u: seq<nat>)
    requires Increasing(u) && forall q | 0 <= q < |u| :: a < u[q]
    ensures Increasing([a] + u)
  {
  }

  lemma ActiveStep(blocks: seq<RawBlock>, addrs: seq<nat>, i: nat, u: seq<nat>)
    requires |addrs| == |blocks| && i < |blocks| && u == ActiveFrom(blocks, addrs, i + 1)
    ensures ActiveFrom(blocks, addrs, i) == if blocks[i].Active? then [addrs[i]] + u else u
  {
    assert [] + u == u;
  }

  lemma {:induction false} ActiveFromSorted(blocks: seq<RawBlock>, addrs: seq<nat>, i: nat, u: seq<nat>)
    requires |addrs| == |blocks| && Increasing(addrs) && u == ActiveFrom(blocks, addrs, i)
    ensures Increasing(u)
    decreases |blocks| - i
  {
    if i < |blocks| {
      var later := ActiveFrom(blocks, addrs, i + 1);
      ActiveFromSorted(blocks, addrs, i + 1, later);
      MetLater(blocks, addrs, i, later);
      IncreasingCons(addrs[i], later);
      ActiveStep(blocks, addrs, i, later);
    }
  }

  /** A whole traversal meets all the blobs, in the order of their addresses, and so each once. */
  lemma TraversalIsExact(s: Store)
    ensures |s.addrs| == |s.blocks|
    ensures var t := ActiveFrom(s.blocks, s.addrs, 0);
            Increasing(t) && forall a :: a in t <==> a in s.contents
  {
    IsSound(s);
    AddrsIncrease(s.blocks, s.addrs, |s.header|, s.end);
    var t := ActiveFrom(s.blocks, s.addrs, 0);
    ActiveFromSorted(s.blocks, s.addrs, 0, t);
    forall a ensures a in t <==> a in s.contents {
      if a in s.contents {
        var j := KeyIsActive(s.blocks, s.addrs, a);
        ActiveIsMet(s.blocks, s.addrs, 0, j);
      }
      if a in t {
        var j := MetIsActive(s.blocks, s.addrs, 0, a);
        ContentAt(s.blocks, s.addrs, j);
      }
    }
  }

  /** Where a traversal is before it comes to block i. */
  ghost function TraversalAt(s: Store, i: nat): nat {
    if i < |s.addrs| then s.addrs[i] else |Image(s.header, s.blocks)|
  }

  lemma TraversalStarts(s: Store)
    ensures TraversalAt(s, 0) == |s.header|
  {
    IsSound(s);
    ImageLength(s.header, s.blocks, s.addrs, s.end);
  }

  lemma TraversalGoesOn(s: Store, i: nat)
    requires i < |s.blocks|
    ensures |s.addrs| == |s.blocks| && TraversalAt(s, i) == s.addrs[i]
    ensures s.addrs[i] + Size(s.blocks[i]) <= |Image(s.header, s.blocks)|
    ensures TraversalAt(s, i + 1) == s.addrs[i] + Size(s.blocks[i])
    ensures FieldsAt(Image(s.header, s.blocks), s.addrs[i], s.blocks[i])
    ensures s.addrs[i] in s.contents <==> s.blocks[i].Active?
    ensures s.blocks[i].Active? ==> s.contents[s.addrs[i]] == s.blocks[i].data
  {
    IsSound(s);
    GoodBlock(s, i);
    ImageLength(s.header, s.blocks, s.addrs, s.end);
    if i + 1 < |s.blocks| { assert Adjacent(s.blocks, s.addrs, i + 1); }
  }

  // ---------- the store ----------

  /** The capacity written in the block at pt. */
  ghost function CapacityAt(file: seq<byte>, pt: nat): nat {
    if pt + 8 <= |file| then FromU32(file[pt + 4..pt + 8]) else 0
  }

  /** All of a body but the end tag is written anew: the end tag is there already. */
  lemma BodyWritten(file: seq<byte>, a: nat, was: Block, b: Block)
    requires FieldsAt(file, a, was) && b.cap == was.cap
    ensures Overwrite(file, a + 8, Fore(b)) == Overwrite(file, a + 8, Body(b))
    ensures FromU32(Overwrite(file, a + 8, Fore(b))[a + b.cap + 17..a + b.cap + 21]) == END_TAG
  {
    BodyIs(b);
    EndStays(file, a, was, Fore(b), Body(b));
  }

  lemma EndStays(file: seq<byte>, a: nat, was: Block, fore: seq<byte>, body: seq<byte>)
    requires FieldsAt(file, a, was) && |fore| == was.cap + 9 && body == fore + U32(END_TAG)
    ensures Overwrite(file, a + 8, fore) == Overwrite(file, a + 8, body)
    ensures FromU32(Overwrite(file, a + 8, fore)[a + was.cap + 17..a + was.cap + 21]) == END_TAG
  {
    U32RoundTrip(END_TAG);
    OverwriteSame(file, a + 8, fore, U32(END_TAG));
    OverwriteElsewhere(file, a + 8, fore, a + was.cap + 17, a + was.cap + 21);
  }

  /** The state of the block stays, only what follows it is written. */
  lemma StateKept(file: seq<byte>, a: nat, was: Block, bs: seq<byte>)
    requires FieldsAt(file, a, was) && was.Active? && |bs| == was.cap + 8
    ensures Overwrite(file, a + 9, bs) == Overwrite(file, a + 8, [ACTIVE] + bs)
  {
    OverwriteFrom(file, a + 8, [ACTIVE], bs);
  }

  datatype PutResult = Put(pt: nat) | Full | Thrown
  datatype GetResult = Got(data: seq<byte>) | NotActive

  /** `view` is what the file and the heads stand for. */
  class GBlobBs {
    var file: seq<byte>
    var pos: nat
    var blockLens: seq<nat>
    var heads: seq<nat>
    var first: nat
    var maxSegLen: int
    ghost var view: Store

    ghost predicate Valid()
      reads this
    {
      && file == Image(view.header, view.blocks) && first == |view.header|
      && blockLens == view.lens && heads == view.heads && |heads| == |blockLens| + 1
    }

    /** What no operation changes. */
    twostate predicate Fixed()
      reads this
    {
      && blockLens == old(blockLens) && first == old(first) && maxSegLen == old(maxSegLen)
      && view.header == old(view).header && old(view).addrs <= view.addrs
    }

    /** No class can hold n bytes, or their block would have to begin beyond the longest file. */
    ghost predicate Unplaceable(n: nat)
      requires |heads| == |blockLens| + 1
      reads this
    {
      var c := ClassOf(blockLens, n);
      c == |blockLens| || (heads[c] == NIL && MAX_FILE < |file| <= maxSegLen)
    }

    /** The segment is full and holds no free block for n bytes. */
    ghost predicate Exhausted(n: nat)
      requires |heads| == |blockLens| + 1
      reads this
    {
      var c := ClassOf(blockLens, n);
      c < |blockLens| && heads[c] == NIL && |file| > maxSegLen
    }

    constructor (header: seq<byte>, lens: seq<nat>, maxLen: int)
      requires Capacities(lens) && |header| < INT_RANGE
      ensures Valid() && file == header && first == |header| && blockLens == lens && view.contents == map[]
      ensures maxSegLen == if maxLen == -1 then MAX_FILE else maxLen
    {
      file, pos, first, blockLens := header, |header|, |header|, lens;
      maxSegLen := if maxLen == -1 then MAX_FILE else maxLen;
      heads := seq(|lens| + 1, _ => NIL);
      view := State(lens, seq(|lens| + 1, _ => NIL), header, |header|, [], [], seq(|lens|, _ => []), map[]);
      ImageIs(header, []);
    }

    method Write(bs: seq<byte>)
      requires pos <= |file|
      modifies this`file, this`pos
      ensures file == Overwrite(old(file), old(pos), bs) && pos == old(pos) + |bs|
    {
      OverwriteIs(file, pos, bs);
      file, pos := file[..pos] + bs + (if pos + |bs| <= |file| then file[pos + |bs|..] else []), pos + |bs|;
    }

    method Read(n: nat) returns (bs: seq<byte>)
      requires pos + n <= |file|
      modifies this`pos
      ensures bs == file[old(pos)..old(pos) + n] && pos == old(pos) + n
    {
      bs, pos := file[pos..pos + n], pos + n;
    }

    method WriteWord(n: nat)
      requires pos <= |file| && n < WORD
      modifies this`file, this`pos
      ensures file == Overwrite(old(file), old(pos), U32(n)) && pos == old(pos) + 4
    {
      U32Is(n);
      Write(Digits(n));
    }

    method ReadWord() returns (n: nat)
      requires pos + 4 <= |file|
      modifies this`pos
      ensures n == FromU32(file[old(pos)..old(pos) + 4]) && pos == old(pos) + 4
    {
      var bs := Read(4);
      FromU32Is(bs);
      n := Amount(bs);
    }

    method WriteData(cap: nat, data: seq<byte>)
      requires pos <= |file| && |data| <= cap <= MAX_BLOCK
      modifies this`file, this`pos
      ensures file == Overwrite(old(file), old(pos), DataField(cap, data)) && pos == old(pos) + cap + 8
    {
      ghost var f, p := file, pos;
      WriteWord(|data|);
      Write(data);
      OverwriteTwice(f, p, U32(|data|), data);
      Write(Zeros(cap - |data|));
      OverwriteTwice(f, p, U32(|data|) + data, Zeros(cap - |data|));
      WriteWord(Checksum(data));
      OverwriteTwice(f, p, U32(|data|) + data + Zeros(cap - |data|), U32(Checksum(data)));
    }

    /** A new active block at the end of the file. */
    method WriteBlock(cap: nat, data: seq<byte>)
      requires |data| <= cap <= MAX_BLOCK
      modifies this`file, this`pos
      ensures file == old(file) + Encode(Active(cap, data))
    {
      ghost var f, n := file, |file|;
      pos := |file|;
      WriteWord(BEGIN_TAG);
      WriteWord(cap);
      OverwriteTwice(f, n, U32(BEGIN_TAG), U32(cap));
      ghost var g := file;
      Write([ACTIVE]);
      WriteData(cap, data);
      OverwriteTwice(g, n + 8, [ACTIVE], DataField(cap, data));
      WriteWord(END_TAG);
      OverwriteTwice(g, n + 8, Fore(Active(cap, data)), U32(END_TAG));
      BodyIs(Active(cap, data));
      EncodeIs(Active(cap, data));
      OverwriteIs(f, n, Encode(Active(cap, data)));
      OverwriteTwice(f, n, U32(BEGIN_TAG) + U32(cap), Body(Active(cap, data)));
    }

    /** The begin tag and the capacity of the block b at pt. */
    method OpenBlock(pt: nat, ghost b: Block) returns (cap: nat)
      requires FieldsAt(file, pt, b)
      modifies this`pos
      ensures cap == b.cap && pos == pt + 8
    {
      pos := pt;
      var tag := ReadWord();
      assert tag == BEGIN_TAG;
      cap := ReadWord();
    }

    method ReadState(ghost pt: nat, ghost b: Block) returns (state: byte)
      requires FieldsAt(file, pt, b) && pos == pt + 8
      modifies this`pos
      ensures state == StateOf(b) && pos == pt + 9
    {
      var bs := Read(1);
      state := bs[0];
    }

    /** Takes the free block at `a` for data; `next` is the link that was in it. */
    method FillBlock(a: nat, data: seq<byte>, ghost was: Block) returns (next: nat)
      requires FieldsAt(file, a, was) && was.Free? && |data| <= was.cap
      modifies this`file, this`pos
      ensures file == Overwrite(old(file), a + 8, Body(Active(was.cap, data))) && next == was.next
    {
      ghost var f := file;
      var cap := OpenBlock(a, was);
      var fpos := pos;
      var state := ReadState(a, was);
      assert state == FREE;
      next := ReadWord();
      pos := fpos;
      Write([ACTIVE]);
      WriteData(cap, data);
      OverwriteTwice(f, a + 8, [ACTIVE], DataField(cap, data));
      BodyWritten(f, a, was, Active(cap, data));
      var tag := ReadWord();
      assert tag == END_TAG;
    }

    /** Writes other data in an active block, from its length on. */
    method RefillBlock(ghost a: nat, cap: nat, data: seq<byte>, ghost was: Block)
      requires FieldsAt(file, a, was) && was.Active? && |data| <= cap == was.cap && pos == a + 9
      modifies this`file, this`pos
      ensures file == Overwrite(old(file), a + 8, Body(Active(cap, data)))
    {
      ghost var f := file;
      WriteData(cap, data);
      StateKept(f, a, was, DataField(cap, data));
      WriteWord(END_TAG);
      OverwriteTwice(f, a + 8, Fore(Active(cap, data)), U32(END_TAG));
      BodyIs(Active(cap, data));
    }

    /** Frees the block at `a`, from its state on. */
    method FreeBlock(a: nat, cap: nat, head: nat, ghost was: Block)
      requires FieldsAt(file, a, was) && was.cap == cap && head < WORD && pos == a + 8
      modifies this`file, this`pos
      ensures file == Overwrite(old(file), a + 8, Body(Free(cap, head)))
    {
      ghost var f := file;
      Write([FREE]);
      ghost var g := file;
      WriteWord(head);
      Write(Zeros(cap + 4));
      OverwriteTwice(g, a + 9, U32(head), Zeros(cap + 4));
      OverwriteTwice(f, a + 8, [FREE], U32(head) + Zeros(cap + 4));
      BodyWritten(f, a, was, Free(cap, head));
      var tag := ReadWord();
      assert tag == END_TAG;
    }

    method ReadData(a: nat, cap: nat, ghost b: Block) returns (data: seq<byte>)
      requires FieldsAt(file, a, b) && b.Active? && cap == b.cap && pos == a + 9
      modifies this`pos
      ensures data == b.data && pos == a + Size(b)
    {
      U32RoundTrip(END_TAG);
      var len := ReadWord();
      data := Read(len);
      pos := pos + (cap - len);
      var sum := ReadWord();
      var tag := ReadWord();
      assert tag == END_TAG;
      assert sum == Checksum(data);
    }

    /** The smallest class for n bytes; |blockLens| is the failed assertion of the original. */
    method GetAllocInfo(n: nat) returns (c: nat)
      ensures c == ClassOf(blockLens, n)
    {
      c := 0;
      while c < |blockLens| && n > blockLens[c]
        invariant c <= |blockLens| && forall i | 0 <= i < c :: blockLens[i] < n
      {
        c := c + 1;
      }
    }

    /** A new blob: in the first free block of its class, or at the end of the file. */
    method PutBlob(data: seq<byte>) returns (r: PutResult)
      requires Valid()
      modifies this
      ensures Valid() && Fixed()
      ensures r.Thrown? <==> old(Unplaceable(|data|))
      ensures r.Full? <==> old(Exhausted(|data|))
      ensures !r.Put? ==> file == old(file) && view == old(view)
      ensures r.Put? ==> r.pt !in old(view).contents && view.contents == old(view).contents[r.pt := data]
      ensures r.Put? ==> r.pt == old(var h := heads[ClassOf(blockLens, |data|)]; if h == NIL then |file| else h)
      ensures r.Put? && r.pt != old(|file|) ==> |file| == old(|file|)
    {
      var c := GetAllocInfo(|data|);
      if c == |blockLens| { return Thrown; }
      if heads[c] == NIL {
        if |file| > maxSegLen { return Full; }
        if |file| > MAX_FILE { return Thrown; }
        r := PutAtEnd(c, data);
      } else {
        r := PutInFree(c, data);
      }
    }

    method PutAtEnd(c: nat, data: seq<byte>) returns (r: PutResult)
      requires Valid() && c == ClassOf(blockLens, |data|) < |blockLens| && |file| <= MAX_FILE
      modifies this
      ensures Valid() && Fixed()
      ensures r == Put(old(|file|)) && r.pt !in old(view).contents && view.contents == old(view).contents[r.pt := data]
    {
      ghost var s := Append(view, c, data);
      r := Put(|file|);
      WriteBlock(blockLens[c], data);
      view := s;
    }

    method PutInFree(c: nat, data: seq<byte>) returns (r: PutResult)
      requires Valid() && c == ClassOf(blockLens, |data|) < |blockLens| && c < |heads| && heads[c] != NIL
      modifies this
      ensures Valid() && Fixed() && |file| == old(|file|)
      ensures r == Put(old(heads[c])) && r.pt !in old(view).contents && view.contents == old(view).contents[r.pt := data]
    {
      ghost var s, was := Reuse(view, c, data);
      r := Put(heads[c]);
      var next := FillBlock(heads[c], data, was);
      heads := heads[c := next];
      view := s;
    }

    /** Goes to the block at `pt` and past its state. */
    method OpenBlob(pt: nat) returns (cap: nat, active: bool, ghost i: nat, ghost was: Block)
      requires Valid() && pt in view.addrs
      modifies this`pos
      ensures i < |view.addrs| && i < |view.blocks| && view.addrs[i] == pt && view.blocks[i] == was
      ensures FieldsAt(file, pt, was) && cap == was.cap && pos == pt + 9
      ensures active == was.Active? == (pt in view.contents)
      ensures active ==> view.contents[pt] == was.data
      ensures cap == CapacityAt(file, pt)
    {
      i, was := FindBlock(view, pt);
      cap := OpenBlock(pt, was);
      var state := ReadState(pt, was);
      active := state == ACTIVE;
    }

    method PutInPlace(pt: nat, cap: nat, data: seq<byte>, ghost i: nat, ghost was: Block)
      requires Valid() && i < |view.addrs| && i < |view.blocks| && view.addrs[i] == pt && view.blocks[i] == was
      requires was.Active? && FieldsAt(file, pt, was) && |data| <= cap == was.cap && pos == pt + 9
      modifies this
      ensures Valid() && Fixed() && |file| == old(|file|)
      ensures view.contents == old(view).contents[pt := data]
    {
      ghost var s := Refill(view, i, pt, cap, data);
      RefillBlock(pt, cap, data, was);
      view := s;
    }

    /** The block at `pt` becomes the first of its free list. */
    method PutInList(pt: nat, cap: nat, c: nat, ghost i: nat, ghost was: Block)
      requires Valid() && i < |view.addrs| && i < |view.blocks| && view.addrs[i] == pt && view.blocks[i] == was
      requires was.Active? && FieldsAt(file, pt, was) && cap == was.cap && pos == pt + 8 && c == ClassOf(blockLens, cap)
      modifies this
      ensures Valid() && Fixed() && |file| == old(|file|)
      ensures view.contents == old(view).contents - {pt}
      ensures c < |blockLens| && blockLens[c] == cap && heads == old(heads)[c := pt]
    {
      ghost var s := Release(view, i, pt, cap, c);
      FreeBlock(pt, cap, heads[c], was);
      heads := heads[c := pt];
      view := s;
    }

    /** New data for the blob at `pt`: in place if it fits, else in another block. When there is none,
      * the blob is gone.
      */
    method Replace(pt: nat, data: seq<byte>) returns (r: PutResult)
      requires Valid() && pt in view.addrs
      modifies this
      ensures Valid() && Fixed()
      ensures old(pt !in view.contents) ==> r.Thrown? && view == old(view)
      ensures old(pt in view.contents && |data| <= CapacityAt(file, pt)) ==> r == Put(pt) && |file| == old(|file|)
      ensures old(pt in view.contents && |data| > CapacityAt(file, pt)) ==>
        && (r.Thrown? <==> old(Unplaceable(|data|))) && (r.Full? <==> old(Exhausted(|data|)))
        && (r.Put? ==> r.pt !in old(view).contents)
      ensures old(pt in view.contents) ==>
        view.contents == if r.Put? then (old(view).contents - {pt})[r.pt := data] else old(view).contents - {pt}
    {
      var cap, active, i, was := OpenBlob(pt);
      if !active { return Thrown; }
      if |data| > cap {
        r := Move(pt, data);
      } else {
        PutInPlace(pt, cap, data, i, was);
        r := Put(pt);
      }
    }

    /** The blob at `pt` does not fit its block any more. */
    method Move(pt: nat, data: seq<byte>) returns (r: PutResult)
      requires Valid() && pt in view.contents && pt in view.addrs
      requires |data| > CapacityAt(file, pt)
      modifies this
      ensures Valid() && Fixed()
      ensures r.Thrown? <==> old(Unplaceable(|data|))
      ensures r.Full? <==> old(Exhausted(|data|))
      ensures r.Put? ==> r.pt !in old(view).contents
      ensures view.contents == if r.Put? then (old(view).contents - {pt})[r.pt := data] else old(view).contents - {pt}
    {
      ghost var c, d := ClassOf(blockLens, |data|), ClassOf(blockLens, CapacityAt(file, pt));
      PlacesAreFree(view, c);
      var ok := DelBlob(pt);
      assert c != d && heads == old(heads)[d := pt];
      r := PutBlob(data);
    }

    method GetBlob(pt: nat) returns (r: GetResult)
      requires Valid() && pt in view.addrs
      modifies this`pos
      ensures r == if pt in view.contents then Got(view.contents[pt]) else NotActive
    {
      var cap, active, i, was := OpenBlob(pt);
      if !active { return NotActive; }
      var data := ReadData(pt, cap, was);
      r := Got(data);
    }

    /** Frees the block at `pt`: it becomes the first of its free list. */
    method DelBlob(pt: nat) returns (ok: bool)
      requires Valid() && pt in view.addrs
      modifies this
      ensures Valid() && Fixed() && |file| == old(|file|)
      ensures ok <==> old(pt in view.contents)
      ensures view.contents == old(view).contents - {pt}
      ensures !ok ==> view == old(view) && file == old(file)
      ensures ok ==> var c := ClassOf(blockLens, old(CapacityAt(file, pt)));
                     c < |blockLens| && blockLens[c] == old(CapacityAt(file, pt)) && heads == old(heads)[c := pt]
    {
      var cap, active, i, was := OpenBlob(pt);
      if !active { return false; }
      var len := ReadWord();
      pos := pt + 8;
      var c := GetAllocInfo(cap);
      PutInList(pt, cap, c, i, was);
      ok := true;
    }

    /** The first blob from `trv` on, which is where block i begins, and where the next call begins. */
    method FNextBlobPt(trv: nat, ghost i: nat) returns (found: bool, next: nat, pt: nat, data: seq<byte>, ghost j: nat)
      requires Valid() && |view.addrs| == |view.blocks| && i <= |view.blocks| && trv == TraversalAt(view, i)
      modifies this`pos
      ensures found <==> ActiveFrom(view.blocks, view.addrs, i) != []
      ensures found ==> i < j <= |view.blocks| && next == TraversalAt(view, j)
      ensures found ==> ActiveFrom(view.blocks, view.addrs, i) == [pt] + ActiveFrom(view.blocks, view.addrs, j)
      ensures found ==> pt in view.contents && data == view.contents[pt]
    {
      found, next, pt, data, j := false, trv, 0, [], i;
      while next < |file|
        invariant i <= j <= |view.blocks| && next == TraversalAt(view, j)
        invariant ActiveFrom(view.blocks, view.addrs, i) == ActiveFrom(view.blocks, view.addrs, j)
        decreases |view.blocks| - j
      {
        TraversalGoesOn(view, j);
        ghost var b := view.blocks[j];
        var cap := OpenBlock(next, b);
        var state := ReadState(next, b);
        j := j + 1;
        if state == ACTIVE {
          data := ReadData(next, cap, b);
          found, pt, next := true, next, pos;
          return;
        }
        SkipFree(next, cap, b);
        next := pos;
      }
      if j < |view.blocks| { TraversalGoesOn(view, j); }
    }

    /** A whole traversal, from the first block to the end of the file: all blobs, each once, with their
      * bytes, in the order of their addresses.
      */
    method Traverse() returns (pts: seq<nat>, datas: seq<seq<byte>>)
      requires Valid()
      modifies this`pos
      ensures Increasing(pts) && forall pt :: pt in pts <==> pt in view.contents
      ensures |datas| == |pts| && forall q | 0 <= q < |pts| :: datas[q] == view.contents[pts[q]]
    {
      TraversalIsExact(view);
      TraversalStarts(view);
      pts, datas := [], [];
      var trv, found := first, true;
      ghost var i, all := 0, ActiveFrom(view.blocks, view.addrs, 0);
      while found
        invariant |view.addrs| == |view.blocks| && i <= |view.blocks| && trv == TraversalAt(view, i)
        invariant pts + ActiveFrom(view.blocks, view.addrs, i) == all
        invariant !found ==> ActiveFrom(view.blocks, view.addrs, i) == []
        invariant |datas| == |pts| && forall q | 0 <= q < |pts| :: pts[q] in view.contents && datas[q] == view.contents[pts[q]]
        decreases |view.blocks| - i, found
      {
        var next, pt, data;
        ghost var j;
        found, next, pt, data, j := FNextBlobPt(trv, i);
        if found {
          assert pts + ([pt] + ActiveFrom(view.blocks, view.addrs, j)) == pts + [pt] + ActiveFrom(view.blocks, view.addrs, j);
          pts, datas, trv, i := pts + [pt], datas + [data], next, j;
        }
      }
      assert pts + [] == pts;
    }

    method SkipFree(ghost a: nat, cap: nat, ghost b: Block)
      requires FieldsAt(file, a, b) && b.Free? && cap == b.cap && pos == a + 9
      modifies this`pos
      ensures pos == a + Size(b)
    {
      U32RoundTrip(END_TAG);
      pos := pos + (4 + cap + 4);
      var tag := ReadWord();
      assert tag == END_TAG;
    }
  }
}
