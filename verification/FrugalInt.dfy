/** Integers in one, two or four bytes, and vectors of them. */
module FrugalInt {
  import opened Bytes
  import opened Hiding

  const MID: int := 8192
  const WIDE: int := 536_870_912

  predicate InRange(i: int) {
    -(2 + MID + WIDE) < i < 127 + MID + WIDE
  }

  /** m in the seven, and in the other, bits of two bytes. */
  function Two(m: nat, negative: bool): (s: seq<byte>)
    requires m < MID
    ensures |s| == 2
  {
    [(128 + m % 128) as byte, ((if negative then 64 else 0) + m / 128) as byte]
  }

  function Four(m: nat, negative: bool): (s: seq<byte>)
    requires m < WIDE
    ensures |s| == 4
  {
    [(128 + m % 128) as byte, (128 + m / 128 % 128) as byte, (m / 16384 % 256) as byte,
     ((if negative then 128 else 0) + m / 4194304) as byte]
  }

  function Layout(i: int): (s: seq<byte>)
    requires InRange(i)
    ensures 1 <= |s| <= 4
  {
    var k := i + 1;
    if 0 <= k < 128 then [k as byte]
    else if 128 <= k < 128 + MID then Two(k - 128, false)
    else if -1 - MID < k <= -1 then Two(-1 - k, true)
    else if k >= 128 + MID then Four(k - 128 - MID, false)
    else Four(-1 - MID - k, true)
  }

  ghost predicate InCode(s: seq<byte>, i: int, piece: Piece) {
    match piece case Whole => InRange(i) && s == Layout(i)
  }

  ghost predicate IsCode(s: seq<byte>, i: int) {
    1 <= |s| <= 4 && forall piece: Piece :: InCode(s, i, piece)
  }

  /** The bytes of i; a proof that needs to know what they are asks for them with EncodeIs. */
  ghost function Encode(i: int): (s: seq<byte>)
    requires InRange(i)
    ensures 1 <= |s| <= 4
  {
    assert IsCode(Layout(i), i);
    var s :| IsCode(s, i);
    s
  }

  lemma EncodeIs(i: int)
    requires InRange(i)
    ensures Encode(i) == Layout(i)
  {
    assert InCode(Encode(i), i, Whole);
  }

  /** The number of bytes of an integer, as its first two bytes tell. */
  function Width(s: seq<byte>): (n: nat)
    requires s != []
  {
    if s[0] < 128 then 1 else if |s| > 1 && s[1] < 128 then 2 else 4
  }

  predicate Complete(s: seq<byte>) {
    s != [] && |s| >= Width(s)
  }

  function TwoOf(s: seq<byte>): (m: nat)
    requires |s| >= 2 && s[0] >= 128 && s[1] < 128
    ensures m < MID
  {
    s[0] as nat - 128 + 128 * (s[1] as nat % 64)
  }

  function FourOf(s: seq<byte>): (m: nat)
    requires |s| >= 4 && s[0] >= 128 && s[1] >= 128
    ensures m < WIDE
  {
    s[0] as nat - 128 + 128 * (s[1] as nat - 128) + 16384 * s[2] as nat + 4194304 * (s[3] as nat % 128)
  }

  function Decode(s: seq<byte>): (i: int)
    requires Complete(s)
  {
    if s[0] < 128 then s[0] as int - 1
    else if s[1] < 128 then (if s[1] < 64 then TwoOf(s) + 128 else -1 - TwoOf(s)) - 1
    else (if s[3] < 128 then FourOf(s) + 128 + MID else -1 - MID - FourOf(s)) - 1
  }

  lemma Split(m: nat)
    requires m < WIDE
    ensures m == m % 128 + 128 * (m / 128 % 128) + 16384 * (m / 16384 % 256) + 4194304 * (m / 4194304)
    ensures m / 4194304 < 128 && (m < MID ==> m / 128 < 64)
  {
    var a, b := m / 128, m / 16384;
    assert a / 128 == b && b / 256 == m / 4194304;
  }

  lemma TwoTrip(m: nat, negative: bool, rest: seq<byte>)
    requires m < MID
    ensures var s := Two(m, negative) + rest; s[0] >= 128 && s[1] < 128 && TwoOf(s) == m && (s[1] < 64 <==> !negative)
  {
    Split(m);
  }

  lemma FourTrip(m: nat, negative: bool, rest: seq<byte>)
    requires m < WIDE
    ensures var s := Four(m, negative) + rest; s[0] >= 128 && s[1] >= 128 && FourOf(s) == m && (s[3] < 128 <==> !negative)
  {
    Split(m);
  }

  /** The codes: which integers take how many bytes, and the number that the bytes spell. */
  lemma CodesAsDocumented(i: int)
    requires InRange(i)
    ensures var s := Encode(i);
            if -1 <= i <= 126 then |s| == 1 && s[0] < 128 && i == s[0] as int - 1
            else if 127 <= i <= 8318 then
              |s| == 2 && s[0] >= 128 && s[1] < 64 && i == 127 + (s[0] as int - 128) + 128 * s[1] as int
            else if -8193 <= i <= -2 then
              |s| == 2 && s[0] >= 128 && 64 <= s[1] < 128 && i == -2 - (s[0] as int - 128) - 128 * (s[1] as int - 64)
            else if 8319 <= i <= 536879230 then
              && |s| == 4 && s[0] >= 128 && s[1] >= 128 && s[3] < 128
              && i == 8319 + (s[0] as int - 128) + 128 * (s[1] as int - 128) + 16384 * s[2] as int + 4194304 * s[3] as int
            else
              && -536879105 <= i <= -8194
              && |s| == 4 && s[0] >= 128 && s[1] >= 128 && s[3] >= 128
              && i == -8194 - (s[0] as int - 128) - 128 * (s[1] as int - 128) - 16384 * s[2] as int - 4194304 * (s[3] as int - 128)
  {
    EncodeIs(i);
    var k := i + 1;
    if 128 <= k < 128 + MID { Split(k - 128); }
    else if -1 - MID < k <= -1 { Split(-1 - k); }
    else if k >= 128 + MID { Split(k - 128 - MID); }
    else if k < 0 { Split(-1 - MID - k); }
  }

  /** Whatever follows, an encoded integer is decoded to itself and only its bytes are looked at. */
  lemma RoundTrip(i: int, rest: seq<byte>)
    requires InRange(i)
    ensures Complete(Encode(i) + rest) && Width(Encode(i) + rest) == |Encode(i)| && Decode(Encode(i) + rest) == i
  {
    EncodeIs(i);
    var k := i + 1;
    if 128 <= k < 128 + MID { TwoTrip(k - 128, false, rest); }
    else if -1 - MID < k <= -1 { TwoTrip(-1 - k, true, rest); }
    else if k >= 128 + MID { FourTrip(k - 128 - MID, false, rest); }
    else if k < 0 { FourTrip(-1 - MID - k, true, rest); }
  }

  lemma Join(a: nat, b: nat, c: nat, d: nat)
    requires a < 128 && b < 128 && c < 256 && d < 128
    ensures var m := a + 128 * b + 16384 * c + 4194304 * d;
            m < WIDE && m % 128 == a && m / 128 % 128 == b && m / 16384 % 256 == c && m / 4194304 == d
  {
    var m := a + 128 * b + 16384 * c + 4194304 * d;
    assert m / 128 == b + 128 * c + 32768 * d;
    assert m / 16384 == c + 256 * d;
  }

  lemma TwoUsed(s: seq<byte>)
    requires |s| >= 2 && s[0] >= 128 && s[1] < 128
    ensures Two(TwoOf(s), s[1] >= 64) == s[..2]
  {
    Join(s[0] as nat - 128, s[1] as nat % 64, 0, 0);
  }

  lemma FourUsed(s: seq<byte>)
    requires |s| >= 4 && s[0] >= 128 && s[1] >= 128
    ensures Four(FourOf(s), s[3] >= 128) == s[..4]
  {
    Join(s[0] as nat - 128, s[1] as nat - 128, s[2] as nat, s[3] as nat % 128);
  }

  /** No bytes are wasted: any bytes that can be read are the encoding of what is read. */
  lemma EveryCodeIsUsed(s: seq<byte>)
    requires Complete(s)
    ensures InRange(Decode(s)) && Encode(Decode(s)) == s[..Width(s)]
  {
    if s[0] >= 128 {
      if s[1] < 128 { TwoUsed(s); } else { FourUsed(s); }
    }
    EncodeIs(Decode(s));
  }

  /** No encoding is the beginning of another one. */
  lemma PrefixFree(i: int, j: int)
    requires InRange(i) && InRange(j) && Encode(i) <= Encode(j)
    ensures i == j
  {
    var rest := Encode(j)[|Encode(i)|..];
    assert Encode(j) == Encode(i) + rest && Encode(j) + [] == Encode(j);
    RoundTrip(i, rest);
    RoundTrip(j, []);
  }

  /** Writes i to the buffer at p. An integer out of range is the failed assertion of the original. */
  method SaveFrugalInt(buf: array<byte>, p: nat, i: int) returns (ok: bool, q: nat)
    requires p + 4 <= buf.Length || (InRange(i) && p + |Encode(i)| <= buf.Length)
    modifies buf
    ensures ok <==> InRange(i)
    ensures !ok ==> buf[..] == old(buf[..])
    ensures ok ==> q == p + |Encode(i)| <= buf.Length && buf[p..q] == Encode(i)
    ensures ok ==> forall k | 0 <= k < buf.Length && !(p <= k < q) :: buf[k] == old(buf[k])
  {
    if InRange(i) { EncodeIs(i); }
    var k := i + 1;
    ok, q := true, p;
    if 0 <= k <= 127 {
      buf[p] := k as byte;
      return true, p + 1;
    }
    if 128 <= k < 128 + MID {
      k := k - 128;
      buf[p], buf[p + 1] := (128 + k % 128) as byte, (k / 128) as byte;
      return true, p + 2;
    }
    if -1 - MID < k <= -1 {
      k := -1 - k;
      buf[p], buf[p + 1] := (128 + k % 128) as byte, (64 + k / 128) as byte;
      return true, p + 2;
    }
    if 128 + MID <= k < 128 + MID + WIDE {
      k := k - 128 - MID;
      buf[p], buf[p + 1] := (128 + k % 128) as byte, (128 + k / 128 % 128) as byte;
      buf[p + 2], buf[p + 3] := (k / 16384 % 256) as byte, (k / 4194304) as byte;
      return true, p + 4;
    }
    if -1 - MID - WIDE < k <= -1 - MID {
      k := -1 - MID - k;
      buf[p], buf[p + 1] := (128 + k % 128) as byte, (128 + k / 128 % 128) as byte;
      buf[p + 2], buf[p + 3] := (k / 16384 % 256) as byte, (128 + k / 4194304) as byte;
      return true, p + 4;
    }
    ok := false;
  }

  /** Reads the integer at p. */
  method LoadFrugalInt(buf: array<byte>, p: nat) returns (i: int, q: nat)
    requires p <= buf.Length && Complete(buf[p..])
    ensures i == Decode(buf[p..]) && q == p + Width(buf[p..])
  {
    ghost var s := buf[p..];
    assert forall k | 0 <= k < |s| :: s[k] == buf[p + k];
    var ch := buf[p] as int;
    if ch < 128 { return ch - 1, p + 1; }
    i := ch - 128;
    ch := buf[p + 1] as int;
    if ch < 128 {
      i := i + 128 * (ch % 64);
      i := if ch < 64 then i + 128 else -1 - i;
      return i - 1, p + 2;
    }
    i := i + 128 * (ch - 128);
    ch := buf[p + 2] as int;
    i := i + 16384 * ch;
    ch := buf[p + 3] as int;
    i := i + 4194304 * (ch % 128);
    i := if ch < 128 then i + 128 + MID else -1 - MID - i;
    return i - 1, p + 4;
  }

  // ---------- vectors ----------

  ghost predicate AllInRange(v: seq<int>) {
    forall k | 0 <= k < |v| :: InRange(v[k])
  }

  ghost function EncodeAll(v: seq<int>): (s: seq<byte>)
    requires AllInRange(v)
    ensures |v| <= |s| <= 4 * |v|
  {
    if v == [] then [] else EncodeAll(v[..|v| - 1]) + Encode(v[|v| - 1])
  }

  /** The size of the encoded vector must itself be an integer that can be encoded. */
  ghost predicate CanSave(v: seq<int>) {
    AllInRange(v) && InRange(|EncodeAll(v)|)
  }

  ghost function Saved(v: seq<int>): seq<byte>
    requires CanSave(v)
  {
    Encode(|EncodeAll(v)|) + EncodeAll(v)
  }

  /** Writes the integers of v one after the other from p on. */
  method SaveAll(buf: array<byte>, p: nat, v: seq<int>) returns (ok: bool, end: nat)
    requires p + 4 * |v| <= buf.Length
    modifies buf
    ensures ok <==> AllInRange(v)
    ensures ok ==> end == p + |EncodeAll(v)| <= buf.Length && buf[p..end] == EncodeAll(v)
  {
    end := p;
    for i := 0 to |v|
      invariant AllInRange(v[..i]) && end == p + |EncodeAll(v[..i])| && end <= p + 4 * i
      invariant buf[p..end] == EncodeAll(v[..i])
    {
      assert v[..i + 1][..i] == v[..i];
      ghost var done := buf[p..end];
      var q;
      ok, q := SaveFrugalInt(buf, end, v[i]);
      if !ok { return; }
      assert buf[p..q] == buf[p..end] + buf[end..q] && buf[p..end] == done;
      end := q;
    }
    assert v[..|v|] == v;
    ok := true;
  }

  /** Moves the first n bytes of the buffer up so that they end at 4; they may overlap. */
  method MoveUp(buf: array<byte>, n: nat) returns (start: nat)
    requires n <= 4 <= buf.Length
    modifies buf
    ensures start == 4 - n && buf[start..4] == old(buf[..n])
    ensures forall k | 4 <= k < buf.Length :: buf[k] == old(buf[k])
  {
    ghost var head := buf[..n];
    start := 4;
    var end := n;
    while end > 0
      invariant 0 <= end <= n && start == 4 - n + end
      invariant forall k | 0 <= k < end :: buf[k] == head[k]
      invariant forall k | end <= k < n :: buf[4 - n + k] == head[k]
      invariant forall k | 4 <= k < buf.Length :: buf[k] == old(buf[k])
    {
      start, end := start - 1, end - 1;
      buf[start] := buf[end];
    }
  }

  /** Writes a vector: first its encoding and then, in front of it, the size of that. */
  method SaveFrugalIntV(v: seq<int>) returns (ok: bool, out: seq<byte>)
    ensures ok <==> CanSave(v)
    ensures ok ==> out == Saved(v)
  {
    var buf := new byte[4 * (|v| + 1)];
    out := [];
    var end, sizeEnd;
    ok, end := SaveAll(buf, 4, v);
    if !ok { return; }
    ghost var all := buf[4..end];
    ok, sizeEnd := SaveFrugalInt(buf, 0, end - 4);
    if !ok { return; }
    assert buf[4..end] == all;
    var start := MoveUp(buf, sizeEnd);
    assert buf[4..end] == all;
    out := buf[start..end];
    assert out == buf[start..4] + buf[4..end];
  }

  lemma EncodeLast(v: seq<int>, i: int)
    requires AllInRange(v) && InRange(i)
    ensures AllInRange(v + [i]) && EncodeAll(v + [i]) == EncodeAll(v) + Encode(i)
  {
    assert (v + [i])[..|v|] == v;
  }

  lemma AppendStep(v: seq<int>, w: seq<int>, i: int)
    requires AllInRange(v) && AllInRange(w) && AllInRange(v + w) && InRange(i)
    requires EncodeAll(v + w) == EncodeAll(v) + EncodeAll(w)
    ensures AllInRange(w + [i]) && AllInRange(v + (w + [i]))
    ensures EncodeAll(v + (w + [i])) == EncodeAll(v) + EncodeAll(w + [i])
  {
    EncodeLast(v + w, i);
    EncodeLast(w, i);
    assert v + (w + [i]) == v + w + [i];
    Associates(EncodeAll(v), EncodeAll(w), Encode(i));
  }

  lemma Associates(a: seq<byte>, b: seq<byte>, c: seq<byte>)
    ensures a + b + c == a + (b + c)
  {
  }

  lemma {:induction false} EncodeAllAppend(v: seq<int>, w: seq<int>)
    requires AllInRange(v) && AllInRange(w)
    ensures AllInRange(v + w) && EncodeAll(v + w) == EncodeAll(v) + EncodeAll(w)
    decreases |w|
  {
    if w == [] {
      assert v + w == v;
    } else {
      var init, i := w[..|w| - 1], w[|w| - 1];
      EncodeAllAppend(v, init);
      AppendStep(v, init, i);
      assert w == init + [i];
    }
  }

  /** The bytes of a vector begin with those of its first integer. */
  lemma FirstOfAll(w: seq<int>)
    requires AllInRange(w) && w != []
    ensures EncodeAll(w) == Encode(w[0]) + EncodeAll(w[1..])
  {
    EncodeOne(w[0]);
    EncodeAllAppend([w[0]], w[1..]);
    assert w == [w[0]] + w[1..];
  }

  /** Decoding takes the first integer off. */
  lemma NextOfAll(s: seq<byte>, w: seq<int>)
    requires AllInRange(w) && s == EncodeAll(w) && s != []
    ensures w != [] && Complete(s) && Decode(s) == w[0] && Width(s) <= |s| && s[Width(s)..] == EncodeAll(w[1..])
  {
    FirstOfAll(w);
    RoundTrip(w[0], EncodeAll(w[1..]));
  }

  lemma EncodeOne(i: int)
    requires InRange(i)
    ensures AllInRange([i]) && EncodeAll([i]) == Encode(i)
  {
    assert [i][..0] == [] && EncodeAll([]) == [];
  }

  /** Reads the integer n, which is in one, two or four bytes of the stream. */
  method LoadSize(stream: seq<byte>, ghost n: int, ghost after: seq<byte>) returns (size: int, left: seq<byte>)
    requires InRange(n) && stream == Encode(n) + after
    ensures size == n && left == after
  {
    RoundTrip(n, after);
    var sizeBuf := new byte[4];
    sizeBuf[0] := stream[0];
    var count := 1;
    if sizeBuf[0] >= 128 {
      sizeBuf[1], count := stream[1], 2;
      if sizeBuf[1] >= 128 {
        sizeBuf[2], sizeBuf[3], count := stream[2], stream[3], 4;
      }
    }
    SameWhereRead(stream, sizeBuf[0..]);
    var end;
    size, end := LoadFrugalInt(sizeBuf, 0);
    assert end == count;
    left := stream[count..];
  }

  /** Reads the first of the integers w, whose bytes are in the buffer from p on. */
  method LoadNext(buf: array<byte>, p: nat, ghost w: seq<int>) returns (i: int, q: nat)
    requires p < buf.Length && AllInRange(w) && buf[p..] == EncodeAll(w)
    ensures w != [] && i == w[0] && p < q <= buf.Length && buf[q..] == EncodeAll(w[1..])
  {
    NextOfAll(buf[p..], w);
    i, q := LoadFrugalInt(buf, p);
    assert buf[q..] == buf[p..][q - p..];
  }

  /** Adds the integers in the buffer, those of w, to v. */
  method LoadAll(buf: array<byte>, v: seq<int>, ghost w: seq<int>) returns (r: seq<int>)
    requires AllInRange(w) && buf[..] == EncodeAll(w)
    ensures r == v + w
  {
    r := v;
    var p := 0;
    ghost var todo := w;
    assert buf[0..] == buf[..];
    while p < buf.Length
      invariant 0 <= p <= buf.Length && AllInRange(todo) && r + todo == v + w
      invariant buf[p..] == EncodeAll(todo)
      decreases buf.Length - p
    {
      var i, q := LoadNext(buf, p, todo);
      assert r + [i] + todo[1..] == r + todo by { assert todo == [i] + todo[1..]; }
      r, p, todo := r + [i], q, todo[1..];
    }
    assert todo == [] && r + todo == r;
  }

  /** Reads a vector from a stream that has a size n and, if it is positive, as many bytes with the
    * integers w. A size that is not positive stands for no integers, whatever follows.
    */
  method LoadFrugalIntV(stream: seq<byte>, v: seq<int>, clear: bool, ghost n: int, ghost w: seq<int>, ghost rest: seq<byte>)
    returns (r: seq<int>, left: seq<byte>)
    requires InRange(n) && AllInRange(w) && stream == Encode(n) + (EncodeAll(w) + rest)
    requires if n > 0 then |EncodeAll(w)| == n else w == []
    ensures r == (if clear then [] else v) + w && left == rest
  {
    r := if clear then [] else v;
    ghost var all := EncodeAll(w);
    var size;
    size, left := LoadSize(stream, n, all + rest);
    if size <= 0 {
      assert [] + rest == rest;
      return;
    }
    var buf := new byte[size](i requires 0 <= i < size reads {} => left[i]);
    left := left[size..];
    assert buf[..] == all;
    r := LoadAll(buf, r, w);
  }

  /** What was written is such a stream, whatever follows it. */
  lemma SavedIsReadable(w: seq<int>, rest: seq<byte>)
    requires CanSave(w)
    ensures var n := |EncodeAll(w)|; Saved(w) + rest == Encode(n) + (EncodeAll(w) + rest) && (n <= 0 ==> w == [])
  {
  }

  /** Writing a vector and reading it again gives the same vector and leaves what follows. */
  method SaveAndLoad(w: seq<int>, rest: seq<byte>) returns (ok: bool, r: seq<int>, left: seq<byte>)
    ensures ok <==> CanSave(w)
    ensures ok ==> r == w && left == rest
  {
    var out;
    ok, out := SaveFrugalIntV(w);
    r, left := [], rest;
    if ok {
      SavedIsReadable(w, rest);
      r, left := LoadFrugalIntV(out + rest, [], true, |EncodeAll(w)|, w, rest);
    }
  }

  /** Only the bytes that belong to an integer decide what it is. */
  lemma SameWhereRead(s: seq<byte>, t: seq<byte>)
    requires Complete(s) && |t| == 4 && forall i | 0 <= i < Width(s) :: s[i] == t[i]
    ensures Complete(t) && Decode(t) == Decode(s) && Width(t) == Width(s)
  {
  }
}
