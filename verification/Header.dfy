/** The header that marks every object as clean, masked or a seed, in bytes. */
module Header {
  import opened Bytes

  const NAME: seq<byte> := [116, 120, 114, 97, 109, 99, 108, 111, 117, 100] // "txramcloud"
  const PADDED: seq<byte> := NAME + [0, 0, 0, 0]
  const VERSION: byte := 1
  const TXID_RANGE: nat := 0x1_0000_0000_0000_0000

  // ---------- numbers in bytes ----------

  function Little(n: nat, k: nat): (s: seq<byte>)
    ensures |s| == k
  {
    if k == 0 then [] else [(n % 256) as byte] + Little(n / 256, k - 1)
  }

  function Power(k: nat): nat {
    if k == 0 then 1 else 256 * Power(k - 1)
  }

  function FromLittle(s: seq<byte>): nat {
    if s == [] then 0 else s[0] as nat + 256 * FromLittle(s[1..])
  }

  lemma {:induction false} NumberTrip(n: nat, k: nat)
    requires n < Power(k)
    ensures FromLittle(Little(n, k)) == n
  {
    if k > 0 { NumberTrip(n / 256, k - 1); }
  }

  lemma {:induction false} BytesTrip(s: seq<byte>)
    ensures FromLittle(s) < Power(|s|) && Little(FromLittle(s), |s|) == s
  {
    if s != [] { BytesTrip(s[1..]); }
  }

  lemma PowerOfEight()
    ensures Power(8) == TXID_RANGE
  {
    assert Power(4) == 0x1_0000_0000;
  }

  /** The value of eight bytes, the least significant first. */
  lemma EightBytes(n: nat)
    requires n < TXID_RANGE
    ensures var s := Little(n, 8);
            n == s[0] as nat + 0x100 * s[1] as nat + 0x1_0000 * s[2] as nat + 0x100_0000 * s[3] as nat
                 + 0x1_0000_0000 * s[4] as nat + 0x100_0000_0000 * s[5] as nat
                 + 0x1_0000_0000_0000 * s[6] as nat + 0x100_0000_0000_0000 * s[7] as nat
  {
    PowerOfEight();
    NumberTrip(n, 8);
    Unrolled(Little(n, 8));
  }

  lemma Unrolled(s: seq<byte>)
    requires |s| == 8
    ensures FromLittle(s) == s[0] as nat + 0x100 * s[1] as nat + 0x1_0000 * s[2] as nat + 0x100_0000 * s[3] as nat
                             + 0x1_0000_0000 * s[4] as nat + 0x100_0000_0000 * s[5] as nat
                             + 0x1_0000_0000_0000 * s[6] as nat + 0x100_0000_0000_0000 * s[7] as nat
  {
    FourMore(s);
    FourMore(s[4..]);
    assert s[4..][4..] == [];
    assert s[4..][0] == s[4] && s[4..][1] == s[5] && s[4..][2] == s[6] && s[4..][3] == s[7];
  }

  lemma FourMore(s: seq<byte>)
    requires |s| >= 4
    ensures FromLittle(s) == s[0] as nat + 0x100 * s[1] as nat + 0x1_0000 * s[2] as nat + 0x100_0000 * s[3] as nat
                             + 0x1_0000_0000 * FromLittle(s[4..])
  {
    var a, b, c := s[1..], s[2..], s[3..];
    assert a[1..] == b && b[1..] == c && c[1..] == s[4..];
    assert FromLittle(s) == s[0] as nat + 256 * FromLittle(a);
    assert FromLittle(a) == s[1] as nat + 256 * FromLittle(b);
    assert FromLittle(b) == s[2] as nat + 256 * FromLittle(c);
    assert FromLittle(c) == s[3] as nat + 256 * FromLittle(s[4..]);
  }

  // ---------- packing ----------

  /** An object with data, masked by txid unless that is 0, or a seed. The timeout is kept as the eight
    * bytes of its floating-point number.
    */
  datatype Contents = Full(timeout: seq<byte>, txid: nat, data: seq<byte>) | Seed(timeout: seq<byte>, txid: nat)

  datatype Unpacked = Unpacked(contents: Contents) | Inconsistent | Outdated

  /** What callers pack: a seed needs a transaction. */
  predicate CanPack(c: Contents) {
    |c.timeout| == 8 && c.txid < TXID_RANGE && (c.Seed? ==> c.txid != 0)
  }

  function Pack(c: Contents): (blob: seq<byte>)
    requires CanPack(c)
  {
    var seed: byte := if c.Seed? then 1 else 0;
    PADDED + [VERSION, seed] + Little(c.txid, 8) + c.timeout + if c.Seed? then [] else c.data
  }

  /** The field without its trailing zeros. */
  function Stripped(s: seq<byte>): seq<byte> {
    if s != [] && s[|s| - 1] == 0 then Stripped(s[..|s| - 1]) else s
  }

  function Unpack(blob: seq<byte>): Unpacked {
    if |blob| < 32 || Stripped(blob[..14]) != NAME then Inconsistent
    else if blob[14] != VERSION then Outdated
    else
      var txid, timeout := FromLittle(blob[16..24]), blob[24..32];
      if blob[15] == 0 then Unpacked(Full(timeout, txid, blob[32..]))
      else if txid == 0 then Inconsistent
      else Unpacked(Seed(timeout, txid))
  }

  /** Only the padded name is a field that begins with the name. */
  lemma NameField(s: seq<byte>)
    requires |s| == 14
    ensures Stripped(s) == NAME <==> s == PADDED
  {
    var a, b, c, d := s[..13], s[..12], s[..11], s[..10];
    assert a[..12] == b && b[..11] == c && c[..10] == d;
    assert s == d + s[10..];
    if s == PADDED {
      assert d == NAME && s[10] == s[11] == s[12] == s[13] == 0;
      assert Stripped(d) == d && Stripped(c) == d && Stripped(b) == d && Stripped(a) == d;
    }
    if Stripped(s) == NAME {
      StrippedIsPrefix(s);
      assert |NAME| == 10;
      assert s[13] == 0 && s[12] == 0 && s[11] == 0 && s[10] == 0;
      assert d == NAME;
    }
  }

  lemma {:induction false} StrippedIsPrefix(s: seq<byte>)
    ensures Stripped(s) <= s && forall i | |Stripped(s)| <= i < |s| :: s[i] == 0
  {
    if s != [] && s[|s| - 1] == 0 { StrippedIsPrefix(s[..|s| - 1]); }
  }

  lemma Fields(c: Contents, data: seq<byte>)
    requires CanPack(c) && data == if c.Seed? then [] else c.data
    ensures var b := Pack(c);
            && |b| >= 32 && b[..14] == PADDED && b[14] == VERSION && b[15] == (if c.Seed? then 1 else 0)
            && b[16..24] == Little(c.txid, 8) && b[24..32] == c.timeout && b[32..] == data
  {
  }

  /** The layout: the ten letters of the name and four zeros, version 1, the seed flag, the txid in eight
    * bytes with the least significant first, the timeout, and the data up to the end.
    */
  lemma PackLayout(c: Contents)
    requires CanPack(c)
    ensures var b := Pack(c);
            && |b| == 32 + (if c.Seed? then 0 else |c.data|)
            && b[..14] == [116, 120, 114, 97, 109, 99, 108, 111, 117, 100, 0, 0, 0, 0]
            && b[14] == 1 && b[15] == (if c.Seed? then 1 else 0)
            && c.txid == b[16] as nat + 0x100 * b[17] as nat + 0x1_0000 * b[18] as nat + 0x100_0000 * b[19] as nat
                         + 0x1_0000_0000 * b[20] as nat + 0x100_0000_0000 * b[21] as nat
                         + 0x1_0000_0000_0000 * b[22] as nat + 0x100_0000_0000_0000 * b[23] as nat
            && b[24..32] == c.timeout && (c.Full? ==> b[32..] == c.data)
  {
    var b := Pack(c);
    Fields(c, if c.Seed? then [] else c.data);
    EightBytes(c.txid);
    forall i | 0 <= i < 8 ensures b[16 + i] == Little(c.txid, 8)[i] {
      assert b[16..24][i] == b[16 + i];
    }
  }

  /** What was packed is unpacked to the same. */
  lemma PackUnpack(c: Contents)
    requires CanPack(c)
    ensures Unpack(Pack(c)) == Unpacked(c)
  {
    Fields(c, if c.Seed? then [] else c.data);
    NameField(PADDED);
    PowerOfEight();
    NumberTrip(c.txid, 8);
  }

  /** The other way round: packing gives a blob back exactly when its seed flag is 0 or 1 and nothing
    * follows the header of a seed.
    */
  lemma UnpackPack(blob: seq<byte>)
    requires Unpack(blob).Unpacked?
    ensures CanPack(Unpack(blob).contents)
    ensures Pack(Unpack(blob).contents) == blob <==> blob[15] == 0 || (blob[15] == 1 && |blob| == 32)
  {
    var c := Unpack(blob).contents;
    BytesTrip(blob[16..24]);
    PowerOfEight();
    NameField(blob[..14]);
    var data := if c.Seed? then [] else c.data;
    Fields(c, data);
    var b := Pack(c);
    if blob[15] == 0 || (blob[15] == 1 && |blob| == 32) {
      Cut(b);
      Cut(blob);
    }
  }

  lemma Cut(b: seq<byte>)
    requires |b| >= 32
    ensures b == b[..14] + [b[14], b[15]] + b[16..24] + b[24..32] + b[32..]
  {
  }

  /** Blobs that are unpacked and not packed back: a seed flag that is neither 0 nor 1, and bytes behind
    * the header of a seed.
    */
  lemma NotPackedBack() returns (flag: seq<byte>, tail: seq<byte>)
    ensures Unpack(flag).Unpacked? && CanPack(Unpack(flag).contents) && Pack(Unpack(flag).contents) != flag
    ensures Unpack(tail).Unpacked? && CanPack(Unpack(tail).contents) && Pack(Unpack(tail).contents) != tail
  {
    var seed := Seed([0, 0, 0, 0, 0, 0, 0, 0], 1);
    var packed := Pack(seed);
    PackUnpack(seed);
    Fields(seed, []);
    flag := packed[15 := 2];
    tail := packed + [7];
    NameField(PADDED);
    assert flag[..14] == packed[..14] && flag[16..24] == packed[16..24] && flag[24..32] == packed[24..32];
    assert tail[..14] == packed[..14] && tail[16..24] == packed[16..24] && tail[24..32] == packed[24..32];
    assert |tail| == 33 && tail[15] == 1 && flag[15] == 2;
    UnpackPack(flag);
    UnpackPack(tail);
  }
}
