/** Bytes in a random-access file. */
module Bytes {
  import opened Hiding

  newtype byte = x: int | 0 <= x < 256

  const WORD: nat := 0x1_0000_0000

  function Digits(n: nat): (s: seq<byte>)
    requires n < WORD
    ensures |s| == 4
  {
    [(n % 256) as byte, (n / 256 % 256) as byte, (n / 65536 % 256) as byte, (n / 16777216) as byte]
  }

  function Amount(s: seq<byte>): (n: nat)
    requires |s| == 4
    ensures n < WORD
  {
    s[0] as nat + 256 * s[1] as nat + 65536 * s[2] as nat + 16777216 * s[3] as nat
  }

  ghost predicate Spells(s: seq<byte>, n: nat, piece: Piece) {
    match piece case Whole => n < WORD && s == Digits(n)
  }

  ghost predicate Counts(n: nat, s: seq<byte>, piece: Piece) {
    match piece case Whole => |s| == 4 && n == Amount(s)
  }

  ghost predicate AreDigits(s: seq<byte>, n: nat) {
    |s| == 4 && forall piece: Piece :: Spells(s, n, piece)
  }

  ghost predicate IsAmount(n: nat, s: seq<byte>) {
    n < WORD && forall piece: Piece :: Counts(n, s, piece)
  }

  /** A 32-bit number in four bytes, least significant first. */
  ghost function U32(n: nat): (s: seq<byte>)
    requires n < WORD
    ensures |s| == 4
  {
    assert AreDigits(Digits(n), n);
    var s :| AreDigits(s, n);
    s
  }

  ghost function FromU32(s: seq<byte>): (n: nat)
    requires |s| == 4
    ensures n < WORD
  {
    assert IsAmount(Amount(s), s);
    var n: nat :| IsAmount(n, s);
    n
  }

  lemma U32Is(n: nat)
    requires n < WORD
    ensures U32(n) == Digits(n)
  {
    assert Spells(U32(n), n, Whole);
  }

  lemma FromU32Is(s: seq<byte>)
    requires |s| == 4
    ensures FromU32(s) == Amount(s)
  {
    assert Counts(FromU32(s), s, Whole);
  }

  /** The four bytes spell the number with the least significant one first. */
  lemma U32Spells(n: nat)
    requires n < WORD
    ensures var s := U32(n); n == s[0] as nat + 0x100 * s[1] as nat + 0x1_0000 * s[2] as nat + 0x100_0000 * s[3] as nat
  {
    U32Is(n);
    assert n / 65536 == n / 256 / 256 && n / 16777216 == n / 65536 / 256;
  }

  lemma U32RoundTrip(n: nat)
    requires n < WORD
    ensures FromU32(U32(n)) == n
  {
    U32Is(n);
    FromU32Is(U32(n));
    assert n / 65536 == n / 256 / 256 && n / 16777216 == n / 65536 / 256;
  }

  ghost predicate Overwritten(f: seq<byte>, file: seq<byte>, pos: nat, bs: seq<byte>, piece: Piece) {
    match piece case Whole =>
      pos <= |file| && f == file[..pos] + bs + if pos + |bs| <= |file| then file[pos + |bs|..] else []
  }

  ghost predicate IsOverwritten(f: seq<byte>, file: seq<byte>, pos: nat, bs: seq<byte>) {
    && |f| == (if pos + |bs| <= |file| then |file| else pos + |bs|)
    && forall piece: Piece :: Overwritten(f, file, pos, bs, piece)
  }

  /** `file` after `bs` is written at position `pos`, growing at the end if need be. */
  ghost function Overwrite(file: seq<byte>, pos: nat, bs: seq<byte>): (f: seq<byte>)
    requires pos <= |file|
    ensures |f| == if pos + |bs| <= |file| then |file| else pos + |bs|
  {
    OverwriteExists(file, pos, bs);
    var f :| IsOverwritten(f, file, pos, bs);
    f
  }

  lemma OverwriteExists(file: seq<byte>, pos: nat, bs: seq<byte>)
    requires pos <= |file|
    ensures exists f :: IsOverwritten(f, file, pos, bs)
  {
    var f := file[..pos] + bs + if pos + |bs| <= |file| then file[pos + |bs|..] else [];
    assert IsOverwritten(f, file, pos, bs);
  }

  lemma OverwriteIs(file: seq<byte>, pos: nat, bs: seq<byte>)
    requires pos <= |file|
    ensures Overwrite(file, pos, bs) == file[..pos] + bs + if pos + |bs| <= |file| then file[pos + |bs|..] else []
  {
    assert Overwritten(Overwrite(file, pos, bs), file, pos, bs, Whole);
  }

  lemma OverwriteTwice(file: seq<byte>, pos: nat, a: seq<byte>, b: seq<byte>)
    requires pos <= |file|
    ensures Overwrite(Overwrite(file, pos, a), pos + |a|, b) == Overwrite(file, pos, a + b)
  {
    OverwriteIs(file, pos, a);
    OverwriteIs(Overwrite(file, pos, a), pos + |a|, b);
    OverwriteIs(file, pos, a + b);
  }

  /** Writing what is there already changes nothing. */
  lemma OverwriteSame(file: seq<byte>, pos: nat, a: seq<byte>, b: seq<byte>)
    requires pos + |a| + |b| <= |file| && file[pos + |a|..pos + |a| + |b|] == b
    ensures Overwrite(file, pos, a) == Overwrite(file, pos, a + b)
  {
    OverwriteIs(file, pos, a);
    OverwriteIs(file, pos, a + b);
    var x, y := Overwrite(file, pos, a), Overwrite(file, pos, a + b);
    assert forall i | 0 <= i < |b| :: file[pos + |a| + i] == b[i] by {
      forall i | 0 <= i < |b| ensures file[pos + |a| + i] == b[i] {
        assert file[pos + |a|..pos + |a| + |b|][i] == b[i];
      }
    }
    forall i | 0 <= i < |file| ensures x[i] == y[i] {
      if pos + |a| <= i < pos + |a| + |b| { assert file[i] == b[i - pos - |a|]; }
    }
  }

  /** The same, for bytes before those written. */
  lemma OverwriteFrom(file: seq<byte>, pos: nat, a: seq<byte>, b: seq<byte>)
    requires pos + |a| + |b| <= |file| && file[pos..pos + |a|] == a
    ensures Overwrite(file, pos + |a|, b) == Overwrite(file, pos, a + b)
  {
    OverwriteIs(file, pos + |a|, b);
    OverwriteIs(file, pos, a + b);
    var x, y := Overwrite(file, pos + |a|, b), Overwrite(file, pos, a + b);
    forall i | 0 <= i < |file| ensures x[i] == y[i] {
      if pos <= i < pos + |a| { assert file[pos..pos + |a|][i - pos] == file[i]; }
    }
  }

  /** A slice before or after the written bytes stays. */
  lemma OverwriteElsewhere(file: seq<byte>, pos: nat, bs: seq<byte>, lo: nat, hi: nat)
    requires pos + |bs| <= |file| && lo <= hi <= |file| && (hi <= pos || pos + |bs| <= lo)
    ensures Overwrite(file, pos, bs)[lo..hi] == file[lo..hi]
  {
    OverwriteIs(file, pos, bs);
  }

  lemma OverwriteBefore(p: seq<byte>, e: seq<byte>, pos: nat, bs: seq<byte>)
    requires pos + |bs| <= |p|
    ensures Overwrite(p + e, pos, bs) == Overwrite(p, pos, bs) + e
  {
    OverwriteIs(p + e, pos, bs);
    OverwriteIs(p, pos, bs);
  }

  lemma OverwriteEnd(p: seq<byte>, h: seq<byte>, was: seq<byte>, bs: seq<byte>)
    requires |was| == |bs|
    ensures Overwrite(p + (h + was), |p| + |h|, bs) == p + (h + bs)
  {
    OverwriteIs(p + (h + was), |p| + |h|, bs);
  }

  function Zeros(n: nat): (s: seq<byte>)
    ensures |s| == n
  {
    seq(n, _ => 0)
  }
}
