/** Account balances are stored as decimal text. */
module Decimal {
  import opened RamCloud

  function Digit(n: nat): char
    requires n < 10
  {
    '0' + n as char
  }

  function RenderNat(n: nat): string {
    if n < 10 then [Digit(n)] else RenderNat(n / 10) + [Digit(n % 10)]
  }

  function Render(n: int): string {
    if n < 0 then "-" + RenderNat(-n) else RenderNat(n)
  }

  function ParseNat(s: string): Option<nat> {
    if s == "" || s[|s| - 1] < '0' || s[|s| - 1] > '9' then None
    else
      var last := s[|s| - 1] as int - '0' as int;
      if |s| == 1 then Some(last)
      else match ParseNat(s[..|s| - 1]) case None => None case Some(n) => Some(10 * n + last)
  }

  function Parse(s: string): Option<int> {
    if s != "" && s[0] == '-' then
      var r: Option<int> := ParseNat(s[1..]);
      if r.Some? then Some(-r.value) else None
    else
      ParseNat(s)
  }

  /** The text is the decimal one: the last digit is the remainder, what is before it is the text of the
    * quotient, and a number below ten is its digit alone.
    */
  lemma IsDecimal(n: nat)
    ensures var s := RenderNat(n);
            && |s| >= 1 && s[|s| - 1] == "0123456789"[n % 10]
            && s[..|s| - 1] == if n < 10 then "" else RenderNat(n / 10)
    ensures Render(n) == RenderNat(n) && (n > 0 ==> Render(-(n as int)) == "-" + RenderNat(n))
  {
    DigitIs(n % 10);
  }

  lemma DigitIs(d: nat)
    requires d < 10
    ensures Digit(d) == "0123456789"[d]
  {
  }

  lemma {:induction false} NatRoundTrip(n: nat)
    ensures RenderNat(n) != "" && RenderNat(n)[0] != '-' && ParseNat(RenderNat(n)) == Some(n)
  {
    if n >= 10 {
      NatRoundTrip(n / 10);
      var s := RenderNat(n);
      assert s[..|s| - 1] == RenderNat(n / 10);
    }
  }

  lemma RoundTrip(n: int)
    ensures Parse(Render(n)) == Some(n)
  {
    NatRoundTrip(if n < 0 then -n else n);
    if n < 0 {
      assert Render(n)[1..] == RenderNat(-n);
    }
  }
}
