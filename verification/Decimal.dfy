/** Decimal rendering of integers, as `strconv.FormatInt(n, 10)` and `%d`. */
module Decimal {

  function DigitChar(d: nat): (c: char)
    requires d < 10
    ensures '0' <= c <= '9'
  {
    "0123456789"[d]
  }

  function FormatNat(n: nat): (r: string)
    ensures r != [] && forall i :: 0 <= i < |r| ==> '0' <= r[i] <= '9'
  {
    if n < 10 then [DigitChar(n)] else FormatNat(n / 10) + [DigitChar(n % 10)]
  }

  function FormatInt(n: int): (r: string) {
    if n < 0 then "-" + FormatNat(-n) else FormatNat(n)
  }

  /** The value a digit string was written from. */
  function ParseNat(s: string): (n: nat)
    requires forall i :: 0 <= i < |s| ==> '0' <= s[i] <= '9'
  {
    if s == [] then 0 else 10 * ParseNat(s[..|s| - 1]) + (s[|s| - 1] as int - '0' as int)
  }

  lemma {:induction false} ParseFormat(n: nat)
    ensures ParseNat(FormatNat(n)) == n
  {
    if n < 10 {
    } else {
      ParseFormat(n / 10);
      var s := FormatNat(n);
      assert s[..|s| - 1] == FormatNat(n / 10);
    }
  }

  /** Different numbers never render alike. */
  lemma FormatIntInjective(a: int, b: int)
    ensures FormatInt(a) == FormatInt(b) <==> a == b
  {
    ParseFormat(if a < 0 then -a else a);
    ParseFormat(if b < 0 then -b else b);
    if a < 0 {
      assert FormatInt(a)[0] == '-' && FormatInt(a)[1..] == FormatNat(-a);
    }
    if b < 0 {
      assert FormatInt(b)[0] == '-' && FormatInt(b)[1..] == FormatNat(-b);
    }
  }
}
