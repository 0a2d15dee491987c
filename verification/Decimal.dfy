/** Decimal text of a natural number, as to_string writes it. */
module Decimal {
  function Digit(d: nat): (c: char)
    requires d < 10
    ensures '0' <= c <= '9'
  {
    '0' + d as char
  }

  function Text(n: nat): (s: string)
    ensures s != [] && forall i | 0 <= i < |s| :: '0' <= s[i] <= '9'
  {
    if n < 10 then [Digit(n)] else Text(n / 10) + [Digit(n % 10)]
  }

  lemma {:induction false} TextInjective(m: nat, n: nat)
    requires Text(m) == Text(n)
    ensures m == n
  {
    var s, t := Text(m), Text(n);
    assert s[|s| - 1] == Digit(m % 10) && t[|t| - 1] == Digit(n % 10);
    if m >= 10 && n >= 10 {
      assert Text(m / 10) == s[..|s| - 1] && Text(n / 10) == t[..|t| - 1];
      TextInjective(m / 10, n / 10);
    }
  }
}
