/** Decimal rendering of natural numbers, as a string template renders a non-negative `Int`,
    and its inverse. */
module Decimal {

  predicate IsDigit(c: char) {
    '0' <= c <= '9'
  }

  predicate AllDigits(s: string) {
    forall i :: 0 <= i < |s| ==> IsDigit(s[i])
  }

  function DigitChar(d: nat): (c: char)
    requires d < 10
    ensures IsDigit(c)
  {
    ('0' as int + d) as char
  }

  function DigitValue(c: char): (d: nat)
    requires IsDigit(c)
    ensures d < 10
  {
    c as int - '0' as int
  }

  /** The canonical decimal rendering of `n`: only digits, no leading zero, one digit exactly below ten. */
  function Render(n: nat): (s: string)
    ensures |s| >= 1 && AllDigits(s)
    ensures |s| == 1 <==> n < 10
    ensures s[0] != '0' || n == 0
    decreases n
  {
    if n < 10 then [DigitChar(n)] else Render(n / 10) + [DigitChar(n % 10)]
  }

  /** The number a string of digits denotes (most significant digit first). */
  function Value(s: string): nat
    requires AllDigits(s)
    decreases |s|
  {
    if s == [] then 0 else Value(s[..|s| - 1]) * 10 + DigitValue(s[|s| - 1])
  }

  /** Reading back a rendering gives the number rendered. */
  lemma {:induction false} ValueOfRender(n: nat)
    ensures Value(Render(n)) == n
    decreases n
  {
    var s := Render(n);
    if n < 10 {
      assert s[..|s| - 1] == [];
    } else {
      ValueOfRender(n / 10);
      assert s[..|s| - 1] == Render(n / 10);
    }
  }

  /** Distinct numbers have distinct renderings. */
  lemma RenderInjective(m: nat, n: nat)
    requires Render(m) == Render(n)
    ensures m == n
  {
    ValueOfRender(m);
    ValueOfRender(n);
  }
}
