/** The authorisation-code generator: a counter that yields "AUTH1", "AUTH2", ... */
module CodeGenerator {
  import Decimal

  const Prefix: string := "AUTH"

  /** The code issued when the counter reaches `n`: the prefix followed by `n` in decimal,
      from which `n` can be read back. */
  function CodeFor(n: nat): (code: string)
    ensures |code| > |Prefix| && code[..|Prefix|] == Prefix
    ensures Decimal.AllDigits(code[|Prefix|..]) && Decimal.Value(code[|Prefix|..]) == n
  {
    Decimal.ValueOfRender(n);
    assert (Prefix + Decimal.Render(n))[|Prefix|..] == Decimal.Render(n);
    Prefix + Decimal.Render(n)
  }

  /** Different counter values give different codes. */
  lemma CodeForInjective(m: nat, n: nat)
    requires CodeFor(m) == CodeFor(n)
    ensures m == n
  {
  }

  /** A shared counter. Each call of NextCode advances it by one and returns the code for its new value. */
  class AuthorisationCodeGenerator {
    var codeCounter: nat

    constructor ()
      ensures codeCounter == 0
    {
      codeCounter := 0;
    }

    /** `code` is one of the codes this generator has returned so far. */
    ghost predicate Issued(code: string)
      reads this
    {
      exists k: nat :: 1 <= k <= codeCounter && CodeFor(k) == code
    }

    method NextCode() returns (code: string)
      modifies this
      ensures codeCounter == old(codeCounter) + 1
      ensures code == CodeFor(codeCounter)
      ensures !old(Issued(code)) && Issued(code)
      ensures forall c :: old(Issued(c)) ==> Issued(c)
    {
      codeCounter := codeCounter + 1;
      code := CodeFor(codeCounter);
      forall k: nat | 1 <= k <= old(codeCounter)
        ensures CodeFor(k) != code
      {
        if CodeFor(k) == code {
          CodeForInjective(k, codeCounter);
        }
      }
    }
  }
}
