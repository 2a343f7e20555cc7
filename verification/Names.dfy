/** The generated names of src/ir/CFG.cpp: temporaries `_tN` and blocks `block_N`.
    The numbers are rendered in decimal, as std::to_string does. */
module Names {

  function Digit(d: nat): char
    requires d < 10
  {
    ('0' as int + d) as char
  }

  function Decimal(n: nat): (s: string)
    ensures |s| > 0
    ensures forall i :: 0 <= i < |s| ==> '0' <= s[i] <= '9'
  {
    if n < 10 then [Digit(n)] else Decimal(n / 10) + [Digit(n % 10)]
  }

  lemma {:induction false} DecimalInjective(m: nat, n: nat)
    requires Decimal(m) == Decimal(n)
    ensures m == n
  {
    var s, t := Decimal(m), Decimal(n);
    assert s[|s| - 1] == Digit(m % 10);
    assert t[|t| - 1] == Digit(n % 10);
    if m >= 10 && n >= 10 {
      assert s[..|s| - 1] == Decimal(m / 10);
      assert t[..|t| - 1] == Decimal(n / 10);
      DecimalInjective(m / 10, n / 10);
    }
  }

  function TempName(n: nat): string {
    "_t" + Decimal(n)
  }

  function BlockName(n: nat): string {
    "block_" + Decimal(n)
  }

  function RootName(className: string, methodName: string): string {
    className + "." + methodName
  }

  /** The lexer starts an identifier with a letter, so a name with a leading underscore is generated. */
  predicate Generated(x: string) {
    |x| > 0 && x[0] == '_'
  }

  /** x is a temporary numbered n or higher. */
  ghost predicate TempFrom(x: string, n: nat) {
    exists i: nat {:trigger TempName(i)} :: n <= i && x == TempName(i)
  }

  lemma TempNameInjective(m: nat, n: nat)
    requires TempName(m) == TempName(n)
    ensures m == n
  {
    assert TempName(m)[2..] == Decimal(m) && TempName(n)[2..] == Decimal(n);
    DecimalInjective(m, n);
  }

  lemma BlockNameInjective(m: nat, n: nat)
    requires BlockName(m) == BlockName(n)
    ensures m == n
  {
    assert BlockName(m)[6..] == Decimal(m) && BlockName(n)[6..] == Decimal(n);
    DecimalInjective(m, n);
  }

  lemma TempIsGenerated(n: nat)
    ensures Generated(TempName(n))
  {
  }

  lemma TempNotThis(n: nat)
    ensures TempName(n) != "this"
  {
    assert TempName(n)[0] == '_';
  }

  lemma EarlierTempIsNotLater(i: nat, n: nat)
    requires i < n
    ensures !TempFrom(TempName(i), n)
  {
    forall j: nat | n <= j
      ensures TempName(i) != TempName(j)
    {
      if TempName(i) == TempName(j) { TempNameInjective(i, j); }
    }
  }
}
