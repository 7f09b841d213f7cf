/** Decimal rendering of counters in generated identifiers. */
module Decimals {
  import opened Sequences

  function Digit(d: nat): char
    requires d < 10
  {
    "0123456789"[d]
  }

  function Decimal(n: nat): (s: string)
    ensures s != []
  {
    if n < 10 then [Digit(n)] else Decimal(n / 10) + [Digit(n % 10)]
  }

  lemma DigitInjective(c: nat, d: nat)
    requires c < 10 && d < 10 && Digit(c) == Digit(d)
    ensures c == d
  {
  }

  lemma {:induction false} DecimalInjective(m: nat, n: nat)
    requires Decimal(m) == Decimal(n)
    ensures m == n
  {
    assert Last(Decimal(m)) == Digit(m % 10) && Last(Decimal(n)) == Digit(n % 10);
    DigitInjective(m % 10, n % 10);
    DecimalLength(m);
    DecimalLength(n);
    if m >= 10 {
      assert DropLast(Decimal(m)) == Decimal(m / 10) && DropLast(Decimal(n)) == Decimal(n / 10);
      DecimalInjective(m / 10, n / 10);
    }
  }

  lemma DecimalLength(n: nat)
    ensures |Decimal(n)| == 1 <==> n < 10
  {
  }

  /** The number a string of digits writes. */
  function Written(s: string): int {
    if s == [] then 0 else 10 * Written(DropLast(s)) + (Last(s) as int - '0' as int)
  }

  /** The rendering writes the number, in digits and without leading zeros. */
  lemma {:induction false} DecimalWrites(n: nat)
    ensures Written(Decimal(n)) == n
    ensures forall c :: c in Decimal(n) ==> '0' <= c <= '9'
    ensures n > 0 ==> Decimal(n)[0] != '0'
  {
    if n >= 10 {
      DecimalWrites(n / 10);
      assert DropLast(Decimal(n)) == Decimal(n / 10);
    } else {
      assert DropLast(Decimal(n)) == [];
    }
  }

  /** A generated identifier: a prefix and a running number. */
  function Identifier(prefix: string, n: nat): string {
    prefix + Decimal(n)
  }

  lemma IdentifierInjective(prefix: string, m: nat, n: nat)
    requires Identifier(prefix, m) == Identifier(prefix, n)
    ensures m == n
  {
    assert Identifier(prefix, m)[|prefix|..] == Decimal(m);
    assert Identifier(prefix, n)[|prefix|..] == Decimal(n);
    DecimalInjective(m, n);
  }
}
