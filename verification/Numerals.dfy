/** Decimal text: what `BigInt(s)` and `Number(s)` read out of a string of digits, and the printer they undo. */
module Numerals {

  const DIGITS := "0123456789"

  predicate IsDigits(s: string) {
    s != [] && forall i | 0 <= i < |s| :: '0' <= s[i] <= '9'
  }

  /** `BigInt(s)` for a decimal string. */
  function DecimalValue(s: string): nat
    requires forall i | 0 <= i < |s| :: '0' <= s[i] <= '9'
  {
    if s == [] then 0
    else DecimalValue(s[..|s| - 1]) * 10 + (s[|s| - 1] as int - '0' as int)
  }

  /** The number in decimal notation, without leading zeros. */
  function Decimal(n: nat): (s: string)
    ensures s != []
  {
    if n < 10 then [DIGITS[n]] else Decimal(n / 10) + [DIGITS[n % 10]]
  }

  function Pow10(n: nat): nat {
    if n == 0 then 1 else 10 * Pow10(n - 1)
  }

  lemma DigitValue(d: nat)
    requires d < 10
    ensures '0' <= DIGITS[d] <= '9' && DIGITS[d] as int - '0' as int == d
  {
  }

  /** A digit is one of ten characters, and a number is at least one of them. */
  lemma IsDigitsIff(s: string)
    ensures IsDigits(s) <==> 0 < |s| && forall c | c in s :: c in "0123456789"
  {
    forall c: char ensures '0' <= c <= '9' <==> c in "0123456789" {
      if '0' <= c <= '9' {
        assert c == DIGITS[c as int - '0' as int];
      }
    }
    forall i | 0 <= i < |s| ensures s[i] in s {
    }
  }

  /** Reading undoes printing. */
  lemma {:induction false} ValueOfDecimal(n: nat)
    ensures IsDigits(Decimal(n)) && DecimalValue(Decimal(n)) == n
  {
    if n < 10 {
      DigitValue(n);
      assert Decimal(n)[..0] == [];
    } else {
      DigitValue(n % 10);
      ValueOfDecimal(n / 10);
      assert Decimal(n)[..|Decimal(n)| - 1] == Decimal(n / 10);
    }
  }

  predicate NoLeadingZero(s: string) {
    s == "0" || (s != [] && s[0] != '0')
  }

  lemma AppendDigit(m: nat, d: nat)
    requires 0 < m && d < 10
    ensures Decimal(m * 10 + d) == Decimal(m) + [DIGITS[d]]
  {
    assert (m * 10 + d) / 10 == m && (m * 10 + d) % 10 == d;
  }

  /** And printing undoes reading, but for leading zeros. */
  lemma {:induction false} DecimalOfValue(s: string)
    requires IsDigits(s) && NoLeadingZero(s)
    ensures Decimal(DecimalValue(s)) == s
  {
    var n := |s| - 1;
    var d := s[n] as int - '0' as int;
    DigitValue(d);
    assert s == s[..n] + [DIGITS[d]];
    if n == 0 {
      assert s[..0] == [];
    } else {
      NotZero(s[..n]);
      DecimalOfValue(s[..n]);
      AppendDigit(DecimalValue(s[..n]), d);
    }
  }

  lemma {:induction false} NotZero(s: string)
    requires IsDigits(s) && s[0] != '0'
    ensures DecimalValue(s) >= Pow10(|s| - 1)
  {
    var n := |s| - 1;
    if n == 0 {
      assert s[..0] == [];
    } else {
      NotZero(s[..n]);
    }
  }

  lemma {:induction false} BelowPower(s: string)
    requires forall i | 0 <= i < |s| :: '0' <= s[i] <= '9'
    ensures DecimalValue(s) < Pow10(|s|)
  {
    if s != [] {
      BelowPower(s[..|s| - 1]);
    }
  }

  lemma {:induction false} PowerGrows(m: nat, n: nat)
    requires m <= n
    ensures Pow10(m) <= Pow10(n)
  {
    if m < n {
      PowerGrows(m, n - 1);
    }
  }

  /** Of two numerals without leading zeros the longer is the larger. */
  lemma LongerIsLarger(a: string, b: string)
    requires IsDigits(a) && IsDigits(b) && b[0] != '0' && |a| < |b|
    ensures DecimalValue(a) < DecimalValue(b)
  {
    BelowPower(a);
    PowerGrows(|a|, |b| - 1);
    NotZero(b);
  }

  /** Positional notation. */
  lemma {:induction false} Positional(a: string, b: string)
    requires forall i | 0 <= i < |a| :: '0' <= a[i] <= '9'
    requires forall i | 0 <= i < |b| :: '0' <= b[i] <= '9'
    ensures DecimalValue(a + b) == DecimalValue(a) * Pow10(|b|) + DecimalValue(b)
  {
    if b == [] {
      assert a + b == a;
    } else {
      var n := |b| - 1;
      Positional(a, b[..n]);
      LastDigit(a, b);
      Scale(DecimalValue(a), Pow10(n), DecimalValue(b[..n]));
    }
  }

  lemma LastDigit(a: string, b: string)
    requires forall i | 0 <= i < |a| :: '0' <= a[i] <= '9'
    requires b != [] && forall i | 0 <= i < |b| :: '0' <= b[i] <= '9'
    ensures
      var n := |b| - 1;
      DecimalValue(a + b) == DecimalValue(a + b[..n]) * 10 + (b[n] as int - '0' as int)
  {
    assert (a + b)[..|a + b| - 1] == a + b[..|b| - 1];
  }

  lemma Scale(x: nat, y: nat, z: nat)
    ensures (x * y + z) * 10 == x * (10 * y) + z * 10
  {
  }
}
