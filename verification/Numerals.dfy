/** Decimal numerals, as strconv writes and reads them. */
module Numerals {
  predicate IsDigit(c: char) {
    '0' <= c <= '9'
  }

  function DigitChar(d: nat): (c: char)
    requires d < 10
    ensures IsDigit(c) && (c - '0') as int == d
  {
    '0' + d as char
  }

  /** strconv.Itoa on naturals. */
  function Decimal(n: nat): (s: string)
    ensures s != [] && forall i | 0 <= i < |s| :: IsDigit(s[i])
  {
    if n < 10 then [DigitChar(n)] else Decimal(n / 10) + [DigitChar(n % 10)]
  }

  function Value(s: string): nat
    requires forall i | 0 <= i < |s| :: IsDigit(s[i])
  {
    if s == [] then 0
    else
      assert IsDigit(s[|s| - 1]);
      10 * Value(s[..|s| - 1]) + (s[|s| - 1] - '0') as int
  }

  lemma {:induction false} ValueOfDecimal(n: nat)
    ensures Value(Decimal(n)) == n
  {
    var s := Decimal(n);
    if n < 10 {
      assert s[..|s| - 1] == [];
    } else {
      ValueOfDecimal(n / 10);
      assert s[..|s| - 1] == Decimal(n / 10);
    }
  }

  /** Digits after a numeral make it a larger number. */
  lemma {:induction false} ValueGrows(s: string, ds: string)
    requires forall i | 0 <= i < |s| :: IsDigit(s[i])
    requires forall i | 0 <= i < |ds| :: IsDigit(ds[i])
    ensures forall i | 0 <= i < |s + ds| :: IsDigit((s + ds)[i])
    ensures Value(s + ds) >= Value(s)
    ensures ds != [] ==> Value(s + ds) >= 10 * Value(s)
    decreases |ds|
  {
    if ds == [] {
      assert s + ds == s;
    } else {
      assert (s + ds)[..|s + ds| - 1] == s + ds[..|ds| - 1];
      ValueGrows(s, ds[..|ds| - 1]);
    }
  }
}
