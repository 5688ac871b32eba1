/** Python string operations the helpers rely on: `marker in s` and `str()` of an integer. */
module Strings {

  /** `marker` occurs in `s` starting at index `i`. */
  ghost predicate OccursAt(s: string, marker: string, i: int)
  {
    0 <= i && i + |marker| <= |s| && s[i..i + |marker|] == marker
  }

  /** Python's substring test `marker in s`. */
  function Contains(s: string, marker: string): bool
  {
    if |s| < |marker| then false
    else if s[..|marker|] == marker then true
    else Contains(s[1..], marker)
  }

  /** `Contains` is exactly "occurs at some index". */
  lemma {:induction false} ContainsIff(s: string, marker: string)
    ensures Contains(s, marker) <==> exists i :: OccursAt(s, marker, i)
  {
    if |s| < |marker| {
    } else if s[..|marker|] == marker {
      assert OccursAt(s, marker, 0);
    } else {
      ContainsIff(s[1..], marker);
      if Contains(s[1..], marker) {
        var i :| OccursAt(s[1..], marker, i);
        assert s[1..][i..i + |marker|] == s[i + 1..i + 1 + |marker|];
        assert OccursAt(s, marker, i + 1);
      }
      if exists i :: OccursAt(s, marker, i) {
        var i :| OccursAt(s, marker, i);
        assert i != 0;
        assert s[1..][i - 1..i - 1 + |marker|] == s[i..i + |marker|];
        assert OccursAt(s[1..], marker, i - 1);
      }
    }
  }

  /** An occurrence at a known index makes the test succeed. */
  lemma ContainsWitness(s: string, marker: string, i: int)
    requires OccursAt(s, marker, i)
    ensures Contains(s, marker)
  {
    ContainsIff(s, marker);
  }

  /** A marker with a character that `s` does not hold cannot occur in `s`. */
  lemma MissingCharNotContained(s: string, marker: string, k: nat)
    requires k < |marker| && marker[k] !in s
    ensures !Contains(s, marker)
  {
    ContainsIff(s, marker);
  }

  /** A marker whose first two characters never appear side by side in `s` cannot occur in `s`. */
  lemma NoAdjacentPairNotContained(s: string, marker: string)
    requires |marker| >= 2
    requires forall i :: 0 <= i < |s| - 1 ==> s[i] != marker[0] || s[i + 1] != marker[1]
    ensures !Contains(s, marker)
  {
    ContainsIff(s, marker);
  }

  predicate IsDigit(c: char)
  {
    '0' <= c <= '9'
  }

  function DigitChar(d: nat): (c: char)
    requires d < 10
    ensures IsDigit(c) && c as int - '0' as int == d
  {
    "0123456789"[d]
  }

  /** Python's `str(n)` for a natural number: decimal, no leading zeros. */
  function NatToDecimal(n: nat): (s: string)
    ensures |s| > 0 && forall k :: 0 <= k < |s| ==> IsDigit(s[k])
  {
    if n < 10 then [DigitChar(n)] else NatToDecimal(n / 10) + [DigitChar(n % 10)]
  }

  /** Python's `str(n)` for any integer. */
  function IntToDecimal(n: int): (s: string)
    ensures |s| > 0
    ensures s[0] == '-' <==> n < 0
    ensures forall k :: 0 < k < |s| ==> IsDigit(s[k])
  {
    if n < 0 then "-" + NatToDecimal(-n) else NatToDecimal(n)
  }

  /** The number a string of decimal digits denotes (Python's `int(s)`). */
  function DecimalValue(s: string): nat
    requires forall k :: 0 <= k < |s| ==> IsDigit(s[k])
  {
    if s == [] then 0
    else
      assert IsDigit(s[|s| - 1]);
      10 * DecimalValue(s[..|s| - 1]) + (s[|s| - 1] as int - '0' as int)
  }

  /** Reading back the decimal text of `n` gives `n`. */
  lemma {:induction false} DecimalRoundTrip(n: nat)
    ensures DecimalValue(NatToDecimal(n)) == n
  {
    var s := NatToDecimal(n);
    if n >= 10 {
      DecimalRoundTrip(n / 10);
      assert s[..|s| - 1] == NatToDecimal(n / 10);
    }
  }

  /** Distinct numbers have distinct decimal texts. */
  lemma DecimalInjective(m: nat, n: nat)
    requires NatToDecimal(m) == NatToDecimal(n)
    ensures m == n
  {
    DecimalRoundTrip(m);
    DecimalRoundTrip(n);
  }
}
