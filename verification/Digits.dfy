/** Runs of decimal digits and the numbers they stand for. */
module Digits {

  predicate IsDigit(c: char) {
    '0' <= c <= '9'
  }

  predicate DigitSequence(s: string) {
    s != "" && forall i :: 0 <= i < |s| ==> IsDigit(s[i])
  }

  /** How many digits s begins with. */
  function Leading(s: string): (k: nat)
    ensures k <= |s|
    ensures forall i :: 0 <= i < k ==> IsDigit(s[i])
    ensures k < |s| ==> !IsDigit(s[k])
  {
    if s != "" && IsDigit(s[0]) then 1 + Leading(s[1..]) else 0
  }

  /** Greedy consumption loses nothing: digits can only end where all of them end, if what follows does not
      begin with a digit. */
  lemma SplitIsGreedy(s: string, k: nat)
    requires k <= |s| && DigitSequence(s[..k])
    requires k < |s| ==> !IsDigit(s[k])
    ensures k == Leading(s)
  {
    assert forall i :: 0 <= i < k ==> IsDigit(s[..k][i]) && s[..k][i] == s[i];
  }

  lemma GreedyPrefix(s: string)
    ensures DigitSequence(s[..Leading(s)]) <==> Leading(s) > 0
  {
  }

  lemma AllDigits(s: string)
    ensures DigitSequence(s) <==> s != "" && Leading(s) == |s|
  {
    if DigitSequence(s) {
      assert s[..|s|] == s;
      SplitIsGreedy(s, |s|);
    }
  }

  function DigitValue(c: char): nat
    requires IsDigit(c)
  {
    c as int - '0' as int
  }

  function Value(s: string): nat
    requires forall i :: 0 <= i < |s| ==> IsDigit(s[i])
  {
    if s == "" then 0 else 10 * Value(s[..|s| - 1]) + DigitValue(s[|s| - 1])
  }

  /** The decimal numeral of n. */
  function Decimal(n: nat): (s: string)
    ensures DigitSequence(s)
  {
    (if n < 10 then "" else Decimal(n / 10)) + [('0' as int + n % 10) as char]
  }

  lemma {:induction false} DecimalValue(n: nat)
    ensures Value(Decimal(n)) == n
    ensures n > 0 ==> Decimal(n)[0] != '0'
  {
    var s := Decimal(n);
    if n < 10 {
      assert s[..|s| - 1] == "";
    } else {
      DecimalValue(n / 10);
      assert s[..|s| - 1] == Decimal(n / 10);
    }
  }

  function Pow10(k: nat): (p: nat)
    ensures p >= 1
  {
    if k == 0 then 1 else 10 * Pow10(k - 1)
  }

  /** The size of a number shows in its digits. */
  lemma {:induction false} ValueBounds(s: string)
    requires forall i :: 0 <= i < |s| ==> IsDigit(s[i])
    ensures Value(s) < Pow10(|s|)
    ensures s != "" && s[0] != '0' ==> Value(s) >= Pow10(|s| - 1)
  {
    if s != "" {
      ValueBounds(s[..|s| - 1]);
    }
  }
}
