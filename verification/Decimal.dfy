/** Decimal digit strings, most significant digit first. */
module Decimal {
  import opened Modular

  /** The shortest digit string of n. */
  function Digits(n: nat): (s: seq<nat>)
    ensures s != []
  {
    if n < 10 then [n] else Digits(n / 10) + [n % 10]
  }

  ghost predicate IsDigits(s: seq<nat>) {
    forall i :: 0 <= i < |s| ==> s[i] < 10
  }

  function Value(s: seq<nat>): nat {
    if s == [] then 0 else 10 * Value(s[..|s| - 1]) + s[|s| - 1]
  }

  /** The canonical spelling: digits, at least one, and no leading zero except "0" itself. */
  ghost predicate Canonical(s: seq<nat>) {
    IsDigits(s) && s != [] && (|s| > 1 ==> s[0] != 0)
  }

  lemma {:induction false} ValueOfDigits(n: nat)
    ensures Value(Digits(n)) == n && Canonical(Digits(n))
    ensures n > 0 ==> Digits(n)[0] != 0
  {
    if n >= 10 {
      ValueOfDigits(n / 10);
      assert Digits(n)[..|Digits(n)| - 1] == Digits(n / 10);
    }
  }

  /** A non-zero leading digit makes the value non-zero. */
  lemma {:induction false} LeadingDigit(s: seq<nat>)
    requires IsDigits(s) && s != [] && s[0] != 0
    ensures Value(s) >= s[0]
  {
    if |s| > 1 {
      LeadingDigit(s[..|s| - 1]);
    }
  }

  lemma {:induction false} DigitsOfValue(s: seq<nat>)
    requires Canonical(s)
    ensures Digits(Value(s)) == s
  {
    if |s| > 1 {
      var front, last := s[..|s| - 1], s[|s| - 1];
      LeadingDigit(front);
      DigitsOfValue(front);
      assert Value(s) == 10 * Value(front) + last;
      assert s == front + [last];
    }
  }

  lemma {:induction false} LeadingZeros(k: nat, s: seq<nat>)
    ensures Value(seq(k, _ => 0) + s) == Value(s)
  {
    var z: seq<nat> := seq(k, _ => 0);
    if s == [] {
      assert z + s == z;
      if k > 0 {
        LeadingZeros(k - 1, []);
        assert z[..k - 1] == seq(k - 1, _ => 0) + [];
      }
    } else {
      assert (z + s)[..|z + s| - 1] == z + s[..|s| - 1];
      LeadingZeros(k, s[..|s| - 1]);
    }
  }

  function Pow10(k: nat): nat {
    if k == 0 then 1 else 10 * Pow10(k - 1)
  }

  lemma {:induction false} DigitsFit(n: nat, k: nat)
    requires n < Pow10(k) && k > 0
    ensures |Digits(n)| <= k
  {
    if n >= 10 {
      assert k > 1;
      DigitsFit(n / 10, k - 1);
    }
  }
}
