/** Canonical decimal spelling of fixed-width integers, printed and parsed on raw bytes. */
module RedisNumbers {
  import opened Common
  import Decimal

  const MINUS: Byte := 45
  const ZERO: Byte := 48

  function Pow2(k: nat): (p: nat)
    ensures p > 0
  {
    if k == 0 then 1 else 2 * Pow2(k - 1)
  }

  // ---- printing ----

  function Ascii(digits: seq<nat>): (s: Bytes)
    ensures |s| == |digits|
  {
    seq(|digits|, i requires 0 <= i < |digits| => if digits[i] < 10 then (48 + digits[i]) as Byte else 63)
  }

  function PrintUint(n: nat): (s: Bytes)
    ensures s != []
  {
    Ascii(Decimal.Digits(n))
  }

  function PrintInt(n: int): (s: Bytes)
    ensures s != []
  {
    if n < 0 then [MINUS] + PrintUint(-n) else PrintUint(n)
  }

  // ---- parsing ----

  predicate Digit?(b: Byte) {
    48 <= b <= 57
  }

  function DigitValue(b: Byte): nat {
    if Digit?(b) then (b - 48) as nat else 0
  }

  /** The digits a byte string spells. */
  function Digits(s: Bytes): (d: seq<nat>)
    ensures |d| == |s|
  {
    seq(|s|, i requires 0 <= i < |s| => DigitValue(s[i]))
  }

  /** At least one digit, only digits, and no leading zero but in "0" itself. */
  ghost predicate Canonical(s: Bytes) {
    s != [] && (forall i :: 0 <= i < |s| ==> Digit?(s[i])) && (|s| > 1 ==> s[0] != ZERO)
  }

  /** The number a byte string spells, whatever its length. */
  function Number(s: Bytes): nat {
    Decimal.Value(Digits(s))
  }

  lemma NumberPrefix(s: Bytes, i: nat)
    requires i < |s|
    ensures Number(s[..i + 1]) == 10 * Number(s[..i]) + DigitValue(s[i])
  {
    assert Digits(s[..i + 1])[..i] == Digits(s[..i]);
  }

  lemma {:induction false} NumberGrows(s: Bytes, i: nat)
    requires i <= |s|
    ensures Number(s[..i]) <= Number(s)
    decreases |s| - i
  {
    if i < |s| {
      NumberPrefix(s, i);
      NumberGrows(s, i + 1);
    } else {
      assert s[..i] == s;
    }
  }

  /** A number whose first digit is not zero is not zero. */
  lemma LeadingIsPositive(s: Bytes)
    requires s != [] && Digit?(s[0]) && s[0] != ZERO
    ensures Number(s) > 0
  {
    NumberPrefix(s, 0);
    NumberGrows(s, 1);
  }

  /**
   * Parse an unsigned number of at most `maximum`.  Every intermediate value stays within the
   * maximum, so the multiplication and the addition cannot overflow the word that holds it.
   */
  method ParseDecimal(source: Bytes, maximum: nat, allowZero: bool) returns (r: Option<nat>)
    ensures r.Some? <==> Canonical(source) && Number(source) <= maximum && (allowZero || Number(source) > 0)
    ensures r.Some? ==> r.value == Number(source)
  {
    if |source| == 0 {
      return None;
    }
    if source[0] == ZERO {
      assert |source| == 1 ==> source[..1] == source && source[..0] == [];
      if |source| == 1 { NumberPrefix(source, 0); }
      return if allowZero && |source| == 1 then Some(0) else None;
    }
    if !Digit?(source[0]) {
      return None;
    }
    LeadingIsPositive(source);
    var value := 0;
    for i := 0 to |source|
      invariant value == Number(source[..i]) && value <= maximum
      invariant forall j :: 0 <= j < i ==> Digit?(source[j])
    {
      if !Digit?(source[i]) {
        return None;
      }
      var digit := DigitValue(source[i]);
      NumberPrefix(source, i);
      if digit > maximum || value > (maximum - digit) / 10 {
        NumberGrows(source, i + 1);
        return None;
      }
      value := value * 10 + digit;
    }
    assert source[..|source|] == source;
    return Some(value);
  }

  /** The result of ParseDecimal as a function of its input. */
  ghost function Parsed(source: Bytes, maximum: nat): Option<nat> {
    if Canonical(source) && Number(source) <= maximum then Some(Number(source)) else None
  }

  ghost function ParsedUint(source: Bytes, bits: nat): Option<nat> {
    if 1 <= bits <= 64 then Parsed(source, Pow2(bits) - 1) else None
  }

  ghost function ParsedInt(source: Bytes, bits: nat): Option<int> {
    if bits < 1 || bits > 64 || source == [] then None
    else if source[0] == MINUS then
      var m := Parsed(source[1..], Pow2(bits - 1));
      if m.Some? && m.value > 0 then Some(-(m.value as int)) else None
    else
      var m := Parsed(source, Pow2(bits - 1) - 1);
      if m.Some? then Some(m.value) else None
  }

  const MIN64 := -0x8000_0000_0000_0000
  const MAX64 := 0x7fff_ffff_ffff_ffff

  lemma Pow2Monotone(a: nat, b: nat)
    requires a <= b
    ensures Pow2(a) <= Pow2(b)
    decreases b - a
  {
    if a < b {
      Pow2Monotone(a, b - 1);
    }
  }

  lemma Pow2Of63()
    ensures Pow2(63) == 0x8000_0000_0000_0000
  {
    assert Pow2(8) == 256;
    assert Pow2(16) == 256 * Pow2(8);
    assert Pow2(24) == 256 * Pow2(16);
    assert Pow2(32) == 256 * Pow2(24);
    assert Pow2(40) == 256 * Pow2(32);
    assert Pow2(48) == 256 * Pow2(40);
    assert Pow2(56) == 256 * Pow2(48);
    assert Pow2(63) == 128 * Pow2(56);
  }

  method ParseUint(source: Bytes, bits: nat) returns (r: Option<nat>)
    ensures r == ParsedUint(source, bits)
  {
    if bits < 1 || bits > 64 {
      return None;
    }
    r := ParseDecimal(source, Pow2(bits) - 1, true);
  }

  /** The magnitude of the smallest value does not fit the signed word; its predecessor does. */
  method ParseInt(source: Bytes, bits: nat) returns (r: Option<int>)
    ensures r == ParsedInt(source, bits)
    ensures r.Some? ==> MIN64 <= r.value <= MAX64
  {
    if bits < 1 || bits > 64 || |source| == 0 {
      return None;
    }
    Pow2Of63();
    Pow2Monotone(bits - 1, 63);
    var negative := source[0] == MINUS;
    var rest := if negative then source[1..] else source;
    var limit := if negative then Pow2(bits - 1) else Pow2(bits - 1) - 1;
    var magnitude := ParseDecimal(rest, limit, true);
    if magnitude.None? || (negative && magnitude.value == 0) {
      return None;
    }
    if negative {
      var predecessor := magnitude.value - 1;
      assert MIN64 <= predecessor <= MAX64 && MIN64 <= -predecessor <= MAX64;
      return Some(-predecessor - 1);
    }
    return Some(magnitude.value);
  }

  // ---- round trips ----

  lemma DigitsOfAscii(d: seq<nat>)
    requires Decimal.IsDigits(d)
    ensures Digits(Ascii(d)) == d && forall i :: 0 <= i < |d| ==> Digit?(Ascii(d)[i])
  {
  }

  lemma AsciiOfDigits(s: Bytes)
    requires forall i :: 0 <= i < |s| ==> Digit?(s[i])
    ensures Ascii(Digits(s)) == s && Decimal.IsDigits(Digits(s))
  {
  }

  lemma PrintedIsCanonical(n: nat)
    ensures Canonical(PrintUint(n)) && Number(PrintUint(n)) == n
  {
    Decimal.ValueOfDigits(n);
    DigitsOfAscii(Decimal.Digits(n));
  }

  lemma CanonicalIsPrinted(s: Bytes)
    requires Canonical(s)
    ensures PrintUint(Number(s)) == s
  {
    AsciiOfDigits(s);
    Decimal.DigitsOfValue(Digits(s));
  }

  /** Printing then parsing an unsigned value of any width gives it back. */
  lemma UintRoundTrip(n: nat, bits: nat)
    requires 1 <= bits <= 64 && n < Pow2(bits)
    ensures ParsedUint(PrintUint(n), bits) == Some(n)
  {
    PrintedIsCanonical(n);
  }

  /** Each unsigned value has one accepted spelling. */
  lemma UintSpelling(s: Bytes, bits: nat)
    requires ParsedUint(s, bits).Some?
    ensures PrintUint(ParsedUint(s, bits).value) == s && ParsedUint(s, bits).value < Pow2(bits)
  {
    CanonicalIsPrinted(s);
  }

  /** Printing then parsing a signed value of any width gives it back, the smallest value included. */
  lemma IntRoundTrip(n: int, bits: nat)
    requires 1 <= bits <= 64 && -(Pow2(bits - 1) as int) <= n < Pow2(bits - 1)
    ensures ParsedInt(PrintInt(n), bits) == Some(n)
  {
    if n < 0 {
      NegativeRoundTrip(n, bits);
    } else {
      PrintedIsCanonical(n);
      assert Digit?(PrintUint(n)[0]);
    }
  }

  lemma NegativeRoundTrip(n: int, bits: nat)
    requires 1 <= bits <= 64 && -(Pow2(bits - 1) as int) <= n < 0
    ensures ParsedInt(PrintInt(n), bits) == Some(n)
  {
    PrintedIsCanonical(-n);
    assert PrintInt(n)[1..] == PrintUint(-n);
  }

  /** Each signed value has one accepted spelling. */
  lemma IntSpelling(s: Bytes, bits: nat)
    requires ParsedInt(s, bits).Some?
    ensures PrintInt(ParsedInt(s, bits).value) == s
    ensures -(Pow2(bits - 1) as int) <= ParsedInt(s, bits).value < Pow2(bits - 1)
  {
    if s[0] == MINUS {
      CanonicalIsPrinted(s[1..]);
      assert s == [MINUS] + s[1..];
    } else {
      CanonicalIsPrinted(s);
    }
  }
}
