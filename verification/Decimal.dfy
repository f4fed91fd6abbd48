/** Decimal numerals: `std::to_chars`, `std::from_chars` and the canonical form of 64-bit integers. */
module Decimal {
  import opened Prelude

  const MINUS: byte := 45

  function Digit(n: nat): byte
    requires n < 10
  {
    (48 + n) as byte
  }

  predicate IsDigit(b: byte) {
    48 <= b <= 57
  }

  function Digits(n: nat): (text: Bytes)
    ensures text != []
  {
    if n < 10 then [Digit(n)] else Digits(n / 10) + [Digit(n % 10)]
  }

  /** What `to_chars` writes. */
  function Canonical(n: int): (text: Bytes)
    ensures text != []
  {
    if n < 0 then [MINUS] + Digits(-n) else Digits(n)
  }

  // ----- Reading -----

  predicate AllDigits(text: Bytes) {
    forall i :: 0 <= i < |text| ==> IsDigit(text[i])
  }

  function Magnitude(text: Bytes): nat
    requires AllDigits(text)
  {
    if text == [] then 0
    else Magnitude(text[..|text| - 1]) * 10 + (text[|text| - 1] as int - 48)
  }

  predicate Negative(text: Bytes, isSigned: bool) {
    isSigned && text != [] && text[0] == MINUS
  }

  /** The digits after the sign, which only a signed type may have. */
  function Unsigned(text: Bytes, isSigned: bool): Bytes {
    if Negative(text, isSigned) then text[1..] else text
  }

  /** The whole text is a numeral that `from_chars` reads. */
  predicate Numeral(text: Bytes, isSigned: bool) {
    Unsigned(text, isSigned) != [] && AllDigits(Unsigned(text, isSigned))
  }

  function NumberOf(text: Bytes, isSigned: bool): int
    requires Numeral(text, isSigned)
  {
    if Negative(text, isSigned) then 0 - Magnitude(text[1..]) else Magnitude(text)
  }

  lemma {:induction false} DigitsRead(n: nat)
    ensures AllDigits(Digits(n)) && Magnitude(Digits(n)) == n
  {
    if n < 10 {
      assert Digits(n)[..0] == [];
    } else {
      DigitsRead(n / 10);
      assert Digits(n)[..|Digits(n)| - 1] == Digits(n / 10);
    }
  }

  /** Reading undoes writing. */
  lemma CanonicalReads(n: int, isSigned: bool)
    requires isSigned || n >= 0
    ensures Numeral(Canonical(n), isSigned) && NumberOf(Canonical(n), isSigned) == n
  {
    if n < 0 {
      DigitsRead(-n);
      assert Canonical(n)[1..] == Digits(-n);
    } else {
      DigitsRead(n);
      assert IsDigit(Canonical(n)[0]);
    }
  }

  /** Printable ASCII that JSON does not escape. */
  predicate Plain(b: byte) {
    0x20 <= b < 0x7F && b != 34 && b != 92
  }

  lemma CanonicalIsPlain(n: int)
    ensures forall i :: 0 <= i < |Canonical(n)| ==> Plain(Canonical(n)[i])
  {
    var digits := Digits(if n < 0 then -n else n);
    DigitsRead(if n < 0 then -n else n);
    assert forall i :: 0 <= i < |digits| ==> IsDigit(digits[i]);
  }

  /** `from_chars` over the whole text. */
  method FromChars(text: Bytes, isSigned: bool, low: int, high: int) returns (r: Option<int>)
    ensures r.Some? <==> Numeral(text, isSigned) && low <= NumberOf(text, isSigned) <= high
    ensures r.Some? ==> r.value == NumberOf(text, isSigned)
  {
    var negative := Negative(text, isSigned);
    var digits := Unsigned(text, isSigned);
    if digits == [] {
      return None;
    }
    var value := 0;
    for n := 0 to |digits|
      invariant AllDigits(digits[..n]) && value == Magnitude(digits[..n])
    {
      if !IsDigit(digits[n]) {
        return None;
      }
      assert digits[..n + 1] == digits[..n] + [digits[n]];
      value := value * 10 + (digits[n] as int - 48);
    }
    assert digits[..|digits|] == digits;
    value := if negative then -value else value;
    r := if low <= value <= high then Some(value) else None;
  }

  /** A 64-bit integer in a string: accepted exactly in its canonical decimal form. */
  method ReadCanonical(text: Bytes, isSigned: bool, low: int, high: int) returns (r: Option<int>)
    requires isSigned || low >= 0
    ensures r.Some? <==> exists n :: low <= n <= high && text == Canonical(n)
    ensures r.Some? ==> low <= r.value <= high && text == Canonical(r.value)
  {
    r := FromChars(text, isSigned, low, high);
    if n :| low <= n <= high && text == Canonical(n) {
      CanonicalReads(n, isSigned);
    }
    if r.Some? && Canonical(r.value) != text {
      r := None;
    }
  }

  lemma CanonicalIsInjective(m: int, n: int)
    requires Canonical(m) == Canonical(n)
    ensures m == n
  {
    CanonicalReads(m, true);
    CanonicalReads(n, true);
  }
}
