/** What a JSON value means as a value of a type, said once for all by what it denotes, and that the
    codecs read and write exactly that. */
module Meaning {
  import opened Prelude
  import opened Codecs
  import Decimal
  import Utf8
  import J = Json

  function Power2(n: nat): int {
    if n == 0 then 1 else 2 * Power2(n - 1)
  }

  // ----- Numbers -----

  /** The real number that a JSON number stands for. */
  predicate NumberMeant(v: J.Value, r: real) {
    match v
    case Int64(n) => r == n as real
    case Uint64(n) => r == n as real
    case Double(number) => number.Finite? && r == number.value
    case _ => false
  }

  /** An integer of two's complement, or an unsigned one, of so many bits. */
  predicate Holds(bits: nat, isSigned: bool, n: int) {
    if isSigned then bits > 0 && -Power2(bits - 1) <= n < Power2(bits - 1) else 0 <= n < Power2(bits)
  }

  lemma RangeIsOfBits(bits: nat, isSigned: bool, n: int)
    requires bits in {8, 16, 32, 64}
    ensures InRange(n, bits, isSigned) <==> Holds(bits, isSigned, n)
  {
    PowersOfTwo();
  }

  lemma {:induction false} PowersAdd(a: nat, b: nat)
    ensures Power2(a + b) == Power2(a) * Power2(b)
  {
    if a > 0 {
      PowersAdd(a - 1, b);
    }
  }

  lemma PowersOfTwo()
    ensures Power2(7) == 0x80 && Power2(8) == 0x100 && Power2(15) == 0x8000 && Power2(16) == 0x1_0000
    ensures Power2(31) == 0x8000_0000 && Power2(32) == 0x1_0000_0000
    ensures Power2(63) == 0x8000_0000_0000_0000 && Power2(64) == 0x1_0000_0000_0000_0000
  {
    assert Power2(4) == 16;
    PowersAdd(4, 3);
    PowersAdd(4, 4);
    PowersAdd(8, 7);
    PowersAdd(8, 8);
    PowersAdd(16, 15);
    PowersAdd(16, 16);
    PowersAdd(32, 31);
    PowersAdd(32, 32);
  }

  /** The largest finite number of the binary32 format: 24 ones, shifted by 104. */
  lemma LargestFloat()
    ensures FLT_MAX == ((Power2(24) - 1) * Power2(104)) as real
  {
    PowersOfTwo();
    PowersAdd(16, 8);
    PowersAdd(64, 32);
    PowersAdd(96, 8);
  }

  /** The text is a decimal numeral without superfluous characters: a minus sign in front of negative
      numbers, then the digits, the most significant first and not 0 unless it is the only one. */
  predicate Writes(text: Bytes, n: int) {
    if n < 0 then text != [] && text[0] == 45 && Numeral(text[1..], -n) else Numeral(text, n)
  }

  predicate Numeral(digits: Bytes, n: int) {
    && digits != [] && (digits[0] == 48 ==> |digits| == 1)
    && (forall i :: 0 <= i < |digits| ==> 48 <= digits[i] <= 57)
    && Horner(digits) == n
  }

  function Horner(digits: Bytes): int {
    if digits == [] then 0 else 10 * Horner(digits[..|digits| - 1]) + (digits[|digits| - 1] as int - 48)
  }

  lemma {:induction false} HornerIsMagnitude(digits: Bytes)
    requires Decimal.AllDigits(digits)
    ensures Horner(digits) == Decimal.Magnitude(digits)
  {
    if digits != [] {
      HornerIsMagnitude(digits[..|digits| - 1]);
    }
  }

  lemma {:induction false} DigitsLead(n: nat)
    ensures Decimal.Digits(n)[0] == 48 ==> n == 0
    ensures n > 0 ==> Decimal.Digits(n)[0] != 48
  {
    if n >= 10 {
      DigitsLead(n / 10);
    }
  }

  lemma {:induction false} DigitsOfHorner(digits: Bytes)
    requires digits != [] && Decimal.AllDigits(digits) && (digits[0] == 48 ==> |digits| == 1)
    ensures Horner(digits) >= 0 && Decimal.Digits(Horner(digits)) == digits
    ensures Horner(digits) == 0 ==> digits == [48]
  {
    var front, last := digits[..|digits| - 1], digits[|digits| - 1];
    assert digits == front + [last];
    if front == [] {
      assert Horner(front) == 0;
      assert Horner(digits) == last as int - 48;
    } else {
      DigitsOfHorner(front);
      assert front[0] == digits[0];
      assert Horner(front) > 0;
      assert Horner(digits) / 10 == Horner(front) && Horner(digits) % 10 == last as int - 48;
    }
  }

  lemma DigitsNumeral(digits: Bytes, n: nat)
    ensures digits == Decimal.Digits(n) <==> Numeral(digits, n)
  {
    Decimal.DigitsRead(n);
    DigitsLead(n);
    if digits == Decimal.Digits(n) {
      HornerIsMagnitude(digits);
      assert forall i :: 0 <= i < |digits| ==> Decimal.IsDigit(digits[i]);
    }
    if Numeral(digits, n) {
      DigitsOfHorner(digits);
    }
  }

  /** The canonical form is the one numeral of the number. */
  lemma CanonicalWrites(text: Bytes, n: int)
    ensures text == Decimal.Canonical(n) <==> Writes(text, n)
  {
    if n >= 0 {
      DigitsNumeral(text, n);
    } else if text != [] {
      DigitsNumeral(text[1..], -n);
      assert text == [text[0]] + text[1..];
    }
  }

  // ----- Denotation -----

  /** The first member of the name. */
  predicate FirstNamed(members: seq<J.Member>, name: Bytes, k: int) {
    0 <= k < |members| && members[k].key == name && forall j :: 0 <= j < k ==> members[j].key != name
  }

  predicate DenotesInteger(bits: int, v: J.Value, n: int) {
    if bits == 64 then v.Text? && Writes(v.text, n) else NumberMeant(v, n as real)
  }

  predicate DenotesFloat(v: J.Value, f: J.Number) {
    match f
    case NotANumber => v == J.Text([78, 97, 78])                                            // NaN
    case Infinite(false) => v == J.Text([73, 110, 102, 105, 110, 105, 116, 121])            // Infinity
    case Infinite(true) => v == J.Text([45, 73, 110, 102, 105, 110, 105, 116, 121])         // -Infinity
    case Finite(r) => NumberMeant(v, r)
  }

  /** The JSON value stands for the value of the component. */
  ghost predicate Denotes(t: Type, v: J.Value, d: Datum)
    decreases t
  {
    if t.Struct? then
      && d.Compound? && v.Object? && |d.parts| == |t.fields| == |v.members|
      && forall i :: 0 <= i < |t.fields| ==>
           exists k :: FirstNamed(v.members, t.fields[i].name, k)
                       && Denotes(t.fields[i].fieldType, v.members[k].value, d.parts[i])
    else if t.Vector? || t.FixedArray? || t.Sequence? then
      && d.Compound? && v.Array? && |d.parts| == |v.items|
      && (t.Sequence? && t.length.Some? ==> |v.items| == t.length.value)
      && forall i :: 0 <= i < |v.items| ==> Denotes(t.element, v.items[i], d.parts[i])
    else if t.Integer? || t.Enumeration? then
      d.IntegerDatum? && DenotesInteger(t.bits, v, d.number)
    else if t.Boolean? then
      d.BooleanDatum? && v == J.Bool(d.flag)
    else if t.Floating? then
      d.FloatingDatum? && DenotesFloat(v, d.float)
    else
      d.StringDatum? && v == J.Text(d.text) && Utf8.WellFormed(d.text)
  }

  // ----- The codecs read what is meant -----

  lemma {:induction false} LookupOwn(members: seq<J.Member>, i: nat)
    requires i < |members| && forall j :: 0 <= j < i ==> members[j].key != members[i].key
    ensures Lookup(members, members[i].key) == Some(members[i].value)
  {
    if i > 0 {
      assert members[0].key != members[i].key;
      forall j | 0 <= j < i - 1 ensures members[1..][j].key != members[1..][i - 1].key {
        assert members[1..][j] == members[j + 1];
      }
      LookupOwn(members[1..], i - 1);
    }
  }

  lemma {:induction false} LookupIsFirst(members: seq<J.Member>, name: Bytes)
    ensures Lookup(members, name).Some? <==> exists k :: FirstNamed(members, name, k)
    ensures forall k :: FirstNamed(members, name, k) ==> Lookup(members, name) == Some(members[k].value)
  {
    if k :| FirstNamed(members, name, k) {
      LookupOwn(members, k);
    }
    if Lookup(members, name).Some? {
      SomeFirst(members, name);
    }
  }

  lemma {:induction false} SomeFirst(members: seq<J.Member>, name: Bytes)
    requires exists i :: 0 <= i < |members| && members[i].key == name
    ensures exists k :: FirstNamed(members, name, k)
  {
    if members[0].key == name {
      assert FirstNamed(members, name, 0);
    } else {
      var i :| 0 <= i < |members| && members[i].key == name;
      assert members[1..][i - 1].key == name;
      SomeFirst(members[1..], name);
      var k :| FirstNamed(members[1..], name, k);
      forall j | 0 <= j < k + 1 ensures members[j].key != name {
        assert j > 0 ==> members[1..][j - 1].key != name;
      }
      assert FirstNamed(members, name, k + 1);
    }
  }

  /** A narrow integer codec reads exactly the numbers in its range. */
  lemma NarrowIsMeant(v: J.Value, n: int)
    ensures NarrowInteger(v) == Some(n) <==> NumberMeant(v, n as real)
  {}

  lemma IntegerIsMeant(bits: int, isSigned: bool, v: J.Value, n: int)
    ensures InRange(n, bits, isSigned) && DenotesInteger(bits, v, n) <==>
      IntegerDecodable(bits, isSigned, v) && DecodedInteger(bits, isSigned, v) == n
  {
    if bits == 64 && v.Text? {
      CanonicalWrites(v.text, n);
      if IntegerDecodable(bits, isSigned, v) && v.text == Decimal.Canonical(n) {
        Decimal.CanonicalIsInjective(n, DecodedInteger(bits, isSigned, v));
      }
    }
  }

  lemma FloatIsMeant(bits: int, v: J.Value, f: J.Number)
    ensures DenotesFloat(v, f) && (f.Finite? ==> FloatInRange(f.value, bits)) <==> DecodedFloat(bits, v) == Some(f)
  {
    assert MINUS_INFINITY == [45, 73, 110, 102, 105, 110, 105, 116, 121];
  }

  lemma ScalarIsMeant(t: Type, v: J.Value, d: Datum)
    requires !IsCompound(t)
    ensures Fits(d, t) && Denotes(t, v, d) <==> Decodable(t, v) && Decoded(t, v) == d
  {
    if IsInteger(t) {
      if d.IntegerDatum? {
        IntegerIsMeant(t.bits, t.isSigned, v, d.number);
      }
    } else if t.Floating? && d.FloatingDatum? {
      FloatIsMeant(t.bits, v, d.float);
    }
  }

  /** A compound value denotes part by part. */
  ghost predicate PartsDenote(t: Type, v: J.Value, d: Datum)
    requires IsCompound(t)
  {
    && d.Compound? && ShapeOk(t, v) && |d.parts| == ValueCount(t, v)
    && forall i :: 0 <= i < |d.parts| ==> Denotes(PartType(t, i), PartValue(t, v, i), d.parts[i])
  }

  lemma CompoundDenotes(t: Type, v: J.Value, d: Datum)
    requires IsCompound(t)
    ensures Fits(d, t) && Denotes(t, v, d) ==> PartsDenote(t, v, d)
    ensures PartsDenote(t, v, d) ==> Denotes(t, v, d)
  {
    if t.Struct? {
      StructPartsDenote(t, v, d);
    }
  }

  /** The first member of the field's name denotes the value. */
  ghost predicate MemberDenotes(f: Field, members: seq<J.Member>, d: Datum) {
    exists k :: FirstNamed(members, f.name, k) && Denotes(f.fieldType, members[k].value, d)
  }

  lemma MemberIsLookedUp(f: Field, members: seq<J.Member>, d: Datum)
    ensures MemberDenotes(f, members, d) <==>
      Lookup(members, f.name).Some? && Denotes(f.fieldType, Lookup(members, f.name).value, d)
  {
    LookupIsFirst(members, f.name);
  }

  lemma StructDenotes(t: Type, v: J.Value, d: Datum)
    requires t.Struct? && v.Object? && d.Compound? && |d.parts| == |t.fields| == |v.members|
    ensures Denotes(t, v, d) <==> forall i :: 0 <= i < |t.fields| ==> MemberDenotes(t.fields[i], v.members, d.parts[i])
  {
    if Denotes(t, v, d) {
      forall i | 0 <= i < |t.fields| ensures MemberDenotes(t.fields[i], v.members, d.parts[i]) {
        var k :|
          FirstNamed(v.members, t.fields[i].name, k) && Denotes(t.fields[i].fieldType, v.members[k].value, d.parts[i]);
      }
    }
    if forall i :: 0 <= i < |t.fields| ==> MemberDenotes(t.fields[i], v.members, d.parts[i]) {
      forall i | 0 <= i < |t.fields|
        ensures exists k :: FirstNamed(v.members, t.fields[i].name, k)
                            && Denotes(t.fields[i].fieldType, v.members[k].value, d.parts[i])
      {
        assert MemberDenotes(t.fields[i], v.members, d.parts[i]);
      }
      assert Denotes(t, v, d);
    }
  }

  lemma StructPartsDenote(t: Type, v: J.Value, d: Datum)
    requires t.Struct?
    ensures Denotes(t, v, d) <==> PartsDenote(t, v, d)
  {
    if v.Object? && d.Compound? && |d.parts| == |t.fields| == |v.members| {
      StructDenotes(t, v, d);
      forall i | 0 <= i < |t.fields|
        ensures MemberDenotes(t.fields[i], v.members, d.parts[i]) <==>
          && Lookup(v.members, t.fields[i].name).Some?
          && Denotes(PartType(t, i), Lookup(v.members, t.fields[i].name).value, d.parts[i])
      {
        MemberIsLookedUp(t.fields[i], v.members, d.parts[i]);
      }
      if ShapeOk(t, v) {
        assert forall i :: 0 <= i < |t.fields| ==> PartValue(t, v, i) == Lookup(v.members, t.fields[i].name).value;
      }
    }
  }

  /** The codecs decode exactly the JSON values that denote a value of the type, and to that value,
      so no JSON value denotes two. */
  lemma {:induction false} DecodedIsMeant(t: Type, v: J.Value, d: Datum)
    ensures Fits(d, t) && Denotes(t, v, d) <==> Decodable(t, v) && Decoded(t, v) == d
    decreases t
  {
    if !IsCompound(t) {
      ScalarIsMeant(t, v, d);
    } else {
      CompoundDenotes(t, v, d);
      if d.Compound? && ShapeOk(t, v) && |d.parts| == ValueCount(t, v) {
        forall i | 0 <= i < |d.parts|
          ensures Fits(d.parts[i], PartType(t, i)) && Denotes(PartType(t, i), PartValue(t, v, i), d.parts[i]) <==>
            Decodable(PartType(t, i), PartValue(t, v, i)) && Decoded(PartType(t, i), PartValue(t, v, i)) == d.parts[i]
        {
          DecodedIsMeant(PartType(t, i), PartValue(t, v, i), d.parts[i]);
        }
        PartwiseMeant(t, v, d);
      }
    }
  }

  lemma PartwiseMeant(t: Type, v: J.Value, d: Datum)
    requires IsCompound(t) && d.Compound? && ShapeOk(t, v) && |d.parts| == ValueCount(t, v)
    requires Fits(d, t) && Denotes(t, v, d) ==> PartsDenote(t, v, d)
    requires PartsDenote(t, v, d) ==> Denotes(t, v, d)
    requires forall i :: 0 <= i < |d.parts| ==>
      (Fits(d.parts[i], PartType(t, i)) && Denotes(PartType(t, i), PartValue(t, v, i), d.parts[i]) <==>
       Decodable(PartType(t, i), PartValue(t, v, i)) && Decoded(PartType(t, i), PartValue(t, v, i)) == d.parts[i])
    ensures Fits(d, t) && Denotes(t, v, d) <==> Decodable(t, v) && Decoded(t, v) == d
  {
    if Decodable(t, v) && Decoded(t, v) == d {
      assert forall i :: 0 <= i < |d.parts| ==> Decoded(PartType(t, i), PartValue(t, v, i)) == d.parts[i];
    }
    if Fits(d, t) && Denotes(t, v, d) {
      assert Decoded(t, v).parts == d.parts;
    }
  }

  // ----- Numbers, said once more -----

  /** Any JSON number decodes into a float with exactly its value, if and only if that is in range. */
  lemma FloatsTakeAnyNumber(t: Type, v: J.Value, r: real)
    requires t.Floating? && NumberMeant(v, r)
    ensures var max := ((Power2(24) - 1) * Power2(104)) as real;
      Decodable(t, v) <==> (t.bits == 32 ==> -max <= r <= max)
    ensures Decodable(t, v) ==> Decoded(t, v) == FloatingDatum(J.Finite(r))
  {
    LargestFloat();
    DecodedIsMeant(t, v, FloatingDatum(J.Finite(r)));
  }

  /** Any JSON number decodes into a narrow integer with exactly its value, if and only if it is
      integral and in range. */
  lemma IntegersTakeIntegralNumbers(t: Type, v: J.Value, r: real)
    requires IsInteger(t) && t.bits in {8, 16, 32} && NumberMeant(v, r)
    ensures Decodable(t, v) <==> exists n :: n as real == r && Holds(t.bits, t.isSigned, n)
    ensures Decodable(t, v) ==> Decoded(t, v).IntegerDatum? && Decoded(t, v).number as real == r
  {
    if n: int :| n as real == r && Holds(t.bits, t.isSigned, n) {
      RangeIsOfBits(t.bits, t.isSigned, n);
      DecodedIsMeant(t, v, IntegerDatum(n));
    }
    if Decodable(t, v) {
      var d := Decoded(t, v);
      DecodedIsMeant(t, v, d);
      RangeIsOfBits(t.bits, t.isSigned, d.number);
    }
  }
}
