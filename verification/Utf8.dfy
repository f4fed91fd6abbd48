/** UTF-8 as sections 3 and 4 of RFC 3629 define it, and the byte loop of `validUtf8`. */
module Utf8 {
  import opened Prelude

  /** A Unicode scalar value: a code point that is not a surrogate. */
  predicate Scalar(c: int) {
    0 <= c <= 0x10FFFF && !(0xD800 <= c <= 0xDFFF)
  }

  /** The table of section 3. */
  function EncodeScalar(c: int): Bytes
    requires Scalar(c)
  {
    if c < 0x80 then [c as byte]
    else if c < 0x800 then [(0xC0 + c / 64) as byte, Tail(c)]
    else if c < 0x10000 then [(0xE0 + c / 4096) as byte, Tail(c / 64), Tail(c)]
    else [(0xF0 + c / 262144) as byte, Tail(c / 4096), Tail(c / 64), Tail(c)]
  }

  function Tail(c: int): byte {
    (0x80 + c % 64) as byte
  }

  ghost predicate Scalars(cs: seq<int>) {
    forall i :: 0 <= i < |cs| ==> Scalar(cs[i])
  }

  function EncodeAll(cs: seq<int>): Bytes
    requires Scalars(cs)
  {
    if cs == [] then [] else EncodeScalar(cs[0]) + EncodeAll(cs[1..])
  }

  /** The bytes are a concatenation of encodings of scalar values. */
  ghost predicate WellFormed(text: Bytes) {
    exists cs :: Encodes(cs, text)
  }

  ghost predicate Encodes(cs: seq<int>, text: Bytes) {
    Scalars(cs) && EncodeAll(cs) == text
  }

  // ----- Reading one scalar value off the front -----

  predicate IsTail(b: byte) {
    0x80 <= b < 0xC0
  }

  predicate AllTails(text: Bytes) {
    forall i :: 0 <= i < |text| ==> IsTail(text[i])
  }

  /** Appends six bits per tail byte. */
  function Continue(value: nat, tails: Bytes): nat
    decreases |tails|
  {
    if tails == [] then value else Continue(value * 64 + tails[0] as int % 64, tails[1..])
  }

  /** What the lead byte announces: its payload, the number of tails and the least value. */
  datatype Lead = Ascii(value: nat) | Multi(value: nat, count: nat, minimum: nat) | Bad

  function LeadOf(first: byte): Lead {
    var b := first as int;
    if b < 0x80 then Ascii(b)
    else if 0xC2 <= b <= 0xDF then Multi(b % 32, 1, 0x80)
    else if 0xE0 <= b <= 0xEF then Multi(b % 16, 2, 0x800)
    else if 0xF0 <= b <= 0xF4 then Multi(b % 8, 3, 0x10000)
    else Bad
  }

  /** The number of bytes that belong to the lead byte, itself included. */
  function Width(first: byte): nat {
    if LeadOf(first).Multi? then LeadOf(first).count + 1 else 1
  }

  /** The scalar value whose encoding starts the text, if there is one. */
  function Leading(text: Bytes): (r: Option<int>)
    requires text != []
    ensures r.Some? ==> Scalar(r.value) && Width(text[0]) <= |text|
  {
    match LeadOf(text[0])
    case Ascii(value) => Some(value)
    case Bad => None
    case Multi(value, count, minimum) =>
      if count > |text| - 1 || !AllTails(text[1..1 + count]) then None
      else
        var c := Continue(value, text[1..1 + count]);
        if c < minimum || !Scalar(c) then None else Some(c)
  }

  lemma ContinueOne(value: nat, a: byte)
    ensures Continue(value, [a]) == value * 64 + a as int % 64
  {
    assert [a][1..] == [];
  }

  lemma ContinueTwo(value: nat, a: byte, b: byte)
    ensures Continue(value, [a, b]) == (value * 64 + a as int % 64) * 64 + b as int % 64
  {
    assert [a, b][1..] == [b];
    ContinueOne(value * 64 + a as int % 64, b);
  }

  lemma ContinueThree(value: nat, a: byte, b: byte, c: byte)
    ensures Continue(value, [a, b, c]) == ((value * 64 + a as int % 64) * 64 + b as int % 64) * 64 + c as int % 64
  {
    assert [a, b, c][1..] == [b, c];
    ContinueTwo(value * 64 + a as int % 64, b, c);
  }

  /** Six-bit digits. */
  lemma Split(c: int, high: nat, low: nat)
    requires c == high * 64 + low && low < 64
    ensures c / 64 == high && c % 64 == low
  {}

  lemma TailPayload(c: int)
    ensures Tail(c) as int % 64 == c % 64 && IsTail(Tail(c))
  {}

  lemma TailOf(b: byte, c: int)
    requires IsTail(b) && c % 64 == b as int % 64
    ensures Tail(c) == b
  {}

  lemma Nested(c: nat)
    ensures c / 4096 == c / 64 / 64 && c / 262144 == c / 64 / 64 / 64
  {}

  lemma LeadsTwo(text: Bytes, c: int)
    requires 0x80 <= c < 0x800 && EncodeScalar(c) <= text
    ensures Leading(text) == Some(c)
  {
    TailPayload(c);
    assert text[0] == (0xC0 + c / 64) as byte && text[1..2] == [Tail(c)];
    ContinueOne(c / 64, Tail(c));
  }

  lemma LeadsThree(text: Bytes, c: int)
    requires 0x800 <= c < 0x10000 && Scalar(c) && EncodeScalar(c) <= text
    ensures Leading(text) == Some(c)
  {
    TailPayload(c);
    TailPayload(c / 64);
    Nested(c);
    assert text[0] == EncodeScalar(c)[0];
    assert text[1..3] == [Tail(c / 64), Tail(c)];
    ContinueTwo(c / 4096, Tail(c / 64), Tail(c));
  }

  lemma LeadsFour(text: Bytes, c: int)
    requires 0x10000 <= c && Scalar(c) && EncodeScalar(c) <= text
    ensures Leading(text) == Some(c)
  {
    TailPayload(c);
    TailPayload(c / 64);
    TailPayload(c / 4096);
    Nested(c);
    assert text[0] == EncodeScalar(c)[0];
    assert text[1..4] == [Tail(c / 4096), Tail(c / 64), Tail(c)];
    ContinueThree(c / 262144, Tail(c / 4096), Tail(c / 64), Tail(c));
  }

  /** An encoding at the front is what Leading reads. */
  lemma EncodingLeads(text: Bytes, c: int)
    requires Scalar(c) && EncodeScalar(c) <= text
    ensures Leading(text) == Some(c)
  {
    if 0x80 <= c < 0x800 {
      LeadsTwo(text, c);
    } else if 0x800 <= c < 0x10000 {
      LeadsThree(text, c);
    } else if 0x10000 <= c {
      LeadsFour(text, c);
    } else {
      assert text[0] == EncodeScalar(c)[0];
    }
  }

  lemma EncodesTwo(text: Bytes)
    requires text != [] && Leading(text).Some? && Width(text[0]) == 2
    ensures EncodeScalar(Leading(text).value) == text[..2]
  {
    var value, c := LeadOf(text[0]).value, Leading(text).value;
    assert text[1..2] == [text[1]] && IsTail(text[1..2][0]);
    ContinueOne(value, text[1]);
    Split(c, value, text[1] as int % 64);
    TailOf(text[1], c);
  }

  lemma EncodesThree(text: Bytes)
    requires text != [] && Leading(text).Some? && Width(text[0]) == 3
    ensures EncodeScalar(Leading(text).value) == text[..3]
  {
    var value, c := LeadOf(text[0]).value, Leading(text).value;
    assert text[1..3] == [text[1], text[2]] && IsTail(text[1..3][0]) && IsTail(text[1..3][1]);
    ContinueTwo(value, text[1], text[2]);
    Split(c, value * 64 + text[1] as int % 64, text[2] as int % 64);
    Split(c / 64, value, text[1] as int % 64);
    Nested(c);
    TailOf(text[1], c / 64);
    TailOf(text[2], c);
  }

  lemma EncodesFour(text: Bytes)
    requires text != [] && Leading(text).Some? && Width(text[0]) == 4
    ensures EncodeScalar(Leading(text).value) == text[..4]
  {
    var value, c := LeadOf(text[0]).value, Leading(text).value;
    assert text[1..4] == [text[1], text[2], text[3]];
    assert IsTail(text[1..4][0]) && IsTail(text[1..4][1]) && IsTail(text[1..4][2]);
    ContinueThree(value, text[1], text[2], text[3]);
    Split(c, (value * 64 + text[1] as int % 64) * 64 + text[2] as int % 64, text[3] as int % 64);
    Split(c / 64, value * 64 + text[1] as int % 64, text[2] as int % 64);
    Split(c / 64 / 64, value, text[1] as int % 64);
    Nested(c);
    TailOf(text[1], c / 4096);
    TailOf(text[2], c / 64);
    TailOf(text[3], c);
  }

  /** What Leading reads is at the front. */
  lemma LeadingEncodes(text: Bytes)
    requires text != [] && Leading(text).Some?
    ensures EncodeScalar(Leading(text).value) == text[..Width(text[0])]
  {
    match Width(text[0])
    case 2 => EncodesTwo(text);
    case 3 => EncodesThree(text);
    case 4 => EncodesFour(text);
    case _ =>
  }

  /** A text is well formed exactly when it starts with an encoding and the rest is well formed. */
  lemma WellFormedStep(text: Bytes)
    requires text != []
    ensures WellFormed(text) <==>
      Leading(text).Some? && WellFormed(text[Width(text[0])..])
  {
    if cs :| Encodes(cs, text) {
      EncodingLeads(text, cs[0]);
      LeadingEncodes(text);
      assert text[|EncodeScalar(cs[0])|..] == EncodeAll(cs[1..]);
      assert Encodes(cs[1..], text[|EncodeScalar(cs[0])|..]);
    }
    if Leading(text).Some? {
      LeadingEncodes(text);
      var c := Leading(text).value;
      var rest := text[Width(text[0])..];
      if cs :| Encodes(cs, rest) {
        assert ([c] + cs)[1..] == cs;
        assert Encodes([c] + cs, text);
      }
    }
  }

  lemma {:induction false} AsciiIsWellFormed(text: Bytes)
    requires forall i :: 0 <= i < |text| ==> text[i] < 0x80
    ensures WellFormed(text)
  {
    if text == [] {
      assert Encodes([], []);
    } else {
      AsciiIsWellFormed(text[1..]);
      WellFormedStep(text);
    }
  }

  /** The inner loop of `validUtf8`: appends the payload of `count` tail bytes. */
  method ReadTails(text: Bytes, start: nat, lead: nat, total: nat) returns (ok: bool, value: nat)
    requires start + total <= |text|
    ensures ok <==> AllTails(text[start..start + total])
    ensures ok ==> value == Continue(lead, text[start..start + total])
  {
    ghost var tails := text[start..start + total];
    var index, count := start, total;
    value := lead;
    while count > 0
      invariant 0 <= count <= total && index == start + total - count
      invariant Continue(value, text[index..index + count]) == Continue(lead, tails)
      invariant forall i :: 0 <= i < index - start ==> IsTail(tails[i])
    {
      assert text[index..index + count][1..] == text[index + 1..index + count];
      var next := text[index];
      assert tails[index - start] == next;
      index, count := index + 1, count - 1;
      if !IsTail(next) {
        return false, value;
      }
      value := value * 64 + next as int % 64;
    }
    assert text[index..index + 0] == [];
    ok := true;
  }

  /** `validUtf8`.  The masks of the original are remainders here: the low five, four or three
      bits of the lead byte, the low six of a tail. */
  method ValidUtf8(text: Bytes) returns (ok: bool)
    ensures ok <==> WellFormed(text)
  {
    var index := 0;
    assert text[0..] == text;
    while index < |text|
      invariant 0 <= index <= |text|
      invariant WellFormed(text) <==> WellFormed(text[index..])
    {
      ghost var rest := text[index..];
      WellFormedStep(rest);
      var first := text[index] as int;
      index := index + 1;
      if first < 0x80 {
        assert rest[1..] == text[index..];
        continue;
      }
      var value, count, minimum: nat;
      if 0xC2 <= first <= 0xDF {
        value, count, minimum := first % 32, 1, 0x80;
      } else if 0xE0 <= first <= 0xEF {
        value, count, minimum := first % 16, 2, 0x800;
      } else if 0xF0 <= first <= 0xF4 {
        value, count, minimum := first % 8, 3, 0x10000;
      } else {
        return false;
      }
      if count > |text| - index {
        return false;
      }
      assert text[index..index + count] == rest[1..1 + count];
      var tails;
      tails, value := ReadTails(text, index, value, count);
      index := index + count;
      if !tails || value < minimum || value > 0x10FFFF || 0xD800 <= value <= 0xDFFF {
        return false;
      }
      assert rest[1 + count..] == text[index..];
    }
    assert text[index..] == [];
    assert Encodes([], []);
    return true;
  }
}
