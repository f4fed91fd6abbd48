/** Compact JSON text, the chunked serializer, and why encoded values always fit it. */
module Serialization {
  import opened Prelude
  import opened Codecs
  import opened CodecRuns
  import Decimal
  import Utf8
  import OutputCheck
  import J = Json
  import C = CodecContexts

  // ----- Compact text: sections 2, 4, 5 and 7 of RFC 8259 -----

  function LowerHex(n: nat): byte
    requires n < 16
  {
    (if n < 10 then 48 + n else 87 + n) as byte
  }

  function ShortEscape(b: byte): Option<byte> {
    if b == 8 then Some(98) else if b == 9 then Some(116) else if b == 10 then Some(110)
    else if b == 12 then Some(102) else if b == 13 then Some(114)
    else if b == 34 || b == 92 then Some(b)
    else None
  }

  function Escape(b: byte): Bytes {
    if ShortEscape(b).Some? then [92, ShortEscape(b).value]
    else if b < 0x20 then [92, 117, 48, 48, LowerHex(b as nat / 16), LowerHex(b as nat % 16)]
    else [b]
  }

  function EscapeFrom(text: Bytes, n: nat): Bytes
    requires n <= |text|
    decreases |text| - n
  {
    if n == |text| then [] else Escape(text[n]) + EscapeFrom(text, n + 1)
  }

  function Quoted(text: Bytes): Bytes {
    [34] + EscapeFrom(text, 0) + [34]
  }

  const NULL: Bytes := [110, 117, 108, 108]
  const TRUE: Bytes := [116, 114, 117, 101]
  const FALSE: Bytes := [102, 97, 108, 115, 101]

  /** The text of a value; `number` writes the doubles. */
  function Compact(v: J.Value, number: J.Number -> Bytes): Bytes
    decreases v, 1, 0
  {
    match v
    case Null => NULL
    case Bool(flag) => if flag then TRUE else FALSE
    case Int64(n) => Decimal.Canonical(n)
    case Uint64(n) => Decimal.Canonical(n)
    case Double(f) => number(f)
    case Text(text) => Quoted(text)
    case Array(_) => [91] + CompactFrom(v, 0, number) + [93]
    case Object(_) => [123] + CompactFrom(v, 0, number) + [125]
  }

  /** The children from the n-th on, each after a comma unless it is the first. */
  function CompactFrom(v: J.Value, n: nat, number: J.Number -> Bytes): Bytes
    requires n <= J.Count(v)
    decreases v, 0, J.Count(v) - n
  {
    if n == J.Count(v) then []
    else
      (if n == 0 then [] else [44]) + KeyText(v, n) + Compact(J.Child(v, n), number) + CompactFrom(v, n + 1, number)
  }

  function KeyText(v: J.Value, n: nat): Bytes
    requires n < J.Count(v)
  {
    if v.Object? then Quoted(v.members[n].key) + [58] else []
  }

  // ----- The charge and the text -----

  predicate FloatFree(t: Type)
    decreases t
  {
    match t
    case Floating(_) => false
    case Vector(element) => FloatFree(element)
    case FixedArray(element, _) => FloatFree(element)
    case Sequence(element, _) => FloatFree(element)
    case Struct(fields) => forall i :: 0 <= i < |fields| ==> FloatFree(fields[i].fieldType)
    case _ => true
  }

  /** The control characters that the charge takes for six bytes and the text writes in two. */
  function Shortened(text: Bytes, n: nat): nat
    requires n <= |text|
    decreases |text| - n
  {
    if n == |text| then 0
    else (if text[n] in {8, 9, 10, 12, 13} then 1 else 0) + Shortened(text, n + 1)
  }

  lemma {:induction false} EscapedSizeIs(text: Bytes, n: nat)
    requires n <= |text|
    ensures C.EscapedFrom(text, n) == |EscapeFrom(text, n)| + 4 * Shortened(text, n)
    decreases |text| - n
  {
    if n < |text| {
      EscapedSizeIs(text, n + 1);
    }
  }

  lemma {:induction false} PlainIsUnescaped(text: Bytes, n: nat)
    requires n <= |text| && forall i :: 0 <= i < |text| ==> Decimal.Plain(text[i])
    ensures |EscapeFrom(text, n)| == |text| - n
    decreases |text| - n
  {
    if n < |text| {
      PlainIsUnescaped(text, n + 1);
    }
  }

  /** By how much the charge exceeds the text: a reflected compound that is not empty is charged one
      comma too many, each shortened control character four bytes too many, and every float one byte. */
  ghost function Excess(t: Type, d: Datum, number: J.Number -> Bytes): int
    requires Fits(d, t)
    decreases t, 1, 0
  {
    if IsCompound(t) then
      (if (t.Sequence? || t.Struct?) && d.parts != [] then 1 else 0) + ExcessFrom(t, d, 0, number)
    else if t.String? then 4 * Shortened(d.text, 0)
    else if t.Floating? then
      1 - (match d.float
           case NotANumber => 5
           case Infinite(negative) => if negative then 11 else 10
           case Finite(_) => |number(d.float)|)
    else 0
  }

  /** The same for the parts from the n-th on, with their names. */
  ghost function ExcessFrom(t: Type, d: Datum, n: nat, number: J.Number -> Bytes): int
    requires IsCompound(t) && Fits(d, t) && n <= |d.parts|
    decreases t, 0, |d.parts| - n
  {
    if n == |d.parts| then 0
    else
      (if t.Struct? then 4 * Shortened(t.fields[n].name, 0) else 0)
      + Excess(PartType(t, n), d.parts[n], number) + ExcessFrom(t, d, n + 1, number)
  }

  lemma NonFiniteText(f: J.Number)
    requires !f.Finite?
    ensures EncodedFloat(f).Text? && |Quoted(EncodedFloat(f).text)| == if f.NotANumber? then 5 else if f.negative then 11 else 10
  {
    assert |MINUS_INFINITY| == 9 && |INFINITY| == 8 && |NAN| == 3;
    var text := EncodedFloat(f).text;
    assert forall i :: 0 <= i < |text| ==> Decimal.Plain(text[i]);
    PlainIsUnescaped(text, 0);
  }

  lemma IntegerExcess(t: Type, d: Datum, number: J.Number -> Bytes)
    requires IsInteger(t) && Fits(d, t)
    ensures EncodeCost(t, d) == |Compact(Encoded(t, d), number)|
  {
    Decimal.CanonicalIsPlain(d.number);
    PlainIsUnescaped(Decimal.Canonical(d.number), 0);
  }

  lemma FloatExcess(t: Type, d: Datum, number: J.Number -> Bytes)
    requires t.Floating? && Fits(d, t)
    ensures EncodeCost(t, d) == |Compact(Encoded(t, d), number)| + Excess(t, d, number)
  {
    if !d.float.Finite? {
      NonFiniteText(d.float);
    }
  }

  lemma ScalarExcess(t: Type, d: Datum, number: J.Number -> Bytes)
    requires !IsCompound(t) && Fits(d, t)
    ensures EncodeCost(t, d) == |Compact(Encoded(t, d), number)| + Excess(t, d, number)
  {
    if IsInteger(t) {
      IntegerExcess(t, d, number);
    } else if t.Floating? {
      FloatExcess(t, d, number);
    } else if t.String? {
      EscapedSizeIs(d.text, 0);
    }
  }

  lemma ChildOfEncoded(t: Type, d: Datum, n: nat)
    requires IsCompound(t) && Fits(d, t) && n < |d.parts|
    ensures
      var v := Encoded(t, d);
      && J.Container(v) && J.Count(v) == |d.parts| && J.Child(v, n) == Encoded(PartType(t, n), d.parts[n])
      && (v.Object? <==> t.Struct?) && (t.Struct? ==> v.members[n].key == t.fields[n].name)
  {}

  /** The parts of a compound value, written one by one. */
  ghost predicate Spelled(t: Type, d: Datum, v: J.Value)
    requires IsCompound(t) && Fits(d, t)
  {
    && J.Container(v) && J.Count(v) == |d.parts| && (v.Object? <==> t.Struct?)
    && forall n :: 0 <= n < |d.parts| ==>
         J.Child(v, n) == Encoded(PartType(t, n), d.parts[n]) && (t.Struct? ==> v.members[n].key == t.fields[n].name)
  }

  /** What the parts from the n-th on are charged beyond their text and their excess. */
  ghost function Balance(t: Type, d: Datum, v: J.Value, n: nat, number: J.Number -> Bytes): int
    requires IsCompound(t) && Fits(d, t) && Spelled(t, d, v) && n <= |d.parts|
  {
    PartsCost(t, d, n) - |CompactFrom(v, n, number)| - ExcessFrom(t, d, n, number)
  }

  /** One part pays for itself, but for the comma in front of it. */
  lemma PartBalance(t: Type, d: Datum, v: J.Value, n: nat, number: J.Number -> Bytes)
    requires IsCompound(t) && Fits(d, t) && Spelled(t, d, v) && n < |d.parts|
    requires var p, x := PartType(t, n), d.parts[n];
      EncodeCost(p, x) == |Compact(Encoded(p, x), number)| + Excess(p, x, number)
    ensures Balance(t, d, v, n, number) ==
      Balance(t, d, v, n + 1, number) + (if t.Struct? then 1 else 0) - (if n == 0 then 0 else 1)
  {
    PartsLeft(t, d, n);
    if t.Struct? {
      EscapedSizeIs(t.fields[n].name, 0);
    }
  }

  lemma NothingLeft(t: Type, d: Datum, v: J.Value, number: J.Number -> Bytes)
    requires IsCompound(t) && Fits(d, t) && Spelled(t, d, v)
    ensures Balance(t, d, v, |d.parts|, number) == 0
  {}

  /** Parts behind a comma: only a structure's charges pay for commas. */
  lemma {:induction false} TailBalance(t: Type, d: Datum, v: J.Value, n: nat, number: J.Number -> Bytes)
    requires IsCompound(t) && Fits(d, t) && Spelled(t, d, v) && 1 <= n <= |d.parts|
    ensures Balance(t, d, v, n, number) == if t.Struct? then 0 else n - |d.parts|
    decreases t, 0, |d.parts| - n
  {
    if n == |d.parts| {
      NothingLeft(t, d, v, number);
    } else {
      CostIsTextAndExcess(PartType(t, n), d.parts[n], number);
      PartBalance(t, d, v, n, number);
      TailBalance(t, d, v, n + 1, number);
    }
  }

  lemma {:induction false} WholeBalance(t: Type, d: Datum, v: J.Value, number: J.Number -> Bytes)
    requires IsCompound(t) && Fits(d, t) && Spelled(t, d, v)
    ensures Balance(t, d, v, 0, number) == if d.parts == [] then 0 else if t.Struct? then 1 else 1 - |d.parts|
    decreases t, 1
  {
    if d.parts == [] {
      NothingLeft(t, d, v, number);
    } else {
      CostIsTextAndExcess(PartType(t, 0), d.parts[0], number);
      PartBalance(t, d, v, 0, number);
      TailBalance(t, d, v, 1, number);
    }
  }

  /** What a codec charges is the length of the compact text and the excess, to the byte. */
  lemma {:induction false} CostIsTextAndExcess(t: Type, d: Datum, number: J.Number -> Bytes)
    requires Fits(d, t)
    ensures EncodeCost(t, d) == |Compact(Encoded(t, d), number)| + Excess(t, d, number)
    decreases t, 2
  {
    if IsCompound(t) {
      assert Spelled(t, d, Encoded(t, d));
      WholeBalance(t, d, Encoded(t, d), number);
    } else {
      ScalarExcess(t, d, number);
    }
  }

  lemma {:induction false} FloatFreeExcess(t: Type, d: Datum, number: J.Number -> Bytes)
    requires FloatFree(t) && Fits(d, t)
    ensures Excess(t, d, number) >= 0
    decreases t, 1, 0
  {
    if IsCompound(t) {
      FloatFreePartsExcess(t, d, 0, number);
    }
  }

  lemma {:induction false} FloatFreePartsExcess(t: Type, d: Datum, n: nat, number: J.Number -> Bytes)
    requires IsCompound(t) && FloatFree(t) && Fits(d, t) && n <= |d.parts|
    ensures ExcessFrom(t, d, n, number) >= 0
    decreases t, 0, |d.parts| - n
  {
    if n < |d.parts| {
      FloatFreeExcess(PartType(t, n), d.parts[n], number);
      FloatFreePartsExcess(t, d, n + 1, number);
    }
  }

  /** A successful encoding has charged at least the length of its compact text. */
  lemma CostCoversText(t: Type, d: Datum, number: J.Number -> Bytes)
    requires FloatFree(t) && Fits(d, t)
    ensures |Compact(Encoded(t, d), number)| <= EncodeCost(t, d)
  {
    CostIsTextAndExcess(t, d, number);
    FloatFreeExcess(t, d, number);
  }

  /** Floats are the exception: a non-finite one is charged one byte and written as a string. */
  lemma NonFiniteIsUndercharged(t: Type, d: Datum, number: J.Number -> Bytes)
    requires t.Floating? && Fits(d, t) && !d.float.Finite?
    ensures |Compact(Encoded(t, d), number)| > EncodeCost(t, d) + 3
  {
    CostIsTextAndExcess(t, d, number);
  }

  // ----- An encoded value passes the output check -----

  lemma {:induction false} EncodedIsClean(t: Type, d: Datum)
    requires TypeOk(t) && Fits(d, t) && Encodable(t, d)
    ensures J.Clean(Encoded(t, d))
    decreases t
  {
    if IsCompound(t) {
      forall i | 0 <= i < |d.parts| ensures J.Clean(Encoded(PartType(t, i), d.parts[i])) {
        EncodedIsClean(PartType(t, i), d.parts[i]);
      }
    } else {
      Utf8.AsciiIsWellFormed(NAN);
      Utf8.AsciiIsWellFormed(INFINITY);
      Utf8.AsciiIsWellFormed(MINUS_INFINITY);
      if IsInteger(t) {
        Decimal.CanonicalIsPlain(d.number);
        Utf8.AsciiIsWellFormed(Decimal.Canonical(d.number));
      }
    }
  }

  lemma {:induction false} EncodedNesting(t: Type, d: Datum)
    requires Fits(d, t)
    ensures J.Nesting(Encoded(t, d)) == EncodeDepth(t, d)
    decreases t, 1, 0
  {
    if IsCompound(t) {
      EncodedNestingFrom(t, d, 0);
    }
  }

  lemma {:induction false} EncodedNestingFrom(t: Type, d: Datum, n: nat)
    requires IsCompound(t) && Fits(d, t) && n <= |d.parts| == J.Count(Encoded(t, d))
    ensures J.NestingBelow(Encoded(t, d), n) == PartsDepth(t, d, n)
    decreases t, 0, |d.parts| - n
  {
    if n < |d.parts| {
      ChildOfEncoded(t, d, n);
      EncodedNesting(PartType(t, n), d.parts[n]);
      EncodedNestingFrom(t, d, n + 1);
    }
  }

  // ----- The serializer -----

  const CHUNK: nat := 4096

  /** Text leaves the serializer in chunks, and the budget is tested before each chunk is appended. */
  method AppendChunks(text: Bytes, maxBytes: nat) returns (r: Option<Bytes>)
    ensures r == if |text| <= maxBytes then Some(text) else None
  {
    var staged: Bytes := [];
    while |staged| < |text|
      invariant |staged| <= |text| && |staged| <= maxBytes && staged == text[..|staged|]
    {
      var size := if |text| - |staged| < CHUNK then |text| - |staged| else CHUNK;
      if size > maxBytes - |staged| {
        return None;
      }
      staged := staged + text[|staged|..|staged| + size];
    }
    assert text[..|text|] == text;
    return Some(staged);
  }

  /** `serializeJson`. */
  method SerializeJson(v: J.Value, limits: C.Limits, number: J.Number -> Bytes) returns (r: Result<Bytes>)
    ensures r.Ok? <==>
      J.Clean(v) && J.Nesting(v) <= limits.maxDepth && |Compact(v, number)| <= limits.maxBytes
    ensures r.Ok? ==> r.value == Compact(v, number)
    ensures r.Failed? ==>
      Some(r.code) == (if J.Clean(v) && J.Nesting(v) <= limits.maxDepth then Some(J.DocumentLimit)
                       else J.First(J.Preorder(v, 0), limits.maxDepth))
  {
    J.AcceptedIff(v, 0, limits.maxDepth);
    var error := OutputCheck.ValidateOutput(v, limits.maxDepth);
    if error.Some? {
      return Failed(error.value);
    }
    var text := AppendChunks(Compact(v, number), limits.maxBytes);
    return if text.Some? then Ok(text.value) else Failed(J.DocumentLimit);
  }

  /** Whatever a float-free codec encodes within some limits, the serializer writes within the same. */
  method EncodeThenSerialize(limits: C.Limits, t: Type, d: Datum, number: J.Number -> Bytes)
    returns (encoded: Result<J.Value>, text: Result<Bytes>)
    requires TypeOk(t) && FloatFree(t) && Fits(d, t)
    ensures encoded.Ok? <==> EncodeFits(t, d, limits.maxDepth, limits.maxBytes)
    ensures encoded.Ok? ==> text == Ok(Compact(encoded.value, number))
  {
    var c := new C.CodecContext(limits);
    encoded := Encode(c, t, d);
    if encoded.Failed? {
      return encoded, Failed(encoded.code);
    }
    EncodedIsClean(t, d);
    EncodedNesting(t, d);
    CostCoversText(t, d, number);
    text := SerializeJson(encoded.value, limits, number);
  }
}
