/** What the typed and the reflected codecs make of a value: its JSON form, the bytes charged for
    it and the depth entered, in both directions. */
module Codecs {
  import opened Prelude
  import Decimal
  import Utf8
  import J = Json
  import C = CodecContexts

  datatype Type =
    | Integer(bits: int, isSigned: bool)
    | Boolean
    | Floating(bits: int)
    | String
    | Enumeration(bits: int, isSigned: bool)
    | Vector(element: Type)                          // std::vector
    | FixedArray(element: Type, size: nat)           // std::array
    | Sequence(element: Type, length: Option<nat>)   // reflected sequence
    | Struct(fields: seq<Field>)                     // reflected structure

  datatype Field = Field(name: Bytes, fieldType: Type)

  /** A value of a component; the parts of a structure stand in the order of its fields. */
  datatype Datum =
    | IntegerDatum(number: int)
    | BooleanDatum(flag: bool)
    | FloatingDatum(float: J.Number)
    | StringDatum(text: Bytes)
    | Compound(parts: seq<Datum>)

  const INT_MAX: nat := 0x7FFF_FFFF
  const FLT_MAX: real := 340282346638528859811704183484516925440.0

  const NAN: Bytes := [78, 97, 78]
  const INFINITY: Bytes := [73, 110, 102, 105, 110, 105, 116, 121]
  const MINUS_INFINITY: Bytes := [45] + INFINITY

  function High(bits: int, isSigned: bool): int {
    match bits
    case 8 => if isSigned then 0x7F else 0xFF
    case 16 => if isSigned then 0x7FFF else 0xFFFF
    case 32 => if isSigned then 0x7FFF_FFFF else 0xFFFF_FFFF
    case _ => if isSigned then 0x7FFF_FFFF_FFFF_FFFF else 0xFFFF_FFFF_FFFF_FFFF
  }

  function Low(bits: int, isSigned: bool): int {
    if isSigned then -High(bits, true) - 1 else 0
  }

  predicate InRange(n: int, bits: int, isSigned: bool) {
    Low(bits, isSigned) <= n <= High(bits, isSigned)
  }

  predicate FloatInRange(r: real, bits: int) {
    bits == 32 ==> -FLT_MAX <= r <= FLT_MAX
  }

  // ----- Compound types -----

  predicate IsCompound(t: Type) {
    t.Vector? || t.FixedArray? || t.Sequence? || t.Struct?
  }

  predicate IsInteger(t: Type) {
    t.Integer? || t.Enumeration?
  }

  /** How many parts a value of the type can have. */
  predicate PartCountOk(t: Type, n: nat) {
    match t
    case FixedArray(_, size) => n == size
    case Sequence(_, _) => n <= INT_MAX
    case Struct(fields) => n == |fields|
    case _ => true
  }

  function PartType(t: Type, i: nat): (p: Type)
    requires IsCompound(t) && (t.Struct? ==> i < |t.fields|)
    ensures p < t
  {
    if t.Struct? then t.fields[i].fieldType else t.element
  }

  /** Types for which codecs exist: a reflected structure has valid, distinct member names. */
  ghost predicate TypeOk(t: Type)
    decreases t
  {
    match t
    case Integer(bits, _) => bits in {8, 16, 32, 64}
    case Enumeration(bits, _) => bits in {8, 16, 32, 64}
    case Floating(bits) => bits in {32, 64}
    case Vector(element) => TypeOk(element)
    case FixedArray(element, _) => TypeOk(element)
    case Sequence(element, _) => TypeOk(element)
    case Struct(fields) =>
      && (forall i :: 0 <= i < |fields| ==> Utf8.WellFormed(fields[i].name) && TypeOk(fields[i].fieldType))
      && (forall i, j :: 0 <= i < j < |fields| ==> fields[i].name != fields[j].name)
    case _ => true
  }

  /** The values that a data source of the type can hold. */
  ghost predicate Fits(d: Datum, t: Type)
    decreases t
  {
    if IsCompound(t) then
      && d.Compound? && PartCountOk(t, |d.parts|)
      && forall i :: 0 <= i < |d.parts| ==> Fits(d.parts[i], PartType(t, i))
    else if IsInteger(t) then d.IntegerDatum? && InRange(d.number, t.bits, t.isSigned)
    else if t.Boolean? then d.BooleanDatum?
    else if t.String? then d.StringDatum?
    else d.FloatingDatum? && (d.float.Finite? ==> FloatInRange(d.float.value, t.bits))
  }

  // ----- Encoding -----

  /** The codec refuses only invalid UTF-8 and a fixed sequence of the wrong length. */
  ghost predicate Encodable(t: Type, d: Datum)
    requires Fits(d, t)
    decreases t
  {
    if IsCompound(t) then
      && (t.Sequence? && t.length.Some? ==> |d.parts| == t.length.value)
      && forall i :: 0 <= i < |d.parts| ==> Encodable(PartType(t, i), d.parts[i])
    else t.String? ==> Utf8.WellFormed(d.text)
  }

  /** The charge before the parts. */
  function OpenCost(t: Type, n: nat): nat
    requires IsCompound(t)
  {
    match t
    case Vector(_) => 2 + (if n == 0 then 0 else n - 1)
    case FixedArray(_, size) => if size > 0 then size + 1 else 2
    case Sequence(_, _) => 2 + n
    case Struct(_) => 2
  }

  /** The charge for a member's name, colon and comma. */
  function PartOverhead(t: Type, i: nat): nat
    requires IsCompound(t) && (t.Struct? ==> i < |t.fields|)
  {
    if t.Struct? then C.StringCost(t.fields[i].name) + 2 else 0
  }

  ghost function EncodeCost(t: Type, d: Datum): nat
    requires Fits(d, t)
    decreases t, 1, 0
  {
    if IsCompound(t) then OpenCost(t, |d.parts|) + PartsCost(t, d, 0)
    else if IsInteger(t) then |Decimal.Canonical(d.number)| + (if t.bits == 64 then 2 else 0)
    else if t.Boolean? then if d.flag then 4 else 5
    else if t.String? then C.StringCost(d.text)
    else 1
  }

  /** The charge for the parts from the n-th on. */
  ghost function PartsCost(t: Type, d: Datum, n: nat): nat
    requires IsCompound(t) && Fits(d, t) && n <= |d.parts|
    decreases t, 0, |d.parts| - n
  {
    if n == |d.parts| then 0
    else PartOverhead(t, n) + EncodeCost(PartType(t, n), d.parts[n]) + PartsCost(t, d, n + 1)
  }

  /** The depth entered. */
  ghost function EncodeDepth(t: Type, d: Datum): nat
    requires Fits(d, t)
    decreases t, 1, 0
  {
    if IsCompound(t) then 1 + PartsDepth(t, d, 0) else 0
  }

  ghost function PartsDepth(t: Type, d: Datum, n: nat): nat
    requires IsCompound(t) && Fits(d, t) && n <= |d.parts|
    decreases t, 0, |d.parts| - n
  {
    if n == |d.parts| then 0 else J.Max(EncodeDepth(PartType(t, n), d.parts[n]), PartsDepth(t, d, n + 1))
  }

  ghost function EncodedInteger(bits: int, isSigned: bool, n: int): J.Value
    requires InRange(n, bits, isSigned)
  {
    if bits == 64 then J.Text(Decimal.Canonical(n))
    else if isSigned then J.Int64(n)
    else J.Uint64(n)
  }

  function EncodedFloat(f: J.Number): J.Value {
    match f
    case NotANumber => J.Text(NAN)
    case Infinite(negative) => J.Text(if negative then MINUS_INFINITY else INFINITY)
    case Finite(_) => J.Double(f)
  }

  /** The JSON form. */
  ghost function Encoded(t: Type, d: Datum): J.Value
    requires Fits(d, t)
    decreases t
  {
    if t.Struct? then
      J.Object(seq(|d.parts|, i requires 0 <= i < |d.parts| =>
                     J.Member(t.fields[i].name, Encoded(t.fields[i].fieldType, d.parts[i]))))
    else if IsCompound(t) then
      J.Array(seq(|d.parts|, i requires 0 <= i < |d.parts| => Encoded(t.element, d.parts[i])))
    else if IsInteger(t) then EncodedInteger(t.bits, t.isSigned, d.number)
    else if t.Boolean? then J.Bool(d.flag)
    else if t.String? then J.Text(d.text)
    else EncodedFloat(d.float)
  }

  // ----- Decoding -----

  function Lookup(members: seq<J.Member>, name: Bytes): (v: Option<J.Value>)
    ensures v.Some? ==> exists i :: 0 <= i < |members| && members[i].key == name && members[i].value == v.value
  {
    if members == [] then None
    else if members[0].key == name then Some(members[0].value)
    else Lookup(members[1..], name)
  }

  /** The value has the outer form that the compound type asks for. */
  predicate ShapeOk(t: Type, v: J.Value)
    requires IsCompound(t)
  {
    if t.Struct? then
      v.Object? && |v.members| == |t.fields| && forall i :: 0 <= i < |t.fields| ==> Lookup(v.members, t.fields[i].name).Some?
    else
      && v.Array? && PartCountOk(t, |v.items|)
      && (t.Sequence? && t.length.Some? ==> |v.items| == t.length.value)
  }

  function ValueCount(t: Type, v: J.Value): nat
    requires IsCompound(t) && ShapeOk(t, v)
  {
    if t.Struct? then |t.fields| else |v.items|
  }

  function PartValue(t: Type, v: J.Value, i: nat): J.Value
    requires IsCompound(t) && ShapeOk(t, v) && i < ValueCount(t, v)
  {
    if t.Struct? then Lookup(v.members, t.fields[i].name).value else v.items[i]
  }

  predicate Integral(r: real) {
    r.Floor as real == r
  }

  /** The integer that a JSON value stands for, as the narrow integer codec reads it. */
  function NarrowInteger(v: J.Value): Option<int> {
    match v
    case Int64(n) => Some(n)
    case Uint64(n) => Some(n)
    case Double(Finite(r)) => if Integral(r) then Some(r.Floor) else None
    case _ => None
  }

  ghost predicate IntegerDecodable(bits: int, isSigned: bool, v: J.Value) {
    if bits == 64 then v.Text? && exists n :: InRange(n, bits, isSigned) && v.text == Decimal.Canonical(n)
    else NarrowInteger(v).Some? && InRange(NarrowInteger(v).value, bits, isSigned)
  }

  ghost function DecodedInteger(bits: int, isSigned: bool, v: J.Value): (n: int)
    requires IntegerDecodable(bits, isSigned, v)
    ensures InRange(n, bits, isSigned)
  {
    if bits == 64 then var n :| InRange(n, bits, isSigned) && v.text == Decimal.Canonical(n); n
    else NarrowInteger(v).value
  }

  function DecodedFloat(bits: int, v: J.Value): Option<J.Number> {
    match v
    case Text(text) =>
      if text == NAN then Some(J.NotANumber)
      else if text == INFINITY then Some(J.Infinite(false))
      else if text == MINUS_INFINITY then Some(J.Infinite(true))
      else None
    case Double(Finite(r)) => if FloatInRange(r, bits) then Some(J.Finite(r)) else None
    case Int64(n) => if FloatInRange(n as real, bits) then Some(J.Finite(n as real)) else None
    case Uint64(n) => if FloatInRange(n as real, bits) then Some(J.Finite(n as real)) else None
    case _ => None
  }

  ghost predicate Decodable(t: Type, v: J.Value)
    decreases t
  {
    if IsCompound(t) then
      ShapeOk(t, v) && forall i :: 0 <= i < ValueCount(t, v) ==> Decodable(PartType(t, i), PartValue(t, v, i))
    else if IsInteger(t) then IntegerDecodable(t.bits, t.isSigned, v)
    else if t.Boolean? then v.Bool?
    else if t.String? then v.Text? && Utf8.WellFormed(v.text)
    else DecodedFloat(t.bits, v).Some?
  }

  ghost function Decoded(t: Type, v: J.Value): Datum
    requires Decodable(t, v)
    decreases t
  {
    if IsCompound(t) then
      Compound(seq(ValueCount(t, v), i requires 0 <= i < ValueCount(t, v) => Decoded(PartType(t, i), PartValue(t, v, i))))
    else if IsInteger(t) then IntegerDatum(DecodedInteger(t.bits, t.isSigned, v))
    else if t.Boolean? then BooleanDatum(v.flag)
    else if t.String? then StringDatum(v.text)
    else FloatingDatum(DecodedFloat(t.bits, v).value)
  }

  ghost function DecodeCost(t: Type, v: J.Value): nat
    decreases t, 1, 0
  {
    if IsCompound(t) then
      if ShapeOk(t, v) then (if t.Struct? then 0 else ValueCount(t, v)) + PartValuesCost(t, v, 0) else 0
    else if t.String? && v.Text? then C.StringCost(v.text)
    else 0
  }

  ghost function PartValuesCost(t: Type, v: J.Value, n: nat): nat
    requires IsCompound(t) && ShapeOk(t, v) && n <= ValueCount(t, v)
    decreases t, 0, ValueCount(t, v) - n
  {
    if n == ValueCount(t, v) then 0
    else DecodeCost(PartType(t, n), PartValue(t, v, n)) + PartValuesCost(t, v, n + 1)
  }

  ghost function DecodeDepth(t: Type, v: J.Value): nat
    decreases t, 1, 0
  {
    if IsCompound(t) then 1 + (if ShapeOk(t, v) then PartValuesDepth(t, v, 0) else 0) else 0
  }

  ghost function PartValuesDepth(t: Type, v: J.Value, n: nat): nat
    requires IsCompound(t) && ShapeOk(t, v) && n <= ValueCount(t, v)
    decreases t, 0, ValueCount(t, v) - n
  {
    if n == ValueCount(t, v) then 0
    else J.Max(DecodeDepth(PartType(t, n), PartValue(t, v, n)), PartValuesDepth(t, v, n + 1))
  }
}
