/** What the codecs promise together: round trips within equal limits, and texts within budget. */
module CodecLaws {
  import opened Prelude
  import opened Codecs
  import opened CodecRuns
  import Decimal
  import Utf8
  import J = Json
  import C = CodecContexts
  import M = Meaning

  // ----- Round trips -----

  /** The encoded form decodes to the value it came from, at no greater charge and no greater depth. */
  ghost predicate Returns(t: Type, d: Datum)
    requires Fits(d, t)
  {
    var v := Encoded(t, d);
    && Decodable(t, v) && Decoded(t, v) == d
    && DecodeCost(t, v) <= EncodeCost(t, d)
    && DecodeDepth(t, v) == EncodeDepth(t, d)
  }

  lemma ScalarReturns(t: Type, d: Datum)
    requires !IsCompound(t) && Fits(d, t) && Encodable(t, d)
    ensures Returns(t, d)
  {
    if IsInteger(t) && t.bits == 64 {
      var v := Encoded(t, d);
      assert InRange(d.number, 64, t.isSigned) && v.text == Decimal.Canonical(d.number);
      Decimal.CanonicalIsInjective(DecodedInteger(64, t.isSigned, v), d.number);
    }
    assert MINUS_INFINITY[0] != INFINITY[0] && |MINUS_INFINITY| == 9 && |NAN| == 3 && |INFINITY| == 8;
  }

  /** The encoded form of a compound value has the right outer form and the right parts. */
  lemma EncodedShape(t: Type, d: Datum)
    requires TypeOk(t) && IsCompound(t) && Fits(d, t) && Encodable(t, d)
    ensures
      var v := Encoded(t, d);
      && ShapeOk(t, v) && ValueCount(t, v) == |d.parts|
      && forall i :: 0 <= i < |d.parts| ==> PartValue(t, v, i) == Encoded(PartType(t, i), d.parts[i])
  {
    var v := Encoded(t, d);
    if t.Struct? {
      forall i | 0 <= i < |d.parts|
        ensures Lookup(v.members, t.fields[i].name) == Some(Encoded(PartType(t, i), d.parts[i]))
      {
        assert forall j :: 0 <= j < |d.parts| ==> v.members[j].key == t.fields[j].name;
        M.LookupOwn(v.members, i);
      }
    }
  }

  /** What the parts of a compound value and of its encoded form have to do with each other. */
  ghost predicate PartsMatch(t: Type, d: Datum, v: J.Value)
    requires IsCompound(t) && Fits(d, t)
  {
    && ShapeOk(t, v) && ValueCount(t, v) == |d.parts|
    && forall i :: 0 <= i < |d.parts| ==>
      PartValue(t, v, i) == Encoded(PartType(t, i), d.parts[i]) && Returns(PartType(t, i), d.parts[i])
  }

  lemma PartReturns(t: Type, d: Datum, v: J.Value, n: nat)
    requires IsCompound(t) && Fits(d, t) && PartsMatch(t, d, v) && n < |d.parts|
    ensures var p, x, w := PartType(t, n), d.parts[n], PartValue(t, v, n);
      DecodeCost(p, w) <= EncodeCost(p, x) && DecodeDepth(p, w) == EncodeDepth(p, x)
  {
    assert Returns(PartType(t, n), d.parts[n]);
  }

  lemma {:induction false} PartsReturnDepth(t: Type, d: Datum, v: J.Value, n: nat)
    requires IsCompound(t) && Fits(d, t) && PartsMatch(t, d, v) && n <= |d.parts|
    ensures PartValuesDepth(t, v, n) == PartsDepth(t, d, n)
    decreases |d.parts| - n
  {
    if n < |d.parts| {
      PartReturns(t, d, v, n);
      PartsReturnDepth(t, d, v, n + 1);
      PartsLeft(t, d, n);
      ValuesLeft(t, v, n);
    }
  }

  lemma PartsAhead(t: Type, d: Datum, n: nat)
    requires IsCompound(t) && Fits(d, t) && n < |d.parts|
    ensures PartsCost(t, d, n) >= EncodeCost(PartType(t, n), d.parts[n]) + PartsCost(t, d, n + 1)
  {}

  lemma {:induction false} PartsReturnCost(t: Type, d: Datum, v: J.Value, n: nat)
    requires IsCompound(t) && Fits(d, t) && PartsMatch(t, d, v) && n <= |d.parts|
    ensures PartValuesCost(t, v, n) <= PartsCost(t, d, n)
    decreases |d.parts| - n
  {
    if n < |d.parts| {
      PartReturns(t, d, v, n);
      PartsReturnCost(t, d, v, n + 1);
      PartsAhead(t, d, n);
      ValuesLeft(t, v, n);
    }
  }

  /** Every encodable value of every nest of types returns. */
  lemma {:induction false} RoundTrip(t: Type, d: Datum)
    requires TypeOk(t) && Fits(d, t) && Encodable(t, d)
    ensures Returns(t, d)
    decreases t
  {
    if IsCompound(t) {
      EncodedShape(t, d);
      forall i | 0 <= i < |d.parts| ensures Returns(PartType(t, i), d.parts[i]) {
        RoundTrip(PartType(t, i), d.parts[i]);
      }
      PartsReturnDepth(t, d, Encoded(t, d), 0);
      PartsReturnCost(t, d, Encoded(t, d), 0);
      CompoundReturns(t, d);
    } else {
      ScalarReturns(t, d);
    }
  }

  /** What is written denotes what it was written for: narrow integers and finite floats as numbers,
      everything else as its type prescribes. */
  lemma EncodedIsMeant(t: Type, d: Datum)
    requires TypeOk(t) && Fits(d, t) && Encodable(t, d)
    ensures M.Denotes(t, Encoded(t, d), d)
    ensures IsInteger(t) && t.bits < 64 ==> Encoded(t, d).Int64? || Encoded(t, d).Uint64?
    ensures t.Floating? && d.float.Finite? ==> Encoded(t, d).Double?
  {
    RoundTrip(t, d);
    M.DecodedIsMeant(t, Encoded(t, d), d);
  }

  /** Whatever a JSON value denotes can be encoded. */
  lemma {:induction false} DenotedIsEncodable(t: Type, v: J.Value, d: Datum)
    requires Fits(d, t) && M.Denotes(t, v, d)
    ensures Encodable(t, d)
    decreases t
  {
    if IsCompound(t) {
      M.CompoundDenotes(t, v, d);
      forall i | 0 <= i < |d.parts| ensures Encodable(PartType(t, i), d.parts[i]) {
        DenotedIsEncodable(PartType(t, i), PartValue(t, v, i), d.parts[i]);
      }
    }
  }

  /** A value is refused if and only if no JSON value denotes it. */
  lemma EncodableIffDenoted(t: Type, d: Datum)
    requires TypeOk(t) && Fits(d, t)
    ensures Encodable(t, d) <==> exists v :: M.Denotes(t, v, d)
  {
    if Encodable(t, d) {
      EncodedIsMeant(t, d);
      var v := Encoded(t, d);
      assert M.Denotes(t, v, d);
    }
    if exists v :: M.Denotes(t, v, d) {
      var v :| M.Denotes(t, v, d);
      DenotedIsEncodable(t, v, d);
    }
  }

  lemma CompoundReturns(t: Type, d: Datum)
    requires IsCompound(t) && Fits(d, t) && PartsMatch(t, d, Encoded(t, d))
    requires PartValuesDepth(t, Encoded(t, d), 0) == PartsDepth(t, d, 0)
    requires PartValuesCost(t, Encoded(t, d), 0) <= PartsCost(t, d, 0)
    ensures Returns(t, d)
  {
    var v := Encoded(t, d);
    forall i | 0 <= i < |d.parts|
      ensures Decodable(PartType(t, i), PartValue(t, v, i)) && Decoded(PartType(t, i), PartValue(t, v, i)) == d.parts[i]
    {
      assert Returns(PartType(t, i), d.parts[i]);
    }
    assert Decoded(t, v).parts == d.parts;
  }

  // ----- What decoding charges -----

  /** One byte for every item of a list, and every string as it is quoted. */
  ghost function Weight(t: Type, d: Datum): nat
    requires Fits(d, t)
    decreases t, 1, 0
  {
    if IsCompound(t) then (if t.Struct? then 0 else |d.parts|) + PartsWeight(t, d, 0)
    else if t.String? then C.StringCost(d.text)
    else 0
  }

  ghost function PartsWeight(t: Type, d: Datum, n: nat): nat
    requires IsCompound(t) && Fits(d, t) && n <= |d.parts|
    decreases t, 0, |d.parts| - n
  {
    if n == |d.parts| then 0 else Weight(PartType(t, n), d.parts[n]) + PartsWeight(t, d, n + 1)
  }

  ghost predicate Decodes(t: Type, v: J.Value, d: Datum) {
    Decodable(t, v) && Decoded(t, v) == d && Fits(d, t)
  }

  lemma PartDecodes(t: Type, v: J.Value, d: Datum, n: nat)
    requires IsCompound(t) && Decodes(t, v, d) && n < |d.parts|
    ensures ShapeOk(t, v) && ValueCount(t, v) == |d.parts|
    ensures Decodes(PartType(t, n), PartValue(t, v, n), d.parts[n])
  {}

  /** The charge and the depth depend on the decoded value alone, not on the form it came in: the
      order of members, say. */
  lemma {:induction false} DecodingWeighsValue(t: Type, v: J.Value, d: Datum)
    requires Decodes(t, v, d)
    ensures DecodeCost(t, v) == Weight(t, d) && DecodeDepth(t, v) == EncodeDepth(t, d)
    decreases t, 1, 0
  {
    if IsCompound(t) {
      PartsWeighed(t, v, d, 0);
    }
  }

  lemma {:induction false} PartsWeighed(t: Type, v: J.Value, d: Datum, n: nat)
    requires IsCompound(t) && Decodes(t, v, d) && ShapeOk(t, v) && n <= |d.parts| == ValueCount(t, v)
    ensures PartValuesCost(t, v, n) == PartsWeight(t, d, n) && PartValuesDepth(t, v, n) == PartsDepth(t, d, n)
    decreases t, 0, |d.parts| - n
  {
    if n < |d.parts| {
      PartDecodes(t, v, d, n);
      DecodingWeighsValue(PartType(t, n), PartValue(t, v, n), d.parts[n]);
      PartsWeighed(t, v, d, n + 1);
      PartsLeft(t, d, n);
      ValuesLeft(t, v, n);
    }
  }

  /** A value encoded under some limits decodes under a fresh context with equal limits. */
  method EncodeThenDecode(limits: C.Limits, t: Type, d: Datum) returns (encoded: Result<J.Value>, back: Option<Datum>)
    requires TypeOk(t) && Fits(d, t)
    ensures encoded.Ok? <==> EncodeFits(t, d, limits.maxDepth, limits.maxBytes)
    ensures encoded.Ok? ==> back == Some(d)
  {
    var c := new C.CodecContext(limits);
    encoded := Encode(c, t, d);
    if encoded.Failed? {
      return encoded, None;
    }
    RoundTrip(t, d);
    var fresh0 := new C.CodecContext(limits);
    var decoded := Decode(fresh0, t, encoded.value);
    back := if decoded.Ok? then Some(decoded.value) else None;
  }
}
