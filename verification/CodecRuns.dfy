/** The codecs at work: they charge a context, enter and leave it, and stage their result. */
module CodecRuns {
  import opened Prelude
  import opened Codecs
  import Decimal
  import Utf8
  import J = Json
  import C = CodecContexts
  import M = Meaning

  datatype Result<+T> = Ok(value: T) | Failed(code: J.Code)

  // ----- Encoding -----

  ghost predicate EncodeFits(t: Type, d: Datum, room: nat, budget: nat)
    requires Fits(d, t)
  {
    Encodable(t, d) && EncodeDepth(t, d) <= room && EncodeCost(t, d) <= budget
  }

  /** Somewhere inside there is text that is not UTF-8, or a sequence of the wrong length. */
  ghost predicate Flawed(code: J.Code, t: Type, d: Datum)
    requires Fits(d, t)
    decreases t
  {
    if IsCompound(t) then
      || (code.InvalidDataSource? && t.Sequence? && t.length.Some? && |d.parts| != t.length.value)
      || exists i :: 0 <= i < |d.parts| && Flawed(code, PartType(t, i), d.parts[i])
    else code.InvalidUtf8? && t.String? && !Utf8.WellFormed(d.text)
  }

  /** The error names a limit that really is exceeded, or an input that really is refused. */
  ghost predicate EncodeBlames(code: J.Code, t: Type, d: Datum, room: nat, budget: nat)
    requires Fits(d, t)
  {
    match code
    case DepthLimit => EncodeDepth(t, d) > room
    case DocumentLimit => EncodeCost(t, d) > budget
    case InvalidUtf8 => !Encodable(t, d) && Flawed(code, t, d)
    case InvalidDataSource => !Encodable(t, d) && Flawed(code, t, d)
    case _ => false
  }

  method EncodeScalar(c: C.CodecContext, t: Type, d: Datum) returns (r: Result<J.Value>)
    requires c.Valid() && Fits(d, t) && !IsCompound(t)
    modifies c`remaining
    ensures c.Valid() && c.remaining <= old(c.remaining)
    ensures r.Ok? <==> Encodable(t, d) && EncodeCost(t, d) <= old(c.remaining)
    ensures r.Ok? ==> r.value == Encoded(t, d) && c.remaining == old(c.remaining) - EncodeCost(t, d)
    ensures r.Failed? ==> EncodeBlames(r.code, t, d, 0, old(c.remaining))
  {
    var error;
    if t.String? {
      error := c.AccountString(d.text);
      return if error.Some? then Failed(error.value) else Ok(J.Text(d.text));
    }
    if t.Boolean? {
      error := c.Account(if d.flag then 4 else 5);
      return if error.Some? then Failed(error.value) else Ok(J.Bool(d.flag));
    }
    if t.Floating? {
      error := c.Account(1);
      return if error.Some? then Failed(error.value) else Ok(EncodedFloat(d.float));
    }
    var text := Decimal.Canonical(d.number);
    error := c.Account(|text| + (if t.bits == 64 then 2 else 0));
    if error.Some? {
      return Failed(error.value);
    }
    if t.bits == 64 {
      return Ok(J.Text(text));
    }
    return Ok(if t.isSigned then J.Int64(d.number) else J.Uint64(d.number));
  }

  /** Everything a codec charges and checks before the first part. */
  method OpenParts(c: C.CodecContext, t: Type, d: Datum) returns (error: Option<J.Code>)
    requires c.Valid() && Fits(d, t) && IsCompound(t)
    modifies c`remaining
    ensures c.Valid() && c.remaining <= old(c.remaining)
    ensures error.None? <==>
      (t.Sequence? && t.length.Some? ==> |d.parts| == t.length.value) && OpenCost(t, |d.parts|) <= old(c.remaining)
    ensures error.None? ==> c.remaining == old(c.remaining) - OpenCost(t, |d.parts|)
    ensures error.Some? ==>
      || (error.value.DocumentLimit? && OpenCost(t, |d.parts|) > old(c.remaining))
      || (error.value.InvalidDataSource? && t.Sequence? && t.length.Some? && |d.parts| != t.length.value)
  {
    var count := |d.parts|;
    if t.FixedArray? {
      error := c.Account(if t.size > 0 then t.size + 1 else 2);
      return;
    }
    error := c.Account(2);
    if error.Some? {
      return;
    }
    if t.Vector? {
      error := c.Account(if count == 0 then 0 else count - 1);
      if error.Some? {
        return;
      }
      // Never true: the charges above already exceed the count.
      assert count <= c.limits.maxBytes;
      if count > c.limits.maxBytes {
        error := Some(J.DocumentLimit);
      }
    } else if t.Sequence? {
      if t.length.Some? && count != t.length.value {
        return Some(J.InvalidDataSource);
      }
      error := c.Account(count);
    }
  }

  ghost predicate PartsEncode(t: Type, d: Datum, room: nat, budget: nat)
    requires IsCompound(t) && Fits(d, t)
  {
    && (forall i :: 0 <= i < |d.parts| ==> Encodable(PartType(t, i), d.parts[i]))
    && PartsDepth(t, d, 0) <= room && PartsCost(t, d, 0) <= budget
  }

  ghost predicate FlawedPart(code: J.Code, t: Type, d: Datum)
    requires IsCompound(t) && Fits(d, t)
  {
    exists i :: 0 <= i < |d.parts| && !Encodable(PartType(t, i), d.parts[i]) && Flawed(code, PartType(t, i), d.parts[i])
  }

  ghost predicate PartsBlame(code: J.Code, t: Type, d: Datum, room: nat, budget: nat)
    requires IsCompound(t) && Fits(d, t)
  {
    match code
    case DepthLimit => PartsDepth(t, d, 0) > room
    case DocumentLimit => PartsCost(t, d, 0) > budget
    case InvalidUtf8 => FlawedPart(code, t, d)
    case InvalidDataSource => FlawedPart(code, t, d)
    case _ => false
  }

  /** What holds before the n-th part. */
  ghost predicate Encoding(t: Type, d: Datum, n: nat, room: nat, budget: nat, remaining: nat)
    requires IsCompound(t) && Fits(d, t) && n <= |d.parts|
  {
    && (forall i :: 0 <= i < n ==> Encodable(PartType(t, i), d.parts[i]))
    && remaining - PartsCost(t, d, n) == budget - PartsCost(t, d, 0)
    && PartsDepth(t, d, n) <= PartsDepth(t, d, 0)
    && (PartsDepth(t, d, n) <= room ==> PartsDepth(t, d, 0) <= room)
  }

  lemma PartsLeft(t: Type, d: Datum, n: nat)
    requires IsCompound(t) && Fits(d, t) && n < |d.parts|
    ensures PartsCost(t, d, n) == PartOverhead(t, n) + EncodeCost(PartType(t, n), d.parts[n]) + PartsCost(t, d, n + 1)
    ensures PartsDepth(t, d, n) == J.Max(EncodeDepth(PartType(t, n), d.parts[n]), PartsDepth(t, d, n + 1))
  {}

  lemma EncodingNext(t: Type, d: Datum, n: nat, room: nat, budget: nat, remaining: nat)
    requires IsCompound(t) && Fits(d, t) && n < |d.parts| && Encoding(t, d, n, room, budget, remaining)
    ensures PartOverhead(t, n) > remaining ==> PartsBlame(J.DocumentLimit, t, d, room, budget)
    ensures PartOverhead(t, n) <= remaining ==>
      var left := remaining - PartOverhead(t, n);
      EncodeFits(PartType(t, n), d.parts[n], room, left) ==>
        Encoding(t, d, n + 1, room, budget, left - EncodeCost(PartType(t, n), d.parts[n]))
  {
    PartsLeft(t, d, n);
  }

  lemma EncodingBlames(t: Type, d: Datum, n: nat, room: nat, budget: nat, remaining: nat, code: J.Code)
    requires IsCompound(t) && Fits(d, t) && n < |d.parts| && Encoding(t, d, n, room, budget, remaining)
    requires PartOverhead(t, n) <= remaining
    requires EncodeBlames(code, PartType(t, n), d.parts[n], room, remaining - PartOverhead(t, n))
    ensures PartsBlame(code, t, d, room, budget)
  {
    PartsLeft(t, d, n);
    if code.InvalidUtf8? || code.InvalidDataSource? {
      assert FlawedPart(code, t, d);
    }
  }

  /** How encoding the parts went. */
  ghost predicate PartsOutcome(r: Result<J.Value>, t: Type, d: Datum, room: nat, budget: nat, remaining: nat)
    requires IsCompound(t) && Fits(d, t)
  {
    match r
    case Ok(value) =>
      PartsEncode(t, d, room, budget) && value == Encoded(t, d) && remaining == budget - PartsCost(t, d, 0)
    case Failed(code) =>
      !PartsEncode(t, d, room, budget) && PartsBlame(code, t, d, room, budget)
  }

  lemma ItemsDone(t: Type, d: Datum, staged: seq<J.Value>, room: nat, budget: nat, remaining: nat)
    requires IsCompound(t) && !t.Struct? && Fits(d, t) && Encoding(t, d, |d.parts|, room, budget, remaining)
    requires |staged| == |d.parts| && forall i :: 0 <= i < |staged| ==> staged[i] == Encoded(PartType(t, i), d.parts[i])
    ensures PartsOutcome(Ok(J.Array(staged)), t, d, room, budget, remaining)
  {}

  ghost predicate MembersStaged(t: Type, d: Datum, staged: seq<J.Member>)
    requires t.Struct? && Fits(d, t) && |staged| <= |d.parts|
  {
    forall i :: 0 <= i < |staged| ==>
      staged[i].key == t.fields[i].name && staged[i].value == Encoded(PartType(t, i), d.parts[i])
  }

  lemma OneMoreMember(t: Type, d: Datum, staged: seq<J.Member>, value: J.Value)
    requires t.Struct? && Fits(d, t) && |staged| < |d.parts| && MembersStaged(t, d, staged)
    requires value == Encoded(PartType(t, |staged|), d.parts[|staged|])
    ensures MembersStaged(t, d, staged + [J.Member(t.fields[|staged|].name, value)])
  {}

  lemma MembersDone(t: Type, d: Datum, staged: seq<J.Member>, room: nat, budget: nat, remaining: nat)
    requires t.Struct? && Fits(d, t) && Encoding(t, d, |d.parts|, room, budget, remaining)
    requires |staged| == |d.parts| && MembersStaged(t, d, staged)
    ensures PartsOutcome(Ok(J.Object(staged)), t, d, room, budget, remaining)
  {}

  lemma PartsFailed(code: J.Code, t: Type, d: Datum, room: nat, budget: nat, remaining: nat)
    requires IsCompound(t) && Fits(d, t) && PartsBlame(code, t, d, room, budget)
    ensures PartsOutcome(Failed(code), t, d, room, budget, remaining)
  {}

  /** One round of a codec's loop; a member of a structure is preceded by its name. */
  method EncodePart(c: C.CodecContext, t: Type, d: Datum, n: nat, ghost budget: nat) returns (r: Result<J.Value>)
    requires c.Valid() && TypeOk(t) && Fits(d, t) && IsCompound(t) && n < |d.parts|
    requires Encoding(t, d, n, c.Room(), budget, c.remaining)
    modifies c
    ensures c.Valid() && c.depth == old(c.depth) && c.remaining <= old(c.remaining)
    ensures r.Ok? ==> r.value == Encoded(PartType(t, n), d.parts[n]) && Encoding(t, d, n + 1, c.Room(), budget, c.remaining)
    ensures r.Failed? ==> PartsBlame(r.code, t, d, c.Room(), budget)
    decreases t, 0
  {
    EncodingNext(t, d, n, c.Room(), budget, c.remaining);
    if t.Struct? {
      var error := c.AccountString(t.fields[n].name);
      if error.None? {
        error := c.Account(2);
      }
      if error.Some? {
        return Failed(error.value);
      }
    }
    ghost var left := c.remaining;
    r := Encode(c, PartType(t, n), d.parts[n]);
    if r.Failed? {
      EncodingBlames(t, d, n, c.Room(), budget, left + PartOverhead(t, n), r.code);
    }
  }

  /** The loop of a list codec. */
  method EncodeItems(c: C.CodecContext, t: Type, d: Datum) returns (r: Result<J.Value>)
    requires c.Valid() && TypeOk(t) && Fits(d, t) && IsCompound(t) && !t.Struct?
    modifies c
    ensures c.Valid() && c.depth == old(c.depth) && c.remaining <= old(c.remaining)
    ensures PartsOutcome(r, t, d, old(c.Room()), old(c.remaining), c.remaining)
    decreases t, 1
  {
    var staged: seq<J.Value> := [];
    ghost var room, budget := c.Room(), c.remaining;
    for n := 0 to |d.parts|
      invariant c.Valid() && c.depth == old(c.depth) && c.remaining <= budget
      invariant Encoding(t, d, n, room, budget, c.remaining)
      invariant |staged| == n && forall i :: 0 <= i < n ==> staged[i] == Encoded(PartType(t, i), d.parts[i])
    {
      var encoded := EncodePart(c, t, d, n, budget);
      if encoded.Failed? {
        PartsFailed(encoded.code, t, d, room, budget, c.remaining);
        return encoded;
      }
      staged := staged + [encoded.value];
    }
    ItemsDone(t, d, staged, room, budget, c.remaining);
    return Ok(J.Array(staged));
  }

  /** The member loop of a reflected structure. */
  method EncodeMembers(c: C.CodecContext, t: Type, d: Datum) returns (r: Result<J.Value>)
    requires c.Valid() && TypeOk(t) && Fits(d, t) && t.Struct?
    modifies c
    ensures c.Valid() && c.depth == old(c.depth) && c.remaining <= old(c.remaining)
    ensures PartsOutcome(r, t, d, old(c.Room()), old(c.remaining), c.remaining)
    decreases t, 1
  {
    var staged: seq<J.Member> := [];
    ghost var room, budget := c.Room(), c.remaining;
    for n := 0 to |d.parts|
      invariant c.Valid() && c.depth == old(c.depth) && c.remaining <= budget
      invariant Encoding(t, d, n, room, budget, c.remaining)
      invariant |staged| == n && MembersStaged(t, d, staged)
    {
      var encoded := EncodePart(c, t, d, n, budget);
      if encoded.Failed? {
        PartsFailed(encoded.code, t, d, room, budget, c.remaining);
        return encoded;
      }
      OneMoreMember(t, d, staged, encoded.value);
      staged := staged + [J.Member(t.fields[n].name, encoded.value)];
    }
    MembersDone(t, d, staged, room, budget, c.remaining);
    return Ok(J.Object(staged));
  }

  /** The body of a compound codec, inside its scope. */
  method EncodeInside(c: C.CodecContext, t: Type, d: Datum) returns (r: Result<J.Value>)
    requires c.Valid() && TypeOk(t) && Fits(d, t) && IsCompound(t)
    modifies c
    ensures c.Valid() && c.depth == old(c.depth) && c.remaining <= old(c.remaining)
    ensures r.Ok? <==> EncodeFits(t, d, old(c.Room()) + 1, old(c.remaining))
    ensures r.Ok? ==> r.value == Encoded(t, d) && c.remaining == old(c.remaining) - EncodeCost(t, d)
    ensures r.Failed? ==> EncodeBlames(r.code, t, d, old(c.Room()) + 1, old(c.remaining))
    decreases t, 2
  {
    var error := OpenParts(c, t, d);
    if error.Some? {
      return Failed(error.value);
    }
    if t.Struct? {
      r := EncodeMembers(c, t, d);
    } else {
      r := EncodeItems(c, t, d);
    }
  }

  /** `JsonConversion::encode` and `ReflectedCodec::toJson`.  The scope is left on every path. */
  method Encode(c: C.CodecContext, t: Type, d: Datum) returns (r: Result<J.Value>)
    requires c.Valid() && TypeOk(t) && Fits(d, t)
    modifies c
    ensures c.Valid() && c.depth == old(c.depth) && c.remaining <= old(c.remaining)
    ensures r.Ok? <==> EncodeFits(t, d, old(c.Room()), old(c.remaining))
    ensures r.Ok? ==> r.value == Encoded(t, d) && c.remaining == old(c.remaining) - EncodeCost(t, d)
    ensures r.Failed? ==> EncodeBlames(r.code, t, d, old(c.Room()), old(c.remaining))
    decreases t, 3
  {
    if !IsCompound(t) {
      r := EncodeScalar(c, t, d);
      return;
    }
    var error := c.Enter();
    if error.Some? {
      return Failed(error.value);
    }
    r := EncodeInside(c, t, d);
    c.Leave();
  }

  // ----- Decoding -----

  ghost predicate DecodeFits(t: Type, v: J.Value, room: nat, budget: nat) {
    Decodable(t, v) && DecodeDepth(t, v) <= room && DecodeCost(t, v) <= budget
  }

  /** Somewhere inside there is text that is not UTF-8, or a value of another form than its type's. */
  ghost predicate Unlike(code: J.Code, t: Type, v: J.Value)
    decreases t
  {
    if IsCompound(t) then
      if !ShapeOk(t, v) then code.TypeMismatch?
      else exists i :: 0 <= i < ValueCount(t, v) && Unlike(code, PartType(t, i), PartValue(t, v, i))
    else if t.String? && v.Text? then code.InvalidUtf8? && !Utf8.WellFormed(v.text)
    else code.TypeMismatch? && !Decodable(t, v)
  }

  ghost predicate DecodeBlames(code: J.Code, t: Type, v: J.Value, room: nat, budget: nat) {
    match code
    case DepthLimit => DecodeDepth(t, v) > room
    case DocumentLimit => DecodeCost(t, v) > budget
    case InvalidUtf8 => !Decodable(t, v) && Unlike(code, t, v)
    case TypeMismatch => !Decodable(t, v) && Unlike(code, t, v)
    case _ => false
  }

  /** How decoding went. */
  ghost predicate DecodeOutcome(r: Result<Datum>, t: Type, v: J.Value, room: nat, budget: nat, remaining: nat) {
    match r
    case Ok(d) =>
      DecodeFits(t, v, room, budget) && d == Decoded(t, v) && remaining == budget - DecodeCost(t, v)
    case Failed(code) =>
      !DecodeFits(t, v, room, budget) && DecodeBlames(code, t, v, room, budget)
  }

  /** What is decoded is the one value that the JSON value denotes; what is not of the type denotes none. */
  ghost predicate Stands(r: Result<Datum>, t: Type, v: J.Value) {
    match r
    case Ok(d) => Fits(d, t) && M.Denotes(t, v, d) && forall other :: Fits(other, t) && M.Denotes(t, v, other) ==> other == d
    case Failed(code) =>
      (code.TypeMismatch? || code.InvalidUtf8?) ==> forall d :: Fits(d, t) ==> !M.Denotes(t, v, d)
  }

  lemma OutcomeStands(r: Result<Datum>, t: Type, v: J.Value, room: nat, budget: nat, remaining: nat)
    requires DecodeOutcome(r, t, v, room, budget, remaining)
    ensures Stands(r, t, v)
  {
    forall d ensures Fits(d, t) && M.Denotes(t, v, d) <==> Decodable(t, v) && Decoded(t, v) == d {
      M.DecodedIsMeant(t, v, d);
    }
  }

  method DecodeInteger(bits: int, isSigned: bool, v: J.Value) returns (n: Option<int>)
    ensures n.Some? <==> IntegerDecodable(bits, isSigned, v)
    ensures n.Some? ==> n.value == DecodedInteger(bits, isSigned, v)
  {
    if bits == 64 {
      if !v.Text? {
        return None;
      }
      n := Decimal.ReadCanonical(v.text, isSigned, Low(bits, isSigned), High(bits, isSigned));
      if k :| InRange(k, bits, isSigned) && v.text == Decimal.Canonical(k) {
        assert n.Some?;
      }
      if n.Some? {
        assert InRange(n.value, bits, isSigned) && v.text == Decimal.Canonical(n.value);
        Decimal.CanonicalIsInjective(n.value, DecodedInteger(bits, isSigned, v));
      }
      return;
    }
    match v {
      case Int64(k) => n := Some(k);
      case Uint64(k) => n := Some(k);
      case Double(number) =>
        if !number.Finite? || !Integral(number.value)
           || number.value < Low(bits, isSigned) as real || number.value > High(bits, isSigned) as real {
          return None;
        }
        n := Some(number.value.Floor);
      case _ => return None;
    }
    if n.value < Low(bits, isSigned) || n.value > High(bits, isSigned) {
      n := None;
    }
  }

  method DecodeScalar(c: C.CodecContext, t: Type, v: J.Value) returns (r: Result<Datum>)
    requires c.Valid() && !IsCompound(t)
    modifies c`remaining
    ensures c.Valid() && c.remaining <= old(c.remaining)
    ensures forall room :: DecodeOutcome(r, t, v, room, old(c.remaining), c.remaining)
  {
    if t.String? {
      if !v.Text? {
        return Failed(J.TypeMismatch);
      }
      var error := c.AccountString(v.text);
      return if error.Some? then Failed(error.value) else Ok(StringDatum(v.text));
    }
    if t.Boolean? {
      return if v.Bool? then Ok(BooleanDatum(v.flag)) else Failed(J.TypeMismatch);
    }
    if t.Floating? {
      var number := DecodedFloat(t.bits, v);
      return if number.Some? then Ok(FloatingDatum(number.value)) else Failed(J.TypeMismatch);
    }
    var n := DecodeInteger(t.bits, t.isSigned, v);
    return if n.Some? then Ok(IntegerDatum(n.value)) else Failed(J.TypeMismatch);
  }

  /** The outer form is checked before anything is built. */
  method CheckShape(t: Type, v: J.Value) returns (ok: bool)
    requires IsCompound(t)
    ensures ok <==> ShapeOk(t, v)
  {
    if !t.Struct? {
      return v.Array? && PartCountOk(t, |v.items|) && (t.Sequence? && t.length.Some? ==> |v.items| == t.length.value);
    }
    if !v.Object? || |v.members| != |t.fields| {
      return false;
    }
    for n := 0 to |t.fields|
      invariant forall i :: 0 <= i < n ==> Lookup(v.members, t.fields[i].name).Some?
    {
      if Lookup(v.members, t.fields[n].name).None? {
        return false;
      }
    }
    return true;
  }

  ghost predicate PartsDecode(t: Type, v: J.Value, room: nat, budget: nat)
    requires IsCompound(t) && ShapeOk(t, v)
  {
    && (forall i :: 0 <= i < ValueCount(t, v) ==> Decodable(PartType(t, i), PartValue(t, v, i)))
    && PartValuesDepth(t, v, 0) <= room && PartValuesCost(t, v, 0) <= budget
  }

  ghost predicate UnlikePart(code: J.Code, t: Type, v: J.Value)
    requires IsCompound(t) && ShapeOk(t, v)
  {
    exists i :: 0 <= i < ValueCount(t, v)
                && !Decodable(PartType(t, i), PartValue(t, v, i)) && Unlike(code, PartType(t, i), PartValue(t, v, i))
  }

  ghost predicate ValuesBlame(code: J.Code, t: Type, v: J.Value, room: nat, budget: nat)
    requires IsCompound(t) && ShapeOk(t, v)
  {
    match code
    case DepthLimit => PartValuesDepth(t, v, 0) > room
    case DocumentLimit => PartValuesCost(t, v, 0) > budget
    case InvalidUtf8 => UnlikePart(code, t, v)
    case TypeMismatch => UnlikePart(code, t, v)
    case _ => false
  }

  /** What holds before the n-th part. */
  ghost predicate Decoding(t: Type, v: J.Value, n: nat, room: nat, budget: nat, remaining: nat)
    requires IsCompound(t) && ShapeOk(t, v) && n <= ValueCount(t, v)
  {
    && (forall i :: 0 <= i < n ==> Decodable(PartType(t, i), PartValue(t, v, i)))
    && remaining - PartValuesCost(t, v, n) == budget - PartValuesCost(t, v, 0)
    && PartValuesDepth(t, v, n) <= PartValuesDepth(t, v, 0)
    && (PartValuesDepth(t, v, n) <= room ==> PartValuesDepth(t, v, 0) <= room)
  }

  lemma ValuesLeft(t: Type, v: J.Value, n: nat)
    requires IsCompound(t) && ShapeOk(t, v) && n < ValueCount(t, v)
    ensures PartValuesCost(t, v, n) == DecodeCost(PartType(t, n), PartValue(t, v, n)) + PartValuesCost(t, v, n + 1)
    ensures PartValuesDepth(t, v, n) == J.Max(DecodeDepth(PartType(t, n), PartValue(t, v, n)), PartValuesDepth(t, v, n + 1))
  {}

  lemma DecodingNext(t: Type, v: J.Value, n: nat, room: nat, budget: nat, remaining: nat)
    requires IsCompound(t) && ShapeOk(t, v) && n < ValueCount(t, v) && Decoding(t, v, n, room, budget, remaining)
    ensures DecodeFits(PartType(t, n), PartValue(t, v, n), room, remaining) ==>
      Decoding(t, v, n + 1, room, budget, remaining - DecodeCost(PartType(t, n), PartValue(t, v, n)))
  {
    ValuesLeft(t, v, n);
  }

  lemma DecodingBlames(t: Type, v: J.Value, n: nat, room: nat, budget: nat, remaining: nat, code: J.Code)
    requires IsCompound(t) && ShapeOk(t, v) && n < ValueCount(t, v) && Decoding(t, v, n, room, budget, remaining)
    requires DecodeBlames(code, PartType(t, n), PartValue(t, v, n), room, remaining)
    ensures ValuesBlame(code, t, v, room, budget)
  {
    ValuesLeft(t, v, n);
    if code.InvalidUtf8? || code.TypeMismatch? {
      assert UnlikePart(code, t, v);
    }
  }

  /** How decoding the parts went. */
  ghost predicate ValuesOutcome(r: Result<Datum>, t: Type, v: J.Value, room: nat, budget: nat, remaining: nat)
    requires IsCompound(t) && ShapeOk(t, v)
  {
    match r
    case Ok(d) =>
      PartsDecode(t, v, room, budget) && Decodable(t, v) && d == Decoded(t, v) && remaining == budget - PartValuesCost(t, v, 0)
    case Failed(code) =>
      !PartsDecode(t, v, room, budget) && ValuesBlame(code, t, v, room, budget)
  }

  ghost predicate ValuesStaged(t: Type, v: J.Value, staged: seq<Datum>)
    requires IsCompound(t) && ShapeOk(t, v) && |staged| <= ValueCount(t, v)
  {
    forall i :: 0 <= i < |staged| ==>
      Decodable(PartType(t, i), PartValue(t, v, i)) && staged[i] == Decoded(PartType(t, i), PartValue(t, v, i))
  }

  lemma OneMoreValue(t: Type, v: J.Value, staged: seq<Datum>, d: Datum)
    requires IsCompound(t) && ShapeOk(t, v) && |staged| < ValueCount(t, v) && ValuesStaged(t, v, staged)
    requires var part, partType := PartValue(t, v, |staged|), PartType(t, |staged|);
      Decodable(partType, part) && d == Decoded(partType, part)
    ensures ValuesStaged(t, v, staged + [d])
  {}

  lemma ValuesDone(t: Type, v: J.Value, staged: seq<Datum>, room: nat, budget: nat, remaining: nat)
    requires IsCompound(t) && ShapeOk(t, v) && |staged| == ValueCount(t, v) && ValuesStaged(t, v, staged)
    requires Decoding(t, v, |staged|, room, budget, remaining)
    ensures ValuesOutcome(Ok(Compound(staged)), t, v, room, budget, remaining)
  {}

  lemma ValuesFailed(code: J.Code, t: Type, v: J.Value, room: nat, budget: nat, remaining: nat)
    requires IsCompound(t) && ShapeOk(t, v) && ValuesBlame(code, t, v, room, budget)
    ensures ValuesOutcome(Failed(code), t, v, room, budget, remaining)
  {}

  method DecodeParts(c: C.CodecContext, t: Type, v: J.Value) returns (r: Result<Datum>)
    requires c.Valid() && IsCompound(t) && ShapeOk(t, v)
    modifies c
    ensures c.Valid() && c.depth == old(c.depth) && c.remaining <= old(c.remaining)
    ensures ValuesOutcome(r, t, v, old(c.Room()), old(c.remaining), c.remaining)
    decreases t, 0
  {
    var staged: seq<Datum> := [];
    ghost var room, budget := c.Room(), c.remaining;
    for n := 0 to ValueCount(t, v)
      invariant c.Valid() && c.depth == old(c.depth) && c.remaining <= budget
      invariant Decoding(t, v, n, room, budget, c.remaining)
      invariant |staged| == n && ValuesStaged(t, v, staged)
    {
      DecodingNext(t, v, n, room, budget, c.remaining);
      ghost var left := c.remaining;
      var decoded := Decode(c, PartType(t, n), PartValue(t, v, n));
      if decoded.Failed? {
        DecodingBlames(t, v, n, room, budget, left, decoded.code);
        ValuesFailed(decoded.code, t, v, room, budget, c.remaining);
        return decoded;
      }
      OneMoreValue(t, v, staged, decoded.value);
      staged := staged + [decoded.value];
    }
    ValuesDone(t, v, staged, room, budget, c.remaining);
    return Ok(Compound(staged));
  }

  /** The body of a compound codec, inside its scope. */
  method DecodeInside(c: C.CodecContext, t: Type, v: J.Value) returns (r: Result<Datum>)
    requires c.Valid() && IsCompound(t)
    modifies c
    ensures c.Valid() && c.depth == old(c.depth) && c.remaining <= old(c.remaining)
    ensures DecodeOutcome(r, t, v, old(c.Room()) + 1, old(c.remaining), c.remaining)
    decreases t, 1
  {
    var ok := CheckShape(t, v);
    if !ok {
      return Failed(J.TypeMismatch);
    }
    if !t.Struct? {
      var error := c.Account(|v.items|);
      if error.Some? {
        return Failed(error.value);
      }
    }
    r := DecodeParts(c, t, v);
  }

  /** A compound value, in a scope of its own. */
  method DecodeCompound(c: C.CodecContext, t: Type, v: J.Value) returns (r: Result<Datum>)
    requires c.Valid() && IsCompound(t)
    modifies c
    ensures c.Valid() && c.depth == old(c.depth) && c.remaining <= old(c.remaining)
    ensures DecodeOutcome(r, t, v, old(c.Room()), old(c.remaining), c.remaining)
    decreases t, 2
  {
    var error := c.Enter();
    if error.Some? {
      return Failed(error.value);
    }
    r := DecodeInside(c, t, v);
    c.Leave();
  }

  /** `JsonConversion::decode` and `ReflectedCodec::makeDataSource`. */
  method Decode(c: C.CodecContext, t: Type, v: J.Value) returns (r: Result<Datum>)
    requires c.Valid()
    modifies c
    ensures c.Valid() && c.depth == old(c.depth) && c.remaining <= old(c.remaining)
    ensures DecodeOutcome(r, t, v, old(c.Room()), old(c.remaining), c.remaining)
    ensures Stands(r, t, v)
    decreases t, 3
  {
    if IsCompound(t) {
      r := DecodeCompound(c, t, v);
    } else {
      r := DecodeScalar(c, t, v);
    }
    OutcomeStands(r, t, v, c.Room(), old(c.remaining), c.remaining);
  }
}
