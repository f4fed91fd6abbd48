/** The bodies that `handle` answers with: each value goes into an envelope, and it is the envelope
    that is serialized, under the limits the value was already encoded under. */
module Responses {
  import opened Prelude
  import opened Codecs
  import opened CodecRuns
  import opened Serialization
  import opened Invocations
  import CodecLaws
  import Decimal
  import JsonText
  import M = Meaning
  import Utf8
  import J = Json
  import C = CodecContexts

  /** Status 200 with a body, or 500 with one of two problems. */
  datatype Answer = Answered(text: Bytes) | TooLarge | NotRepresentable

  // The member names, in ASCII.
  const VALUE: Bytes := [118, 97, 108, 117, 101]
  const HAS_SAMPLE: Bytes := [104, 97, 115, 83, 97, 109, 112, 108, 101]
  const RESULT: Bytes := [114, 101, 115, 117, 108, 116]
  const OUTPUTS: Bytes := [111, 117, 116, 112, 117, 116, 115]

  function One(key: Bytes, v: J.Value): J.Value {
    J.Object([J.Member(key, v)])
  }

  function Two(key: Bytes, v: J.Value, other: Bytes, w: J.Value): J.Value {
    J.Object([J.Member(key, v), J.Member(other, w)])
  }

  function ValueBody(v: J.Value): J.Value {
    One(VALUE, v)
  }

  /** The latest sample of a port, if there has been one. */
  function SampleBody(sample: Option<J.Value>): J.Value {
    Two(HAS_SAMPLE, J.Bool(sample.Some?), VALUE, if sample.Some? then sample.value else J.Null)
  }

  function OperationBody(r: Response): J.Value {
    Two(RESULT, r.result, OUTPUTS, J.Array(r.outputs))
  }

  // ----- What a client reads -----

  /** An object with these members and no others. */
  ghost predicate Has(body: J.Value, names: seq<Bytes>, values: seq<J.Value>) {
    && body.Object? && |body.members| == |names| == |values|
    && forall i :: 0 <= i < |names| ==> Lookup(body.members, names[i]) == Some(values[i])
  }

  /** The text is that of an object with these members and no others. */
  ghost predicate Says(text: Bytes, names: seq<Bytes>, values: seq<J.Value>, number: J.Number -> Bytes) {
    exists body: J.Value :: JsonText.Reads(text, body, number) && Has(body, names, values)
  }

  lemma OneSays(key: Bytes, v: J.Value, number: J.Number -> Bytes)
    ensures Says(Compact(One(key, v), number), [key], [v], number)
  {
    JsonText.CompactReads(One(key, v), number);
    assert Has(One(key, v), [key], [v]);
  }

  lemma TwoHave(key: Bytes, v: J.Value, other: Bytes, w: J.Value)
    requires key != other
    ensures Has(Two(key, v, other, w), [key, other], [v, w])
  {
    var members := [J.Member(key, v), J.Member(other, w)];
    assert members[1..] == [J.Member(other, w)];
    assert Lookup(members, key) == Some(v);
    assert Lookup(members, other) == Lookup(members[1..], other) == Some(w);
  }

  lemma TwoSay(key: Bytes, v: J.Value, other: Bytes, w: J.Value, number: J.Number -> Bytes)
    requires key != other
    ensures Says(Compact(Two(key, v, other, w), number), [key, other], [v, w], number)
  {
    JsonText.CompactReads(Two(key, v, other, w), number);
    TwoHave(key, v, other, w);
  }

  // ----- What an envelope adds -----

  predicate PlainKey(key: Bytes) {
    forall i :: 0 <= i < |key| ==> Decimal.Plain(key[i])
  }

  lemma PlainKeys(key: Bytes)
    requires PlainKey(key)
    ensures |Quoted(key)| == |key| + 2 && Utf8.WellFormed(key)
  {
    PlainIsUnescaped(key, 0);
    Utf8.AsciiIsWellFormed(key);
  }

  /** Five bytes and the name, and one level. */
  lemma OneAdds(key: Bytes, v: J.Value, number: J.Number -> Bytes)
    requires PlainKey(key)
    ensures |Compact(One(key, v), number)| == |key| + 5 + |Compact(v, number)|
    ensures J.Nesting(One(key, v)) == 1 + J.Nesting(v) && (J.Clean(One(key, v)) <==> J.Clean(v))
  {
    PlainKeys(key);
    var e := One(key, v);
    assert J.Child(e, 0) == v && e.members[0].value == v;
    assert CompactFrom(e, 1, number) == [];
    assert J.NestingBelow(e, 1) == 0;
  }

  /** Nine bytes and the names, and one level. */
  lemma TwoAdd(key: Bytes, v: J.Value, other: Bytes, w: J.Value, number: J.Number -> Bytes)
    requires PlainKey(key) && PlainKey(other)
    ensures
      var e := Two(key, v, other, w);
      && |Compact(e, number)| == |key| + |other| + 9 + |Compact(v, number)| + |Compact(w, number)|
      && J.Nesting(e) == 1 + J.Max(J.Nesting(v), J.Nesting(w))
      && (J.Clean(e) <==> J.Clean(v) && J.Clean(w))
  {
    PlainKeys(key);
    PlainKeys(other);
    var e := Two(key, v, other, w);
    assert J.Child(e, 0) == v && J.Child(e, 1) == w && e.members[0].value == v && e.members[1].value == w;
    assert CompactFrom(e, 2, number) == [];
    assert |CompactFrom(e, 1, number)| == 1 + |other| + 3 + |Compact(w, number)|;
    assert J.NestingBelow(e, 2) == 0;
    assert J.NestingBelow(e, 1) == J.Nesting(w);
  }

  lemma SampleAdds(sample: Option<J.Value>, number: J.Number -> Bytes)
    ensures
      var body, v := SampleBody(sample), if sample.Some? then sample.value else J.Null;
      && |Compact(body, number)| == (if sample.Some? then 27 else 28) + |Compact(v, number)|
      && J.Nesting(body) == 1 + J.Nesting(v) && (J.Clean(body) <==> J.Clean(v))
  {
    TwoAdd(HAS_SAMPLE, J.Bool(sample.Some?), VALUE, if sample.Some? then sample.value else J.Null, number);
  }

  // ----- The end of `handle` -----

  function Problem(code: J.Code): Answer {
    if code.DocumentLimit? || code.AllocationLimit? then TooLarge else NotRepresentable
  }

  ghost predicate Presentable(body: J.Value, limits: C.Limits) {
    J.Clean(body) && J.Nesting(body) <= limits.maxDepth
  }

  lemma {:induction false} ViolationsAreNoOverflow(visits: seq<J.Visit>, maxDepth: nat)
    ensures J.First(visits, maxDepth).Some? ==> Problem(J.First(visits, maxDepth).value).NotRepresentable?
  {
    if visits != [] {
      ViolationsAreNoOverflow(visits[1..], maxDepth);
    }
  }

  /** The body is serialized; which problem is reported tells the two reasons apart. */
  method Finish(body: J.Value, limits: C.Limits, number: J.Number -> Bytes) returns (a: Answer)
    ensures a.Answered? <==> Presentable(body, limits) && |Compact(body, number)| <= limits.maxBytes
    ensures a.Answered? ==> a.text == Compact(body, number)
    ensures a.NotRepresentable? <==> !Presentable(body, limits)
  {
    J.AcceptedIff(body, 0, limits.maxDepth);
    ViolationsAreNoOverflow(J.Preorder(body, 0), limits.maxDepth);
    var text := SerializeJson(body, limits, number);
    match text
    case Ok(t) => return Answered(t);
    case Failed(code) => return Problem(code);
  }

  // ----- A value and a sample -----

  /** What a body of one value takes, the envelope adding `extra` bytes. */
  ghost predicate BodyFits(t: Type, d: Datum, extra: nat, limits: C.Limits, number: J.Number -> Bytes)
    requires Fits(d, t)
  {
    && EncodeFits(t, d, limits.maxDepth, limits.maxBytes)
    && EncodeDepth(t, d) < limits.maxDepth
    && |Compact(Encoded(t, d), number)| + extra <= limits.maxBytes
  }

  /** Why a body of one value is not answered. */
  ghost predicate BodyBlames(a: Answer, t: Type, d: Datum, extra: nat, limits: C.Limits, number: J.Number -> Bytes)
    requires Fits(d, t)
  {
    && (a.TooLarge? ==> EncodeCost(t, d) > limits.maxBytes || |Compact(Encoded(t, d), number)| + extra > limits.maxBytes)
    && (a.NotRepresentable? ==> !Encodable(t, d) || EncodeDepth(t, d) >= limits.maxDepth)
  }

  method EncodeFresh(t: Type, d: Datum, limits: C.Limits) returns (r: Result<J.Value>)
    requires TypeOk(t) && Fits(d, t)
    ensures r.Ok? <==> EncodeFits(t, d, limits.maxDepth, limits.maxBytes)
    ensures r.Ok? ==> r.value == Encoded(t, d) && J.Clean(r.value) && J.Nesting(r.value) == EncodeDepth(t, d)
    ensures r.Failed? ==> EncodeBlames(r.code, t, d, limits.maxDepth, limits.maxBytes)
  {
    var c := new C.CodecContext(limits);
    r := Encode(c, t, d);
    if r.Ok? {
      EncodedIsClean(t, d);
      EncodedNesting(t, d);
    }
  }

  lemma ValueBodyIs(t: Type, d: Datum, number: J.Number -> Bytes)
    requires TypeOk(t) && Fits(d, t) && Encodable(t, d)
    ensures var v, body := Encoded(t, d), ValueBody(Encoded(t, d));
      && |Compact(body, number)| == 10 + |Compact(v, number)| && J.Nesting(body) == 1 + J.Nesting(v)
      && (J.Clean(body) <==> J.Clean(v))
      && M.Denotes(t, v, d) && Says(Compact(body, number), [[118, 97, 108, 117, 101]], [v], number)
  {
    OneAdds(VALUE, Encoded(t, d), number);
    OneSays(VALUE, Encoded(t, d), number);
    CodecLaws.EncodedIsMeant(t, d);
  }

  /** Reading a property or an attribute: the value is answered exactly when it encodes and leaves
      room for one more level and for ten more bytes. */
  method AnswerValue(t: Type, d: Datum, limits: C.Limits, number: J.Number -> Bytes) returns (a: Answer)
    requires TypeOk(t) && Fits(d, t)
    ensures a.Answered? <==> BodyFits(t, d, 10, limits, number)
    ensures a.Answered? ==> M.Denotes(t, Encoded(t, d), d)
    ensures a.Answered? ==> Says(a.text, [[118, 97, 108, 117, 101]], [Encoded(t, d)], number)  // value
    ensures BodyBlames(a, t, d, 10, limits, number)
  {
    var v := EncodeFresh(t, d, limits);
    if v.Failed? {
      return Problem(v.code);
    }
    ValueBodyIs(t, d, number);
    a := Finish(ValueBody(v.value), limits, number);
  }

  method AnswerNoSample(limits: C.Limits, number: J.Number -> Bytes) returns (a: Answer)
    ensures a.Answered? <==> limits.maxDepth >= 1 && limits.maxBytes >= 32
    ensures a.Answered? ==>
      Says(a.text, [[104, 97, 115, 83, 97, 109, 112, 108, 101], [118, 97, 108, 117, 101]],  // hasSample, value
           [J.Bool(false), J.Null], number)
  {
    SampleAdds(None, number);
    TwoSay(HAS_SAMPLE, J.Bool(false), VALUE, J.Null, number);
    a := Finish(SampleBody(None), limits, number);
  }

  /** Reading the latest sample of a port: the same as for a value, with twenty-seven bytes. */
  method AnswerSample(t: Type, d: Datum, limits: C.Limits, number: J.Number -> Bytes) returns (a: Answer)
    requires TypeOk(t) && Fits(d, t)
    ensures a.Answered? <==> BodyFits(t, d, 27, limits, number)
    ensures a.Answered? ==> M.Denotes(t, Encoded(t, d), d)
    ensures a.Answered? ==>
      Says(a.text, [[104, 97, 115, 83, 97, 109, 112, 108, 101], [118, 97, 108, 117, 101]],  // hasSample, value
           [J.Bool(true), Encoded(t, d)], number)
    ensures BodyBlames(a, t, d, 27, limits, number)
  {
    var v := EncodeFresh(t, d, limits);
    if v.Failed? {
      return Problem(v.code);
    }
    SampleAdds(Some(v.value), number);
    TwoSay(HAS_SAMPLE, J.Bool(true), VALUE, v.value, number);
    CodecLaws.EncodedIsMeant(t, d);
    a := Finish(SampleBody(Some(v.value)), limits, number);
  }

  // ----- What encodes need not be answered -----

  /** For float-free values the charge decides: ten bytes and a level to spare are enough. */
  lemma SpareRoomIsEnough(t: Type, d: Datum, extra: nat, limits: C.Limits, number: J.Number -> Bytes)
    requires FloatFree(t) && Fits(d, t)
    requires limits.maxDepth > 0 && limits.maxBytes >= extra
    requires EncodeFits(t, d, limits.maxDepth - 1, limits.maxBytes - extra)
    ensures BodyFits(t, d, extra, limits, number)
  {
    CostCoversText(t, d, number);
  }

  /** A vector in a vector and so on, n deep, the innermost empty. */
  function Nest(n: nat): (Type, Datum)
    requires n > 0
  {
    if n == 1 then (Vector(Boolean), Compound([]))
    else var (t, d) := Nest(n - 1); (Vector(t), Compound([d]))
  }

  lemma {:induction false} NestIs(n: nat)
    requires n > 0
    ensures var (t, d) := Nest(n);
      && TypeOk(t) && FloatFree(t) && t.Vector? && Fits(d, t) && Encodable(t, d)
      && EncodeDepth(t, d) == n && EncodeCost(t, d) == 2 * n
  {
    if n > 1 {
      NestIs(n - 1);
      var (t, d) := Nest(n);
      assert PartsDepth(t, d, 1) == 0 && PartsCost(t, d, 1) == 0;
      assert d.parts[0] == Nest(n - 1).1 && PartType(t, 0) == Nest(n - 1).0;
    }
  }

  /** Whatever the limits, a value of exactly the permitted depth encodes within them, with any
      number of bytes to spare, and is refused. */
  lemma FullDepthIsRefused(limits: C.Limits, extra: nat, number: J.Number -> Bytes)
    requires limits.maxDepth > 0 && limits.maxBytes >= 2 * limits.maxDepth
    ensures exists t, d ::
      && TypeOk(t) && FloatFree(t) && Fits(d, t) && EncodeFits(t, d, limits.maxDepth, limits.maxBytes)
      && !BodyFits(t, d, extra, limits, number)
  {
    NestIs(limits.maxDepth);
    var (t, d) := Nest(limits.maxDepth);
    assert TypeOk(t) && !BodyFits(t, d, extra, limits, number);
  }

  /** So is a plain text that fills the permitted bytes. */
  lemma FullTextIsRefused(limits: C.Limits, extra: nat, number: J.Number -> Bytes)
    requires limits.maxBytes >= 2 && extra > 0
    ensures exists d ::
      Fits(d, String) && EncodeFits(String, d, limits.maxDepth, limits.maxBytes) && !BodyFits(String, d, extra, limits, number)
  {
    var text: Bytes := seq(limits.maxBytes - 2, i => 97);
    PlainIsUnescaped(text, 0);
    PlainCost(text, 0);
    Utf8.AsciiIsWellFormed(text);
    assert Fits(StringDatum(text), String) && !BodyFits(String, StringDatum(text), extra, limits, number);
  }

  lemma {:induction false} PlainCost(text: Bytes, n: nat)
    requires n <= |text| && forall i :: 0 <= i < |text| ==> text[i] == 97
    ensures C.EscapedFrom(text, n) == |text| - n
    decreases |text| - n
  {
    if n < |text| {
      PlainCost(text, n + 1);
    }
  }

  // ----- An operation -----

  /** The text of the values from the n-th on, each but the first output after a comma. */
  ghost function OutputsText(op: Operation, values: seq<Datum>, n: nat, number: J.Number -> Bytes): nat
    requires Reportable(op, values) && Shift(op) <= n <= |values|
    decreases |values| - n
  {
    if n == |values| then 0
    else (if n == Shift(op) then 0 else 1) + |Compact(Report(op, values, n), number)| + OutputsText(op, values, n + 1, number)
  }

  ghost function OutputsDepth(op: Operation, values: seq<Datum>, n: nat): nat
    requires Reportable(op, values) && n <= |values|
    decreases |values| - n
  {
    if n == |values| then 0 else J.Max(EncodeDepth(op.collected[n], values[n]), OutputsDepth(op, values, n + 1))
  }

  ghost function ResultText(op: Operation, values: seq<Datum>, number: J.Number -> Bytes): nat
    requires Supported(op) && Reportable(op, values)
  {
    if op.result.Some? then |Compact(Report(op, values, 0), number)| else 4
  }

  ghost function ResultDepth(op: Operation, values: seq<Datum>): nat
    requires Supported(op) && Reportable(op, values)
  {
    if op.result.Some? then EncodeDepth(op.collected[0], values[0]) else 0
  }

  /** The result stands one level deep, each output two; the envelope takes twenty-four bytes. */
  ghost function BodyDepth(op: Operation, values: seq<Datum>): nat
    requires Supported(op) && Reportable(op, values)
  {
    1 + J.Max(ResultDepth(op, values), 1 + OutputsDepth(op, values, Shift(op)))
  }

  ghost function BodyText(op: Operation, values: seq<Datum>, number: J.Number -> Bytes): nat
    requires Supported(op) && Reportable(op, values)
  {
    24 + ResultText(op, values, number) + OutputsText(op, values, Shift(op), number)
  }

  ghost predicate OperationFits(op: Operation, values: seq<Datum>, limits: C.Limits, number: J.Number -> Bytes)
    requires Supported(op) && Reportable(op, values)
  {
    && ReportFits(op, values, limits.maxDepth, limits.maxBytes)
    && BodyDepth(op, values) <= limits.maxDepth
    && BodyText(op, values, number) <= limits.maxBytes
  }

  ghost predicate AllEncodable(op: Operation, values: seq<Datum>)
    requires Reportable(op, values)
  {
    forall i :: 0 <= i < |values| ==> Encodable(op.collected[i], values[i])
  }

  /** The n-th value is the output that stands in its place. */
  ghost predicate Listed(op: Operation, values: seq<Datum>, v: J.Value)
    requires Reportable(op, values) && Shift(op) <= |values|
  {
    && v.Array? && J.Count(v) == |values| - Shift(op)
    && forall n :: Shift(op) <= n < |values| ==> J.Child(v, n - Shift(op)) == Report(op, values, n)
  }

  lemma ArrangedAreListed(op: Operation, values: seq<Datum>, r: Response)
    requires Supported(op) && Reportable(op, values) && Arranged(op, values, |values|, r)
    ensures Listed(op, values, J.Array(r.outputs))
  {
    forall n | Shift(op) <= n < |values| ensures J.Child(J.Array(r.outputs), n - Shift(op)) == Report(op, values, n) {
      assert r.outputs[n - Shift(op)] == Report(op, values, n);
    }
  }

  lemma {:induction false} OutputsAddText(op: Operation, values: seq<Datum>, v: J.Value, n: nat, number: J.Number -> Bytes)
    requires Reportable(op, values) && Shift(op) <= n <= |values| && Listed(op, values, v)
    ensures |CompactFrom(v, n - Shift(op), number)| == OutputsText(op, values, n, number)
    decreases |values| - n
  {
    if n < |values| {
      OutputsAddText(op, values, v, n + 1, number);
    }
  }

  lemma {:induction false} OutputsAddDepth(op: Operation, values: seq<Datum>, v: J.Value, n: nat)
    requires Reportable(op, values) && Shift(op) <= n <= |values| && Listed(op, values, v)
    ensures J.NestingBelow(v, n - Shift(op)) == OutputsDepth(op, values, n)
    decreases |values| - n
  {
    if n < |values| {
      var k: nat := n - Shift(op);
      assert J.Child(v, k) == Report(op, values, n);
      EncodedNesting(op.collected[n], values[n]);
      OutputsAddDepth(op, values, v, n + 1);
      assert J.NestingBelow(v, k) == J.Max(J.Nesting(J.Child(v, k)), J.NestingBelow(v, k + 1));
    }
  }

  /** What the array of the outputs is, measured by the values. */
  lemma OutputsAre(op: Operation, values: seq<Datum>, r: Response, number: J.Number -> Bytes)
    requires Supported(op) && Reportable(op, values) && Arranged(op, values, |values|, r)
    ensures |Compact(J.Array(r.outputs), number)| == 2 + OutputsText(op, values, Shift(op), number)
    ensures J.Nesting(J.Array(r.outputs)) == 1 + OutputsDepth(op, values, Shift(op))
  {
    ArrangedAreListed(op, values, r);
    OutputsAddText(op, values, J.Array(r.outputs), Shift(op), number);
    OutputsAddDepth(op, values, J.Array(r.outputs), Shift(op));
  }

  lemma ResultIs(op: Operation, values: seq<Datum>, r: Response, number: J.Number -> Bytes)
    requires Supported(op) && Reportable(op, values) && Arranged(op, values, |values|, r)
    ensures |Compact(r.result, number)| == ResultText(op, values, number) && J.Nesting(r.result) == ResultDepth(op, values)
  {
    if op.result.Some? {
      assert r.result == Report(op, values, 0);
      EncodedNesting(op.collected[0], values[0]);
    } else {
      assert r.result == J.Null && |NULL| == 4;
    }
  }

  lemma OutputsAreClean(op: Operation, values: seq<Datum>, r: Response)
    requires Supported(op) && Reportable(op, values) && Arranged(op, values, |values|, r) && AllEncodable(op, values)
    ensures J.Clean(J.Array(r.outputs)) && J.Clean(r.result)
  {
    forall i | 0 <= i < |values| ensures J.Clean(Report(op, values, i)) {
      EncodedIsClean(op.collected[i], values[i]);
    }
  }

  /** What the body of an operation is, measured by its values. */
  lemma OperationBodyIs(op: Operation, values: seq<Datum>, r: Response, number: J.Number -> Bytes)
    requires Supported(op) && Reportable(op, values) && Arranged(op, values, |values|, r) && AllEncodable(op, values)
    ensures var body := OperationBody(r);
      && J.Clean(body) && J.Nesting(body) == BodyDepth(op, values)
      && |Compact(body, number)| == BodyText(op, values, number)
  {
    TwoAdd(RESULT, r.result, OUTPUTS, J.Array(r.outputs), number);
    OutputsAre(op, values, r, number);
    ResultIs(op, values, r, number);
    OutputsAreClean(op, values, r);
  }

  ghost predicate OperationBlames(a: Answer, op: Operation, values: seq<Datum>, limits: C.Limits, number: J.Number -> Bytes)
    requires Supported(op) && Reportable(op, values)
  {
    && (a.TooLarge? ==> ReportCost(op, values, 0) > limits.maxBytes || BodyText(op, values, number) > limits.maxBytes)
    && (a.NotRepresentable? ==> !AllEncodable(op, values) || BodyDepth(op, values) > limits.maxDepth)
  }

  lemma {:induction false} DeeperThanOutputs(op: Operation, values: seq<Datum>, n: nat, i: nat)
    requires Reportable(op, values) && n <= i < |values|
    ensures EncodeDepth(op.collected[i], values[i]) <= OutputsDepth(op, values, n)
    decreases i - n
  {
    if n < i {
      DeeperThanOutputs(op, values, n + 1, i);
    }
  }

  lemma DeepValueMeansDeepBody(op: Operation, values: seq<Datum>, i: nat)
    requires Supported(op) && Reportable(op, values) && i < |values|
    ensures EncodeDepth(op.collected[i], values[i]) < BodyDepth(op, values)
  {
    if i >= Shift(op) {
      DeeperThanOutputs(op, values, Shift(op), i);
    }
  }

  /** What a client reads: under result what the operation returned, or null, and under outputs the
      values of its outputs, in order. */
  ghost predicate Reported(op: Operation, values: seq<Datum>, text: Bytes, number: J.Number -> Bytes)
    requires Supported(op) && Reportable(op, values)
  {
    var first := if op.result.Some? then 1 else 0;
    var returned := if op.result.Some? then Encoded(op.collected[0], values[0]) else J.Null;
    exists outputs: seq<J.Value> ::
      && Says(text, [[114, 101, 115, 117, 108, 116], [111, 117, 116, 112, 117, 116, 115]],  // result, outputs
              [returned, J.Array(outputs)], number)
      && first + |outputs| == |values|
      && forall k :: 0 <= k < |outputs| ==> outputs[k] == Encoded(op.collected[first + k], values[first + k])
  }

  lemma BodySays(op: Operation, values: seq<Datum>, r: Response, number: J.Number -> Bytes)
    requires Supported(op) && Reportable(op, values) && Arranged(op, values, |values|, r)
    ensures Reported(op, values, Compact(OperationBody(r), number), number)
  {
    TwoSay(RESULT, r.result, OUTPUTS, J.Array(r.outputs), number);
  }

  /** The end of `handle` for a completed operation. */
  method AnswerOperation(op: Operation, inv: Invocation, ghost values: seq<Datum>, limits: C.Limits, number: J.Number -> Bytes)
    returns (a: Answer)
    requires Supported(op) && Reportable(op, values) && |inv.values| == |values|
    requires forall i :: 0 <= i < |values| ==> inv.values[i].value == values[i]
    ensures a.Answered? <==> OperationFits(op, values, limits, number)
    ensures a.Answered? ==> Reported(op, values, a.text, number)
    ensures OperationBlames(a, op, values, limits, number)
  {
    var c := new C.CodecContext(limits);
    var r := Respond(op, inv, values, c);
    match r
    case Failed(code) =>
      if i: nat :| i < |values| && !Shallow(op.collected[i], values[i], limits.maxDepth) {
        DeepValueMeansDeepBody(op, values, i);
      }
      return Problem(code);
    case Ok(response) =>
      assert AllEncodable(op, values) by {
        assert forall i :: 0 <= i < |values| ==> Shallow(op.collected[i], values[i], limits.maxDepth);
      }
      OperationBodyIs(op, values, response, number);
      BodySays(op, values, response, number);
      a := Finish(OperationBody(response), limits, number);
  }

  /** The body of an operation is nested at least two deep, as is the request for it; without values
      it takes 28 bytes. */
  lemma OneLevelAnswersNoOperation(op: Operation, values: seq<Datum>, limits: C.Limits, number: J.Number -> Bytes)
    requires Supported(op) && Reportable(op, values)
    ensures limits.maxDepth < 2 ==> !OperationFits(op, values, limits, number)
    ensures |values| == 0 ==> (OperationFits(op, values, limits, number) <==> limits.maxDepth >= 2 && limits.maxBytes >= 28)
  {}

  /** Whatever the limits, an operation without arguments can return a result that encodes within
      them and is not answered; it has been admitted, run and finished by then. */
  lemma FullDepthResultIsRefused(limits: C.Limits, number: J.Number -> Bytes)
    requires limits.maxDepth > 0 && limits.maxBytes >= 2 * limits.maxDepth
    ensures exists op, values ::
      && Supported(op) && op.arguments == [] && Reportable(op, values)
      && ReportFits(op, values, limits.maxDepth, limits.maxBytes) && !OperationFits(op, values, limits, number)
  {
    NestIs(limits.maxDepth);
    var (t, d) := Nest(limits.maxDepth);
    var op, values := Operation([], [], Some(t), [t]), [d];
    assert Supported(op) && Reportable(op, values);
    assert ReportCost(op, values, 1) == 0;
    assert Shallow(op.collected[0], values[0], limits.maxDepth);
    DeepValueMeansDeepBody(op, values, 0);
    assert !OperationFits(op, values, limits, number);
  }
}
