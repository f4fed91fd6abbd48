/** Preparing an operation call: which data source is bound to which argument, to the result and
    to each output, before anything is dispatched, and what the response reports afterwards. */
module Invocations {
  import opened Prelude
  import opened Codecs
  import opened CodecRuns
  import opened CodecLaws
  import J = Json
  import C = CodecContexts

  /** A data source owned by an invocation. */
  class DataSource {
    var value: Datum

    constructor (initial: Datum)
      ensures value == initial
    {
      value := initial;
    }
  }

  /** A published operation; `outputs` are the indices of its mutable reference arguments. */
  datatype Operation = Operation(
    arguments: seq<Type>, outputs: seq<nat>, result: Option<Type>, collected: seq<Type>)

  function Shift(op: Operation): nat {
    if op.result.Some? then 1 else 0
  }

  /** What publication has checked of a supported operation: RTT collects the result, if any, and
      then each output, with the types of the signature. */
  ghost predicate Supported(op: Operation) {
    && |op.collected| == |op.outputs| + Shift(op)
    && (op.result.Some? ==> op.collected[0] == op.result.value)
    && (forall k :: 0 <= k < |op.outputs| ==>
          op.outputs[k] < |op.arguments| && op.collected[k + Shift(op)] == op.arguments[op.outputs[k]])
    && (forall i :: 0 <= i < |op.arguments| ==> TypeOk(op.arguments[i]))
    && (forall i :: 0 <= i < |op.collected| ==> TypeOk(op.collected[i]))
  }

  /** What is bound where.  With `send`, outputs are collected into data sources of their own;
      without it, they are the arguments themselves. */
  datatype Invocation = Invocation(
    send: bool, arguments: seq<DataSource>, values: seq<DataSource>)

  /** The answers RTT gives on the way. */
  datatype Oracle = Oracle(
    callerReady: bool, send: bool, assignable: bool, collectorReady: bool,
    prototype: Type -> Option<Datum>)  // None: `buildValue` yields nothing

  // ----- Arguments -----

  ghost function ArgumentsCost(types: seq<Type>, values: seq<J.Value>, n: nat): nat
    requires |types| == |values| && n <= |types|
    decreases |types| - n
  {
    if n == |types| then 0 else DecodeCost(types[n], values[n]) + ArgumentsCost(types, values, n + 1)
  }

  ghost predicate ArgumentsFit(types: seq<Type>, values: seq<J.Value>, limits: C.Limits) {
    && |types| == |values|
    && (forall i :: 0 <= i < |types| ==> Decodable(types[i], values[i]) && DecodeDepth(types[i], values[i]) <= limits.maxDepth)
    && ArgumentsCost(types, values, 0) <= limits.maxBytes
  }

  ghost predicate Bound(sources: seq<DataSource>, types: seq<Type>, values: seq<J.Value>)
    reads sources
    requires |sources| <= |types| == |values|
  {
    forall i :: 0 <= i < |sources| ==> Decodable(types[i], values[i]) && sources[i].value == Decoded(types[i], values[i])
  }

  /** What holds before the n-th argument. */
  ghost predicate Taking(types: seq<Type>, values: seq<J.Value>, n: nat, limits: C.Limits, remaining: nat)
    requires |types| == |values| && n <= |types|
  {
    && (forall i :: 0 <= i < n ==> Decodable(types[i], values[i]) && DecodeDepth(types[i], values[i]) <= limits.maxDepth)
    && remaining - ArgumentsCost(types, values, n) == limits.maxBytes - ArgumentsCost(types, values, 0)
  }

  lemma TakingNext(types: seq<Type>, values: seq<J.Value>, n: nat, limits: C.Limits, remaining: nat)
    requires |types| == |values| && n < |types| && Taking(types, values, n, limits, remaining)
    ensures
      if DecodeFits(types[n], values[n], limits.maxDepth, remaining)
      then Taking(types, values, n + 1, limits, remaining - DecodeCost(types[n], values[n]))
      else !ArgumentsFit(types, values, limits)
  {}

  lemma AllTaken(types: seq<Type>, values: seq<J.Value>, limits: C.Limits, remaining: nat)
    requires |types| == |values| && Taking(types, values, |types|, limits, remaining)
    ensures ArgumentsFit(types, values, limits)
  {}

  /** One argument, decoded into a data source of its own. */
  method DecodeArgument(c: C.CodecContext, t: Type, v: J.Value) returns (source: Option<DataSource>)
    requires c.Valid() && c.depth == 0
    modifies c
    ensures c.Valid() && c.depth == 0
    ensures source.Some? <==> DecodeFits(t, v, c.limits.maxDepth, old(c.remaining))
    ensures source.Some? ==>
      fresh(source.value) && source.value.value == Decoded(t, v) && c.remaining == old(c.remaining) - DecodeCost(t, v)
  {
    var decoded := Decode(c, t, v);
    if decoded.Failed? {
      return None;
    }
    var created := new DataSource(decoded.value);
    return Some(created);
  }

  /** All arguments share one budget. */
  method DecodeArguments(types: seq<Type>, values: seq<J.Value>, limits: C.Limits)
    returns (ok: bool, sources: seq<DataSource>)
    requires |types| == |values|
    ensures ok <==> ArgumentsFit(types, values, limits)
    ensures ok ==> |sources| == |types| && Distinct(sources) && Bound(sources, types, values)
    ensures forall x :: x in sources ==> fresh(x)
  {
    var c := new C.CodecContext(limits);
    sources := [];
    for n := 0 to |types|
      invariant c.Valid() && fresh(c) && c.depth == 0 && c.limits == limits && |sources| == n
      invariant Taking(types, values, n, limits, c.remaining)
      invariant Distinct(sources) && Bound(sources, types, values)
      invariant forall x :: x in sources ==> fresh(x)
    {
      TakingNext(types, values, n, limits, c.remaining);
      var source := DecodeArgument(c, types[n], values[n]);
      if source.None? {
        return false, sources;
      }
      sources := sources + [source.value];
    }
    AllTaken(types, values, limits, c.remaining);
    ok := true;
  }

  // ----- Outputs -----

  /** Without `send`, an output is the argument that the operation changes in place. */
  predicate Aliased(op: Operation, send: bool, i: nat) {
    !send && i >= Shift(op)
  }

  /** A slot of its own is made by sending RTT's prototype through the codec and back. */
  ghost function SlotCost(t: Type, prototype: Option<Datum>): nat
    requires IsPrototype(t, prototype)
  {
    if prototype.None? then 0
    else EncodeCost(t, prototype.value) + DecodeCost(t, Encoded(t, prototype.value))
  }

  ghost predicate SlotOk(t: Type, prototype: Option<Datum>, room: nat)
    requires IsPrototype(t, prototype)
  {
    prototype.Some? && Encodable(t, prototype.value) && EncodeDepth(t, prototype.value) <= room
  }

  method BuildSlot(c: C.CodecContext, t: Type, prototype: Option<Datum>) returns (value: Option<Datum>)
    requires c.Valid() && TypeOk(t) && IsPrototype(t, prototype)
    modifies c
    ensures c.Valid() && c.depth == old(c.depth)
    ensures value.Some? <==> SlotOk(t, prototype, old(c.Room())) && SlotCost(t, prototype) <= old(c.remaining)
    ensures value.Some? ==> value == prototype && c.remaining == old(c.remaining) - SlotCost(t, prototype)
  {
    if prototype.None? {
      return None;
    }
    var initial := Encode(c, t, prototype.value);
    if initial.Failed? {
      return None;
    }
    RoundTrip(t, prototype.value);
    var decoded := Decode(c, t, initial.value);
    return if decoded.Ok? then Some(decoded.value) else None;
  }

  ghost predicate IsPrototype(t: Type, d: Option<Datum>) {
    d.Some? ==> Fits(d.value, t)
  }

  /** RTT's prototypes, where it builds any, are values of their types. */
  ghost predicate Prototypes(op: Operation, prototype: Type -> Option<Datum>) {
    forall i :: 0 <= i < |op.collected| ==> IsPrototype(op.collected[i], prototype(op.collected[i]))
  }

  ghost function SlotsCost(op: Operation, send: bool, prototype: Type -> Option<Datum>, n: nat): nat
    requires Prototypes(op, prototype) && n <= |op.collected|
    decreases |op.collected| - n
  {
    if n == |op.collected| then 0
    else
      (if Aliased(op, send, n) then 0 else SlotCost(op.collected[n], prototype(op.collected[n])))
      + SlotsCost(op, send, prototype, n + 1)
  }

  ghost predicate SlotsFit(op: Operation, send: bool, prototype: Type -> Option<Datum>, limits: C.Limits)
    requires Prototypes(op, prototype)
  {
    && (forall i :: 0 <= i < |op.collected| && !Aliased(op, send, i) ==>
          SlotOk(op.collected[i], prototype(op.collected[i]), limits.maxDepth))
    && SlotsCost(op, send, prototype, 0) <= limits.maxBytes
  }

  /** Each value is the right argument, or a data source that nothing else refers to. */
  ghost predicate Wired(op: Operation, send: bool, arguments: seq<DataSource>, values: seq<DataSource>)
    requires Supported(op) && |arguments| == |op.arguments| && |values| <= |op.collected|
  {
    forall i :: 0 <= i < |values| ==>
      if Aliased(op, send, i) then values[i] == arguments[op.outputs[i - Shift(op)]]
      else values[i] !in arguments && values[i] !in values[..i]
  }

  lemma WireNext(op: Operation, send: bool, arguments: seq<DataSource>, values: seq<DataSource>, value: DataSource)
    requires Supported(op) && |arguments| == |op.arguments| && |values| < |op.collected|
    requires Wired(op, send, arguments, values)
    requires if Aliased(op, send, |values|) then value == arguments[op.outputs[|values| - Shift(op)]]
             else value !in arguments && value !in values
    ensures Wired(op, send, arguments, values + [value])
  {
    var more := values + [value];
    forall i | 0 <= i < |more|
      ensures if Aliased(op, send, i) then more[i] == arguments[op.outputs[i - Shift(op)]]
              else more[i] !in arguments && more[i] !in more[..i]
    {
      assert more[..i] == if i < |values| then values[..i] else values;
    }
  }

  /** What holds before the n-th value. */
  ghost predicate Binding(op: Operation, send: bool, prototype: Type -> Option<Datum>, n: nat, limits: C.Limits, remaining: nat)
    requires Prototypes(op, prototype) && n <= |op.collected|
  {
    && (forall i :: 0 <= i < n && !Aliased(op, send, i) ==>
          SlotOk(op.collected[i], prototype(op.collected[i]), limits.maxDepth))
    && remaining - SlotsCost(op, send, prototype, n) == limits.maxBytes - SlotsCost(op, send, prototype, 0)
  }

  lemma BindingNext(op: Operation, send: bool, prototype: Type -> Option<Datum>, n: nat, limits: C.Limits, remaining: nat)
    requires Prototypes(op, prototype) && n < |op.collected| && Binding(op, send, prototype, n, limits, remaining)
    ensures Aliased(op, send, n) ==> Binding(op, send, prototype, n + 1, limits, remaining)
    ensures !Aliased(op, send, n) ==>
      var t := op.collected[n];
      if SlotOk(t, prototype(t), limits.maxDepth) && SlotCost(t, prototype(t)) <= remaining
      then Binding(op, send, prototype, n + 1, limits, remaining - SlotCost(t, prototype(t)))
      else !SlotsFit(op, send, prototype, limits)
  {}

  lemma AllBound(op: Operation, send: bool, prototype: Type -> Option<Datum>, limits: C.Limits, remaining: nat)
    requires Prototypes(op, prototype) && Binding(op, send, prototype, |op.collected|, limits, remaining)
    ensures SlotsFit(op, send, prototype, limits)
  {}

  /** The data source behind the n-th value. */
  method BindValue(c: C.CodecContext, op: Operation, send: bool, arguments: seq<DataSource>,
                   prototype: Type -> Option<Datum>, n: nat)
    returns (source: Option<DataSource>)
    requires c.Valid() && c.depth == 0
    requires Supported(op) && Prototypes(op, prototype) && |arguments| == |op.arguments| && n < |op.collected|
    requires Binding(op, send, prototype, n, c.limits, c.remaining)
    modifies c
    ensures c.Valid() && c.depth == 0
    ensures source.None? ==> !SlotsFit(op, send, prototype, c.limits)
    ensures source.Some? ==> Binding(op, send, prototype, n + 1, c.limits, c.remaining)
    ensures source.Some? ==>
      if Aliased(op, send, n) then source.value == arguments[op.outputs[n - Shift(op)]]
      else fresh(source.value) && Some(source.value.value) == prototype(op.collected[n])
  {
    BindingNext(op, send, prototype, n, c.limits, c.remaining);
    if Aliased(op, send, n) {
      return Some(arguments[op.outputs[n - Shift(op)]]);
    }
    var value := BuildSlot(c, op.collected[n], prototype(op.collected[n]));
    if value.None? {
      return None;
    }
    var created := new DataSource(value.value);
    return Some(created);
  }

  method BindValues(op: Operation, send: bool, arguments: seq<DataSource>, prototype: Type -> Option<Datum>, limits: C.Limits)
    returns (ok: bool, values: seq<DataSource>)
    requires Supported(op) && Prototypes(op, prototype) && |arguments| == |op.arguments|
    ensures ok <==> SlotsFit(op, send, prototype, limits)
    ensures ok ==> |values| == |op.collected| && Wired(op, send, arguments, values)
    ensures ok ==> forall i :: 0 <= i < |values| && !Aliased(op, send, i) ==> fresh(values[i])
  {
    var c := new C.CodecContext(limits);
    values := [];
    for n := 0 to |op.collected|
      invariant c.Valid() && fresh(c) && c.depth == 0 && c.limits == limits && |values| == n
      invariant Binding(op, send, prototype, n, limits, c.remaining)
      invariant Wired(op, send, arguments, values)
      invariant forall i :: 0 <= i < n && !Aliased(op, send, i) ==> fresh(values[i])
      invariant forall i :: 0 <= i < n ==> values[i] in arguments || fresh(values[i])
    {
      var source := BindValue(c, op, send, arguments, prototype, n);
      if source.None? {
        return false, values;
      }
      WireNext(op, send, arguments, values, source.value);
      values := values + [source.value];
    }
    AllBound(op, send, prototype, limits, c.remaining);
    ok := true;
  }

  // ----- The whole preparation -----

  ghost predicate Prepares(op: Operation, values: seq<J.Value>, input: C.Limits, output: C.Limits, rtt: Oracle)
    requires Prototypes(op, rtt.prototype)
  {
    && ArgumentsFit(op.arguments, values, input) && rtt.callerReady && (rtt.send ==> rtt.assignable)
    && SlotsFit(op, rtt.send, rtt.prototype, output) && (rtt.send ==> rtt.collectorReady)
  }

  /** `prepareInvocation`. */
  method PrepareInvocation(op: Operation, values: seq<J.Value>, input: C.Limits, output: C.Limits, rtt: Oracle)
    returns (r: Option<Invocation>)
    requires Supported(op) && Prototypes(op, rtt.prototype)
    ensures r.Some? <==> Prepares(op, values, input, output, rtt)
    ensures r.Some? ==>
      var inv := r.value;
      && inv.send == rtt.send && |inv.arguments| == |op.arguments| && |inv.values| == |op.collected|
      && Distinct(inv.arguments) && Bound(inv.arguments, op.arguments, values)
      && Wired(op, inv.send, inv.arguments, inv.values)
      && (forall x :: x in inv.arguments ==> fresh(x))
  {
    if |values| != |op.arguments| {
      return None;
    }
    var decoded, arguments := DecodeArguments(op.arguments, values, input);
    if !decoded || !rtt.callerReady || (rtt.send && !rtt.assignable) {
      return None;
    }
    var bound, slots := BindValues(op, rtt.send, arguments, rtt.prototype, output);
    if !bound || (rtt.send && !rtt.collectorReady) {
      return None;
    }
    return Some(Invocation(rtt.send, arguments, slots));
  }

  // ----- What RTT writes, and what the response reports -----

  /** A client-thread call: RTT changes the arguments in place and stores what it returns. */
  method Call(op: Operation, inv: Invocation, after: seq<Datum>, returned: Datum)
    requires Supported(op) && !inv.send && |inv.arguments| == |op.arguments| == |after| && |inv.values| == |op.collected|
    requires Distinct(inv.arguments) && Wired(op, inv.send, inv.arguments, inv.values)
    modifies inv.arguments, inv.values
    ensures op.result.Some? ==> inv.values[0].value == returned
    ensures forall k :: 0 <= k < |op.outputs| ==> inv.values[k + Shift(op)].value == after[op.outputs[k]]
  {
    for n := 0 to |inv.arguments|
      invariant forall i :: 0 <= i < n ==> inv.arguments[i].value == after[i]
    {
      inv.arguments[n].value := after[n];
    }
    if op.result.Some? {
      assert !Aliased(op, inv.send, 0);
      inv.values[0].value := returned;
    }
    forall k | 0 <= k < |op.outputs| ensures inv.values[k + Shift(op)].value == after[op.outputs[k]] {
      assert Aliased(op, inv.send, k + Shift(op));
    }
  }

  /** A collected call: RTT stores the result and the outputs, and leaves the arguments alone. */
  method Collect(op: Operation, inv: Invocation, collected: seq<Datum>)
    requires Supported(op) && inv.send && |inv.arguments| == |op.arguments|
    requires |inv.values| == |op.collected| == |collected| && Wired(op, inv.send, inv.arguments, inv.values)
    modifies inv.values
    ensures forall i :: 0 <= i < |collected| ==> inv.values[i].value == collected[i]
    ensures forall x :: x in inv.arguments ==> x.value == old(x.value)
  {
    for n := 0 to |collected|
      invariant forall i :: 0 <= i < n ==> inv.values[i].value == collected[i]
      invariant forall x :: x in inv.arguments ==> x.value == old(x.value)
    {
      assert !Aliased(op, inv.send, n);
      assert forall i :: 0 <= i < n ==> inv.values[i] in inv.values[..n];
      inv.values[n].value := collected[n];
    }
  }

  datatype Response = Response(result: J.Value, outputs: seq<J.Value>)

  ghost predicate Reportable(op: Operation, values: seq<Datum>) {
    |values| == |op.collected| && forall i :: 0 <= i < |values| ==> Fits(values[i], op.collected[i])
  }

  ghost function Report(op: Operation, values: seq<Datum>, i: nat): J.Value
    requires Reportable(op, values) && i < |values|
  {
    Encoded(op.collected[i], values[i])
  }

  ghost function ReportCost(op: Operation, values: seq<Datum>, n: nat): nat
    requires Reportable(op, values) && n <= |values|
    decreases |values| - n
  {
    if n == |values| then 0 else EncodeCost(op.collected[n], values[n]) + ReportCost(op, values, n + 1)
  }

  ghost predicate Shallow(t: Type, d: Datum, room: nat)
    requires Fits(d, t)
  {
    Encodable(t, d) && EncodeDepth(t, d) <= room
  }

  ghost predicate ReportFits(op: Operation, values: seq<Datum>, room: nat, budget: nat)
    requires Reportable(op, values)
  {
    && (forall i :: 0 <= i < |values| ==> Shallow(op.collected[i], values[i], room))
    && ReportCost(op, values, 0) <= budget
  }

  /** What holds before the n-th value is reported. */
  ghost predicate Reporting(op: Operation, values: seq<Datum>, n: nat, room: nat, budget: nat, remaining: nat)
    requires Reportable(op, values) && n <= |values|
  {
    && (forall i :: 0 <= i < n ==> Shallow(op.collected[i], values[i], room))
    && remaining - ReportCost(op, values, n) == budget - ReportCost(op, values, 0)
  }

  lemma ReportingNext(op: Operation, values: seq<Datum>, n: nat, room: nat, budget: nat, remaining: nat)
    requires Reportable(op, values) && n < |values| && Reporting(op, values, n, room, budget, remaining)
    ensures
      if EncodeFits(op.collected[n], values[n], room, remaining)
      then Reporting(op, values, n + 1, room, budget, remaining - EncodeCost(op.collected[n], values[n]))
      else !ReportFits(op, values, room, budget)
  {}

  /** The first n values in their places: the result, if there is one, and the outputs in order. */
  ghost predicate Arranged(op: Operation, values: seq<Datum>, n: nat, r: Response)
    requires Reportable(op, values) && n <= |values|
  {
    && r.result == (if op.result.Some? && n > 0 then Report(op, values, 0) else J.Null)
    && |r.outputs| == (if n < Shift(op) then 0 else n - Shift(op))
    && forall k :: 0 <= k < |r.outputs| ==> r.outputs[k] == Report(op, values, k + Shift(op))
  }

  lemma ArrangedNext(op: Operation, values: seq<Datum>, n: nat, r: Response)
    requires Reportable(op, values) && n < |values| && Arranged(op, values, n, r)
    ensures
      var v := Report(op, values, n);
      Arranged(op, values, n + 1,
               if n == 0 && op.result.Some? then Response(v, r.outputs) else Response(r.result, r.outputs + [v]))
  {}

  /** Why the values cannot be reported. */
  ghost predicate ReportBlames(code: J.Code, op: Operation, values: seq<Datum>, room: nat, budget: nat)
    requires Reportable(op, values)
  {
    match code
    case DocumentLimit => ReportCost(op, values, 0) > budget
    case AllocationLimit => false
    case _ => exists i :: 0 <= i < |values| && !Shallow(op.collected[i], values[i], room)
  }

  lemma BlamedReport(op: Operation, values: seq<Datum>, n: nat, room: nat, budget: nat, remaining: nat, code: J.Code)
    requires Reportable(op, values) && n < |values| && Reporting(op, values, n, room, budget, remaining)
    requires EncodeBlames(code, op.collected[n], values[n], room, remaining)
    ensures ReportBlames(code, op, values, room, budget)
  {
    if !code.DocumentLimit? {
      assert !Shallow(op.collected[n], values[n], room);
    }
  }

  /** The values of a completed operation: the first is the result if there is one, the others are
      outputs. */
  method Respond(op: Operation, inv: Invocation, ghost values: seq<Datum>, c: C.CodecContext) returns (r: Result<Response>)
    requires Supported(op) && Reportable(op, values) && |inv.values| == |values| && c.Valid()
    requires forall i :: 0 <= i < |values| ==> inv.values[i].value == values[i]
    modifies c
    ensures r.Ok? <==> ReportFits(op, values, old(c.Room()), old(c.remaining))
    ensures r.Ok? ==> Arranged(op, values, |values|, r.value)
    ensures r.Failed? ==> ReportBlames(r.code, op, values, old(c.Room()), old(c.remaining))
  {
    var result: J.Value, outputs: seq<J.Value> := J.Null, [];
    for n := 0 to |inv.values|
      invariant c.Valid() && c.depth == old(c.depth)
      invariant Reporting(op, values, n, old(c.Room()), old(c.remaining), c.remaining)
      invariant Arranged(op, values, n, Response(result, outputs))
    {
      assert Fits(values[n], op.collected[n]);
      ReportingNext(op, values, n, c.Room(), old(c.remaining), c.remaining);
      ghost var room, remaining := c.Room(), c.remaining;
      var encoded := Encode(c, op.collected[n], inv.values[n].value);
      if encoded.Failed? {
        BlamedReport(op, values, n, room, old(c.remaining), remaining, encoded.code);
        return Failed(encoded.code);
      }
      ArrangedNext(op, values, n, Response(result, outputs));
      if n == 0 && op.result.Some? {
        result := encoded.value;
      } else {
        outputs := outputs + [encoded.value];
      }
    }
    return Ok(Response(result, outputs));
  }
}
