/** The byte and depth budget of one conversion. */
module CodecContexts {
  import opened Prelude
  import Utf8
  import J = Json

  datatype Limits = Limits(maxBytes: nat, maxDepth: nat, maxAllocation: nat)

  /** The bytes a string takes when every control character is written as \u00XX. */
  function EscapedSize(b: byte): nat {
    if b == 34 || b == 92 then 2 else if b < 0x20 then 6 else 1
  }

  function EscapedFrom(text: Bytes, n: nat): nat
    requires n <= |text|
    decreases |text| - n
  {
    if n == |text| then 0 else EscapedSize(text[n]) + EscapedFrom(text, n + 1)
  }

  /** The charge for a string, quotes included. */
  function StringCost(text: Bytes): nat {
    2 + EscapedFrom(text, 0)
  }

  class CodecContext {
    const limits: Limits
    var depth: nat
    var remaining: nat

    predicate Valid()
      reads this
    {
      depth <= limits.maxDepth && remaining <= limits.maxBytes
    }

    /** How much deeper a conversion may still go. */
    function Room(): nat
      reads this
      requires Valid()
    {
      limits.maxDepth - depth
    }

    constructor (given: Limits)
      ensures Valid() && limits == given && depth == 0 && remaining == given.maxBytes
    {
      limits, depth, remaining := given, 0, given.maxBytes;
    }

    method Enter() returns (error: Option<J.Code>)
      requires Valid()
      modifies this`depth
      ensures Valid()
      ensures if old(Room()) == 0 then error == Some(J.DepthLimit) && depth == old(depth)
              else error.None? && depth == old(depth) + 1
    {
      if depth == limits.maxDepth {
        return Some(J.DepthLimit);
      }
      depth := depth + 1;
      return None;
    }

    method Leave()
      requires Valid()
      modifies this`depth
      ensures Valid() && depth == if old(depth) == 0 then 0 else old(depth) - 1
    {
      if depth != 0 {
        depth := depth - 1;
      }
    }

    method Account(bytes: nat) returns (error: Option<J.Code>)
      requires Valid()
      modifies this`remaining
      ensures Valid()
      ensures if bytes > old(remaining) then error == Some(J.DocumentLimit) && remaining == old(remaining)
              else error.None? && remaining == old(remaining) - bytes
    {
      if bytes > remaining {
        return Some(J.DocumentLimit);
      }
      remaining := remaining - bytes;
      return None;
    }

    /** `accountJsonString`. */
    method AccountString(text: Bytes) returns (error: Option<J.Code>)
      requires Valid()
      modifies this`remaining
      ensures Valid() && remaining <= old(remaining)
      ensures error.None? <==> Utf8.WellFormed(text) && StringCost(text) <= old(remaining)
      ensures error.None? ==> remaining == old(remaining) - StringCost(text)
      ensures error.Some? ==> error.value == if Utf8.WellFormed(text) then J.DocumentLimit else J.InvalidUtf8
    {
      var ok := Utf8.ValidUtf8(text);
      if !ok {
        return Some(J.InvalidUtf8);
      }
      error := Account(2);
      if error.Some? {
        return;
      }
      for n := 0 to |text|
        invariant Valid() && error.None? && remaining <= old(remaining)
        invariant remaining - EscapedFrom(text, n) == old(remaining) - StringCost(text)
      {
        error := Account(EscapedSize(text[n]));
        if error.Some? {
          return;
        }
      }
    }
  }

  /** The constructor throws unless every limit is positive. */
  method NewContext(limits: Limits) returns (context: Option<CodecContext>)
    ensures context.Some? <==> limits.maxBytes > 0 && limits.maxDepth > 0 && limits.maxAllocation > 0
    ensures context.Some? ==>
      && fresh(context.value) && context.value.Valid() && context.value.limits == limits
      && context.value.depth == 0 && context.value.remaining == limits.maxBytes
  {
    if limits.maxBytes == 0 || limits.maxDepth == 0 || limits.maxAllocation == 0 {
      return None;
    }
    var c := new CodecContext(limits);
    return Some(c);
  }
}
