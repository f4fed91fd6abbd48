/** Percent-encoding of RTT names and the canonical form of request paths (sections 2.1, 2.3 and
    6.2.2 of RFC 3986). */
module Routes {
  import opened Prelude
  import Utf8

  const SLASH: byte := 47
  const PERCENT: byte := 37
  const HASH: byte := 35
  const QUESTION: byte := 63
  const BACKSLASH: byte := 92
  const DOT: byte := 46

  const MAX_TARGET: nat := 8192

  ghost predicate ValidName(name: Bytes) {
    && name != [] && |name| <= 1024 && name != [DOT] && name != [DOT, DOT]
    && 0 !in name && Utf8.WellFormed(name)
  }

  method CheckName(name: Bytes) returns (ok: bool)
    ensures ok <==> ValidName(name)
  {
    ok := Utf8.ValidUtf8(name);
    ok := ok && name != [] && |name| <= 1024 && name != [DOT] && name != [DOT, DOT] && 0 !in name;
  }

  predicate Unreserved(c: byte) {
    65 <= c <= 90 || 97 <= c <= 122 || 48 <= c <= 57 || c == 45 || c == DOT || c == 95 || c == 126
  }

  function UpperHex(n: nat): byte
    requires n < 16
  {
    (if n < 10 then 48 + n else 55 + n) as byte
  }

  /** The value of a hexadecimal digit, or -1. */
  function Hex(c: byte): int {
    if 48 <= c <= 57 then c as int - 48
    else if 65 <= c <= 70 then c as int - 55
    else if 97 <= c <= 102 then c as int - 87
    else -1
  }

  // ----- Segments -----

  function EncodeByte(c: byte): Bytes {
    if Unreserved(c) then [c] else [PERCENT, UpperHex(c as nat / 16), UpperHex(c as nat % 16)]
  }

  function Encode(name: Bytes): Bytes {
    if name == [] then [] else EncodeByte(name[0]) + Encode(name[1..])
  }

  predicate Forbidden(c: byte) {
    c <= 0x20 || c == 0x7F || c == BACKSLASH
  }

  /** The name that a raw segment stands for. */
  function Decode(segment: Bytes): Option<Bytes>
    decreases |segment|
  {
    if segment == [] then Some([])
    else if segment[0] == PERCENT then
      if |segment| < 3 || Hex(segment[1]) < 0 || Hex(segment[2]) < 0 then None
      else Prepend((Hex(segment[1]) * 16 + Hex(segment[2])) as byte, Decode(segment[3..]))
    else if Forbidden(segment[0]) then None
    else Prepend(segment[0], Decode(segment[1..]))
  }

  function Prepend(c: byte, rest: Option<Bytes>): Option<Bytes> {
    if rest.Some? then Some([c] + rest.value) else None
  }

  lemma HexReads(n: nat)
    requires n < 16
    ensures Hex(UpperHex(n)) == n && Unreserved(UpperHex(n))
  {}

  /** Decoding undoes encoding, for every string of bytes. */
  lemma {:induction false} DecodeUndoesEncode(name: Bytes)
    ensures Decode(Encode(name)) == Some(name)
  {
    if name != [] {
      var c, rest := name[0], Encode(name[1..]);
      DecodeUndoesEncode(name[1..]);
      assert [c] + name[1..] == name;
      if Unreserved(c) {
        assert Encode(name)[1..] == rest;
      } else {
        HexReads(c as nat / 16);
        HexReads(c as nat % 16);
        assert Encode(name)[3..] == rest;
      }
    }
  }

  lemma EncodeIsInjective(m: Bytes, n: Bytes)
    requires Encode(m) == Encode(n)
    ensures m == n
  {
    DecodeUndoesEncode(m);
    DecodeUndoesEncode(n);
  }

  /** Only unreserved characters and percent signs are written. */
  predicate Safe(text: Bytes) {
    forall i :: 0 <= i < |text| ==> Unreserved(text[i]) || text[i] == PERCENT
  }

  lemma {:induction false} EncodeIsSafe(name: Bytes)
    ensures Safe(Encode(name))
  {
    if name != [] {
      HexReads(name[0] as nat / 16);
      HexReads(name[0] as nat % 16);
      EncodeIsSafe(name[1..]);
    }
  }

  lemma {:induction false} UnreservedIsKept(name: Bytes)
    requires forall i :: 0 <= i < |name| ==> Unreserved(name[i])
    ensures Encode(name) == name
  {
    if name != [] {
      UnreservedIsKept(name[1..]);
    }
  }

  lemma {:induction false} EncodeAppend(m: Bytes, n: Bytes)
    ensures Encode(m + n) == Encode(m) + Encode(n)
  {
    if m == [] {
      assert m + n == n;
    } else {
      EncodeAppend(m[1..], n);
      TailOfAppend(m, n);
      Associate(EncodeByte(m[0]), Encode(m[1..]), Encode(n));
    }
  }

  /** `encodeSegment`. */
  method EncodeSegment(name: Bytes) returns (encoded: Bytes)
    ensures encoded == Encode(name)
  {
    encoded := [];
    for n := 0 to |name|
      invariant encoded == Encode(name[..n])
    {
      assert name[..n + 1] == name[..n] + [name[n]];
      EncodeAppend(name[..n], [name[n]]);
      var c := name[n];
      if Unreserved(c) {
        encoded := encoded + [c];
      } else {
        encoded := encoded + [PERCENT] + [UpperHex(c as nat / 16)] + [UpperHex(c as nat % 16)];
      }
    }
    assert name[..|name|] == name;
  }

  // ----- Paths -----

  /** The canonical path of a list of names. */
  function PathOf(names: seq<Bytes>): Bytes {
    if names == [] then [] else [SLASH] + Encode(names[0]) + PathOf(names[1..])
  }

  ghost predicate ValidNames(names: seq<Bytes>) {
    forall i :: 0 <= i < |names| ==> ValidName(names[i])
  }

  /** Where the segment that starts the text ends. */
  function SegmentEnd(text: Bytes): (end: nat)
    ensures end <= |text| && SLASH !in text[..end] && (end < |text| ==> text[end] == SLASH)
  {
    if text == [] || text[0] == SLASH then 0 else 1 + SegmentEnd(text[1..])
  }

  /** The names in a path from which the leading slash has been taken off. */
  ghost function Names(text: Bytes): Option<seq<Bytes>>
    decreases |text|
  {
    var end := SegmentEnd(text);
    var name := Decode(text[..end]);
    if name.None? || !ValidName(name.value) then None
    else if end == |text| then Some([name.value])
    else
      var rest := Names(text[end + 1..]);
      if rest.Some? then Some([name.value] + rest.value) else None
  }

  function BeforeQuery(text: Bytes): (r: Bytes)
    ensures r <= text && QUESTION !in r && (|r| < |text| ==> text[|r|] == QUESTION)
  {
    if text == [] || text[0] == QUESTION then [] else [text[0]] + BeforeQuery(text[1..])
  }

  predicate TargetOk(target: Bytes) {
    target != [] && target[0] == SLASH && |target| <= MAX_TARGET && HASH !in target
  }

  /** The names that a request target selects by, if the target is accepted. */
  ghost function Selected(target: Bytes): Option<seq<Bytes>> {
    if TargetOk(target) then Names(BeforeQuery(target)[1..]) else None
  }

  lemma {:induction false} NamesAreValid(text: Bytes)
    requires Names(text).Some?
    ensures Names(text).value != [] && ValidNames(Names(text).value)
    decreases |text|
  {
    var end := SegmentEnd(text);
    if end < |text| {
      NamesAreValid(text[end + 1..]);
    }
  }

  lemma {:induction false} SegmentEndOfSafe(segment: Bytes, rest: Bytes)
    requires SLASH !in segment && (rest == [] || rest[0] == SLASH)
    ensures SegmentEnd(segment + rest) == |segment|
  {
    if segment == [] {
      assert segment + rest == rest;
    } else {
      SegmentEndOfSafe(segment[1..], rest);
      assert (segment + rest)[1..] == segment[1..] + rest;
    }
  }

  lemma PathStartsWithSlash(names: seq<Bytes>)
    ensures names != [] ==> PathOf(names) != [] && PathOf(names)[0] == SLASH
    ensures names == [] ==> PathOf(names) == []
  {}

  ghost function Joined(names: seq<Bytes>, rest: Option<seq<Bytes>>): Option<seq<Bytes>> {
    if rest.Some? then Some(names + rest.value) else None
  }

  lemma NamesStep(segment: Bytes, rest: Bytes, name: Bytes)
    requires SLASH !in segment && (rest == [] || rest[0] == SLASH)
    requires Decode(segment) == Some(name) && ValidName(name)
    ensures Names(segment + rest) == if rest == [] then Some([name]) else Joined([name], Names(rest[1..]))
  {
    SegmentEndOfSafe(segment, rest);
    assert (segment + rest)[..|segment|] == segment;
    if rest != [] {
      assert (segment + rest)[|segment| + 1..] == rest[1..];
    }
  }

  lemma JoinFirst(names: seq<Bytes>)
    requires names != []
    ensures Joined([names[0]], Some(names[1..])) == Some(names)
    ensures |names| == 1 ==> names == [names[0]]
  {
    SplitFirst(names);
  }

  /** Reading a canonical path gives back the names it was made from. */
  lemma {:induction false} NamesUndoPath(names: seq<Bytes>)
    requires names != [] && ValidNames(names)
    ensures Names(PathOf(names)[1..]) == Some(names)
  {
    var segment, rest := Encode(names[0]), PathOf(names[1..]);
    EncodeIsSafe(names[0]);
    PathStartsWithSlash(names[1..]);
    DecodeUndoesEncode(names[0]);
    NamesStep(segment, rest, names[0]);
    DropFirst(SLASH, segment, rest);
    JoinFirst(names);
    if |names| > 1 {
      NamesUndoPath(names[1..]);
    }
  }

  lemma PathIsInjective(m: seq<Bytes>, n: seq<Bytes>)
    requires ValidNames(m) && ValidNames(n) && PathOf(m) == PathOf(n)
    ensures m == n
  {
    PathStartsWithSlash(m);
    PathStartsWithSlash(n);
    if m != [] {
      NamesUndoPath(m);
      NamesUndoPath(n);
    }
  }

  lemma {:induction false} PathIsPlain(names: seq<Bytes>)
    ensures HASH !in PathOf(names) && QUESTION !in PathOf(names)
  {
    if names != [] {
      EncodeIsSafe(names[0]);
      PathIsPlain(names[1..]);
    }
  }

  lemma {:induction false} NoQuery(text: Bytes)
    requires QUESTION !in text
    ensures BeforeQuery(text) == text
  {
    if text != [] {
      NoQuery(text[1..]);
    }
  }

  /** A canonical path is accepted again, as itself, exactly when it fits a request target. */
  lemma CanonicalIsFixed(names: seq<Bytes>)
    requires names != [] && ValidNames(names)
    ensures Selected(PathOf(names)) == if |PathOf(names)| <= MAX_TARGET then Some(names) else None
  {
    PathStartsWithSlash(names);
    PathIsPlain(names);
    NoQuery(PathOf(names));
    NamesUndoPath(names);
  }

  /** Accepted targets have the same canonical path exactly when they select the same names. */
  lemma SamePathIffSameNames(s: Bytes, t: Bytes)
    requires Selected(s).Some? && Selected(t).Some?
    ensures PathOf(Selected(s).value) == PathOf(Selected(t).value) <==> Selected(s) == Selected(t)
  {
    NamesAreValid(BeforeQuery(s)[1..]);
    NamesAreValid(BeforeQuery(t)[1..]);
    if PathOf(Selected(s).value) == PathOf(Selected(t).value) {
      PathIsInjective(Selected(s).value, Selected(t).value);
    }
  }

  // ----- A canonical path that is no longer accepted -----

  /** The names as they are, unescaped. */
  function RawPath(names: seq<Bytes>): Bytes {
    if names == [] then [] else [SLASH] + names[0] + RawPath(names[1..])
  }

  ghost predicate Bare(name: Bytes) {
    ValidName(name) && Decode(name) == Some(name) && SLASH !in name && HASH !in name && QUESTION !in name
  }

  lemma {:induction false} RawPathSelects(names: seq<Bytes>)
    requires names != [] && forall i :: 0 <= i < |names| ==> Bare(names[i])
    ensures Names(RawPath(names)[1..]) == Some(names)
  {
    var segment, rest := names[0], RawPath(names[1..]);
    assert Bare(names[0]);
    NamesStep(segment, rest, names[0]);
    DropFirst(SLASH, segment, rest);
    JoinFirst(names);
    if |names| > 1 {
      RawPathSelects(names[1..]);
    }
  }

  function Repeat(name: Bytes, k: nat): (names: seq<Bytes>)
    ensures |names| == k && forall i :: 0 <= i < k ==> names[i] == name
  {
    if k == 0 then [] else [name] + Repeat(name, k - 1)
  }

  lemma {:induction false} RawPathSize(name: Bytes, k: nat, c: byte)
    requires c !in name && c != SLASH
    ensures |RawPath(Repeat(name, k))| == k * (|name| + 1) && c !in RawPath(Repeat(name, k))
  {
    if k > 0 {
      RawPathSize(name, k - 1, c);
      assert Repeat(name, k)[1..] == Repeat(name, k - 1);
    }
  }

  lemma {:induction false} RepeatedPathSize(name: Bytes, k: nat)
    ensures |PathOf(Repeat(name, k))| == k * (|Encode(name)| + 1)
  {
    if k > 0 {
      RepeatedPathSize(name, k - 1);
      assert Repeat(name, k)[1..] == Repeat(name, k - 1);
    }
  }

  function Bangs(k: nat): Bytes {
    if k == 0 then [] else [33] + Bangs(k - 1)
  }

  lemma {:induction false} BangsGrow(k: nat)
    ensures |Bangs(k)| == k && |Encode(Bangs(k))| == 3 * k && Decode(Bangs(k)) == Some(Bangs(k))
    ensures forall i :: 0 <= i < k ==> Bangs(k)[i] == 33
  {
    if k > 0 {
      BangsGrow(k - 1);
      assert Bangs(k)[1..] == Bangs(k - 1);
    }
  }

  lemma OutgrowsTarget(name: Bytes, k: nat)
    requires Bare(name) && k > 0 && k * (|name| + 1) <= MAX_TARGET < k * (|Encode(name)| + 1)
    ensures Selected(RawPath(Repeat(name, k))) == Some(Repeat(name, k)) && Selected(PathOf(Repeat(name, k))).None?
  {
    var names := Repeat(name, k);
    RawPathSelects(names);
    RawPathSize(name, k, HASH);
    RawPathSize(name, k, QUESTION);
    NoQuery(RawPath(names));
    RepeatedPathSize(name, k);
    CanonicalIsFixed(names);
  }

  /** Eight segments of k exclamation marks, from 342 to 1023: accepted, but the canonical path,
      three times as long, is not. */
  lemma CanonicalMayOutgrowTarget(k: nat)
    requires 342 <= k <= 1023
    ensures
      var target := RawPath(Repeat(Bangs(k), 8));
      Selected(target).Some? && Selected(PathOf(Selected(target).value)).None?
  {
    BangsGrow(k);
    Utf8.AsciiIsWellFormed(Bangs(k));
    OutgrowsTarget(Bangs(k), 8);
  }

  // ----- The request loop -----

  function PrependAll(decoded: Bytes, rest: Option<Bytes>): Option<Bytes> {
    if rest.Some? then Some(decoded + rest.value) else None
  }

  lemma PrependNothing(rest: Option<Bytes>)
    ensures PrependAll([], rest) == rest
  {
    if rest.Some? {
      assert [] + rest.value == rest.value;
    }
  }

  lemma PrependOne(decoded: Bytes, c: byte, rest: Option<Bytes>)
    ensures PrependAll(decoded, Prepend(c, rest)) == PrependAll(decoded + [c], rest)
  {
    if rest.Some? {
      assert decoded + ([c] + rest.value) == decoded + [c] + rest.value;
    }
  }

  lemma PrependAllDone(decoded: Bytes, segment: Bytes)
    ensures PrependAll(decoded, Decode(segment[|segment|..])) == Some(decoded)
  {
    assert segment[|segment|..] == [];
    assert decoded + [] == decoded;
  }

  lemma JoinOne(names: seq<Bytes>, name: Bytes, rest: Option<seq<Bytes>>)
    ensures Joined([], rest) == rest
    ensures Joined(names, Joined([name], rest)) == Joined(names + [name], rest)
  {
    if rest.Some? {
      assert [] + rest.value == rest.value;
      assert names + ([name] + rest.value) == names + [name] + rest.value;
    }
  }

  /** The inner loop of `canonicalRequestPath`. */
  method DecodeSegment(segment: Bytes) returns (name: Option<Bytes>)
    ensures name == Decode(segment)
  {
    var decoded: Bytes := [];
    var i := 0;
    assert segment[0..] == segment;
    PrependNothing(Decode(segment));
    while i < |segment|
      invariant i <= |segment|
      invariant Decode(segment) == PrependAll(decoded, Decode(segment[i..]))
    {
      var c := segment[i];
      if c == PERCENT {
        if |segment| - i < 3 || Hex(segment[i + 1]) < 0 || Hex(segment[i + 2]) < 0 {
          return None;
        }
        assert segment[i..][3..] == segment[i + 3..];
        var octet := (Hex(segment[i + 1]) * 16 + Hex(segment[i + 2])) as byte;
        PrependOne(decoded, octet, Decode(segment[i + 3..]));
        decoded := decoded + [octet];
        i := i + 3;
      } else {
        if c <= 0x20 || c == 0x7F || c == BACKSLASH {
          return None;
        }
        assert segment[i..][1..] == segment[i + 1..];
        PrependOne(decoded, c, Decode(segment[i + 1..]));
        decoded := decoded + [c];
        i := i + 1;
      }
    }
    PrependAllDone(decoded, segment);
    return Some(decoded);
  }

  lemma {:induction false} PathAppend(names: seq<Bytes>, name: Bytes)
    ensures PathOf(names + [name]) == PathOf(names) + [SLASH] + Encode(name)
  {
    if names == [] {
      assert ([] + [name])[1..] == [];
    } else {
      PathAppend(names[1..], name);
      TailOfAppend(names, [name]);
      var first, rest := [SLASH] + Encode(names[0]), PathOf(names[1..]);
      Associate(first, rest, [SLASH]);
      Associate(first, rest + [SLASH], Encode(name));
    }
  }

  /** The segment up to the next slash, then the rest. */
  lemma NamesFrom(target: Bytes, begin: nat, end: nat)
    requires begin <= |target| && end == begin + SegmentEnd(target[begin..])
    ensures Names(target[begin..]) == Following(target, end, Decode(target[begin..end]))
  {
    assert target[begin..][..end - begin] == target[begin..end];
    if end < |target| {
      assert target[begin..][end - begin + 1..] == target[end + 1..];
    }
  }

  ghost function Following(target: Bytes, end: nat, name: Option<Bytes>): Option<seq<Bytes>>
    requires end <= |target|
  {
    if name.None? || !ValidName(name.value) then None
    else if end == |target| then Some([name.value])
    else Joined([name.value], Names(target[end + 1..]))
  }

  /** One round of the outer loop: a decoded and checked segment. */
  method ReadSegment(target: Bytes, begin: nat) returns (end: nat, name: Option<Bytes>)
    requires begin <= |target|
    ensures begin <= end <= |target| && (name.Some? ==> ValidName(name.value))
    ensures Names(target[begin..]) == Following(target, end, name)
  {
    end := begin + SegmentEnd(target[begin..]);
    NamesFrom(target, begin, end);
    name := DecodeSegment(target[begin..end]);
    if name.Some? {
      var ok := CheckName(name.value);
      if !ok {
        name := None;
      }
    }
  }

  /** `canonicalRequestPath`. */
  method CanonicalRequestPath(target0: Bytes) returns (path: Option<Bytes>)
    ensures path == if Selected(target0).Some? then Some(PathOf(Selected(target0).value)) else None
  {
    if target0 == [] || target0[0] != SLASH || |target0| > MAX_TARGET || HASH in target0 {
      return None;
    }
    var target := BeforeQuery(target0);
    var result: Bytes := [];
    var begin := 1;
    ghost var names: seq<Bytes> := [];
    ghost var left := Names(target[1..]);
    JoinOne([], [], left);
    while true
      invariant 1 <= begin <= |target| && result == PathOf(names)
      invariant left == Names(target[begin..]) && Selected(target0) == Joined(names, left)
      decreases |target| - begin
    {
      var end, name := ReadSegment(target, begin);
      if name.None? {
        return None;
      }
      var encoded := EncodeSegment(name.value);
      PathAppend(names, name.value);
      result := result + [SLASH] + encoded;
      if end == |target| {
        return Some(result);
      }
      left := Names(target[end + 1..]);
      JoinOne(names, name.value, left);
      names := names + [name.value];
      begin := end + 1;
    }
  }
}
