/** Which names a request target spells, after sections 2.1 and 2.3 of RFC 3986, said character by
    character, and that canonicalisation reads exactly that. */
module RequestGrammar {
  import opened Prelude
  import opened Routes
  import Utf8

  /** A hexadecimal digit, in either case, and its value. */
  predicate HexDigit(c: byte, value: int) {
    || ('0' as int <= c as int <= '9' as int && value == c as int - '0' as int)
    || ('A' as int <= c as int <= 'F' as int && value == 10 + c as int - 'A' as int)
    || ('a' as int <= c as int <= 'f' as int && value == 10 + c as int - 'a' as int)
  }

  /** The segment spells the name: octets that stand for themselves, which control characters, the
      space and the backslash may not, and percent-encoded ones. */
  predicate Spells(segment: Bytes, name: Bytes)
    decreases |segment|
  {
    if segment == [] then name == []
    else if segment[0] as int == '%' as int then
      && |segment| >= 3 && name != []
      && HexDigit(segment[1], name[0] as int / 16) && HexDigit(segment[2], name[0] as int % 16)
      && Spells(segment[3..], name[1..])
    else
      && name != [] && name[0] == segment[0]
      && segment[0] as int > ' ' as int && segment[0] != 127 && segment[0] as int != '\\' as int
      && Spells(segment[1..], name[1..])
  }

  lemma HexIsDigit(c: byte, value: int)
    ensures HexDigit(c, value) <==> value >= 0 && Hex(c) == value
    ensures Hex(c) >= 0 ==> Hex(c) < 16
  {}

  /** Decoding yields the one name that the segment spells. */
  lemma {:induction false} DecodeSpells(segment: Bytes, name: Bytes)
    ensures Spells(segment, name) <==> Decode(segment) == Some(name)
    decreases |segment|
  {
    if segment != [] && segment[0] == PERCENT {
      if |segment| >= 3 {
        if name != [] {
          HexIsDigit(segment[1], name[0] as int / 16);
          HexIsDigit(segment[2], name[0] as int % 16);
          DecodeSpells(segment[3..], name[1..]);
          SplitFirst(name);
        }
        HexIsDigit(segment[1], Hex(segment[1]));
        HexIsDigit(segment[2], Hex(segment[2]));
      }
    } else if segment != [] && name != [] {
      DecodeSpells(segment[1..], name[1..]);
      SplitFirst(name);
    }
  }

  /** unreserved = ALPHA / DIGIT / "-" / "." / "_" / "~" */
  predicate StandsForItself(c: byte) {
    || 'A' as int <= c as int <= 'Z' as int || 'a' as int <= c as int <= 'z' as int
    || '0' as int <= c as int <= '9' as int
    || c as int == '-' as int || c as int == '.' as int || c as int == '_' as int || c as int == '~' as int
  }

  predicate UpperDigit(c: byte) {
    '0' as int <= c as int <= '9' as int || 'A' as int <= c as int <= 'F' as int
  }

  /** Nothing is encoded that need not be, and what is, in upper case. */
  predicate Normal(text: Bytes, name: Bytes)
    requires Spells(text, name)
    decreases |text|
  {
    if text == [] then true
    else if text[0] as int == '%' as int then
      !StandsForItself(name[0]) && UpperDigit(text[1]) && UpperDigit(text[2]) && Normal(text[3..], name[1..])
    else StandsForItself(text[0]) && Normal(text[1..], name[1..])
  }

  lemma {:induction false} EncodedIsNormal(name: Bytes)
    ensures Spells(Encode(name), name) && Normal(Encode(name), name)
  {
    if name != [] {
      var c, rest := name[0], Encode(name[1..]);
      EncodedIsNormal(name[1..]);
      EncodedByteIsNormal(c);
      if Unreserved(c) {
        assert Encode(name)[1..] == rest;
      } else {
        assert Encode(name)[3..] == rest;
      }
    }
  }

  lemma {:induction false} NormalIsEncoded(text: Bytes, name: Bytes)
    requires Spells(text, name) && Normal(text, name)
    ensures text == Encode(name)
    decreases |text|
  {
    if text != [] {
      EncodedByteIsNormal(name[0]);
      if text[0] == PERCENT {
        NormalIsEncoded(text[3..], name[1..]);
        UpperIsWritten(text[1], name[0] as int / 16);
        UpperIsWritten(text[2], name[0] as int % 16);
        assert text == [text[0], text[1], text[2]] + text[3..];
      } else {
        NormalIsEncoded(text[1..], name[1..]);
        assert text == [text[0]] + text[1..];
      }
    }
  }

  /** Encoding writes the one normal spelling of a name. */
  lemma EncodeIsNormal(text: Bytes, name: Bytes)
    ensures text == Encode(name) <==> Spells(text, name) && Normal(text, name)
  {
    EncodedIsNormal(name);
    if Spells(text, name) && Normal(text, name) {
      NormalIsEncoded(text, name);
    }
  }

  lemma EncodedByteIsNormal(c: byte)
    ensures Unreserved(c) <==> StandsForItself(c)
    ensures var hi, lo := UpperHex(c as nat / 16), UpperHex(c as nat % 16);
      UpperDigit(hi) && UpperDigit(lo) && HexDigit(hi, c as int / 16) && HexDigit(lo, c as int % 16)
  {}

  lemma UpperIsWritten(c: byte, value: int)
    requires UpperDigit(c) && HexDigit(c, value)
    ensures 0 <= value < 16 && c == UpperHex(value)
  {}

  // ----- Targets -----

  /** What a name may be. */
  ghost predicate Allowed(name: Bytes) {
    && 1 <= |name| <= 1024 && 0 !in name && Utf8.WellFormed(name)
    && name != [46] && name != [46, 46]  // . and ..
  }

  /** One segment of a path, and the name it spells. */
  ghost predicate SegmentOf(segment: Bytes, name: Bytes) {
    '/' as int as byte !in segment && '?' as int as byte !in segment && Spells(segment, name) && Allowed(name)
  }

  function Slashed(segments: seq<Bytes>): Bytes {
    if segments == [] then [] else ['/' as int as byte] + segments[0] + Slashed(segments[1..])
  }

  ghost predicate SegmentsOf(segments: seq<Bytes>, names: seq<Bytes>) {
    |segments| == |names| > 0 && forall i :: 0 <= i < |names| ==> SegmentOf(segments[i], names[i])
  }

  /** A target of at most 8192 octets without a fragment: segments that spell the names, each after a
      slash, and perhaps a query. */
  ghost predicate Requests(target: Bytes, names: seq<Bytes>) {
    && |target| <= 8192 && '#' as int as byte !in target
    && exists segments, query :: Splits(target, segments, query) && SegmentsOf(segments, names)
  }

  ghost predicate Splits(target: Bytes, segments: seq<Bytes>, query: Bytes) {
    target == Slashed(segments) + query && (query == [] || query[0] as int == '?' as int)
  }

  lemma {:induction false} QueryEnds(path: Bytes, query: Bytes)
    requires QUESTION !in path && (query == [] || query[0] == QUESTION)
    ensures BeforeQuery(path + query) == path
  {
    if path == [] {
      assert path + query == query;
    } else {
      TailOfAppend(path, query);
      QueryEnds(path[1..], query);
    }
  }

  lemma {:induction false} SegmentsAreRead(segments: seq<Bytes>, names: seq<Bytes>)
    requires SegmentsOf(segments, names)
    ensures Slashed(segments) != [] && Slashed(segments)[0] == SLASH && QUESTION !in Slashed(segments)
    ensures Names(Slashed(segments)[1..]) == Some(names)
  {
    var segment, rest := segments[0], Slashed(segments[1..]);
    assert SegmentOf(segments[0], names[0]);
    DecodeSpells(segment, names[0]);
    DropFirst(SLASH, segment, rest);
    if |segments| > 1 {
      assert SegmentsOf(segments[1..], names[1..]);
      SegmentsAreRead(segments[1..], names[1..]);
    } else {
      assert rest == [];
    }
    NamesStep(segment, rest, names[0]);
    JoinFirst(names);
  }

  lemma SlashedPrepend(segment: Bytes, segments: seq<Bytes>)
    ensures Slashed([segment] + segments) == [SLASH] + segment + Slashed(segments)
  {
    assert ([segment] + segments)[1..] == segments;
  }

  lemma SegmentsPrepend(segment: Bytes, segments: seq<Bytes>, name: Bytes, names: seq<Bytes>)
    requires SegmentOf(segment, name) && (SegmentsOf(segments, names) || (segments == [] && names == []))
    ensures SegmentsOf([segment] + segments, [name] + names)
  {}

  lemma SplitAtSlash(text: Bytes, end: nat)
    requires end < |text| && text[end] == SLASH
    ensures text == text[..end] + ([SLASH] + text[end + 1..])
  {}

  lemma {:induction false} ReadIsSegments(text: Bytes, names: seq<Bytes>) returns (segments: seq<Bytes>)
    requires Names(text) == Some(names) && QUESTION !in text
    ensures SegmentsOf(segments, names) && Slashed(segments) == [SLASH] + text
    decreases |text|
  {
    var end := SegmentEnd(text);
    var segment, name := text[..end], Decode(text[..end]).value;
    DecodeSpells(segment, name);
    if end == |text| {
      segments := [segment] + [];
      SlashedPrepend(segment, []);
      SegmentsPrepend(segment, [], name, []);
      WholeSlice(text);
    } else {
      var rest := Names(text[end + 1..]).value;
      var more := ReadIsSegments(text[end + 1..], rest);
      segments := [segment] + more;
      SlashedPrepend(segment, more);
      SegmentsPrepend(segment, more, name, rest);
      SplitAtSlash(text, end);
      Associate([SLASH], segment, [SLASH] + text[end + 1..]);
    }
  }

  lemma RequestedIsSelected(target: Bytes, names: seq<Bytes>, segments: seq<Bytes>, query: Bytes)
    requires |target| <= 8192 && HASH !in target && Splits(target, segments, query) && SegmentsOf(segments, names)
    ensures Selected(target) == Some(names)
  {
    SegmentsAreRead(segments, names);
    QueryEnds(Slashed(segments), query);
  }

  lemma SelectedSplits(target: Bytes, names: seq<Bytes>) returns (segments: seq<Bytes>, query: Bytes)
    requires Selected(target) == Some(names)
    ensures Splits(target, segments, query) && SegmentsOf(segments, names)
  {
    var path := BeforeQuery(target);
    segments := ReadIsSegments(path[1..], names);
    query := target[|path|..];
    SplitFirst(path);
  }

  /** A target selects by exactly the names that it spells. */
  lemma SelectedIsRequested(target: Bytes, names: seq<Bytes>)
    ensures Selected(target) == Some(names) <==> Requests(target, names)
  {
    if Requests(target, names) {
      var segments, query :| Splits(target, segments, query) && SegmentsOf(segments, names);
      RequestedIsSelected(target, names, segments, query);
    }
    if Selected(target) == Some(names) {
      var segments, query := SelectedSplits(target, names);
    }
  }
}
