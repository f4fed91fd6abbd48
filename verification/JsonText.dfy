/** When a text is a JSON text of a value, after RFC 8259, and that the compact text of a value is. */
module JsonText {
  import opened Prelude
  import opened Serialization
  import J = Json
  import M = Meaning

  // ----- Strings: section 7 -----

  function HexValue(b: byte): Option<int> {
    if 48 <= b <= 57 then Some(b as int - 48)         // 0-9
    else if 65 <= b <= 70 then Some(b as int - 55)    // A-F
    else if 97 <= b <= 102 then Some(b as int - 87)   // a-f
    else None
  }

  /** What stands behind a backslash, other than u. */
  function EscapeMeans(b: byte): Option<byte> {
    if b == 34 || b == 92 || b == 47 then Some(b)     // quotation mark, backslash, slash
    else if b == 98 then Some(8)                      // b: backspace
    else if b == 102 then Some(12)                    // f: form feed
    else if b == 110 then Some(10)                    // n: line feed
    else if b == 114 then Some(13)                    // r: carriage return
    else if b == 116 then Some(9)                     // t: tab
    else None
  }

  /** \u00XX, for a character of one byte. */
  predicate UnicodeMeans(body: Bytes, b: byte) {
    && |body| >= 6 && body[0] == 92 && body[1] == 117 && body[2] == 48 && body[3] == 48 && b < 0x80
    && HexValue(body[4]).Some? && HexValue(body[5]).Some?
    && b as int == 16 * HexValue(body[4]).value + HexValue(body[5]).value
  }

  /** What stands between the quotation marks means the text. */
  predicate Unescapes(body: Bytes, text: Bytes)
    decreases |body|
  {
    if body == [] then text == []
    else if body[0] != 92 then
      text != [] && body[0] >= 0x20 && body[0] != 34 && body[0] == text[0] && Unescapes(body[1..], text[1..])
    else if |body| >= 2 && EscapeMeans(body[1]).Some? then
      text != [] && EscapeMeans(body[1]).value == text[0] && Unescapes(body[2..], text[1..])
    else
      text != [] && UnicodeMeans(body, text[0]) && Unescapes(body[6..], text[1..])
  }

  predicate StringReads(s: Bytes, text: Bytes) {
    |s| >= 2 && s[0] == 34 && s[|s| - 1] == 34 && Unescapes(s[1..|s| - 1], text)
  }

  /** A string means one text only. */
  lemma {:induction false} OneMeaning(body: Bytes, text: Bytes, other: Bytes)
    requires Unescapes(body, text) && Unescapes(body, other)
    ensures text == other
    decreases |body|
  {
    if body != [] {
      var skip := if body[0] != 92 then 1 else if |body| >= 2 && EscapeMeans(body[1]).Some? then 2 else 6;
      OneMeaning(body[skip..], text[1..], other[1..]);
      assert text == [text[0]] + text[1..] && other == [other[0]] + other[1..];
    }
  }

  // ----- Values: sections 3 to 6, without white space -----

  /** One after the other, with commas between them. */
  function Joined(parts: seq<Bytes>): Bytes {
    if parts == [] then [] else if |parts| == 1 then parts[0] else parts[0] + [44] + Joined(parts[1..])
  }

  /** key, colon, value */
  function Pairs(keys: seq<Bytes>, parts: seq<Bytes>): seq<Bytes>
    requires |keys| == |parts|
  {
    seq(|keys|, i requires 0 <= i < |keys| => keys[i] + [58] + parts[i])
  }

  ghost predicate Reads(s: Bytes, v: J.Value, number: J.Number -> Bytes)
    decreases v
  {
    match v
    case Null => s == [110, 117, 108, 108]
    case Bool(flag) => s == if flag then [116, 114, 117, 101] else [102, 97, 108, 115, 101]
    case Int64(n) => M.Writes(s, n)
    case Uint64(n) => M.Writes(s, n)
    case Double(f) => s == number(f)
    case Text(text) => StringReads(s, text)
    case Array(items) =>
      exists parts :: |parts| == |items| && s == [91] + Joined(parts) + [93]
                      && forall i :: 0 <= i < |items| ==> Reads(parts[i], items[i], number)
    case Object(members) =>
      exists keys, parts :: |keys| == |parts| == |members| && s == [123] + Joined(Pairs(keys, parts)) + [125]
                            && forall i :: 0 <= i < |members| ==>
                                 StringReads(keys[i], members[i].key) && Reads(parts[i], members[i].value, number)
  }

  // ----- The compact text -----

  lemma EscapeReads(b: byte, rest: Bytes, text: Bytes)
    requires Unescapes(rest, text)
    ensures Unescapes(Escape(b) + rest, [b] + text)
  {
    var body := Escape(b) + rest;
    assert ([b] + text)[1..] == text;
    if ShortEscape(b).Some? {
      assert body[2..] == rest;
    } else if b < 0x20 {
      assert body[6..] == rest;
    } else {
      assert body[1..] == rest;
    }
  }

  lemma {:induction false} EscapedReads(text: Bytes, n: nat)
    requires n <= |text|
    ensures Unescapes(EscapeFrom(text, n), text[n..])
    decreases |text| - n
  {
    if n < |text| {
      EscapedReads(text, n + 1);
      EscapeReads(text[n], EscapeFrom(text, n + 1), text[n + 1..]);
      assert text[n..] == [text[n]] + text[n + 1..];
    }
  }

  lemma QuotedReads(text: Bytes)
    ensures StringReads(Quoted(text), text)
  {
    EscapedReads(text, 0);
    var s := Quoted(text);
    assert s[1..|s| - 1] == EscapeFrom(text, 0);
    assert text[0..] == text;
  }

  /** The children's texts, with their keys. */
  predicate ChildTexts(v: J.Value, parts: seq<Bytes>, number: J.Number -> Bytes) {
    && |parts| == J.Count(v)
    && forall i :: 0 <= i < |parts| ==> parts[i] == KeyText(v, i) + Compact(J.Child(v, i), number)
  }

  lemma {:induction false} ChildrenJoin(v: J.Value, n: nat, parts: seq<Bytes>, number: J.Number -> Bytes)
    requires ChildTexts(v, parts, number) && n <= |parts|
    ensures CompactFrom(v, n, number) == (if n == 0 || n == |parts| then [] else [44]) + Joined(parts[n..])
    decreases |parts| - n
  {
    if n < |parts| {
      ChildrenJoin(v, n + 1, parts, number);
      assert parts[n..][1..] == parts[n + 1..];
      var front: Bytes := if n == 0 then [] else [44];
      Associate(front, KeyText(v, n), Compact(J.Child(v, n), number));
      Associate(front, parts[n], CompactFrom(v, n + 1, number));
      if n + 1 < |parts| {
        Associate(parts[n], [44], Joined(parts[n + 1..]));
      } else {
        assert parts[n] + [] == parts[n];
      }
    }
  }

  /** What the serializer writes is a JSON text of the value. */
  lemma {:induction false} CompactReads(v: J.Value, number: J.Number -> Bytes)
    ensures Reads(Compact(v, number), v, number)
    decreases v
  {
    match v
    case Int64(n) => M.CanonicalWrites(Compact(v, number), n);
    case Uint64(n) => M.CanonicalWrites(Compact(v, number), n);
    case Text(text) => QuotedReads(text);
    case Array(items) => ArrayReads(v, number);
    case Object(members) => ObjectReads(v, number);
    case _ =>
  }

  function ItemTexts(items: seq<J.Value>, number: J.Number -> Bytes): seq<Bytes> {
    seq(|items|, i requires 0 <= i < |items| => Compact(items[i], number))
  }

  function KeyTexts(members: seq<J.Member>): seq<Bytes> {
    seq(|members|, i requires 0 <= i < |members| => Quoted(members[i].key))
  }

  function MemberTexts(members: seq<J.Member>, number: J.Number -> Bytes): seq<Bytes> {
    seq(|members|, i requires 0 <= i < |members| => Compact(members[i].value, number))
  }

  lemma AllChildrenJoin(v: J.Value, parts: seq<Bytes>, number: J.Number -> Bytes)
    requires ChildTexts(v, parts, number)
    ensures CompactFrom(v, 0, number) == Joined(parts)
  {
    ChildrenJoin(v, 0, parts, number);
    assert parts[0..] == parts;
  }

  lemma ArrayChildren(v: J.Value, number: J.Number -> Bytes)
    requires v.Array?
    ensures ChildTexts(v, ItemTexts(v.items, number), number)
  {
    forall i | 0 <= i < |v.items| ensures ItemTexts(v.items, number)[i] == KeyText(v, i) + Compact(J.Child(v, i), number) {
    }
  }

  lemma ObjectChildren(v: J.Value, number: J.Number -> Bytes)
    requires v.Object?
    ensures ChildTexts(v, Pairs(KeyTexts(v.members), MemberTexts(v.members, number)), number)
  {
    forall i | 0 <= i < |v.members|
      ensures Pairs(KeyTexts(v.members), MemberTexts(v.members, number))[i] == KeyText(v, i) + Compact(J.Child(v, i), number)
    {
    }
  }

  lemma ArrayText(v: J.Value, number: J.Number -> Bytes)
    requires v.Array?
    ensures Compact(v, number) == [91] + Joined(ItemTexts(v.items, number)) + [93]
  {
    ArrayChildren(v, number);
    AllChildrenJoin(v, ItemTexts(v.items, number), number);
  }

  lemma ObjectText(v: J.Value, number: J.Number -> Bytes)
    requires v.Object?
    ensures Compact(v, number) == [123] + Joined(Pairs(KeyTexts(v.members), MemberTexts(v.members, number))) + [125]
  {
    ObjectChildren(v, number);
    AllChildrenJoin(v, Pairs(KeyTexts(v.members), MemberTexts(v.members, number)), number);
  }

  lemma {:induction false} ArrayReads(v: J.Value, number: J.Number -> Bytes)
    requires v.Array?
    ensures Reads(Compact(v, number), v, number)
    decreases v, 0
  {
    ArrayText(v, number);
    var parts := ItemTexts(v.items, number);
    forall i | 0 <= i < |v.items| ensures Reads(parts[i], v.items[i], number) {
      CompactReads(v.items[i], number);
    }
  }

  lemma {:induction false} ObjectReads(v: J.Value, number: J.Number -> Bytes)
    requires v.Object?
    ensures Reads(Compact(v, number), v, number)
    decreases v, 0
  {
    ObjectText(v, number);
    var keys, parts := KeyTexts(v.members), MemberTexts(v.members, number);
    forall i | 0 <= i < |v.members|
      ensures StringReads(keys[i], v.members[i].key) && Reads(parts[i], v.members[i].value, number)
    {
      CompactReads(v.members[i].value, number);
      QuotedReads(v.members[i].key);
    }
  }
}
