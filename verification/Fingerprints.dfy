/** The canonical identity of a registration, and when a reflected one can have it: the constructor
    of TypeProtocol computes it and throws if its text is too long. */
module Fingerprints {
  import opened Prelude
  import opened TypeGraph
  import opened TypeRegistry
  import Utf8
  import J = Json
  import C = CodecContexts
  import S = Serialization

  const LIMITS := C.Limits(65536, 32, 1024 * 1024)

  /** Identities hold no doubles. */
  const NO_DOUBLES: J.Number -> Bytes := _ => []

  // The keys and kinds of descriptors, in ASCII.
  const KIND: Bytes := [107, 105, 110, 100]
  const OBJECT: Bytes := [111, 98, 106, 101, 99, 116]
  const ARRAY: Bytes := [97, 114, 114, 97, 121]
  const FIELDS: Bytes := [102, 105, 101, 108, 100, 115]
  const ELEMENT_TYPE: Bytes := [101, 108, 101, 109, 101, 110, 116, 84, 121, 112, 101]
  const LENGTH: Bytes := [108, 101, 110, 103, 116, 104]
  const NAME: Bytes := [110, 97, 109, 101]
  const RTT_TYPE: Bytes := [114, 116, 116, 84, 121, 112, 101]
  const JSON_SUPPORTED: Bytes := [106, 115, 111, 110, 83, 117, 112, 112, 111, 114, 116, 101, 100]
  const REASON: Bytes := [114, 101, 97, 115, 111, 110]

  function FieldJson(f: Field): J.Value {
    J.Object([J.Member(NAME, J.Text(f.name)), J.Member(RTT_TYPE, J.Text(f.rttType))])
  }

  function FieldsJson(fields: seq<Field>): J.Value {
    J.Array(seq(|fields|, i requires 0 <= i < |fields| => FieldJson(fields[i])))
  }

  /** The descriptor of a reflected type, with the two members that the constructor adds. */
  function DescriptorJson(d: Descriptor): J.Value
    requires d.Array? || d.Object?
  {
    if d.Object? then ObjectJson(FieldsJson(d.fields))
    else ArrayJson(J.Text(d.element), if d.length.Some? then J.Int64(d.length.value) else J.Null)
  }

  function ObjectJson(fields: J.Value): J.Value {
    J.Object([J.Member(KIND, J.Text(OBJECT)), J.Member(FIELDS, fields),
              J.Member(JSON_SUPPORTED, J.Bool(true)), J.Member(REASON, J.Null)])
  }

  function ArrayJson(element: J.Value, length: J.Value): J.Value {
    J.Object([J.Member(KIND, J.Text(ARRAY)), J.Member(ELEMENT_TYPE, element), J.Member(LENGTH, length),
              J.Member(JSON_SUPPORTED, J.Bool(true)), J.Member(REASON, J.Null)])
  }

  function Texts(names: seq<Name>): J.Value {
    J.Array(seq(|names|, i requires 0 <= i < |names| => J.Text(names[i])))
  }

  /** What `fingerprint` writes.  Sorting the members of the descriptor changes no length. */
  function IdentityJson(r: Registration): J.Value
    requires r.descriptor.Array? || r.descriptor.Object?
  {
    J.Array([J.Text(r.providerId), J.Text(r.providerVersion), J.Text(r.codecId), J.Text(r.codecVersion),
             J.Text(r.rttType), DescriptorJson(r.descriptor), Texts(r.dependencies)])
  }

  // ----- What an identity tells -----

  /** An object with exactly these members, in this order, under names that all differ. */
  ghost predicate Tells(v: J.Value, names: seq<Bytes>, values: seq<J.Value>) {
    && v.Object? && |v.members| == |names| == |values| && Distinct(names)
    && forall i :: 0 <= i < |names| ==> v.members[i] == J.Member(names[i], values[i])
  }

  lemma DescriptorWords()
    ensures KIND == Ascii("kind") && OBJECT == Ascii("object") && ARRAY == Ascii("array") && FIELDS == Ascii("fields")
    ensures ELEMENT_TYPE == Ascii("elementType") && LENGTH == Ascii("length") && NAME == Ascii("name")
    ensures RTT_TYPE == Ascii("rttType") && JSON_SUPPORTED == Ascii("jsonSupported") && REASON == Ascii("reason")
  {}

  lemma FieldTells(f: Field)
    ensures Tells(FieldJson(f), [Ascii("name"), Ascii("rttType")], [J.Text(f.name), J.Text(f.rttType)])
  {
    DescriptorWords();
    assert |NAME| != |RTT_TYPE|;
  }

  /** The descriptor of a sequence. */
  lemma ArrayTells(d: Descriptor)
    requires d.Array?
    ensures Tells(DescriptorJson(d),
      [Ascii("kind"), Ascii("elementType"), Ascii("length"), Ascii("jsonSupported"), Ascii("reason")],
      [J.Text(Ascii("array")), J.Text(d.element), if d.length.Some? then J.Int64(d.length.value) else J.Null,
       J.Bool(true), J.Null])
  {
    DescriptorWords();
    assert |KIND| == 4 && |ELEMENT_TYPE| == 11 && |LENGTH| == 6 && |JSON_SUPPORTED| == 13 && |REASON| == 6;
    assert LENGTH[0] != REASON[0];
  }

  /** The descriptor of a structure. */
  lemma ObjectTells(d: Descriptor)
    requires d.Object?
    ensures exists fields: seq<J.Value> ::
      && Tells(DescriptorJson(d), [Ascii("kind"), Ascii("fields"), Ascii("jsonSupported"), Ascii("reason")],
               [J.Text(Ascii("object")), J.Array(fields), J.Bool(true), J.Null])
      && |fields| == |d.fields|
      && forall i :: 0 <= i < |fields| ==>
           Tells(fields[i], [Ascii("name"), Ascii("rttType")], [J.Text(d.fields[i].name), J.Text(d.fields[i].rttType)])
  {
    DescriptorWords();
    assert |KIND| == 4 && |FIELDS| == 6 && |JSON_SUPPORTED| == 13 && |REASON| == 6 && FIELDS[0] != REASON[0];
    var fields := FieldsJson(d.fields).items;
    forall i | 0 <= i < |fields|
      ensures Tells(fields[i], [Ascii("name"), Ascii("rttType")], [J.Text(d.fields[i].name), J.Text(d.fields[i].rttType)])
    {
      FieldTells(d.fields[i]);
    }
    assert Tells(DescriptorJson(d), [Ascii("kind"), Ascii("fields"), Ascii("jsonSupported"), Ascii("reason")],
                 [J.Text(Ascii("object")), J.Array(fields), J.Bool(true), J.Null]);
  }

  lemma DescriptorIsInjective(d: Descriptor, e: Descriptor)
    requires (d.Array? || d.Object?) && (e.Array? || e.Object?) && DescriptorJson(d) == DescriptorJson(e)
    ensures d == e
  {
    assert |OBJECT| != |ARRAY|;
    if d.Object? && e.Object? {
      var f, g := FieldsJson(d.fields), FieldsJson(e.fields);
      assert DescriptorJson(d).members[1].value == f && DescriptorJson(e).members[1].value == g;
      assert |d.fields| == |f.items| == |g.items| == |e.fields|;
      forall i | 0 <= i < |d.fields| ensures d.fields[i] == e.fields[i] {
        assert f.items[i] == FieldJson(d.fields[i]) && g.items[i] == FieldJson(e.fields[i]);
        assert f.items[i].members[0] == g.items[i].members[0] && f.items[i].members[1] == g.items[i].members[1];
      }
    } else {
      assert DescriptorJson(d).members[0] == DescriptorJson(e).members[0];
      assert DescriptorJson(d).members[1] == DescriptorJson(e).members[1];
      assert DescriptorJson(d).members[2] == DescriptorJson(e).members[2];
    }
  }

  lemma TextsAreInjective(m: seq<Name>, n: seq<Name>)
    requires Texts(m) == Texts(n)
    ensures m == n
  {
    assert |m| == |Texts(m).items| == |n|;
    forall i | 0 <= i < |m| ensures m[i] == n[i] {
      assert Texts(m).items[i] == J.Text(m[i]) && Texts(n).items[i] == J.Text(n[i]);
    }
  }

  /** Different registrations have different identities. */
  lemma IdentityIsInjective(r: Registration, s: Registration)
    requires (r.descriptor.Array? || r.descriptor.Object?) && (s.descriptor.Array? || s.descriptor.Object?)
    requires IdentityJson(r) == IdentityJson(s)
    ensures r == s
  {
    var a, b := IdentityJson(r).items, IdentityJson(s).items;
    assert a[0] == b[0] && a[1] == b[1] && a[2] == b[2] && a[3] == b[3] && a[4] == b[4] && a[5] == b[5] && a[6] == b[6];
    DescriptorIsInjective(r.descriptor, s.descriptor);
    TextsAreInjective(r.dependencies, s.dependencies);
  }

  ghost predicate Writable(v: J.Value) {
    J.Clean(v) && J.Nesting(v) <= LIMITS.maxDepth && |S.Compact(v, NO_DOUBLES)| <= LIMITS.maxBytes
  }

  /** The registration can be given a fingerprint. */
  ghost predicate Printable(r: Registration)
    requires r.descriptor.Array? || r.descriptor.Object?
  {
    Writable(DescriptorJson(r.descriptor)) && Writable(IdentityJson(r))
  }

  method Write(v: J.Value) returns (ok: bool)
    ensures ok <==> Writable(v)
  {
    var text := S.SerializeJson(v, LIMITS, NO_DOUBLES);
    return text.Ok?;
  }

  /** `fingerprint`, as far as it can fail. */
  method Fingerprint(r: Registration) returns (ok: bool)
    requires r.descriptor.Array? || r.descriptor.Object?
    ensures ok <==> Printable(r)
    ensures ok <==> forall v :: v in [DescriptorJson(r.descriptor), IdentityJson(r)] ==>
      J.Clean(v) && J.Nesting(v) <= 32 && |S.Compact(v, NO_DOUBLES)| <= 65536
  {
    assert Printable(r) <==> forall v :: v in [DescriptorJson(r.descriptor), IdentityJson(r)] ==> Writable(v);
    ok := Write(DescriptorJson(r.descriptor));
    if ok {
      ok := Write(IdentityJson(r));
    }
  }

  // ----- How long an identity is at least -----

  lemma {:induction false} TextAtLeast(text: Bytes, n: nat)
    requires n <= |text|
    ensures |S.EscapeFrom(text, n)| >= |text| - n
    decreases |text| - n
  {
    if n < |text| {
      TextAtLeast(text, n + 1);
    }
  }

  /** The text of a child is part of the text of its container. */
  lemma {:induction false} ChildFits(v: J.Value, from: nat, n: nat)
    requires from <= n < J.Count(v)
    ensures |S.CompactFrom(v, from, NO_DOUBLES)| >= |S.Compact(J.Child(v, n), NO_DOUBLES)|
    decreases n - from
  {
    if from < n {
      ChildFits(v, from + 1, n);
    }
  }

  function NameBytes(fields: seq<Field>, n: nat): nat
    requires n <= |fields|
    decreases |fields| - n
  {
    if n == |fields| then 0 else |fields[n].name| + NameBytes(fields, n + 1)
  }

  lemma FieldAtLeast(f: Field)
    ensures |S.Compact(FieldJson(f), NO_DOUBLES)| >= |f.name|
  {
    var v := FieldJson(f);
    assert J.Child(v, 0) == J.Text(f.name);
    ChildFits(v, 0, 0);
    TextAtLeast(f.name, 0);
  }

  lemma {:induction false} FieldsAtLeast(fields: seq<Field>, n: nat)
    requires n <= |fields| == J.Count(FieldsJson(fields))
    ensures |S.CompactFrom(FieldsJson(fields), n, NO_DOUBLES)| >= NameBytes(fields, n)
    decreases |fields| - n
  {
    if n < |fields| {
      assert J.Child(FieldsJson(fields), n) == FieldJson(fields[n]);
      FieldAtLeast(fields[n]);
      FieldsAtLeast(fields, n + 1);
    }
  }

  lemma LongChildIsUnwritable(v: J.Value, n: nat)
    requires J.Container(v) && n < J.Count(v) && |S.Compact(J.Child(v, n), NO_DOUBLES)| > LIMITS.maxBytes
    ensures !Writable(v)
  {
    ChildFits(v, 0, n);
  }

  lemma FieldsAreAChild(fields: J.Value)
    ensures J.Container(ObjectJson(fields)) && J.Count(ObjectJson(fields)) == 4 && J.Child(ObjectJson(fields), 1) == fields
  {}

  lemma FieldsTextAtLeast(fields: seq<Field>)
    ensures |S.Compact(FieldsJson(fields), NO_DOUBLES)| >= NameBytes(fields, 0)
  {
    FieldsAtLeast(fields, 0);
  }

  /** A structure whose names alone exceed the limit has no fingerprint. */
  lemma LongNamesAreUnprintable(r: Registration)
    requires r.descriptor.Object? && NameBytes(r.descriptor.fields, 0) > LIMITS.maxBytes
    ensures !Printable(r)
  {
    FieldsAreAChild(FieldsJson(r.descriptor.fields));
    FieldsTextAtLeast(r.descriptor.fields);
    LongChildIsUnwritable(DescriptorJson(r.descriptor), 1);
  }
}
