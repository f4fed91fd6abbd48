/** Best-effort registration of reflected types: a fixpoint over the types without a codec. */
module Reflection {
  import opened Prelude
  import opened TypeGraph
  import opened TypeRegistry
  import Fingerprints
  import Json
  import Utf8

  /** A member as RTT's factory shows it on a fresh value; no type when there is no value. */
  datatype Member = Member(name: Name, memberType: Option<TypeId>, assignable: bool)

  /** What probing the metadata of a type yields. */
  datatype Shape =
    | NoMembers
    | Unbuildable
    | ProbeThrows
    | Sequence(element: Member, size: Option<Json.int64>, resizable: bool)
    | Structure(members: seq<Member>)

  /** Why a type has no codec; never an empty text. */
  datatype Diagnostic = NotReflected | NotRegistered(reason: Registered)

  const PROVIDER: Name := [111, 114, 111, 99, 111, 115, 46, 114, 116, 116, 46, 104, 116, 116, 112, 46,
                           114, 101, 102, 108, 101, 99, 116, 105, 111, 110]  // orocos.rtt.http.reflection
  const VERSION: Name := [49]                                            // 1
  const VOID: Name := [86, 111, 105, 100]                                // Void
  const UNKNOWN: Name := [117, 110, 107, 110, 111, 119, 110, 95, 116]    // unknown_t

  function MembersOf(s: Shape): seq<Member> {
    match s
    case Sequence(element, _, _) => [element]
    case Structure(members) => members
    case _ => []
  }

  /** The types the members need. */
  ghost predicate MemberReady(m: Member, names: TypeId -> Name, codecs: set<TypeId>) {
    m.memberType.Some? && m.assignable && m.memberType.value in codecs && names(m.memberType.value) != VOID
  }

  ghost predicate MembersReady(s: Shape, names: TypeId -> Name, codecs: set<TypeId>) {
    forall i :: 0 <= i < |MembersOf(s)| ==> MemberReady(MembersOf(s)[i], names, codecs)
  }

  /** The metadata is complete, apart from the members' codecs. */
  ghost predicate ShapeOk(s: Shape) {
    match s
    case Sequence(_, size, _) => size.Some? && size.value >= 0
    case Structure(members) =>
      && members != []
      && (forall i :: 0 <= i < |members| ==> members[i].name != [] && Utf8.WellFormed(members[i].name))
      && (forall i, j :: 0 <= i < j < |members| ==> members[i].name != members[j].name)
    case _ => false
  }

  /** The names fit what `validateRegistration` asks for. */
  ghost predicate NamesOk(t: TypeId, s: Shape, names: TypeId -> Name) {
    && ValidName(names(t))
    && (s.Structure? ==> forall i :: 0 <= i < |s.members| ==> ValidName(s.members[i].name))
  }

  function FieldsOf(members: seq<Member>, names: TypeId -> Name): (fields: seq<Field>)
    requires forall i :: 0 <= i < |members| ==> members[i].memberType.Some?
    ensures |fields| == |members|
    ensures forall i :: 0 <= i < |members| ==> fields[i] == Field(members[i].name, names(members[i].memberType.value))
  {
    if members == [] then []
    else [Field(members[0].name, names(members[0].memberType.value))] + FieldsOf(members[1..], names)
  }

  /** Every member has a type. */
  predicate Typed(s: Shape) {
    (s.Sequence? || s.Structure?) && forall i :: 0 <= i < |MembersOf(s)| ==> MembersOf(s)[i].memberType.Some?
  }

  function DescriptorOf(s: Shape, names: TypeId -> Name): (d: Descriptor)
    requires Typed(s)
    ensures d.Array? || d.Object?
  {
    match s
    case Sequence(element, size, resizable) =>
      assert MembersOf(s)[0] == element;
      Array(names(element.memberType.value), if resizable then None else size)
    case Structure(members) =>
      assert MembersOf(s) == members;
      Object(FieldsOf(members, names))
  }

  /** The name of a member's type. */
  function TypeOf(s: Shape, i: nat, names: TypeId -> Name): Name
    requires Typed(s) && i < |MembersOf(s)|
  {
    names(MembersOf(s)[i].memberType.value)
  }

  /** What a reflected registration says: it is the provider's, filed under the name of the type; a
      sequence has a length exactly when it cannot be resized; a structure has its members in order;
      the dependencies are the types of the members, each once. */
  ghost predicate Tells(r: Registration, t: TypeId, s: Shape, names: TypeId -> Name)
    requires Typed(s)
  {
    && r.providerId == Ascii("orocos.rtt.http.reflection") && r.providerVersion == r.codecVersion == Ascii("1")
    && r.codecId == r.rttType == names(t)
    && (s.Sequence? ==>
          && |MembersOf(s)| == 1 && r.descriptor.Array? && r.descriptor.element == TypeOf(s, 0, names)
          && (if s.resizable then r.descriptor.length.None? else r.descriptor.length == s.size))
    && (s.Structure? ==>
          && r.descriptor.Object? && |r.descriptor.fields| == |s.members| == |MembersOf(s)|
          && forall i :: 0 <= i < |s.members| ==> r.descriptor.fields[i] == Field(s.members[i].name, TypeOf(s, i, names)))
    && Distinct(r.dependencies)
    && forall name :: name in r.dependencies <==> exists i :: 0 <= i < |MembersOf(s)| && TypeOf(s, i, names) == name
  }

  lemma OwnWords()
    ensures PROVIDER == Ascii("orocos.rtt.http.reflection") && VERSION == Ascii("1")
    ensures VOID == Ascii("Void") && UNKNOWN == Ascii("unknown_t")
  {}

  /** The types of the fields, each once, in the order in which they are first mentioned. */
  function FieldDependencies(fields: seq<Field>): seq<Name> {
    if fields == [] then []
    else
      var before, last := FieldDependencies(fields[..|fields| - 1]), fields[|fields| - 1].rttType;
      if last in before then before else before + [last]
  }

  lemma {:induction false} FieldDependenciesAre(fields: seq<Field>)
    ensures Elements(FieldDependencies(fields)) == FieldTypes(fields)
  {
    if fields != [] {
      var front, last := fields[..|fields| - 1], fields[|fields| - 1];
      FieldDependenciesAre(front);
      DependenciesGrow(FieldDependencies(front), front, last);
      assert front + [last] == fields;
    }
  }

  /** The registration that reflection builds.  The source keeps the dependencies sorted, which
      changes neither the set nor the length of their text. */
  function Built(t: TypeId, s: Shape, names: TypeId -> Name): (r: Registration)
    requires Typed(s)
    ensures r.descriptor == DescriptorOf(s, names)
  {
    var d := DescriptorOf(s, names);
    Registration(PROVIDER, VERSION, names(t), VERSION, names(t), d,
                 if d.Object? then FieldDependencies(d.fields) else [d.element])
  }

  lemma {:induction false} FieldDependenciesDiffer(fields: seq<Field>)
    ensures Distinct(FieldDependencies(fields))
  {
    if fields != [] {
      FieldDependenciesDiffer(fields[..|fields| - 1]);
    }
  }

  lemma BuiltTells(t: TypeId, s: Shape, names: TypeId -> Name)
    requires Typed(s)
    ensures Tells(Built(t, s, names), t, s, names)
  {
    OwnWords();
    var r := Built(t, s, names);
    if s.Structure? {
      var fields := r.descriptor.fields;
      assert MembersOf(s) == s.members;
      FieldDependenciesAre(fields);
      FieldDependenciesDiffer(fields);
      forall name ensures name in r.dependencies <==> exists i :: 0 <= i < |MembersOf(s)| && TypeOf(s, i, names) == name {
        assert name in r.dependencies <==> name in FieldTypes(fields);
        assert forall i :: 0 <= i < |fields| ==> fields[i].rttType == TypeOf(s, i, names);
      }
    } else {
      assert MembersOf(s) == [s.element];
      assert TypeOf(s, 0, names) == r.descriptor.element;
    }
  }

  /** The identity of the registration that reflection builds is not too long to have a fingerprint. */
  ghost predicate Identifiable(t: TypeId, s: Shape, names: TypeId -> Name) {
    Typed(s) && Fingerprints.Printable(Built(t, s, names))
  }

  /** The set of codecs a registry offers. */
  ghost function Codecs(registrations: map<TypeId, Protocol>, slots: map<TypeId, Occupant>): set<TypeId> {
    set t | t in registrations && SlotHolds(registrations, slots, t)
  }

  // ----- Building one protocol -----

  method AddMember(registry: Registry, m: Member) returns (ok: bool)
    ensures ok <==> MemberReady(m, registry.typeName, Codecs(registry.registrations, registry.slots))
  {
    ok := registry.RegisteredCodec(m.memberType);
    ok := ok && m.memberType.Some? && m.assignable && registry.typeName(m.memberType.value) != VOID;
  }

  ghost predicate MemberFits(m: Member, names: TypeId -> Name, codecs: set<TypeId>) {
    m.name != [] && Utf8.WellFormed(m.name) && MemberReady(m, names, codecs)
  }

  method CheckMember(registry: Registry, m: Member) returns (ok: bool)
    ensures ok <==> MemberFits(m, registry.typeName, Codecs(registry.registrations, registry.slots))
  {
    if m.name == [] {
      return false;
    }
    ok := Utf8.ValidUtf8(m.name);
    if ok {
      ok := AddMember(registry, m);
    }
  }

  /** The first members fit and their names differ. */
  ghost predicate AllFit(members: seq<Member>, n: nat, names: TypeId -> Name, codecs: set<TypeId>)
    requires n <= |members|
  {
    && (forall i :: 0 <= i < n ==> MemberFits(members[i], names, codecs))
    && (forall i, j :: 0 <= i < j < n ==> members[i].name != members[j].name)
  }

  /** The fields and dependencies of the members so far. */
  ghost predicate Gathered(members: seq<Member>, names: TypeId -> Name, fields: seq<Field>, dependencies: seq<Name>)
    requires |fields| <= |members|
  {
    && (forall i :: 0 <= i < |fields| ==>
          members[i].memberType.Some? && fields[i] == Field(members[i].name, names(members[i].memberType.value)))
    && dependencies == FieldDependencies(fields)
  }

  lemma GatherNext(members: seq<Member>, names: TypeId -> Name, fields: seq<Field>, dependencies: seq<Name>)
    requires |fields| < |members| && Gathered(members, names, fields, dependencies)
    requires members[|fields|].memberType.Some?
    ensures
      var m := members[|fields|];
      var t := names(m.memberType.value);
      Gathered(members, names, fields + [Field(m.name, t)], if t in dependencies then dependencies else dependencies + [t])
  {
    var m := members[|fields|];
    var more := fields + [Field(m.name, names(m.memberType.value))];
    assert more[..|more| - 1] == fields;
  }

  lemma GatheredAll(members: seq<Member>, names: TypeId -> Name, fields: seq<Field>, dependencies: seq<Name>)
    requires |fields| == |members| && Gathered(members, names, fields, dependencies)
    ensures (forall i :: 0 <= i < |members| ==> members[i].memberType.Some?) && fields == FieldsOf(members, names)
  {}

  /** The member loop of `makeReflectedTypeProtocol`. */
  method CollectFields(registry: Registry, members: seq<Member>)
    returns (ok: bool, fields: seq<Field>, dependencies: seq<Name>)
    ensures ok <==>
      AllFit(members, |members|, registry.typeName, Codecs(registry.registrations, registry.slots))
    ensures ok ==>
      && (forall i :: 0 <= i < |members| ==> members[i].memberType.Some?)
      && fields == FieldsOf(members, registry.typeName)
      && dependencies == FieldDependencies(fields)
  {
    var names := registry.typeName;
    ghost var codecs := Codecs(registry.registrations, registry.slots);
    ok, fields, dependencies := true, [], [];
    for n := 0 to |members|
      invariant |fields| == n && AllFit(members, n, names, codecs) && Gathered(members, names, fields, dependencies)
    {
      var m := members[n];
      var fits := CheckMember(registry, m);
      if !fits || exists i :: 0 <= i < n && fields[i].name == m.name {
        return false, [], [];
      }
      GatherNext(members, names, fields, dependencies);
      var memberType := names(m.memberType.value);
      dependencies := if memberType in dependencies then dependencies else dependencies + [memberType];
      fields := fields + [Field(m.name, memberType)];
    }
    GatheredAll(members, names, fields, dependencies);
  }

  /** The metadata of `makeReflectedTypeProtocol`, read and checked. */
  method ReadShape(registry: Registry, t: TypeId, s: Shape) returns (r: Option<Registration>)
    ensures r.Some? <==> ShapeOk(s) && MembersReady(s, registry.typeName, Codecs(registry.registrations, registry.slots))
    ensures r.Some? ==> Typed(s) && r.value == Built(t, s, registry.typeName)
  {
    var name := registry.typeName(t);
    match s {
      case Sequence(element, size, resizable) =>
        var ready := AddMember(registry, element);
        assert MembersOf(s) == [element] && MembersOf(s)[0] == element;
        if !ready || size.None? || size.value < 0 {
          return None;
        }
        var elementType := registry.typeName(element.memberType.value);
        return Some(Registration(PROVIDER, VERSION, name, VERSION, name,
                                 Array(elementType, if resizable then None else size), [elementType]));
      case Structure(members) =>
        var ok, fields, dependencies := CollectFields(registry, members);
        StructureReadyIff(s, registry.typeName, Codecs(registry.registrations, registry.slots));
        if !ok || members == [] {
          return None;
        }
        return Some(Registration(PROVIDER, VERSION, name, VERSION, name, Object(fields), dependencies));
      case _ => return None;
    }
  }

  /** `makeReflectedTypeProtocol`.  The constructor of the protocol throws when the identity is too
      long, and the exception is caught here. */
  method MakeProtocol(registry: Registry, t: TypeId, s: Shape, address: nat) returns (p: Option<Protocol>)
    ensures p.Some? <==>
      && ShapeOk(s) && MembersReady(s, registry.typeName, Codecs(registry.registrations, registry.slots))
      && Identifiable(t, s, registry.typeName)
    ensures p.Some? ==> p.value == Protocol(address, Built(t, s, registry.typeName), true)
    ensures p.Some? ==> Tells(p.value.registration, t, s, registry.typeName)
  {
    var r := ReadShape(registry, t, s);
    if r.None? {
      return None;
    }
    BuiltTells(t, s, registry.typeName);
    var printable := Fingerprints.Fingerprint(r.value);
    return if printable then Some(Protocol(address, r.value, true)) else None;
  }

  lemma StructureReadyIff(s: Shape, names: TypeId -> Name, codecs: set<TypeId>)
    requires s.Structure?
    ensures ShapeOk(s) && MembersReady(s, names, codecs) <==>
      s.members != [] && AllFit(s.members, |s.members|, names, codecs)
  {
    assert MembersOf(s) == s.members;
  }

  lemma BuiltDependencies(t: TypeId, s: Shape, names: TypeId -> Name)
    requires Typed(s)
    ensures Elements(Built(t, s, names).dependencies) == References(Built(t, s, names).descriptor)
  {
    var d := DescriptorOf(s, names);
    if d.Object? {
      FieldDependenciesAre(d.fields);
    } else {
      assert Elements([d.element]) == {d.element};
    }
  }

  lemma DependenciesGrow(dependencies: seq<Name>, fields: seq<Field>, f: Field)
    requires Elements(dependencies) == FieldTypes(fields)
    ensures Elements(if f.rttType in dependencies then dependencies else dependencies + [f.rttType])
         == FieldTypes(fields + [f])
  {
    var more := fields + [f];
    assert FieldTypes(more) == FieldTypes(fields) + {f.rttType} by {
      assert more[|fields|] == f;
      forall x | x in FieldTypes(fields) ensures x in FieldTypes(more) {
        var i :| 0 <= i < |fields| && fields[i].rttType == x;
        assert more[i].rttType == x;
      }
    }
    assert Elements(dependencies + [f.rttType]) == Elements(dependencies) + {f.rttType};
    assert f.rttType in dependencies ==> f.rttType in FieldTypes(fields);
  }

  lemma {:induction false} FieldsValidIff(members: seq<Member>, names: TypeId -> Name)
    requires forall i :: 0 <= i < |members| ==>
      members[i].memberType.Some? && ValidName(names(members[i].memberType.value))
    requires forall i, j :: 0 <= i < j < |members| ==> members[i].name != members[j].name
    ensures FieldsOk(FieldsOf(members, names)) <==> forall i :: 0 <= i < |members| ==> ValidName(members[i].name)
  {
    var fields := FieldsOf(members, names);
    if FieldsOk(fields) {
      forall i | 0 <= i < |members| ensures ValidName(members[i].name) {
        assert fields[i] == Field(members[i].name, names(members[i].memberType.value));
      }
    }
  }

  lemma OwnNamesAreValid()
    ensures ValidName(PROVIDER) && ValidName(VERSION)
  {
    Utf8.AsciiIsWellFormed(PROVIDER);
    Utf8.AsciiIsWellFormed(VERSION);
  }

  /** A reflected registration passes validation exactly when its names do. */
  lemma ReflectedValidatesIff(t: TypeId, s: Shape, names: TypeId -> Name)
    requires ShapeOk(s) && Typed(s)
    requires forall i :: 0 <= i < |MembersOf(s)| ==> ValidName(names(MembersOf(s)[i].memberType.value))
    ensures RegistrationOk(Built(t, s, names)) <==> NamesOk(t, s, names)
  {
    OwnNamesAreValid();
    BuiltDependencies(t, s, names);
    if s.Sequence? {
      assert MembersOf(s)[0] == s.element;
    } else {
      assert MembersOf(s) == s.members;
      FieldsValidIff(s.members, names);
    }
  }

  // ----- Soundness of the graph is kept -----

  /** A definition over a sound graph, under a new name, leaves it sound. */
  lemma ExtensionIsSound(g: Graph, name: Name, d: Definition)
    requires Sound(g) && name !in g && d.kind != "enum"
    requires forall b :: b in d.dependencies ==> b in g
    ensures Sound(g[name := d])
  {
    var h := g[name := d];
    forall a, b | Edge(h, a, b) ensures b in g && KindFits(h, a, b) {
      assert a != name ==> Edge(g, a, b) && KindFits(g, a, b);
    }
    forall p | Cycle(h, p) ensures false {
      forall i | 0 <= i < |p| ensures p[i] in g {
        if i == 0 {
          assert Edge(h, p[|p| - 2], p[|p| - 1]);
        } else {
          assert Edge(h, p[i - 1], p[i]);
        }
      }
      forall i | 0 <= i < |p| - 1 ensures Edge(g, p[i], p[i + 1]) {
        assert Edge(h, p[i], p[i + 1]);
      }
      assert Cycle(g, p);
    }
  }

  lemma ReflectedDependencies(t: TypeId, s: Shape, names: TypeId -> Name, codecs: set<TypeId>)
    requires Typed(s) && MembersReady(s, names, codecs)
    ensures KindOf(Built(t, s, names).descriptor) != "enum"
    ensures forall b :: b in Built(t, s, names).dependencies ==> exists m :: m in codecs && names(m) == b
  {
    var r := Built(t, s, names);
    BuiltDependencies(t, s, names);
    forall b | b in r.dependencies ensures exists m :: m in codecs && names(m) == b {
      assert b in References(r.descriptor);
      if s.Sequence? {
        assert MemberReady(MembersOf(s)[0], names, codecs);
      } else {
        assert MembersOf(s) == s.members;
        var fields := FieldsOf(s.members, names);
        var i :| 0 <= i < |fields| && fields[i].rttType == b;
        assert MemberReady(MembersOf(s)[i], names, codecs);
      }
    }
  }

  predicate OneNameEach(names: TypeId -> Name, s: TypeId, t: TypeId) {
    names(s) == names(t) ==> s == t
  }

  lemma GraphGrows(g: Graph, registrations: map<TypeId, Protocol>, t: TypeId, p: Protocol)
    requires IsGraph(g, registrations) && t !in registrations && p.registration.rttType !in g
    ensures IsGraph(g[p.registration.rttType := DefinitionOf(p.registration)], registrations[t := p])
  {
    var more, h := registrations[t := p], g[p.registration.rttType := DefinitionOf(p.registration)];
    assert Named(more, t, p.registration.rttType);
    forall n | n in g ensures exists u :: Named(more, u, n) {
      var u :| Named(registrations, u, n);
      assert Named(more, u, n);
    }
  }

  lemma NewName(g: Graph, registrations: map<TypeId, Protocol>, t: TypeId, names: TypeId -> Name)
    requires IsGraph(g, registrations) && FiledCorrectly(registrations, names) && t !in registrations
    requires forall u, v :: OneNameEach(names, u, v)
    ensures names(t) !in g
  {
    forall u | Named(registrations, u, names(t)) ensures u == t {
      assert OneNameEach(names, u, t);
    }
  }

  /** Adding a reflected registration keeps the graph of all registrations sound. */
  lemma ReflectionKeepsGraph(
      registrations: map<TypeId, Protocol>, codecs: set<TypeId>, t: TypeId, s: Shape, names: TypeId -> Name, p: Protocol)
    requires FiledCorrectly(registrations, names) && HasSoundGraph(registrations) && t !in registrations
    requires codecs <= registrations.Keys && forall u, v :: OneNameEach(names, u, v)
    requires Typed(s) && MembersReady(s, names, codecs) && p.registration == Built(t, s, names)
    ensures HasSoundGraph(registrations[t := p])
  {
    var g :| IsGraph(g, registrations) && Sound(g);
    NewName(g, registrations, t, names);
    ReflectedDependencies(t, s, names, codecs);
    forall b | b in p.registration.dependencies ensures b in g {
      var m :| m in codecs && names(m) == b;
      assert registrations[m].registration.rttType == b;
    }
    ExtensionIsSound(g, names(t), DefinitionOf(p.registration));
    GraphGrows(g, registrations, t, p);
  }

  // ----- The fixpoint -----

  /** What the fixpoint runs over: the types without a codec, their shapes and names, and which of
      them have a free slot that RTT would fill. */
  datatype Setting = Setting(candidates: set<TypeId>, shapes: TypeId -> Shape, names: TypeId -> Name, free: set<TypeId>)

  /** The rule: a candidate can be registered once its members have codecs. */
  ghost predicate Derivable(c: Setting, t: TypeId, codecs: set<TypeId>) {
    && t in c.candidates && t in c.free
    && ShapeOk(c.shapes(t)) && NamesOk(t, c.shapes(t), c.names) && MembersReady(c.shapes(t), c.names, codecs)
    && Identifiable(t, c.shapes(t), c.names)
  }

  ghost predicate ClosedUnder(c: Setting, codecs: set<TypeId>) {
    forall t :: Derivable(c, t, codecs) ==> t in codecs
  }

  /** The least set of types that contains the base and is closed under the rule. */
  ghost predicate IsLeast(c: Setting, base: set<TypeId>, codecs: set<TypeId>) {
    && base <= codecs && ClosedUnder(c, codecs)
    && (forall s :: base <= s && ClosedUnder(c, s) ==> codecs <= s)
  }

  lemma LeastIsUnique(c: Setting, base: set<TypeId>, r: set<TypeId>, s: set<TypeId>)
    requires IsLeast(c, base, r) && IsLeast(c, base, s)
    ensures r == s
  {}

  lemma DerivableMonotone(c: Setting, t: TypeId, r: set<TypeId>, s: set<TypeId>)
    requires Derivable(c, t, r) && r <= s
    ensures Derivable(c, t, s)
  {
    forall i | 0 <= i < |MembersOf(c.shapes(t))| ensures MemberReady(MembersOf(c.shapes(t))[i], c.names, s) {
      assert MemberReady(MembersOf(c.shapes(t))[i], c.names, r);
    }
  }

  ghost predicate Contains(c: Setting, t: TypeId, m: TypeId) {
    exists i :: 0 <= i < |MembersOf(c.shapes(t))| && MembersOf(c.shapes(t))[i].memberType == Some(m)
  }

  lemma KnotIsNotDerivable(c: Setting, t: TypeId, m: TypeId, codecs: set<TypeId>)
    requires Contains(c, t, m) && m !in codecs
    ensures !Derivable(c, t, codecs)
  {
    var i :| 0 <= i < |MembersOf(c.shapes(t))| && MembersOf(c.shapes(t))[i].memberType == Some(m);
    assert !MemberReady(MembersOf(c.shapes(t))[i], c.names, codecs);
  }

  /** Types that contain each other, or themselves, never get a codec. */
  lemma RecursiveTypesStayOut(c: Setting, base: set<TypeId>, codecs: set<TypeId>, knot: set<TypeId>)
    requires IsLeast(c, base, codecs) && knot !! base
    requires forall t :: t in knot ==> exists m :: m in knot && Contains(c, t, m)
    ensures knot !! codecs
  {
    var s := codecs - knot;
    forall t | t in knot ensures !Derivable(c, t, s) {
      var m :| m in knot && Contains(c, t, m);
      KnotIsNotDerivable(c, t, m, s);
    }
    forall t | Derivable(c, t, s) ensures t in s {
      DerivableMonotone(c, t, s, codecs);
    }
    assert ClosedUnder(c, s);
  }

  ghost predicate FreeOk(
      c: Setting, registrations: map<TypeId, Protocol>, slots: map<TypeId, Occupant>, codecs: set<TypeId>)
  {
    && codecs == Codecs(registrations, slots)
    && (forall t :: t in c.candidates && t !in codecs ==> (t in c.free <==> t !in slots && t !in registrations))
  }

  /** The state of the registry while the fixpoint runs. */
  ghost predicate Progressing(c: Setting, registry: Registry, codecs: set<TypeId>)
    reads registry
  {
    && registry.Valid() && !registry.frozen && registry.typeName == c.names
    && FreeOk(c, registry.registrations, registry.slots, codecs)
  }

  lemma AddingOne(
      c: Setting, registrations: map<TypeId, Protocol>, slots: map<TypeId, Occupant>, codecs: set<TypeId>,
      t: TypeId, p: Protocol)
    requires FreeOk(c, registrations, slots, codecs) && t !in registrations && t !in slots
    ensures FreeOk(c, registrations[t := p], slots[t := Ours(p)], codecs + {t})
  {
    assert Codecs(registrations[t := p], slots[t := Ours(p)]) == codecs + {t};
  }

  /** When one attempt adds its type: exactly when the rule derives it. */
  lemma AddedIffDerivable(c: Setting, registry: Registry, codecs: set<TypeId>, t: TypeId, p: Protocol)
    requires Progressing(c, registry, codecs) && t in c.candidates && t !in codecs
    requires ShapeOk(c.shapes(t)) && MembersReady(c.shapes(t), c.names, codecs) && Identifiable(t, c.shapes(t), c.names)
    requires p.hasCodec && p.registration == Built(t, c.shapes(t), c.names)
    ensures registry.Addable(t, p) <==> Derivable(c, t, codecs)
  {
    MemberNamesValid(registry.registrations, registry.slots, c.names, c.shapes(t));
    ReflectedValidatesIff(t, c.shapes(t), c.names);
  }

  /** What freezing asks for. */
  ghost predicate Freezable(registrations: map<TypeId, Protocol>, slots: map<TypeId, Occupant>) {
    SlotsIntact(registrations, slots) && HasSoundGraph(registrations)
  }

  lemma KeepsGraphIfAdded(c: Setting, registry: Registry, codecs: set<TypeId>, t: TypeId, p: Protocol)
    requires Progressing(c, registry, codecs) && t !in registry.registrations
    requires forall u, v :: OneNameEach(c.names, u, v)
    requires Typed(c.shapes(t)) && MembersReady(c.shapes(t), c.names, codecs)
    requires p.registration == Built(t, c.shapes(t), c.names)
    ensures Freezable(registry.registrations, registry.slots) ==>
      Freezable(registry.registrations[t := p], registry.slots[t := Ours(p)])
  {
    if Freezable(registry.registrations, registry.slots) {
      ReflectionKeepsGraph(registry.registrations, codecs, t, c.shapes(t), c.names, p);
    }
  }

  /** One attempt on one pending type. */
  method Attempt(registry: Registry, ghost c: Setting, ghost codecs: set<TypeId>, t: TypeId, s: Shape, address: nat)
    returns (diagnostic: Option<Diagnostic>)
    requires Progressing(c, registry, codecs) && t in c.candidates && t !in codecs && s == c.shapes(t)
    requires forall u, v :: OneNameEach(c.names, u, v)
    modifies registry
    ensures diagnostic.None? <==> Derivable(c, t, codecs)
    ensures Progressing(c, registry, if diagnostic.None? then codecs + {t} else codecs)
    ensures old(registry.registrations).Keys <= registry.registrations.Keys
    ensures old(Freezable(registry.registrations, registry.slots)) ==> Freezable(registry.registrations, registry.slots)
  {
    var p := MakeProtocol(registry, t, s, address);
    if p.None? {
      return Some(NotReflected);
    }
    AddedIffDerivable(c, registry, codecs, t, p.value);
    if t !in registry.registrations {
      KeepsGraphIfAdded(c, registry, codecs, t, p.value);
      if t !in registry.slots {
        AddingOne(c, registry.registrations, registry.slots, codecs, t, p.value);
      }
    }
    var r := registry.Register(Some(t), p, false);
    if !r.Added? {
      return Some(NotRegistered(r));
    }
    return None;
  }

  lemma MemberNamesValid(registrations: map<TypeId, Protocol>, slots: map<TypeId, Occupant>, names: TypeId -> Name, s: Shape)
    requires FiledCorrectly(registrations, names) && MembersReady(s, names, Codecs(registrations, slots))
    ensures forall i :: 0 <= i < |MembersOf(s)| ==>
      MembersOf(s)[i].memberType.Some? && ValidName(names(MembersOf(s)[i].memberType.value))
  {
    forall i | 0 <= i < |MembersOf(s)|
      ensures MembersOf(s)[i].memberType.Some? && ValidName(names(MembersOf(s)[i].memberType.value))
    {
      assert MemberReady(MembersOf(s)[i], names, Codecs(registrations, slots));
      assert RegistrationOk(registrations[MembersOf(s)[i].memberType.value].registration);
    }
  }

  ghost function SettingOf(
      registrations: map<TypeId, Protocol>, slots: map<TypeId, Occupant>, names: TypeId -> Name,
      types: set<TypeId>, shapes: TypeId -> Shape): Setting
  {
    Setting((set t | t in types && t !in Codecs(registrations, slots) && names(t) != UNKNOWN),
            shapes, names,
            (set t | t in types && t !in slots && t !in registrations))
  }

  ghost function NamesOf(types: set<TypeId>, names: TypeId -> Name): set<Name> {
    set t | t in types :: names(t)
  }

  /** What is known before each pass. */
  ghost predicate Sweeping(c: Setting, base: set<TypeId>, codecs: set<TypeId>, pending: set<TypeId>) {
    && base <= codecs <= base + c.candidates && pending == c.candidates - codecs && base !! c.candidates
    && (forall s :: base <= s && ClosedUnder(c, s) ==> codecs <= s)
  }

  lemma SweepAdds(c: Setting, base: set<TypeId>, codecs: set<TypeId>, pending: set<TypeId>, t: TypeId)
    requires Sweeping(c, base, codecs, pending) && t in pending && Derivable(c, t, codecs)
    ensures Sweeping(c, base, codecs + {t}, pending - {t})
  {
    forall s | base <= s && ClosedUnder(c, s) ensures codecs + {t} <= s {
      DerivableMonotone(c, t, codecs, s);
    }
  }

  /** Diagnostics exist for every pending type already attempted, and for pending types only. */
  ghost predicate Reported(reported: set<Name>, pending: set<TypeId>, todo: set<TypeId>, names: TypeId -> Name) {
    NamesOf(pending - todo, names) <= reported <= NamesOf(pending, names)
  }

  /** Erasing one type's diagnostic leaves the others', since names are unique. */
  lemma ReportedWithout(reported: set<Name>, pending: set<TypeId>, todo: set<TypeId>, names: TypeId -> Name, t: TypeId)
    requires t in todo && todo <= pending && forall u, v :: OneNameEach(names, u, v)
    requires Reported(reported, pending, todo, names)
    ensures Reported(reported - {names(t)}, pending - {t}, todo - {t}, names)
  {
    forall u | u in pending && u != t ensures names(u) != names(t) {
      assert OneNameEach(names, u, t);
    }
    assert pending - {t} - (todo - {t}) == pending - todo;
  }

  lemma ReportedWith(reported: set<Name>, pending: set<TypeId>, todo: set<TypeId>, names: TypeId -> Name, t: TypeId)
    requires t in todo && todo <= pending && Reported(reported, pending, todo, names)
    ensures Reported(reported + {names(t)}, pending, todo - {t}, names)
  {
    assert pending - (todo - {t}) == pending - todo + {t};
  }

  /** The types without a codec, in the order RTT lists them. */
  method CollectPending(registry: Registry, types: set<TypeId>) returns (pending: set<TypeId>)
    ensures pending == set t | t in types && t !in Codecs(registry.registrations, registry.slots)
                                && registry.typeName(t) != UNKNOWN
  {
    pending := {};
    var todo := types;
    while todo != {}
      invariant todo <= types
      invariant pending == set t | t in types && t !in todo
        && t !in Codecs(registry.registrations, registry.slots) && registry.typeName(t) != UNKNOWN
      decreases todo
    {
      var t :| t in todo;
      todo := todo - {t};
      var known := registry.RegisteredCodec(Some(t));
      if !known && registry.typeName(t) != UNKNOWN {
        pending := pending + {t};
      }
    }
  }

  /** What a pass that has made no progress has learned. */
  ghost predicate NoneDerivable(c: Setting, codecs: set<TypeId>, types: set<TypeId>) {
    forall t :: t in types ==> !Derivable(c, t, codecs)
  }

  /** One type of a pass: registered and no longer pending, or its diagnostic renewed. */
  method Visit(registry: Registry, t: TypeId, s: Shape, address: nat, pending0: set<TypeId>, unresolved0: map<Name, Diagnostic>,
               ghost c: Setting, ghost base: set<TypeId>, ghost codecs0: set<TypeId>, ghost todo: set<TypeId>)
    returns (added: bool, pending: set<TypeId>, unresolved: map<Name, Diagnostic>, ghost codecs: set<TypeId>)
    requires Progressing(c, registry, codecs0) && Sweeping(c, base, codecs0, pending0) && s == c.shapes(t)
    requires t in todo && todo <= pending0 && Reported(unresolved0.Keys, pending0, todo, c.names)
    requires forall u, v :: OneNameEach(c.names, u, v)
    modifies registry
    ensures Progressing(c, registry, codecs) && Sweeping(c, base, codecs, pending)
    ensures Reported(unresolved.Keys, pending, todo - {t}, c.names)
    ensures added <==> Derivable(c, t, codecs0)
    ensures pending == if added then pending0 - {t} else pending0
    ensures !added ==> codecs == codecs0
    ensures old(Freezable(registry.registrations, registry.slots)) ==> Freezable(registry.registrations, registry.slots)
  {
    var name := registry.typeName(t);
    var diagnostic := Attempt(registry, c, codecs0, t, s, address);
    added := diagnostic.None?;
    if added {
      SweepAdds(c, base, codecs0, pending0, t);
      ReportedWithout(unresolved0.Keys, pending0, todo, c.names, t);
      unresolved, pending, codecs := unresolved0 - {name}, pending0 - {t}, codecs0 + {t};
    } else {
      ReportedWith(unresolved0.Keys, pending0, todo, c.names, t);
      unresolved, pending, codecs := unresolved0[name := diagnostic.value], pending0, codecs0;
    }
  }

  /** One pass over the pending types, in any order. */
  method Sweep(registry: Registry, shapes: TypeId -> Shape, pending0: set<TypeId>, unresolved0: map<Name, Diagnostic>,
               ghost c: Setting, ghost base: set<TypeId>, ghost codecs0: set<TypeId>)
    returns (progress: bool, pending: set<TypeId>, unresolved: map<Name, Diagnostic>, ghost codecs: set<TypeId>)
    requires Progressing(c, registry, codecs0) && Sweeping(c, base, codecs0, pending0) && shapes == c.shapes
    requires forall u, v :: OneNameEach(c.names, u, v)
    requires unresolved0.Keys <= NamesOf(pending0, c.names)
    modifies registry
    ensures Progressing(c, registry, codecs) && Sweeping(c, base, codecs, pending)
    ensures progress ==> pending < pending0
    ensures !progress ==> pending == pending0 && ClosedUnder(c, codecs)
    ensures unresolved.Keys == NamesOf(pending, c.names)
    ensures old(Freezable(registry.registrations, registry.slots)) ==> Freezable(registry.registrations, registry.slots)
  {
    progress, pending, unresolved, codecs := false, pending0, unresolved0, codecs0;
    var todo, address := pending0, 0;
    while todo != {}
      invariant todo <= pending <= pending0 && (progress ==> pending < pending0)
      invariant Progressing(c, registry, codecs) && Sweeping(c, base, codecs, pending)
      invariant !progress ==> pending == pending0 && NoneDerivable(c, codecs, pending - todo)
      invariant Reported(unresolved.Keys, pending, todo, c.names)
      invariant old(Freezable(registry.registrations, registry.slots)) ==> Freezable(registry.registrations, registry.slots)
      decreases todo
    {
      var t :| t in todo;
      var added;
      added, pending, unresolved, codecs :=
        Visit(registry, t, shapes(t), address, pending, unresolved, c, base, codecs, todo);
      progress, address, todo := progress || added, address + 1, todo - {t};
    }
  }

  /** `registerReflectedTypeProtocols`: registers exactly the least set of types whose members all
      have codecs, whatever the order of the pending types, and reports exactly the rest. */
  method RegisterReflected(registry: Registry, types: set<TypeId>, shapes: TypeId -> Shape)
    returns (unresolved: map<Name, Diagnostic>)
    requires registry.Valid() && !registry.frozen
    requires forall u, v :: OneNameEach(registry.typeName, u, v)
    modifies registry
    ensures registry.Valid() && !registry.frozen
    ensures var c := SettingOf(old(registry.registrations), old(registry.slots), registry.typeName, types, shapes);
      var base := Codecs(old(registry.registrations), old(registry.slots));
      var codecs := Codecs(registry.registrations, registry.slots);
      && IsLeast(c, base, codecs)
      && codecs <= base + c.candidates
      && unresolved.Keys == NamesOf(c.candidates - codecs, registry.typeName)
    ensures old(Freezable(registry.registrations, registry.slots)) ==> Freezable(registry.registrations, registry.slots)
  {
    ghost var c := SettingOf(registry.registrations, registry.slots, registry.typeName, types, shapes);
    ghost var base := Codecs(registry.registrations, registry.slots);
    ghost var codecs := base;
    unresolved := map[];
    var pending := CollectPending(registry, types);
    var progress := true;
    while progress
      invariant Progressing(c, registry, codecs) && Sweeping(c, base, codecs, pending)
      invariant unresolved.Keys <= NamesOf(pending, c.names)
      invariant !progress ==> ClosedUnder(c, codecs) && unresolved.Keys == NamesOf(pending, c.names)
      invariant old(Freezable(registry.registrations, registry.slots)) ==> Freezable(registry.registrations, registry.slots)
      decreases pending, progress
    {
      progress, pending, unresolved, codecs := Sweep(registry, shapes, pending, unresolved, c, base, codecs);
    }
  }

  lemma NamesAreUnique(registrations: map<TypeId, Protocol>, names: TypeId -> Name)
    requires FiledCorrectly(registrations, names) && forall u, v :: OneNameEach(names, u, v)
    ensures UniqueNames(registrations)
  {
    forall s, t | s in registrations && t in registrations && s != t
      ensures registrations[s].registration.rttType != registrations[t].registration.rttType
    {
      assert OneNameEach(names, s, t);
    }
  }

  /** What the first `start` does once the explicit protocols are registered: reflection never
      makes the freeze fail. */
  method BuildCatalog(registry: Registry, types: set<TypeId>, shapes: TypeId -> Shape)
    returns (catalog: Option<Catalog>, diagnostics: map<Name, Diagnostic>)
    requires registry.Valid()
    requires forall u, v :: OneNameEach(registry.typeName, u, v)
    modifies registry
    ensures registry.Valid() && registry.frozen && catalog == registry.catalog
    ensures old(registry.frozen) ==> catalog == old(registry.catalog) && diagnostics == map[]
    ensures !old(registry.frozen) && old(Freezable(registry.registrations, registry.slots)) ==> catalog.Some?
    ensures !old(registry.frozen) && catalog.Some? ==> Covers(catalog.value, registry.registrations)
  {
    diagnostics := map[];
    if !registry.frozen {
      diagnostics := RegisterReflected(registry, types, shapes);
    }
    NamesAreUnique(registry.registrations, registry.typeName);
    catalog := registry.Freeze();
  }

  // ----- A structure that is refused for its length -----

  /** A thousand bytes, different for each i. */
  function LongName(i: nat): Name
    requires i < 70
  {
    seq(999, j => 97) + [(48 + i) as byte]
  }

  function LongMembers(k: nat): seq<Member>
    requires k <= 70
  {
    seq(k, i requires 0 <= i < k => Member(LongName(i), Some(0), true))
  }

  lemma LongNamesAreValid(k: nat)
    requires k <= 70
    ensures var members := LongMembers(k);
      && (forall i :: 0 <= i < |members| ==> |members[i].name| == 1000 && ValidName(members[i].name))
      && (forall i, j :: 0 <= i < j < |members| ==> members[i].name != members[j].name)
  {
    var members := LongMembers(k);
    forall i | 0 <= i < |members| ensures |members[i].name| == 1000 && ValidName(members[i].name) {
      Utf8.AsciiIsWellFormed(LongName(i));
    }
    forall i, j | 0 <= i < j < |members| ensures members[i].name != members[j].name {
      assert LongName(i)[999] != LongName(j)[999];
    }
  }

  lemma {:induction false} NameBytesOfEqual(fields: seq<Field>, size: nat, n: nat)
    requires n <= |fields| && forall i :: 0 <= i < |fields| ==> |fields[i].name| == size
    ensures Fingerprints.NameBytes(fields, n) == size * (|fields| - n)
    decreases |fields| - n
  {
    if n < |fields| {
      NameBytesOfEqual(fields, size, n + 1);
    }
  }

  /** The structure of k members with names of a thousand bytes. */
  function LongStructure(k: nat): Shape
    requires k <= 70
  {
    Structure(LongMembers(k))
  }

  lemma LongStructureIsComplete(names: TypeId -> Name, t: TypeId, k: nat)
    requires 0 < k <= 70 && ValidName(names(t))
    ensures ShapeOk(LongStructure(k)) && NamesOk(t, LongStructure(k), names)
  {
    LongNamesAreValid(k);
  }

  lemma LongStructureIsReady(names: TypeId -> Name, codecs: set<TypeId>, k: nat)
    requires k <= 70 && 0 in codecs && names(0) != VOID
    ensures Typed(LongStructure(k)) && MembersReady(LongStructure(k), names, codecs)
  {
    assert MembersOf(LongStructure(k)) == LongMembers(k);
  }

  lemma LongFieldsAreUnprintable(r: Registration, members: seq<Member>, names: TypeId -> Name)
    requires |members| >= 66 && forall i :: 0 <= i < |members| ==> members[i].memberType.Some? && |members[i].name| == 1000
    requires r.descriptor == Object(FieldsOf(members, names))
    ensures !Fingerprints.Printable(r)
  {
    var fields := FieldsOf(members, names);
    NameBytesOfEqual(fields, 1000, 0);
    Fingerprints.LongNamesAreUnprintable(r);
  }

  lemma LongStructureIsUnidentifiable(names: TypeId -> Name, t: TypeId, k: nat)
    requires 66 <= k <= 70
    ensures !Identifiable(t, LongStructure(k), names)
  {
    var members := LongMembers(k);
    LongNamesAreValid(k);
    assert MembersOf(LongStructure(k)) == members;
    assert forall i :: 0 <= i < |members| ==> members[i].memberType.Some?;
    LongFieldsAreUnprintable(Built(t, LongStructure(k), names), members, names);
  }

  /** Such a structure of 66 to 70 members is complete, every name is valid and every member ready, and
      yet it never gets a codec. */
  lemma LongStructureIsRefused(names: TypeId -> Name, t: TypeId, codecs: set<TypeId>, k: nat)
    requires 66 <= k <= 70 && 0 in codecs && names(0) != VOID && ValidName(names(t))
    ensures var s := LongStructure(k);
      ShapeOk(s) && NamesOk(t, s, names) && MembersReady(s, names, codecs) && !Identifiable(t, s, names)
  {
    LongStructureIsComplete(names, t, k);
    LongStructureIsReady(names, codecs, k);
    LongStructureIsUnidentifiable(names, t, k);
  }
}
