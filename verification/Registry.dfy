/** The process-wide registry of type protocols and its one-way freeze into a catalog. */
module TypeRegistry {
  import opened Prelude
  import opened TypeGraph
  import Json
  import Utf8

  /** Type identities: the addresses of RTT's TypeInfo objects. */
  type TypeId = nat

  datatype Field = Field(name: Name, rttType: Name)

  datatype Descriptor =
    | Integer(bits: int, isSigned: bool, decimalString: bool)
    | Float(bits: int, specialNames: bool)
    | Text(utf8: bool)
    | Enum(underlying: Name)
    | Array(element: Name, length: Option<Json.int64>)
    | Object(fields: seq<Field>)
    | Boolean
    | VoidKind
    | OtherKind(other: string)

  /** `fingerprint()` is the canonical form of these fields, so equal fingerprints are equal
      registrations. The constructor of TypeProtocol has sorted the dependencies. */
  datatype Registration = Registration(
    providerId: Name, providerVersion: Name, codecId: Name, codecVersion: Name,
    rttType: Name, descriptor: Descriptor, dependencies: seq<Name>)

  /** A protocol object; `id` is its address. */
  datatype Protocol = Protocol(id: nat, registration: Registration, hasCodec: bool)

  /** What sits in slot 1043 of a type. */
  datatype Occupant = Foreign(code: nat) | Ours(protocol: Protocol)

  datatype Registered = Added | AlreadyThere | InvalidArgument | InvalidDescriptor | Conflict
                      | CatalogFrozen | SlotChanged | RejectedByRtt

  datatype Catalog = Catalog(types: map<Name, Registration>, identities: map<TypeId, Name>)

  // ----- Validation -----

  ghost predicate ValidName(name: Name) {
    name != [] && |name| <= 1024 && Utf8.WellFormed(name) && 0 !in name
  }

  /** A name has from 1 to 1024 octets. */
  lemma NameLengths(n: nat)
    ensures ValidName(seq(n, i => 97)) <==> 1 <= n <= 1024
  {
    Utf8.AsciiIsWellFormed(seq(n, i => 97));
  }

  method CheckName(name: Name) returns (ok: bool)
    ensures ok <==> ValidName(name)
  {
    if name == [] || |name| > 1024 {
      return false;
    }
    ok := Utf8.ValidUtf8(name);
    ok := ok && 0 !in name;
  }

  function KindOf(d: Descriptor): string {
    match d
    case Integer(_, _, _) => "integer"
    case Float(_, _) => "float"
    case Text(_) => "string"
    case Enum(_) => "enum"
    case Array(_, _) => "array"
    case Object(_) => "object"
    case Boolean => "boolean"
    case VoidKind => "void"
    case OtherKind(k) => k
  }

  function References(d: Descriptor): set<Name> {
    match d
    case Enum(u) => {u}
    case Array(e, _) => {e}
    case Object(fields) => FieldTypes(fields)
    case _ => {}
  }

  function FieldTypes(fields: seq<Field>): set<Name> {
    set i | 0 <= i < |fields| :: fields[i].rttType
  }

  ghost predicate FieldsOk(fields: seq<Field>) {
    && (forall i :: 0 <= i < |fields| ==> ValidName(fields[i].name) && ValidName(fields[i].rttType))
    && (forall i, j :: 0 <= i < j < |fields| ==> fields[i].name != fields[j].name)
  }

  ghost predicate DescriptorOk(d: Descriptor) {
    match d
    case Integer(bits, _, decimal) => bits in {8, 16, 32, 64} && (decimal <==> bits == 64)
    case Float(bits, special) => bits in {32, 64} && special
    case Text(utf8) => utf8
    case Enum(u) => ValidName(u)
    case Array(e, length) => ValidName(e) && (length.Some? ==> length.value >= 0)
    case Object(fields) => FieldsOk(fields)
    case OtherKind(_) => false
    case _ => true
  }

  /** What `validateRegistration` accepts: well-formed names and descriptor, and dependencies
      that are exactly the types the descriptor refers to. */
  ghost predicate RegistrationOk(r: Registration) {
    && ValidName(r.providerId) && ValidName(r.providerVersion) && ValidName(r.codecId)
    && ValidName(r.codecVersion) && ValidName(r.rttType)
    && DescriptorOk(r.descriptor)
    && References(r.descriptor) == Elements(r.dependencies)
  }

  method CheckFields(fields: seq<Field>) returns (ok: bool, references: set<Name>)
    ensures ok <==> FieldsOk(fields)
    ensures ok ==> references == FieldTypes(fields)
  {
    var names: set<Name> := {};
    references := {};
    for n := 0 to |fields|
      invariant FieldsOk(fields[..n])
      invariant names == set i | 0 <= i < n :: fields[i].name
      invariant references == set i | 0 <= i < n :: fields[i].rttType
    {
      var named := CheckName(fields[n].name);
      var typed := CheckName(fields[n].rttType);
      if !named || !typed || fields[n].name in names {
        return false, {};
      }
      names := names + {fields[n].name};
      references := references + {fields[n].rttType};
      assert fields[..n + 1] == fields[..n] + [fields[n]];
    }
    assert fields[..|fields|] == fields;
    ok := true;
  }

  method CheckDescriptor(d: Descriptor) returns (ok: bool, references: set<Name>)
    ensures ok <==> DescriptorOk(d)
    ensures ok ==> references == References(d)
  {
    ok, references := true, {};
    match d
    case Integer(bits, _, decimal) =>
      ok := bits in {8, 16, 32, 64} && decimal == (bits == 64);
    case Float(bits, special) => ok := bits in {32, 64} && special;
    case Text(utf8) => ok := utf8;
    case Enum(u) =>
      ok := CheckName(u);
      references := {u};
    case Array(e, length) =>
      ok := CheckName(e);
      ok := ok && (length.Some? ==> length.value >= 0);
      references := {e};
    case Object(fields) => ok, references := CheckFields(fields);
    case OtherKind(_) => ok := false;
    case _ =>
  }

  method ValidateRegistration(r: Registration) returns (ok: bool)
    ensures ok <==> RegistrationOk(r)
  {
    var identity := [r.providerId, r.providerVersion, r.codecId, r.codecVersion, r.rttType];
    assert RegistrationOk(r) ==> forall i :: 0 <= i < 5 ==> ValidName(identity[i]);
    for n := 0 to |identity|
      invariant forall i :: 0 <= i < n ==> ValidName(identity[i])
    {
      ok := CheckName(identity[n]);
      if !ok {
        return;
      }
    }
    assert ValidName(identity[0]) && ValidName(identity[1]) && ValidName(identity[2]) && ValidName(identity[3])
        && ValidName(identity[4]);
    var references;
    ok, references := CheckDescriptor(r.descriptor);
    ok := ok && references == Elements(r.dependencies);
  }

  // ----- The registry -----

  function DefinitionOf(r: Registration): Definition {
    Definition(KindOf(r.descriptor), r.dependencies)
  }

  ghost predicate UniqueNames(registrations: map<TypeId, Protocol>) {
    forall s, t :: s in registrations && t in registrations && s != t ==>
                     registrations[s].registration.rttType != registrations[t].registration.rttType
  }

  ghost predicate Named(registrations: map<TypeId, Protocol>, t: TypeId, name: Name) {
    t in registrations && registrations[t].registration.rttType == name
  }

  /** The dependency graph of all registrations. */
  ghost predicate IsGraph(g: Graph, registrations: map<TypeId, Protocol>) {
    && (forall t :: t in registrations ==>
          var r := registrations[t].registration; r.rttType in g && g[r.rttType] == DefinitionOf(r))
    && (forall name :: name in g ==> exists t :: Named(registrations, t, name))
  }

  lemma GraphIsUnique(g: Graph, h: Graph, registrations: map<TypeId, Protocol>)
    requires IsGraph(g, registrations) && IsGraph(h, registrations)
    ensures g == h
  {
    forall name | name in g ensures name in h && h[name] == g[name] {
      var t :| Named(registrations, t, name);
    }
    forall name | name in h ensures name in g {
      var t :| Named(registrations, t, name);
    }
  }

  /** Whichever graph of the registrations is checked decides for all of them. */
  lemma OneGraphDecides(g: Graph, registrations: map<TypeId, Protocol>)
    requires IsGraph(g, registrations)
    ensures HasSoundGraph(registrations) <==> Sound(g)
  {
    forall h | IsGraph(h, registrations) ensures h == g {
      GraphIsUnique(g, h, registrations);
    }
  }

  ghost predicate HasSoundGraph(registrations: map<TypeId, Protocol>) {
    exists g :: IsGraph(g, registrations) && Sound(g)
  }

  ghost predicate FiledCorrectly(registrations: map<TypeId, Protocol>, typeName: TypeId -> Name) {
    forall t :: t in registrations ==>
      && registrations[t].hasCodec && registrations[t].registration.rttType == typeName(t)
      && RegistrationOk(registrations[t].registration)
  }

  /** Every registered slot still holds the protocol that was registered. */
  ghost predicate SlotsIntact(registrations: map<TypeId, Protocol>, slots: map<TypeId, Occupant>) {
    forall t :: t in registrations ==> SlotHolds(registrations, slots, t)
  }

  predicate SlotHolds(registrations: map<TypeId, Protocol>, slots: map<TypeId, Occupant>, t: TypeId) {
    t in registrations && t in slots && slots[t] == Ours(registrations[t])
  }

  /** The repository of RTT types, as far as slot 1043 is concerned, and the registry. */
  class Registry {
    const typeName: TypeId -> Name
    var slots: map<TypeId, Occupant>
    var frozen: bool
    var registrations: map<TypeId, Protocol>
    var catalog: Option<Catalog>

    /** Registrations are validated, carry a codec and are filed under their own type; a catalog
        exists only when frozen, over a sound graph of exactly the registrations. */
    ghost predicate Valid()
      reads this
    {
      && FiledCorrectly(registrations, typeName)
      && (catalog.Some? ==> frozen && HasSoundGraph(registrations))
    }

    constructor (names: TypeId -> Name, occupied: map<TypeId, Occupant>)
      ensures Valid() && typeName == names && slots == occupied && registrations == map[] && !frozen && catalog.None?
    {
      typeName, slots, frozen, registrations, catalog := names, occupied, false, map[], None;
    }

    /** What `registeredTypeCodec` tests: registered, and the slot still holds that protocol. */
    ghost predicate HasCodec(t: TypeId)
      reads this
    {
      SlotHolds(registrations, slots, t)
    }

    method RegisteredCodec(type0: Option<TypeId>) returns (found: bool)
      ensures found <==> type0.Some? && HasCodec(type0.value)
    {
      if type0.None? {
        return false;
      }
      var t := type0.value;
      if t !in registrations || t !in slots || slots[t] != Ours(registrations[t]) {
        return false;
      }
      return true;
    }

    /** The protocol is filed under a slot that nobody holds and a type nobody registered. */
    ghost predicate Addable(t: TypeId, p: Protocol)
      reads this
    {
      && p.hasCodec && typeName(t) == p.registration.rttType && RegistrationOk(p.registration)
      && t !in slots && t !in registrations && !frozen
    }

    /** The slot already holds a registered protocol of the same identity. */
    ghost predicate Repeats(t: TypeId, p: Protocol)
      reads this
    {
      && p.hasCodec && typeName(t) == p.registration.rttType && RegistrationOk(p.registration)
      && HasCodec(t) && registrations[t].registration == p.registration
    }

    /** `registerTypeProtocol`; `rejects` is RTT's `addProtocol` refusing. */
    method Register(type0: Option<TypeId>, protocol: Option<Protocol>, rejects: bool) returns (r: Registered)
      requires Valid()
      modifies this
      ensures Valid() && catalog == old(catalog) && frozen == old(frozen)
      ensures r.Added? <==>
        type0.Some? && protocol.Some? && old(Addable(type0.value, protocol.value)) && !rejects
      ensures r.AlreadyThere? <==> type0.Some? && protocol.Some? && old(Repeats(type0.value, protocol.value))
      ensures r.Added? ==>
        && registrations == old(registrations)[type0.value := protocol.value]
        && slots == old(slots)[type0.value := Ours(protocol.value)]
      ensures !r.Added? ==> registrations == old(registrations) && slots == old(slots)
    {
      if type0.None? || protocol.None? {
        return InvalidArgument;
      }
      var t, p := type0.value, protocol.value;
      if !p.hasCodec || typeName(t) != p.registration.rttType {
        return InvalidArgument;
      }
      var ok := ValidateRegistration(p.registration);
      if !ok {
        return InvalidDescriptor;
      }
      if t in slots {
        var existing := slots[t];
        if existing.Foreign? || existing.protocol.registration != p.registration
           || t !in registrations || registrations[t] != existing.protocol {
          return Conflict;
        }
        return AlreadyThere;
      }
      if frozen {
        return CatalogFrozen;
      }
      if t in registrations {
        return SlotChanged;
      }
      registrations := registrations[t := p];
      if rejects {
        registrations := registrations - {t};
        assert registrations == old(registrations);
        return RejectedByRtt;
      }
      slots := slots[t := Ours(p)];
      return Added;
    }

    /** The first half of freezing: every slot is checked, in any order of the types. */
    method Stage() returns (ok: bool, staged: Catalog, g: Graph)
      requires UniqueNames(registrations)
      ensures ok <==> SlotsIntact(registrations, slots)
      ensures ok ==> Covers(staged, registrations) && IsGraph(g, registrations)
    {
      staged, g := Catalog(map[], map[]), map[];
      var todo, done: set<TypeId> := registrations.Keys, {};
      while todo != {}
        invariant done + todo == registrations.Keys && done !! todo
        invariant forall t :: t in done ==> HasCodec(t) && Staged(staged, g, t, registrations[t].registration)
        invariant forall name :: name in g || name in staged.types ==> exists t :: t in done && Named(registrations, t, name)
        decreases todo
      {
        var t :| t in todo;
        var p := registrations[t];
        if t !in slots || slots[t] != Ours(p) {
          return false, staged, g;
        }
        var name := p.registration.rttType;
        assert Named(registrations, t, name);
        todo, done := todo - {t}, done + {t};
        staged := Catalog(staged.types[name := p.registration], staged.identities[t := name]);
        g := g[name := DefinitionOf(p.registration)];
      }
      ok := true;
    }

    /** `freezeTypeCatalog`.  The first call decides; every later one returns the same outcome. */
    method Freeze() returns (r: Option<Catalog>)
      requires Valid() && UniqueNames(registrations)
      modifies this`frozen, this`catalog
      ensures Valid() && frozen && r == catalog
      ensures old(frozen) ==> catalog == old(catalog)
      ensures !old(frozen) ==>
        (r.Some? <==> SlotsIntact(registrations, slots) && HasSoundGraph(registrations))
      ensures !old(frozen) && r.Some? ==> Covers(r.value, registrations)
    {
      if frozen {
        return catalog;
      }
      frozen := true;
      catalog := None;
      var ok, staged, g := Stage();
      if !ok {
        return None;
      }
      var defect := Check(g);
      OneGraphDecides(g, registrations);
      if defect.Some? {
        return None;
      }
      catalog := Some(staged);
      return catalog;
    }
  }

  ghost predicate Staged(c: Catalog, g: Graph, t: TypeId, r: Registration) {
    && r.rttType in c.types && c.types[r.rttType] == r
    && r.rttType in g && g[r.rttType] == DefinitionOf(r)
    && t in c.identities && c.identities[t] == r.rttType
  }

  /** The catalog holds exactly the registrations, under their names and under their types. */
  ghost predicate Covers(c: Catalog, registrations: map<TypeId, Protocol>) {
    && (forall t :: t in registrations ==>
          var r := registrations[t].registration;
          && r.rttType in c.types && c.types[r.rttType] == r
          && t in c.identities && c.identities[t] == r.rttType)
    && (forall name :: name in c.types ==> exists t :: Named(registrations, t, name))
  }
}
