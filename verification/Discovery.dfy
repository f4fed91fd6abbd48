/** The type descriptions that accompany a published collection: a worklist over the catalog. */
module Discovery {
  import opened Prelude
  import opened TypeGraph
  import opened TypeRegistry

  /** One entry of the `types` object. */
  datatype Entry = Described(descriptor: Descriptor) | Unsupported(reason: string)

  const NO_CODEC := "no registered HTTP JSON codec"

  /** A chain of dependencies from one of the references. */
  ghost predicate Chain(catalog: Catalog, references: seq<Name>, p: seq<Name>) {
    && p != [] && p[0] in references
    && forall i :: 0 <= i < |p| - 1 ==> Depends(catalog, p[i], p[i + 1])
  }

  predicate Depends(catalog: Catalog, a: Name, b: Name) {
    a in catalog.types && b in catalog.types[a].dependencies
  }

  /** The reflexive and transitive closure of the references under dependency. */
  ghost predicate Reached(catalog: Catalog, references: seq<Name>, name: Name) {
    exists p :: Chain(catalog, references, p) && p[|p| - 1] == name
  }

  ghost function Universe(catalog: Catalog, references: seq<Name>): set<Name> {
    Elements(references) + (set a, b | a in catalog.types && b in catalog.types[a].dependencies :: b)
  }

  ghost predicate ClosedUnder(catalog: Catalog, names: set<Name>) {
    forall a, b :: a in names && Depends(catalog, a, b) ==> b in names
  }

  lemma {:induction false} ClosedHoldsChain(catalog: Catalog, references: seq<Name>, names: set<Name>, p: seq<Name>)
    requires Chain(catalog, references, p) && Elements(references) <= names && ClosedUnder(catalog, names)
    ensures p[|p| - 1] in names
  {
    if |p| > 1 {
      ClosedHoldsChain(catalog, references, names, p[..|p| - 1]);
      assert Depends(catalog, p[|p| - 2], p[|p| - 1]);
    }
  }

  /** The names reached are the least closed set around the references. */
  ghost predicate IsClosure(catalog: Catalog, references: seq<Name>, closure: set<Name>) {
    && Elements(references) <= closure && ClosedUnder(catalog, closure)
    && (forall s :: Elements(references) <= s && ClosedUnder(catalog, s) ==> closure <= s)
  }

  lemma ReachesOn(catalog: Catalog, references: seq<Name>, a: Name, b: Name)
    requires Reached(catalog, references, a) && Depends(catalog, a, b)
    ensures Reached(catalog, references, b)
  {
    var p :| Chain(catalog, references, p) && p[|p| - 1] == a;
    assert Chain(catalog, references, p + [b]);
  }

  lemma ReachedIsInEveryClosed(catalog: Catalog, references: seq<Name>, names: set<Name>, name: Name)
    requires Elements(references) <= names && ClosedUnder(catalog, names) && Reached(catalog, references, name)
    ensures name in names
  {
    var p :| Chain(catalog, references, p) && p[|p| - 1] == name;
    ClosedHoldsChain(catalog, references, names, p);
  }

  lemma ReachedIsClosure(catalog: Catalog, references: seq<Name>) returns (closure: set<Name>)
    ensures IsClosure(catalog, references, closure)
    ensures forall name :: name in closure <==> Reached(catalog, references, name)
  {
    var universe := Universe(catalog, references);
    assert ClosedUnder(catalog, universe);
    closure := set name | name in universe && Reached(catalog, references, name);
    forall name | name in references ensures name in closure {
      assert Chain(catalog, references, [name]);
    }
    forall a, b | a in closure && Depends(catalog, a, b) ensures b in closure {
      ReachesOn(catalog, references, a, b);
    }
    forall s, name | Elements(references) <= s && ClosedUnder(catalog, s) && Reached(catalog, references, name)
      ensures name in s
    {
      ReachedIsInEveryClosed(catalog, references, s, name);
    }
  }

  function EntryFor(catalog: Catalog, diagnostics: map<Name, string>, name: Name): Entry {
    if name in catalog.types then Described(catalog.types[name].descriptor)
    else Unsupported(if name in diagnostics then diagnostics[name] else NO_CODEC)
  }

  function Entries(catalog: Catalog, diagnostics: map<Name, string>, names: set<Name>): map<Name, Entry> {
    map name | name in names :: EntryFor(catalog, diagnostics, name)
  }

  lemma OneMoreEntry(catalog: Catalog, diagnostics: map<Name, string>, names: set<Name>, name: Name)
    ensures Entries(catalog, diagnostics, names)[name := EntryFor(catalog, diagnostics, name)]
         == Entries(catalog, diagnostics, names + {name})
  {}

  /** What holds between two pops: whatever is missing is still waiting. */
  ghost predicate Searching(catalog: Catalog, references: seq<Name>, closure: set<Name>,
                            waiting: seq<Name>, done: set<Name>)
  {
    && done <= closure && (forall name :: name in waiting ==> name in closure)
    && (forall name :: name in references ==> name in waiting || name in done)
    && (forall a, b :: a in done && Depends(catalog, a, b) ==> b in waiting || b in done)
  }

  lemma Expands(
      catalog: Catalog, references: seq<Name>, closure: set<Name>, waiting: seq<Name>, done: set<Name>, more: seq<Name>)
    requires waiting != [] && ClosedUnder(catalog, closure) && Searching(catalog, references, closure, waiting, done)
    requires var name := waiting[|waiting| - 1];
      (name in done && more == []) || (name !in done && more == Dependencies(catalog, name))
    ensures var name := waiting[|waiting| - 1];
      && name in closure && |closure - (done + {name})| <= |closure - done| - |{name} - done|
      && Searching(catalog, references, closure, waiting[..|waiting| - 1] + more, done + {name})
  {
    var rest, name := waiting[..|waiting| - 1], waiting[|waiting| - 1];
    assert waiting == rest + [name];
    forall b | b in more ensures b in closure {
      assert Depends(catalog, name, b);
    }
    if name in done {
      assert done + {name} == done && {name} - done == {};
    } else {
      assert closure - done == closure - (done + {name}) + {name};
      assert {name} - done == {name};
    }
  }

  function Dependencies(catalog: Catalog, name: Name): seq<Name> {
    if name in catalog.types then catalog.types[name].dependencies else []
  }

  lemma SearchEnds(catalog: Catalog, references: seq<Name>, closure: set<Name>, done: set<Name>)
    requires IsClosure(catalog, references, closure) && Searching(catalog, references, closure, [], done)
    ensures done == closure
  {
    assert ClosedUnder(catalog, done);
  }

  /** The worklist of `ObjectModel::types`, which may hold a name more than once. */
  method Collect(catalog: Catalog, diagnostics: map<Name, string>, references: seq<Name>, ghost closure: set<Name>)
    returns (result: map<Name, Entry>)
    requires IsClosure(catalog, references, closure)
    ensures result == Entries(catalog, diagnostics, closure)
  {
    result := map[];
    var pending := references;
    ghost var done := {};
    while pending != []
      invariant Searching(catalog, references, closure, pending, done)
      invariant result == Entries(catalog, diagnostics, done)
      decreases |closure - done|, |pending|
    {
      var name := pending[|pending| - 1];
      var more := if name in result then [] else Dependencies(catalog, name);
      Expands(catalog, references, closure, pending, done, more);
      OneMoreEntry(catalog, diagnostics, done, name);
      if name !in result {
        result := result[name := EntryFor(catalog, diagnostics, name)];
      }
      pending, done := pending[..|pending| - 1] + more, done + {name};
    }
    SearchEnds(catalog, references, closure, done);
  }

  /** `ObjectModel::types`: exactly the names reached from the references, each described as the
      catalog or the diagnostics say. */
  method Types(catalog: Catalog, diagnostics: map<Name, string>, references: seq<Name>)
    returns (result: map<Name, Entry>)
    ensures forall name :: name in result <==> Reached(catalog, references, name)
    ensures forall name :: name in result && name in catalog.types ==>
      result[name] == Described(catalog.types[name].descriptor)
    ensures forall name :: name in result && name !in catalog.types && name in diagnostics ==>
      result[name] == Unsupported(diagnostics[name])
    ensures forall name :: name in result && name !in catalog.types && name !in diagnostics ==>
      result[name] == Unsupported("no registered HTTP JSON codec")
  {
    ghost var closure := ReachedIsClosure(catalog, references);
    result := Collect(catalog, diagnostics, references, closure);
  }

  /** A frozen catalog holds every type that its types depend on. */
  lemma FrozenCatalogIsClosed(catalog: Catalog, registrations: map<TypeId, Protocol>)
    requires Covers(catalog, registrations) && HasSoundGraph(registrations)
    ensures forall a, b :: Depends(catalog, a, b) ==> b in catalog.types
  {
    var g :| IsGraph(g, registrations) && Sound(g);
    forall a, b | Depends(catalog, a, b) ensures b in catalog.types {
      var t :| Named(registrations, t, a);
      assert Edge(g, a, b);
      var u :| Named(registrations, u, b);
    }
  }

  lemma KindIsInteger(d: Descriptor)
    requires DescriptorOk(d) && KindOf(d) == "integer"
    ensures d.Integer?
  {}

  lemma UnderlyingIsInteger(g: Graph, registrations: map<TypeId, Protocol>, r: Registration)
    requires IsGraph(g, registrations) && Sound(g) && RegistrationOk(r) && r.descriptor.Enum?
    requires r.rttType in g && g[r.rttType] == DefinitionOf(r)
    ensures r.descriptor.underlying in g && g[r.descriptor.underlying].kind == "integer"
  {
    assert r.descriptor.underlying in Elements(r.dependencies);
    assert Edge(g, r.rttType, r.descriptor.underlying) && KindFits(g, r.rttType, r.descriptor.underlying);
  }

  /** In a frozen catalog every enumeration is one of an integer type. */
  lemma FrozenEnumsAreIntegers(catalog: Catalog, registrations: map<TypeId, Protocol>, typeName: TypeId -> Name, name: Name)
    requires FiledCorrectly(registrations, typeName) && Covers(catalog, registrations) && HasSoundGraph(registrations)
    requires name in catalog.types && catalog.types[name].descriptor.Enum?
    ensures var underlying := catalog.types[name].descriptor.underlying;
      underlying in catalog.types && catalog.types[underlying].descriptor.Integer?
  {
    var g :| IsGraph(g, registrations) && Sound(g);
    var t :| Named(registrations, t, name);
    var underlying := catalog.types[name].descriptor.underlying;
    UnderlyingIsInteger(g, registrations, registrations[t].registration);
    var u :| Named(registrations, u, underlying);
    KindIsInteger(registrations[u].registration.descriptor);
  }

  /** Over a frozen catalog, a type without a codec is reported only when a member of the
      collection itself has that type. */
  lemma OnlyReferencesAreUnsupported(
      catalog: Catalog, registrations: map<TypeId, Protocol>, references: seq<Name>, name: Name)
    requires Covers(catalog, registrations) && HasSoundGraph(registrations)
    requires Reached(catalog, references, name)
    ensures name !in catalog.types ==> name in references
  {
    FrozenCatalogIsClosed(catalog, registrations);
    var p :| Chain(catalog, references, p) && p[|p| - 1] == name;
    if |p| > 1 {
      assert Depends(catalog, p[|p| - 2], name);
    }
  }
}
