/** Which names below a service stand for which of its resources, as a relation that names every
    word of the interface, and that the lookup by decoded names is this relation. */
module RouteMeanings {
  import opened Prelude
  import opened ServiceTree

  // ----- The relation -----

  predicate FirstChild(children: seq<Child>, name: Bytes, i: int) {
    0 <= i < |children| && children[i].name == name && forall j :: 0 <= j < i ==> children[j].name != name
  }

  predicate FirstPort(ports: seq<Port>, name: Bytes, i: int) {
    0 <= i < |ports| && ports[i].name == name && forall j :: 0 <= j < i ==> ports[j].name != name
  }

  predicate Named(items: seq<Item>, name: Bytes) {
    exists i :: 0 <= i < |items| && items[i].name == name
  }

  predicate CollectionMeant(id: Id, word: Bytes, r: Resource) {
    || (word == Ascii("services") && r == Collection(id, Services))
    || (word == Ascii("properties") && r == Collection(id, Properties))
    || (word == Ascii("attributes") && r == Collection(id, Attributes))
    || (word == Ascii("operations") && r == Collection(id, Operations))
    || (word == Ascii("ports") && r == Collection(id, Ports))
  }

  /** A property, an attribute or an operation. */
  predicate ItemMeant(s: Service, id: Id, word: Bytes, name: Bytes, r: Resource) {
    || (word == Ascii("properties") && Named(s.properties, name) && r == Single(id, Properties, name))
    || (word == Ascii("attributes") && Named(s.attributes, name) && r == Single(id, Attributes, name))
    || (word == Ascii("operations") && Named(s.operations, name) && r == Single(id, Operations, name))
  }

  /** Samples are written to an input, and the latest is read from an output that retains it. */
  predicate PortMeant(id: Id, p: Port, word: Bytes, r: Resource) {
    || (p.direction.Input? && word == Ascii("samples") && r == Samples(id, p.name))
    || (p.direction == Output(true) && word == Ascii("latest") && r == Latest(id, p.name))
  }

  /** The names below the service stand for the resource. */
  ghost predicate Means(g: Graph, id: Id, names: seq<Bytes>, r: Resource)
    decreases |names|
  {
    && id in g
    && if |names| == 0 then r == Whole(id)
       else if |names| == 1 then CollectionMeant(id, names[0], r)
       else
         || (names[0] == Ascii("services") && names[1] != Ascii("this")
             && exists i :: FirstChild(g[id].services, names[1], i) && g[id].services[i].service.Some?
                            && Means(g, g[id].services[i].service.value, names[2..], r))
         || (names[0] == Ascii("ports") && |names| == 3
             && exists i :: FirstPort(g[id].ports, names[1], i) && PortMeant(id, g[id].ports[i], names[2], r))
         || (|names| == 2 && ItemMeant(g[id], id, names[0], names[1], r))
  }

  // ----- Walking finds what is meant -----

  lemma Words()
    ensures Ascii("services") == Word(Services) && Ascii("properties") == Word(Properties)
    ensures Ascii("attributes") == Word(Attributes) && Ascii("operations") == Word(Operations)
    ensures Ascii("ports") == Word(Ports) && Ascii("this") == THIS
    ensures Ascii("samples") == SAMPLES && Ascii("latest") == LATEST
  {}

  lemma CategoryIs(word: Bytes, c: Category)
    ensures CategoryOf(word) == Some(c) <==> word == Word(c)
  {
    WordsDiffer(c);
  }

  lemma {:induction false} IndexIsFirst(names: seq<Bytes>, name: Bytes)
    ensures forall j :: 0 <= j < IndexOf(names, name) ==> names[j] != name
  {
    if names != [] && names[0] != name {
      IndexIsFirst(names[1..], name);
      forall j | 0 <= j < IndexOf(names, name) ensures names[j] != name {
        assert j > 0 ==> names[j] == names[1..][j - 1];
      }
    }
  }

  lemma ChildIsFirst(children: seq<Child>, name: Bytes, i: int)
    ensures FirstChild(children, name, i) <==> i == IndexOf(ChildNames(children), name) < |children|
  {
    IndexIsFirst(ChildNames(children), name);
  }

  lemma PortIsFirst(ports: seq<Port>, name: Bytes, i: int)
    ensures FirstPort(ports, name, i) <==> i == IndexOf(PortNames(ports), name) < |ports|
  {
    IndexIsFirst(PortNames(ports), name);
  }

  lemma ItemIsNamed(items: seq<Item>, name: Bytes)
    ensures Named(items, name) <==> name in ItemNames(items)
  {
    if Named(items, name) {
      var i :| 0 <= i < |items| && items[i].name == name;
      assert ItemNames(items)[i] == name;
    }
  }

  lemma WalkCollection(g: Graph, id: Id, names: seq<Bytes>, r: Resource)
    requires id in g && |names| == 1
    ensures Walk(g, id, names) == Some(r) <==> CollectionMeant(id, names[0], r)
  {
    Words();
    forall c ensures CategoryOf(names[0]) == Some(c) <==> names[0] == Word(c) {
      CategoryIs(names[0], c);
    }
  }

  lemma WalkItem(g: Graph, id: Id, names: seq<Bytes>, r: Resource)
    requires id in g && |names| >= 2 && names[0] != Word(Services) && names[0] != Word(Ports)
    ensures Walk(g, id, names) == Some(r) <==> |names| == 2 && ItemMeant(g[id], id, names[0], names[1], r)
  {
    Words();
    forall c ensures CategoryOf(names[0]) == Some(c) <==> names[0] == Word(c) {
      CategoryIs(names[0], c);
    }
    ItemIsNamed(g[id].properties, names[1]);
    ItemIsNamed(g[id].attributes, names[1]);
    ItemIsNamed(g[id].operations, names[1]);
  }

  lemma WalkPort(g: Graph, id: Id, names: seq<Bytes>, r: Resource)
    requires id in g && |names| >= 2 && names[0] == Word(Ports)
    ensures Walk(g, id, names) == Some(r) <==>
      |names| == 3 && exists i :: FirstPort(g[id].ports, names[1], i) && PortMeant(id, g[id].ports[i], names[2], r)
  {
    Words();
    CategoryIs(names[0], Ports);
    var ports := g[id].ports;
    var i := IndexOf(PortNames(ports), names[1]);
    forall k ensures FirstPort(ports, names[1], k) <==> k == i < |ports| {
      PortIsFirst(ports, names[1], k);
    }
    if i < |ports| && |names| == 3 {
      assert names[2..] == [names[2]];
      assert FirstPort(ports, names[1], i);
    }
  }

  lemma PortsMeanNoItem(g: Graph, id: Id, names: seq<Bytes>, r: Resource)
    requires id in g && |names| >= 2 && (names[0] == Word(Ports) || names[0] == Word(Services))
    ensures !ItemMeant(g[id], id, names[0], names[1], r)
  {
    Words();
    WordsDiffer(Ports);
    WordsDiffer(Services);
    WordsDiffer(Properties);
    WordsDiffer(Attributes);
    WordsDiffer(Operations);
  }

  /** Looking names up yields exactly the resource they stand for. */
  lemma {:induction false} WalkIsMeant(g: Graph, id: Id, names: seq<Bytes>, r: Resource)
    ensures Walk(g, id, names) == Some(r) <==> Means(g, id, names, r)
    decreases |names|
  {
    Words();
    if id !in g || names == [] {
    } else if |names| == 1 {
      WalkCollection(g, id, names, r);
    } else if names[0] == Word(Services) {
      PortsMeanNoItem(g, id, names, r);
      WalkChild(g, id, names, r);
    } else if names[0] == Word(Ports) {
      PortsMeanNoItem(g, id, names, r);
      WalkPort(g, id, names, r);
      WordsDiffer(Ports);
    } else {
      WalkItem(g, id, names, r);
    }
  }

  lemma {:induction false} WalkChild(g: Graph, id: Id, names: seq<Bytes>, r: Resource)
    requires id in g && |names| >= 2 && names[0] == Word(Services)
    ensures Walk(g, id, names) == Some(r) <==> Means(g, id, names, r)
    decreases |names|, 0
  {
    Words();
    WordsDiffer(Services);
    PortsMeanNoItem(g, id, names, r);
    var children := g[id].services;
    var i := IndexOf(ChildNames(children), names[1]);
    forall k ensures FirstChild(children, names[1], k) <==> k == i < |children| {
      ChildIsFirst(children, names[1], k);
    }
    if i < |children| && children[i].service.Some? {
      WalkIsMeant(g, children[i].service.value, names[2..], r);
    }
  }

  /** Whatever ports there are: below a port exactly one name means anything, if any does. */
  lemma PortRoutes(g: Graph, id: Id, i: nat, rest: seq<Bytes>)
    requires UniqueNames(g) && id in g && i < |g[id].ports|
    ensures var p := g[id].ports[i];
      Walk(g, id, [Ascii("ports"), p.name] + rest) ==
        if p.direction.Input? && rest == [Ascii("samples")] then Some(Samples(id, p.name))
        else if p.direction == Output(true) && rest == [Ascii("latest")] then Some(Latest(id, p.name))
        else None
  {
    var ports, p := g[id].ports, g[id].ports[i];
    var names := [Ascii("ports"), p.name] + rest;
    Words();
    OwnPortIsFirst(g, id, i);
    forall r ensures Walk(g, id, names) == Some(r) <==> |names| == 3 && PortMeant(id, p, names[2], r) {
      WalkPort(g, id, names, r);
    }
    assert rest == names[2..];
    assert |names| == 3 ==> rest == [names[2]];
    if Walk(g, id, names).Some? {
      assert PortMeant(id, p, names[2], Walk(g, id, names).value);
    }
  }

  lemma OwnPortIsFirst(g: Graph, id: Id, i: nat)
    requires UniqueNames(g) && id in g && i < |g[id].ports|
    ensures forall k :: FirstPort(g[id].ports, g[id].ports[i].name, k) <==> k == i
  {
    var names := NamesIn(g[id], Ports);
    assert Distinct(names);
    assert forall j :: 0 <= j < |names| ==> names[j] == g[id].ports[j].name;
  }
}
