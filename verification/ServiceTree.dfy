/** RTT services as a component exposes them, and which resource a list of decoded names stands for. */
module ServiceTree {
  import opened Prelude
  import opened Routes
  import Utf8

  /** Identities of RTT::Service objects. */
  type Id = nat

  /** `sound`: RTT hands the member out complete and with valid UTF-8 documentation. */
  datatype Child = Child(name: Bytes, service: Option<Id>)
  datatype Item = Item(name: Bytes, sound: bool)
  datatype Direction = Input | Output(retains: bool)
  datatype Port = Port(name: Bytes, sound: bool, direction: Direction)

  datatype Service = Service(
    sound: bool, services: seq<Child>, properties: seq<Item>, attributes: seq<Item>, operations: seq<Item>,
    ports: seq<Port>)

  type Graph = map<Id, Service>

  datatype Category = Services | Properties | Attributes | Operations | Ports

  datatype Resource =
    | Index
    | Whole(service: Id)
    | Collection(service: Id, category: Category)
    | Single(service: Id, category: Category, name: Bytes)
    | Samples(service: Id, name: Bytes)
    | Latest(service: Id, name: Bytes)

  function Word(c: Category): Bytes {
    match c
    case Services => [115, 101, 114, 118, 105, 99, 101, 115]
    case Properties => [112, 114, 111, 112, 101, 114, 116, 105, 101, 115]
    case Attributes => [97, 116, 116, 114, 105, 98, 117, 116, 101, 115]
    case Operations => [111, 112, 101, 114, 97, 116, 105, 111, 110, 115]
    case Ports => [112, 111, 114, 116, 115]
  }

  const THIS: Bytes := [116, 104, 105, 115]
  const SAMPLES: Bytes := [115, 97, 109, 112, 108, 101, 115]
  const LATEST: Bytes := [108, 97, 116, 101, 115, 116]

  /** The order in which categories are published. */
  function Rank(c: Category): nat {
    match c
    case Services => 0
    case Properties => 1
    case Attributes => 2
    case Operations => 3
    case Ports => 4
  }

  function CategoryOf(word: Bytes): Option<Category> {
    if word == Word(Services) then Some(Services)
    else if word == Word(Properties) then Some(Properties)
    else if word == Word(Attributes) then Some(Attributes)
    else if word == Word(Operations) then Some(Operations)
    else if word == Word(Ports) then Some(Ports)
    else None
  }

  lemma WordsDiffer(c: Category)
    ensures CategoryOf(Word(c)) == Some(c)
  {
    assert forall d :: |Word(d)| == |Word(c)| && Word(d)[0] == Word(c)[0] ==> d == c;
  }

  lemma WordIsKept(word: Bytes)
    requires CategoryOf(word).Some? || word == SAMPLES || word == LATEST
    ensures ValidName(word) && Encode(word) == word
  {
    assert forall i :: 0 <= i < |word| ==> Unreserved(word[i]) && 0 < word[i] < 0x80;
    Utf8.AsciiIsWellFormed(word);
    UnreservedIsKept(word);
  }

  // ----- Members by name -----

  function ChildNames(children: seq<Child>): (names: seq<Bytes>)
    ensures |names| == |children| && forall i :: 0 <= i < |names| ==> names[i] == children[i].name
  {
    if children == [] then [] else [children[0].name] + ChildNames(children[1..])
  }

  function ItemNames(items: seq<Item>): (names: seq<Bytes>)
    ensures |names| == |items| && forall i :: 0 <= i < |names| ==> names[i] == items[i].name
  {
    if items == [] then [] else [items[0].name] + ItemNames(items[1..])
  }

  function PortNames(ports: seq<Port>): (names: seq<Bytes>)
    ensures |names| == |ports| && forall i :: 0 <= i < |names| ==> names[i] == ports[i].name
  {
    if ports == [] then [] else [ports[0].name] + PortNames(ports[1..])
  }

  function ItemsOf(s: Service, c: Category): seq<Item>
    requires !c.Services? && !c.Ports?
  {
    match c
    case Properties => s.properties
    case Attributes => s.attributes
    case Operations => s.operations
  }

  /** All names of a category. */
  function NamesIn(s: Service, c: Category): seq<Bytes> {
    match c
    case Services => ChildNames(s.services)
    case Ports => PortNames(s.ports)
    case _ => ItemNames(ItemsOf(s, c))
  }

  ghost predicate UniqueNames(g: Graph) {
    forall id, c :: id in g ==> Distinct(NamesIn(g[id], c))
  }

  function IndexOf(names: seq<Bytes>, name: Bytes): (i: nat)
    ensures i <= |names| && (name in names <==> i < |names|) && (i < |names| ==> names[i] == name)
  {
    if names == [] then 0 else if names[0] == name then 0 else 1 + IndexOf(names[1..], name)
  }

  lemma IndexIsUnique(names: seq<Bytes>, i: nat)
    requires Distinct(names) && i < |names|
    ensures IndexOf(names, names[i]) == i
  {}

  /** Where an executable port route ends, if the port has one. */
  function Suffix(p: Port): Option<Bytes> {
    match p.direction
    case Input => Some(SAMPLES)
    case Output(retains) => if retains then Some(LATEST) else None
  }

  function PortResource(id: Id, p: Port): Resource {
    if p.direction.Input? then Samples(id, p.name) else Latest(id, p.name)
  }

  // ----- Lookup by decoded names -----

  /** The resource of a service that the names below it stand for. */
  function Walk(g: Graph, id: Id, names: seq<Bytes>): Option<Resource>
    decreases |names|
  {
    if id !in g then None
    else if names == [] then Some(Whole(id))
    else
      match CategoryOf(names[0])
      case None => None
      case Some(c) =>
        if |names| == 1 then Some(Collection(id, c))
        else if c.Services? then
          var i := IndexOf(ChildNames(g[id].services), names[1]);
          if i < |g[id].services| && names[1] != THIS && g[id].services[i].service.Some?
          then Walk(g, g[id].services[i].service.value, names[2..])
          else None
        else WalkMember(g[id], id, c, names)
  }

  function WalkMember(s: Service, id: Id, c: Category, names: seq<Bytes>): Option<Resource>
    requires |names| >= 2 && !c.Services?
  {
    if c.Ports? then
      var i := IndexOf(PortNames(s.ports), names[1]);
      if i < |s.ports| && Suffix(s.ports[i]).Some? && names[2..] == [Suffix(s.ports[i]).value]
      then Some(PortResource(id, s.ports[i]))
      else None
    else if names[1] in ItemNames(ItemsOf(s, c)) && |names| == 2 then Some(Single(id, c, names[1]))
    else None
  }

  lemma WalkNeedsMember(g: Graph, id: Id, names: seq<Bytes>)
    requires |names| >= 2 && Walk(g, id, names).Some?
    ensures id in g && CategoryOf(names[0]).Some? && names[1] in NamesIn(g[id], CategoryOf(names[0]).value)
  {}

  // ----- What can be published -----

  const MAX_ROUTE: nat := 4096
  const MAX_NESTING: nat := 64

  ghost predicate RouteOk(base: seq<Bytes>, c: Category, name: Bytes) {
    ValidName(name) && |PathOf(base + [Word(c), name])| <= MAX_ROUTE
  }

  ghost predicate ItemOk(base: seq<Bytes>, c: Category, item: Item) {
    RouteOk(base, c, item.name) && item.sound
  }

  ghost predicate PortOk(base: seq<Bytes>, p: Port) {
    RouteOk(base, Ports, p.name) && p.sound
  }

  ghost predicate ItemsOk(base: seq<Bytes>, c: Category, items: seq<Item>) {
    forall i :: 0 <= i < |items| ==> ItemOk(base, c, items[i])
  }

  ghost predicate PortsOk(base: seq<Bytes>, ports: seq<Port>) {
    forall i :: 0 <= i < |ports| ==> PortOk(base, ports[i])
  }

  ghost predicate MembersOk(s: Service, base: seq<Bytes>, c: Category)
    requires !c.Services?
  {
    if c.Ports? then PortsOk(base, s.ports) else ItemsOk(base, c, ItemsOf(s, c))
  }

  ghost predicate PlainOk(s: Service, base: seq<Bytes>) {
    MembersOk(s, base, Properties) && MembersOk(s, base, Attributes) && MembersOk(s, base, Operations)
  }

  lemma ItemsOkNext(base: seq<Bytes>, c: Category, items: seq<Item>, n: nat)
    requires n < |items|
    ensures ItemsOk(base, c, items[..n + 1]) <==> ItemsOk(base, c, items[..n]) && ItemOk(base, c, items[n])
    ensures !ItemOk(base, c, items[n]) ==> !ItemsOk(base, c, items)
  {
    assert items[..n + 1] == items[..n] + [items[n]];
  }

  lemma PortsOkNext(base: seq<Bytes>, ports: seq<Port>, n: nat)
    requires n < |ports|
    ensures PortsOk(base, ports[..n + 1]) <==> PortsOk(base, ports[..n]) && PortOk(base, ports[n])
    ensures !PortOk(base, ports[n]) ==> !PortsOk(base, ports)
  {
    assert ports[..n + 1] == ports[..n] + [ports[n]];
  }

  /** The service and those below it form a tree that is complete, not too deep and addressable. */
  ghost predicate Publishable(g: Graph, service: Option<Id>, base: seq<Bytes>, ancestry: set<Id>, depth: nat)
    decreases MAX_NESTING + 1 - depth, 2
  {
    && service.Some? && service.value in g && depth <= MAX_NESTING && service.value !in ancestry
    && var s := g[service.value];
    && s.sound && ChildrenOk(g, s.services, base, ancestry + {service.value}, depth)
    && PlainOk(s, base) && MembersOk(s, base, Ports)
  }

  ghost predicate ChildrenOk(g: Graph, children: seq<Child>, base: seq<Bytes>, ancestry: set<Id>, depth: nat)
    requires depth <= MAX_NESTING
    decreases MAX_NESTING + 1 - depth, 1
  {
    forall i :: 0 <= i < |children| ==> ChildOk(g, children[i], base, ancestry, depth)
  }

  ghost predicate ChildOk(g: Graph, child: Child, base: seq<Bytes>, ancestry: set<Id>, depth: nat)
    requires depth <= MAX_NESTING
    decreases MAX_NESTING + 1 - depth, 0
  {
    child.name != THIS ==>
      && RouteOk(base, Services, child.name)
      && Publishable(g, child.service, base + [Word(Services), child.name], ancestry, depth + 1)
  }

  lemma ChildrenOkNext(g: Graph, children: seq<Child>, base: seq<Bytes>, ancestry: set<Id>, depth: nat, n: nat)
    requires n < |children| && depth <= MAX_NESTING
    ensures ChildrenOk(g, children[..n + 1], base, ancestry, depth) <==>
      ChildrenOk(g, children[..n], base, ancestry, depth) && ChildOk(g, children[n], base, ancestry, depth)
    ensures !ChildOk(g, children[n], base, ancestry, depth) ==> !ChildrenOk(g, children, base, ancestry, depth)
  {
    assert children[..n + 1] == children[..n] + [children[n]];
  }
}
