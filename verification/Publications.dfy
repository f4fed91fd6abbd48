/** Publishing a component: the recursive tree walk that fills the flat route map. */
module Publications {
  import opened Prelude
  import opened Routes
  import opened ServiceTree
  import opened RouteGrowth

  datatype Fault = BadGraph | BadRoute | Unsound | DuplicateRoute

  /** A route of at most `MAX_ROUTE` bytes and the longest word that may follow it. */
  const LONGEST: nat := MAX_ROUTE + 11

  /** The flat map of canonical paths says the same as the map of decoded names; `origin` gives the
      names of each path. */
  ghost predicate Linked(routes: map<Bytes, Resource>, named: Named, origin: map<Bytes, seq<Bytes>>) {
    && (forall names {:trigger names in named} :: names in named ==>
          ValidNames(names) && PathOf(names) in routes && routes[PathOf(names)] == named[names])
    && (forall path {:trigger path in routes} :: path in routes ==>
          path in origin && origin[path] in named && PathOf(origin[path]) == path && |path| <= LONGEST)
  }

  lemma PathIsTakenIff(routes: map<Bytes, Resource>, named: Named, origin: map<Bytes, seq<Bytes>>, names: seq<Bytes>)
    requires Linked(routes, named, origin) && ValidNames(names)
    ensures PathOf(names) in routes <==> names in named
  {
    var path := PathOf(names);
    if path in routes {
      PathIsInjective(origin[path], names);
    }
  }

  /** The names known so far have other paths than a new one. */
  lemma OtherPaths(routes: map<Bytes, Resource>, named: Named, origin: map<Bytes, seq<Bytes>>, path: Bytes)
    requires Linked(routes, named, origin) && path !in routes
    ensures forall other {:trigger other in named} :: other in named ==> PathOf(other) != path
  {
    forall other | other in named ensures PathOf(other) != path {
      assert PathOf(other) in routes;
    }
  }

  lemma LinkedInsert(
      routes: map<Bytes, Resource>, named: Named, origin: map<Bytes, seq<Bytes>>,
      names: seq<Bytes>, path: Bytes, r: Resource)
    requires Linked(routes, named, origin) && ValidNames(names) && path == PathOf(names) && path !in routes
    requires |path| <= LONGEST
    ensures Linked(routes[path := r], named[names := r], origin[path := names])
  {
    OtherPaths(routes, named, origin, path);
    var routes', named', origin' := routes[path := r], named[names := r], origin[path := names];
    forall other | other in named'
      ensures ValidNames(other) && PathOf(other) in routes' && routes'[PathOf(other)] == named'[other]
    {
      assert other != names ==> other in named;
    }
    forall other | other in routes'
      ensures other in origin' && origin'[other] in named' && PathOf(origin'[other]) == other && |other| <= LONGEST
    {
      assert other != path ==> other in routes;
    }
  }

  lemma CollectionPath(base: seq<Bytes>, c: Category)
    requires ValidNames(base)
    ensures PathOf(base + [Word(c)]) == PathOf(base) + [SLASH] + Word(c) && ValidNames(base + [Word(c)])
    ensures |Word(c)| <= 10
  {
    WordsDiffer(c);
    WordIsKept(Word(c));
    PathAppend(base, Word(c));
  }

  lemma MemberPath(base: seq<Bytes>, c: Category, name: Bytes)
    requires ValidNames(base)
    ensures PathOf(base + [Word(c), name]) == PathOf(base) + [SLASH] + Word(c) + [SLASH] + Encode(name)
    ensures ValidName(name) ==> ValidNames(base + [Word(c), name])
  {
    CollectionPath(base, c);
    PathAppend(base + [Word(c)], name);
    AppendTwo(base, Word(c), name);
  }

  lemma PortPath(base: seq<Bytes>, p: Port)
    requires ValidNames(base) && ValidName(p.name) && Suffix(p).Some?
    ensures
      var names := base + [Word(Ports), p.name, Suffix(p).value];
      PathOf(names) == PathOf(base + [Word(Ports), p.name]) + [SLASH] + Suffix(p).value && ValidNames(names)
  {
    MemberPath(base, Ports, p.name);
    WordIsKept(Suffix(p).value);
    PathAppend(base + [Word(Ports), p.name], Suffix(p).value);
    AppendThree(base, Word(Ports), p.name, Suffix(p).value);
  }

  /** `childPath`. */
  method ChildPath(parent: Bytes, name: Bytes) returns (path: Option<Bytes>)
    ensures path.Some? <==> ValidName(name) && |parent| + 1 + |Encode(name)| <= MAX_ROUTE
    ensures path.Some? ==> path.value == parent + [SLASH] + Encode(name)
  {
    var ok := CheckName(name);
    if !ok {
      return None;
    }
    var encoded := EncodeSegment(name);
    var result := parent + [SLASH] + encoded;
    return if |result| > MAX_ROUTE then None else Some(result);
  }

  /** A publication in the making, with the set of services on the way down. */
  class Publisher {
    var routes: map<Bytes, Resource>
    var ancestry: set<Id>
    ghost var named: Named
    ghost var origin: map<Bytes, seq<Bytes>>

    ghost predicate Valid()
      reads this
    {
      Linked(routes, named, origin)
    }

    constructor ()
      ensures Valid() && named == map[] && routes == map[] && ancestry == {}
    {
      routes, ancestry, named, origin := map[], {}, map[], map[];
    }

    method Insert(path: Bytes, r: Resource, ghost names: seq<Bytes>) returns (fault: Option<Fault>)
      requires Valid() && ValidNames(names) && path == PathOf(names) && |path| <= LONGEST
      modifies this`routes, this`named, this`origin
      ensures Valid()
      ensures if names in old(named) then fault == Some(DuplicateRoute) && named == old(named)
              else fault.None? && named == old(named)[names := r]
    {
      PathIsTakenIff(routes, named, origin, names);
      if path in routes {
        fault := Some(DuplicateRoute);
      } else {
        LinkedInsert(routes, named, origin, names, path, r);
        routes, named, origin := routes[path := r], named[names := r], origin[path := names];
        fault := None;
      }
    }

    /** One property, attribute or operation. */
    method PublishItem(ghost g: Graph, id: Id, c: Category, item: Item, path: Bytes, ghost base: seq<Bytes>,
                       ghost before: Named, ghost seen: set<Bytes>)
      returns (fault: Option<Fault>)
      requires Valid() && id in g && !c.Services? && !c.Ports?
      requires ValidNames(base) && path == PathOf(base) && |path| <= MAX_ROUTE
      requires UniqueNames(g) ==> item.name in NamesIn(g[id], c) && item.name !in seen
      requires UniqueNames(g) ==> Filling(g, id, base, before, named, Rank(c), seen)
      modifies this`routes, this`named, this`origin
      ensures Valid()
      ensures fault.None? ==> ItemOk(base, c, item)
      ensures UniqueNames(g) ==>
        && (ItemOk(base, c, item) ==> fault.None?) && fault != Some(DuplicateRoute)
        && (fault.None? ==> Filling(g, id, base, before, named, Rank(c), seen + {item.name}))
    {
      MemberPath(base, c, item.name);
      var href := ChildPath(path + [SLASH] + Word(c), item.name);
      if href.None? {
        return Some(BadRoute);
      }
      if !item.sound {
        return Some(Unsound);
      }
      if UniqueNames(g) {
        ItemStep(g, id, base, before, named, c, seen, item.name);
      }
      fault := Insert(href.value, Single(id, c, item.name), base + [Word(c), item.name]);
    }

    /** The loop over the members of a plain category. */
    method PublishEachItem(ghost g: Graph, id: Id, s: Service, c: Category, path: Bytes,
                           ghost base: seq<Bytes>, ghost before: Named)
      returns (fault: Option<Fault>)
      requires Valid() && id in g && s == g[id] && !c.Services? && !c.Ports?
      requires ValidNames(base) && path == PathOf(base) && |path| <= MAX_ROUTE
      requires UniqueNames(g) ==> Filling(g, id, base, before, named, Rank(c), {})
      modifies this`routes, this`named, this`origin
      ensures Valid()
      ensures LoopOutcome(g, id, base, before, named, c, ItemsOk(base, c, ItemsOf(s, c)), fault)
    {
      var items := ItemsOf(s, c);
      ghost var names := NamesIn(s, c);
      for n := 0 to |items|
        invariant Valid()
        invariant UniqueNames(g) ==> Filling(g, id, base, before, named, Rank(c), Elements(names[..n]))
        invariant ItemsOk(base, c, items[..n])
      {
        TakeNext(g, id, c, n);
        ItemsOkNext(base, c, items, n);
        fault := PublishItem(g, id, c, items[n], path, base, before, Elements(names[..n]));
        if fault.Some? {
          return;
        }
      }
      WholeSlice(names);
      WholeSlice(items);
      return None;
    }

    /** A category whose members are routed by their name alone. */
    method PublishItems(ghost g: Graph, id: Id, s: Service, c: Category, path: Bytes,
                        ghost base: seq<Bytes>, ghost before: Named)
      returns (fault: Option<Fault>)
      requires Valid() && id in g && s == g[id] && !c.Services? && !c.Ports?
      requires ValidNames(base) && path == PathOf(base) && |path| <= MAX_ROUTE
      requires UniqueNames(g) ==> Filling(g, id, base, before, named, Rank(c), {})
      modifies this`routes, this`named, this`origin
      ensures Valid() && CategoryOutcome(g, s, id, base, before, named, c, fault)
    {
      fault := PublishEachItem(g, id, s, c, path, base, before);
      if fault.None? {
        fault := PublishCollection(g, id, c, path, base, before, Elements(NamesIn(s, c)));
      }
    }

    /** One port; an output that retains no sample has no route. */
    method PublishPort(ghost g: Graph, id: Id, ghost i: nat, p: Port, path: Bytes, ghost base: seq<Bytes>,
                       ghost before: Named, ghost seen: set<Bytes>)
      returns (fault: Option<Fault>)
      requires Valid() && id in g && i < |g[id].ports| && p == g[id].ports[i]
      requires ValidNames(base) && path == PathOf(base) && |path| <= MAX_ROUTE
      requires UniqueNames(g) ==> Distinct(NamesIn(g[id], Ports)) && p.name !in seen
      requires UniqueNames(g) ==> Filling(g, id, base, before, named, Rank(Ports), seen)
      modifies this`routes, this`named, this`origin
      ensures Valid()
      ensures fault.None? ==> PortOk(base, p)
      ensures UniqueNames(g) ==>
        && (PortOk(base, p) ==> fault.None?) && fault != Some(DuplicateRoute)
        && (fault.None? ==> Filling(g, id, base, before, named, Rank(Ports), seen + {p.name}))
    {
      MemberPath(base, Ports, p.name);
      var href := ChildPath(path + [SLASH] + Word(Ports), p.name);
      if href.None? {
        return Some(BadRoute);
      }
      if !p.sound {
        return Some(Unsound);
      }
      if UniqueNames(g) {
        PortStep(g, id, base, before, named, seen, i);
      }
      fault := InsertPort(id, p, href.value, base);
    }

    /** The route of a port, if it has one. */
    method InsertPort(id: Id, p: Port, href: Bytes, ghost base: seq<Bytes>) returns (fault: Option<Fault>)
      requires Valid() && ValidNames(base) && ValidName(p.name) && |href| <= MAX_ROUTE
      requires href == PathOf(base + [Word(Ports), p.name])
      modifies this`routes, this`named, this`origin
      ensures Valid()
      ensures
        var key := PortKey(base, p);
        if key.None? then fault.None? && named == old(named)
        else if key.value in old(named) then fault == Some(DuplicateRoute) && named == old(named)
        else fault.None? && named == old(named)[key.value := PortResource(id, p)]
    {
      if Suffix(p).None? {
        return None;
      }
      PortPath(base, p);
      fault := Insert(href + [SLASH] + Suffix(p).value, PortResource(id, p),
                      base + [Word(Ports), p.name, Suffix(p).value]);
    }

    /** The loop over the ports. */
    method PublishEachPort(ghost g: Graph, id: Id, s: Service, path: Bytes, ghost base: seq<Bytes>, ghost before: Named)
      returns (fault: Option<Fault>)
      requires Valid() && id in g && s == g[id] && ValidNames(base) && path == PathOf(base) && |path| <= MAX_ROUTE
      requires UniqueNames(g) ==> Filling(g, id, base, before, named, Rank(Ports), {})
      modifies this`routes, this`named, this`origin
      ensures Valid()
      ensures LoopOutcome(g, id, base, before, named, Ports, PortsOk(base, s.ports), fault)
    {
      ghost var names := NamesIn(s, Ports);
      for n := 0 to |s.ports|
        invariant Valid()
        invariant UniqueNames(g) ==> Filling(g, id, base, before, named, Rank(Ports), Elements(names[..n]))
        invariant PortsOk(base, s.ports[..n])
      {
        TakeNext(g, id, Ports, n);
        PortsOkNext(base, s.ports, n);
        fault := PublishPort(g, id, n, s.ports[n], path, base, before, Elements(names[..n]));
        if fault.Some? {
          return;
        }
      }
      WholeSlice(names);
      WholeSlice(s.ports);
      return None;
    }

    method PublishPorts(ghost g: Graph, id: Id, s: Service, path: Bytes, ghost base: seq<Bytes>, ghost before: Named)
      returns (fault: Option<Fault>)
      requires Valid() && id in g && s == g[id] && ValidNames(base) && path == PathOf(base) && |path| <= MAX_ROUTE
      requires UniqueNames(g) ==> Filling(g, id, base, before, named, Rank(Ports), {})
      modifies this`routes, this`named, this`origin
      ensures Valid() && CategoryOutcome(g, s, id, base, before, named, Ports, fault)
    {
      fault := PublishEachPort(g, id, s, path, base, before);
      if fault.None? {
        fault := PublishCollection(g, id, Ports, path, base, before, Elements(NamesIn(s, Ports)));
      }
    }

    /** The collection resource closes its category. */
    method PublishCollection(ghost g: Graph, id: Id, c: Category, path: Bytes,
                             ghost base: seq<Bytes>, ghost before: Named,
                             ghost seen: set<Bytes>)
      returns (fault: Option<Fault>)
      requires Valid() && id in g && ValidNames(base) && path == PathOf(base) && |path| <= MAX_ROUTE
      requires UniqueNames(g) ==> Filling(g, id, base, before, named, Rank(c), seen)
      requires forall name :: name in NamesIn(g[id], c) ==> name in seen
      modifies this`routes, this`named, this`origin
      ensures Valid()
      ensures UniqueNames(g) ==> fault.None? && Filling(g, id, base, before, named, Rank(c) + 1, {})
    {
      CollectionPath(base, c);
      if UniqueNames(g) {
        CategoryDone(g, id, base, before, named, c, seen);
      }
      fault := Insert(path + [SLASH] + Word(c), Collection(id, c), base + [Word(c)]);
    }

    /** One child service; the name `this` is passed over. */
    method PublishChild(g: Graph, id: Id, ghost i: nat, child: Child, path: Bytes, depth: nat,
                        ghost base: seq<Bytes>, ghost before: Named, ghost seen: set<Bytes>)
      returns (fault: Option<Fault>)
      requires Valid() && id in g && i < |g[id].services| && child == g[id].services[i] && depth <= MAX_NESTING
      requires ValidNames(base) && path == PathOf(base) && |path| <= MAX_ROUTE
      requires UniqueNames(g) ==> Distinct(NamesIn(g[id], Services)) && child.name !in seen
      requires UniqueNames(g) ==> Filling(g, id, base, before, named, Rank(Services), seen)
      modifies this
      ensures Valid() && (fault.None? ==> ancestry == old(ancestry))
      ensures UniqueNames(g) ==>
        && (fault.None? <==> ChildOk(g, child, base, old(ancestry), depth)) && fault != Some(DuplicateRoute)
        && (fault.None? ==> Filling(g, id, base, before, named, Rank(Services), seen + {child.name}))
      decreases MAX_NESTING + 1 - depth, 0
    {
      if child.name == THIS {
        if UniqueNames(g) {
          ThisStep(g, id, base, before, named, seen);
        }
        return None;
      }
      MemberPath(base, Services, child.name);
      var href := ChildPath(path + [SLASH] + Word(Services), child.name);
      if href.None? {
        return Some(BadRoute);
      }
      ghost var mid := named;
      if UniqueNames(g) {
        ChildIsFresh(g, id, base, before, mid, seen, child.name);
      }
      fault := DescribeService(g, child.service, href.value, depth + 1, base + [Word(Services), child.name]);
      if UniqueNames(g) && fault.None? {
        ChildStep(g, id, base, before, mid, named, seen, i);
      }
    }

    /** The loop over the child services. */
    method PublishEachChild(g: Graph, id: Id, s: Service, path: Bytes, depth: nat,
                            ghost base: seq<Bytes>, ghost before: Named)
      returns (fault: Option<Fault>)
      requires Valid() && id in g && s == g[id] && depth <= MAX_NESTING
      requires ValidNames(base) && path == PathOf(base) && |path| <= MAX_ROUTE
      requires UniqueNames(g) ==> Filling(g, id, base, before, named, Rank(Services), {})
      modifies this
      ensures Valid() && (fault.None? ==> ancestry == old(ancestry))
      ensures LoopOutcome(g, id, base, before, named, Services,
                          ChildrenOk(g, s.services, base, old(ancestry), depth), fault)
      decreases MAX_NESTING + 1 - depth, 1
    {
      ghost var names := NamesIn(s, Services);
      for n := 0 to |s.services|
        invariant Valid() && ancestry == old(ancestry)
        invariant UniqueNames(g) ==> Filling(g, id, base, before, named, Rank(Services), Elements(names[..n]))
        invariant UniqueNames(g) ==> ChildrenOk(g, s.services[..n], base, ancestry, depth)
      {
        TakeNext(g, id, Services, n);
        ChildrenOkNext(g, s.services, base, ancestry, depth, n);
        fault := PublishChild(g, id, n, s.services[n], path, depth, base, before, Elements(names[..n]));
        if fault.Some? {
          return;
        }
      }
      WholeSlice(names);
      WholeSlice(s.services);
      return None;
    }

    method PublishServices(g: Graph, id: Id, s: Service, path: Bytes, depth: nat,
                           ghost base: seq<Bytes>, ghost before: Named)
      returns (fault: Option<Fault>)
      requires Valid() && id in g && s == g[id] && depth <= MAX_NESTING
      requires ValidNames(base) && path == PathOf(base) && |path| <= MAX_ROUTE
      requires UniqueNames(g) ==> Filling(g, id, base, before, named, Rank(Services), {})
      modifies this
      ensures Valid() && (fault.None? ==> ancestry == old(ancestry))
      ensures UniqueNames(g) ==>
        && (fault.None? <==> ChildrenOk(g, s.services, base, old(ancestry), depth)) && fault != Some(DuplicateRoute)
        && (fault.None? ==> Filling(g, id, base, before, named, Rank(Services) + 1, {}))
      decreases MAX_NESTING + 1 - depth, 2
    {
      fault := PublishEachChild(g, id, s, path, depth, base, before);
      if fault.None? {
        fault := PublishCollection(g, id, Services, path, base, before, Elements(NamesIn(s, Services)));
      }
    }

    /** The plain categories, in order. */
    method PublishPlain(g: Graph, id: Id, s: Service, path: Bytes, ghost base: seq<Bytes>, ghost before: Named)
      returns (fault: Option<Fault>)
      requires Valid() && id in g && s == g[id] && ValidNames(base) && path == PathOf(base) && |path| <= MAX_ROUTE
      requires UniqueNames(g) ==> Filling(g, id, base, before, named, Rank(Properties), {})
      modifies this`routes, this`named, this`origin
      ensures Valid()
      ensures UniqueNames(g) ==>
        && (fault.None? <==> PlainOk(s, base)) && fault != Some(DuplicateRoute)
        && (fault.None? ==> Filling(g, id, base, before, named, Rank(Ports), {}))
    {
      fault := PublishItems(g, id, s, Properties, path, base, before);
      if fault.None? {
        fault := PublishItems(g, id, s, Attributes, path, base, before);
        if fault.None? {
          fault := PublishItems(g, id, s, Operations, path, base, before);
        }
      }
    }

    /** `describeService`. */
    method DescribeService(g: Graph, service: Option<Id>, path: Bytes, depth: nat, ghost base: seq<Bytes>)
      returns (fault: Option<Fault>)
      requires Valid() && ValidNames(base) && path == PathOf(base) && |path| <= MAX_ROUTE
      requires UniqueNames(g) ==> Fresh(base, named)
      modifies this
      ensures Valid() && (fault.None? ==> ancestry == old(ancestry) && service.Some?)
      ensures UniqueNames(g) ==>
        && (fault.None? <==> Publishable(g, service, base, old(ancestry), depth)) && fault != Some(DuplicateRoute)
        && (fault.None? ==> Grown(g, service.value, base, old(named), named))
      decreases MAX_NESTING + 1 - depth, 3
    {
      if service.None? || service.value !in g || depth > MAX_NESTING || service.value in ancestry {
        return Some(BadGraph);
      }
      var id, s := service.value, g[service.value];
      if !s.sound {
        return Some(Unsound);
      }
      ancestry := ancestry + {id};
      ghost var before := named;
      NothingYet(g, id, base, before);
      fault := PublishServices(g, id, s, path, depth, base, before);
      if fault.None? {
        fault := PublishPlain(g, id, s, path, base, before);
      }
      if fault.None? {
        fault := PublishPorts(g, id, s, path, base, before);
      }
      if fault.None? {
        if UniqueNames(g) {
          ServiceDone(g, id, base, before, named);
        }
        fault := Insert(path, Whole(id), base);
        ancestry := ancestry - {id};
      }
    }
  }

  ghost function PortKey(base: seq<Bytes>, p: Port): Option<seq<Bytes>> {
    if Suffix(p).Some? then Some(base + [Word(Ports), p.name, Suffix(p).value]) else None
  }

  /** How publishing the members of one category went. */
  ghost predicate LoopOutcome(
      g: Graph, id: Id, base: seq<Bytes>, before: Named, after: Named, c: Category, good: bool, fault: Option<Fault>)
    requires id in g
  {
    UniqueNames(g) ==>
      && (fault.None? <==> good) && fault != Some(DuplicateRoute)
      && (fault.None? ==> Filling(g, id, base, before, after, Rank(c), Elements(NamesIn(g[id], c))))
  }

  /** How publishing one category went. */
  ghost predicate CategoryOutcome(
      g: Graph, s: Service, id: Id, base: seq<Bytes>, before: Named, after: Named, c: Category, fault: Option<Fault>)
    requires !c.Services?
  {
    UniqueNames(g) ==>
      && (fault.None? <==> MembersOk(s, base, c)) && fault != Some(DuplicateRoute)
      && (fault.None? ==> Filling(g, id, base, before, after, Rank(c) + 1, {}))
  }

  /** The state while a service is being published. */
  ghost predicate Filling(g: Graph, id: Id, base: seq<Bytes>, before: Named, now: Named, rank: nat, seen: set<Bytes>) {
    Fresh(base, before) && PartGrown(g, id, base, before, now, rank, seen)
  }

  lemma TakeNext(g: Graph, id: Id, c: Category, n: nat)
    requires id in g && n < |NamesIn(g[id], c)|
    ensures
      var names := NamesIn(g[id], c);
      && names[n] in names && Elements(names[..n + 1]) == Elements(names[..n]) + {names[n]}
      && (UniqueNames(g) ==> Distinct(names) && names[n] !in Elements(names[..n]))
  {
    var names := NamesIn(g[id], c);
    assert names[..n + 1] == names[..n] + [names[n]];
  }
}
