/** How the route map grows while a service is published, told in decoded names. */
module RouteGrowth {
  import opened Prelude
  import opened Routes
  import opened ServiceTree

  /** Routes by the decoded names of their segments. */
  type Named = map<seq<Bytes>, Resource>

  function Get(m: Named, names: seq<Bytes>): Option<Resource> {
    if names in m then Some(m[names]) else None
  }

  /** Nothing has been routed at or below the base. */
  ghost predicate Fresh(base: seq<Bytes>, m: Named) {
    forall names :: names in m ==> !(base <= names)
  }

  function WalkFrom(g: Graph, id: Id, base: seq<Bytes>, names: seq<Bytes>): Option<Resource> {
    if base <= names then Walk(g, id, names[|base|..]) else None
  }

  /** Exactly the routes that `Walk` knows below the base have been added. */
  ghost predicate Grown(g: Graph, id: Id, base: seq<Bytes>, before: Named, after: Named) {
    forall names :: Get(after, names) == if names in before then Get(before, names) else WalkFrom(g, id, base, names)
  }

  predicate InCategory(rel: seq<Bytes>, rank: nat) {
    rel != [] && CategoryOf(rel[0]).Some? && Rank(CategoryOf(rel[0]).value) == rank
  }

  /** At or below the member of that name, in the category of that rank. */
  predicate InBranch(rel: seq<Bytes>, rank: nat, name: Bytes) {
    |rel| >= 2 && InCategory(rel, rank) && rel[1] == name
  }

  /** Published by the time the categories below `rank` are complete and, in that category, the
      members of the given names. */
  predicate Done(rel: seq<Bytes>, rank: nat, seen: set<Bytes>) {
    && rel != [] && CategoryOf(rel[0]).Some?
    && (Rank(CategoryOf(rel[0]).value) < rank || (InCategory(rel, rank) && |rel| >= 2 && rel[1] in seen))
  }

  ghost predicate PartGrown(
      g: Graph, id: Id, base: seq<Bytes>, before: Named, after: Named, rank: nat, seen: set<Bytes>)
  {
    forall names :: Get(after, names) ==
      if names in before then Get(before, names)
      else if base <= names && Done(names[|base|..], rank, seen) then WalkFrom(g, id, base, names)
      else None
  }

  /** The routes of one member have been added. */
  ghost predicate BranchGrown(
      g: Graph, id: Id, base: seq<Bytes>, before: Named, after: Named, rank: nat, name: Bytes)
  {
    forall names :: Get(after, names) ==
      if names in before then Get(before, names)
      else if base <= names && InBranch(names[|base|..], rank, name) then WalkFrom(g, id, base, names)
      else None
  }

  lemma NothingYet(g: Graph, id: Id, base: seq<Bytes>, m: Named)
    ensures PartGrown(g, id, base, m, m, 0, {})
  {}

  lemma OneMoreMember(
      g: Graph, id: Id, base: seq<Bytes>, before: Named, mid: Named, after: Named, rank: nat, seen: set<Bytes>, name: Bytes)
    requires PartGrown(g, id, base, before, mid, rank, seen) && BranchGrown(g, id, base, mid, after, rank, name)
    ensures PartGrown(g, id, base, before, after, rank, seen + {name})
  {
    forall names
      ensures Get(after, names) ==
        if names in before then Get(before, names)
        else if base <= names && Done(names[|base|..], rank, seen + {name}) then WalkFrom(g, id, base, names)
        else None
    {
      assert Get(mid, names) == Get(mid, names);
      if base <= names {
        assert Done(names[|base|..], rank, seen + {name}) <==>
               Done(names[|base|..], rank, seen) || InBranch(names[|base|..], rank, name);
      }
    }
  }

  /** A member that has not been published has no routes yet. */
  lemma BranchIsFresh(
      g: Graph, id: Id, base: seq<Bytes>, before: Named, mid: Named, rank: nat, seen: set<Bytes>, name: Bytes)
    requires Fresh(base, before) && PartGrown(g, id, base, before, mid, rank, seen) && name !in seen
    ensures forall names :: names in mid && base <= names ==> !InBranch(names[|base|..], rank, name)
  {
    forall names | names in mid && base <= names ensures !InBranch(names[|base|..], rank, name) {
      assert Get(mid, names).Some?;
    }
  }

  lemma Below(base: seq<Bytes>, names: seq<Bytes>)
    ensures base <= names ==> names == base + names[|base|..]
  {}

  lemma RelOf(base: seq<Bytes>, rel: seq<Bytes>)
    ensures base <= base + rel && (base + rel)[|base|..] == rel
  {}

  /** A single route is the whole branch of a member whose `Walk` knows nothing else there. */
  lemma SingleBranch(
      g: Graph, id: Id, base: seq<Bytes>, mid: Named, rank: nat, name: Bytes, rel: seq<Bytes>, r: Resource)
    requires InBranch(rel, rank, name) && Walk(g, id, rel) == Some(r)
    requires forall other :: InBranch(other, rank, name) && other != rel ==> Walk(g, id, other).None?
    requires forall names :: names in mid && base <= names ==> !InBranch(names[|base|..], rank, name)
    ensures base + rel !in mid && BranchGrown(g, id, base, mid, mid[base + rel := r], rank, name)
  {
    var key, after := base + rel, mid[base + rel := r];
    RelOf(base, rel);
    forall names
      ensures Get(after, names) ==
        if names in mid then Get(mid, names)
        else if base <= names && InBranch(names[|base|..], rank, name) then WalkFrom(g, id, base, names)
        else None
    {
      if base <= names && names != key {
        Below(base, names);
        assert names[|base|..] != rel;
      }
    }
  }

  lemma EmptyBranch(g: Graph, id: Id, base: seq<Bytes>, mid: Named, rank: nat, name: Bytes)
    requires forall rel :: InBranch(rel, rank, name) ==> Walk(g, id, rel).None?
    ensures BranchGrown(g, id, base, mid, mid, rank, name)
  {}

  lemma ItemBranch(g: Graph, id: Id, base: seq<Bytes>, mid: Named, c: Category, name: Bytes)
    requires id in g && !c.Services? && !c.Ports? && name in ItemNames(ItemsOf(g[id], c))
    requires forall names :: names in mid && base <= names ==> !InBranch(names[|base|..], Rank(c), name)
    ensures
      var key := base + [Word(c), name];
      key !in mid && BranchGrown(g, id, base, mid, mid[key := Single(id, c, name)], Rank(c), name)
  {
    var rel := [Word(c), name];
    WordsDiffer(c);
    forall other | InBranch(other, Rank(c), name) && other != rel ensures Walk(g, id, other).None? {
      OnlyWord(other, c);
    }
    SingleBranch(g, id, base, mid, Rank(c), name, rel, Single(id, c, name));
  }

  lemma OnlyWord(rel: seq<Bytes>, c: Category)
    requires InCategory(rel, Rank(c))
    ensures CategoryOf(rel[0]) == Some(c) && rel[0] == Word(c)
    ensures |rel| == 1 ==> rel == [Word(c)]
    ensures |rel| == 2 ==> rel == [Word(c), rel[1]]
    ensures |rel| == 3 ==> rel == [Word(c), rel[1], rel[2]]
  {}

  lemma PortBranch(g: Graph, id: Id, base: seq<Bytes>, mid: Named, i: nat)
    requires id in g && i < |g[id].ports| && Distinct(PortNames(g[id].ports))
    requires
      var name := g[id].ports[i].name;
      forall names :: names in mid && base <= names ==> !InBranch(names[|base|..], Rank(Ports), name)
    ensures
      var p := g[id].ports[i];
      match Suffix(p)
      case None => BranchGrown(g, id, base, mid, mid, Rank(Ports), p.name)
      case Some(suffix) =>
        var key := base + [Word(Ports), p.name, suffix];
        key !in mid && BranchGrown(g, id, base, mid, mid[key := PortResource(id, p)], Rank(Ports), p.name)
  {
    var p := g[id].ports[i];
    IndexIsUnique(PortNames(g[id].ports), i);
    WordsDiffer(Ports);
    if Suffix(p).None? {
      EmptyBranch(g, id, base, mid, Rank(Ports), p.name);
    } else {
      var rel := [Word(Ports), p.name, Suffix(p).value];
      assert rel[2..] == [Suffix(p).value];
      forall other | InBranch(other, Rank(Ports), p.name) && other != rel ensures Walk(g, id, other).None? {
        OnlyWord(other, Ports);
        assert |other| > 2 ==> other[2] == other[2..][0];
        assert |other| == 3 ==> other[2..] == [other[2]];
      }
      SingleBranch(g, id, base, mid, Rank(Ports), p.name, rel, PortResource(id, p));
    }
  }

  /** A child's own routes are the whole branch of the child. */
  lemma ChildBranch(g: Graph, id: Id, base: seq<Bytes>, mid: Named, after: Named, i: nat)
    requires id in g && i < |g[id].services| && Distinct(ChildNames(g[id].services))
    requires g[id].services[i].name != THIS && g[id].services[i].service.Some?
    requires
      var child := g[id].services[i];
      Grown(g, child.service.value, base + [Word(Services), child.name], mid, after)
    ensures BranchGrown(g, id, base, mid, after, Rank(Services), g[id].services[i].name)
  {
    var child := g[id].services[i];
    var below := base + [Word(Services), child.name];
    IndexIsUnique(ChildNames(g[id].services), i);
    forall names
      ensures Get(after, names) ==
        if names in mid then Get(mid, names)
        else if base <= names && InBranch(names[|base|..], Rank(Services), child.name) then WalkFrom(g, id, base, names)
        else None
    {
      ChildPrefix(base, names, child.name);
      if below <= names {
        assert WalkFrom(g, child.service.value, below, names) == WalkFrom(g, id, base, names);
      }
    }
  }

  lemma ChildPrefix(base: seq<Bytes>, names: seq<Bytes>, name: Bytes)
    ensures
      var below := base + [Word(Services), name];
      && (below <= names <==> base <= names && InBranch(names[|base|..], Rank(Services), name))
      && (below <= names ==> names[|below|..] == names[|base|..][2..])
  {
    var below := base + [Word(Services), name];
    if below <= names {
      assert below[|base|] == names[|base|] && below[|base| + 1] == names[|base| + 1];
      assert base <= names;
    }
    if base <= names && InBranch(names[|base|..], Rank(Services), name) {
      OnlyWord(names[|base|..], Services);
      assert names[|base|..][0] == names[|base|] && names[|base|..][1] == names[|base| + 1];
    }
  }

  // ----- One step of the tree walk -----

  lemma ItemStep(
      g: Graph, id: Id, base: seq<Bytes>, before: Named, mid: Named, c: Category, seen: set<Bytes>, name: Bytes)
    requires id in g && !c.Services? && !c.Ports? && name in ItemNames(ItemsOf(g[id], c)) && name !in seen
    requires Fresh(base, before) && PartGrown(g, id, base, before, mid, Rank(c), seen)
    ensures
      var key := base + [Word(c), name];
      key !in mid && PartGrown(g, id, base, before, mid[key := Single(id, c, name)], Rank(c), seen + {name})
  {
    BranchIsFresh(g, id, base, before, mid, Rank(c), seen, name);
    ItemBranch(g, id, base, mid, c, name);
    OneMoreMember(g, id, base, before, mid, mid[base + [Word(c), name] := Single(id, c, name)], Rank(c), seen, name);
  }

  lemma PortStep(g: Graph, id: Id, base: seq<Bytes>, before: Named, mid: Named, seen: set<Bytes>, i: nat)
    requires id in g && i < |g[id].ports| && Distinct(PortNames(g[id].ports)) && g[id].ports[i].name !in seen
    requires Fresh(base, before) && PartGrown(g, id, base, before, mid, Rank(Ports), seen)
    ensures
      var p := g[id].ports[i];
      match Suffix(p)
      case None => PartGrown(g, id, base, before, mid, Rank(Ports), seen + {p.name})
      case Some(suffix) =>
        var key := base + [Word(Ports), p.name, suffix];
        key !in mid && PartGrown(g, id, base, before, mid[key := PortResource(id, p)], Rank(Ports), seen + {p.name})
  {
    var p := g[id].ports[i];
    BranchIsFresh(g, id, base, before, mid, Rank(Ports), seen, p.name);
    PortBranch(g, id, base, mid, i);
    match Suffix(p)
    case None => OneMoreMember(g, id, base, before, mid, mid, Rank(Ports), seen, p.name);
    case Some(suffix) =>
      var key := base + [Word(Ports), p.name, suffix];
      OneMoreMember(g, id, base, before, mid, mid[key := PortResource(id, p)], Rank(Ports), seen, p.name);
  }

  /** Before a child is published, nothing is routed below it. */
  lemma ChildIsFresh(g: Graph, id: Id, base: seq<Bytes>, before: Named, mid: Named, seen: set<Bytes>, name: Bytes)
    requires Fresh(base, before) && PartGrown(g, id, base, before, mid, Rank(Services), seen) && name !in seen
    ensures Fresh(base + [Word(Services), name], mid)
  {
    BranchIsFresh(g, id, base, before, mid, Rank(Services), seen, name);
    forall names | names in mid ensures !(base + [Word(Services), name] <= names) {
      ChildPrefix(base, names, name);
    }
  }

  lemma ChildStep(
      g: Graph, id: Id, base: seq<Bytes>, before: Named, mid: Named, after: Named, seen: set<Bytes>, i: nat)
    requires id in g && i < |g[id].services| && Distinct(ChildNames(g[id].services))
    requires g[id].services[i].name != THIS && g[id].services[i].service.Some?
    requires PartGrown(g, id, base, before, mid, Rank(Services), seen)
    requires
      var child := g[id].services[i];
      Grown(g, child.service.value, base + [Word(Services), child.name], mid, after)
    ensures PartGrown(g, id, base, before, after, Rank(Services), seen + {g[id].services[i].name})
  {
    ChildBranch(g, id, base, mid, after, i);
    OneMoreMember(g, id, base, before, mid, after, Rank(Services), seen, g[id].services[i].name);
  }

  /** The service under the name `this` is the service itself and is passed over. */
  lemma ThisStep(g: Graph, id: Id, base: seq<Bytes>, before: Named, mid: Named, seen: set<Bytes>)
    requires id in g && PartGrown(g, id, base, before, mid, Rank(Services), seen)
    ensures PartGrown(g, id, base, before, mid, Rank(Services), seen + {THIS})
  {
    forall rel | InBranch(rel, Rank(Services), THIS) ensures Walk(g, id, rel).None? {
      OnlyWord(rel, Services);
    }
    EmptyBranch(g, id, base, mid, Rank(Services), THIS);
    OneMoreMember(g, id, base, before, mid, mid, Rank(Services), seen, THIS);
  }

  /** Routing the collection completes its category. */
  lemma CategoryDone(
      g: Graph, id: Id, base: seq<Bytes>, before: Named, mid: Named, c: Category, seen: set<Bytes>)
    requires id in g && Fresh(base, before) && PartGrown(g, id, base, before, mid, Rank(c), seen)
    requires forall name :: name in NamesIn(g[id], c) ==> name in seen
    ensures
      var key := base + [Word(c)];
      key !in mid && PartGrown(g, id, base, before, mid[key := Collection(id, c)], Rank(c) + 1, {})
  {
    var key, after := base + [Word(c)], mid[base + [Word(c)] := Collection(id, c)];
    RelOf(base, [Word(c)]);
    WordsDiffer(c);
    assert Get(mid, key).None?;
    forall names
      ensures Get(after, names) ==
        if names in before then Get(before, names)
        else if base <= names && Done(names[|base|..], Rank(c) + 1, {}) then WalkFrom(g, id, base, names)
        else None
    {
      assert Get(mid, names) == Get(mid, names);
      if base <= names && names != key {
        CategoryRest(g, id, base, names, c, seen);
      }
    }
  }

  lemma CategoryRest(g: Graph, id: Id, base: seq<Bytes>, names: seq<Bytes>, c: Category, seen: set<Bytes>)
    requires id in g && base <= names && names != base + [Word(c)]
    requires forall name :: name in NamesIn(g[id], c) ==> name in seen
    ensures
      var rel := names[|base|..];
      Walk(g, id, rel).Some? ==> (Done(rel, Rank(c), seen) <==> Done(rel, Rank(c) + 1, {}))
  {
    var rel := names[|base|..];
    Below(base, names);
    if Walk(g, id, rel).Some? && InCategory(rel, Rank(c)) {
      OnlyWord(rel, c);
      assert rel != [Word(c)];
      WalkNeedsMember(g, id, rel);
    }
  }

  /** Routing the service itself completes it. */
  lemma ServiceDone(g: Graph, id: Id, base: seq<Bytes>, before: Named, mid: Named)
    requires id in g && Fresh(base, before) && PartGrown(g, id, base, before, mid, 5, {})
    ensures base !in mid && Grown(g, id, base, before, mid[base := Whole(id)])
  {
    var after := mid[base := Whole(id)];
    assert Get(mid, base).None? by {
      assert base[|base|..] == [];
    }
    forall names
      ensures Get(after, names) == if names in before then Get(before, names) else WalkFrom(g, id, base, names)
    {
      assert Get(mid, names) == Get(mid, names);
      if base <= names {
        Below(base, names);
        assert names != base ==> names[|base|..] != [];
      }
    }
  }
}
