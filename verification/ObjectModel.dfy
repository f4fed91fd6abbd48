/** The object model: committed publications, and the lookup of requests in them. */
module ObjectModels {
  import opened Prelude
  import Utf8
  import opened Routes
  import opened ServiceTree
  import opened RouteGrowth
  import opened Publications
  import RequestGrammar
  import RouteMeanings

  /** /api/v1/components */
  const ROOT_PATH: Bytes :=
    [47, 97, 112, 105, 47, 118, 49, 47, 99, 111, 109, 112, 111, 110, 101, 110, 116, 115]

  const API: Bytes := [97, 112, 105]
  const V1: Bytes := [118, 49]
  const COMPONENTS: Bytes := [99, 111, 109, 112, 111, 110, 101, 110, 116, 115]

  const ROOT: seq<Bytes> := [API, V1, COMPONENTS]

  lemma PathOfThree(a: Bytes, b: Bytes, c: Bytes)
    ensures PathOf([a, b, c]) == [SLASH] + Encode(a) + ([SLASH] + Encode(b) + ([SLASH] + Encode(c)))
  {
    assert [a, b, c][1..] == [b, c] && [b, c][1..] == [c] && [c][1..] == [];
    assert PathOf([c]) == [SLASH] + Encode(c);
  }

  lemma RootPath()
    ensures PathOf(ROOT) == ROOT_PATH && ValidNames(ROOT)
  {
    PathOfThree(API, V1, COMPONENTS);
    RootName(API);
    RootName(V1);
    RootName(COMPONENTS);
    RootText();
  }

  lemma RootText()
    ensures [SLASH] + API + ([SLASH] + V1 + ([SLASH] + COMPONENTS)) == ROOT_PATH
  {}

  lemma RootName(name: Bytes)
    requires name == API || name == V1 || name == COMPONENTS
    ensures ValidName(name) && Encode(name) == name
  {
    assert forall i :: 0 <= i < |name| ==> Unreserved(name[i]) && 0 < name[i] < 0x80;
    Utf8.AsciiIsWellFormed(name);
    UnreservedIsKept(name);
  }

  datatype Publication = Publication(component: nat, routes: map<Bytes, Resource>)

  /** The services of a component as they were when it was published. */
  datatype Snapshot = Snapshot(services: Graph, root: Id)

  function Looked(routes: map<Bytes, Resource>, path: Bytes): Option<Resource> {
    if path in routes then Some(routes[path]) else None
  }

  /** The flat route map answers exactly what walking the services by decoded names answers, and
      every route in it is the canonical path of such names. */
  ghost predicate Serves(routes: map<Bytes, Resource>, snapshot: Snapshot, base: seq<Bytes>) {
    && (forall names :: ValidNames(names) ==>
          Looked(routes, PathOf(names)) == WalkFrom(snapshot.services, snapshot.root, base, names))
    && (forall path {:trigger path in routes} :: path in routes ==> Published(base, path))
  }

  ghost predicate Published(base: seq<Bytes>, path: Bytes) {
    |path| <= LONGEST && exists names :: ValidNames(names) && base <= names && PathOf(names) == path
  }

  /** Every published route is a fixed point of canonicalisation. */
  lemma PublishedIsFixed(base: seq<Bytes>, path: Bytes)
    requires base != [] && Published(base, path)
    ensures Selected(path).Some? && PathOf(Selected(path).value) == path
  {
    var names :| ValidNames(names) && base <= names && PathOf(names) == path;
    CanonicalIsFixed(names);
  }

  lemma LinkedServes(
      routes: map<Bytes, Resource>, named: Named, origin: map<Bytes, seq<Bytes>>, snapshot: Snapshot, base: seq<Bytes>)
    requires Linked(routes, named, origin) && Grown(snapshot.services, snapshot.root, base, map[], named)
    ensures Serves(routes, snapshot, base)
  {
    forall names | ValidNames(names)
      ensures Looked(routes, PathOf(names)) == WalkFrom(snapshot.services, snapshot.root, base, names)
    {
      PathIsTakenIff(routes, named, origin, names);
      assert Get(named, names) == WalkFrom(snapshot.services, snapshot.root, base, names);
    }
    forall path | path in routes ensures Published(base, path) {
      var names := origin[path];
      assert Get(named, names) == WalkFrom(snapshot.services, snapshot.root, base, names);
    }
  }

  /** `stage`: everything about a component that can go wrong goes wrong here, and with unique
      names nothing is ever routed twice. */
  method Stage(services: Graph, service: Option<Id>, component: nat, name: Bytes)
    returns (publication: Option<Publication>, fault: Option<Fault>)
    ensures publication.Some? <==> fault.None?
    ensures publication.Some? ==> service.Some? && publication.value.component == component
    ensures UniqueNames(services) ==>
      && (publication.Some? <==>
            ValidName(name) && |PathOf(ROOT + [name])| <= 4096 && Publishable(services, service, ROOT + [name], {}, 0))
      && fault != Some(DuplicateRoute)
      && (publication.Some? ==> Serves(publication.value.routes, Snapshot(services, service.value), ROOT + [name]))
  {
    RootPath();
    PathAppend(ROOT, name);
    var path := ChildPath(ROOT_PATH, name);
    if path.None? {
      return None, Some(BadRoute);
    }
    var publisher := new Publisher();
    fault := publisher.DescribeService(services, service, path.value, 0, ROOT + [name]);
    if fault.Some? {
      return None, fault;
    }
    if UniqueNames(services) {
      LinkedServes(publisher.routes, publisher.named, publisher.origin, Snapshot(services, service.value), ROOT + [name]);
    }
    publication := Some(Publication(component, publisher.routes));
  }

  /** What a list of decoded names stands for. */
  function Meaning(snapshots: map<Bytes, Snapshot>, names: seq<Bytes>): Option<Resource> {
    if names == ROOT then Some(Index)
    else if ROOT < names && names[3] in snapshots then
      Walk(snapshots[names[3]].services, snapshots[names[3]].root, names[4..])
    else None
  }

  /** The same as a relation: the index of components, or a resource below the component named next. */
  ghost predicate Designates(snapshots: map<Bytes, Snapshot>, names: seq<Bytes>, r: Resource) {
    && |names| >= 3 && names[0] == Ascii("api") && names[1] == Ascii("v1") && names[2] == Ascii("components")
    && if |names| == 3 then r == Index
       else
         && names[3] in snapshots
         && RouteMeanings.Means(snapshots[names[3]].services, snapshots[names[3]].root, names[4..], r)
  }

  lemma RootWords()
    ensures ROOT == [Ascii("api"), Ascii("v1"), Ascii("components")]
  {
    assert Ascii("api") == API && Ascii("v1") == V1 && Ascii("components") == COMPONENTS;
  }

  lemma MeaningIsDesignated(snapshots: map<Bytes, Snapshot>, names: seq<Bytes>, r: Resource)
    ensures Meaning(snapshots, names) == Some(r) <==> Designates(snapshots, names, r)
  {
    RootWords();
    if |names| > 3 && names[3] in snapshots {
      RouteMeanings.WalkIsMeant(snapshots[names[3]].services, snapshots[names[3]].root, names[4..], r);
    }
  }

  /** What a request target selects: it spells names, and they designate the resource. */
  ghost predicate Requested(snapshots: map<Bytes, Snapshot>, target: Bytes, r: Resource) {
    exists names :: RequestGrammar.Requests(target, names) && Designates(snapshots, names, r)
  }

  lemma SelectedIsRequested(snapshots: map<Bytes, Snapshot>, target: Bytes, r: Resource)
    ensures Requested(snapshots, target, r) <==>
      Selected(target).Some? && Meaning(snapshots, Selected(target).value) == Some(r)
  {
    if Requested(snapshots, target, r) {
      var names :| RequestGrammar.Requests(target, names) && Designates(snapshots, names, r);
      RequestGrammar.SelectedIsRequested(target, names);
      MeaningIsDesignated(snapshots, names, r);
    }
    if Selected(target).Some? {
      RequestGrammar.SelectedIsRequested(target, Selected(target).value);
      MeaningIsDesignated(snapshots, Selected(target).value, r);
    }
  }

  ghost predicate AllServe(publications: map<Bytes, Publication>, snapshots: map<Bytes, Snapshot>) {
    && publications.Keys == snapshots.Keys
    && forall name :: name in publications ==> Serves(publications[name].routes, snapshots[name], ROOT + [name])
  }

  /** Only the publication of the component that the path names can own the path. */
  lemma OwnerIsNamed(
      publications: map<Bytes, Publication>, snapshots: map<Bytes, Snapshot>, name: Bytes, names: seq<Bytes>)
    requires AllServe(publications, snapshots) && ValidNames(names) && name in publications
    ensures Looked(publications[name].routes, PathOf(names)).Some? ==> ROOT + [name] <= names
    ensures ROOT + [name] <= names ==> Looked(publications[name].routes, PathOf(names)) == Meaning(snapshots, names)
  {
    var base := ROOT + [name];
    assert Looked(publications[name].routes, PathOf(names)) ==
           WalkFrom(snapshots[name].services, snapshots[name].root, base, names);
    PrefixNext(ROOT, name, names);
  }

  /** At most one publication owns a path. */
  lemma OneOwner(
      publications: map<Bytes, Publication>, snapshots: map<Bytes, Snapshot>, path: Bytes, m: Bytes, n: Bytes)
    requires AllServe(publications, snapshots) && m in publications && n in publications
    requires path in publications[m].routes && path in publications[n].routes
    ensures m == n
  {
    var names :| ValidNames(names) && ROOT + [m] <= names && PathOf(names) == path by {
      assert Published(ROOT + [m], path);
    }
    OwnerIsNamed(publications, snapshots, n, names);
    PrefixNext(ROOT, m, names);
    PrefixNext(ROOT, n, names);
  }

  lemma NobodyMeans(publications: map<Bytes, Publication>, snapshots: map<Bytes, Snapshot>, names: seq<Bytes>)
    requires AllServe(publications, snapshots) && ValidNames(names) && names != ROOT
    requires forall name :: name in publications ==> PathOf(names) !in publications[name].routes
    ensures Meaning(snapshots, names).None?
  {
    if ROOT < names && names[3] in publications {
      PrefixNext(ROOT, names[3], names);
      OwnerIsNamed(publications, snapshots, names[3], names);
    }
  }

  lemma TargetIsRequested(snapshots: map<Bytes, Snapshot>, target: Bytes)
    ensures Selected(target).Some? <==> exists names :: RequestGrammar.Requests(target, names)
    ensures forall x :: Requested(snapshots, target, x) <==>
      Selected(target).Some? && Meaning(snapshots, Selected(target).value) == Some(x)
  {
    forall names ensures RequestGrammar.Requests(target, names) <==> Selected(target) == Some(names) {
      RequestGrammar.SelectedIsRequested(target, names);
    }
    forall x
      ensures Requested(snapshots, target, x) <==>
        Selected(target).Some? && Meaning(snapshots, Selected(target).value) == Some(x)
    {
      SelectedIsRequested(snapshots, target, x);
    }
  }

  class ObjectModel {
    var publications: map<Bytes, Publication>
    ghost var snapshots: map<Bytes, Snapshot>

    ghost predicate Valid()
      reads this
    {
      AllServe(publications, snapshots)
    }

    constructor ()
      ensures Valid() && publications == map[] && snapshots == map[]
    {
      publications, snapshots := map[], map[];
    }

    /** `commit`: a name belongs to the first component published under it. */
    method Commit(name: Bytes, publication: Publication, ghost snapshot: Snapshot) returns (ok: bool)
      requires Valid() && Serves(publication.routes, snapshot, ROOT + [name])
      modifies this
      ensures Valid()
      ensures ok <==> name in old(publications) ==> old(publications)[name].component == publication.component
      ensures if name in old(publications) then publications == old(publications) && snapshots == old(snapshots)
              else publications == old(publications)[name := publication] && snapshots == old(snapshots)[name := snapshot]
    {
      if name in publications {
        return publications[name].component == publication.component;
      }
      publications := publications[name := publication];
      snapshots := snapshots[name := snapshot];
      return true;
    }

    /** The scan over the publications, in any order: the first that has the path answers. */
    method Scan(path: Bytes) returns (owner: Option<Bytes>)
      ensures owner.Some? ==> owner.value in publications && path in publications[owner.value].routes
      ensures owner.None? ==> forall name :: name in publications ==> path !in publications[name].routes
    {
      var todo := publications.Keys;
      while todo != {}
        invariant todo <= publications.Keys
        invariant forall name :: name in publications && name !in todo ==> path !in publications[name].routes
        decreases todo
      {
        var name :| name in todo;
        if path in publications[name].routes {
          return Some(name);
        }
        todo := todo - {name};
      }
      return None;
    }

    /** `resolve`: whatever order the publications are scanned in, the answer is what the names
        stand for. */
    method Resolve(path: Bytes, ghost names: seq<Bytes>) returns (r: Option<Resource>)
      requires Valid() && ValidNames(names) && path == PathOf(names)
      ensures r == Meaning(snapshots, names)
    {
      RootPath();
      if path == ROOT_PATH {
        PathIsInjective(names, ROOT);
        return Some(Index);
      }
      var owner := Scan(path);
      if owner.Some? {
        OwnerIsNamed(publications, snapshots, owner.value, names);
        return Some(publications[owner.value].routes[path]);
      }
      NobodyMeans(publications, snapshots, names);
      return None;
    }

    /** A request: canonicalisation followed by lookup selects by decoded names alone. */
    method Request(target: Bytes) returns (accepted: bool, r: Option<Resource>)
      requires Valid()
      ensures accepted <==> Selected(target).Some?
      ensures accepted ==> r == Meaning(snapshots, Selected(target).value)
      ensures accepted <==> exists names :: RequestGrammar.Requests(target, names)
      ensures forall x :: r == Some(x) <==> Requested(snapshots, target, x)
    {
      TargetIsRequested(snapshots, target);
      var path := CanonicalRequestPath(target);
      if path.None? {
        return false, None;
      }
      NamesAreValid(BeforeQuery(target)[1..]);
      r := Resolve(path.value, Selected(target).value);
      accepted := true;
    }
  }

  /** The route under which a member is published resolves to that member. */
  lemma OwnRouteResolves(snapshots: map<Bytes, Snapshot>, name: Bytes, rel: seq<Bytes>)
    requires name in snapshots && ValidNames(ROOT + [name] + rel) && |PathOf(ROOT + [name] + rel)| <= MAX_TARGET
    ensures
      var target := PathOf(ROOT + [name] + rel);
      && Selected(target).Some?
      && Meaning(snapshots, Selected(target).value) == Walk(snapshots[name].services, snapshots[name].root, rel)
  {
    var names := ROOT + [name] + rel;
    CanonicalIsFixed(names);
    assert names[..3] == ROOT && names[4..] == rel;
  }
}
