/** How deep services may be nested: a chain of services, each the only child of the one before. */
module ServiceChains {
  import opened Prelude
  import opened Routes
  import opened ServiceTree
  import Publications
  import Utf8

  const A: Bytes := [97]

  function Link(n: nat, i: nat): Service {
    Service(true, if i < n then [Child(A, Some(i + 1))] else [], [], [], [], [])
  }

  function Chain(n: nat): Graph {
    map i: nat | 0 <= i <= n :: Link(n, i)
  }

  lemma ChildRoute(base: seq<Bytes>)
    requires ValidNames(base)
    ensures |PathOf(base + [Word(Services), A])| == |PathOf(base)| + 11 && ValidName(A)
    ensures ValidNames(base + [Word(Services), A])
  {
    Utf8.AsciiIsWellFormed(A);
    Publications.MemberPath(base, Services, A);
    UnreservedIsKept(A);
  }

  lemma LinkPublishable(n: nat, i: nat, base: seq<Bytes>, ancestry: set<Id>)
    requires i <= n && i !in ancestry && i <= 64
    ensures Publishable(Chain(n), Some(i), base, ancestry, i) <==>
      ChildrenOk(Chain(n), Link(n, i).services, base, ancestry + {i}, i)
  {
    assert Chain(n)[i] == Link(n, i);
  }

  lemma OnlyChild(n: nat, i: nat, base: seq<Bytes>, ancestry: set<Id>)
    requires i < n && i <= 64 && ValidNames(base) && |PathOf(base)| + 11 <= 4096
    ensures ChildrenOk(Chain(n), Link(n, i).services, base, ancestry, i) <==>
      Publishable(Chain(n), Some(i + 1), base + [Word(Services), A], ancestry, i + 1)
  {
    ChildRoute(base);
    var children := Link(n, i).services;
    assert children[0] == Child(A, Some(i + 1)) && A != THIS;
    assert ChildOk(Chain(n), children[0], base, ancestry, i) <==>
      Publishable(Chain(n), Some(i + 1), base + [Word(Services), A], ancestry, i + 1);
  }

  /** A chain is published from its i-th service on if and only if it is no longer than 64 links. */
  lemma {:induction false} ChainPublishable(n: nat, i: nat, base: seq<Bytes>, ancestry: set<Id>)
    requires i <= n && ValidNames(base) && |PathOf(base)| + 11 * (n - i) <= 4096
    requires forall id :: id in ancestry ==> id < i
    ensures Publishable(Chain(n), Some(i), base, ancestry, i) <==> n <= 64
    decreases n - i
  {
    if i <= 64 {
      LinkPublishable(n, i, base, ancestry);
      if i < n {
        ChildRoute(base);
        OnlyChild(n, i, base, ancestry + {i});
        ChainPublishable(n, i + 1, base + [Word(Services), A], ancestry + {i});
      }
    }
  }

  /** Sixty-four services below one another are published, and sixty-five are not. */
  lemma SixtyFourDeep(base: seq<Bytes>)
    requires ValidNames(base) && |PathOf(base)| <= 3381
    ensures Publishable(Chain(64), Some(0), base, {}, 0) && !Publishable(Chain(65), Some(0), base, {}, 0)
  {
    ChainPublishable(64, 0, base, {});
    ChainPublishable(65, 0, base, {});
  }
}
