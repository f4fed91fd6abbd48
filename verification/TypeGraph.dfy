/** The dependency graph of registered types, and the explicit-stack search that freezing runs
    over it. */
module TypeGraph {
  import opened Prelude

  /** What freezing reads of a registration: the descriptor's kind and the dependency names. */
  datatype Definition = Definition(kind: string, dependencies: seq<Name>)

  type Name = Bytes
  type Graph = map<Name, Definition>

  datatype Defect = Missing(name: Name) | NotInteger(name: Name) | Recursive(name: Name)

  // ----- What a good graph is -----

  ghost predicate Edge(g: Graph, a: Name, b: Name) {
    a in g && b in g[a].dependencies
  }

  ghost predicate Closed(g: Graph) {
    forall a, b :: Edge(g, a, b) ==> b in g
  }

  predicate KindFits(g: Graph, a: Name, b: Name) {
    a in g && b in g && (g[a].kind == "enum" ==> g[b].kind == "integer")
  }

  ghost predicate WellKinded(g: Graph) {
    forall a, b :: Edge(g, a, b) && b in g ==> KindFits(g, a, b)
  }

  ghost predicate Path(g: Graph, p: seq<Name>) {
    |p| > 0 && forall i :: 0 <= i < |p| - 1 ==> Edge(g, p[i], p[i + 1])
  }

  ghost predicate Cycle(g: Graph, p: seq<Name>) {
    |p| > 1 && Path(g, p) && p[0] == p[|p| - 1]
  }

  ghost predicate Acyclic(g: Graph) {
    forall p :: !Cycle(g, p)
  }

  ghost predicate Sound(g: Graph) {
    Closed(g) && WellKinded(g) && Acyclic(g)
  }

  /** The defect is really there. */
  ghost predicate Witnessed(g: Graph, d: Defect) {
    match d
    case Missing(b) => b !in g && exists a :: Edge(g, a, b)
    case NotInteger(b) => b in g && g[b].kind != "integer" && exists a :: Edge(g, a, b) && g[a].kind == "enum"
    case Recursive(b) => exists p :: Cycle(g, p) && p[0] == b
  }

  lemma DefectsAreUnsound(g: Graph, d: Defect)
    requires Witnessed(g, d)
    ensures !Sound(g)
  {
    match d
    case Missing(b) =>
    case NotInteger(b) =>
      var a :| Edge(g, a, b) && g[a].kind == "enum";
      assert !KindFits(g, a, b);
    case Recursive(b) =>
  }

  // ----- A finishing order is a proof of soundness -----

  /** Every definition comes after everything it depends on. */
  ghost predicate Topological(g: Graph, order: seq<Name>) {
    forall i :: 0 <= i < |order| ==>
      order[i] in g && forall b :: b in g[order[i]].dependencies ==> b in order[..i] && KindFits(g, order[i], b)
  }

  /** Along a path the position in the order drops. */
  lemma {:induction false} PathDescends(g: Graph, order: seq<Name>, p: seq<Name>, last: nat)
    requires Topological(g, order) && Distinct(order)
    requires |p| > 1 && Path(g, p) && last < |order| && order[last] == p[0]
    ensures p[|p| - 1] in order[..last]
    decreases |p|
  {
    assert Edge(g, p[0], p[1]);
    var next :| 0 <= next < last && order[next] == p[1];
    if |p| > 2 {
      assert Path(g, p[1..]) by {
        forall i | 0 <= i < |p[1..]| - 1 ensures Edge(g, p[1..][i], p[1..][i + 1]) {
          assert Edge(g, p[i + 1], p[i + 2]);
        }
      }
      PathDescends(g, order, p[1..], next);
      assert order[..next] == order[..last][..next];
    }
  }

  lemma OrderMeansSound(g: Graph, order: seq<Name>)
    requires Topological(g, order) && Distinct(order) && forall a :: a in g ==> a in order
    ensures Sound(g)
  {
    forall a, b | Edge(g, a, b) ensures b in g && KindFits(g, a, b) {
      var i :| 0 <= i < |order| && order[i] == a;
    }
    forall p | |p| > 1 && Path(g, p) ensures p[0] != p[|p| - 1] {
      assert Edge(g, p[0], p[1]);
      var i :| 0 <= i < |order| && order[i] == p[0];
      PathDescends(g, order, p, i);
    }
  }

  // ----- The search -----

  datatype Frame = Frame(name: Name, next: nat)

  function Mark(marks: map<Name, int>, name: Name): int {
    if name in marks then marks[name] else 0
  }

  /** The dependencies taken so far fit, and are finished, but for the one the frame above is
      working on. */
  ghost predicate FrameOk(g: Graph, f: Frame, above: Option<Name>, order: seq<Name>) {
    && f.name in g && f.next <= |g[f.name].dependencies| && f.name !in order
    && (forall k :: 0 <= k < f.next ==>
          var b := g[f.name].dependencies[k];
          KindFits(g, f.name, b) && (b in order || Some(b) == above))
    && (above.Some? ==> above.value in g[f.name].dependencies)
  }

  function Above(stack: seq<Frame>, i: nat): Option<Name> {
    if i + 1 < |stack| then Some(stack[i + 1].name) else None
  }

  /** The stack is a path of distinct unfinished types. */
  ghost predicate StackOk(g: Graph, stack: seq<Frame>, order: seq<Name>) {
    && (forall i :: 0 <= i < |stack| ==> FrameOk(g, stack[i], Above(stack, i), order))
    && (forall i, j :: 0 <= i < j < |stack| ==> stack[i].name != stack[j].name)
  }

  ghost predicate OnStack(stack: seq<Frame>, name: Name) {
    exists i :: 0 <= i < |stack| && stack[i].name == name
  }

  ghost predicate MarksOk(marks: map<Name, int>, stack: seq<Frame>, order: seq<Name>) {
    forall name ::
      && (Mark(marks, name) == 2 <==> name in order)
      && (Mark(marks, name) == 1 <==> OnStack(stack, name))
      && 0 <= Mark(marks, name) <= 2
  }

  ghost predicate OrderOk(g: Graph, order: seq<Name>) {
    Topological(g, order) && Distinct(order)
  }

  function Work(g: Graph, stack: seq<Frame>): int {
    if stack == [] then 0
    else
      var f := stack[|stack| - 1];
      Work(g, stack[..|stack| - 1]) + 1 + (if f.name in g then |g[f.name].dependencies| - f.next else 0)
  }

  lemma {:induction false} WorkIsNatural(g: Graph, stack: seq<Frame>)
    requires forall i :: 0 <= i < |stack| ==> stack[i].name in g && stack[i].next <= |g[stack[i].name].dependencies|
    ensures Work(g, stack) >= 0
  {
    if stack != [] {
      WorkIsNatural(g, stack[..|stack| - 1]);
    }
  }

  lemma StackEdges(g: Graph, stack: seq<Frame>, order: seq<Name>)
    requires StackOk(g, stack, order)
    ensures forall i :: 0 <= i < |stack| - 1 ==> Edge(g, stack[i].name, stack[i + 1].name)
  {
    forall i | 0 <= i < |stack| - 1 ensures Edge(g, stack[i].name, stack[i + 1].name) {
      assert FrameOk(g, stack[i], Above(stack, i), order);
    }
  }

  function Names(stack: seq<Frame>): (names: seq<Name>)
    ensures |names| == |stack|
    ensures forall i :: 0 <= i < |stack| ==> names[i] == stack[i].name
  {
    if stack == [] then [] else [stack[0].name] + Names(stack[1..])
  }

  /** The stack from a repeated name up to the top closes a cycle. */
  lemma StackCloses(g: Graph, stack: seq<Frame>, order: seq<Name>, b: Name)
    requires StackOk(g, stack, order) && OnStack(stack, b)
    requires Edge(g, stack[|stack| - 1].name, b)
    ensures Witnessed(g, Recursive(b))
  {
    StackEdges(g, stack, order);
    var j :| 0 <= j < |stack| && stack[j].name == b;
    StackPathCloses(g, stack, j);
  }

  lemma StackPathCloses(g: Graph, stack: seq<Frame>, j: nat)
    requires j < |stack| && Edge(g, stack[|stack| - 1].name, stack[j].name)
    requires forall i :: 0 <= i < |stack| - 1 ==> Edge(g, stack[i].name, stack[i + 1].name)
    ensures Witnessed(g, Recursive(stack[j].name))
  {
    var names := Names(stack[j..]);
    assert forall i :: 0 <= i < |names| ==> names[i] == stack[j + i].name;
    forall i | 0 <= i < |names| - 1 ensures Edge(g, names[i], names[i + 1]) {
      assert Edge(g, stack[j + i].name, stack[j + i + 1].name);
    }
    ClosedPath(g, names, stack[j].name);
  }

  lemma ClosedPath(g: Graph, names: seq<Name>, b: Name)
    requires names != [] && names[0] == b && Edge(g, names[|names| - 1], b)
    requires forall i :: 0 <= i < |names| - 1 ==> Edge(g, names[i], names[i + 1])
    ensures Witnessed(g, Recursive(b))
  {
    var p := names + [b];
    assert Cycle(g, p);
  }

  /** What one turn of the inner loop does to the invariants: the top frame is complete. */
  lemma FinishTop(g: Graph, stack: seq<Frame>, order: seq<Name>)
    requires StackOk(g, stack, order) && OrderOk(g, order) && stack != []
    requires var f := stack[|stack| - 1]; f.name in g && f.next == |g[f.name].dependencies|
    ensures var name, rest := stack[|stack| - 1].name, stack[..|stack| - 1];
      StackOk(g, rest, order + [name]) && OrderOk(g, order + [name])
  {
    var f, rest := stack[|stack| - 1], stack[..|stack| - 1];
    assert FrameOk(g, f, None, order) by {
      assert FrameOk(g, f, Above(stack, |stack| - 1), order);
    }
    forall i | 0 <= i < |rest| ensures FrameOk(g, rest[i], Above(rest, i), order + [f.name]) {
      assert FrameOk(g, stack[i], Above(stack, i), order);
    }
    OrderExtends(g, order, f.name);
  }

  lemma FinishMarks(marks: map<Name, int>, stack: seq<Frame>, order: seq<Name>)
    requires MarksOk(marks, stack, order) && stack != []
    requires forall i, j :: 0 <= i < j < |stack| ==> stack[i].name != stack[j].name
    ensures var name, rest := stack[|stack| - 1].name, stack[..|stack| - 1];
      MarksOk(marks[name := 2], rest, order + [name])
    ensures forall name :: OnStack(stack, name) ==> OnStack(stack[..|stack| - 1], name) || name == stack[|stack| - 1].name
  {
    var f, rest := stack[|stack| - 1], stack[..|stack| - 1];
    forall name ensures OnStack(rest, name) <==> OnStack(stack, name) && name != f.name {
      PopName(stack, name);
    }
    var marked, longer := marks[f.name := 2], order + [f.name];
    forall name
      ensures Mark(marked, name) == 2 <==> name in longer
      ensures Mark(marked, name) == 1 <==> OnStack(rest, name)
      ensures 0 <= Mark(marked, name) <= 2
    {
      assert Mark(marked, name) == if name == f.name then 2 else Mark(marks, name);
      assert name in longer <==> name in order || name == f.name;
    }
  }

  lemma PopName(stack: seq<Frame>, name: Name)
    requires stack != [] && forall i, j :: 0 <= i < j < |stack| ==> stack[i].name != stack[j].name
    ensures OnStack(stack[..|stack| - 1], name) <==> OnStack(stack, name) && name != stack[|stack| - 1].name
  {
    var rest := stack[..|stack| - 1];
    if i :| 0 <= i < |rest| && rest[i].name == name {
      assert stack[i].name == name;
    }
    if i :| 0 <= i < |stack| && stack[i].name == name {
      assert i < |rest| ==> rest[i].name == name;
    }
  }

  lemma OrderExtends(g: Graph, order: seq<Name>, name: Name)
    requires OrderOk(g, order) && name in g && name !in order
    requires forall b :: b in g[name].dependencies ==> b in order && KindFits(g, name, b)
    ensures OrderOk(g, order + [name])
  {
    var longer := order + [name];
    forall i | 0 <= i < |longer|
      ensures longer[i] in g
      ensures forall b :: b in g[longer[i]].dependencies ==> b in longer[..i] && KindFits(g, longer[i], b)
    {
      assert longer[..i] == order[..i];
      assert i == |order| ==> order[..i] == order;
    }
  }

  /** The top frame after taking its next dependency. */
  function Advanced(stack: seq<Frame>): seq<Frame>
    requires stack != []
  {
    var f := stack[|stack| - 1];
    stack[|stack| - 1 := Frame(f.name, f.next + 1)]
  }

  lemma SameNames(stack: seq<Frame>, after: seq<Frame>)
    requires |after| == |stack| && forall i :: 0 <= i < |stack| ==> after[i].name == stack[i].name
    ensures forall name :: OnStack(after, name) <==> OnStack(stack, name)
  {
    forall name ensures OnStack(after, name) <==> OnStack(stack, name) {
      if i :| 0 <= i < |stack| && stack[i].name == name {
        assert after[i].name == name;
      }
    }
  }

  /** The top frame takes its next dependency, already finished. */
  lemma AdvanceTop(g: Graph, stack: seq<Frame>, order: seq<Name>)
    requires StackOk(g, stack, order) && stack != []
    requires var f := stack[|stack| - 1];
      && f.name in g && f.next < |g[f.name].dependencies|
      && g[f.name].dependencies[f.next] in order && KindFits(g, f.name, g[f.name].dependencies[f.next])
    ensures StackOk(g, Advanced(stack), order)
  {
    forall i | 0 <= i < |stack| ensures FrameOk(g, Advanced(stack)[i], Above(Advanced(stack), i), order) {
      assert FrameOk(g, stack[i], Above(stack, i), order);
    }
  }

  /** The top frame takes its next dependency, met for the first time. */
  lemma DescendTop(g: Graph, stack: seq<Frame>, order: seq<Name>)
    requires StackOk(g, stack, order) && stack != []
    requires var f := stack[|stack| - 1];
      && f.name in g && f.next < |g[f.name].dependencies|
      && KindFits(g, f.name, g[f.name].dependencies[f.next])
      && g[f.name].dependencies[f.next] !in order && !OnStack(stack, g[f.name].dependencies[f.next])
    ensures var f := stack[|stack| - 1];
      StackOk(g, Advanced(stack) + [Frame(g[f.name].dependencies[f.next], 0)], order)
  {
    var f := stack[|stack| - 1];
    var after := Advanced(stack) + [Frame(g[f.name].dependencies[f.next], 0)];
    forall i | 0 <= i < |after| ensures FrameOk(g, after[i], Above(after, i), order) {
      if i < |stack| {
        assert FrameOk(g, stack[i], Above(stack, i), order);
      }
    }
  }

  lemma PushMarks(marks: map<Name, int>, stack: seq<Frame>, order: seq<Name>, b: Name)
    requires MarksOk(marks, stack, order) && Mark(marks, b) == 0
    ensures MarksOk(marks[b := 1], stack + [Frame(b, 0)], order)
    ensures forall name :: OnStack(stack + [Frame(b, 0)], name) <==> OnStack(stack, name) || name == b
  {
    var after := stack + [Frame(b, 0)];
    forall name ensures OnStack(after, name) <==> OnStack(stack, name) || name == b {
      if i :| 0 <= i < |stack| && stack[i].name == name {
        assert after[i].name == name;
      }
      assert after[|stack|].name == b;
    }
  }

  /** Every turn shrinks what is left to do. */
  lemma WorkShrinks(g: Graph, stack: seq<Frame>)
    requires stack != [] && stack[|stack| - 1].name in g
    ensures Work(g, Advanced(stack)) == Work(g, stack) - 1
  {
    assert Advanced(stack)[..|stack| - 1] == stack[..|stack| - 1];
  }

  function Unmarked(g: Graph, marks: map<Name, int>): set<Name> {
    set name | name in g && Mark(marks, name) == 0
  }

  /** The inner loop: everything reachable from `root` is finished, or a defect is found. */
  method Search(g: Graph, root: Name, marks0: map<Name, int>, ghost order0: seq<Name>)
    returns (defect: Option<Defect>, marks: map<Name, int>, ghost order: seq<Name>)
    requires root in g && Mark(marks0, root) == 0
    requires MarksOk(marks0, [], order0) && OrderOk(g, order0)
    ensures defect.Some? ==> Witnessed(g, defect.value)
    ensures defect.None? ==> MarksOk(marks, [], order) && OrderOk(g, order) && order0 <= order && root in order
  {
    var stack := [Frame(root, 0)];
    marks, order := marks0[root := 1], order0;
    PushMarks(marks0, [], order0, root);
    assert [] + stack == stack;
    defect := None;
    while stack != []
      invariant StackOk(g, stack, order) && MarksOk(marks, stack, order) && OrderOk(g, order) && order0 <= order
      invariant OnStack(stack, root) || root in order
      decreases Unmarked(g, marks), Work(g, stack)
    {
      var current := stack[|stack| - 1];
      assert FrameOk(g, current, Above(stack, |stack| - 1), order);
      var definition := g[current.name];
      ghost var unmarked := Unmarked(g, marks);
      NothingNegative(g, stack, order);
      if current.next == |definition.dependencies| {
        FinishTop(g, stack, order);
        FinishMarks(marks, stack, order);
        marks, order := marks[current.name := 2], order + [current.name];
        stack := stack[..|stack| - 1];
        assert Unmarked(g, marks) == unmarked;
        continue;
      }
      var dependency := definition.dependencies[current.next];
      assert Edge(g, current.name, dependency);
      if dependency !in g {
        return Some(Missing(dependency)), marks, order;
      }
      if definition.kind == "enum" && g[dependency].kind != "integer" {
        return Some(NotInteger(dependency)), marks, order;
      }
      if Mark(marks, dependency) == 1 {
        StackCloses(g, stack, order, dependency);
        return Some(Recursive(dependency)), marks, order;
      }
      WorkShrinks(g, stack);
      SameNames(stack, Advanced(stack));
      if Mark(marks, dependency) == 0 {
        DescendTop(g, stack, order);
        PushMarks(marks, Advanced(stack), order, dependency);
        marks, stack := marks[dependency := 1], Advanced(stack) + [Frame(dependency, 0)];
        assert dependency in unmarked && dependency !in Unmarked(g, marks);
      } else {
        AdvanceTop(g, stack, order);
        stack := Advanced(stack);
      }
    }
  }

  lemma NothingNegative(g: Graph, stack: seq<Frame>, order: seq<Name>)
    requires StackOk(g, stack, order)
    ensures Work(g, stack) >= 0
  {
    forall i | 0 <= i < |stack| ensures stack[i].name in g && stack[i].next <= |g[stack[i].name].dependencies| {
      assert FrameOk(g, stack[i], Above(stack, i), order);
    }
    WorkIsNatural(g, stack);
  }

  /** The whole check: the outer loop over the names, in any order. */
  method Check(g: Graph) returns (defect: Option<Defect>)
    ensures defect.None? <==> Sound(g)
    ensures defect.Some? ==> Witnessed(g, defect.value)
  {
    var marks: map<Name, int> := map[];
    ghost var order: seq<Name> := [];
    var todo := g.Keys;
    while todo != {}
      invariant todo <= g.Keys
      invariant MarksOk(marks, [], order) && OrderOk(g, order)
      invariant forall name :: name in g && name !in todo ==> name in order
      decreases todo
    {
      var name :| name in todo;
      todo := todo - {name};
      if Mark(marks, name) == 2 {
        continue;
      }
      assert !OnStack([], name);
      defect, marks, order := Search(g, name, marks, order);
      if defect.Some? {
        DefectsAreUnsound(g, defect.value);
        return;
      }
    }
    OrderMeansSound(g, order);
    defect := None;
  }
}
