/** `validateOutput`: the explicit-stack walk over an output value before it is serialized. */
module OutputCheck {
  import opened Prelude
  import opened Json
  import Utf8

  /** A container and how many of its children have been taken. */
  datatype Frame = Frame(value: Value, next: nat)

  predicate FrameOk(frame: Frame) {
    Container(frame.value) && frame.next <= Count(frame.value)
  }

  predicate ChildOf(parent: Frame, v: Value) {
    0 < parent.next <= Count(parent.value) && v == Child(parent.value, parent.next - 1)
  }

  predicate CurrentIs(root: Value, parents: seq<Frame>, current: Value) {
    if parents == [] then current == root else ChildOf(parents[|parents| - 1], current)
  }

  predicate LinkOk(root: Value, parents: seq<Frame>, i: nat)
    requires i < |parents|
  {
    FrameOk(parents[i]) && if i == 0 then parents[0].value == root else ChildOf(parents[i - 1], parents[i].value)
  }

  /** The stack is the chain of containers from the root down to the current node. */
  predicate Ancestors(root: Value, parents: seq<Frame>) {
    forall i :: 0 <= i < |parents| ==> LinkOk(root, parents, i)
  }

  /** What is still to be visited, below the lowest k frames, once the current node is done. */
  ghost function PendingTo(parents: seq<Frame>, k: nat): seq<Visit>
    requires k <= |parents|
    decreases k
  {
    if k == 0 then []
    else
      var parent := parents[k - 1];
      (if FrameOk(parent) then Below(parent.value, parent.next, k) else []) + PendingTo(parents, k - 1)
  }

  ghost function Pending(parents: seq<Frame>): seq<Visit> {
    PendingTo(parents, |parents|)
  }

  lemma {:induction false} PendingAgrees(a: seq<Frame>, b: seq<Frame>, k: nat)
    requires k <= |a| && k <= |b| && forall i :: 0 <= i < k ==> a[i] == b[i]
    ensures PendingTo(a, k) == PendingTo(b, k)
  {
    if k > 0 {
      PendingAgrees(a, b, k - 1);
    }
  }

  lemma Pushed(root: Value, parents: seq<Frame>, frame: Frame)
    requires Ancestors(root, parents) && FrameOk(frame) && CurrentIs(root, parents, frame.value)
    ensures Ancestors(root, parents + [frame])
    ensures Pending(parents + [frame]) == Below(frame.value, frame.next, |parents| + 1) + Pending(parents)
  {
    var more := parents + [frame];
    forall i | 0 <= i < |more| ensures LinkOk(root, more, i) {
      assert i < |parents| ==> LinkOk(root, parents, i);
    }
    PendingAgrees(more, parents, |parents|);
  }

  lemma Popped(root: Value, parents: seq<Frame>)
    requires Ancestors(root, parents) && parents != []
    ensures
      var rest, parent := parents[..|parents| - 1], parents[|parents| - 1];
      && Ancestors(root, rest) && FrameOk(parent) && CurrentIs(root, rest, parent.value)
      && Pending(parents) == Below(parent.value, parent.next, |parents|) + Pending(rest)
  {
    var rest := parents[..|parents| - 1];
    assert LinkOk(root, parents, |parents| - 1);
    forall i | 0 <= i < |rest| ensures LinkOk(root, rest, i) {
      assert LinkOk(root, parents, i);
    }
    PendingAgrees(parents, rest, |rest|);
  }

  /** Taking the n-th child: its key comes first, then the child, then the siblings after it. */
  lemma TakeChild(v: Value, n: nat, depth: nat, rest: seq<Visit>, maxDepth: nat)
    requires n < Count(v)
    ensures
      var before := Below(v, n, depth) + rest;
      var after := Preorder(Child(v, n), depth) + (Below(v, n + 1, depth) + rest);
      && |after| <= |before|
      && First(before, maxDepth) ==
         if v.Object? && !Utf8.WellFormed(v.members[n].key) then Some(InvalidUtf8) else First(after, maxDepth)
  {
    var key, child, siblings := KeyOf(v, n), Preorder(Child(v, n), depth), Below(v, n + 1, depth);
    Regroup(key, child, siblings, rest);
    KeyFirst(v, n, child + (siblings + rest), maxDepth);
  }

  lemma KeyFirst(v: Value, n: nat, after: seq<Visit>, maxDepth: nat)
    requires n < Count(v)
    ensures First(KeyOf(v, n) + after, maxDepth) ==
      if v.Object? && !Utf8.WellFormed(v.members[n].key) then Some(InvalidUtf8) else First(after, maxDepth)
  {
    FirstAppend(KeyOf(v, n), after, maxDepth);
    if v.Object? {
      SingleVisit(Key(v.members[n].key), maxDepth);
    }
  }

  /** The visits left when `current`, if any, comes next. */
  ghost function Left(parents: seq<Frame>, current: Option<Value>): seq<Visit> {
    (if current.Some? then Preorder(current.value, |parents|) else []) + Pending(parents)
  }

  /** The stack once the top container's next child is taken. */
  function Taken(parents: seq<Frame>): seq<Frame>
    requires parents != []
  {
    var parent := parents[|parents| - 1];
    parents[..|parents| - 1] + [Frame(parent.value, parent.next + 1)]
  }

  lemma TakenShape(root: Value, parents: seq<Frame>)
    requires Ancestors(root, parents) && parents != []
    requires var parent := parents[|parents| - 1]; parent.next < Count(parent.value)
    ensures
      var rest, parent := parents[..|parents| - 1], parents[|parents| - 1];
      && Ancestors(root, Taken(parents)) && CurrentIs(root, Taken(parents), Child(parent.value, parent.next))
      && Pending(parents) == Below(parent.value, parent.next, |parents|) + Pending(rest)
      && Pending(Taken(parents)) == Below(parent.value, parent.next + 1, |parents|) + Pending(rest)
  {
    Popped(root, parents);
    var rest, parent := parents[..|parents| - 1], parents[|parents| - 1];
    Pushed(root, rest, Frame(parent.value, parent.next + 1));
  }

  lemma TakenTop(root: Value, parents: seq<Frame>, maxDepth: nat)
    requires Ancestors(root, parents) && parents != []
    requires var parent := parents[|parents| - 1]; parent.next < Count(parent.value)
    ensures
      var parent := parents[|parents| - 1];
      var child := Some(Child(parent.value, parent.next));
      && |Left(Taken(parents), None)| <= |Left(Taken(parents), child)| <= |Pending(parents)|
      && First(Pending(parents), maxDepth) ==
         if parent.value.Object? && !Utf8.WellFormed(parent.value.members[parent.next].key) then Some(InvalidUtf8)
         else First(Left(Taken(parents), child), maxDepth)
  {
    TakenShape(root, parents);
    var parent := parents[|parents| - 1];
    TakeChild(parent.value, parent.next, |parents|, Pending(parents[..|parents| - 1]), maxDepth);
  }

  /** The top container has a child left: the child is taken, unless its key is invalid. */
  method Take(root: Value, parents0: seq<Frame>, maxDepth: nat)
    returns (parents: seq<Frame>, current: Option<Value>, error: Option<Code>)
    requires Ancestors(root, parents0) && parents0 != []
    requires var parent := parents0[|parents0| - 1]; parent.next < Count(parent.value)
    ensures Ancestors(root, parents) && (current.Some? ==> CurrentIs(root, parents, current.value))
    ensures current.None? <==> error.Some?
    ensures |Left(parents, current)| <= |Pending(parents0)|
    ensures First(Pending(parents0), maxDepth) ==
      if error.Some? then error else First(Left(parents, current), maxDepth)
  {
    TakenShape(root, parents0);
    TakenTop(root, parents0, maxDepth);
    var parent := parents0[|parents0| - 1];
    parents, current, error := Taken(parents0), Some(Child(parent.value, parent.next)), None;
    if parent.value.Object? {
      var ok := Utf8.ValidUtf8(parent.value.members[parent.next].key);
      if !ok {
        current, error := None, Some(InvalidUtf8);
      }
    }
  }

  /** The inner loop: pops exhausted containers until one has a child left, and takes that child. */
  method NextChild(root: Value, parents0: seq<Frame>, maxDepth: nat)
    returns (parents: seq<Frame>, current: Option<Value>, error: Option<Code>)
    requires Ancestors(root, parents0)
    ensures Ancestors(root, parents) && (current.Some? ==> CurrentIs(root, parents, current.value))
    ensures current.None? && error.None? ==> parents == []
    ensures |Left(parents, current)| <= |Pending(parents0)|
    ensures First(Pending(parents0), maxDepth) ==
      if error.Some? then error else First(Left(parents, current), maxDepth)
  {
    parents := parents0;
    while parents != []
      invariant Ancestors(root, parents)
      invariant Pending(parents0) == Pending(parents)
    {
      var parent := parents[|parents| - 1];
      if parent.next < Count(parent.value) {
        parents, current, error := Take(root, parents, maxDepth);
        return;
      }
      Popped(root, parents);
      parents := parents[..|parents| - 1];
    }
    current, error := None, None;
    assert Left(parents, current) == [];
  }

  /** The test made when a node is reached. */
  method CheckNode(current: Value, depth: nat, maxDepth: nat) returns (error: Option<Code>)
    ensures error == Violation(Node(current, depth), maxDepth)
  {
    if current.Text? {
      var ok := Utf8.ValidUtf8(current.text);
      return if ok then None else Some(InvalidUtf8);
    }
    if current.Double? && !current.number.Finite? {
      return Some(TypeMismatch);
    }
    return if Container(current) && depth == maxDepth then Some(DepthLimit) else None;
  }

  lemma NodeFirst(v: Value, depth: nat, rest: seq<Visit>, maxDepth: nat)
    ensures
      var after := Below(v, 0, depth + 1) + rest;
      && |Preorder(v, depth) + rest| == 1 + |after|
      && First(Preorder(v, depth) + rest, maxDepth) ==
         if Violation(Node(v, depth), maxDepth).Some? then Violation(Node(v, depth), maxDepth) else First(after, maxDepth)
  {
    var node, below := [Node(v, depth)], Below(v, 0, depth + 1);
    assert node + below + rest == node + (below + rest);
    FirstAppend(node, below + rest, maxDepth);
    SingleVisit(Node(v, depth), maxDepth);
  }

  /** The stack once the current node has been visited. */
  function Entered(parents: seq<Frame>, current: Value): seq<Frame> {
    if Container(current) then parents + [Frame(current, 0)] else parents
  }

  lemma EnteredNode(root: Value, parents: seq<Frame>, current: Value, maxDepth: nat)
    requires Ancestors(root, parents) && CurrentIs(root, parents, current)
    ensures
      var violation := Violation(Node(current, |parents|), maxDepth);
      && Ancestors(root, Entered(parents, current))
      && |Pending(Entered(parents, current))| < |Left(parents, Some(current))|
      && First(Left(parents, Some(current)), maxDepth) ==
         if violation.Some? then violation else First(Pending(Entered(parents, current)), maxDepth)
  {
    NodeFirst(current, |parents|, Pending(parents), maxDepth);
    if Container(current) {
      Pushed(root, parents, Frame(current, 0));
    } else {
      assert Below(current, 0, |parents| + 1) + Pending(parents) == Pending(parents);
    }
  }

  /** `validateOutput`: the error is that of the first violation in preorder. */
  method ValidateOutput(root: Value, maxDepth: nat) returns (error: Option<Code>)
    ensures error == First(Preorder(root, 0), maxDepth)
  {
    var parents: seq<Frame> := [];
    var current := root;
    assert Left(parents, Some(current)) == Preorder(root, 0);
    while true
      invariant Ancestors(root, parents) && CurrentIs(root, parents, current)
      invariant First(Preorder(root, 0), maxDepth) == First(Left(parents, Some(current)), maxDepth)
      decreases |Left(parents, Some(current))|
    {
      EnteredNode(root, parents, current, maxDepth);
      error := CheckNode(current, |parents|, maxDepth);
      if error.Some? {
        return;
      }
      if Container(current) {
        parents := parents + [Frame(current, 0)];
      }
      var next;
      parents, next, error := NextChild(root, parents, maxDepth);
      if error.Some? {
        return;
      }
      if next.None? {
        assert Left(parents, next) == [];
        return None;
      }
      current := next.value;
    }
  }
}
