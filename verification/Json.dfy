/** JSON values as a tree, the order in which their nodes are visited, and what an acceptable
    output value is. */
module Json {
  import opened Prelude
  import Utf8

  /** A double: finite ones as exact reals. */
  datatype Number = Finite(value: real) | NotANumber | Infinite(negative: bool)

  type int64 = x: int | -0x8000_0000_0000_0000 <= x < 0x8000_0000_0000_0000
  type uint64 = x: int | 0 <= x < 0x1_0000_0000_0000_0000

  datatype Value =
    | Null
    | Bool(flag: bool)
    | Int64(signed: int64)
    | Uint64(unsigned: uint64)
    | Double(number: Number)
    | Text(text: Bytes)
    | Array(items: seq<Value>)
    | Object(members: seq<Member>)

  datatype Member = Member(key: Bytes, value: Value)

  datatype Code =
    | InvalidJson | DuplicateKey | InvalidUtf8 | TypeMismatch | DepthLimit | DocumentLimit
    | AllocationLimit | Unavailable | InvalidDataSource | InternalError

  predicate Container(v: Value) {
    v.Array? || v.Object?
  }

  function Count(v: Value): nat {
    match v
    case Array(items) => |items|
    case Object(members) => |members|
    case _ => 0
  }

  function Child(v: Value, n: nat): (c: Value)
    requires n < Count(v)
    ensures c < v
  {
    if v.Array? then v.items[n] else v.members[n].value
  }

  // ----- Preorder -----

  /** A node, with the number of containers around it, or the key in front of a member. */
  datatype Visit = Node(value: Value, depth: nat) | Key(key: Bytes)

  function KeyOf(v: Value, n: nat): seq<Visit>
    requires n < Count(v)
  {
    if v.Object? then [Key(v.members[n].key)] else []
  }

  function Preorder(v: Value, depth: nat): seq<Visit>
    decreases v, Count(v) + 1
  {
    [Node(v, depth)] + Below(v, 0, depth + 1)
  }

  /** The children from the n-th on. */
  function Below(v: Value, n: nat, depth: nat): seq<Visit>
    requires n <= Count(v)
    decreases v, Count(v) - n
  {
    if n == Count(v) then []
    else KeyOf(v, n) + Preorder(Child(v, n), depth) + Below(v, n + 1, depth)
  }

  // ----- What is wrong with an output value -----

  ghost function Violation(visit: Visit, maxDepth: nat): Option<Code> {
    match visit
    case Key(key) => if Utf8.WellFormed(key) then None else Some(InvalidUtf8)
    case Node(Text(text), _) => if Utf8.WellFormed(text) then None else Some(InvalidUtf8)
    case Node(Double(number), _) => if number.Finite? then None else Some(TypeMismatch)
    case Node(v, depth) => if Container(v) && depth == maxDepth then Some(DepthLimit) else None
  }

  /** The first violation in visiting order. */
  ghost function First(visits: seq<Visit>, maxDepth: nat): Option<Code> {
    if visits == [] then None
    else
      var violation := Violation(visits[0], maxDepth);
      if violation.Some? then violation else First(visits[1..], maxDepth)
  }

  lemma {:induction false} FirstAppend(a: seq<Visit>, b: seq<Visit>, maxDepth: nat)
    ensures First(a + b, maxDepth) == (var f := First(a, maxDepth); if f.Some? then f else First(b, maxDepth))
  {
    if a == [] {
      assert a + b == b;
    } else {
      FirstAppend(a[1..], b, maxDepth);
      assert (a + b)[1..] == a[1..] + b;
    }
  }

  /** All strings and keys are valid UTF-8 and all doubles are finite. */
  ghost predicate Clean(v: Value)
    decreases v
  {
    match v
    case Text(text) => Utf8.WellFormed(text)
    case Double(number) => number.Finite?
    case Array(items) => forall i :: 0 <= i < |items| ==> Clean(items[i])
    case Object(members) =>
      forall i :: 0 <= i < |members| ==> Utf8.WellFormed(members[i].key) && Clean(members[i].value)
    case _ => true
  }

  /** The containers on the longest way down. */
  function Nesting(v: Value): nat
    decreases v, Count(v) + 1
  {
    if Container(v) then 1 + NestingBelow(v, 0) else 0
  }

  function NestingBelow(v: Value, n: nat): (depth: nat)
    requires n <= Count(v)
    decreases v, Count(v) - n
  {
    if n == Count(v) then 0 else Max(Nesting(Child(v, n)), NestingBelow(v, n + 1))
  }

  function Max(a: nat, b: nat): nat {
    if a < b then b else a
  }

  ghost predicate CleanBelow(v: Value, n: nat)
    requires n <= Count(v)
  {
    forall i :: n <= i < Count(v) ==> (v.Object? ==> Utf8.WellFormed(v.members[i].key)) && Clean(Child(v, i))
  }

  /** Nothing is violated exactly when all text is valid, all doubles are finite and the nesting
      stays within the limit. */
  lemma {:induction false} AcceptedIff(v: Value, depth: nat, maxDepth: nat)
    requires depth <= maxDepth
    ensures First(Preorder(v, depth), maxDepth).None? <==> Clean(v) && depth + Nesting(v) <= maxDepth
    decreases v, Count(v) + 1
  {
    FirstAppend([Node(v, depth)], Below(v, 0, depth + 1), maxDepth);
    SingleVisit(Node(v, depth), maxDepth);
    if Container(v) && depth < maxDepth {
      BelowAcceptedIff(v, 0, depth + 1, maxDepth);
      CleanFromFirstChild(v);
    }
  }

  lemma CleanFromFirstChild(v: Value)
    requires Container(v)
    ensures Clean(v) <==> CleanBelow(v, 0)
  {
    if v.Array? {
      assert forall i :: 0 <= i < Count(v) ==> Child(v, i) == v.items[i];
    } else {
      assert forall i :: 0 <= i < Count(v) ==> Child(v, i) == v.members[i].value;
    }
  }

  lemma SingleVisit(visit: Visit, maxDepth: nat)
    ensures First([visit], maxDepth) == Violation(visit, maxDepth)
  {
    assert [visit][1..] == [];
  }

  /** The n-th child and its key, and what comes after. */
  lemma ChildFirst(v: Value, n: nat, depth: nat, maxDepth: nat)
    requires n < Count(v)
    ensures First(Below(v, n, depth), maxDepth).None? <==>
      && (v.Object? ==> Utf8.WellFormed(v.members[n].key))
      && First(Preorder(Child(v, n), depth), maxDepth).None?
      && First(Below(v, n + 1, depth), maxDepth).None?
  {
    var child := Preorder(Child(v, n), depth);
    FirstAppend(KeyOf(v, n) + child, Below(v, n + 1, depth), maxDepth);
    FirstAppend(KeyOf(v, n), child, maxDepth);
    if v.Object? {
      SingleVisit(Key(v.members[n].key), maxDepth);
    }
  }

  lemma CleanFromChild(v: Value, n: nat)
    requires n < Count(v)
    ensures CleanBelow(v, n) <==>
      (v.Object? ==> Utf8.WellFormed(v.members[n].key)) && Clean(Child(v, n)) && CleanBelow(v, n + 1)
  {}

  lemma {:induction false} BelowAcceptedIff(v: Value, n: nat, depth: nat, maxDepth: nat)
    requires n <= Count(v) && depth <= maxDepth
    ensures First(Below(v, n, depth), maxDepth).None? <==> CleanBelow(v, n) && depth + NestingBelow(v, n) <= maxDepth
    decreases v, Count(v) - n
  {
    if n < Count(v) {
      AcceptedIff(Child(v, n), depth, maxDepth);
      BelowAcceptedIff(v, n + 1, depth, maxDepth);
      ChildFirst(v, n, depth, maxDepth);
      CleanFromChild(v, n);
    }
  }

  // ----- What the first violation says -----

  /** The code names something that is really there: text or a key that is not UTF-8, a double that
      is not finite, or a container with no room left for it. */
  ghost predicate Blamed(code: Code, v: Value, room: int)
    decreases v
  {
    match v
    case Text(text) => code == InvalidUtf8 && !Utf8.WellFormed(text)
    case Double(number) => code == TypeMismatch && !number.Finite?
    case Array(items) =>
      (code == DepthLimit && room == 0) || exists i :: 0 <= i < |items| && Blamed(code, items[i], room - 1)
    case Object(members) =>
      || (code == DepthLimit && room == 0)
      || (code == InvalidUtf8 && exists i :: 0 <= i < |members| && !Utf8.WellFormed(members[i].key))
      || exists i :: 0 <= i < |members| && Blamed(code, members[i].value, room - 1)
    case _ => false
  }

  lemma {:induction false} FirstIsBlamed(v: Value, depth: nat, maxDepth: nat, code: Code)
    requires First(Preorder(v, depth), maxDepth) == Some(code)
    ensures Blamed(code, v, maxDepth - depth)
    decreases v, Count(v) + 1
  {
    FirstAppend([Node(v, depth)], Below(v, 0, depth + 1), maxDepth);
    SingleVisit(Node(v, depth), maxDepth);
    if Violation(Node(v, depth), maxDepth).None? {
      BelowIsBlamed(v, 0, depth + 1, maxDepth, code);
    }
  }

  lemma {:induction false} BelowIsBlamed(v: Value, n: nat, depth: nat, maxDepth: nat, code: Code)
    requires n <= Count(v) && First(Below(v, n, depth), maxDepth) == Some(code)
    ensures Blamed(code, v, maxDepth - depth + 1)
    decreases v, Count(v) - n
  {
    if n < Count(v) {
      var child := Preorder(Child(v, n), depth);
      FirstAppend(KeyOf(v, n) + child, Below(v, n + 1, depth), maxDepth);
      FirstAppend(KeyOf(v, n), child, maxDepth);
      if v.Object? {
        SingleVisit(Key(v.members[n].key), maxDepth);
      }
      if First(KeyOf(v, n), maxDepth).Some? {
        assert v.Object? && !Utf8.WellFormed(v.members[n].key);
      } else if First(child, maxDepth).Some? {
        FirstIsBlamed(Child(v, n), depth, maxDepth, code);
      } else {
        BelowIsBlamed(v, n + 1, depth, maxDepth, code);
      }
    }
  }
}
