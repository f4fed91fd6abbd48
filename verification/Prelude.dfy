/** Shared vocabulary: optional values and duplicate-free sequences. */
module Prelude {

  datatype Option<+T> = None | Some(value: T)

  /** A string of octets, as held by `std::string`. */
  newtype byte = x: int | 0 <= x < 256
  type Bytes = seq<byte>

  /** A string literal as octets. */
  function Ascii(s: string): (text: Bytes)
    requires forall i :: 0 <= i < |s| ==> s[i] as int < 128
  {
    seq(|s|, i requires 0 <= i < |s| => s[i] as int as byte)
  }

  ghost predicate Distinct<T>(s: seq<T>) {
    forall i, j :: 0 <= i < j < |s| ==> s[i] != s[j]
  }

  function Elements<T>(s: seq<T>): set<T> {
    set x | x in s
  }

  lemma {:induction false} DistinctSize<T>(s: seq<T>)
    requires Distinct(s)
    ensures |Elements(s)| == |s|
  {
    if s != [] {
      var front, last := s[..|s| - 1], s[|s| - 1];
      DistinctSize(front);
      assert Elements(s) == Elements(front) + {last};
    }
  }

  /** `std::erase`: drops every occurrence. */
  function Erase<T(==)>(s: seq<T>, x: T): seq<T> {
    if s == [] then []
    else if s[0] == x then Erase(s[1..], x)
    else [s[0]] + Erase(s[1..], x)
  }

  lemma {:induction false} EraseAbsent<T>(s: seq<T>, x: T)
    requires x !in s
    ensures Erase(s, x) == s
  {
    if s != [] {
      EraseAbsent(s[1..], x);
    }
  }

  /** Erasing from a duplicate-free list removes exactly the one position that held the element. */
  lemma {:induction false} EraseAt<T>(s: seq<T>, p: nat)
    requires Distinct(s) && p < |s|
    ensures Erase(s, s[p]) == s[..p] + s[p + 1..]
  {
    if p == 0 {
      EraseAbsent(s[1..], s[0]);
    } else {
      EraseAt(s[1..], p - 1);
      assert s[1..][..p - 1] == s[1..p];
      assert s[1..][p..] == s[p + 1..];
    }
  }

  lemma EraseDistinct<T>(s: seq<T>, x: T)
    requires Distinct(s) && x in s
    ensures Distinct(Erase(s, x))
    ensures |Erase(s, x)| == |s| - 1
    ensures forall y :: y in Erase(s, x) <==> y in s && y != x
  {
    var p :| 0 <= p < |s| && s[p] == x;
    EraseAt(s, p);
    var r := s[..p] + s[p + 1..];
    forall y | y in s && y != x ensures y in r {
      var q :| 0 <= q < |s| && s[q] == y;
      assert if q < p then r[q] == y else r[q - 1] == y;
    }
  }

  lemma WholeSlice<T>(s: seq<T>)
    ensures s[..|s|] == s && s[..0] == []
  {}

  lemma SplitFirst<T>(s: seq<T>)
    requires s != []
    ensures s == [s[0]] + s[1..]
  {}

  lemma DropFirst<T>(x: T, a: seq<T>, b: seq<T>)
    ensures ([x] + a + b)[1..] == a + b
  {}

  lemma DropLast<T>(a: seq<T>, x: T)
    ensures (a + [x])[..|a + [x]| - 1] == a
  {}

  lemma Associate<T>(a: seq<T>, b: seq<T>, c: seq<T>)
    ensures a + b + c == a + (b + c)
  {}

  lemma Regroup<T>(a: seq<T>, b: seq<T>, c: seq<T>, d: seq<T>)
    ensures a + b + c + d == a + (b + (c + d))
  {}

  lemma AppendTwo<T>(s: seq<T>, x: T, y: T)
    ensures s + [x] + [y] == s + [x, y]
  {}

  lemma AppendThree<T>(s: seq<T>, x: T, y: T, z: T)
    ensures s + [x, y] + [z] == s + [x, y, z]
  {}

  lemma TailOfAppend<T>(s: seq<T>, t: seq<T>)
    requires s != []
    ensures (s + t)[0] == s[0] && (s + t)[1..] == s[1..] + t
  {}

  lemma PrefixNext<T>(r: seq<T>, x: T, s: seq<T>)
    ensures r + [x] <= s <==> r < s && s[|r|] == x
  {
    if r + [x] <= s {
      assert s[|r|] == (r + [x])[|r|];
    }
  }

  lemma SomeElement<T>(q: seq<T>, p: seq<T>)
    requires forall x :: x in q ==> x in p
    ensures q != [] ==> p != []
  {
    if q != [] {
      assert q[0] in q;
    }
  }
}
