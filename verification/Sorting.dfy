/** A stable sort by a comparison, as list.sort and sorted provide it. */
module Sorting {

  ghost predicate TotalOrder<T(!new)>(le: (T, T) -> bool) {
    && (forall a, b :: le(a, b) || le(b, a))
    && (forall a, b, c :: le(a, b) && le(b, c) ==> le(a, c))
  }

  predicate SortedBy<T>(s: seq<T>, le: (T, T) -> bool) {
    forall i, j :: 0 <= i < j < |s| ==> le(s[i], s[j])
  }

  function Insert<T>(x: T, s: seq<T>, le: (T, T) -> bool): seq<T> {
    if s == [] || le(x, s[0]) then [x] + s else [s[0]] + Insert(x, s[1..], le)
  }

  function Sort<T>(s: seq<T>, le: (T, T) -> bool): seq<T> {
    if s == [] then [] else Insert(s[0], Sort(s[1..], le), le)
  }

  lemma {:induction false} InsertAdds<T>(x: T, s: seq<T>, le: (T, T) -> bool)
    ensures multiset(Insert(x, s, le)) == multiset{x} + multiset(s) && |Insert(x, s, le)| == |s| + 1
    decreases |s|
  {
    if s != [] && !le(x, s[0]) {
      InsertAdds(x, s[1..], le);
      assert s == [s[0]] + s[1..];
    }
  }

  /** Below everything inserted into is below the result. */
  lemma InsertBounds<T>(low: T, x: T, s: seq<T>, le: (T, T) -> bool)
    requires le(low, x) && forall i :: 0 <= i < |s| ==> le(low, s[i])
    ensures forall y <- Insert(x, s, le) :: le(low, y)
  {
    InsertAdds(x, s, le);
    forall y | y in Insert(x, s, le)
      ensures le(low, y)
    {
      assert y in multiset(Insert(x, s, le));
      if y != x { assert y in multiset(s); assert y in s; }
    }
  }

  lemma PutInFront<T>(x: T, s: seq<T>, le: (T, T) -> bool)
    requires SortedBy(s, le) && forall y <- s :: le(x, y)
    ensures SortedBy([x] + s, le)
  {}

  lemma {:induction false} InsertSorts<T(!new)>(x: T, s: seq<T>, le: (T, T) -> bool)
    requires TotalOrder(le) && SortedBy(s, le)
    ensures SortedBy(Insert(x, s, le), le)
    decreases |s|
  {
    if s != [] && !le(x, s[0]) {
      InsertSorts(x, s[1..], le);
      InsertBounds(s[0], x, s[1..], le);
      PutInFront(s[0], Insert(x, s[1..], le), le);
    } else if s != [] {
      forall y | y in s
        ensures le(x, y)
      {
        var i :| 0 <= i < |s| && s[i] == y;
        assert i > 0 ==> le(s[0], s[i]);
      }
      PutInFront(x, s, le);
    }
  }

  lemma {:induction false} SortSorts<T(!new)>(s: seq<T>, le: (T, T) -> bool)
    requires TotalOrder(le)
    ensures SortedBy(Sort(s, le), le) && multiset(Sort(s, le)) == multiset(s) && |Sort(s, le)| == |s|
    decreases |s|
  {
    if s != [] {
      SortSorts(s[1..], le);
      InsertSorts(s[0], Sort(s[1..], le), le);
      InsertAdds(s[0], Sort(s[1..], le), le);
      assert s == [s[0]] + s[1..];
    }
  }

  /** The elements that compare equal to `x`, in order. */
  function Ties<T>(s: seq<T>, le: (T, T) -> bool, x: T): seq<T> {
    if s == [] then []
    else (if le(s[0], x) && le(x, s[0]) then [s[0]] else []) + Ties(s[1..], le, x)
  }

  lemma {:induction false} InsertIsStable<T(!new)>(a: T, s: seq<T>, le: (T, T) -> bool, x: T)
    requires TotalOrder(le)
    ensures Ties(Insert(a, s, le), le, x) == (if le(a, x) && le(x, a) then [a] else []) + Ties(s, le, x)
    decreases |s|
  {
    var t := Insert(a, s, le);
    if s == [] || le(a, s[0]) {
      assert t[0] == a && t[1..] == s;
    } else {
      assert t[0] == s[0] && t[1..] == Insert(a, s[1..], le);
      InsertIsStable(a, s[1..], le, x);
      assert le(a, x) && le(x, a) ==> !(le(s[0], x) && le(x, s[0]));
    }
  }

  /** The sort keeps elements that compare equal in their order. */
  lemma {:induction false} SortIsStable<T(!new)>(s: seq<T>, le: (T, T) -> bool, x: T)
    requires TotalOrder(le)
    ensures Ties(Sort(s, le), le, x) == Ties(s, le, x)
    decreases |s|
  {
    if s != [] {
      SortIsStable(s[1..], le, x);
      InsertIsStable(s[0], Sort(s[1..], le), le, x);
    }
  }

  predicate Distinct<T(==)>(s: seq<T>) {
    forall i, j :: 0 <= i < j < |s| ==> s[i] != s[j]
  }

  lemma SameMembers<T>(s: seq<T>, t: seq<T>)
    requires multiset(s) == multiset(t)
    ensures forall x :: x in t <==> x in s
  {
    forall x: T
      ensures x in t <==> x in s
    {
      assert x in t <==> x in multiset(t);
      assert x in s <==> x in multiset(s);
    }
  }

  /** Reordering keeps the members, and keeps them distinct. */
  lemma PermutationKeepsDistinct<T>(s: seq<T>, t: seq<T>)
    requires multiset(s) == multiset(t) && Distinct(s)
    ensures Distinct(t) && forall x :: x in t <==> x in s
  {
    SameMembers(s, t);
    forall i, j | 0 <= i < j < |t|
      ensures t[i] != t[j]
    {
      CountTwice(t, i, j);
      CountOnce(s, t[i]);
    }
  }

  lemma CountTwice<T>(s: seq<T>, i: nat, j: nat)
    requires i < j < |s|
    ensures s[i] == s[j] ==> multiset(s)[s[i]] >= 2
  {
    assert s == s[..i] + [s[i]] + s[i + 1..j] + [s[j]] + s[j + 1..];
  }

  lemma CountOnce<T>(s: seq<T>, x: T)
    requires Distinct(s)
    ensures multiset(s)[x] <= 1
  {
    if a :| 0 <= a < |s| && s[a] == x {
      assert s == s[..a] + [s[a]] + s[a + 1..];
      assert x !in s[..a] && x !in s[a + 1..];
    } else {
      assert x !in multiset(s);
    }
  }

  /** The order of strings by their characters' code points. */
  predicate StringLe(a: string, b: string) {
    a == "" || (b != "" && (a[0] < b[0] || (a[0] == b[0] && StringLe(a[1..], b[1..]))))
  }

  lemma {:induction false} StringLeIsTotal(a: string, b: string)
    ensures StringLe(a, b) || StringLe(b, a)
    ensures StringLe(a, b) && StringLe(b, a) ==> a == b
    decreases |a|
  {
    if a != "" && b != "" {
      StringLeIsTotal(a[1..], b[1..]);
      assert a == [a[0]] + a[1..] && b == [b[0]] + b[1..];
    }
  }

  lemma {:induction false} StringLeIsTransitive(a: string, b: string, c: string)
    requires StringLe(a, b) && StringLe(b, c)
    ensures StringLe(a, c)
    decreases |a|
  {
    if a != "" && a[0] == b[0] == c[0] { StringLeIsTransitive(a[1..], b[1..], c[1..]); }
  }
}
