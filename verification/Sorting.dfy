// Orders, an in-place sort, and why sorting by a total order has only one outcome.

module Sorting {

  ghost predicate TotalPreorder<T(!new)>(le: (T, T) -> bool) {
    && (forall x, y :: le(x, y) || le(y, x))
    && (forall x, y, z :: le(x, y) && le(y, z) ==> le(x, z))
  }

  ghost predicate SortedBy<T>(le: (T, T) -> bool, s: seq<T>) {
    forall i, j :: 0 <= i < j < |s| ==> le(s[i], s[j])
  }

  /** Two elements of `s` that rank equally are the same element. */
  ghost predicate AntisymmetricOn<T>(le: (T, T) -> bool, s: seq<T>) {
    forall x, y :: x in s && y in s && le(x, y) && le(y, x) ==> x == y
  }

  // ----- sequences seen as multisets -----

  lemma SameElements<T>(s: seq<T>, t: seq<T>)
    requires multiset(s) == multiset(t)
    ensures |s| == |t|
    ensures forall x :: x in s <==> x in t
  {
    assert |multiset(s)| == |multiset(t)|;
    forall x ensures x in s <==> x in t {
      assert x in s <==> x in multiset(s);
      assert x in t <==> x in multiset(t);
    }
  }

  /** A list sorted by an order that ranks its elements strictly is determined by its elements. */
  lemma {:induction false} SortedUnique<T(!new)>(le: (T, T) -> bool, s: seq<T>, t: seq<T>)
    requires TotalPreorder(le) && AntisymmetricOn(le, s)
    requires SortedBy(le, s) && SortedBy(le, t)
    requires multiset(s) == multiset(t)
    ensures s == t
  {
    SameElements(s, t);
    if s != [] {
      SameHead(le, s, t);
      HeadAndTail(s);
      HeadAndTail(t);
      SortedUnique(le, s[1..], t[1..]);
    }
  }

  lemma HeadAndTail<T>(s: seq<T>)
    requires s != []
    ensures s == [s[0]] + s[1..] && multiset(s[1..]) == multiset(s) - multiset{s[0]}
    ensures forall x :: x in s[1..] ==> x in s
  {
  }

  lemma SameHead<T(!new)>(le: (T, T) -> bool, s: seq<T>, t: seq<T>)
    requires TotalPreorder(le) && AntisymmetricOn(le, s)
    requires SortedBy(le, s) && SortedBy(le, t)
    requires s != [] && t != [] && s[0] in t && t[0] in s
    ensures s[0] == t[0]
  {
  }

  // ----- the sort -----

  /** Sorts an array in place, as sort.Strings and sort.Slice do with the slice they are given. */
  method SortInPlace<T(!new)>(a: array<T>, le: (T, T) -> bool)
    requires TotalPreorder(le)
    modifies a
    ensures SortedBy(le, a[..])
    ensures multiset(a[..]) == multiset(old(a[..]))
  {
    var i := 0;
    while i < a.Length
      invariant 0 <= i <= a.Length
      invariant SortedBy(le, a[..i])
      invariant multiset(a[..]) == multiset(old(a[..]))
    {
      SinkLast(a, le, i);
      i := i + 1;
    }
    assert a[..i] == a[..];
  }

  /** Moves a[n] down into the sorted part a[..n]. */
  method SinkLast<T(!new)>(a: array<T>, le: (T, T) -> bool, n: nat)
    requires TotalPreorder(le)
    requires n < a.Length && SortedBy(le, a[..n])
    modifies a
    ensures SortedBy(le, a[..n + 1])
    ensures multiset(a[..]) == multiset(old(a[..]))
  {
    var j := n;
    assert SortedExcept(le, a[..n + 1], j);
    while j > 0 && !le(a[j - 1], a[j])
      invariant 0 <= j <= n
      invariant SortedExcept(le, a[..n + 1], j)
      invariant multiset(a[..]) == multiset(old(a[..]))
    {
      ghost var before := a[..n + 1];
      a[j - 1], a[j] := a[j], a[j - 1];
      assert a[..n + 1] == before[j - 1 := before[j]][j := before[j - 1]];
      j := j - 1;
    }
    Settled(le, a[..n + 1], j);
  }

  /** Sorted if the element at `j` is disregarded as a right neighbour. */
  ghost predicate SortedExcept<T>(le: (T, T) -> bool, s: seq<T>, j: int) {
    forall p, q :: 0 <= p < q < |s| && q != j ==> le(s[p], s[q])
  }

  lemma Settled<T(!new)>(le: (T, T) -> bool, s: seq<T>, j: int)
    requires TotalPreorder(le) && 0 <= j < |s| && SortedExcept(le, s, j)
    requires j > 0 ==> le(s[j - 1], s[j])
    ensures SortedBy(le, s)
  {
  }

  // ----- lexicographic order of strings -----

  predicate StringLe(a: string, b: string) {
    a == [] || (b != [] && (a[0] < b[0] || (a[0] == b[0] && StringLe(a[1..], b[1..]))))
  }

  lemma StringLeTotal(a: string, b: string)
    ensures StringLe(a, b) || StringLe(b, a)
  {
  }

  lemma {:induction false} StringLeAntisymmetric(a: string, b: string)
    requires StringLe(a, b) && StringLe(b, a)
    ensures a == b
  {
    if a != [] {
      StringLeAntisymmetric(a[1..], b[1..]);
      assert a == [a[0]] + a[1..] && b == [b[0]] + b[1..];
    }
  }

  lemma StringLeTransitive(a: string, b: string, c: string)
    requires StringLe(a, b) && StringLe(b, c)
    ensures StringLe(a, c)
  {
  }

  /** At the first character that differs the smaller one comes first. */
  lemma {:induction false} SmallerCharacterFirst(a: string, b: string, i: nat)
    requires i < |a| && i < |b| && a[..i] == b[..i] && a[i] < b[i]
    ensures StringLe(a, b) && !StringLe(b, a)
  {
    if i > 0 {
      assert a[0] == a[..i][0] == b[..i][0] == b[0];
      assert a[1..][..i - 1] == a[..i][1..] == b[..i][1..] == b[1..][..i - 1];
      SmallerCharacterFirst(a[1..], b[1..], i - 1);
    }
  }

  /** What a text starts with comes before it. */
  lemma {:induction false} ShorterFirst(a: string, b: string)
    requires a <= b && a != b
    ensures StringLe(a, b) && !StringLe(b, a)
  {
    if a != [] {
      assert a[0] == b[0] && a[1..] <= b[1..];
      assert a == [a[0]] + a[1..] && b == [b[0]] + b[1..];
      ShorterFirst(a[1..], b[1..]);
    }
  }

  const BY_NAME: (string, string) -> bool := (a, b) => StringLe(a, b)

  lemma StringOrder()
    ensures TotalPreorder(BY_NAME)
  {
    forall x, y ensures BY_NAME(x, y) || BY_NAME(y, x) {
      StringLeTotal(x, y);
    }
    forall x, y, z | BY_NAME(x, y) && BY_NAME(y, z) ensures BY_NAME(x, z) {
      StringLeTransitive(x, y, z);
    }
  }

  lemma StringsRankStrictly(s: seq<string>)
    ensures AntisymmetricOn(BY_NAME, s)
  {
    forall x, y | BY_NAME(x, y) && BY_NAME(y, x) ensures x == y {
      StringLeAntisymmetric(x, y);
    }
  }
}
