/** The library's stable sort, and what makes its result unique. */
module Sorting {

  /** Every two values are comparable, and comparison is transitive. */
  ghost predicate Preorder<T(!new)>(le: (T, T) -> bool) {
    && (forall a, b :: le(a, b) || le(b, a))
    && (forall a, b, c :: le(a, b) && le(b, c) ==> le(a, c))
  }

  function Insert<T>(x: T, xs: seq<T>, le: (T, T) -> bool): seq<T> {
    if xs == [] || le(x, xs[0]) then [x] + xs else [xs[0]] + Insert(x, xs[1..], le)
  }

  function Sort<T>(xs: seq<T>, le: (T, T) -> bool): seq<T> {
    if xs == [] then [] else Insert(xs[0], Sort(xs[1..], le), le)
  }

  ghost predicate Sorted<T>(xs: seq<T>, le: (T, T) -> bool) {
    forall i, j :: 0 <= i < j < |xs| ==> le(xs[i], xs[j])
  }

  lemma {:induction false} InsertKeeps<T>(x: T, xs: seq<T>, le: (T, T) -> bool)
    ensures multiset(Insert(x, xs, le)) == multiset(xs) + multiset{x}
  {
    if xs == [] || le(x, xs[0]) {
    } else {
      InsertKeeps(x, xs[1..], le);
      assert xs == [xs[0]] + xs[1..];
    }
  }

  lemma PrependSorted<T>(x: T, xs: seq<T>, le: (T, T) -> bool)
    requires Sorted(xs, le) && forall y :: y in multiset(xs) ==> le(x, y)
    ensures Sorted([x] + xs, le)
  {
    var s := [x] + xs;
    forall i, j | 0 <= i < j < |s|
      ensures le(s[i], s[j])
    {
      assert s[j] == xs[j - 1] && xs[j - 1] in multiset(xs);
    }
  }

  lemma HeadLeast<T>(xs: seq<T>, le: (T, T) -> bool)
    requires Sorted(xs, le) && xs != []
    ensures Sorted(xs[1..], le) && forall y :: y in multiset(xs[1..]) ==> le(xs[0], y)
    ensures multiset(xs) == multiset{xs[0]} + multiset(xs[1..])
  {
    assert xs == [xs[0]] + xs[1..];
    forall y | y in multiset(xs[1..])
      ensures le(xs[0], y)
    {
      var i :| 0 <= i < |xs[1..]| && xs[1..][i] == y;
      assert xs[i + 1] == y;
    }
  }

  lemma {:induction false} InsertSorted<T(!new)>(x: T, xs: seq<T>, le: (T, T) -> bool)
    requires Preorder(le) && Sorted(xs, le)
    ensures Sorted(Insert(x, xs, le), le)
  {
    hide Sorted;
    if xs == [] {
      PrependSorted(x, xs, le) by {
        assert Sorted(xs, le);
      }
    } else {
      HeadLeast(xs, le);
      if le(x, xs[0]) {
        forall y | y in multiset(xs)
          ensures le(x, y)
        {
          assert le(xs[0], y);
        }
        PrependSorted(x, xs, le);
      } else {
        InsertSorted(x, xs[1..], le);
        InsertKeeps(x, xs[1..], le);
        PrependSorted(xs[0], Insert(x, xs[1..], le), le);
      }
    }
  }

  lemma {:induction false} SortKeeps<T>(xs: seq<T>, le: (T, T) -> bool)
    ensures multiset(Sort(xs, le)) == multiset(xs) && |Sort(xs, le)| == |xs|
  {
    if xs != [] {
      SortKeeps(xs[1..], le);
      InsertKeeps(xs[0], Sort(xs[1..], le), le);
      assert xs == [xs[0]] + xs[1..];
    }
    assert |multiset(Sort(xs, le))| == |multiset(xs)|;
  }

  lemma {:induction false} SortSorted<T(!new)>(xs: seq<T>, le: (T, T) -> bool)
    requires Preorder(le)
    ensures Sorted(Sort(xs, le), le)
  {
    if xs != [] {
      SortSorted(xs[1..], le);
      InsertSorted(xs[0], Sort(xs[1..], le), le);
    }
  }

  /** No two different members are equally good. */
  ghost predicate Antisymmetric<T>(m: multiset<T>, le: (T, T) -> bool) {
    forall x, y :: x in m && y in m && le(x, y) && le(y, x) ==> x == y
  }

  /** There is one sorted arrangement of the same members. */
  lemma {:induction false} SortedUnique<T>(a: seq<T>, b: seq<T>, le: (T, T) -> bool)
    requires Sorted(a, le) && Sorted(b, le) && multiset(a) == multiset(b) && Antisymmetric(multiset(a), le)
    ensures a == b
  {
    hide Sorted;
    assert |a| == |multiset(a)| == |multiset(b)| == |b|;
    if a != [] {
      SameLeast(a, b, le);
      HeadLeast(a, le);
      HeadLeast(b, le);
      SameTails(a, b);
      AntisymmetricTail(a, le);
      SortedUnique(a[1..], b[1..], le);
      assert a == [a[0]] + a[1..] && b == [b[0]] + b[1..];
    }
  }

  /** Two arrangements of the same members, without one of them. */
  lemma TailsMatch<T>(xs: seq<T>, ys: seq<T>, j: nat)
    requires multiset(xs) == multiset(ys) && xs != [] && j < |ys| && ys[j] == xs[0]
    ensures multiset(xs[1..]) == multiset(ys[..j] + ys[j + 1..])
  {
    var x, before, after := xs[0], ys[..j], ys[j + 1..];
    assert xs == [x] + xs[1..];
    assert ys == before + [x] + after;
    assert multiset(xs) == multiset{x} + multiset(xs[1..]);
    assert multiset(ys) == multiset(before) + multiset{x} + multiset(after);
    assert multiset(xs) - multiset{x} == multiset(xs[1..]);
    assert multiset(ys) - multiset{x} == multiset(before) + multiset(after);
  }

  lemma SameTails<T>(a: seq<T>, b: seq<T>)
    requires a != [] && b != [] && a[0] == b[0] && multiset(a) == multiset(b)
    ensures multiset(a[1..]) == multiset(b[1..])
  {
    TailsMatch(a, b, 0);
    assert b[..0] + b[1..] == b[1..];
  }

  lemma AntisymmetricTail<T>(a: seq<T>, le: (T, T) -> bool)
    requires Antisymmetric(multiset(a), le) && a != []
    ensures Antisymmetric(multiset(a[1..]), le)
  {
    assert a == [a[0]] + a[1..];
    assert forall x :: x in multiset(a[1..]) ==> x in multiset(a);
  }

  lemma SameLeast<T>(a: seq<T>, b: seq<T>, le: (T, T) -> bool)
    requires Sorted(a, le) && Sorted(b, le) && multiset(a) == multiset(b) && Antisymmetric(multiset(a), le)
    requires a != [] && b != []
    ensures a[0] == b[0]
  {
    assert b[0] in multiset(a) && a[0] in multiset(b);
    var i :| 0 <= i < |a| && a[i] == b[0];
    var j :| 0 <= j < |b| && b[j] == a[0];
  }

  /** Sorting forgets the order it was given, when no two different members are equally good. */
  lemma SortPermuted<T(!new)>(xs: seq<T>, ys: seq<T>, le: (T, T) -> bool)
    requires Preorder(le) && multiset(xs) == multiset(ys) && Antisymmetric(multiset(xs), le)
    ensures Sort(xs, le) == Sort(ys, le)
  {
    SortKeeps(xs, le);
    SortKeeps(ys, le);
    SortSorted(xs, le);
    SortSorted(ys, le);
    SortedUnique(Sort(xs, le), Sort(ys, le), le);
  }

  // ── Distinct keys ───────────────────────────────────────────────────

  ghost predicate DistinctBy<T, K>(xs: seq<T>, key: T -> K) {
    forall i, j :: 0 <= i < j < |xs| ==> key(xs[i]) != key(xs[j])
  }

  lemma KeyTells<T, K>(xs: seq<T>, key: T -> K, x: T, y: T)
    requires DistinctBy(xs, key) && x in xs && y in xs && key(x) == key(y)
    ensures x == y
  {
    var i :| 0 <= i < |xs| && xs[i] == x;
    var j :| 0 <= j < |xs| && xs[j] == y;
  }

  lemma {:induction false} ListedOnce<T, K>(xs: seq<T>, key: T -> K, x: T)
    requires DistinctBy(xs, key)
    ensures multiset(xs)[x] == if x in xs then 1 else 0
  {
    if xs != [] {
      assert xs == [xs[0]] + xs[1..];
      ListedOnce(xs[1..], key, x);
    }
  }

  lemma ListedTwice<T>(xs: seq<T>, i: nat, j: nat)
    requires i < j < |xs| && xs[i] == xs[j]
    ensures multiset(xs)[xs[i]] >= 2
  {
    assert xs == (xs[..i] + [xs[i]]) + (xs[i + 1..j] + [xs[j]] + xs[j + 1..]);
  }

  lemma DistinctPermuted<T, K>(xs: seq<T>, ys: seq<T>, key: T -> K)
    requires DistinctBy(xs, key) && multiset(xs) == multiset(ys)
    ensures DistinctBy(ys, key)
  {
    forall i, j | 0 <= i < j < |ys|
      ensures key(ys[i]) != key(ys[j])
    {
      if key(ys[i]) == key(ys[j]) {
        assert ys[i] in multiset(xs) && ys[j] in multiset(xs);
        KeyTells(xs, key, ys[i], ys[j]);
        ListedTwice(ys, i, j);
        ListedOnce(xs, key, ys[i]);
      }
    }
  }

  /** Two lists of distinct things with the same members are permutations of each other. */
  lemma SameMembers<T, K>(xs: seq<T>, ys: seq<T>, key: T -> K)
    requires DistinctBy(xs, key) && DistinctBy(ys, key) && forall x :: x in xs <==> x in ys
    ensures multiset(xs) == multiset(ys)
  {
    forall x
      ensures multiset(xs)[x] == multiset(ys)[x]
    {
      ListedOnce(xs, key, x);
      ListedOnce(ys, key, x);
    }
  }
}
