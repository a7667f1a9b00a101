/** Mapping, filtering and concatenating a list in one: `flat_map`, and how it treats permutations. */
module Flatten {

  function Flat<T, U>(xs: seq<T>, f: T -> seq<U>): seq<U>
    decreases |xs|
  {
    if xs == [] then [] else Flat(xs[..|xs| - 1], f) + f(xs[|xs| - 1])
  }

  lemma FlatSnoc<T, U>(xs: seq<T>, x: T, f: T -> seq<U>)
    ensures Flat(xs + [x], f) == Flat(xs, f) + f(x)
  {
    assert (xs + [x])[..|xs|] == xs;
  }

  lemma {:induction false} FlatConcat<T, U>(xs: seq<T>, ys: seq<T>, f: T -> seq<U>)
    ensures Flat(xs + ys, f) == Flat(xs, f) + Flat(ys, f)
    decreases |ys|
  {
    if ys == [] {
      assert xs + ys == xs;
    } else {
      var init, last := ys[..|ys| - 1], ys[|ys| - 1];
      assert ys == init + [last] && xs + ys == (xs + init) + [last];
      FlatConcat(xs, init, f);
      FlatSnoc(xs + init, last, f);
      FlatSnoc(init, last, f);
    }
  }

  lemma {:induction false} FlatMember<T, U>(xs: seq<T>, f: T -> seq<U>, u: U)
    ensures u in Flat(xs, f) <==> exists i :: 0 <= i < |xs| && u in f(xs[i])
    decreases |xs|
  {
    if xs != [] {
      var init := xs[..|xs| - 1];
      FlatMember(init, f, u);
      assert forall i :: 0 <= i < |init| ==> init[i] == xs[i];
    }
  }

  /** Each item contributes what it does wherever it stands. */
  lemma {:induction false} FlatPermuted<T, U>(xs: seq<T>, ys: seq<T>, f: T -> seq<U>)
    requires multiset(xs) == multiset(ys)
    ensures multiset(Flat(xs, f)) == multiset(Flat(ys, f))
    decreases |xs|
  {
    if xs == [] {
      assert |ys| == |multiset(ys)| == 0;
    } else {
      var init, last := xs[..|xs| - 1], xs[|xs| - 1];
      assert xs == init + [last];
      assert last in multiset(ys);
      var j :| 0 <= j < |ys| && ys[j] == last;
      var rest := ys[..j] + ys[j + 1..];
      Removed(ys, j);
      assert multiset(xs) == multiset(init) + multiset{last};
      assert multiset(init) == multiset(xs) - multiset{last} == multiset(ys) - multiset{last} == multiset(rest);
      FlatPermuted(init, rest, f);
      FlatWithout(ys, j, f);
    }
  }

  lemma Removed<T>(ys: seq<T>, j: nat)
    requires j < |ys|
    ensures multiset(ys) == multiset(ys[..j] + ys[j + 1..]) + multiset{ys[j]}
  {
    assert ys == ys[..j] + [ys[j]] + ys[j + 1..];
  }

  lemma FlatWithout<T, U>(ys: seq<T>, j: nat, f: T -> seq<U>)
    requires j < |ys|
    ensures multiset(Flat(ys, f)) == multiset(Flat(ys[..j] + ys[j + 1..], f)) + multiset(f(ys[j]))
  {
    var before, after := ys[..j], ys[j + 1..];
    assert ys == (before + [ys[j]]) + after;
    FlatConcat(before + [ys[j]], after, f);
    FlatSnoc(before, ys[j], f);
    FlatConcat(before, after, f);
  }

  /** Only what the function does to the items at hand matters. */
  lemma {:induction false} FlatSame<T, U>(xs: seq<T>, f: T -> seq<U>, g: T -> seq<U>)
    requires forall i :: 0 <= i < |xs| ==> f(xs[i]) == g(xs[i])
    ensures Flat(xs, f) == Flat(xs, g)
    decreases |xs|
  {
    if xs != [] {
      FlatSame(xs[..|xs| - 1], f, g);
    }
  }

  lemma {:induction false} FlatEmpty<T, U>(xs: seq<T>, f: T -> seq<U>)
    requires forall i :: 0 <= i < |xs| ==> f(xs[i]) == []
    ensures Flat(xs, f) == []
    decreases |xs|
  {
    if xs != [] {
      FlatEmpty(xs[..|xs| - 1], f);
    }
  }
}
