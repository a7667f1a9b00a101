/** What several modules need of finite sets and of numbers. */
module Sets {

  function Least(a: nat, b: nat): nat {
    if a < b then a else b
  }

  lemma SubsetSize<T>(a: set<T>, b: set<T>)
    requires a <= b
    ensures |a| <= |b|
  {
    assert b == a + (b - a);
  }
}
