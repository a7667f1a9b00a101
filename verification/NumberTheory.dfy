/** The number theory behind the primality test: Euclid's lemma, Fermat's little theorem and the square
    roots of one modulo a prime. */
module NumberTheory {
  import Sorting

  predicate Divides(d: int, n: int)
    requires d != 0
  {
    n % d == 0
  }

  predicate Prime(p: nat) {
    p >= 2 && forall d :: 2 <= d < p ==> !Divides(d, p)
  }

  function Pow(b: nat, e: nat): nat {
    if e == 0 then 1 else b * Pow(b, e - 1)
  }

  /** The library's `modpow`. */
  function ModPow(b: nat, e: nat, n: nat): nat
    requires n > 0
  {
    Pow(b, e) % n
  }

  // ── Remainders ──────────────────────────────────────────────────────

  lemma {:induction false} ModPlus(x: int, k: int, n: int)
    requires n > 0
    ensures (x + k * n) % n == x % n
  {
    var q, r := x / n, x % n;
    assert x + k * n == (q + k) * n + r;
    ModUnique(x + k * n, q + k, r, n);
  }

  lemma QuotientUnique(q: int, r: int, q': int, r': int, n: int)
    requires q * n + r == q' * n + r' && 0 <= r < n && 0 <= r' < n
    ensures q == q' && r == r'
  {
    assert (q - q') * n == q * n - q' * n && (q' - q) * n == q' * n - q * n;
    if q > q' {
      AtLeastOnce(q - q', n);
    } else if q < q' {
      AtLeastOnce(q' - q, n);
    }
  }

  lemma AtLeastOnce(k: int, n: int)
    requires k >= 1 && n > 0
    ensures k * n >= n
  {
  }

  lemma ModUnique(x: int, q: int, r: int, n: int)
    requires x == q * n + r && 0 <= r < n
    ensures x / n == q && x % n == r
  {
    QuotientUnique(q, r, x / n, x % n, n);
  }

  /** A number smaller than the modulus. */
  lemma ModSmall(r: int, n: int)
    requires 0 <= r < n
    ensures r % n == r
  {
    ModUnique(r, 0, r, n);
  }

  lemma MultipleDivides(k: int, n: int)
    requires n > 0
    ensures Divides(n, k * n) && Divides(n, n * k)
  {
    ModPlus(0, k, n);
    assert k * n == n * k;
  }

  lemma DividesMultiple(n: int, x: int, k: int)
    requires n > 0 && Divides(n, x)
    ensures Divides(n, x * k) && Divides(n, k * x)
  {
    var q := x / n;
    assert x == q * n;
    assert x * k == (q * k) * n && k * x == x * k;
    MultipleDivides(q * k, n);
  }

  lemma DividesDifference(n: int, x: int, y: int)
    requires n > 0
    ensures Divides(n, x - y) <==> x % n == y % n
  {
    var k, r := x / n - y / n, x % n - y % n;
    assert x - y == r + k * n by {
      assert x == (x / n) * n + x % n && y == (y / n) * n + y % n;
      assert k * n == (x / n) * n - (y / n) * n;
    }
    ModPlus(r, k, n);
    if r >= 0 {
      ModSmall(r, n);
    } else {
      ModUnique(r, -1, r + n, n);
    }
  }

  lemma ModMul(a: int, b: int, n: int)
    requires n > 0
    ensures (a * b) % n == ((a % n) * b) % n == ((a % n) * (b % n)) % n
  {
    var qa, qb, ra, rb := a / n, b / n, a % n, b % n;
    assert a == qa * n + ra && b == qb * n + rb;
    assert a * b == ra * b + (qa * b) * n by {
      assert (qa * n + ra) * b == (qa * n) * b + ra * b;
      assert (qa * n) * b == (qa * b) * n;
    }
    ModPlus(ra * b, qa * b, n);
    assert ra * b == ra * rb + (ra * qb) * n by {
      assert ra * (qb * n + rb) == ra * (qb * n) + ra * rb;
      assert ra * (qb * n) == (ra * qb) * n;
    }
    ModPlus(ra * rb, ra * qb, n);
  }

  // ── Euclid's lemma ──────────────────────────────────────────────────

  /** By the remainders of `p`: from a divisor candidate `a` to the smaller `p % a`. */
  lemma {:induction false} EuclidBelow(p: nat, a: nat, b: int)
    requires Prime(p) && 0 < a < p && Divides(p, a * b)
    ensures Divides(p, b)
    decreases a
  {
    if a > 1 {
      var q, r := p / a, p % a;
      assert !Divides(a, p);
      assert r * b == p * b - q * (a * b) by {
        assert p == q * a + r;
        assert (q * a + r) * b == (q * a) * b + r * b;
        assert (q * a) * b == q * (a * b);
      }
      MultipleDivides(b, p);
      DividesMultiple(p, a * b, q);
      DividesDifference(p, p * b, q * (a * b));
      EuclidBelow(p, r, b);
    }
  }

  lemma Euclid(p: nat, a: nat, b: int)
    requires Prime(p) && Divides(p, a * b)
    ensures Divides(p, a) || Divides(p, b)
  {
    if !Divides(p, a) {
      ModMul(a, b, p);
      EuclidBelow(p, a % p, b);
    }
  }

  /** A factor prime to `p` cancels. */
  lemma Cancel(p: nat, c: nat, x: int, y: int)
    requires Prime(p) && !Divides(p, c) && (c * x) % p == (c * y) % p
    ensures x % p == y % p
  {
    DividesDifference(p, c * x, c * y);
    assert c * x - c * y == c * (x - y);
    Euclid(p, c, x - y);
    DividesDifference(p, x, y);
  }

  // ── Fermat's little theorem ─────────────────────────────────────────

  function Product(xs: seq<nat>): nat {
    if xs == [] then 1 else xs[0] * Product(xs[1..])
  }

  lemma {:induction false} ProductSplit(xs: seq<nat>, ys: seq<nat>)
    ensures Product(xs + ys) == Product(xs) * Product(ys)
  {
    if xs == [] {
      assert xs + ys == ys;
    } else {
      assert (xs + ys)[1..] == xs[1..] + ys;
      ProductSplit(xs[1..], ys);
      assert xs[0] * (Product(xs[1..]) * Product(ys)) == (xs[0] * Product(xs[1..])) * Product(ys);
    }
  }

  lemma ProductWithout(ys: seq<nat>, j: nat)
    requires j < |ys|
    ensures Product(ys) == ys[j] * Product(ys[..j] + ys[j + 1..])
  {
    var before, y, after := ys[..j], ys[j], ys[j + 1..];
    assert ys == before + ([y] + after) && ([y] + after)[1..] == after;
    ProductSplit(before, [y] + after);
    ProductSplit(before, after);
    Shuffle(1, Product(before), y, Product(after));
  }

  /** A product does not depend on the order of its factors. */
  lemma {:induction false} ProductPermuted(xs: seq<nat>, ys: seq<nat>)
    requires multiset(xs) == multiset(ys)
    ensures Product(xs) == Product(ys)
    decreases |xs|
  {
    if xs == [] {
      assert |ys| == |multiset(ys)| == 0;
    } else {
      assert xs[0] in multiset(ys);
      var j :| 0 <= j < |ys| && ys[j] == xs[0];
      Sorting.TailsMatch(xs, ys, j);
      ProductPermuted(xs[1..], ys[..j] + ys[j + 1..]);
      ProductWithout(ys, j);
    }
  }

  function UpTo(n: nat): (xs: seq<nat>)
    ensures |xs| == n && forall i :: 0 <= i < n ==> xs[i] == i + 1
  {
    seq(n, i requires 0 <= i < n => i + 1)
  }

  function Scaled(a: nat, xs: seq<nat>, p: nat): (ys: seq<nat>)
    requires p > 0
    ensures |ys| == |xs| && forall i :: 0 <= i < |xs| ==> ys[i] == (a * xs[i]) % p
  {
    seq(|xs|, i requires 0 <= i < |xs| => (a * xs[i]) % p)
  }

  lemma {:induction false} ScaledProduct(a: nat, xs: seq<nat>, p: nat)
    requires p > 0
    ensures Product(Scaled(a, xs, p)) % p == (Pow(a, |xs|) * Product(xs)) % p
  {
    if xs != [] {
      var x, rest := xs[0], xs[1..];
      var ys := Scaled(a, xs, p);
      assert ys[1..] == Scaled(a, rest, p);
      ScaledProduct(a, rest, p);
      var c, d := Product(ys[1..]), Pow(a, |rest|) * Product(rest);
      assert c % p == d % p;
      ModMul(a * x, c, p);
      assert (a * x) * d == (a * Pow(a, |rest|)) * (x * Product(rest)) by {
        Shuffle(a, x, Pow(a, |rest|), Product(rest));
      }
      assert ((a * x) % p * c) % p == ((a * x) * d) % p by {
        ModMul(a * x, d, p);
      }
    }
  }

  lemma Shuffle(a: int, x: int, b: int, y: int)
    ensures (a * x) * (b * y) == (a * b) * (x * y)
  {
    assert (a * x) * (b * y) == a * (x * (b * y));
    assert x * (b * y) == b * (x * y);
    assert a * (b * (x * y)) == (a * b) * (x * y);
  }

  /** No residue is reached twice. */
  lemma ScaledDistinct(a: nat, p: nat, i: nat, j: nat)
    requires Prime(p) && !Divides(p, a) && i < p - 1 && j < p - 1
    requires (a * (i + 1)) % p == (a * (j + 1)) % p
    ensures i == j
  {
    Cancel(p, a, i + 1, j + 1);
    ModSmall(i + 1, p);
    ModSmall(j + 1, p);
  }

  lemma ScaledInRange(a: nat, p: nat, i: nat)
    requires Prime(p) && !Divides(p, a) && i < p - 1
    ensures 1 <= (a * (i + 1)) % p < p
  {
    if Divides(p, a * (i + 1)) {
      Euclid(p, a, i + 1);
      ModSmall(i + 1, p);
    }
  }

  /** Distinct numbers `1 .. n`, `n` of them, are all of them. */
  lemma {:induction false} Pigeonhole(ys: seq<nat>, n: nat)
    requires |ys| == n && forall i :: 0 <= i < n ==> 1 <= ys[i] <= n
    requires forall i, j :: 0 <= i < j < n ==> ys[i] != ys[j]
    ensures multiset(ys) == multiset(UpTo(n))
    decreases n
  {
    if n == 0 {
      assert ys == UpTo(0);
    } else {
      var j := HoldsLargest(ys, n);
      var rest := ys[..j] + ys[j + 1..];
      assert ys == ys[..j] + ([n] + ys[j + 1..]);
      Pigeonhole(rest, n - 1);
      assert UpTo(n) == UpTo(n - 1) + [n];
    }
  }

  /** Otherwise `n` distinct numbers would fit into `1 .. n - 1`. */
  lemma HoldsLargest(ys: seq<nat>, n: nat) returns (j: nat)
    requires n > 0 && |ys| == n && forall i :: 0 <= i < n ==> 1 <= ys[i] <= n
    requires forall i, j :: 0 <= i < j < n ==> ys[i] != ys[j]
    ensures j < n && ys[j] == n
  {
    if n !in ys {
      TooMany(ys, n - 1);
    }
    j :| 0 <= j < n && ys[j] == n;
  }

  lemma {:induction false} TooMany(ys: seq<nat>, n: nat)
    requires forall i :: 0 <= i < |ys| ==> 1 <= ys[i] <= n
    requires forall i, j :: 0 <= i < j < |ys| ==> ys[i] != ys[j]
    ensures |ys| <= n
    decreases n
  {
    if ys != [] {
      var least := ys[0];
      assert 1 <= least <= n;
      if n in ys {
        var j :| 0 <= j < |ys| && ys[j] == n;
        TooMany(ys[..j] + ys[j + 1..], n - 1);
      } else {
        TooMany(ys, n - 1);
      }
    }
  }

  lemma {:induction false} FactorialPrimeTo(p: nat, n: nat)
    requires Prime(p) && n < p
    ensures !Divides(p, Product(UpTo(n)))
  {
    if n == 0 {
      ModSmall(1, p);
    } else {
      FactorialPrimeTo(p, n - 1);
      assert UpTo(n) == UpTo(n - 1) + [n];
      ProductSplit(UpTo(n - 1), [n]);
      assert Product([n]) == n * Product([]);
      ModSmall(n, p);
      if Divides(p, Product(UpTo(n))) {
        Euclid(p, Product(UpTo(n - 1)), n);
      }
    }
  }

  lemma Fermat(p: nat, a: nat)
    requires Prime(p) && !Divides(p, a)
    ensures Pow(a, p - 1) % p == 1
  {
    var xs := UpTo(p - 1);
    var ys := Scaled(a, xs, p);
    forall i | 0 <= i < |ys|
      ensures 1 <= ys[i] <= p - 1
    {
      ScaledInRange(a, p, i);
    }
    forall i, j | 0 <= i < j < |ys|
      ensures ys[i] != ys[j]
    {
      if ys[i] == ys[j] {
        ScaledDistinct(a, p, i, j);
      }
    }
    Pigeonhole(ys, p - 1);
    ProductPermuted(ys, xs);
    ScaledProduct(a, xs, p);
    FactorialPrimeTo(p, p - 1);
    var f := Product(xs);
    assert f * Pow(a, p - 1) == Pow(a, p - 1) * f && f * 1 == f;
    Cancel(p, f, Pow(a, p - 1), 1);
    ModSmall(1, p);
  }

  // ── Square roots of one ─────────────────────────────────────────────

  lemma SquareRootsOfOne(p: nat, x: nat)
    requires Prime(p) && x < p && (x * x) % p == 1
    ensures x == 1 || x == p - 1
  {
    ModSmall(1, p);
    DividesDifference(p, x * x, 1);
    assert x * x - 1 == (x + 1) * (x - 1);
    Euclid(p, x + 1, x - 1);
    if Divides(p, x + 1) {
      if x + 1 < p {
        ModSmall(x + 1, p);
      }
    } else if x >= 1 {
      ModSmall(x - 1, p);
    } else {
      ModUnique(-1, -1, p - 1, p);
    }
  }

  // ── Powers ──────────────────────────────────────────────────────────

  lemma {:induction false} PowAdd(b: nat, m: nat, n: nat)
    ensures Pow(b, m + n) == Pow(b, m) * Pow(b, n)
  {
    if m > 0 {
      PowAdd(b, m - 1, n);
      assert b * (Pow(b, m - 1) * Pow(b, n)) == (b * Pow(b, m - 1)) * Pow(b, n);
    }
  }

  /** Squaring a power doubles its exponent. */
  lemma SquareDoubles(b: nat, e: nat, n: nat)
    requires n > 0
    ensures ModPow(ModPow(b, e, n), 2, n) == ModPow(b, 2 * e, n)
  {
    var x := ModPow(b, e, n);
    assert Pow(x, 2) == x * (x * Pow(x, 0)) == x * x;
    PowAdd(b, e, e);
    ModMul(Pow(b, e), Pow(b, e), n);
  }
}
