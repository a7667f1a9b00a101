/** Primality testing and certificates (`phinet-core/src/cert.rs`). Big integers are `nat`; the random
    number generator is a parameter. */
module Cert {
  import opened Wrappers
  import opened NumberTheory

  // ── The primality test ──────────────────────────────────────────────

  type TrialDivisor = d: nat | 3 <= d <= 541 witness 3

  const SMALL: seq<TrialDivisor> := [
    3, 5, 7, 11, 13, 17, 19, 23, 29, 31, 37, 41, 43, 47, 53, 59, 61, 67, 71, 73, 79, 83, 89, 97,
    101, 103, 107, 109, 113, 127, 131, 137, 139, 149, 151, 157, 163, 167, 173, 179, 181,
    191, 193, 197, 199, 211, 223, 227, 229, 233, 239, 241, 251, 257, 263, 269, 271, 277,
    281, 283, 293, 307, 311, 313, 317, 331, 337, 347, 349, 353, 359, 367, 373, 379, 383,
    389, 397, 401, 409, 419, 421, 431, 433, 439, 443, 449, 457, 461, 463, 467, 479, 487,
    491, 499, 503, 509, 521, 523, 541]

  const SIEVE_COUNT: nat := 94

  const THRESHOLD: nat := 3317044064679887385961981

  const FIXED_WITNESSES: seq<nat> := [2, 3, 5, 7, 11, 13, 17, 19, 23, 29, 31, 37, 41]

  /** Below the threshold the random numbers are not used. */
  function Witnesses(n: nat, draws: seq<nat>): seq<nat> {
    if n < THRESHOLD then FIXED_WITNESSES else FIXED_WITNESSES + [43, 47] + draws
  }

  /** The verdict of dividing by `SMALL[i]`, `SMALL[i + 1]`, ... up to `SMALL[k - 1]`, if there is one. */
  function Trial(n: nat, i: nat, k: nat): Option<bool>
    requires i <= k <= |SMALL|
    decreases k - i
  {
    if i == k then None
    else if n == SMALL[i] then Some(true)
    else if n % SMALL[i] == 0 then Some(false)
    else Trial(n, i + 1, k)
  }

  /** An even number's odd part and the power of two taken out. */
  predicate Splits(m: nat, d: nat, s: nat) {
    m == d * Pow(2, s) && d % 2 == 1
  }

  /** What the test asks of a witness: one of the squarings leads through `-1`, or there is nothing to
      square. */
  predicate Passes(n: nat, d: nat, s: nat, base: nat)
    requires n >= 2
  {
    var a := base % n;
    || a < 2
    || ModPow(a, d, n) == 1
    || exists i :: 0 <= i < s && Squared(a, d, i, n) == n - 1
  }

  /** `a` to the `d`, squared `i` times. */
  function Squared(a: nat, d: nat, i: nat, n: nat): nat
    requires n > 0
  {
    ModPow(a, Pow(2, i) * d, n)
  }

  lemma SquaredNone(a: nat, d: nat, n: nat)
    requires n > 0
    ensures Squared(a, d, 0, n) == ModPow(a, d, n)
  {
    assert Pow(2, 0) * d == d;
  }

  lemma SquaredMore(a: nat, d: nat, i: nat, n: nat)
    requires n > 0
    ensures ModPow(Squared(a, d, i, n), 2, n) == Squared(a, d, i + 1, n)
  {
    SquareDoubles(a, Pow(2, i) * d, n);
    assert 2 * (Pow(2, i) * d) == Pow(2, i + 1) * d;
  }

  /** The answer of `is_prime` when `n - 1` splits into `d` and `s`. */
  predicate StrongTest(n: nat, d: nat, s: nat, draws: seq<nat>)
    requires n >= 2
  {
    forall i :: 0 <= i < |Witnesses(n, draws)| ==> Passes(n, d, s, Witnesses(n, draws)[i])
  }

  function OddPart(m: nat): (d: nat)
    requires m > 0
  {
    if m % 2 == 0 then OddPart(m / 2) else m
  }

  function TwosIn(m: nat): nat
    requires m > 0
  {
    if m % 2 == 0 then 1 + TwosIn(m / 2) else 0
  }

  lemma {:induction false} OddPartSplits(m: nat)
    requires m > 0
    ensures Splits(m, OddPart(m), TwosIn(m))
    ensures m % 2 == 0 ==> TwosIn(m) >= 1
  {
    if m % 2 == 0 {
      OddPartSplits(m / 2);
      var d, t := OddPart(m), Pow(2, TwosIn(m / 2));
      assert d * (2 * t) == 2 * (d * t);
    } else {
      assert m * Pow(2, 0) == m;
    }
  }

  predicate IsPrimeAnswer(n: nat, draws: seq<nat>) {
    if n < 2 then false
    else if n == 2 || n == 3 then true
    else if n % 2 == 0 then false
    else
      match Trial(n, 0, |SMALL|)
      case Some(verdict) => verdict
      case None => StrongTest(n, OddPart(n - 1), TwosIn(n - 1), draws)
  }

  /** `is_prime`. */
  method IsPrime(n: nat, draws: seq<nat>) returns (r: bool)
    ensures r == IsPrimeAnswer(n, draws)
    ensures Prime(n) ==> r
  {
    if Prime(n) {
      PrimesPass(n, draws);
    }
    if n < 2 {
      return false;
    }
    if n == 2 || n == 3 {
      return true;
    }
    if n % 2 == 0 {
      return false;
    }
    var verdict := TrialDivision(n, |SMALL|);
    if verdict.Some? {
      return verdict.value;
    }
    var d, s := SplitOff(n - 1);
    var witnesses := Witnesses(n, draws);
    for k := 0 to |witnesses|
      invariant forall i :: 0 <= i < k ==> Passes(n, d, s, witnesses[i])
    {
      var ok := TryWitness(n, d, s, witnesses[k]);
      if !ok {
        return false;
      }
    }
    return true;
  }

  method TrialDivision(n: nat, k: nat) returns (verdict: Option<bool>)
    requires k <= |SMALL|
    ensures verdict == Trial(n, 0, k)
  {
    for i := 0 to k
      invariant Trial(n, 0, k) == Trial(n, i, k)
    {
      if n == SMALL[i] {
        return Some(true);
      }
      if n % SMALL[i] == 0 {
        return Some(false);
      }
    }
    return None;
  }

  /** The halving loop. */
  method SplitOff(m: nat) returns (d: nat, s: nat)
    requires m > 0
    ensures d == OddPart(m) && s == TwosIn(m)
  {
    d, s := m, 0;
    while d % 2 == 0
      decreases d
      invariant d > 0 && OddPart(d) == OddPart(m) && s + TwosIn(d) == TwosIn(m)
    {
      d, s := d / 2, s + 1;
    }
  }

  /** One witness: the squaring loop. */
  method TryWitness(n: nat, d: nat, s: nat, base: nat) returns (ok: bool)
    requires n >= 2 && s >= 1
    ensures ok == Passes(n, d, s, base)
  {
    hide ModPow, Squared;
    var a := base % n;
    if a < 2 {
      return true;
    }
    var x := ModPow(a, d, n);
    SquaredNone(a, d, n);
    if x == 1 || x == n - 1 {
      return true;
    }
    for i := 1 to s
      invariant x == Squared(a, d, i - 1, n)
      invariant forall k :: 0 <= k < i ==> Squared(a, d, k, n) != n - 1
    {
      SquaredMore(a, d, i - 1, n);
      x := ModPow(x, 2, n);
      if x == n - 1 {
        return true;
      }
    }
    return false;
  }

  // ── It accepts every prime ──────────────────────────────────────────

  lemma {:induction false} TrialAcceptsPrime(n: nat, i: nat, k: nat)
    requires Prime(n) && i <= k <= |SMALL|
    ensures Trial(n, i, k) != Some(false)
    decreases k - i
  {
    if i < k {
      if SMALL[i] < n {
        assert !Divides(SMALL[i], n);
      } else if n < SMALL[i] {
        ModSmall(n, SMALL[i]);
      }
      TrialAcceptsPrime(n, i + 1, k);
    }
  }

  /** Going back from the last square, which Fermat says is one, to the first that is not: that one is
      minus one. */
  lemma {:induction false} SquaresEndInOne(p: nat, a: nat, d: nat, i: nat)
    requires Prime(p) && Squared(a, d, i, p) == 1
    ensures ModPow(a, d, p) == 1 || exists k :: 0 <= k < i && Squared(a, d, k, p) == p - 1
    decreases i
  {
    assert p >= 2;
    hide Squared, Prime;
    if i == 0 {
      SquaredNone(a, d, p);
    } else {
      var x := Squared(a, d, i - 1, p);
      SquaredMore(a, d, i - 1, p);
      SquaredBelow(a, d, i - 1, p);
      RootOfOne(p, x);
      if x == 1 {
        SquaresEndInOne(p, a, d, i - 1);
      }
    }
  }

  lemma SquaredBelow(a: nat, d: nat, i: nat, n: nat)
    requires n > 0
    ensures Squared(a, d, i, n) < n
  {
  }

  lemma RootOfOne(p: nat, x: nat)
    requires Prime(p) && x < p && ModPow(x, 2, p) == 1
    ensures x == 1 || x == p - 1
  {
    assert Pow(x, 2) == x * (x * Pow(x, 0)) == x * x;
    SquareRootsOfOne(p, x);
  }

  lemma PrimePasses(p: nat, d: nat, s: nat, base: nat)
    requires Prime(p) && Splits(p - 1, d, s)
    ensures Passes(p, d, s, base)
  {
    var a := base % p;
    if a >= 2 {
      ModSmall(a, p);
      Fermat(p, a);
      assert Pow(2, s) * d == p - 1;
      SquaresEndInOne(p, a, d, s);
    }
  }

  /** `is_prime` is true of every prime, whatever witnesses are drawn. */
  lemma PrimesPass(p: nat, draws: seq<nat>)
    requires Prime(p)
    ensures IsPrimeAnswer(p, draws)
  {
    if p > 3 {
      assert !Divides(2, p);
      TrialAcceptsPrime(p, 0, |SMALL|);
      OddPartSplits(p - 1);
      forall i | 0 <= i < |Witnesses(p, draws)|
        ensures Passes(p, OddPart(p - 1), TwosIn(p - 1), Witnesses(p, draws)[i])
      {
        PrimePasses(p, OddPart(p - 1), TwosIn(p - 1), Witnesses(p, draws)[i]);
      }
    }
  }

  // ── What a true answer says ─────────────────────────────────────────

  lemma {:induction false} TrialTells(n: nat, i: nat, k: nat, j: nat)
    requires i <= j < k <= |SMALL| && Trial(n, i, k) == None
    ensures n % SMALL[j] != 0
    decreases k - i
  {
    if i < j {
      TrialTells(n, i + 1, k, j);
    }
  }

  lemma {:induction false} TrialAccepts(n: nat, i: nat, k: nat)
    requires i <= k <= |SMALL| && Trial(n, i, k) == Some(true)
    ensures 3 <= n <= 541
    decreases k - i
  {
    if n != SMALL[i] {
      TrialAccepts(n, i + 1, k);
    }
  }

  lemma {:induction false} StaysOne(a: nat, d: nat, i: nat, s: nat, n: nat)
    requires n >= 2 && i <= s && Squared(a, d, i, n) == 1
    ensures Squared(a, d, s, n) == 1
    decreases s - i
  {
    hide Squared, ModPow;
    if i < s {
      SquaredMore(a, d, i, n);
      OneSquared(n);
      StaysOne(a, d, i + 1, s, n);
    }
  }

  lemma OneSquared(n: nat)
    requires n >= 2
    ensures ModPow(1, 2, n) == 1 && ModPow(n - 1, 2, n) == 1
  {
    assert Pow(1, 2) == 1 * (1 * Pow(1, 0)) == 1;
    assert Pow(n - 1, 2) == (n - 1) * ((n - 1) * Pow(n - 1, 0)) == (n - 1) * (n - 1);
    assert (n - 1) * (n - 1) == (n - 2) * n + 1;
    ModUnique((n - 1) * (n - 1), n - 2, 1, n);
  }

  /** A base that passes is one that Fermat's theorem holds for. */
  lemma PassIsFermat(n: nat, d: nat, s: nat, base: nat)
    requires n > 2 && Splits(n - 1, d, s) && 2 <= base < n && Passes(n, d, s, base)
    ensures Pow(base, n - 1) % n == 1
  {
    hide Squared, Pow;
    ModSmall(base, n);
    if ModPow(base, d, n) == 1 {
      SquaredNone(base, d, n);
      StaysOne(base, d, 0, s, n);
    } else {
      var i :| 0 <= i < s && Squared(base, d, i, n) == n - 1;
      SquaredMore(base, d, i, n);
      OneSquared(n);
      StaysOne(base, d, i + 1, s, n);
    }
    LastSquare(base, d, s, n);
  }

  lemma LastSquare(a: nat, d: nat, s: nat, n: nat)
    requires n > 2 && Splits(n - 1, d, s)
    ensures Squared(a, d, s, n) == Pow(a, n - 1) % n
  {
    assert Pow(2, s) * d == n - 1;
  }

  /** A true answer beyond the small primes: the number is odd, none of the ninety-nine divides it, and Fermat's
      theorem holds for each of thirteen bases, and from the threshold on for two more and whatever was drawn. */
  lemma TrueAnswerMeans(n: nat, draws: seq<nat>, b: nat)
    requires n > 541 && IsPrimeAnswer(n, draws)
    requires b in {2, 3, 5, 7, 11, 13, 17, 19, 23, 29, 31, 37, 41} || (n >= THRESHOLD && (b in {43, 47} || (b in draws && 2 <= b < n)))
    ensures n % 2 == 1 && (forall j :: 0 <= j < |SMALL| ==> n % SMALL[j] != 0)
    ensures Pow(b, n - 1) % n == 1
  {
    if Trial(n, 0, |SMALL|) == Some(true) {
      TrialAccepts(n, 0, |SMALL|);
      assert false;
    }
    forall j | 0 <= j < |SMALL|
      ensures n % SMALL[j] != 0
    {
      TrialTells(n, 0, |SMALL|, j);
    }
    OddPartSplits(n - 1);
    UsedAsWitness(n, draws, b);
    PassIsFermat(n, OddPart(n - 1), TwosIn(n - 1), b);
  }

  lemma UsedAsWitness(n: nat, draws: seq<nat>, b: nat)
    requires b in {2, 3, 5, 7, 11, 13, 17, 19, 23, 29, 31, 37, 41} || (n >= THRESHOLD && (b in {43, 47} || b in draws))
    ensures b in Witnesses(n, draws)
  {
    var f := FIXED_WITNESSES;
    assert f[0] == 2 && f[1] == 3 && f[2] == 5 && f[3] == 7 && f[4] == 11 && f[5] == 13 && f[6] == 17 && f[7] == 19;
    assert n >= THRESHOLD ==> Witnesses(n, draws)[13] == 43 && Witnesses(n, draws)[14] == 47;
    assert f[8] == 23 && f[9] == 29 && f[10] == 31 && f[11] == 37 && f[12] == 41;
  }

  /** Below the threshold the answer does not depend on chance. */
  lemma FixedBelowThreshold(n: nat, draws: seq<nat>, draws': seq<nat>)
    requires n < THRESHOLD
    ensures IsPrimeAnswer(n, draws) == IsPrimeAnswer(n, draws')
  {
    assert Witnesses(n, draws) == Witnesses(n, draws');
  }

  // ── Certificates ────────────────────────────────────────────────────

  function DigitalRoot(n: nat): (r: nat)
    ensures 1 <= r <= 9
  {
    if n % 9 == 0 then 9 else n % 9
  }

  function DigitSum(n: nat): (r: nat)
    ensures r <= n && (n >= 10 ==> r < n) && (n > 0 ==> r > 0)
  {
    if n < 10 then n else n % 10 + DigitSum(n / 10)
  }

  /** Sum the decimal digits until one is left. */
  function RepeatedDigitSum(n: nat): nat
    decreases n
  {
    if n < 10 then n else RepeatedDigitSum(DigitSum(n))
  }

  lemma {:induction false} DigitSumMod9(n: nat)
    ensures DigitSum(n) % 9 == n % 9
  {
    if n >= 10 {
      var tens, ones := n / 10, n % 10;
      DigitSumMod9(tens);
      assert n == (ones + tens) + tens * 9;
      ModPlus(ones + tens, tens, 9);
      var k := DigitSum(tens) / 9 - tens / 9;
      assert ones + DigitSum(tens) == (ones + tens) + k * 9;
      ModPlus(ones + tens, k, 9);
    }
  }

  /** `digital_root` is what its name says for every number but zero, for which it answers nine. */
  lemma {:induction false} DigitalRootMeaning(n: nat)
    ensures DigitalRoot(n) == RepeatedDigitSum(n) <==> n > 0
    decreases n
  {
    DigitSumMod9(n);
    if n >= 10 {
      DigitalRootMeaning(DigitSum(n));
    }
  }

  datatype PhiCert = PhiCert(n: nat, phi: nat, mu: nat, j: nat, dr: nat, sg: nat, bits: nat)

  datatype CertError = Underflow

  /** The draws of the first, second, ... primality test of a call. */
  type Draws = nat -> seq<nat>

  function Bit(b: bool): nat {
    if b then 1 else 0
  }

  /** `PhiCert::verify`. On `n == 0` the source subtracts one from zero and panics. */
  function Verify(c: PhiCert, draws: Draws): Result<bool, CertError> {
    if c.n % 2 != 0 then Ok(false)
    else
      var p := c.n / 2;
      if p == 0 then Err(Underflow)
      else if c.phi != p - 1 || DigitalRoot(c.phi) != c.dr then Ok(false)
      else if c.mu != (if c.dr >= 5 then 2 else 4) then Ok(false)
      else if c.phi % c.mu != 0 || c.phi / c.mu + 1 != c.j then Ok(false)
      else if !IsPrimeAnswer(c.j, draws(0)) || !IsPrimeAnswer(p, draws(1)) then Ok(false)
      else Ok(c.sg == Bit(IsPrimeAnswer(2 * c.j - 1, draws(2))))
  }

  predicate SieveOk(n: nat)
  {
    Trial(n, 0, SIEVE_COUNT) != Some(false)
  }

  /** One turn of the loop of `generate`, for a random odd `j`. */
  function Attempt(j: nat, bits: nat, draws: Draws): Option<PhiCert>
    requires j > 0
  {
    if !SieveOk(j) then None
    else
      var p2 := j * 2 - 1;
      if SieveOk(p2) && DigitalRoot(p2 - 1) >= 5 && IsPrimeAnswer(j, draws(0)) && IsPrimeAnswer(p2, draws(1)) then
        Some(PhiCert(p2 * 2, p2 - 1, 2, j, DigitalRoot(p2 - 1), Bit(IsPrimeAnswer(j * 2 - 1, draws(2))), bits))
      else
        var p4 := j * 4 - 3;
        if SieveOk(p4) && DigitalRoot(p4 - 1) < 5 && IsPrimeAnswer(j, draws(3)) && IsPrimeAnswer(p4, draws(4)) then
          Some(PhiCert(p4 * 2, p4 - 1, 4, j, DigitalRoot(p4 - 1), Bit(IsPrimeAnswer(j * 2 - 1, draws(5))), bits))
        else None
  }

  lemma {:induction false} TrialPrefix(n: nat, i: nat, k: nat)
    requires i <= k <= |SMALL| && Trial(n, i, k) == Some(false)
    ensures Trial(n, i, |SMALL|) == Some(false)
    decreases k - i
  {
    if n != SMALL[i] && n % SMALL[i] != 0 {
      TrialPrefix(n, i + 1, k);
    }
  }

  /** The sieve only saves time: what it rejects the test would reject. */
  lemma SieveSaves(n: nat, draws: seq<nat>)
    requires IsPrimeAnswer(n, draws)
    ensures SieveOk(n)
  {
    if n <= 3 {
      assert Prime(n);
      TrialAcceptsPrime(n, 0, SIEVE_COUNT);
    } else if !SieveOk(n) {
      TrialPrefix(n, 0, SIEVE_COUNT);
    }
  }

  /** When a candidate succeeds, and in which class: its double less one passes the test and has a root of five or
      more, or else its fourfold less three passes and has a smaller one. */
  lemma AttemptMeaning(j: nat, bits: nat, draws: Draws)
    requires j > 0
    ensures var two := DigitalRoot(2 * j - 2) >= 5 && IsPrimeAnswer(j, draws(0)) && IsPrimeAnswer(2 * j - 1, draws(1));
            var four := DigitalRoot(4 * j - 4) < 5 && IsPrimeAnswer(j, draws(3)) && IsPrimeAnswer(4 * j - 3, draws(4));
            && (Attempt(j, bits, draws).Some? <==> two || four)
            && (two ==> Attempt(j, bits, draws).value.mu == 2) && (!two && four ==> Attempt(j, bits, draws).value.mu == 4)
  {
    hide IsPrimeAnswer, DigitalRoot, SieveOk;
    forall n, k: nat | IsPrimeAnswer(n, draws(k))
      ensures SieveOk(n)
    {
      SieveSaves(n, draws(k));
    }
  }

  /** `generate`, for as many candidates as the generator gave. */
  method Generate(candidates: seq<nat>, bits: nat, draws: nat -> Draws) returns (c: Option<PhiCert>)
    requires forall i :: 0 <= i < |candidates| ==> candidates[i] > 0
    ensures match c
            case None => forall i :: 0 <= i < |candidates| ==> Attempt(candidates[i], bits, draws(i)).None?
            case Some(_) =>
              exists i :: 0 <= i < |candidates| && c == Attempt(candidates[i], bits, draws(i))
                          && forall k :: 0 <= k < i ==> Attempt(candidates[k], bits, draws(k)).None?
  {
    hide Attempt;
    for i := 0 to |candidates|
      invariant forall k :: 0 <= k < i ==> Attempt(candidates[k], bits, draws(k)).None?
    {
      c := Attempt(candidates[i], bits, draws(i));
      if c.Some? {
        return;
      }
    }
    return None;
  }

  /** The only certificate there can be for `j` and `mu`, whatever is said of Sophie Germain. */
  function Canonical(j: nat, mu: nat, sg: nat, bits: nat): PhiCert
    requires j > 0
  {
    var phi := mu * (j - 1);
    PhiCert(2 * (phi + 1), phi, mu, j, DigitalRoot(phi), sg, bits)
  }

  /** `verify` accepts exactly the canonical certificates of the right class whose numbers pass the
      test: `phi`, `n`, `dr` and `mu` leave nothing free but `j`. */
  lemma VerifyMeaning(c: PhiCert, draws: Draws)
    ensures Verify(c, draws) == Ok(true) <==>
      && c.j > 0 && c.mu > 0 && c == Canonical(c.j, c.mu, c.sg, c.bits)
      && c.mu == (if DigitalRoot(c.phi) >= 5 then 2 else 4)
      && IsPrimeAnswer(c.j, draws(0)) && IsPrimeAnswer(c.phi + 1, draws(1))
      && c.sg == (if IsPrimeAnswer(2 * c.j - 1, draws(2)) then 1 else 0)
    ensures Verify(c, draws).Err? <==> c.n == 0
  {
    hide IsPrimeAnswer, DigitalRoot;
    if c.mu == 2 || c.mu == 4 {
      if c.phi % c.mu == 0 && c.phi / c.mu + 1 == c.j {
        assert c.phi == c.mu * (c.j - 1);
      } else if c.j > 0 && c.phi == c.mu * (c.j - 1) {
        MultipleDivides(c.j - 1, c.mu);
        ModUnique(c.phi, c.j - 1, 0, c.mu);
      }
    }
  }

  /** The first test made for the certificate. */
  function FirstDraw(mu: nat): nat {
    if mu == 2 then 0 else 3
  }

  lemma AttemptIsCanonical(j: nat, bits: nat, draws: Draws, c: PhiCert)
    requires j > 0 && Attempt(j, bits, draws) == Some(c)
    ensures c == Canonical(j, c.mu, c.sg, bits)
    ensures c.mu == (if DigitalRoot(c.phi) >= 5 then 2 else 4)
    ensures var k := FirstDraw(c.mu);
            && IsPrimeAnswer(j, draws(k)) && IsPrimeAnswer(c.phi + 1, draws(k + 1))
            && c.sg == Bit(IsPrimeAnswer(2 * j - 1, draws(k + 2)))
  {
    hide IsPrimeAnswer, DigitalRoot, SieveOk;
  }

  /** A generated certificate verifies exactly when the three numbers pass the test again with the new
      draws and the third gets the answer it got before. */
  lemma GeneratedVerifies(j: nat, bits: nat, draws: Draws, draws': Draws, c: PhiCert)
    requires j > 0 && Attempt(j, bits, draws) == Some(c)
    ensures Verify(c, draws') == Ok(true) <==>
      && IsPrimeAnswer(j, draws'(0)) && IsPrimeAnswer(c.phi + 1, draws'(1))
      && c.sg == Bit(IsPrimeAnswer(2 * j - 1, draws'(2)))
  {
    hide IsPrimeAnswer, DigitalRoot, Attempt;
    AttemptIsCanonical(j, bits, draws, c);
    VerifyMeaning(c, draws');
  }

  /** Nothing is left to chance when `j` and `p` really are prime and `mu` is 2, for then the third number
      is `p` again; nor when all three are below the threshold. */
  lemma GeneratedAlwaysVerifies(j: nat, bits: nat, draws: Draws, draws': Draws, c: PhiCert)
    requires j > 0 && Attempt(j, bits, draws) == Some(c)
    requires (Prime(j) && Prime(c.phi + 1) && (c.mu == 2 || Prime(2 * j - 1))) || c.phi + 1 < THRESHOLD
    ensures Verify(c, draws') == Ok(true)
  {
    hide IsPrimeAnswer, DigitalRoot, Attempt, Prime;
    AttemptIsCanonical(j, bits, draws, c);
    GeneratedVerifies(j, bits, draws, draws', c);
    var k := FirstDraw(c.mu);
    if c.phi + 1 < THRESHOLD {
      FixedBelowThreshold(j, draws(k), draws'(0));
      FixedBelowThreshold(c.phi + 1, draws(k + 1), draws'(1));
      FixedBelowThreshold(2 * j - 1, draws(k + 2), draws'(2));
    } else {
      assert c.mu == 2 ==> c.phi + 1 == 2 * j - 1;
      PrimesPass(j, draws'(0));
      PrimesPass(c.phi + 1, draws'(1));
      PrimesPass(2 * j - 1, draws(k + 2));
      PrimesPass(2 * j - 1, draws'(2));
    }
  }

  predicate HasBits(x: nat, k: nat) {
    k > 0 && Pow(2, k - 1) <= x < Pow(2, k)
  }

  /** What `random_odd` gives for `bits - 2` makes an `n` of `bits` bits as the documentation promises, but
      only in the class `mu == 2`; in the other class `n` is one bit longer. */
  lemma GeneratedSize(j: nat, bits: nat, draws: Draws, c: PhiCert)
    requires bits >= 256 && HasBits(j, bits - 2) && j % 2 == 1 && Attempt(j, bits, draws) == Some(c)
    ensures HasBits(c.n, if c.mu == 2 then bits else bits + 1)
  {
    hide IsPrimeAnswer, DigitalRoot, Attempt;
    AttemptIsCanonical(j, bits, draws, c);
    var low := Pow(2, bits - 3);
    assert Pow(2, bits - 2) == 2 * low && Pow(2, bits - 1) == 2 * Pow(2, bits - 2) && Pow(2, bits) == 2 * Pow(2, bits - 1);
    assert Pow(2, bits + 1) == 2 * Pow(2, bits);
    assert low == 2 * Pow(2, bits - 4);
  }
}
