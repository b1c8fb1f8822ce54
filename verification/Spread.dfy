/** The load seed's arithmetic: a multiplier coprime with the range spreads consecutive numbers evenly. */
module Spread {

  // ---------------------------------------------------------------- coprime numbers

  predicate Divides(d: int, n: int)
    requires d > 0
  {
    n % d == 0
  }

  ghost predicate Coprime(a: nat, b: nat) {
    forall d :: d > 1 ==> !(Divides(d, a) && Divides(d, b))
  }

  /** Bezout coefficients by Euclid's algorithm. */
  function Bezout(a: nat, b: nat): (int, int)
    decreases b
  {
    if b == 0 then (1, 0)
    else var (x, y) := Bezout(b, a % b); (y, x - (a / b) * y)
  }

  function Gcd(a: nat, b: nat): nat
    decreases b
  {
    if b == 0 then a else Gcd(b, a % b)
  }

  lemma {:induction false} BezoutIsGcd(a: nat, b: nat)
    ensures Combination(a, b, Bezout(a, b)) == Gcd(a, b)
    decreases b
  {
    if b > 0 {
      BezoutIsGcd(b, a % b);
      EuclidStep(a, b, a / b, a % b, Bezout(b, a % b));
    }
  }

  function Combination(a: int, b: int, c: (int, int)): int {
    a * c.0 + b * c.1
  }

  /** One division: a combination of divisor and remainder is one of dividend and divisor. */
  lemma EuclidStep(a: int, b: int, q: int, r: int, c: (int, int))
    requires a == b * q + r
    ensures Combination(b, r, c) == Combination(a, b, (c.1, c.0 - q * c.1))
  {
    var x, y := c.0, c.1;
    assert b * (x - q * y) == b * x - (b * q) * y;
    assert a * y == (b * q) * y + r * y;
  }

  lemma MultipleDivides(d: int, n: int, k: int)
    requires d > 0 && n == d * k
    ensures Divides(d, n)
  {
    ModOfMultiple(k, d, 0);
  }

  lemma AtLeastOnce(a: int, m: int)
    requires m > 0 && a >= 1
    ensures a * m >= m
  {
    assert (a - 1) * m >= 0;
  }

  lemma QuotientIsUnique(q: int, r: int, k: int, t: int, m: int)
    requires m > 0 && 0 <= r < m && 0 <= t < m && q * m + r == k * m + t
    ensures q == k && r == t
  {
    assert (q - k) * m == t - r && (k - q) * m == r - t;
    if q > k { AtLeastOnce(q - k, m); }
    if k > q { AtLeastOnce(k - q, m); }
  }

  lemma ModOfMultiple(k: int, m: int, r: int)
    requires m > 0 && 0 <= r < m
    ensures (k * m + r) % m == r && (k * m + r) / m == k
  {
    var n := k * m + r;
    var q, t := n / m, n % m;
    assert n == q * m + t;
    QuotientIsUnique(q, t, k, r, m);
  }

  lemma DividesCombination(d: int, a: int, b: int, x: int, y: int)
    requires d > 0 && Divides(d, a) && Divides(d, b)
    ensures Divides(d, a * x + b * y)
  {
    var i, j := a / d, b / d;
    assert a == d * i && b == d * j;
    assert a * x + b * y == d * (i * x + j * y);
    MultipleDivides(d, a * x + b * y, i * x + j * y);
  }

  lemma {:induction false} GcdDividesBoth(a: nat, b: nat)
    requires a > 0
    ensures Gcd(a, b) > 0 && Divides(Gcd(a, b), a) && Divides(Gcd(a, b), b)
    decreases b
  {
    if b > 0 {
      GcdDividesBoth(b, a % b);
      var g := Gcd(b, a % b);
      DividesCombination(g, b, a % b, a / b, 1);
      assert a == b * (a / b) + (a % b) * 1;
    }
  }

  /** Coprime numbers have Bezout coefficients with sum one, hence an inverse modulo each other. */
  lemma CoprimeHasInverse(s: nat, m: nat) returns (x: int, y: int)
    requires s > 0 && Coprime(s, m)
    ensures s * x + m * y == 1
  {
    BezoutIsGcd(s, m);
    GcdDividesBoth(s, m);
    x, y := Bezout(s, m).0, Bezout(s, m).1;
    assert Combination(s, m, Bezout(s, m)) == s * x + m * y;
  }

  lemma BezoutMeansCoprime(s: nat, m: nat, x: int, y: int)
    requires s * x + m * y == 1
    ensures Coprime(s, m)
  {
    forall d | d > 1 ensures !(Divides(d, s) && Divides(d, m)) {
      if Divides(d, s) && Divides(d, m) {
        DividesCombination(d, s, m, x, y);
        assert false;
      }
    }
  }

  // ---------------------------------------------------------------- counting

  /** How many n in [from, from + count) have n * s % m == r. */
  function Hits(from: nat, count: nat, s: nat, m: nat, r: nat): nat
    requires m > 0
  {
    if count == 0 then 0
    else Hits(from, count - 1, s, m, r) + if (from + (count - 1)) * s % m == r then 1 else 0
  }

  lemma {:induction false} HitsSplit(from: nat, a: nat, b: nat, s: nat, m: nat, r: nat)
    requires m > 0
    ensures Hits(from, a + b, s, m, r) == Hits(from, a, s, m, r) + Hits(from + a, b, s, m, r)
  {
    if b > 0 {
      HitsSplit(from, a, b - 1, s, m, r);
      assert from + (a + b - 1) == from + a + (b - 1);
    }
  }

  lemma SameRemainder(a: int, b: int, k: int, m: int)
    requires m > 0 && a == b + k * m
    ensures a % m == b % m
  {
    assert b == (b / m) * m + b % m;
    assert a == (b / m + k) * m + b % m;
    ModOfMultiple(b / m + k, m, b % m);
  }

  lemma HitImpliesCongruent(n: int, s: int, m: int, r: int, x: int, y: int, q: int)
    requires s * x + m * y == 1 && n * s == q * m + r
    ensures n == r * x + (q * x + n * y) * m
  {
    calc {
      n;
      n * (s * x + m * y);
      n * (s * x) + n * (m * y);
      { assert n * (s * x) == (n * s) * x; assert n * (m * y) == (n * y) * m; }
      (q * m + r) * x + (n * y) * m;
      { assert (q * m + r) * x == (q * x) * m + r * x; }
      (q * x) * m + r * x + (n * y) * m;
      { assert (q * x + n * y) * m == (q * x) * m + (n * y) * m; }
      r * x + (q * x + n * y) * m;
    }
  }

  lemma CongruentImpliesHit(n: int, s: int, m: int, r: int, x: int, y: int, k: int)
    requires s * x + m * y == 1 && n == r * x + k * m
    ensures n * s == r + (k * s - r * y) * m
  {
    calc {
      n * s;
      (r * x + k * m) * s;
      { assert (r * x + k * m) * s == r * (s * x) + (k * s) * m; }
      r * (s * x) + (k * s) * m;
      { assert s * x == 1 - m * y; }
      r * (1 - m * y) + (k * s) * m;
      { assert r * (1 - m * y) == r - (r * y) * m; }
      r - (r * y) * m + (k * s) * m;
      { assert (k * s - r * y) * m == (k * s) * m - (r * y) * m; }
      r + (k * s - r * y) * m;
    }
  }

  /** With an inverse x of s, n * s hits r exactly when n is congruent to r * x. */
  lemma HitMeansCongruent(n: nat, s: nat, m: nat, r: nat, x: int, y: int)
    requires m > 0 && r < m && s * x + m * y == 1
    ensures n * s % m == r <==> n % m == r * x % m
  {
    if n * s % m == r {
      var q := n * s / m;
      HitImpliesCongruent(n, s, m, r, x, y, q);
      SameRemainder(n, r * x, q * x + n * y, m);
    }
    if n % m == r * x % m {
      var k := n / m - (r * x) / m;
      SameRemainderDifference(n, r * x, m);
      CongruentImpliesHit(n, s, m, r, x, y, k);
      SameRemainder(n * s, r, k * s - r * y, m);
      SmallRemainder(r, m);
    }
  }

  lemma SameRemainderDifference(a: int, b: int, m: int)
    requires m > 0 && a % m == b % m
    ensures a == b + (a / m - b / m) * m
  {
    assert a == (a / m) * m + a % m && b == (b / m) * m + b % m;
    assert (a / m - b / m) * m == (a / m) * m - (b / m) * m;
  }

  lemma SmallRemainder(r: nat, m: nat)
    requires r < m
    ensures r % m == r
  {
    ModOfMultiple(0, m, r);
  }

  /** How many n in [from, from + count) are congruent to c. */
  function Congruent(from: nat, count: nat, m: nat, c: nat): nat
    requires m > 0
  {
    if count == 0 then 0 else Congruent(from, count - 1, m, c) + if (from + (count - 1)) % m == c then 1 else 0
  }

  lemma {:induction false} HitsAreCongruent(from: nat, count: nat, s: nat, m: nat, r: nat, x: int, y: int)
    requires m > 0 && r < m && s * x + m * y == 1
    ensures Hits(from, count, s, m, r) == Congruent(from, count, m, r * x % m)
  {
    if count > 0 {
      HitsAreCongruent(from, count - 1, s, m, r, x, y);
      HitMeansCongruent(from + (count - 1), s, m, r, x, y);
    }
  }

  /** The first number from `from` on that is congruent to c. */
  function FirstCongruent(from: nat, m: nat, c: nat): (n: nat)
    requires c < m
    ensures from <= n < from + m
  {
    var p := from % m;
    if p <= c then from + (c - p) else from + (c + m - p)
  }

  lemma CongruentIsFirst(from: nat, m: nat, c: nat, n: nat)
    requires c < m && from <= n < from + m
    ensures n % m == c <==> n == FirstCongruent(from, m, c)
  {
    var p, q := from % m, from / m;
    assert from == q * m + p;
    var d := n - from;
    if p + d < m {
      ModOfMultiple(q, m, p + d);
      assert n == q * m + (p + d);
    } else {
      ModOfMultiple(q + 1, m, p + d - m);
      assert n == (q + 1) * m + (p + d - m);
    }
  }

  /** Fewer than m consecutive numbers hit a residue at most once, m of them exactly once. */
  lemma {:induction false} CongruentInWindow(from: nat, count: nat, m: nat, c: nat)
    requires c < m && count <= m
    ensures Congruent(from, count, m, c) == if FirstCongruent(from, m, c) < from + count then 1 else 0
  {
    if count > 0 {
      CongruentInWindow(from, count - 1, m, c);
      CongruentIsFirst(from, m, c, from + (count - 1));
    }
  }

  lemma OneRound(from: nat, s: nat, m: nat, r: nat, x: int, y: int)
    requires m > 0 && r < m && s * x + m * y == 1
    ensures Hits(from, m, s, m, r) == 1
  {
    RemainderIsBelow(r * x, m);
    HitsAreCongruent(from, m, s, m, r, x, y);
    CongruentInWindow(from, m, m, r * x % m);
  }

  lemma {:induction false} FullRounds(from: nat, rounds: nat, length: nat, s: nat, m: nat, r: nat, x: int, y: int)
    requires m > 0 && r < m && s * x + m * y == 1 && length == rounds * m
    ensures Hits(from, length, s, m, r) == rounds
  {
    if rounds > 0 {
      OneRoundLess(rounds, m);
      var before: nat := length - m;
      FullRounds(from, rounds - 1, before, s, m, r, x, y);
      HitsSplit(from, before, m, s, m, r);
      OneRound(from + before, s, m, r, x, y);
    } else {
      assert length == 0;
    }
  }

  lemma OneRoundLess(rounds: nat, m: nat)
    requires rounds > 0
    ensures rounds * m >= m && (rounds - 1) * m == rounds * m - m
  {
  }

  lemma RemainderIsBelow(n: int, m: nat)
    requires m > 0
    ensures 0 <= n % m < m
  {
  }

  /** The residue is hit floor(count / m) or ceil(count / m) times. */
  predicate EvenlyHit(from: nat, count: nat, s: nat, m: nat, r: nat)
    requires m > 0
  {
    count / m <= Hits(from, count, s, m, r) <= count / m + (if count % m == 0 then 0 else 1)
  }

  /** Even spread: for any multiplier coprime with m, any `count` consecutive n hit each residue of
      n * s modulo m either floor(count / m) or ceil(count / m) times. */
  lemma EvenSpread(from: nat, count: nat, s: nat, m: nat, r: nat)
    requires s > 0 && r < m && Coprime(s, m)
    ensures EvenlyHit(from, count, s, m, r)
  {
    var x, y := CoprimeHasInverse(s, m);
    var rounds, rest := count / m, count % m;
    assert count == rounds * m + rest;
    FullRounds(from, rounds, rounds * m, s, m, r, x, y);
    HitsSplit(from, rounds * m, rest, s, m, r);
    HitsAreCongruent(from + rounds * m, rest, s, m, r, x, y);
    RemainderIsBelow(r * x, m);
    CongruentInWindow(from + rounds * m, rest, m, r * x % m);
  }

  /** A common factor of s and m divides every residue of a multiple of s. */
  lemma ResidueHasFactor(n: int, s: int, m: int, d: int, q: int, r: int)
    requires d > 0 && Divides(d, s) && Divides(d, m) && n * s == q * m + r
    ensures Divides(d, r)
  {
    assert s * n == n * s && m * -q == -(q * m);
    DividesCombination(d, s, m, n, -q);
  }

  /** Coprimality is what makes it even: a common factor leaves residues that are never hit. */
  lemma {:induction false} CommonFactorLeavesGaps(from: nat, count: nat, s: nat, m: nat, d: nat, r: nat)
    requires m > 0 && d > 1 && Divides(d, s) && Divides(d, m) && !Divides(d, r)
    ensures Hits(from, count, s, m, r) == 0
  {
    if count > 0 {
      CommonFactorLeavesGaps(from, count - 1, s, m, d, r);
      var product := (from + (count - 1)) * s;
      ResidueHasFactor(from + (count - 1), s, m, d, product / m, product % m);
    }
  }

  /** With a common factor the residue 1 is missed by a whole round. */
  lemma NotCoprimeIsUneven(s: nat, m: nat)
    requires s > 0 && m > 0 && !Coprime(s, m)
    ensures m > 1 && m / m == 1 && Hits(0, m, s, m, 1) == 0
  {
    var d :| d > 1 && Divides(d, s) && Divides(d, m);
    DivisorIsSmaller(d, m);
    SmallRemainder(1, d);
    CommonFactorLeavesGaps(0, m, s, m, d, 1);
    ModOfMultiple(1, m, 0);
  }

  lemma DivisorIsSmaller(d: nat, m: nat)
    requires d > 0 && m > 0 && Divides(d, m)
    ensures d <= m
  {
    if m < d { SmallRemainder(m, d); }
  }

  /** Even for every count exactly when coprime. */
  lemma EvenIffCoprime(s: nat, m: nat)
    requires s > 0 && m > 0
    ensures Coprime(s, m) <==> forall from: nat, count: nat, r: nat :: r < m ==> EvenlyHit(from, count, s, m, r)
  {
    if Coprime(s, m) {
      forall from: nat, count: nat, r: nat | r < m ensures EvenlyHit(from, count, s, m, r) {
        EvenSpread(from, count, s, m, r);
      }
    } else {
      NotCoprimeIsUneven(s, m);
      assert !EvenlyHit(0, m, s, m, 1);
    }
  }
}
