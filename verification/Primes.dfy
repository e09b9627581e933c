/** Primality, and the facts that make trial division stop at the square root and the search loop stop at all. */
module Primes {
  import opened Basics

  ghost predicate Divides(d: int, n: int)
    requires d > 0
  {
    n % d == 0
  }

  ghost predicate Prime(n: int) {
    n >= 2 && forall d :: 2 <= d < n ==> !Divides(d, n)
  }

  lemma Product(d: int, n: int) returns (q: int)
    requires d > 0 && n >= 0 && Divides(d, n)
    ensures n == d * q && q >= 0
  {
    q := n / d;
  }

  lemma MultipleDivides(d: int, q: int)
    requires d > 0
    ensures Divides(d, d * q)
  {
    var n := d * q;
    var k := q - n / d;
    assert d * k == n % d;
    MulMono(1, k, d);
    MulMono(k, -1, d);
    assert k == 0;
  }

  /** A composite has a factor no greater than its square root. */
  lemma SmallFactor(n: int) returns (d: int)
    requires n >= 2 && !Prime(n)
    ensures 2 <= d < n && d * d <= n && Divides(d, n)
  {
    hide Divides;
    var e :| 2 <= e < n && Divides(e, n);
    var q := Product(e, n);
    Cofactor(e, q, n);
    if e * e <= n {
      d := e;
    } else {
      MultipleDivides(q, e);
      assert q * e == n;
      d := q;
    }
  }

  lemma Cofactor(e: int, q: int, n: int)
    requires 2 <= e < n && n == e * q
    ensures 2 <= q < n && (e * e <= n || q * q <= n)
  {
    MulMono(q, 1, e);
    assert q >= 2;
    MulMono(2, e, q);
    MulMono(e, q, e);
    MulMono(q, e, q);
  }

  /** Every number from 2 on has a prime factor. */
  lemma {:induction false} PrimeFactor(n: int) returns (p: int)
    requires n >= 2
    ensures Prime(p) && p <= n && Divides(p, n)
    decreases n
  {
    if Prime(n) {
      p := n;
      assert Divides(n, n);
    } else {
      var d :| 2 <= d < n && Divides(d, n);
      p := PrimeFactor(d);
      DividesTransitive(p, d, n);
    }
  }

  lemma DividesTransitive(a: int, b: int, c: int)
    requires a > 0 && b > 0 && c >= 0 && Divides(a, b) && Divides(b, c)
    ensures Divides(a, c)
  {
    var x := Product(a, b);
    var y := Product(b, c);
    assert c == a * (x * y);
    MultipleDivides(a, x * y);
  }

  function Factorial(n: nat): (f: nat)
    ensures f >= 1
  {
    if n == 0 then 1 else n * Factorial(n - 1)
  }

  lemma {:induction false} DividesFactorial(d: nat, n: nat)
    requires 1 <= d <= n
    ensures Divides(d, Factorial(n))
  {
    if d == n {
      MultipleDivides(d, Factorial(n - 1));
    } else {
      DividesFactorial(d, n - 1);
      var q := Product(d, Factorial(n - 1));
      assert Factorial(n) == d * (n * q);
      MultipleDivides(d, n * q);
    }
  }

  /** Euclid: beyond every number there is a prime. */
  lemma PrimeBeyond(n: nat) returns (p: int)
    ensures Prime(p) && p > n
  {
    p := PrimeFactor(Factorial(n) + 1);
    if p <= n {
      DividesFactorial(p, n);
      ConsecutiveCoprime(p, Factorial(n));
    }
  }

  lemma ConsecutiveCoprime(p: int, n: nat)
    requires p >= 2
    ensures !(Divides(p, n) && Divides(p, n + 1))
  {
    if Divides(p, n) {
      var a := Product(p, n);
      var k := (n + 1) / p - a;
      assert p * k == 1 - (n + 1) % p;
      MulMono(1, k, p);
      MulMono(k, -1, p);
    }
  }

  /** s lists primes in increasing order and leaves none out below bound. */
  ghost predicate PrimesBelow(s: seq<int>, bound: int) {
    && (forall i :: 0 <= i < |s| ==> Prime(s[i]) && s[i] < bound)
    && (forall i, j :: 0 <= i < j < |s| ==> s[i] < s[j])
    && (forall p :: Prime(p) && p < bound ==> p in s)
  }

  /** s is exactly the first n primes in increasing order. */
  ghost predicate FirstPrimes(s: seq<int>, n: nat) {
    && |s| == n
    && (forall i :: 0 <= i < n ==> Prime(s[i]))
    && (forall i, j :: 0 <= i < j < n ==> s[i] < s[j])
    && (forall i, p :: 0 <= i < n && Prime(p) && p < s[i] ==> p in s)
  }

  /** There is only one list of the first n primes. */
  lemma {:induction false} FirstPrimesUnique(s: seq<int>, t: seq<int>, n: nat)
    requires FirstPrimes(s, n) && FirstPrimes(t, n)
    ensures s == t
  {
    if n > 0 {
      FirstPrimesPrefix(s, n);
      FirstPrimesPrefix(t, n);
      FirstPrimesUnique(s[..n - 1], t[..n - 1], n - 1);
      LastNotLess(s, t, n);
      LastNotLess(t, s, n);
      assert s == s[..n - 1] + [s[n - 1]] && t == t[..n - 1] + [t[n - 1]];
    }
  }

  lemma FirstPrimesPrefix(s: seq<int>, n: nat)
    requires FirstPrimes(s, n) && n > 0
    ensures FirstPrimes(s[..n - 1], n - 1)
  {
    var r := s[..n - 1];
    forall i, p | 0 <= i < n - 1 && Prime(p) && p < r[i] ensures p in r {
      var j :| 0 <= j < n && s[j] == p;
      assert j < i;
      assert r[j] == p;
    }
  }

  lemma LastNotLess(s: seq<int>, t: seq<int>, n: nat)
    requires FirstPrimes(s, n) && FirstPrimes(t, n) && n > 0 && s[..n - 1] == t[..n - 1]
    ensures s[n - 1] <= t[n - 1]
  {
    assert Prime(t[n - 1]);
    assert forall j :: 0 <= j < n - 1 ==> s[j] == s[..n - 1][j] == t[..n - 1][j] == t[j];
  }
}
