/** A lower bound on the number of primes below a limit, from the size of the common multiples of 1 .. N. */
module PrimeCount {
  import opened Basics
  import opened Primes

  // ---------- binomial coefficients ----------

  function Choose(n: nat, k: nat): nat {
    if k == 0 then 1 else if n == 0 then 0 else Choose(n - 1, k - 1) + Choose(n - 1, k)
  }

  lemma {:induction false} Absorb(n: nat, k: nat)
    requires n >= 1 && k >= 1
    ensures k * Choose(n, k) == n * Choose(n - 1, k - 1)
  {
    if n == 1 {
      if k > 1 {
        assert Choose(0, k - 1) == 0 && Choose(0, k) == 0;
      } else {
        assert Choose(0, 1) == 0 && Choose(0, 0) == 1;
      }
    } else {
      var a, b := Choose(n - 1, k - 1), Choose(n - 1, k);
      Absorb(n - 1, k);
      if k > 1 {
        Absorb(n - 1, k - 1);
        assert (k - 1) * a == (n - 1) * Choose(n - 2, k - 2);
        assert a == Choose(n - 2, k - 2) + Choose(n - 2, k - 1);
        Pascal(n, k, a, b, Choose(n - 2, k - 2), Choose(n - 2, k - 1));
      } else {
        assert a == 1 && Choose(n - 2, 0) == 1;
      }
    }
  }

  lemma Pascal(n: int, k: int, a: int, b: int, x: int, y: int)
    requires (k - 1) * a == (n - 1) * x && k * b == (n - 1) * y && a == x + y
    ensures k * (a + b) == n * a
  {
    assert k * (a + b) == (k - 1) * a + a + k * b;
    assert (n - 1) * a == (n - 1) * x + (n - 1) * y;
    assert n * a == (n - 1) * a + a;
  }

  /** Neighbours in a row. */
  lemma Ratio(n: nat, k: nat)
    requires 1 <= k <= n + 1
    ensures k * Choose(n, k) == (n + 1 - k) * Choose(n, k - 1)
  {
    Absorb(n + 1, k);
    var x, y := Choose(n, k - 1), Choose(n, k);
    assert k * (x + y) == (n + 1) * x;
    assert k * (x + y) == k * x + k * y;
    assert (n + 1 - k) * x == (n + 1) * x - k * x;
  }

  /** The middle coefficient is at least a 2m-th of its row. */
  lemma {:induction false} MiddleIsLarge(m: nat)
    requires m >= 1
    ensures 2 * m * Choose(2 * m, m) >= Pow2(2 * m)
  {
    if m == 1 {
      assert Choose(1, 0) == 1 && Choose(0, 0) == 1 && Choose(0, 1) == 0 && Choose(1, 1) == 1 && Choose(2, 1) == 2;
      assert Pow2(2) == 4;
    } else {
      MiddleIsLarge(m - 1);
      NextMiddle(m - 1);
      Grown(m, Choose(2 * (m - 1), m - 1), Choose(2 * m, m), Pow2(2 * (m - 1)));
      assert Pow2(2 * m) == 2 * Pow2(2 * m - 1);
    }
  }

  lemma Grown(m: int, c: int, next: int, p: int)
    requires 2 * (m - 1) * c >= p && m * next == 2 * ((2 * (m - 1) + 1) * c) && c >= 0
    ensures 2 * m * next >= 4 * p
  {
    assert 2 * m * next == 2 * (m * next);
    MulMono(2 * (m - 1), 2 * (m - 1) + 1, c);
  }

  lemma NextMiddle(m: nat)
    ensures (m + 1) * Choose(2 * m + 2, m + 1) == 2 * ((2 * m + 1) * Choose(2 * m, m))
  {
    var c, e := Choose(2 * m + 1, m), Choose(2 * m + 1, m + 1);
    Absorb(2 * m + 2, m + 1);
    Ratio(2 * m + 1, m + 1);
    Absorb(2 * m + 1, m + 1);
    hide Choose;
    Combine(m, Choose(2 * m + 2, m + 1), c, e, Choose(2 * m, m));
  }

  lemma Combine(m: int, next: int, c: int, e: int, g: int)
    requires (m + 1) * next == (2 * m + 2) * c && (m + 1) * e == (2 * m + 2 - (m + 1)) * c
    requires (m + 1) * e == (2 * m + 1) * g
    ensures (m + 1) * next == 2 * ((2 * m + 1) * g)
  {
    assert (2 * m + 2) * c == 2 * ((m + 1) * c);
  }

  // ---------- common multiples ----------

  ghost predicate CommonMultiple(d: nat, n: nat) {
    forall k :: 1 <= k <= n ==> Divides(k, d)
  }

  /** n times a coefficient of row n - 1 divides every common multiple of 1 .. n. */
  lemma {:induction false} RowDivides(d: nat, n: nat, k: nat) returns (q: int)
    requires 0 <= k < n && CommonMultiple(d, n)
    ensures q * (n * Choose(n - 1, k)) == d
    decreases n, k
  {
    if k == 0 {
      q := Primes.Product(n, d);
    } else {
      var a := RowDivides(d, n - 1, k - 1);
      var b := RowDivides(d, n, k - 1);
      q := a - b;
      var c := Choose(n - 1, k);
      Absorb(n - 1, k);
      Ratio(n - 1, k);
      Difference(d, n, k, a, b, c, (n - 1) * Choose(n - 2, k - 1), Choose(n - 1, k - 1));
    }
  }

  lemma Difference(d: int, n: int, k: int, a: int, b: int, c: int, above: int, left: int)
    requires k > 0 && a * above == d && b * (n * left) == d && above == k * c && k * c == (n - k) * left
    ensures (a - b) * (n * c) == d
  {
    assert a * (k * c) == d;
    assert k * ((a - b) * (n * c)) == n * (a * (k * c)) - b * (n * (k * c));
    assert b * (n * (k * c)) == b * (n * ((n - k) * left)) == (n - k) * (b * (n * left)) == (n - k) * d;
    assert n * d - (n - k) * d == k * d;
    Cancel(k, (a - b) * (n * c), d);
  }

  lemma Cancel(k: int, x: int, y: int)
    requires k > 0 && k * x == k * y
    ensures x == y
  {
    MulMono(x + 1, y, k);
    MulMono(y + 1, x, k);
  }

  /** Every positive common multiple of 1 .. 2m + 1 is at least 4^m. */
  lemma CommonMultipleIsLarge(d: nat, m: nat)
    requires m >= 1 && d > 0 && CommonMultiple(d, 2 * m + 1)
    ensures d >= Pow2(2 * m)
  {
    var c := Choose(2 * m, m);
    var q := RowDivides(d, 2 * m + 1, m);
    MiddleIsLarge(m);
    var x := (2 * m + 1) * c;
    assert x == 2 * m * c + c;
    if q <= 0 {
      MulMono(q, 0, x);
    }
    MulMono(1, q, x);
  }

  // ---------- a small common multiple ----------

  /** The largest power of p that is at most n. */
  function MaxPower(p: nat, n: nat): (x: nat)
    requires p >= 2
    ensures x >= 1 && (n >= 1 ==> x <= n)
  {
    if n < p then 1
    else
      Quotient(p, n);
      p * MaxPower(p, n / p)
  }

  lemma DivMod(p: nat, n: nat)
    requires p >= 2
    ensures p * (n / p) <= n < p * (n / p + 1)
  {
    assert p * (n / p + 1) == p * (n / p) + p;
  }

  lemma Quotient(p: nat, n: nat)
    requires p >= 2 && n >= p
    ensures 1 <= n / p < n && p * (n / p) <= n && forall x :: x <= n / p ==> p * x <= n
  {
    DivMod(p, n);
    var q := n / p;
    Bounds(p, n, q);
  }

  lemma Bounds(p: nat, n: nat, q: nat)
    requires p >= 2 && n >= p && p * q <= n < p * (q + 1)
    ensures 1 <= q < n && forall x :: x <= q ==> p * x <= n
  {
    MulMono(q, 0, p);
    MulMono(2, p, q);
    forall x | x <= q ensures p * x <= n {
      MulMono(x, q, p);
    }
  }

  function PowersBelow(ps: seq<int>, n: nat): (x: nat)
    requires forall i :: 0 <= i < |ps| ==> ps[i] >= 2
    ensures x >= 1
  {
    if ps == [] then 1 else MaxPower(ps[0], n) * PowersBelow(ps[1..], n)
  }

  lemma Within(a: nat, b: nat, x: nat, y: nat)
    requires a <= x && b <= y
    ensures a * b <= x * y
  {
    MulMono(a, x, b);
    MulMono(b, y, x);
  }

  lemma {:induction false} PowersAreSmall(ps: seq<int>, n: nat, j: nat)
    requires forall i :: 0 <= i < |ps| ==> ps[i] >= 2
    requires 1 <= n <= Pow2(j)
    ensures PowersBelow(ps, n) <= Pow2(j * |ps|)
  {
    if ps != [] {
      PowersAreSmall(ps[1..], n, j);
      var a, b, i := MaxPower(ps[0], n), PowersBelow(ps[1..], n), |ps[1..]|;
      assert PowersBelow(ps, n) == a * b;
      hide *;
      Within(a, b, Pow2(j), Pow2(j * i));
      MoreFactors(j, i);
    }
  }

  lemma MoreFactors(j: nat, i: nat)
    ensures Pow2(j) * Pow2(j * i) == Pow2(j * (i + 1))
  {
    assert j * (i + 1) == j + j * i;
    Pow2Add(j, j * i);
  }

  /** k is a power of p that divides the largest one below n, times a number p does not divide. */
  lemma {:induction false} Strip(p: nat, n: nat, k: nat) returns (v: nat, w: nat, rest: nat)
    requires p >= 2 && 1 <= k <= n
    ensures v * rest == k && v * w == MaxPower(p, n) && 1 <= rest <= k && !Divides(p, rest)
    decreases k
  {
    if Divides(p, k) {
      var x := Primes.Product(p, k);
      Halves(p, k, x, n);
      Quotient(p, n);
      hide Divides;
      v, w, rest := Strip(p, n / p, x);
      Regroup(p, v, rest);
      Regroup(p, v, w);
      v := p * v;
    } else {
      v, w, rest := 1, MaxPower(p, n), k;
    }
  }

  lemma Regroup(a: int, b: int, c: int)
    ensures (a * b) * c == a * (b * c)
  {
  }

  lemma Halves(p: nat, k: nat, x: nat, n: nat)
    requires p >= 2 && k == p * x && 1 <= k <= n
    ensures p <= n && 1 <= x < k && x <= n / p
  {
    DivMod(p, n);
    MulMono(n / p + 1, x, p);
    MulMono(x, 0, p);
    MulMono(1, x, p);
    MulMono(2, p, x);
  }

  /** Every number up to n whose prime factors are among ps divides the product of the powers. */
  lemma {:induction false} PowersCover(ps: seq<int>, n: nat, k: nat) returns (q: nat)
    requires forall i :: 0 <= i < |ps| ==> ps[i] >= 2 && Prime(ps[i])
    requires 1 <= k <= n && forall r :: Prime(r) && Divides(r, k) ==> r in ps
    ensures k * q == PowersBelow(ps, n)
    decreases |ps|
  {
    if ps == [] {
      if k >= 2 {
        var r := PrimeFactor(k);
        assert false;
      }
      q := 1;
    } else {
      var v, w, rest := Strip(ps[0], n, k);
      forall r | Prime(r) && Divides(r, rest) ensures r in ps[1..] {
        MultipleDivides(rest, v);
        assert rest * v == k;
        DividesTransitive(r, rest, k);
        assert r != ps[0];
      }
      hide Divides, Prime;
      var q' := PowersCover(ps[1..], n, rest);
      q := w * q';
      Exchange(v, rest, w, q');
    }
  }

  lemma Exchange(a: int, b: int, c: int, d: int)
    ensures (a * b) * (c * d) == (a * c) * (b * d)
  {
    Regroup(a, b, c * d);
    assert b * (c * d) == c * (b * d);
    Regroup(a, c, b * d);
  }

  /** With N = 2m + 1 at most 2^j, there are at least 2m / j primes up to N. */
  lemma ManyPrimes(ps: seq<int>, m: nat, j: nat)
    requires m >= 1 && 2 * m + 1 <= Pow2(j)
    requires forall i :: 0 <= i < |ps| ==> Prime(ps[i])
    requires forall r :: Prime(r) && r <= 2 * m + 1 ==> r in ps
    ensures j * |ps| >= 2 * m
  {
    var n := 2 * m + 1;
    var d := PowersBelow(ps, n);
    forall k | 1 <= k <= n ensures Divides(k, d) {
      forall r | Prime(r) && Divides(r, k) ensures r in ps {
        FactorBelow(r, k);
      }
      var q := PowersCover(ps, n, k);
      MultipleDivides(k, q);
    }
    CommonMultipleIsLarge(d, m);
    PowersAreSmall(ps, n, j);
    if j * |ps| < 2 * m {
      Pow2Grows(j * |ps|, 2 * m);
    }
  }

  lemma FactorBelow(r: int, k: int)
    requires r >= 2 && k >= 1 && Divides(r, k)
    ensures r <= k
  {
    var q := Primes.Product(r, k);
    MulMono(1, q, r);
  }
}
