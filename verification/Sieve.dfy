/** The sieve of primes3.c, and its agreement with the search by trial division. */
module Sieve {
  import opened Basics
  import PrimeCount
  import opened Primes
  import PrimeSearch

  /** No d below i with d * d <= k divides k: what the table records when the outer loop is at i. */
  ghost predicate Survives(k: int, i: int) {
    forall d :: 2 <= d < i && d * d <= k ==> !Divides(d, k)
  }

  /** Once i * i exceeds k, the survivors are the primes. */
  lemma SurvivorsArePrime(k: int, i: int)
    requires 2 <= k < i * i && i >= 2
    ensures Survives(k, i) <==> Prime(k)
  {
    if !Prime(k) {
      var d := SmallFactor(k);
      MulMono(i, d, i);
      MulMono(i, d, d);
    } else {
      forall d | 2 <= d < i && d * d <= k ensures !Divides(d, k) {
        MulMono(2, d, d);
      }
    }
  }

  /** A number already crossed out adds nothing: its multiples from its square on are crossed out too. */
  lemma CrossedAddsNothing(i: int, k: int)
    requires i >= 2 && k >= 0 && !Survives(i, i) && Divides(i, k) && i * i <= k
    ensures !Survives(k, i)
  {
    var d :| 2 <= d < i && d * d <= i && Divides(d, i);
    DividesTransitive(d, i, k);
    MulMono(1, i, i);
  }

  lemma NoMultipleBetween(i: int, m: int, k: int)
    requires i >= 2 && i * m < k < i * (m + 1)
    ensures !Divides(i, k)
  {
    if Divides(i, k) {
      var q := k / i;
      assert i * q == k;
      MulMono(q, m, i);
      MulMono(m + 1, q, i);
    }
  }

  /** The inner loop: from i * i on, clear every multiple of i.  j is the value its variable ends at. */
  method ClearMultiples(isPrime: array<bool>, i: int) returns (j: int)
    requires i >= 2 && i * i < isPrime.Length
    modifies isPrime
    ensures isPrime.Length <= j < isPrime.Length + i
    ensures forall k :: 0 <= k < isPrime.Length ==>
      isPrime[k] == (old(isPrime[k]) && !(i * i <= k && Divides(i, k)))
  {
    j := i * i;
    ghost var m := i;
    while j < isPrime.Length
      invariant j == i * m && m >= i && i * i <= j < isPrime.Length + i
      invariant forall k :: 0 <= k < isPrime.Length ==>
        isPrime[k] == (old(isPrime[k]) && !(i * i <= k < j && Divides(i, k)))
      decreases isPrime.Length - j
    {
      MultipleDivides(i, m);
      isPrime[j] := false;
      forall k | j < k < j + i ensures !Divides(i, k) {
        NoMultipleBetween(i, m, k);
      }
      j := j + i;
      m := m + 1;
    }
  }

  function Max(a: int, b: int): int {
    if a < b then b else a
  }

  /** The marking loops: the table holds exactly the primes up to its limit.  probe is where the outer loop ends, and
      top the greatest integer evaluated: it is the last square, or the last multiple of some number. */
  method MarkPrimes(limit: nat) returns (isPrime: array<bool>, ghost probe: int, ghost top: int)
    ensures probe >= 2 && probe * probe > limit && (probe == 2 || (probe - 1) * (probe - 1) <= limit)
    ensures limit < top && probe * probe <= top <= Max(probe * probe, limit + probe)
    ensures isPrime.Length == limit + 1 && fresh(isPrime)
    ensures forall k :: 0 <= k <= limit ==> (isPrime[k] <==> Prime(k))
  {
    isPrime := new bool[limit + 1](_ => false);
    var i := 2;
    while i <= limit
      invariant i >= 2
      invariant forall k :: 0 <= k <= limit ==> (isPrime[k] <==> 2 <= k < i)
    {
      isPrime[i] := true;
      i := i + 1;
    }
    i := 2;
    top := Max(limit + 1, i * i);
    while i * i <= limit
      invariant i >= 2 && (i == 2 || (i - 1) * (i - 1) <= limit)
      invariant limit < top && i * i <= top <= Max(i * i, limit + i)
      invariant forall k :: 0 <= k <= limit ==> (isPrime[k] <==> k >= 2 && Survives(k, i))
      decreases limit - i
    {
      MulMono(2, i, i);
      assert isPrime[i] <==> Survives(i, i);
      ghost var before := isPrime[..];
      if isPrime[i] {
        var j := ClearMultiples(isPrime, i);
        top := Max(top, j);
      }
      forall k | 2 <= k <= limit ensures isPrime[k] <==> Survives(k, i + 1) {
        assert before[k] <==> Survives(k, i);
        OneMore(i, k);
        if !before[i] && i * i <= k && Divides(i, k) {
          CrossedAddsNothing(i, k);
        }
      }
      NextSquare(i);
      i := i + 1;
      top := Max(top, i * i);
    }
    probe := i;
    forall k | 2 <= k <= limit ensures isPrime[k] <==> Prime(k) {
      SurvivorsArePrime(k, i);
    }
  }

  lemma NextSquare(i: int)
    requires i >= 0
    ensures i * i <= (i + 1) * (i + 1)
  {
  }

  lemma OneMore(i: int, k: int)
    requires i >= 2
    ensures Survives(k, i + 1) <==> Survives(k, i) && !(i * i <= k && Divides(i, k))
  {
  }

  /** The primes up to 20 * n, cut off at n of them. */
  ghost predicate CutOff(n: nat, printed: seq<int>) {
    && |printed| <= n
    && (|printed| == n ==> FirstPrimes(printed, n))
    && (|printed| < n ==> PrimesBelow(printed, 20 * n + 1))
    && (forall i :: 0 <= i < |printed| ==> printed[i] <= 20 * n)
  }

  lemma NoneBelowTwo()
    ensures PrimesBelow([], 2)
  {
  }

  /** The integers of the marking loops are 32-bit ones exactly while the limit is less than 46340 * 46340. */
  lemma SquaresFit(limit: nat, probe: int, top: int)
    requires probe >= 2 && probe * probe > limit && (probe == 2 || (probe - 1) * (probe - 1) <= limit)
    requires limit < top && probe * probe <= top <= Max(probe * probe, limit + probe)
    ensures top <= PrimeSearch.INT_MAX <==> limit < 46340 * 46340
  {
    if limit < 46340 * 46340 {
      if probe > 46340 {
        MulMono(46340, probe - 1, 46340);
        MulMono(46340, probe - 1, probe - 1);
      }
      MulMono(probe, 46340, probe);
      MulMono(probe, 46340, 46340);
    } else if probe <= 46340 {
      MulMono(probe, 46340, probe);
      MulMono(probe, 46340, 46340);
    } else {
      MulMono(46341, probe, 46341);
      MulMono(46341, probe, probe);
    }
  }

  /** sieve(n): mark up to 20 * n and print the first primes of the table, at most n of them.  top is the greatest
      integer it evaluates, which is a 32-bit one exactly for n up to 107369779. */
  method Sieve(n: nat) returns (printed: seq<int>, ghost top: int)
    ensures CutOff(n, printed)
    ensures top <= PrimeSearch.INT_MAX <==> n <= 107369779
  {
    var limit := n * 20;
    var isPrime;
    ghost var probe;
    isPrime, probe, top := MarkPrimes(limit);
    SquaresFit(limit, probe, top);
    hide Prime, PrimesBelow, FirstPrimes;
    NoneBelowTwo();
    var count := 0;
    printed := [];
    var i := 2;
    while i <= limit && count < n
      invariant 2 <= i && count == |printed| <= n
      invariant i <= limit + 1 || limit < 2
      invariant PrimesBelow(printed, i)
      modifies {}
      invariant forall k :: 0 <= k < |printed| ==> printed[k] <= limit
    {
      if isPrime[i] {
        PrimeSearch.ExtendPrimes(printed, i);
        printed := printed + [i];
        count := count + 1;
      } else {
        PrimeSearch.SkipComposite(printed, i);
      }
      i := i + 1;
    }
    if count == n {
      PrimeSearch.BelowAreFirst(printed, n, i);
    } else {
      assert i > limit;
    }
  }

  /** The sieve agrees with the search: it prints the first n primes exactly when the n-th of them is within
      its table, that is at most 20 * n. */
  lemma SieveAgrees(n: nat, printed: seq<int>, searched: seq<int>)
    requires CutOff(n, printed)
    requires FirstPrimes(searched, n)
    ensures printed == searched <==> n == 0 || searched[n - 1] <= 20 * n
  {
    if |printed| == n {
      FirstPrimesUnique(printed, searched, n);
    } else {
      if searched[n - 1] <= 20 * n {
        TooFew(printed, searched, n, 20 * n + 1);
      }
    }
  }

  /** A range of n that can be checked before the call: for every n up to 52428 the table is large enough, so the sieve
      prints exactly the first n primes. */
  lemma SieveSuffices(n: nat, printed: seq<int>)
    requires n <= 52428 && CutOff(n, printed)
    ensures FirstPrimes(printed, n)
  {
    if |printed| < n {
      assert Pow2(10) == 1024;
      Pow2Add(10, 10);
      hide Prime;
      PrimeCount.ManyPrimes(printed, 10 * n - 1, 20);
    }
  }

  /** A complete list of the primes below a bound is not shorter than an increasing list of primes below it. */
  lemma TooFew(s: seq<int>, t: seq<int>, n: nat, bound: int)
    requires PrimesBelow(s, bound) && FirstPrimes(t, n) && n > 0 && t[n - 1] < bound
    ensures |s| >= n
  {
    SamePrefix(s, t, n, bound, n - 1);
  }

  lemma {:induction false} SamePrefix(s: seq<int>, t: seq<int>, n: nat, bound: int, i: nat)
    requires PrimesBelow(s, bound) && FirstPrimes(t, n) && i < n && t[n - 1] < bound
    ensures i < |s| && forall k :: 0 <= k <= i ==> s[k] == t[k]
  {
    hide Prime;
    if i > 0 {
      SamePrefix(s, t, n, bound, i - 1);
    }
    assert t[i] <= t[n - 1] && t[i] in s;
    var j :| 0 <= j < |s| && s[j] == t[i];
    assert i <= j;
    assert Prime(s[i]) && s[i] <= t[i];
    assert s[i] in t;
    assert forall k :: 0 <= k < n && t[k] == s[i] ==> i <= k;
  }
}
