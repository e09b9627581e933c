/** Trial division, the search for the first n primes, and its variant with a doubling array. */
module PrimeSearch {
  import opened Basics
  import opened Primes

  const INT_MAX: int := 0x7FFF_FFFF

  /** is_prime, with the loop variable it stops at.  All squares it evaluates are at most probe * probe, so on
      32-bit ints it overflows exactly for the primes from 46340 * 46340 on. */
  method IsPrime(n: int) returns (b: bool, probe: int)
    ensures b <==> Prime(n)
    ensures n >= 2 ==> probe >= 2 && forall j :: 2 <= j < probe ==> j * j <= n
    ensures 2 <= n <= INT_MAX ==> (probe * probe <= INT_MAX <==> n < 46340 * 46340 || !b)
  {
    probe := 2;
    if n < 2 {
      return false, probe;
    }
    while probe * probe <= n
      invariant probe >= 2
      invariant forall j :: 2 <= j < probe ==> j * j <= n && !Divides(j, n)
      decreases n - probe
    {
      if n % probe == 0 {
        assert Divides(probe, n);
        MulMono(2, probe, probe);
        return false, probe;
      }
      MulMono(2, probe, probe);
      probe := probe + 1;
    }
    SquareRoot(n, probe);
    return true, probe;
  }

  /** Trial division may stop when the square exceeds n; at that point the probe is above 46340 only if n is at
      least 46340 * 46340. */
  lemma SquareRoot(n: int, probe: int)
    requires n >= 2 && probe >= 2 && probe * probe > n
    requires forall j :: 2 <= j < probe ==> j * j <= n && !Divides(j, n)
    ensures Prime(n)
    ensures n <= INT_MAX ==> (probe * probe <= INT_MAX <==> n < 46340 * 46340)
  {
    if !Prime(n) {
      var d := SmallFactor(n);
      MulMono(probe, d, d);
      MulMono(probe, d, probe);
    }
    MulMono(46341, probe, probe);
    MulMono(46341, probe, 46341);
    MulMono(probe, 46340, 46340);
    MulMono(probe, 46340, probe);
  }

  /** The search loop of main: primes[count] collects every prime met. */
  method SearchInto(primes: array<int>, n: nat)
    requires primes.Length >= n
    modifies primes
    ensures FirstPrimes(primes[..n], n)
  {
    var count, num := 0, 2;
    ghost var next := PrimeBeyond(1);
    while count < n
      invariant 0 <= count <= n && 2 <= num <= next && Prime(next)
      invariant PrimesBelow(primes[..count], num)
      decreases n - count, next - num
    {
      var b, _ := IsPrime(num);
      if b {
        ghost var found := primes[..count];
        primes[count] := num;
        count := count + 1;
        assert primes[..count] == found + [num];
        next := PrimeBeyond(num);
        ExtendPrimes(found, num);
      } else {
        SkipComposite(primes[..count], num);
      }
      num := num + 1;
    }
    BelowAreFirst(primes[..n], n, num);
  }

  lemma ExtendPrimes(s: seq<int>, p: int)
    requires PrimesBelow(s, p) && Prime(p)
    ensures PrimesBelow(s + [p], p + 1)
  {
    var t := s + [p];
    forall q | Prime(q) && q < p + 1 ensures q in t {
      if q == p {
        assert t[|s|] == p;
      }
    }
  }

  lemma SkipComposite(s: seq<int>, n: int)
    requires PrimesBelow(s, n) && !Prime(n)
    ensures PrimesBelow(s, n + 1)
  {
  }

  lemma BelowAreFirst(s: seq<int>, n: nat, bound: int)
    requires PrimesBelow(s, bound) && |s| == n
    ensures FirstPrimes(s, n)
  {
  }

  /** primes.c: the array has exactly n elements. */
  method FirstNPrimes(n: nat) returns (primes: array<int>)
    ensures primes.Length == n && FirstPrimes(primes[..], n)
    ensures fresh(primes)
  {
    primes := new int[n];
    SearchInto(primes, n);
    assert primes[..n] == primes[..];
  }

  /** The doubling loop of primes2.c: the least capacity reachable by doubling that holds n elements. */
  method Grow(capacity: nat, n: nat) returns (newCapacity: nat)
    ensures newCapacity >= n
    ensures exists k: nat :: newCapacity == (if capacity == 0 then 8 else capacity) * Pow2(k) &&
                        (k > 0 ==> (if capacity == 0 then 8 else capacity) * Pow2(k - 1) < n)
  {
    var start := if capacity == 0 then 8 else capacity;
    newCapacity := start;
    ghost var k := 0;
    while newCapacity < n
      invariant newCapacity == start * Pow2(k)
      invariant k > 0 ==> start * Pow2(k - 1) < n
      decreases n - newCapacity
    {
      newCapacity := newCapacity * 2;
      k := k + 1;
      assert start * Pow2(k) == 2 * (start * Pow2(k - 1));
    }
  }

  /** Starting from 8, the doubling stays within a 32-bit int exactly for n up to 2^30. */
  lemma GrowFits(n: nat, k: nat, newCapacity: nat)
    requires newCapacity == 8 * Pow2(k) && newCapacity >= n && (k > 0 ==> 8 * Pow2(k - 1) < n)
    ensures newCapacity <= INT_MAX <==> n <= 0x4000_0000
  {
    assert Pow2(27) == 0x800_0000 by {
      assert Pow2(9) == 512;
      assert Pow2(18) == 0x4_0000 by { Pow2Add(9, 9); }
      Pow2Add(18, 9);
    }
    if k > 27 {
      Pow2Grows(27, k);
      assert Pow2(k - 1) >= Pow2(27) by { if k - 1 > 27 { Pow2Grows(27, k - 1); } }
    } else if k < 27 {
      Pow2Grows(k, 27);
    }
  }

  /** primes2.c: the array may be longer than n, and its first n elements are the first n primes. */
  method FirstNPrimesGrown(n: nat) returns (primes: array<int>)
    ensures primes.Length >= n && FirstPrimes(primes[..n], n)
    ensures fresh(primes)
  {
    var capacity := Grow(0, n);
    primes := new int[capacity];
    SearchInto(primes, n);
  }
}
