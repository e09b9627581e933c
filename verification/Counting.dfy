/** Sums of a natural-valued function over a sequence, and how one update moves them.
    The interleaving models count processes, tokens and references with it. */
module Counting {

  function Sum<T>(f: T -> nat, s: seq<T>): nat {
    if s == [] then 0 else f(s[0]) + Sum(f, s[1..])
  }

  lemma {:induction false} SumUpdate<T>(f: T -> nat, s: seq<T>, i: nat, x: T)
    requires i < |s|
    ensures Sum(f, s[i := x]) + f(s[i]) == Sum(f, s) + f(x)
  {
    if i == 0 {
      assert s[i := x][1..] == s[1..];
    } else {
      assert s[i := x][1..] == s[1..][i - 1 := x];
      SumUpdate(f, s[1..], i - 1, x);
    }
  }

  lemma {:induction false} SumAtLeast<T>(f: T -> nat, s: seq<T>, i: nat)
    requires i < |s|
    ensures f(s[i]) <= Sum(f, s)
  {
    if i > 0 {
      SumAtLeast(f, s[1..], i - 1);
    }
  }

  lemma {:induction false} SumAtLeastTwo<T>(f: T -> nat, s: seq<T>, i: nat, j: nat)
    requires i < j < |s|
    ensures f(s[i]) + f(s[j]) <= Sum(f, s)
  {
    if i == 0 {
      SumAtLeast(f, s[1..], j - 1);
    } else {
      SumAtLeastTwo(f, s[1..], i - 1, j - 1);
    }
  }

  /** A sum is positive only because some term is. */
  lemma {:induction false} SumWitness<T>(f: T -> nat, s: seq<T>) returns (i: nat)
    requires Sum(f, s) > 0
    ensures i < |s| && f(s[i]) > 0
  {
    if f(s[0]) > 0 {
      i := 0;
    } else {
      i := SumWitness(f, s[1..]);
      i := i + 1;
    }
  }

  lemma {:induction false} SumZero<T>(f: T -> nat, s: seq<T>)
    requires forall i :: 0 <= i < |s| ==> f(s[i]) == 0
    ensures Sum(f, s) == 0
  {
    if s != [] {
      assert f(s[0]) == 0;
      forall i | 0 <= i < |s[1..]| ensures f(s[1..][i]) == 0 {
        assert s[1..][i] == s[i + 1];
      }
      SumZero(f, s[1..]);
    }
  }
}
