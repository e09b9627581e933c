/** What several models share: bytes, options, powers of two, and products that follow their factors. */
module Basics {

  newtype Byte = b: int | 0 <= b < 256

  datatype Option<+T> = None | Some(value: T)

  /** Places in a sequence of length n, each once and in order. */
  ghost predicate Rising(places: seq<nat>, n: nat) {
    && (forall k :: 0 <= k < |places| ==> places[k] < n)
    && forall k, l :: 0 <= k < l < |places| ==> places[k] < places[l]
  }

  /** out has one element for each element of s to be kept, in the same order, and made from it. */
  ghost predicate Selected<S, T>(s: seq<S>, keep: S -> bool, made: (S, T) -> bool, out: seq<T>, places: seq<nat>) {
    && Rising(places, |s|) && |places| == |out|
    && (forall i :: 0 <= i < |s| ==> (i in places <==> keep(s[i])))
    && forall k :: 0 <= k < |places| ==> made(s[places[k]], out[k])
  }

  lemma SelectedNone<S, T>(keep: S -> bool, made: (S, T) -> bool)
    ensures Selected([], keep, made, [], [])
  {
  }

  /** One more element at the end that is not kept. */
  lemma SelectedPast<S, T>(s: seq<S>, keep: S -> bool, made: (S, T) -> bool, out: seq<T>, places: seq<nat>, x: S)
    requires Selected(s, keep, made, out, places) && !keep(x)
    ensures Selected(s + [x], keep, made, out, places)
  {
    assert |s| !in places;
  }

  /** One more element at the end that is kept. */
  lemma SelectedMore<S, T>(s: seq<S>, keep: S -> bool, made: (S, T) -> bool, out: seq<T>, places: seq<nat>, x: S, y: T)
    requires Selected(s, keep, made, out, places) && keep(x) && made(x, y)
    ensures Selected(s + [x], keep, made, out + [y], places + [|s|])
  {
    var more := places + [|s|];
    assert more[|places|] == |s|;
    forall i | 0 <= i < |s + [x]| ensures i in more <==> keep((s + [x])[i]) {
      if i < |s| {
        assert i in more <==> i in places;
      }
    }
  }

  /** The same places one further on. */
  function Later(places: seq<nat>): (later: seq<nat>)
    ensures |later| == |places| && forall k :: 0 <= k < |places| ==> later[k] == places[k] + 1
  {
    seq(|places|, k requires 0 <= k < |places| => places[k] + 1)
  }

  lemma InLater(places: seq<nat>, i: nat)
    ensures i in Later(places) <==> i > 0 && i - 1 in places
    ensures i in [0] + Later(places) <==> i == 0 || i - 1 in places
  {
    if i > 0 && i - 1 in places {
      var k :| 0 <= k < |places| && places[k] == i - 1;
      assert Later(places)[k] == i && ([0] + Later(places))[k + 1] == i;
    }
  }

  /** One more element in front that is not kept. */
  lemma SelectedBefore<S, T>(s: seq<S>, keep: S -> bool, made: (S, T) -> bool, out: seq<T>, places: seq<nat>, x: S)
    requires Selected(s, keep, made, out, places) && !keep(x)
    ensures Selected([x] + s, keep, made, out, Later(places))
  {
    forall i | 0 <= i < |[x] + s| ensures i in Later(places) <==> keep(([x] + s)[i]) {
      InLater(places, i);
    }
  }

  lemma RisingLater(places: seq<nat>, n: nat)
    requires Rising(places, n)
    ensures Rising([0] + Later(places), n + 1)
  {
    var more := [0] + Later(places);
    assert forall k :: 0 < k < |more| ==> more[k] == places[k - 1] + 1;
  }

  /** One more element in front that is kept. */
  lemma SelectedFirst<S, T>(s: seq<S>, keep: S -> bool, made: (S, T) -> bool, out: seq<T>, places: seq<nat>, x: S, y: T)
    requires Selected(s, keep, made, out, places) && keep(x) && made(x, y)
    ensures Selected([x] + s, keep, made, [y] + out, [0] + Later(places))
  {
    var more := [0] + Later(places);
    RisingLater(places, |s|);
    hide Rising;
    assert forall k :: 0 < k < |more| ==> more[k] == places[k - 1] + 1;
    forall k | 0 <= k < |more| ensures more[k] < |[x] + s| && made(([x] + s)[more[k]], ([y] + out)[k]) {
      if k > 0 {
        assert more[k] == places[k - 1] + 1 && ([x] + s)[more[k]] == s[places[k - 1]];
      }
    }
    forall i | 0 <= i < |[x] + s| ensures i in more <==> keep(([x] + s)[i]) {
      InLater(places, i);
    }
  }

  /** A sequence without its element at k. */
  function Without<T>(s: seq<T>, k: nat): seq<T>
    requires k < |s|
  {
    s[..k] + s[k + 1..]
  }

  function Pow2(k: nat): (p: nat)
    ensures p > 0
  {
    if k == 0 then 1 else 2 * Pow2(k - 1)
  }

  lemma {:induction false} Pow2Add(a: nat, b: nat)
    ensures Pow2(a + b) == Pow2(a) * Pow2(b)
  {
    if b > 0 {
      Pow2Add(a, b - 1);
      assert Pow2(a + b) == 2 * (Pow2(a) * Pow2(b - 1));
    }
  }

  lemma {:induction false} Pow2Grows(j: nat, k: nat)
    requires j < k
    ensures 2 * Pow2(j) <= Pow2(k)
  {
    if j + 1 < k {
      Pow2Grows(j, k - 1);
    }
  }

  lemma MulMono(a: int, b: int, c: int)
    requires c >= 0
    ensures a <= b ==> a * c <= b * c
  {
  }
}
