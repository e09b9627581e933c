/** The bodies of foo_alloc, foo_find and foo_rele as they run undisturbed, on objects linked in place: what each call
    does to the table between taking and giving back its locks.  RefTable has the interleavings. */
module HashChains {
  import opened Basics
  import RefTable

  const NHASH := RefTable.NHASH

  function Hash(id: int): (b: nat)
    ensures b < NHASH
  {
    RefTable.Hash(id)
  }

  class Foo {
    var count: int
    const id: int
    var next: Foo?

    constructor (id: int)
      ensures this.id == id && count == 1
    {
      this.id := id;
      count, next := 1, null;
    }
  }

  type Chain = seq<Foo>

  function NodeAt(c: Chain, i: int): Foo? {
    if 0 <= i < |c| then c[i] else null
  }

  /** The chain that starts at head, has no object twice, and belongs in bucket b. */
  ghost predicate Linked(head: Foo?, c: Chain, b: int)
    reads c
  {
    && head == NodeAt(c, 0)
    && (forall i, k :: 0 <= i < |c| && k == i + 1 ==> c[i].next == NodeAt(c, k))
    && (forall i, k :: 0 <= i < k < |c| ==> c[i] != c[k])
    && forall i :: 0 <= i < |c| ==> Hash(c[i].id) == b
  }

  lemma WithoutAt(c: Chain, k: int)
    requires 0 <= k < |c|
    ensures |Without(c, k)| == |c| - 1
    ensures forall i :: 0 <= i < |c| - 1 ==> Without(c, k)[i] == c[if i < k then i else i + 1]
    ensures forall i :: NodeAt(Without(c, k), i) == NodeAt(c, if i < k then i else i + 1)
  {
  }

  /** A chain around which the object before place k, or the bucket, points past the object at k. */
  lemma Bypassed(head: Foo?, c: Chain, k: int, b: int)
    requires 0 <= k < |c| && head == NodeAt(c, if k == 0 then 1 else 0)
    requires forall i, j :: 0 <= i < |c| && i != k - 1 && j == i + 1 ==> c[i].next == NodeAt(c, j)
    requires k > 0 ==> c[k - 1].next == NodeAt(c, k + 1)
    requires (forall i, j :: 0 <= i < j < |c| ==> c[i] != c[j]) && forall i :: 0 <= i < |c| ==> Hash(c[i].id) == b
    ensures Linked(head, Without(c, k), b)
  {
    WithoutAt(c, k);
    var c' := Without(c, k);
    hide Without, Hash;
    forall i, j | 0 <= i < |c'| && j == i + 1 ensures c'[i].next == NodeAt(c', j) {
      var m := if i < k then i else i + 1;
      assert c'[i] == c[m] && (m != k - 1 ==> c[m].next == NodeAt(c, m + 1));
    }
  }

  /** No object before place k has this id. */
  predicate NoMatchBefore(c: Chain, k: int, id: int) {
    forall i :: 0 <= i < k && i < |c| ==> c[i].id != id
  }

  class Table {
    const fh: array<Foo?>
    /** The objects of each bucket, in list order. */
    ghost var chains: seq<Chain>

    constructor ()
      ensures Valid() && fresh(fh) && forall b :: 0 <= b < NHASH ==> chains[b] == []
    {
      fh := new Foo?[NHASH](_ => null);
      chains := seq(NHASH, _ => []);
    }

    ghost function Nodes(): (s: set<Foo>)
      reads this
    {
      set b, i | 0 <= b < |chains| && 0 <= i < |chains[b]| :: chains[b][i]
    }

    ghost predicate Valid()
      reads this, fh, Nodes()
    {
      && fh.Length == |chains| == NHASH
      && forall b :: 0 <= b < NHASH ==> Linked(fh[b], chains[b], b)
    }

    /** Lines 20-47. */
    method Alloc(id: int) returns (fp: Foo)
      requires Valid()
      modifies this, fh
      ensures Valid() && fresh(fp) && fp.id == id && fp.count == 1
      ensures chains == old(chains)[Hash(id) := [fp] + old(chains)[Hash(id)]]
    {
      fp := new Foo(id);
      var idx := Hash(id);
      ghost var c := chains[idx];
      fp.next := fh[idx];
      fh[idx] := fp;
      chains := chains[idx := [fp] + chains[idx]];
      forall b | 0 <= b < NHASH ensures Linked(fh[b], chains[b], b) {
        if b == idx {
          forall i, k | 0 <= i < |chains[b]| && k == i + 1 ensures chains[b][i].next == NodeAt(chains[b], k) {
            if i > 0 {
              assert chains[b][i] == c[i - 1] && c[i - 1].next == NodeAt(c, i);
            }
          }
        } else {
          assert old(Linked(fh[b], chains[b], b));
        }
      }
    }

    /** Lines 50-67: the first object in the bucket with this id gains a reference. */
    method Find(id: int) returns (fp: Foo?, ghost k: int)
      requires Valid()
      modifies Nodes()
      ensures Valid() && chains == old(chains)
      ensures var c := chains[Hash(id)];
              if fp == null then NoMatchBefore(c, |c|, id)
              else && 0 <= k < |c| && fp == c[k] && fp.id == id && NoMatchBefore(c, k, id)
                   && fp.count == old(c[k].count) + 1
      ensures forall p :: p in Nodes() && p != fp ==> p.count == old(p.count)
    {
      k := 0;
      fp := fh[Hash(id)];
      ghost var c := chains[Hash(id)];
      while fp != null
        invariant 0 <= k <= |c| && fp == NodeAt(c, k) && NoMatchBefore(c, k, id)
        invariant Valid() && forall p :: p in Nodes() ==> p.count == old(p.count)
        decreases |c| - k
      {
        if fp.id == id {
          fp.count := fp.count + 1;
          return;
        }
        fp := fp.next;
        k := k + 1;
      }
    }

    /** Lines 70-108, for an object in the table that the caller has a reference to. */
    method Rele(fp: Foo, ghost k: int) returns (freed: bool)
      requires Valid() && 0 <= k < |chains[Hash(fp.id)]| && fp == chains[Hash(fp.id)][k]
      modifies this, fh, Nodes()
      ensures Valid() && fp.count == old(fp.count) - 1 && (freed <==> fp.count == 0)
      ensures chains == if freed then old(chains)[Hash(fp.id) := Without(old(chains)[Hash(fp.id)], k)] else old(chains)
      ensures forall p :: p in old(Nodes()) && p != fp ==> p.count == old(p.count)
    {
      fp.count := fp.count - 1;
      freed := fp.count == 0;
      if freed {
        var idx := Hash(fp.id);
        ghost var c := chains[idx];
        var tfp := fh[idx];
        if tfp == fp {
          fh[idx] := fp.next;
        } else {
          ghost var i := 0;
          while tfp.next != fp
            invariant 0 <= i < k && tfp == c[i]
            modifies {}
            decreases k - i
          {
            assert tfp.next == NodeAt(c, i + 1);
            tfp := tfp.next;
            i := i + 1;
          }
          assert tfp.next == NodeAt(c, i + 1) && fp.next == NodeAt(c, k + 1);
          tfp.next := fp.next;
        }
        chains := chains[idx := Without(c, k)];
        assert forall i, j :: 0 <= i < |c| && i != k - 1 && j == i + 1 ==> c[i].next == NodeAt(c, j);
        Bypassed(fh[idx], c, k, idx);
        forall b | 0 <= b < NHASH ensures Linked(fh[b], chains[b], b) {
          assert old(Linked(fh[b], chains[b], b));
        }
      }
    }

    /** A find followed by a release of what it found changes nothing: the last loop of mutexdualarg.c's main frees
        no object. */
    method FindAndRelease(id: int)
      requires Valid() && forall p :: p in Nodes() ==> p.count >= 1
      modifies this, fh, Nodes()
      ensures Valid() && chains == old(chains)
      ensures forall p :: p in Nodes() ==> p.count == old(p.count)
    {
      var fp, k := Find(id);
      if fp != null {
        assert fp in Nodes();
        var freed := Rele(fp, k);
        assert !freed;
      }
    }
  }
}
