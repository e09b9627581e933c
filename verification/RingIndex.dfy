/** Free-running 32-bit ring indices: masking, wrap-around, and which entries a batch touches. */
module RingIndex {
  import opened Basics

  /** unsigned arithmetic is modulo 2^32 (C11, section 6.2.5, paragraph 9). */
  const WRAP: nat := 0x1_0000_0000

  type Index = i: nat | i < WRAP

  /** The sizes io_uring gives its rings: powers of two that fit an index. */
  ghost predicate RingSize(n: nat) {
    exists k: nat :: k < 32 && n == Pow2(k)
  }

  function Plus(i: Index, n: nat): Index {
    (i + n) % WRAP
  }

  /** Bitwise and, bit by bit. */
  function And(x: nat, y: nat): nat {
    if x == 0 || y == 0 then 0
    else (if x % 2 == 1 && y % 2 == 1 then 1 else 0) + 2 * And(x / 2, y / 2)
  }

  /** The slot of an index: index & (entries - 1). */
  function Mask(i: nat, entries: nat): nat
    requires entries > 0
  {
    And(i, entries - 1)
  }

  /** The slot of the i-th index from base, on the unwrapped index line. */
  function Slot(base: nat, i: nat, entries: nat): (slot: nat)
    requires entries > 0
    ensures slot < entries
  {
    (base + i) % entries
  }

  // ---------- remainders ----------

  lemma RemainderUnique(x: int, m: int, q: int, r: int)
    requires m > 0 && x == q * m + r && 0 <= r < m
    ensures x % m == r
  {
    var k := x / m - q;
    assert k * m == r - x % m;
    MulMono(1, k, m);
    MulMono(k, -1, m);
  }

  lemma RemainderDouble(x: nat, m: nat)
    requires m > 0
    ensures x % (2 * m) == x % 2 + 2 * ((x / 2) % m)
  {
    var q := (x / 2) / m;
    assert x / 2 == q * m + (x / 2) % m;
    assert x == q * (2 * m) + (x % 2 + 2 * ((x / 2) % m));
    RemainderUnique(x, 2 * m, q, x % 2 + 2 * ((x / 2) % m));
  }

  /** For a power of two the mask is the remainder. */
  lemma {:induction false} MaskIsRemainder(i: nat, k: nat)
    ensures Mask(i, Pow2(k)) == i % Pow2(k)
  {
    if k == 0 {
      assert Pow2(0) == 1;
    } else {
      var m := Pow2(k - 1);
      RemainderDouble(i, m);
      MaskIsRemainder(i / 2, k - 1);
      assert (2 * m - 1) / 2 == m - 1 && (2 * m - 1) % 2 == 1;
      if i > 0 && m == 1 {
        assert And(i / 2, 0) == 0;
      }
    }
  }

  lemma WrapIsPow2()
    ensures Pow2(32) == WRAP
  {
    assert Pow2(8) == 256;
    Pow2Add(8, 8);
    Pow2Add(16, 16);
  }

  lemma DividesWrap(k: nat) returns (c: nat)
    requires k < 32
    ensures WRAP == Pow2(k) * c && c >= 2
  {
    WrapIsPow2();
    Pow2Add(k, 32 - k);
    c := Pow2(32 - k);
  }

  lemma RingBelowWrap(entries: nat)
    requires RingSize(entries)
    ensures 0 < entries < WRAP
  {
    var k: nat :| k < 32 && entries == Pow2(k);
    var c := DividesWrap(k);
    MulMono(2, c, entries);
  }

  lemma RemainderOfMultiple(t: nat, m: nat, c: nat, w: nat)
    requires m > 0
    ensures (t * (m * c) + w) % m == w % m
  {
    var q := w / m;
    var x := t * (m * c) + w;
    assert t * (m * c) == (t * c) * m;
    assert w == q * m + w % m;
    assert x == (t * c + q) * m + w % m;
    RemainderUnique(x, m, t * c + q, w % m);
  }

  /** Wrapping an index around does not change its slot: a ring size divides 2^32. */
  lemma SlotIgnoresWrap(base: nat, i: nat, entries: nat)
    requires RingSize(entries)
    ensures entries > 0 && Mask((base + i) % WRAP, entries) == Slot(base, i, entries)
  {
    var k: nat :| k < 32 && entries == Pow2(k);
    var x := base + i;
    MaskIsRemainder(x % WRAP, k);
    var c := DividesWrap(k);
    hide Pow2, Mask;
    RemainderOfMultiple(x / WRAP, entries, c, x % WRAP);
    assert x == (x / WRAP) * WRAP + x % WRAP;
  }

  lemma PlusPlus(i: Index, a: nat, b: nat)
    ensures Plus(Plus(i, a), b) == Plus(i, a + b)
  {
  }

  /** Fewer than entries steps apart, two indices never share a slot; entries steps apart they do. */
  lemma SlotsDistinct(base: nat, i: nat, j: nat, entries: nat)
    requires entries > 0 && i < j <= i + entries
    ensures Slot(base, i, entries) == Slot(base, j, entries) <==> j == i + entries
  {
    var a, b := (base + i) / entries, (base + j) / entries;
    assert (b - a) * entries == (j - i) - ((base + j) % entries - (base + i) % entries);
    MulMono(1, b - a, entries);
    MulMono(b - a, 1, entries);
    MulMono(2, b - a, entries);
    if j == i + entries {
      RemainderUnique(base + j, entries, a + 1, (base + i) % entries);
    } else {
      MulMono(b - a, 0, entries);
    }
  }

  /** Advancing the base, wrapped or not, renumbers the slots by one. */
  lemma SlotAfterNext(base: Index, i: nat, entries: nat)
    requires RingSize(entries)
    ensures entries > 0 && Slot(Plus(base, 1), i, entries) == Slot(base, i + 1, entries)
  {
    var k: nat :| k < 32 && entries == Pow2(k);
    var c := DividesWrap(k);
    if base + 1 == WRAP {
      RemainderOfMultiple(1, entries, c, i);
    }
  }

  /** The slots of a batch of n consecutive indices, from any starting tail, wrapped or not, are pairwise distinct
      exactly if the batch is not longer than the ring. */
  lemma BatchSlotsDistinct(tail: Index, n: nat, entries: nat)
    requires RingSize(entries)
    ensures entries > 0
    ensures (forall i, j :: 0 <= i < j < n ==> Mask(Plus(tail, i), entries) != Mask(Plus(tail, j), entries))
            <==> n <= entries
  {
    assert entries > 0;
    hide RingSize, Mask, Slot;
    if n <= entries {
      forall i, j | 0 <= i < j < n ensures Mask(Plus(tail, i), entries) != Mask(Plus(tail, j), entries) {
        SlotIgnoresWrap(tail, i, entries);
        SlotIgnoresWrap(tail, j, entries);
        SlotsDistinct(tail, i, j, entries);
      }
    } else {
      SlotIgnoresWrap(tail, 0, entries);
      SlotIgnoresWrap(tail, entries, entries);
      SlotsDistinct(tail, 0, entries, entries);
      assert Mask(Plus(tail, 0), entries) == Mask(Plus(tail, entries), entries);
    }
  }
}
