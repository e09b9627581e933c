/** The submission and completion rings shared with the kernel, as the raw io_uring programs drive them. */
module SubmissionRing {
  import opened Basics
  import opened RingIndex

  /** A submission entry: the registered file it writes and the tag it carries. */
  datatype Sqe = Sqe(fd: nat, tag: nat)

  const FIRST_TAG: nat := 1000

  lemma MaskInRange(i: Index, entries: nat)
    requires RingSize(entries)
    ensures entries > 0 && Mask(i, entries) == Slot(i, 0, entries)
  {
    hide Slot, Mask;
    SlotIgnoresWrap(i, 0, entries);
  }

  /** A ring of T between one producer and one consumer.  contents is the queue it stands for. */
  class Ring<T(0)> {
    const slots: array<T>
    var head: Index
    var tail: Index
    ghost var contents: seq<T>

    ghost predicate Valid()
      reads this, slots
    {
      && RingSize(slots.Length)
      && |contents| <= slots.Length
      && tail == Plus(head, |contents|)
      && forall i :: 0 <= i < |contents| ==> slots[Slot(head, i, slots.Length)] == contents[i]
    }

    /** A ring whose indices start anywhere. */
    constructor (entries: nat, start: Index)
      requires RingSize(entries)
      ensures Valid() && contents == [] && slots.Length == entries && head == start && fresh(slots)
    {
      slots := new T[entries];
      head, tail := start, start;
      contents := [];
    }

    /** The entry the next element goes to. */
    method FreeSlot() returns (idx: nat)
      requires Valid() && |contents| < slots.Length
      ensures idx < slots.Length && idx == Slot(head, |contents|, slots.Length)
      ensures forall i :: 0 <= i < |contents| ==> Slot(head, i, slots.Length) != idx
    {
      hide Slot, Mask, RingSize;
      SlotIgnoresWrap(head, |contents|, slots.Length);
      MaskInRange(tail, slots.Length);
      idx := Mask(tail, slots.Length);
      forall i | 0 <= i < |contents| ensures Slot(head, i, slots.Length) != idx {
        SlotsDistinct(head, i, |contents|, slots.Length);
      }
    }

    /** Write at the masked tail and advance the tail: the queue grows at its end. */
    method Push(x: T) returns (idx: nat)
      requires Valid() && |contents| < slots.Length
      modifies this`tail, this`contents, slots
      ensures Valid() && contents == old(contents) + [x] && head == old(head)
      ensures idx == Slot(head, |old(contents)|, slots.Length)
    {
      hide Slot, Mask, RingSize;
      idx := FreeSlot();
      slots[idx] := x;
      tail := Plus(tail, 1);
      contents := contents + [x];
      PlusPlus(head, |contents| - 1, 1);
    }

    /** Empty exactly when the indices are equal, otherwise read at the masked head and advance the head. */
    method Pop() returns (r: Option<T>)
      requires Valid()
      modifies this`head, this`contents
      ensures Valid() && tail == old(tail)
      ensures old(contents) == [] ==> r == None && contents == []
      ensures old(contents) != [] ==>
                r == Some(old(contents)[0]) && contents == old(contents)[1..] && head == Plus(old(head), 1)
    {
      IndicesDiffer();
      if head == tail {
        return None;
      }
      MaskInRange(head, slots.Length);
      hide Slot, Mask, RingSize, Plus;
      r := Some(slots[Mask(head, slots.Length)]);
      forall i: nat | i < |contents| - 1
        ensures slots.Length > 0 && slots[Slot(Plus(head, 1), i, slots.Length)] == contents[1..][i]
      {
        SlotAfterNext(head, i, slots.Length);
        assert contents[1..][i] == contents[i + 1];
      }
      PlusPlus(head, 1, |contents| - 1);
      head := Plus(head, 1);
      contents := contents[1..];
    }

    lemma IndicesDiffer()
      requires Valid()
      ensures head == tail <==> contents == []
    {
      RingBelowWrap(slots.Length);
    }
  }

  /** The submission side: the entries, and the ring of indices into them.  requests is the queue of entries. */
  class SubmissionQueue {
    const sqes: array<Sqe>
    const ring: Ring<nat>
    ghost var requests: seq<Sqe>

    ghost predicate Valid()
      reads this, sqes, ring, ring.slots
    {
      && ring.Valid() && sqes.Length == ring.slots.Length && |requests| == |ring.contents|
      && forall i :: 0 <= i < |requests| ==>
           ring.contents[i] == Slot(ring.head, i, sqes.Length) && sqes[Slot(ring.head, i, sqes.Length)] == requests[i]
    }

    constructor (entries: nat, start: Index)
      requires RingSize(entries)
      ensures Valid() && requests == [] && sqes.Length == entries && ring.head == start
      ensures fresh(sqes) && fresh(ring) && fresh(ring.slots)
    {
      sqes := new Sqe[entries](_ => Sqe(0, 0));
      ring := new Ring<nat>(entries, start);
      requests := [];
    }

    /** Fill the entry at the masked tail and publish its index. */
    method Prepare(e: Sqe)
      requires Valid() && |requests| < sqes.Length
      modifies this, sqes, ring, ring.slots
      ensures Valid() && requests == old(requests) + [e] && ring.head == old(ring.head)
    {
      hide Slot, Mask, RingSize, Plus;
      var idx := ring.FreeSlot();
      sqes[idx] := e;
      var published := ring.Push(idx);
      requests := requests + [e];
    }

    /** The kernel takes the oldest entry. */
    method Consume() returns (e: Sqe)
      requires Valid() && requests != []
      modifies this, ring
      ensures Valid() && e == old(requests)[0] && requests == old(requests)[1..]
    {
      hide Slot, Mask, RingSize, Plus;
      ghost var start := ring.head;
      var idx := ring.Pop();
      e := sqes[idx.value];
      requests := requests[1..];
      Renumbered(start);
    }

    lemma Renumbered(start: Index)
      requires RingSize(sqes.Length)
      ensures forall i: nat :: Slot(Plus(start, 1), i, sqes.Length) == Slot(start, i + 1, sqes.Length)
    {
      forall i: nat ensures Slot(Plus(start, 1), i, sqes.Length) == Slot(start, i + 1, sqes.Length) {
        SlotAfterNext(start, i, sqes.Length);
      }
    }

    /** The batch loop: one tagged write for each registered file. */
    method FillBatch(numreq: nat)
      requires Valid() && |requests| + numreq <= sqes.Length
      modifies this, sqes, ring, ring.slots
      ensures Valid() && requests == old(requests) + Batch(numreq)
      ensures |requests| == |old(requests)| + numreq
      ensures forall k :: |old(requests)| <= k < |requests| ==>
                requests[k].fd == k - |old(requests)| && requests[k].tag == 1000 + (k - |old(requests)|)
    {
      hide Valid, Slot, Mask, RingSize, Plus;
      var i := 0;
      while i < numreq
        invariant 0 <= i <= numreq && Valid() && requests == old(requests) + Batch(i)
      {
        Prepare(Sqe(i, FIRST_TAG + i));
        i := i + 1;
      }
    }

    /** io_uring_enter with to_submit: the kernel consumes that many entries, oldest first. */
    method Submit(count: nat) returns (taken: seq<Sqe>)
      requires Valid() && count <= |requests|
      modifies this, ring
      ensures Valid() && taken == old(requests)[..count] && requests == old(requests)[count..]
    {
      hide Valid, Slot, Mask, RingSize, Plus;
      taken := [];
      while |taken| < count
        invariant |taken| <= count && Valid() && old(requests) == taken + requests
      {
        var e := Consume();
        taken := taken + [e];
      }
    }
  }

  /** The entries of a batch, in submission order: each registered file once, with its own tag. */
  function Batch(n: nat): (b: seq<Sqe>)
    ensures |b| == n && forall i :: 0 <= i < n ==> b[i].fd == i && b[i].tag == 1000 + i
  {
    seq(n, (i: nat) => Sqe(i, FIRST_TAG + i))
  }

  function Tags(s: seq<Sqe>): (t: seq<nat>)
    ensures |t| == |s| && forall i :: 0 <= i < |s| ==> t[i] == s[i].tag
  {
    if s == [] then [] else [s[0].tag] + Tags(s[1..])
  }

  lemma TagsGrow(n: nat)
    requires n > 0
    ensures Tags(Batch(n)) == Tags(Batch(n - 1)) + [FIRST_TAG + (n - 1)]
  {
  }

  /** The tags of a batch are 1000, 1001, ... once each. */
  lemma {:induction false} TagsOfBatch(n: nat, t: nat)
    ensures multiset(Tags(Batch(n)))[t] == if 1000 <= t < 1000 + n then 1 else 0
  {
    hide Tags, Batch;
    if n > 0 {
      TagsOfBatch(n - 1, t);
      TagsGrow(n);
      PutLast(Tags(Batch(n - 1)), FIRST_TAG + (n - 1));
    } else {
      assert Tags(Batch(0)) == [];
    }
  }

  lemma TakeOut<T>(s: seq<T>, k: nat)
    requires k < |s|
    ensures multiset(s) == multiset(s[..k] + s[k + 1..]) + multiset{s[k]}
  {
    assert s == s[..k] + [s[k]] + s[k + 1..];
  }

  lemma PutLast<T>(s: seq<T>, x: T)
    ensures multiset(s + [x]) == multiset(s) + multiset{x}
  {
  }

  /** The kernel finishes some of the pending requests, in any order, and posts their tags; at least one if asked
      to wait and something is pending. */
  method KernelPosts(cq: Ring<nat>, pending: seq<nat>, wait: bool) returns (left: seq<nat>)
    requires cq.Valid() && |cq.contents| + |pending| <= cq.slots.Length
    modifies cq, cq.slots
    ensures cq.Valid() && |cq.contents| + |left| <= cq.slots.Length && cq.head == old(cq.head)
    ensures multiset(cq.contents) + multiset(left) == multiset(old(cq.contents)) + multiset(pending)
    ensures old(cq.contents) <= cq.contents
    ensures wait && pending != [] ==> |left| < |pending|
  {
    hide Slot, Mask, RingSize, Plus;
    left := pending;
    var count: nat :| count <= |pending| && (wait && pending != [] ==> count > 0);
    while count > 0
      invariant count <= |left| && cq.Valid() && |cq.contents| + |left| <= cq.slots.Length && cq.head == old(cq.head)
      invariant multiset(cq.contents) + multiset(left) == multiset(old(cq.contents)) + multiset(pending)
      invariant old(cq.contents) <= cq.contents
      invariant |left| <= |pending| && (|left| < |pending| || count > 0 || !wait || pending == [])
    {
      var k: nat :| k < |left|;
      TakeOut(left, k);
      PutLast(cq.contents, left[k]);
      var slot := cq.Push(left[k]);
      left := left[..k] + left[k + 1..];
      count := count - 1;
    }
  }

  /** Moving the oldest completion to what was seen. */
  lemma Reaped(seen: seq<nat>, contents: seq<nat>, pending: seq<nat>, tags: seq<nat>)
    requires contents != [] && multiset(seen) + (multiset(contents) + multiset(pending)) == multiset(tags)
    ensures multiset(seen + [contents[0]]) + (multiset(contents[1..]) + multiset(pending)) == multiset(tags)
  {
    TakeOut(contents, 0);
    assert contents[..0] + contents[1..] == contents[1..];
    PutLast(seen, contents[0]);
  }

  /** The reap loop: it ends, and has then seen the tag of every request, each as often as it was submitted. */
  method ReapAll(cq: Ring<nat>, tags: seq<nat>) returns (seen: seq<nat>)
    requires cq.Valid() && cq.contents == [] && |tags| <= cq.slots.Length
    modifies cq, cq.slots
    ensures multiset(seen) == multiset(tags)
    ensures cq.Valid() && cq.contents == []
  {
    hide Ring.Valid, Slot, Mask, RingSize, Plus;
    var pending := tags;
    seen := [];
    var completed := 0;
    while completed < |tags|
      invariant completed == |seen| && cq.Valid() && |cq.contents| + |pending| <= cq.slots.Length
      invariant multiset(seen) + (multiset(cq.contents) + multiset(pending)) == multiset(tags)
      decreases |tags| - completed, if cq.contents == [] then 1 else 0
    {
      SizesAddUp(seen, cq.contents, pending, tags);
      pending := KernelPosts(cq, pending, false);
      SizesAddUp(seen, cq.contents, pending, tags);
      cq.IndicesDiffer();
      if cq.head != cq.tail {
        Reaped(seen, cq.contents, pending, tags);
        var tag := cq.Pop();
        seen := seen + [tag.value];
        completed := completed + 1;
      } else {
        pending := KernelPosts(cq, pending, true);
      }
    }
    SizesAddUp(seen, cq.contents, pending, tags);
  }

  lemma SizesAddUp<T>(a: seq<T>, b: seq<T>, c: seq<T>, d: seq<T>)
    requires multiset(a) + (multiset(b) + multiset(c)) == multiset(d)
    ensures |a| + |b| + |c| == |d|
  {
    assert |multiset(a) + (multiset(b) + multiset(c))| == |multiset(a)| + |multiset(b)| + |multiset(c)|;
  }

  /** The whole program: from rings whose indices start anywhere, a batch no longer than the submission ring is
      consumed in submission order, and the reap loop sees each tag 1000 .. 1000 + numreq - 1 exactly once. */
  method WriteFiles(sq: SubmissionQueue, cq: Ring<nat>, numreq: nat) returns (taken: seq<Sqe>, seen: seq<nat>)
    requires sq.Valid() && sq.requests == [] && cq.Valid() && cq.contents == []
    requires numreq <= sq.sqes.Length <= cq.slots.Length
    requires {cq as object, cq.slots} !! {sq as object, sq.sqes, sq.ring, sq.ring.slots}
    modifies sq, sq.sqes, sq.ring, sq.ring.slots, cq, cq.slots
    ensures |taken| == numreq
    ensures forall i :: 0 <= i < numreq ==> taken[i].fd == i && taken[i].tag == 1000 + i
    ensures forall t: nat :: multiset(seen)[t] == if 1000 <= t < 1000 + numreq then 1 else 0
  {
    hide Slot, Mask, RingSize, Plus, SubmissionQueue.Valid, Ring.Valid;
    sq.FillBatch(numreq);
    taken := sq.Submit(numreq);
    assert taken == Batch(numreq);
    seen := ReapAll(cq, Tags(taken));
    forall t: nat ensures multiset(seen)[t] == if 1000 <= t < 1000 + numreq then 1 else 0 {
      TagsOfBatch(numreq, t);
    }
  }
}
