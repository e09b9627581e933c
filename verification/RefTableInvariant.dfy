/** What every step of the two-lock table keeps, as long as nobody else is parked on an object being unlinked. */
module RefTableInvariant {
  import opened Basics
  import opened Counting
  import opened RefTable

  /** The bucket chains as sequences of addresses, first element first. */
  type Chains = seq<seq<Ptr>>

  function At(c: seq<Ptr>, i: nat): Ptr {
    if i < |c| then c[i] else NULL
  }

  /** Following f_next from head visits exactly the elements of c and then NULL. */
  ghost predicate Threaded(heap: map<Ptr, Foo>, head: Ptr, c: seq<Ptr>) {
    && head == At(c, 0)
    && (forall i :: 0 <= i < |c| ==> c[i] in heap)
    && forall i, k :: 0 <= i < |c| && k == i + 1 ==> heap[c[i]].next == At(c, k)
  }

  /** Chain c of bucket b: acyclic, only ids that hash to b, most recently linked first. */
  ghost predicate ChainOk(s: State, b: nat, c: seq<Ptr>) {
    && (forall i :: 0 <= i < |c| ==> c[i] in s.heap && c[i] in s.linkedAt)
    && (forall i :: 0 <= i < |c| ==> Hash(s.heap[c[i]].id) == b && s.linkedAt[c[i]] < s.clock)
    && (forall i, j :: 0 <= i < j < |c| ==> s.linkedAt[c[j]] < s.linkedAt[c[i]])
  }

  ghost predicate ChainsOk(s: State, ch: Chains) {
    && |s.fh| == NHASH && |ch| == NHASH && NULL !in s.heap
    && (forall b :: 0 <= b < NHASH ==> Threaded(s.heap, s.fh[b], ch[b]))
    && (forall b :: 0 <= b < NHASH ==> ChainOk(s, b, ch[b]))
  }

  /** p is linked into the table. */
  ghost predicate In(s: State, ch: Chains, p: Ptr)
    requires |ch| == NHASH
  {
    p in s.heap && p in ch[Hash(s.heap[p].id)]
  }

  /** Every mutex is held exactly by the thread whose program point says so. */
  ghost predicate LocksOk(s: State) {
    && (s.hashlock.Held? ==> s.hashlock.holder < |s.threads|)
    && (forall t :: 0 <= t < |s.threads| ==> (HoldsTable(s.threads[t].pc) <==> s.hashlock == Held(t)))
    && (forall t :: 0 <= t < |s.threads| && HoldsObj(s.threads[t].pc) ==>
          s.threads[t].fp in s.heap && s.heap[s.threads[t].fp].lock == Held(t))
    && (forall p :: p in s.heap && s.heap[p].lock.Held? ==>
          s.heap[p].lock.holder < |s.threads| && HoldsObj(s.threads[s.heap[p].lock.holder].pc) &&
          s.threads[s.heap[p].lock.holder].fp == p)
  }

  /** Every count equals the references handed out and not yet released. */
  ghost predicate CountsOk(s: State) {
    forall p :: p in s.heap ==> s.heap[p].count == Refs(s, p)
  }

  /** A thread mentions only allocated objects, which are in the table unless it alone knows them. */
  ghost predicate RefsOk(s: State, ch: Chains, th: Thread)
    requires |ch| == NHASH
  {
    && (forall p :: p in th.own ==> In(s, ch, p))
    && (Names(th.pc) ==> th.fp in s.heap && (In(s, ch, th.fp) <==> !Outside(th.pc)))
    && (Dying(th.pc) || 88 <= th.pc <= 95 ==> s.heap[th.fp].count == 0)
  }

  /** No element of c before index k has the given id. */
  ghost predicate NoneBefore(heap: map<Ptr, Foo>, c: seq<Ptr>, k: nat, id: int) {
    forall i :: 0 <= i < k && i < |c| && c[i] in heap ==> heap[c[i]].id != id
  }

  /** How far a thread that holds hashlock has got in its bucket. */
  ghost predicate WalkOk(s: State, ch: Chains, th: Thread)
    requires |ch| == NHASH && |s.fh| == NHASH
  {
    var c := ch[Hash(th.id)];
    && (th.pc == 56 ==> exists k :: 0 <= k <= |c| && th.fp == At(c, k) && NoneBefore(s.heap, c, k, th.id))
    && (57 <= th.pc <= 60 ==>
          exists k :: 0 <= k < |c| && th.fp == c[k] && c[k] in s.heap && s.heap[c[k]].id == th.id
              && NoneBefore(s.heap, c, k, th.id))
    && (th.pc == 65 ==> NoneBefore(s.heap, c, |c|, th.id))
    && (th.pc == 40 && th.fp in s.heap ==> s.heap[th.fp].next == s.fh[Hash(s.heap[th.fp].id)])
    && (88 <= th.pc <= 95 && th.fp in s.heap ==>
          var d := ch[Hash(s.heap[th.fp].id)];
          && (th.pc == 91 ==> At(d, 0) == th.fp)
          && (th.pc == 93 ==> exists i, j :: 0 <= i < j < |d| && d[i] == th.tfp && d[j] == th.fp)
          && (th.pc == 95 ==> exists i :: 0 <= i < |d| - 1 && d[i] == th.tfp && d[i + 1] == th.fp))
  }

  /** Two threads never both know an object that is outside the table. */
  ghost predicate AloneOk(s: State) {
    forall t, u :: 0 <= t < u < |s.threads| && Outside(s.threads[t].pc) && Outside(s.threads[u].pc) ==>
      s.threads[t].fp != s.threads[u].fp
  }

  ghost predicate Inv(s: State, ch: Chains) {
    && ChainsOk(s, ch)
    && LocksOk(s)
    && CountsOk(s)
    && AloneOk(s)
    && (forall t :: 0 <= t < |s.threads| ==> RefsOk(s, ch, s.threads[t]))
    && (forall t :: 0 <= t < |s.threads| ==> WalkOk(s, ch, s.threads[t]))
  }

  /** What the step from s to s' linked and unlinked. */
  ghost predicate TableAfter(s: State, ch: Chains, s': State, ch': Chains, linked: set<Ptr>, unlinked: set<Ptr>) {
    && |ch| == NHASH && |ch'| == NHASH
    && forall p :: In(s', ch', p) <==> (In(s, ch, p) || p in linked) && p !in unlinked
  }

  // ---------- locks ----------

  /** What a lock operation changes of what its thread holds. */
  lemma LockLines(pc: nat)
    ensures WantsTable(pc) ==> !HoldsTable(pc) && HoldsTable(After(pc)) && HoldsObj(After(pc)) == HoldsObj(pc)
    ensures UnlocksTable(pc) ==> HoldsTable(pc) && !HoldsTable(After(pc)) && HoldsObj(After(pc)) == HoldsObj(pc)
    ensures WantsObj(pc) ==> !HoldsObj(pc) && HoldsObj(After(pc)) && HoldsTable(After(pc)) == HoldsTable(pc)
    ensures UnlocksObj(pc) ==> HoldsObj(pc) && !HoldsObj(After(pc)) && HoldsTable(After(pc)) == HoldsTable(pc)
  {
  }

  lemma LocksTakeTable(s: State, t: Tid)
    requires LocksOk(s) && t < |s.threads| && WantsTable(s.threads[t].pc) && s.hashlock == Free
    ensures LocksOk(TakeTable(s, t))
  {
  }

  lemma LocksDropTable(s: State, t: Tid)
    requires LocksOk(s) && t < |s.threads| && UnlocksTable(s.threads[t].pc)
    ensures LocksOk(DropTable(s, t))
  {
    LockLines(s.threads[t].pc);
    hide After, HoldsTable, HoldsObj, UnlocksTable;
  }

  lemma LocksTakeObj(s: State, t: Tid)
    requires LocksOk(s) && t < |s.threads| && WantsObj(s.threads[t].pc)
    requires s.threads[t].fp in s.heap && s.heap[s.threads[t].fp].lock == Free
    ensures LocksOk(TakeObj(s, t))
  {
    LockLines(s.threads[t].pc);
    hide After, HoldsTable, HoldsObj, WantsObj;
  }

  lemma LocksDropObj(s: State, t: Tid)
    requires LocksOk(s) && t < |s.threads| && UnlocksObj(s.threads[t].pc) && s.threads[t].fp in s.heap
    ensures LocksOk(DropObj(s, t))
  {
    LockLines(s.threads[t].pc);
    hide After, HoldsTable, HoldsObj, UnlocksObj;
  }

  /** A step that takes and drops no mutex. */
  lemma LocksQuiet(s: State, t: Tid, th: Thread, s': State)
    requires LocksOk(s) && t < |s.threads| && s'.threads == s.threads[t := th] && s'.hashlock == s.hashlock
    requires HoldsTable(th.pc) == HoldsTable(s.threads[t].pc) && HoldsObj(th.pc) == HoldsObj(s.threads[t].pc)
    requires HoldsObj(th.pc) ==> th.fp == s.threads[t].fp
    requires forall p :: p in s'.heap ==> s'.heap[p].lock == if p in s.heap then s.heap[p].lock else Free
    requires forall p :: p in s.heap && s.heap[p].lock.Held? ==> p in s'.heap
    ensures LocksOk(s')
  {
  }

  // ---------- counts ----------

  lemma RefsUpdate(s: State, t: Tid, th: Thread, p: Ptr)
    requires t < |s.threads|
    ensures Refs(SetThread(s, t, th), p) + Holds(s.threads[t], p) == Refs(s, p) + Holds(th, p)
  {
    SumUpdate(HoldsOf(p), s.threads, t, th);
  }

  /** The counts follow when thread t gains delta references to q and q's count moves by delta. */
  lemma CountsMove(s: State, t: Tid, th: Thread, s': State, q: Ptr, delta: int)
    requires CountsOk(s) && t < |s.threads| && s'.threads == s.threads[t := th]
    requires forall p :: Holds(th, p) == Holds(s.threads[t], p) + (if p == q then delta else 0)
    requires forall p :: p in s'.heap ==>
      p in s.heap && s'.heap[p].count == s.heap[p].count + (if p == q then delta else 0)
    ensures CountsOk(s')
  {
    forall p | p in s'.heap ensures s'.heap[p].count == Refs(s', p) {
      RefsUpdate(s, t, th, p);
      assert Refs(s', p) == Refs(SetThread(s, t, th), p);
    }
  }

  // ---------- frames ----------

  /** The chains of s are untouched in s'; only objects in apart, which are not in them, may differ or be freed. */
  ghost predicate SameLinks(s: State, s': State, apart: set<Ptr>) {
    && s'.fh == s.fh && s'.linkedAt == s.linkedAt && s'.clock == s.clock && NULL !in s'.heap
    && forall p :: p in s.heap && p !in apart ==>
         p in s'.heap && s'.heap[p].next == s.heap[p].next && s'.heap[p].id == s.heap[p].id
  }

  lemma ChainsFrame(s: State, ch: Chains, s': State, apart: set<Ptr>)
    requires ChainsOk(s, ch) && SameLinks(s, s', apart)
    requires forall p :: p in apart ==> !In(s, ch, p)
    ensures ChainsOk(s', ch)
    ensures forall p :: In(s', ch, p) <==> In(s, ch, p)
  {
    forall b | 0 <= b < NHASH ensures Threaded(s'.heap, s'.fh[b], ch[b]) && ChainOk(s', b, ch[b]) {
      assert ChainOk(s, b, ch[b]) && Threaded(s.heap, s.fh[b], ch[b]);
      forall i | 0 <= i < |ch[b]| ensures ch[b][i] !in apart {
        assert In(s, ch, ch[b][i]);
      }
    }
    forall p ensures In(s', ch, p) <==> In(s, ch, p) {
      if In(s', ch, p) {
        var b := Hash(s'.heap[p].id);
        assert ChainOk(s, b, ch[b]);
      }
    }
  }

  lemma RefsFrame(s: State, ch: Chains, s': State, apart: set<Ptr>, th: Thread)
    requires ChainsOk(s, ch) && SameLinks(s, s', apart)
    requires forall p :: p in apart ==> !In(s, ch, p)
    requires RefsOk(s, ch, th)
    requires Names(th.pc) ==> th.fp !in apart
    requires Dying(th.pc) || 88 <= th.pc <= 95 ==> th.fp in s'.heap && s'.heap[th.fp].count == s.heap[th.fp].count
    ensures RefsOk(s', ch, th)
  {
    ChainsFrame(s, ch, s', apart);
  }

  lemma WalkFrame(s: State, ch: Chains, s': State, apart: set<Ptr>, th: Thread)
    requires ChainsOk(s, ch) && SameLinks(s, s', apart)
    requires forall p :: p in apart ==> !In(s, ch, p)
    requires RefsOk(s, ch, th) && WalkOk(s, ch, th)
    requires Names(th.pc) ==> th.fp !in apart
    ensures WalkOk(s', ch, th)
  {
    var c := ch[Hash(th.id)];
    assert ChainOk(s, Hash(th.id), c);
    assert forall i :: 0 <= i < |c| ==> In(s, ch, c[i]);
    assert forall k :: NoneBefore(s.heap, c, k, th.id) ==> NoneBefore(s'.heap, c, k, th.id);
  }

  /** An object that no thread but t knows cannot be named by another thread. */
  lemma StrangersDoNotName(s: State, ch: Chains, t: Tid, u: Tid)
    requires Inv(s, ch) && t < |s.threads| && u < |s.threads| && t != u
    requires Outside(s.threads[t].pc) && Names(s.threads[u].pc)
    ensures s.threads[u].fp != s.threads[t].fp
  {
    assert RefsOk(s, ch, s.threads[t]) && RefsOk(s, ch, s.threads[u]);
  }

  // ---------- one lemma for each kind of step ----------

  /** A step of t that leaves the chains alone keeps the invariant if it does so for t itself. */
  lemma FrameThreads(s: State, ch: Chains, t: Tid, th: Thread, s': State, apart: set<Ptr>)
    requires Inv(s, ch) && t < |s.threads| && s'.threads == s.threads[t := th]
    requires SameLinks(s, s', apart)
    requires forall p :: p in apart ==> !In(s, ch, p) && Outside(s.threads[t].pc) && p == s.threads[t].fp
    requires forall p :: p in s.heap && p in s'.heap && s'.heap[p].count != s.heap[p].count ==>
               s.heap[p].lock == Held(t)
    requires LocksOk(s') && CountsOk(s') && AloneOk(s')
    requires RefsOk(s', ch, th) && WalkOk(s', ch, th)
    ensures Inv(s', ch) && TableAfter(s, ch, s', ch, {}, {})
  {
    ChainsFrame(s, ch, s', apart);
    forall u | 0 <= u < |s'.threads| ensures RefsOk(s', ch, s'.threads[u]) && WalkOk(s', ch, s'.threads[u]) {
      if u != t {
        var w := s.threads[u];
        assert RefsOk(s, ch, w) && WalkOk(s, ch, w);
        if Names(w.pc) && Outside(s.threads[t].pc) {
          StrangersDoNotName(s, ch, t, u);
        }
        if Dying(w.pc) || 88 <= w.pc <= 95 {
          CountsOfOthers(s, ch, t, u);
        }
        RefsFrame(s, ch, s', apart, w);
        WalkFrame(s, ch, s', apart, w);
      }
    }
  }

  /** Nobody else holds the f_lock of an object that u is unlinking or about to free. */
  lemma CountsOfOthers(s: State, ch: Chains, t: Tid, u: Tid)
    requires Inv(s, ch) && t < |s.threads| && u < |s.threads| && t != u
    requires Dying(s.threads[u].pc) || 88 <= s.threads[u].pc <= 95
    ensures s.threads[u].fp in s.heap && s.heap[s.threads[u].fp].lock != Held(t)
  {
  }

  lemma AloneKept(s: State, t: Tid, th: Thread, s': State)
    requires AloneOk(s) && t < |s.threads| && s'.threads == s.threads[t := th]
    requires Outside(th.pc) ==> Outside(s.threads[t].pc) && th.fp == s.threads[t].fp
    ensures AloneOk(s')
  {
  }

  lemma Unfold(s: State, ch: Chains, t: Tid)
    requires Inv(s, ch) && t < |s.threads|
    ensures ChainsOk(s, ch) && LocksOk(s) && CountsOk(s) && AloneOk(s)
    ensures NULL !in s.heap && |s.fh| == NHASH && |ch| == NHASH
    ensures RefsOk(s, ch, s.threads[t]) && WalkOk(s, ch, s.threads[t])
  {
  }

  /** Beyond a lock operation: the same object, the same standing, and possibly a reference returned. */
  lemma ThreadNext(s: State, ch: Chains, s': State, th: Thread, th': Thread)
    requires ChainsOk(s, ch) && SameLinks(s, s', {}) && RefsOk(s, ch, th) && WalkOk(s, ch, th)
    requires Dying(th.pc) || 88 <= th.pc <= 95 ==> th.fp in s'.heap && s'.heap[th.fp].count == s.heap[th.fp].count
    requires th'.fp == th.fp && th'.id == th.id
    requires Names(th'.pc) ==> Names(th.pc) && (Outside(th'.pc) <==> Outside(th.pc))
    requires Dying(th'.pc) || 88 <= th'.pc <= 95 ==> Dying(th.pc) || 88 <= th.pc <= 95
    requires th'.own == th.own || (th'.own == th.own + multiset{th.fp} && Names(th.pc) && !Outside(th.pc))
    requires th'.pc != 56 && th'.pc != 65 && th'.pc != 40 && !(88 <= th'.pc <= 95)
             && (57 <= th'.pc <= 60 ==> 57 <= th.pc <= 60)
    ensures RefsOk(s', ch, th') && WalkOk(s', ch, th')
  {
    RefsFrame(s, ch, s', {}, th);
    WalkFrame(s, ch, s', {}, th);
    hide ChainsOk;
    hide SameLinks;
  }

  lemma KeepTakeTable(s: State, ch: Chains, t: Tid)
    requires Inv(s, ch) && Ready(s, t) && WantsTable(s.threads[t].pc)
    ensures Inv(TakeTable(s, t), ch) && TableAfter(s, ch, TakeTable(s, t), ch, {}, {})
  {
    hide Inv, ChainsOk, LocksOk, CountsOk, AloneOk, WalkOk, Faults;
    Unfold(s, ch, t);
    var th := s.threads[t];
    hide RefsOk;
    var s', th' := TakeTable(s, t), th.(pc := After(th.pc));
    LocksTakeTable(s, t);
    CountsMove(s, t, th', s', NULL, 0);
    AloneKept(s, t, th', s');
    ThreadNext(s, ch, s', th, th');
    FrameThreads(s, ch, t, th', s', {});
  }

  lemma KeepDropTable(s: State, ch: Chains, t: Tid)
    requires Inv(s, ch) && Ready(s, t) && UnlocksTable(s.threads[t].pc)
    ensures Inv(DropTable(s, t), ch) && TableAfter(s, ch, DropTable(s, t), ch, {}, {})
  {
    hide Inv, ChainsOk, LocksOk, CountsOk, AloneOk, WalkOk, Faults;
    Unfold(s, ch, t);
    var th := s.threads[t];
    hide RefsOk;
    var s', th' := DropTable(s, t), th.(pc := After(th.pc));
    LocksDropTable(s, t);
    CountsMove(s, t, th', s', NULL, 0);
    AloneKept(s, t, th', s');
    ThreadNext(s, ch, s', th, th');
    FrameThreads(s, ch, t, th', s', {});
  }

  lemma KeepTakeObj(s: State, ch: Chains, t: Tid)
    requires Inv(s, ch) && Ready(s, t) && WantsObj(s.threads[t].pc)
    ensures Inv(TakeObj(s, t), ch) && TableAfter(s, ch, TakeObj(s, t), ch, {}, {})
  {
    hide Inv, ChainsOk, LocksOk, CountsOk, AloneOk, WalkOk, Faults;
    Unfold(s, ch, t);
    var th := s.threads[t];
    assert th.fp in s.heap;
    hide RefsOk;
    var s', th' := TakeObj(s, t), th.(pc := After(th.pc));
    LocksTakeObj(s, t);
    CountsMove(s, t, th', s', NULL, 0);
    AloneKept(s, t, th', s');
    ThreadNext(s, ch, s', th, th');
    FrameThreads(s, ch, t, th', s', {});
  }

  lemma DropShape(th: Thread, th': Thread)
    requires UnlocksObj(th.pc) && th' == th.(pc := After(th.pc), own := th.own + Handed(th))
    ensures forall p :: Holds(th', p) == Holds(th, p)
    ensures th'.own == th.own || (th'.own == th.own + multiset{th.fp} && Names(th.pc) && !Outside(th.pc))
  {
  }

  lemma KeepDropObj(s: State, ch: Chains, t: Tid)
    requires Inv(s, ch) && Ready(s, t) && UnlocksObj(s.threads[t].pc)
    ensures Inv(DropObj(s, t), ch) && TableAfter(s, ch, DropObj(s, t), ch, {}, {})
  {
    hide Inv, ChainsOk, LocksOk, CountsOk, AloneOk, WalkOk, Faults;
    Unfold(s, ch, t);
    var th := s.threads[t];
    assert th.fp in s.heap;
    hide RefsOk;
    var s', th' := DropObj(s, t), th.(pc := After(th.pc), own := th.own + Handed(th));
    LocksDropObj(s, t);
    DropShape(th, th');
    hide Handed, InFlight;
    CountsMove(s, t, th', s', NULL, 0);
    AloneKept(s, t, th', s');
    ThreadNext(s, ch, s', th, th');
    FrameThreads(s, ch, t, th', s', {});
  }

  // ---------- following pointers ----------

  lemma Sizes(s: State, ch: Chains)
    requires ChainsOk(s, ch)
    ensures |ch| == NHASH && |s.fh| == NHASH && NULL !in s.heap
  {
  }

  lemma Bucket(s: State, ch: Chains, b: nat)
    requires ChainsOk(s, ch) && b < NHASH
    ensures s.fh[b] == At(ch[b], 0) && NULL !in ch[b] && NULL !in s.heap
  {
    assert ChainOk(s, b, ch[b]) && Threaded(s.heap, s.fh[b], ch[b]);
  }

  lemma Element(s: State, ch: Chains, b: nat, i: nat)
    requires ChainsOk(s, ch) && b < NHASH && i < |ch[b]|
    ensures In(s, ch, ch[b][i]) && Hash(s.heap[ch[b][i]].id) == b && s.heap[ch[b][i]].next == At(ch[b], i + 1)
  {
    assert ChainOk(s, b, ch[b]) && Threaded(s.heap, s.fh[b], ch[b]);
  }

  lemma WalkHead(s: State, ch: Chains, th: Thread)
    requires ChainsOk(s, ch) && RefsOk(s, ch, th) && th.pc == 55
    ensures RefsOk(s, ch, LocalStep(s, th)) && WalkOk(s, ch, LocalStep(s, th))
  {
    var c, th' := ch[Hash(th.id)], LocalStep(s, th);
    Bucket(s, ch, Hash(th.id));
    assert th'.fp == At(c, 0) && NoneBefore(s.heap, c, 0, th.id);
  }

  /** The find loop reaches the first element with the id, or the end when there is none. */
  lemma WalkFind(s: State, ch: Chains, th: Thread)
    requires ChainsOk(s, ch) && RefsOk(s, ch, th) && WalkOk(s, ch, th) && th.pc == 56 && Touches(th) <= s.heap.Keys
    ensures RefsOk(s, ch, LocalStep(s, th)) && WalkOk(s, ch, LocalStep(s, th))
  {
    var b := Hash(th.id);
    var c, th' := ch[b], LocalStep(s, th);
    var k :| 0 <= k <= |c| && th.fp == At(c, k) && NoneBefore(s.heap, c, k, th.id);
    hide ChainsOk, Hash;
    Bucket(s, ch, b);
    if k < |c| {
      assert c[k] in c;
      Element(s, ch, b, k);
      assert NoneBefore(s.heap, c, k + 1, th.id) || s.heap[th.fp].id == th.id;
    }
  }

  lemma WalkTest(s: State, ch: Chains, th: Thread)
    requires ChainsOk(s, ch) && RefsOk(s, ch, th) && th.pc == 81 && Touches(th) <= s.heap.Keys
    ensures RefsOk(s, ch, LocalStep(s, th)) && WalkOk(s, ch, LocalStep(s, th))
  {
    hide ChainsOk, Hash;
  }

  /** The unlink loop starts at the head of the bucket, before fp unless fp is the head. */
  lemma WalkUnlink(s: State, ch: Chains, th: Thread)
    requires ChainsOk(s, ch) && RefsOk(s, ch, th) && th.pc == 88 && Touches(th) <= s.heap.Keys
    ensures RefsOk(s, ch, LocalStep(s, th)) && WalkOk(s, ch, LocalStep(s, th))
  {
    hide ChainsOk, Hash;
    var b := Hash(s.heap[th.fp].id);
    Sizes(s, ch);
    Bucket(s, ch, b);
    var d, th' := ch[b], LocalStep(s, th);
    var j :| 0 <= j < |d| && d[j] == th.fp;
    assert th'.pc == 93 ==> 0 < j && d[0] == th'.tfp;
  }

  /** It stays before fp, so it stops at fp's predecessor. */
  lemma WalkOn(s: State, ch: Chains, th: Thread)
    requires ChainsOk(s, ch) && RefsOk(s, ch, th) && WalkOk(s, ch, th) && th.pc == 93 && Touches(th) <= s.heap.Keys
    ensures RefsOk(s, ch, LocalStep(s, th)) && WalkOk(s, ch, LocalStep(s, th))
  {
    hide ChainsOk, Hash;
    Sizes(s, ch);
    var b := Hash(s.heap[th.fp].id);
    var d, th' := ch[b], LocalStep(s, th);
    var i, j :| 0 <= i < j < |d| && d[i] == th.tfp && d[j] == th.fp;
    Element(s, ch, b, i);
    if th'.pc == 93 {
      assert d[i + 1] == th'.tfp && i + 1 < j;
    }
  }

  lemma KeepLocal(s: State, ch: Chains, t: Tid)
    requires Inv(s, ch) && Ready(s, t) && OnlyLocal(s.threads[t].pc)
    ensures Inv(SetThread(s, t, LocalStep(s, s.threads[t])), ch)
    ensures TableAfter(s, ch, SetThread(s, t, LocalStep(s, s.threads[t])), ch, {}, {})
  {
    hide Inv, ChainsOk, LocksOk, CountsOk, AloneOk, RefsOk, WalkOk;
    Unfold(s, ch, t);
    var th := s.threads[t];
    var th' := LocalStep(s, th);
    var s' := SetThread(s, t, th');
    LocksQuiet(s, t, th', s');
    CountsMove(s, t, th', s', NULL, 0);
    AloneKept(s, t, th', s');
    if th.pc == 55 { WalkHead(s, ch, th); }
    else if th.pc == 56 { WalkFind(s, ch, th); }
    else if th.pc == 81 { WalkTest(s, ch, th); }
    else if th.pc == 88 { WalkUnlink(s, ch, th); }
    else { WalkOn(s, ch, th); }
    hide LocalStep;
    RefsFrame(s, ch, s', {}, th');
    WalkFrame(s, ch, s', {}, th');
    FrameThreads(s, ch, t, th', s', {});
  }

  // ---------- changing counts and private or dying objects ----------

  /** f_count++ under both locks. */
  lemma KeepGrab(s: State, ch: Chains, t: Tid)
    requires Inv(s, ch) && Ready(s, t) && s.threads[t].pc == 58
    ensures Inv(WriteStep(s, t), ch) && TableAfter(s, ch, WriteStep(s, t), ch, {}, {})
  {
    hide Inv, ChainsOk, LocksOk, CountsOk, AloneOk, WalkOk, Hash, Faults;
    Unfold(s, ch, t);
    var th := s.threads[t];
    assert th.fp in s.heap;
    HeldByMe(s, t);
    hide RefsOk;
    var s' := WriteStep(s, t);
    var th' := th.(pc := 60);
    LocksQuiet(s, t, th', s');
    CountsMove(s, t, th', s', th.fp, 1);
    AloneKept(s, t, th', s');
    ThreadNext(s, ch, s', th, th');
    FrameThreads(s, ch, t, th', s', {});
  }

  /** --f_count under f_lock alone. */
  lemma KeepDrop(s: State, ch: Chains, t: Tid)
    requires Inv(s, ch) && Ready(s, t) && s.threads[t].pc == 75
    ensures Inv(WriteStep(s, t), ch) && TableAfter(s, ch, WriteStep(s, t), ch, {}, {})
  {
    hide Inv, ChainsOk, LocksOk, CountsOk, AloneOk, WalkOk, Hash, Faults;
    Unfold(s, ch, t);
    var th := s.threads[t];
    assert th.fp in s.heap;
    HeldByMe(s, t);
    hide RefsOk;
    var s' := WriteStep(s, t);
    var th' := th.(pc := if s.heap[th.fp].count == 1 then 76 else 106);
    LocksQuiet(s, t, th', s');
    CountsMove(s, t, th', s', th.fp, -1);
    AloneKept(s, t, th', s');
    ThreadNext(s, ch, s', th, th');
    FrameThreads(s, ch, t, th', s', {});
  }

  lemma HeldByMe(s: State, t: Tid)
    requires LocksOk(s) && t < |s.threads| && HoldsObj(s.threads[t].pc)
    ensures s.threads[t].fp in s.heap && s.heap[s.threads[t].fp].lock == Held(t)
  {
  }

  /** Line 39 writes an object nobody else can see. */
  lemma KeepNext(s: State, ch: Chains, t: Tid)
    requires Inv(s, ch) && Ready(s, t) && s.threads[t].pc == 39
    ensures Inv(WriteStep(s, t), ch) && TableAfter(s, ch, WriteStep(s, t), ch, {}, {})
  {
    hide Inv, ChainsOk, LocksOk, CountsOk, AloneOk, Hash, Faults;
    Unfold(s, ch, t);
    var th := s.threads[t];
    var s' := WriteStep(s, t);
    var th' := th.(pc := 40);
    LocksQuiet(s, t, th', s');
    CountsMove(s, t, th', s', NULL, 0);
    AloneKept(s, t, th', s');
    ChainsFrame(s, ch, s', {th.fp});
    FrameThreads(s, ch, t, th', s', {th.fp});
  }

  /** Line 103 frees an object that is out of the table. */
  lemma KeepFree(s: State, ch: Chains, t: Tid)
    requires Inv(s, ch) && Ready(s, t) && s.threads[t].pc == 101
    ensures Inv(WriteStep(s, t), ch) && TableAfter(s, ch, WriteStep(s, t), ch, {}, {})
  {
    hide Inv, ChainsOk, LocksOk, CountsOk, AloneOk, Hash;
    Unfold(s, ch, t);
    var th := s.threads[t];
    var s' := WriteStep(s, t);
    var th' := th.(pc := IDLE);
    hide Faults;
    LocksQuiet(s, t, th', s');
    CountsMove(s, t, th', s', NULL, 0);
    AloneKept(s, t, th', s');
    ChainsFrame(s, ch, s', {th.fp});
    FrameThreads(s, ch, t, th', s', {th.fp});
  }

  // ---------- calls ----------

  lemma FreshUnreferenced(s: State, ch: Chains, p: Ptr)
    requires Inv(s, ch) && p !in s.heap
    ensures Refs(s, p) == 0
    ensures forall u :: 0 <= u < |s.threads| && Names(s.threads[u].pc) ==> s.threads[u].fp != p
  {
    forall u | 0 <= u < |s.threads|
        ensures HoldsOf(p)(s.threads[u]) == 0 && (Names(s.threads[u].pc) ==> s.threads[u].fp != p) {
      assert RefsOk(s, ch, s.threads[u]);
    }
    SumZero(HoldsOf(p), s.threads);
  }

  lemma KeepCallAlloc(s: State, ch: Chains, t: Tid, id: int, fp: Ptr)
    requires Inv(s, ch) && CanCall(s, t, CallAlloc(id, fp))
    ensures Inv(Begin(s, t, CallAlloc(id, fp)), ch) && TableAfter(s, ch, Begin(s, t, CallAlloc(id, fp)), ch, {}, {})
  {
    hide Inv, ChainsOk, LocksOk, CountsOk, AloneOk, Hash;
    Unfold(s, ch, t);
    FreshUnreferenced(s, ch, fp);
    var th := s.threads[t];
    var th' := th.(pc := 38, fp := fp);
    var s' := Begin(s, t, CallAlloc(id, fp));
    AloneFresh(s, t, th', s');
    LocksQuiet(s, t, th', s');
    CountsAlloc(s, t, id, fp);
    ChainsFrame(s, ch, s', {});
    RefsFrame(s, ch, s', {}, th);
    FrameThreads(s, ch, t, th', s', {});
  }

  lemma AloneFresh(s: State, t: Tid, th: Thread, s': State)
    requires AloneOk(s) && t < |s.threads| && s'.threads == s.threads[t := th]
    requires forall u :: 0 <= u < |s.threads| && Names(s.threads[u].pc) ==> s.threads[u].fp != th.fp
    ensures AloneOk(s')
  {
  }

  lemma CountsAlloc(s: State, t: Tid, id: int, fp: Ptr)
    requires CountsOk(s) && CanCall(s, t, CallAlloc(id, fp)) && Refs(s, fp) == 0
    ensures CountsOk(Begin(s, t, CallAlloc(id, fp)))
  {
    var th' := s.threads[t].(pc := 38, fp := fp);
    var s' := Begin(s, t, CallAlloc(id, fp));
    forall p | p in s'.heap ensures s'.heap[p].count == Refs(s', p) {
      RefsUpdate(s, t, th', p);
      assert Refs(s', p) == Refs(SetThread(s, t, th'), p);
      SumAtLeast(HoldsOf(fp), s.threads, t);
    }
  }

  lemma KeepCallOther(s: State, ch: Chains, t: Tid, c: Call)
    requires Inv(s, ch) && CanCall(s, t, c) && (c.CallFind? || c.CallRele?)
    ensures Inv(Begin(s, t, c), ch) && TableAfter(s, ch, Begin(s, t, c), ch, {}, {})
  {
    hide Inv, ChainsOk, LocksOk, CountsOk, AloneOk, Hash;
    Unfold(s, ch, t);
    var s' := Begin(s, t, c);
    var th' := s'.threads[t];
    LocksQuiet(s, t, th', s');
    CountsMove(s, t, th', s', NULL, 0);
    AloneKept(s, t, th', s');
    FrameThreads(s, ch, t, th', s', {});
  }

  // ---------- linking and unlinking ----------

  /** A step of t that links or unlinks fp, which no other thread mentions. */
  lemma FrameChains(s: State, ch: Chains, t: Tid, th: Thread, s': State, ch': Chains)
    requires Inv(s, ch) && t < |s.threads| && s'.threads == s.threads[t := th]
    requires HoldsTable(s.threads[t].pc)
    requires ChainsOk(s', ch') && s'.heap.Keys == s.heap.Keys
    requires forall p :: p in s.heap ==> s'.heap[p].count == s.heap[p].count
    requires forall p :: p != th.fp ==> (In(s', ch', p) <==> In(s, ch, p))
    requires forall u :: 0 <= u < |s.threads| && u != t ==> Unknown(s.threads[u], th.fp)
    requires LocksOk(s') && CountsOk(s') && AloneOk(s')
    requires RefsOk(s', ch', th) && WalkOk(s', ch', th)
    ensures Inv(s', ch')
  {
    forall u | 0 <= u < |s'.threads| ensures RefsOk(s', ch', s'.threads[u]) && WalkOk(s', ch', s'.threads[u]) {
      if u != t {
        assert RefsOk(s, ch, s.threads[u]);
        assert !HoldsTable(s.threads[u].pc);
      }
    }
  }

  ghost predicate Unknown(th: Thread, p: Ptr) {
    p !in th.own && !(Names(th.pc) && th.fp == p)
  }

  /** A bucket no object of which changed. */
  lemma OtherBucket(s: State, ch: Chains, s': State, b: nat, d: nat)
    requires ChainsOk(s, ch) && b < NHASH && d < NHASH && d != b
    requires |s'.fh| == NHASH && s'.fh[d] == s.fh[d] && s'.clock >= s.clock
    requires forall p :: p in s.heap && Hash(s.heap[p].id) == d ==>
               p in s'.heap && s'.heap[p].next == s.heap[p].next && s'.heap[p].id == s.heap[p].id
    requires forall p :: p in s.linkedAt && p in s.heap && Hash(s.heap[p].id) == d ==>
               p in s'.linkedAt && s'.linkedAt[p] == s.linkedAt[p]
    ensures Threaded(s'.heap, s'.fh[d], ch[d]) && ChainOk(s', d, ch[d])
  {
    assert ChainOk(s, d, ch[d]) && Threaded(s.heap, s.fh[d], ch[d]);
  }

  /** What is in the table after bucket b was replaced. */
  lemma InAfter(s: State, ch: Chains, s': State, b: nat, c: seq<Ptr>, p: Ptr)
    requires |ch| == NHASH && b < NHASH && s'.heap.Keys == s.heap.Keys
    requires forall q :: q in s.heap ==> s'.heap[q].id == s.heap[q].id
    ensures In(s', ch[b := c], p) <==> if p in s.heap && Hash(s.heap[p].id) == b then p in c else In(s, ch, p)
  {
  }

  lemma BucketPublish(s: State, c: seq<Ptr>, t: Tid)
    requires t < |s.threads| && s.threads[t].pc == 40 && s.threads[t].fp in s.heap && |s.fh| == NHASH
    requires var b := Hash(s.heap[s.threads[t].fp].id);
             Threaded(s.heap, s.fh[b], c) && ChainOk(s, b, c) && s.heap[s.threads[t].fp].next == s.fh[b]
    requires s.threads[t].fp !in c
    ensures var b := Hash(s.heap[s.threads[t].fp].id);
            var s' := WriteStep(s, t);
            Threaded(s'.heap, s'.fh[b], [s.threads[t].fp] + c) && ChainOk(s', b, [s.threads[t].fp] + c)
  {
    hide Hash;
    var s' := WriteStep(s, t);
    var c' := [s.threads[t].fp] + c;
    forall i, k | 0 <= i < |c'| && k == i + 1 ensures s'.heap[c'[i]].next == At(c', k) {
      assert i > 0 ==> c'[i] == c[i - 1] && s.heap[c[i - 1]].next == At(c, i);
    }
  }

  lemma ChainsPublish(s: State, ch: Chains, t: Tid)
    requires ChainsOk(s, ch) && t < |s.threads| && s.threads[t].pc == 40
    requires RefsOk(s, ch, s.threads[t]) && WalkOk(s, ch, s.threads[t])
    ensures var b := Hash(s.heap[s.threads[t].fp].id);
            var ch' := ch[b := [s.threads[t].fp] + ch[b]];
            var s' := WriteStep(s, t);
            ChainsOk(s', ch') && forall p :: In(s', ch', p) <==> In(s, ch, p) || p == s.threads[t].fp
  {
    hide Hash, Threaded, ChainOk;
    var fp := s.threads[t].fp;
    var b := Hash(s.heap[fp].id);
    var s' := WriteStep(s, t);
    var ch' := ch[b := [fp] + ch[b]];
    BucketPublish(s, ch[b], t);
    forall d | 0 <= d < NHASH ensures Threaded(s'.heap, s'.fh[d], ch'[d]) && ChainOk(s', d, ch'[d]) {
      if d != b {
        OtherBucket(s, ch, s', b, d);
      }
    }
    forall p ensures In(s', ch', p) <==> In(s, ch, p) || p == fp {
      InAfter(s, ch, s', b, [fp] + ch[b], p);
    }
  }

  /** Line 40 puts fp in front of its bucket. */
  lemma KeepPublish(s: State, ch: Chains, t: Tid) returns (ch': Chains)
    requires Inv(s, ch) && Ready(s, t) && s.threads[t].pc == 40
    ensures Inv(WriteStep(s, t), ch') && TableAfter(s, ch, WriteStep(s, t), ch', {s.threads[t].fp}, {})
    ensures |ch| == NHASH && s.threads[t].fp in s.heap
    ensures var b := Hash(s.heap[s.threads[t].fp].id); ch' == ch[b := [s.threads[t].fp] + ch[b]]
  {
    hide Inv, ChainsOk, LocksOk, CountsOk, AloneOk, Hash, Faults;
    Unfold(s, ch, t);
    var th := s.threads[t];
    var th', s' := th.(pc := 41), WriteStep(s, t);
    var b := Hash(s.heap[th.fp].id);
    ch' := ch[b := [th.fp] + ch[b]];
    ChainsPublish(s, ch, t);
    LocksQuiet(s, t, th', s');
    CountsMove(s, t, th', s', NULL, 0);
    AloneKept(s, t, th', s');
    forall u | 0 <= u < |s.threads| && u != t ensures Unknown(s.threads[u], th.fp) {
      Unfold(s, ch, u);
      if Names(s.threads[u].pc) {
        StrangersDoNotName(s, ch, t, u);
      }
    }
    FrameChains(s, ch, t, th', s', ch');
  }

  lemma ThreadedWithout(heap: map<Ptr, Foo>, head: Ptr, c: seq<Ptr>, k: nat, heap': map<Ptr, Foo>, head': Ptr)
    requires Threaded(heap, head, c) && k < |c| && (forall i, j :: 0 <= i < j < |c| ==> c[i] != c[j])
    requires k == 0 ==> heap' == heap && head' == heap[c[0]].next
    requires k > 0 ==> heap' == heap[c[k - 1] := heap[c[k - 1]].(next := heap[c[k]].next)] && head' == head
    ensures Threaded(heap', head', Without(c, k))
  {
    var d := Without(c, k);
    assert |d| == |c| - 1 && forall i :: 0 <= i < |d| ==> d[i] == c[if i < k then i else i + 1];
    assert heap[c[0]].next == At(c, 1);
    assert head' == At(d, 0) && forall i :: 0 <= i < |d| ==> d[i] in heap';
    forall i, j | 0 <= i < |d| && j == i + 1 ensures heap'[d[i]].next == At(d, j) {
      var m := if i < k then i else i + 1;
      assert heap[c[m]].next == At(c, m + 1);
      assert k > 0 && m == k - 1 ==> heap[c[k]].next == At(c, k + 1);
    }
  }

  lemma BucketUnlink(s: State, c: seq<Ptr>, t: Tid, k: nat)
    requires t < |s.threads| && (s.threads[t].pc == 91 || s.threads[t].pc == 95) && s.threads[t].fp in s.heap
             && |s.fh| == NHASH
    requires var b := Hash(s.heap[s.threads[t].fp].id);
             Threaded(s.heap, s.fh[b], c) && ChainOk(s, b, c) && k < |c| && c[k] == s.threads[t].fp
    requires s.threads[t].pc == 91 ==> k == 0
    requires s.threads[t].pc == 95 ==> k > 0 && c[k - 1] == s.threads[t].tfp && s.threads[t].tfp in s.heap
    ensures var b := Hash(s.heap[s.threads[t].fp].id);
            var s' := WriteStep(s, t);
            Threaded(s'.heap, s'.fh[b], Without(c, k)) && ChainOk(s', b, Without(c, k))
  {
    hide Hash;
    var b := Hash(s.heap[s.threads[t].fp].id);
    var s' := WriteStep(s, t);
    var foo := s.heap[c[k]];
    assert s'.linkedAt == s.linkedAt && s'.clock == s.clock && s'.heap.Keys == s.heap.Keys;
    assert if k == 0 then s'.heap == s.heap && s'.fh[b] == foo.next
           else s'.heap == s.heap[c[k - 1] := s.heap[c[k - 1]].(next := foo.next)] && s'.fh[b] == s.fh[b];
    Distinct(s, b, c);
    ChainOkWithout(s, b, c, k, s');
    ThreadedWithout(s.heap, s.fh[b], c, k, s'.heap, s'.fh[b]);
    hide *;
  }

  lemma ChainOkWithout(s: State, b: nat, c: seq<Ptr>, k: nat, s': State)
    requires ChainOk(s, b, c) && k < |c| && s'.heap.Keys == s.heap.Keys && s'.linkedAt == s.linkedAt
    requires s'.clock == s.clock
    requires forall q :: q in s.heap ==> s'.heap[q].id == s.heap[q].id
    ensures ChainOk(s', b, Without(c, k))
  {
    var d := Without(c, k);
    assert forall i :: 0 <= i < |d| ==> d[i] == c[if i < k then i else i + 1];
  }

  /** fp leaves position k of its chain: fh[idx] moves on when k is 0, else the predecessor's f_next. */
  lemma ChainsUnlink(s: State, ch: Chains, t: Tid, k: nat)
    requires ChainsOk(s, ch) && t < |s.threads| && (s.threads[t].pc == 91 || s.threads[t].pc == 95)
    requires var fp := s.threads[t].fp;
             fp in s.heap && k < |ch[Hash(s.heap[fp].id)]| && ch[Hash(s.heap[fp].id)][k] == fp
    requires s.threads[t].pc == 91 ==> k == 0
    requires s.threads[t].pc == 95 ==>
               k > 0 && ch[Hash(s.heap[s.threads[t].fp].id)][k - 1] == s.threads[t].tfp && s.threads[t].tfp in s.heap
    ensures var b := Hash(s.heap[s.threads[t].fp].id);
            var ch' := ch[b := Without(ch[b], k)];
            var s' := WriteStep(s, t);
            ChainsOk(s', ch') && forall p :: In(s', ch', p) <==> In(s, ch, p) && p != s.threads[t].fp
  {
    hide Hash, Threaded, ChainOk;
    var fp := s.threads[t].fp;
    var b := Hash(s.heap[fp].id);
    var s' := WriteStep(s, t);
    var c' := Without(ch[b], k);
    var ch' := ch[b := c'];
    BucketUnlink(s, ch[b], t, k);
    if s.threads[t].pc == 95 {
      Element(s, ch, b, k - 1);
    }
    forall d | 0 <= d < NHASH ensures Threaded(s'.heap, s'.fh[d], ch'[d]) && ChainOk(s', d, ch'[d]) {
      if d != b {
        OtherBucket(s, ch, s', b, d);
      }
    }
    Distinct(s, b, ch[b]);
    WithoutIn(ch[b], k);
    forall p ensures In(s', ch', p) <==> In(s, ch, p) && p != fp {
      InAfter(s, ch, s', b, c', p);
    }
  }

  lemma Distinct(s: State, b: nat, c: seq<Ptr>)
    requires ChainOk(s, b, c)
    ensures forall i, j :: 0 <= i < j < |c| ==> c[i] != c[j]
  {
  }

  lemma WithoutIn<T>(c: seq<T>, k: nat)
    requires k < |c| && (forall i, j :: 0 <= i < j < |c| ==> c[i] != c[j])
    ensures forall x :: x in Without(c, k) <==> x in c && x != c[k]
  {
    forall x | x in c && x != c[k] ensures x in Without(c, k) {
      var i :| 0 <= i < |c| && c[i] == x;
      assert Without(c, k)[if i < k then i else i - 1] == x;
    }
  }

  /** When fp's count is zero and t is about to unlink it, only another parked releaser could still mention fp. */
  lemma LastKnower(s: State, ch: Chains, t: Tid, u: Tid)
    requires Inv(s, ch) && Unlinking(s, t) && u < |s.threads|
    requires u != t && Parked(s.threads[u].pc) ==> s.threads[u].fp != s.threads[t].fp
    ensures s.threads[t].fp !in s.threads[u].own
    ensures u != t ==> Unknown(s.threads[u], s.threads[t].fp)
  {
    hide WalkOk, ChainsOk, AloneOk, Inv;
    Unfold(s, ch, t);
    Unfold(s, ch, u);
    var fp := s.threads[t].fp;
    assert s.heap[fp].count == 0;
    SumAtLeast(HoldsOf(fp), s.threads, u);
    assert Holds(s.threads[u], fp) == 0;
  }

  lemma UnlinkPosition(s: State, ch: Chains, th: Thread) returns (k: nat)
    requires ChainsOk(s, ch) && RefsOk(s, ch, th) && WalkOk(s, ch, th) && (th.pc == 91 || th.pc == 95)
    ensures th.fp in s.heap
    ensures k < |ch[Hash(s.heap[th.fp].id)]| && ch[Hash(s.heap[th.fp].id)][k] == th.fp
    ensures th.pc == 91 ==> k == 0
    ensures th.pc == 95 ==> k > 0 && ch[Hash(s.heap[th.fp].id)][k - 1] == th.tfp && th.tfp in s.heap
  {
    hide Hash, ChainsOk;
    Sizes(s, ch);
    var b := Hash(s.heap[th.fp].id);
    if th.pc == 91 {
      k := 0;
      Bucket(s, ch, b);
    } else {
      var i :| 0 <= i < |ch[b]| - 1 && ch[b][i] == th.tfp && ch[b][i + 1] == th.fp;
      k := i + 1;
      Element(s, ch, b, i);
    }
  }

  /** Lines 91 and 95 remove fp, and only fp, from its chain. */
  lemma KeepUnlink(s: State, ch: Chains, t: Tid) returns (ch': Chains)
    requires Inv(s, ch) && Ready(s, t) && Unlinking(s, t) && AloneOn(s, t)
    ensures Inv(WriteStep(s, t), ch') && TableAfter(s, ch, WriteStep(s, t), ch', {}, {s.threads[t].fp})
    ensures |ch| == NHASH && s.threads[t].fp in s.heap
    ensures var b, fp := Hash(s.heap[s.threads[t].fp].id), s.threads[t].fp;
            exists k: nat :: k < |ch[b]| && ch[b][k] == fp && ch' == ch[b := Without(ch[b], k)]
  {
    hide Inv, ChainsOk, LocksOk, CountsOk, AloneOk, Hash, Faults, WalkOk, Without;
    Unfold(s, ch, t);
    var th := s.threads[t];
    var b := Hash(s.heap[th.fp].id);
    var k := UnlinkPosition(s, ch, th);
    var th', s' := th.(pc := 98), WriteStep(s, t);
    ch' := ch[b := Without(ch[b], k)];
    ChainsUnlink(s, ch, t, k);
    LocksQuiet(s, t, th', s');
    CountsMove(s, t, th', s', NULL, 0);
    forall u | 0 <= u < |s.threads| && u != t ensures Unknown(s.threads[u], th.fp) {
      LastKnower(s, ch, t, u);
    }
    hide Unknown;
    AloneUnlinked(s, t, th', s');
    LastKnower(s, ch, t, t);
    ThreadUnlinked(s, ch, s', ch', th, th');
    hide RefsOk;
    FrameChains(s, ch, t, th', s', ch');
  }

  lemma ThreadUnlinked(s: State, ch: Chains, s': State, ch': Chains, th: Thread, th': Thread)
    requires |ch| == NHASH && |ch'| == NHASH && |s'.fh| == NHASH && RefsOk(s, ch, th) && 88 <= th.pc <= 95
    requires th' == th.(pc := 98) && th.fp !in th.own && s'.heap.Keys == s.heap.Keys
    requires forall p :: p in s.heap ==> s'.heap[p].count == s.heap[p].count
    requires forall p :: In(s', ch', p) <==> In(s, ch, p) && p != th.fp
    ensures RefsOk(s', ch', th') && WalkOk(s', ch', th')
  {
    hide Hash;
  }

  lemma AloneUnlinked(s: State, t: Tid, th: Thread, s': State)
    requires AloneOk(s) && t < |s.threads| && s'.threads == s.threads[t := th]
    requires forall u :: 0 <= u < |s.threads| && u != t ==> Unknown(s.threads[u], th.fp)
    ensures AloneOk(s')
  {
  }

  // ---------- safety of one state ----------

  /** The invariant excludes every fault: the next step of any thread touches only allocated memory,
      unlocks only what it holds and destroys only an unlocked mutex. */
  lemma NoFault(s: State, ch: Chains, t: Tid)
    requires Inv(s, ch) && t < |s.threads|
    ensures !Faults(s, t)
  {
    hide Inv, ChainsOk, LocksOk, AloneOk, CountsOk, Hash;
    Unfold(s, ch, t);
    var th := s.threads[t];
    if th.pc == 56 {
      var c := ch[Hash(th.id)];
      var k :| 0 <= k <= |c| && th.fp == At(c, k) && NoneBefore(s.heap, c, k, th.id);
      if k < |c| {
        Element(s, ch, Hash(th.id), k);
      }
    } else if th.pc == 93 || th.pc == 95 {
      var b := Hash(s.heap[th.fp].id);
      var i :| 0 <= i < |ch[b]| && ch[b][i] == th.tfp;
      Element(s, ch, b, i);
    }
    NoMisuse(s, ch, t);
  }

  /** A thread unlocks only what it holds, and destroys only an unlocked mutex. */
  lemma NoMisuse(s: State, ch: Chains, t: Tid)
    requires Inv(s, ch) && t < |s.threads|
    ensures UnlocksTable(s.threads[t].pc) ==> s.hashlock == Held(t)
    ensures UnlocksObj(s.threads[t].pc) ==> s.threads[t].fp in s.heap && s.heap[s.threads[t].fp].lock == Held(t)
    ensures s.threads[t].pc == 101 ==> s.threads[t].fp in s.heap && s.heap[s.threads[t].fp].lock == Free
  {
    assert RefsOk(s, ch, s.threads[t]);
    hide ChainsOk, CountsOk, WalkOk, Hash;
  }
}
