/** Safety, exactness of foo_find, absence of leaks and absence of deadlock, over every run of the
    two-lock table in which nobody else is parked on an object that is being unlinked. */
module RefTableSafety {
  import opened Counting
  import opened RefTable
  import opened RefTableInvariant

  /** The object this step links, if any. */
  function Links(s: State, e: Event): set<Ptr> {
    if e.a.Run? && e.t < |s.threads| && s.threads[e.t].pc == 40 then {s.threads[e.t].fp} else {}
  }

  /** The object this step unlinks, if any. */
  function Unlinks(s: State, e: Event): set<Ptr> {
    if e.a.Run? && e.t < |s.threads| && (s.threads[e.t].pc == 91 || s.threads[e.t].pc == 95)
    then {s.threads[e.t].fp} else {}
  }

  /** The lines that change the chains. */
  predicate Relinks(pc: nat) {
    pc == 40 || pc == 91 || pc == 95
  }

  /** The kinds of steps, and which of them link or unlink. */
  lemma Kinds(s: State, t: Tid)
    requires Ready(s, t)
    ensures var pc := s.threads[t].pc;
            && (WantsTable(pc) ==> Advance(s, t) == TakeTable(s, t))
            && (UnlocksTable(pc) && !WantsTable(pc) ==> Advance(s, t) == DropTable(s, t))
            && (WantsObj(pc) && !WantsTable(pc) && !UnlocksTable(pc) ==>
                  s.threads[t].fp in s.heap && Advance(s, t) == TakeObj(s, t))
            && (UnlocksObj(pc) && !WantsTable(pc) && !UnlocksTable(pc) && !WantsObj(pc) ==>
                  s.threads[t].fp in s.heap && Advance(s, t) == DropObj(s, t))
            && (OnlyLocal(pc) && !WantsTable(pc) && !UnlocksTable(pc) && !WantsObj(pc) && !UnlocksObj(pc) ==>
                  Touches(s.threads[t]) <= s.heap.Keys && Advance(s, t) == SetThread(s, t, LocalStep(s, s.threads[t])))
            && (Writes(pc) && !WantsTable(pc) && !UnlocksTable(pc) && !WantsObj(pc) && !UnlocksObj(pc)
                && !OnlyLocal(pc) ==>
                  s.threads[t].fp in s.heap && (pc == 95 ==> s.threads[t].tfp in s.heap)
                      && Advance(s, t) == WriteStep(s, t))
            && (!WantsTable(pc) && !UnlocksTable(pc) && !WantsObj(pc) && !UnlocksObj(pc) && !OnlyLocal(pc)
                && !Writes(pc) ==>
                  Advance(s, t) == s)
            && (!Writes(pc) ==> Links(s, Event(t, Run)) == {} && Unlinks(s, Event(t, Run)) == {})
  {
    hide TakeTable, DropTable, TakeObj, DropObj, LocalStep, WriteStep;
  }

  lemma KeepRun(s: State, ch: Chains, t: Tid, s': State) returns (ch': Chains)
    requires Inv(s, ch) && UnlinkAlone(s) && Ready(s, t) && s' == Advance(s, t)
    ensures Inv(s', ch') && TableAfter(s, ch, s', ch', Links(s, Event(t, Run)), Unlinks(s, Event(t, Run)))
    ensures ch' == ch || Relinks(s.threads[t].pc)
  {
    var pc := s.threads[t].pc;
    Kinds(s, t);
    hide *;
    ch' := ch;
    if WantsTable(pc) { KeepTakeTable(s, ch, t); }
    else if UnlocksTable(pc) { KeepDropTable(s, ch, t); }
    else if WantsObj(pc) { KeepTakeObj(s, ch, t); }
    else if UnlocksObj(pc) { KeepDropObj(s, ch, t); }
    else if OnlyLocal(pc) { KeepLocal(s, ch, t); }
    else if Writes(pc) { ch' := KeepWrite(s, ch, t); }
    else { Stutter(s, ch); }
  }

  lemma KeepWrite(s: State, ch: Chains, t: Tid) returns (ch': Chains)
    requires Inv(s, ch) && UnlinkAlone(s) && Ready(s, t) && Writes(s.threads[t].pc)
    ensures s.threads[t].fp in s.heap && (s.threads[t].pc == 95 ==> s.threads[t].tfp in s.heap)
    ensures Inv(WriteStep(s, t), ch')
    ensures TableAfter(s, ch, WriteStep(s, t), ch', Links(s, Event(t, Run)), Unlinks(s, Event(t, Run)))
    ensures ch' == ch || Relinks(s.threads[t].pc)
  {
    assert Unlinking(s, t) ==> AloneOn(s, t);
    assert s.threads[t].fp in s.heap && (s.threads[t].pc == 95 ==> s.threads[t].tfp in s.heap);
    hide Inv, TableAfter, UnlinkAlone, AloneOn, Ready, WriteStep;
    var pc := s.threads[t].pc;
    ch' := ch;
    if pc == 39 { KeepNext(s, ch, t); }
    else if pc == 40 { ch' := KeepPublish(s, ch, t); }
    else if pc == 58 { KeepGrab(s, ch, t); }
    else if pc == 75 { KeepDrop(s, ch, t); }
    else if pc == 101 { KeepFree(s, ch, t); }
    else { ch' := KeepUnlink(s, ch, t); }
  }

  lemma Stutter(s: State, ch: Chains)
    requires Inv(s, ch)
    ensures TableAfter(s, ch, s, ch, {}, {})
  {
  }

  /** Every step keeps the invariant, and the table changes only at lines 40, 91 and 95. */
  lemma StepKeepsInv(s: State, ch: Chains, e: Event, s': State) returns (ch': Chains)
    requires Inv(s, ch) && UnlinkAlone(s) && Step(s, e, s')
    ensures Inv(s', ch') && TableAfter(s, ch, s', ch', Links(s, e), Unlinks(s, e))
    ensures ch' == ch || (e.a.Run? && Relinks(s.threads[e.t].pc))
  {
    hide Inv, TableAfter, UnlinkAlone;
    match e.a
    case Run => ch' := KeepRun(s, ch, e.t, s');
    case Make(c) =>
      ch' := ch;
      match c
      case CallAlloc(id, fp) => KeepCallAlloc(s, ch, e.t, id, fp);
      case CallAllocFails => Stutter(s, ch);
      case _ => KeepCallOther(s, ch, e.t, c);
  }

  // ---------- nothing is leaked ----------

  /** Every allocated object is in the table or known to one running call, and an object in the table
      whose count is zero has a releaser that will free it. */
  ghost predicate NoLeak(s: State, ch: Chains)
    requires |ch| == NHASH
  {
    && (forall p :: p in s.heap && !In(s, ch, p) ==> Keeper(s, p))
    && (forall p :: In(s, ch, p) && s.heap[p].count == 0 ==> Freer(s, p))
  }

  ghost predicate Keeper(s: State, p: Ptr) {
    exists t :: 0 <= t < |s.threads| && Outside(s.threads[t].pc) && s.threads[t].fp == p
  }

  ghost predicate Freer(s: State, p: Ptr) {
    exists t :: 0 <= t < |s.threads| && Parked(s.threads[t].pc) && s.threads[t].fp == p
  }

  lemma LeakFrame(s: State, ch: Chains, t: Tid, th: Thread, s': State, ch': Chains, linked: set<Ptr>,
                  unlinked: set<Ptr>)
    requires |ch| == NHASH && NoLeak(s, ch) && t < |s.threads| && s'.threads == s.threads[t := th]
    requires TableAfter(s, ch, s', ch', linked, unlinked)
    requires forall p :: p in s'.heap && p !in s.heap ==> Outside(th.pc) && th.fp == p
    requires forall p :: p in unlinked ==> Outside(th.pc) && th.fp == p
    requires forall p :: p in linked && p in s'.heap ==> s'.heap[p].count > 0
    requires Outside(s.threads[t].pc) && s.threads[t].fp in s'.heap ==>
      (Outside(th.pc) && th.fp == s.threads[t].fp) || s.threads[t].fp in linked
    requires forall p :: p in s.heap && p in s'.heap && s'.heap[p].count == 0 && s.heap[p].count != 0 ==>
      Parked(th.pc) && th.fp == p
    requires Parked(s.threads[t].pc) && s.threads[t].fp in s'.heap && s'.heap[s.threads[t].fp].count == 0 ==>
      (Parked(th.pc) && th.fp == s.threads[t].fp) || s.threads[t].fp in unlinked
    ensures NoLeak(s', ch')
  {
    assert s'.threads[t] == th;
    forall p | p in s'.heap && !In(s', ch', p) ensures Keeper(s', p) {
      if p in s.heap && p !in unlinked {
        assert !In(s, ch, p);
        var u :| 0 <= u < |s.threads| && Outside(s.threads[u].pc) && s.threads[u].fp == p;
        assert u != t ==> s'.threads[u] == s.threads[u];
      }
    }
    forall p | In(s', ch', p) && s'.heap[p].count == 0 ensures Freer(s', p) {
      if In(s, ch, p) && s.heap[p].count == 0 {
        var u :| 0 <= u < |s.threads| && Parked(s.threads[u].pc) && s.threads[u].fp == p;
        assert u != t ==> s'.threads[u] == s.threads[u];
      }
    }
  }

  /** A lock operation or a move of locals: no count changes, and t stays keeper and freer of what it was,
      except that a releaser which finds a nonzero count gives up. */
  lemma QuietShape(s: State, t: Tid)
    requires Ready(s, t) && !Writes(s.threads[t].pc)
    ensures t < |s.threads| && |Advance(s, t).threads| == |s.threads|
    ensures var s', th, th' := Advance(s, t), s.threads[t], Advance(s, t).threads[t];
            && s'.threads == s.threads[t := th'] && s'.heap.Keys == s.heap.Keys
            && (forall p :: p in s.heap ==> s'.heap[p].count == s.heap[p].count)
            && (Outside(th.pc) ==> Outside(th'.pc) && th'.fp == th.fp)
            && (Parked(th.pc) ==> (Parked(th'.pc) && th'.fp == th.fp) || (th.fp in s.heap && s.heap[th.fp].count != 0))
  {
  }

  lemma LeakQuiet(s: State, ch: Chains, t: Tid, s': State)
    requires |ch| == NHASH && NoLeak(s, ch) && Ready(s, t) && s' == Advance(s, t) && !Writes(s.threads[t].pc)
    requires TableAfter(s, ch, s', ch, {}, {})
    ensures NoLeak(s', ch)
  {
    hide NoLeak, TableAfter, Advance, Ready;
    QuietShape(s, t);
    LeakFrame(s, ch, t, s'.threads[t], s', ch, {}, {});
  }

  /** A write: only line 75 takes a count to zero, and then t is parked on it. */
  lemma WriteShape(s: State, t: Tid)
    requires Ready(s, t) && Writes(s.threads[t].pc)
    ensures t < |s.threads| && |Advance(s, t).threads| == |s.threads|
    ensures var s', th, th' := Advance(s, t), s.threads[t], Advance(s, t).threads[t];
            && s'.threads == s.threads[t := th'] && s'.heap.Keys <= s.heap.Keys
            && (forall p :: p in s'.heap && s'.heap[p].count == 0 && s.heap[p].count != 0 ==>
                  (Parked(th'.pc) && th'.fp == p) || (th.pc == 58 && p == th.fp))
            && (Outside(th.pc) && th.fp in s'.heap ==> (Outside(th'.pc) && th'.fp == th.fp) || th.pc == 40)
            && (th.pc == 91 || th.pc == 95 ==> Outside(th'.pc) && th'.fp == th.fp)
            && (Parked(th.pc) ==> th.pc == 91 || th.pc == 95)
            && (th.pc == 40 || th.pc == 58 ==> InFlight(th'.pc) && th'.fp == th.fp)
  {
  }

  lemma InFlightCounted(s: State, t: Tid)
    requires CountsOk(s) && t < |s.threads| && InFlight(s.threads[t].pc) && s.threads[t].fp in s.heap
    ensures s.heap[s.threads[t].fp].count > 0
  {
    SumAtLeast(HoldsOf(s.threads[t].fp), s.threads, t);
    assert HoldsOf(s.threads[t].fp)(s.threads[t]) > 0;
  }

  lemma LeakWrite(s: State, ch: Chains, t: Tid, s': State, ch': Chains)
    requires |ch| == NHASH && NoLeak(s, ch) && Ready(s, t) && s' == Advance(s, t) && Writes(s.threads[t].pc)
    requires CountsOk(s')
    requires TableAfter(s, ch, s', ch', Links(s, Event(t, Run)), Unlinks(s, Event(t, Run)))
    ensures NoLeak(s', ch')
  {
    hide NoLeak, TableAfter, CountsOk, Advance, Ready;
    WriteShape(s, t);
    var th := s.threads[t];
    if (th.pc == 40 || th.pc == 58) && th.fp in s'.heap {
      InFlightCounted(s', t);
    }
    LeakFrame(s, ch, t, s'.threads[t], s', ch', Links(s, Event(t, Run)), Unlinks(s, Event(t, Run)));
  }

  lemma LeakCall(s: State, ch: Chains, t: Tid, c: Call)
    requires |ch| == NHASH && NoLeak(s, ch) && CanCall(s, t, c)
    requires TableAfter(s, ch, Begin(s, t, c), ch, {}, {})
    ensures NoLeak(Begin(s, t, c), ch)
  {
    hide NoLeak, TableAfter;
    var s' := Begin(s, t, c);
    LeakFrame(s, ch, t, s'.threads[t], s', ch, {}, {});
  }

  ghost predicate LinesOk(s: State) {
    forall t :: 0 <= t < |s.threads| ==> IsLine(s.threads[t].pc)
  }

  lemma LinesKept(s: State, e: Event, s': State)
    requires LinesOk(s) && Step(s, e, s')
    ensures LinesOk(s')
  {
    OnlyMine(s, e, s');
    LineKept(s, e, s');
    hide Step, IsLine;
  }

  /** A step of one thread leaves the locals of the others alone. */
  lemma OnlyMine(s: State, e: Event, s': State)
    requires Step(s, e, s')
    ensures e.t < |s.threads| == |s'.threads| && s'.threads == s.threads[e.t := s'.threads[e.t]]
  {
  }

  lemma LineKept(s: State, e: Event, s': State)
    requires Step(s, e, s') && IsLine(s.threads[e.t].pc)
    ensures IsLine(s'.threads[e.t].pc)
  {
    hide Faults, Blocked;
    if e.a.Run? {
      LineAfter(s, e.t);
    }
  }

  lemma LineAfter(s: State, t: Tid)
    requires Ready(s, t) && IsLine(s.threads[t].pc)
    ensures |Advance(s, t).threads| == |s.threads| && IsLine(Advance(s, t).threads[t].pc)
  {
    hide Hash, Handed;
    var pc := s.threads[t].pc;
    if WantsTable(pc) || UnlocksTable(pc) || WantsObj(pc) || UnlocksObj(pc) {
      assert IsLine(RefTable.After(pc));
    }
  }

  /** The full invariant, for the chains the heap spells out. */
  ghost predicate Good(s: State) {
    LinesOk(s) && exists ch :: Inv(s, ch) && NoLeak(s, ch)
  }

  lemma InitIsGood(s: State)
    requires Init(s)
    ensures Good(s)
  {
    var ch: Chains := seq(NHASH, _ => []);
    assert Inv(s, ch) && NoLeak(s, ch);
  }

  lemma StepKeepsGood(s: State, e: Event, s': State)
    requires Good(s) && UnlinkAlone(s) && Step(s, e, s')
    ensures Good(s')
  {
    var ch :| Inv(s, ch) && NoLeak(s, ch);
    LinesKept(s, e, s');
    hide *;
    StepKept(s, ch, e, s');
  }

  lemma StepKept(s: State, ch: Chains, e: Event, s': State)
    requires Inv(s, ch) && |ch| == NHASH && NoLeak(s, ch) && UnlinkAlone(s) && Step(s, e, s')
    ensures exists ch' :: Inv(s', ch') && NoLeak(s', ch')
  {
    hide Inv, NoLeak, TableAfter, UnlinkAlone, Advance, Begin;
    var ch' := StepKeepsInv(s, ch, e, s');
    OnlyMine(s, e, s');
    hide Ready;
    Unfold(s, ch, e.t);
    Unfold(s', ch', e.t);
    match e.a
    case Run =>
      if Writes(s.threads[e.t].pc) {
        LeakWrite(s, ch, e.t, s', ch');
      } else {
        LeakQuiet(s, ch, e.t, s');
      }
    case Make(c) =>
      LeakCall(s, ch, e.t, c);
  }

  // ---------- main results ----------

  lemma {:induction false} RunStaysGood(states: seq<State>, events: seq<Event>, n: nat)
    requires IsRun(states, events) && Init(states[0]) && n < |states|
    requires forall i :: 0 <= i < |events| ==> UnlinkAlone(states[i])
    ensures Good(states[n])
  {
    if n == 0 {
      InitIsGood(states[0]);
    } else {
      RunStaysGood(states, events, n - 1);
      hide Good;
      StepKeepsGood(states[n - 1], events[n - 1], states[n]);
    }
  }

  /** Safety over whole runs: any number of threads, any calls, any interleaving.  While nobody else is parked on an
      object about to be unlinked, no step touches freed or NULL memory or misuses a mutex, and the invariant holds. */
  lemma RunIsSafe(states: seq<State>, events: seq<Event>)
    requires IsRun(states, events) && Init(states[0])
    requires forall i :: 0 <= i < |events| ==> UnlinkAlone(states[i])
    ensures forall i, t :: 0 <= i < |states| && 0 <= t < |states[i].threads| ==> !Faults(states[i], t)
    ensures forall i :: 0 <= i < |states| ==> Good(states[i])
  {
    forall i | 0 <= i < |states|
      ensures Good(states[i]) && forall t :: 0 <= t < |states[i].threads| ==> !Faults(states[i], t)
    {
      RunStaysGood(states, events, i);
      var ch :| Inv(states[i], ch) && NoLeak(states[i], ch);
      hide Inv, NoLeak;
      forall t | 0 <= t < |states[i].threads| ensures !Faults(states[i], t) {
        NoFault(states[i], ch, t);
      }
    }
  }

  /** foo_find picks the most recently linked object with the id, and NULL exactly when there is none. */
  lemma FindIsExact(s: State, ch: Chains, t: Tid)
    requires Inv(s, ch) && t < |s.threads|
    ensures var th := s.threads[t];
            && (57 <= th.pc <= 60 ==>
                  && In(s, ch, th.fp) && s.heap[th.fp].id == th.id && th.fp in s.linkedAt
                  && forall q :: In(s, ch, q) && s.heap[q].id == th.id ==>
                        q in s.linkedAt && s.linkedAt[q] <= s.linkedAt[th.fp])
            && (th.pc == 65 ==> forall q :: In(s, ch, q) ==> s.heap[q].id != th.id)
  {
    hide Inv, LocksOk, AloneOk, CountsOk, ChainsOk, Hash;
    Unfold(s, ch, t);
    var th := s.threads[t];
    var c := ch[Hash(th.id)];
    BucketOk(s, ch, Hash(th.id));
    if 57 <= th.pc <= 60 {
      var k :| 0 <= k < |c| && th.fp == c[k] && c[k] in s.heap && s.heap[c[k]].id == th.id
          && NoneBefore(s.heap, c, k, th.id);
      forall q | In(s, ch, q) && s.heap[q].id == th.id ensures q in s.linkedAt && s.linkedAt[q] <= s.linkedAt[th.fp] {
        var i :| 0 <= i < |c| && c[i] == q;
      }
    }
  }

  lemma BucketOk(s: State, ch: Chains, b: nat)
    requires ChainsOk(s, ch) && b < NHASH
    ensures ChainOk(s, b, ch[b]) && Threaded(s.heap, s.fh[b], ch[b])
  {
  }

  /** u keeps t waiting: it holds the mutex t needs, or the f_lock which the holder of that mutex needs. */
  ghost predicate Delays(s: State, u: Tid, t: Tid)
    requires t < |s.threads| && u < |s.threads|
  {
    var th := s.threads[t];
    || (WantsObj(th.pc) && th.fp in s.heap && s.heap[th.fp].lock == Held(u))
    || (WantsTable(th.pc) && s.hashlock == Held(u))
    || (WantsTable(th.pc) && s.hashlock.Held? && s.hashlock.holder < |s.threads| &&
        var h := s.threads[s.hashlock.holder]; WantsObj(h.pc) && h.fp in s.heap && s.heap[h.fp].lock == Held(u))
  }

  /** A thread that holds an f_lock and not hashlock waits for nobody. */
  lemma ObjHolderRuns(s: State, ch: Chains, u: Tid)
    requires Inv(s, ch) && u < |s.threads| && HoldsObj(s.threads[u].pc)
    ensures Ready(s, u)
  {
    hide Inv, Faults, ChainsOk, LocksOk, CountsOk, AloneOk, RefsOk, WalkOk, Hash;
    NoFault(s, ch, u);
    Unfold(s, ch, u);
    assert !WantsTable(s.threads[u].pc) && !WantsObj(s.threads[u].pc) && s.threads[u].pc != IDLE;
    hide HoldsObj, WantsTable, WantsObj;
  }

  /** No deadlock: whoever waits is kept waiting by a thread that can run now, at most two steps down the chain
      of waiting, because no thread waits for any mutex while it holds an f_lock. */
  lemma NoDeadlock(s: State, ch: Chains, t: Tid) returns (u: Tid)
    requires Inv(s, ch) && t < |s.threads| && s.threads[t].pc != IDLE
    ensures u < |s.threads| && Ready(s, u) && (u == t || Delays(s, u, t))
  {
    NoFault(s, ch, t);
    hide Inv, Faults, ChainsOk, CountsOk, AloneOk, WalkOk;
    Unfold(s, ch, t);
    u := t;
    if Blocked(s, t) {
      if WantsObj(s.threads[t].pc) {
        u := s.heap[s.threads[t].fp].lock.holder;
        ObjHolderRuns(s, ch, u);
      } else {
        u := s.hashlock.holder;
        NoFault(s, ch, u);
        Unfold(s, ch, u);
        if Blocked(s, u) {
          assert WantsObj(s.threads[u].pc);
          var w := s.heap[s.threads[u].fp].lock.holder;
          ObjHolderRuns(s, ch, w);
          u := w;
        }
      }
    }
  }

  ghost predicate Quiescent(s: State) {
    forall t :: 0 <= t < |s.threads| ==> s.threads[t].pc == IDLE
  }

  lemma QuietLocks(s: State)
    requires LocksOk(s) && Quiescent(s)
    ensures s.hashlock == Free && forall p :: p in s.heap ==> s.heap[p].lock == Free
  {
  }

  lemma QuietTable(s: State, ch: Chains)
    requires |ch| == NHASH && NoLeak(s, ch) && Quiescent(s)
    ensures forall p :: p in s.heap ==> In(s, ch, p) && s.heap[p].count != 0
  {
    forall p | p in s.heap ensures In(s, ch, p) && s.heap[p].count != 0 {
      assert !Keeper(s, p) && !Freer(s, p);
    }
  }

  /** When no call is running, every mutex is free, and every allocated object is in the table with a count
      equal to the references the clients still have, at least one. */
  lemma QuiescentIsExact(s: State, ch: Chains)
    requires Inv(s, ch) && NoLeak(s, ch) && Quiescent(s)
    ensures s.hashlock == Free
    ensures forall p :: p in s.heap ==> In(s, ch, p) && s.heap[p].lock == Free && s.heap[p].count == Refs(s, p) >= 1
  {
    Sizes(s, ch);
    QuietTable(s, ch);
    hide ChainsOk, AloneOk, RefsOk, WalkOk, NoLeak, Quiescent;
    QuietLocks(s);
    hide LocksOk;
  }
}
