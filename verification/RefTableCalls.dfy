/** What each call does when it runs undisturbed: it returns, and changes the table as the sequential program would. */
module RefTableCalls {
  import opened Basics
  import opened RefTable
  import opened RefTableInvariant
  import opened RefTableSafety
  import opened RefTableProgress
  import opened RefTableHypothesis

  /** Only t runs. */
  predicate OnlyRuns(schedule: seq<Event>, t: Tid) {
    forall i :: 0 <= i < |schedule| ==> schedule[i] == Event(t, Run)
  }

  /** One more step of t at the end. */
  lemma LeadsNext(s: State, schedule: seq<Event>, s': State, t: Tid)
    requires Leads(s, schedule, s') && Ready(s', t)
    ensures Leads(s, schedule + [Event(t, Run)], Advance(s', t))
  {
    hide Leads, Ready, Advance;
    LeadsNowhere(Advance(s', t));
    LeadsFirst(s', t, [], Advance(s', t));
    assert [Event(t, Run)] + [] == [Event(t, Run)];
    LeadsOn(s, schedule, s', [Event(t, Run)], Advance(s', t));
  }

  lemma LeadsCall(s: State, t: Tid, c: Call, schedule: seq<Event>, s': State)
    requires CanCall(s, t, c) && Leads(Begin(s, t, c), schedule, s')
    ensures Leads(s, [Event(t, Make(c))] + schedule, s')
  {
    LeadsEvent(s, Event(t, Make(c)), schedule, s');
  }

  /** Every step but those that link and unlink keeps the chains. */
  lemma StepInv(s: State, ch: Chains, t: Tid)
    requires Inv(s, ch) && Ready(s, t) && IsLine(s.threads[t].pc) && !Relinks(s.threads[t].pc)
    ensures Inv(Advance(s, t), ch)
  {
    Kinds(s, t);
    hide Inv, Ready, Advance, TableAfter, WriteStep, TakeTable, DropTable, TakeObj, DropObj, LocalStep;
    var pc := s.threads[t].pc;
    if WantsTable(pc) { KeepTakeTable(s, ch, t); }
    else if UnlocksTable(pc) { KeepDropTable(s, ch, t); }
    else if WantsObj(pc) { KeepTakeObj(s, ch, t); }
    else if UnlocksObj(pc) { KeepDropObj(s, ch, t); }
    else if OnlyLocal(pc) { KeepLocal(s, ch, t); }
    else if pc == 39 { KeepNext(s, ch, t); }
    else if pc == 58 { KeepGrab(s, ch, t); }
    else if pc == 75 { KeepDrop(s, ch, t); }
    else if pc == 101 { KeepFree(s, ch, t); }
  }

  lemma LocalReady(s: State, t: Tid)
    requires t < |s.threads| && OnlyLocal(s.threads[t].pc) && |s.fh| == NHASH && !Faults(s, t)
    ensures Touches(s.threads[t]) <= s.heap.Keys
    ensures Ready(s, t) && Advance(s, t) == SetThread(s, t, LocalStep(s, s.threads[t]))
  {
    hide LocalStep;
  }

  /** A step that follows a pointer or tests a count is always possible, and changes only locals. */
  lemma LocalRuns(s: State, ch: Chains, t: Tid)
    requires Inv(s, ch) && t < |s.threads| && OnlyLocal(s.threads[t].pc)
    ensures ChainsOk(s, ch) && Touches(s.threads[t]) <= s.heap.Keys && |s.fh| == NHASH
    ensures Ready(s, t) && Advance(s, t) == SetThread(s, t, LocalStep(s, s.threads[t])) && Inv(Advance(s, t), ch)
  {
    NoFault(s, ch, t);
    Unfold(s, ch, t);
    hide *;
    LocalReady(s, t);
    KeepLocal(s, ch, t);
  }

  // ---------- foo_find ----------

  /** Some linked object has this id. */
  ghost predicate Present(s: State, ch: Chains, id: int)
    requires |ch| == NHASH
  {
    exists q :: In(s, ch, q) && s.heap[q].id == id
  }

  /** The most recently linked object with this id. */
  ghost predicate Latest(s: State, ch: Chains, id: int, p: Ptr)
    requires |ch| == NHASH
  {
    && In(s, ch, p) && s.heap[p].id == id && p in s.linkedAt
    && forall q :: In(s, ch, q) && s.heap[q].id == id ==> q in s.linkedAt && s.linkedAt[q] <= s.linkedAt[p]
  }

  lemma WalkEnded(s: State, ch: Chains, t: Tid)
    requires Inv(s, ch) && t < |s.threads| && (s.threads[t].pc == 57 || s.threads[t].pc == 65)
    ensures |ch| == NHASH
    ensures s.threads[t].pc == 57 <==> Present(s, ch, s.threads[t].id)
    ensures s.threads[t].pc == 57 ==> Latest(s, ch, s.threads[t].id, s.threads[t].fp)
  {
    Sized(s, ch);
    hide Inv, ChainsOk;
    FindIsExact(s, ch, t);
  }

  /** From line 56, with the objects from place k of its bucket on still ahead, foo_find alone comes within one step for
      each of them and one more to line 57, if a linked object has the id, and to line 65 if none has.  Nothing but its
      own locals has changed. */
  lemma {:induction false} FindWalks(s: State, ch: Chains, t: Tid, k: nat) returns (schedule: seq<Event>, s': State)
    requires Inv(s, ch) && |ch| == NHASH && t < |s.threads| && s.threads[t].pc == 56
    requires k <= |ch[Hash(s.threads[t].id)]| && s.threads[t].fp == At(ch[Hash(s.threads[t].id)], k)
    ensures Leads(s, schedule, s') && OnlyRuns(schedule, t)
    ensures |schedule| <= |ch[Hash(s.threads[t].id)]| - k + 1
    ensures Inv(s', ch) && |s'.threads| == |s.threads|
    ensures s' == SetThread(s, t, s.threads[t].(pc := s'.threads[t].pc, fp := s'.threads[t].fp))
    ensures s'.threads[t].pc == if Present(s, ch, s.threads[t].id) then 57 else 65
    ensures s'.threads[t].pc == 65 ==> s'.threads[t].fp == NULL
    decreases |ch[Hash(s.threads[t].id)]| - k
  {
    hide Inv, Leads, Ready, Advance, LocalStep, ChainsOk, Touches, Present, Hash;
    LocalRuns(s, ch, t);
    var th, s1 := s.threads[t], Advance(s, t);
    FindTurn(s, ch, th, k);
    if s1.threads[t].pc == 56 {
      schedule, s' := FindWalks(s1, ch, t, k + 1);
      SamePresent(s, s1, ch, th.id);
    } else {
      schedule, s' := [], s1;
      LeadsNowhere(s1);
      WalkEnded(s1, ch, t);
      SamePresent(s, s1, ch, th.id);
    }
    LeadsFirst(s, t, schedule, s');
    schedule := [Event(t, Run)] + schedule;
  }

  lemma SamePresent(s: State, s': State, ch: Chains, id: int)
    requires |ch| == NHASH && s'.heap == s.heap && s'.linkedAt == s.linkedAt
    ensures Present(s', ch, id) <==> Present(s, ch, id)
    ensures forall p :: Latest(s', ch, id, p) <==> Latest(s, ch, id, p)
  {
    assert forall p :: In(s', ch, p) <==> In(s, ch, p);
    hide In;
  }

  /** The other lines of foo_find. */
  lemma FindLine(s: State, t: Tid)
    requires t < |s.threads| && |s.fh| == NHASH && !Faults(s, t)
    requires s.threads[t].pc in {57, 58, 60, 61} ==> s.threads[t].fp in s.heap
    ensures var th := s.threads[t];
            && (th.pc == 54 && s.hashlock == Free ==>
                  Ready(s, t) && Advance(s, t) == SetThread(s, t, th.(pc := 55)).(hashlock := Held(t)))
            && (th.pc == 57 && s.heap[th.fp].lock == Free ==>
                  Ready(s, t) && Advance(s, t)
                    == SetFoo(SetThread(s, t, th.(pc := 58)), th.fp, s.heap[th.fp].(lock := Held(t))))
            && (th.pc == 58 ==>
                  Ready(s, t) && Advance(s, t)
                    == SetFoo(SetThread(s, t, th.(pc := 60)), th.fp, s.heap[th.fp].(count := s.heap[th.fp].count + 1)))
            && (th.pc == 60 ==>
                  Ready(s, t) && Advance(s, t) == SetThread(s, t, th.(pc := 61)).(hashlock := Free))
            && (th.pc == 61 ==>
                  Ready(s, t) && Advance(s, t)
                    == SetFoo(SetThread(s, t, th.(pc := IDLE, own := th.own + multiset{th.fp})), th.fp,
                              s.heap[th.fp].(lock := Free)))
            && (th.pc == 65 ==>
                  Ready(s, t) && Advance(s, t) == SetThread(s, t, th.(pc := IDLE)).(hashlock := Free))
  {
    hide Hash, Faults;
  }

  lemma FindStep(s: State, ch: Chains, t: Tid)
    requires Inv(s, ch) && t < |s.threads| && s.threads[t].pc in {54, 57, 58, 60, 61, 65}
    requires s.threads[t].pc == 54 ==> s.hashlock == Free
    requires s.threads[t].pc == 57 && s.threads[t].fp in s.heap ==> s.heap[s.threads[t].fp].lock == Free
    ensures s.threads[t].pc in {57, 58, 60, 61} ==> s.threads[t].fp in s.heap
    ensures |s.fh| == NHASH && !Faults(s, t)
    ensures Ready(s, t) && Inv(Advance(s, t), ch)
  {
    NoFault(s, ch, t);
    Unfold(s, ch, t);
    assert Names(s.threads[t].pc) ==> s.threads[t].fp in s.heap;
    hide Inv, Faults, Ready, Advance, ChainsOk, LocksOk, CountsOk, AloneOk, RefsOk, WalkOk;
    FindLine(s, t);
    hide SetThread, SetFoo;
    StepInv(s, ch, t);
  }

  /** Every mutex is free. */
  predicate NoLocks(s: State) {
    s.hashlock == Free && forall p :: p in s.heap ==> s.heap[p].lock == Free
  }

  /** What foo_find leaves: the found object has one more reference, and the caller has it; or nothing is changed. */
  function Found(s: State, t: Tid, id: int, p: Ptr): State
    requires t < |s.threads|
  {
    var th := s.threads[t].(id := id, fp := p);
    if p in s.heap
    then SetFoo(SetThread(s, t, th.(own := th.own + multiset{p})), p, s.heap[p].(count := s.heap[p].count + 1))
    else SetThread(s, t, th)
  }

  /** foo_find, called while no mutex is held and left alone, returns the most recently linked object with the id, with
      one more reference, or NULL if there is none, within the length of the bucket and eight steps. */
  lemma FindReturns(s: State, ch: Chains, t: Tid, id: int) returns (schedule: seq<Event>, p: Ptr)
    requires Inv(s, ch) && t < |s.threads| && s.threads[t].pc == IDLE && NoLocks(s)
    ensures |ch| == NHASH
    ensures Leads(s, [Event(t, Make(CallFind(id)))] + schedule, Found(s, t, id, p))
    ensures OnlyRuns(schedule, t) && |schedule| <= |ch[Hash(id)]| + 7
    ensures if Present(s, ch, id) then Latest(s, ch, id, p) else p == NULL && p !in s.heap
    ensures Inv(Found(s, t, id, p), ch)
  {
    Sized(s, ch);
    var s0 := Begin(s, t, CallFind(id));
    assert s0 == SetThread(s, t, s.threads[t].(pc := 54, id := id)) && CanCall(s, t, CallFind(id));
    hide *;
    KeepCallOther(s, ch, t, CallFind(id));
    var s3;
    schedule, s3, p := FindAlone(s0, ch, t);
    SamePresent(s, s0, ch, id);
    Sequential(s, s0, t, id, p, s3);
    LeadsCall(s, t, CallFind(id), schedule, s3);
  }

  lemma Sequential(s: State, s0: State, t: Tid, id: int, p: Ptr, s3: State)
    requires t < |s.threads| && s.threads[t].pc == IDLE && s.hashlock == Free
    requires s0 == SetThread(s, t, s.threads[t].(pc := 54, id := id)) && s3 == Finished(s0, t, p)
    ensures s3 == Found(s, t, id, p)
  {
  }

  /** The state after foo_find, from its line 54. */
  function Finished(s: State, t: Tid, p: Ptr): State
    requires t < |s.threads|
  {
    var th := s.threads[t].(pc := IDLE, fp := p);
    if p in s.heap
    then SetFoo(SetThread(s, t, th.(own := th.own + multiset{p})), p, s.heap[p].(count := s.heap[p].count + 1))
    else SetThread(s, t, th)
  }

  lemma FindAlone(s: State, ch: Chains, t: Tid) returns (schedule: seq<Event>, s': State, p: Ptr)
    requires Inv(s, ch) && |ch| == NHASH && t < |s.threads| && s.threads[t].pc == 54 && NoLocks(s)
    ensures Leads(s, schedule, s') && OnlyRuns(schedule, t) && |schedule| <= |ch[Hash(s.threads[t].id)]| + 7
    ensures s' == Finished(s, t, p) && Inv(s', ch)
    ensures if Present(s, ch, s.threads[t].id) then Latest(s, ch, s.threads[t].id, p) else p == NULL && p !in s.heap
  {
    assert s.hashlock == Free && forall p :: p in s.heap ==> s.heap[p].lock == Free;
    hide *;
    var s2, tail;
    schedule, s2, p := FindReaches(s, ch, t);
    tail, s' := FindFinishes(s2, ch, t);
    NullOutside(s, ch);
    SameEnd(s, s2, t, p, s');
    LeadsOn(s, schedule, s2, tail, s');
    OnlyRunsOn(schedule, tail, t);
    schedule := schedule + tail;
  }

  lemma OnlyRunsOn(a: seq<Event>, b: seq<Event>, t: Tid)
    requires OnlyRuns(a, t) && OnlyRuns(b, t)
    ensures OnlyRuns(a + b, t)
  {
  }

  /** s2 is s but for the locals of t and hashlock. */
  predicate Reached(s: State, s2: State, t: Tid, p: Ptr) {
    && t < |s.threads| == |s2.threads|
    && s2.threads == s.threads[t := s.threads[t].(pc := s2.threads[t].pc, fp := p)]
    && s2 == s.(threads := s2.threads, hashlock := s2.hashlock)
  }

  /** Lines 54 to 56. */
  lemma FindReaches(s: State, ch: Chains, t: Tid) returns (schedule: seq<Event>, s2: State, p: Ptr)
    requires Inv(s, ch) && |ch| == NHASH && t < |s.threads| && s.threads[t].pc == 54 && s.hashlock == Free
    ensures Leads(s, schedule, s2) && OnlyRuns(schedule, t) && |schedule| <= |ch[Hash(s.threads[t].id)]| + 3
    ensures Reached(s, s2, t, p) && Inv(s2, ch) && |s2.threads| == |s.threads| && s2.threads[t].fp == p
    ensures s2.heap == s.heap && (s2.threads[t].pc == 57 || (s2.threads[t].pc == 65 && p == NULL))
    ensures s2.threads[t].pc == 57 <==> Present(s, ch, s.threads[t].id)
    ensures s2.threads[t].pc == 57 ==> Latest(s, ch, s.threads[t].id, p) && p in s.heap
  {
    hide Inv, Leads, Ready, Advance, LocalStep, ChainsOk, Present, Latest, Hash, Faults;
    var e, id := Event(t, Run), s.threads[t].id;
    var s1 := FindLocks(s, ch, t);
    schedule, s2 := FindWalks(s1, ch, t, 0);
    p := s2.threads[t].fp;
    WalkEnded(s2, ch, t);
    SamePresent(s, s1, ch, id);
    SamePresent(s, s2, ch, id);
    if s2.threads[t].pc == 57 {
      InHeap(s, ch, id, p);
    }
    LeadsOn(s, [e, e], s1, schedule, s2);
    OnlyRunsOn([e, e], schedule, t);
    schedule := [e, e] + schedule;
  }

  lemma NullOutside(s: State, ch: Chains)
    requires Inv(s, ch)
    ensures NULL !in s.heap
  {
  }

  lemma SameEnd(s: State, s2: State, t: Tid, p: Ptr, s': State)
    requires Reached(s, s2, t, p) && s.hashlock == Free && NULL !in s.heap && |s2.threads| == |s.threads|
    requires s2.threads[t].pc == 57 || (s2.threads[t].pc == 65 && p == NULL)
    requires s2.threads[t].pc == 57 ==> p in s.heap
    requires s' == Tail(s2, t)
    ensures s' == Finished(s, t, p)
  {
  }

  /** The state after lines 57 to 61, or after line 65. */
  function Tail(s: State, t: Tid): State
    requires t < |s.threads|
  {
    var th := s.threads[t].(pc := IDLE);
    if s.threads[t].pc == 57 && th.fp in s.heap
    then SetFoo(SetThread(s, t, th.(own := th.own + multiset{th.fp})), th.fp,
                s.heap[th.fp].(count := s.heap[th.fp].count + 1)).(hashlock := Free)
    else SetThread(s, t, th).(hashlock := Free)
  }

  lemma FindFinishes(s: State, ch: Chains, t: Tid) returns (tail: seq<Event>, s': State)
    requires Inv(s, ch) && t < |s.threads| && (s.threads[t].pc == 57 || s.threads[t].pc == 65)
    requires s.threads[t].pc == 57 ==> s.threads[t].fp in s.heap && s.heap[s.threads[t].fp].lock == Free
    ensures Leads(s, tail, s') && OnlyRuns(tail, t) && |tail| <= 4 && s' == Tail(s, t) && Inv(s', ch)
  {
    hide Inv, Leads, Ready, Advance, Faults;
    var e := Event(t, Run);
    if s.threads[t].pc == 57 {
      s' := FindTakes(s, ch, t);
      tail := [e, e, e, e];
    } else {
      FindStep(s, ch, t);
      FindLine(s, t);
      s' := Advance(s, t);
      LeadsNowhere(s');
      LeadsFirst(s, t, [], s');
      assert [e] + [] == [e];
      tail := [e];
    }
  }

  lemma InHeap(s: State, ch: Chains, id: int, p: Ptr)
    requires |ch| == NHASH && Latest(s, ch, id, p)
    ensures p in s.heap
  {
  }

  /** Lines 54 and 55. */
  lemma FindLocks(s: State, ch: Chains, t: Tid) returns (s': State)
    requires Inv(s, ch) && |ch| == NHASH && t < |s.threads| && s.threads[t].pc == 54 && s.hashlock == Free
    ensures Leads(s, [Event(t, Run), Event(t, Run)], s') && Inv(s', ch)
    ensures s' == SetThread(s, t, s.threads[t].(pc := 56, fp := At(ch[Hash(s.threads[t].id)], 0))).(hashlock := Held(t))
  {
    hide Inv, Leads, Ready, Advance, ChainsOk, Touches, Hash, Faults;
    FindStep(s, ch, t);
    FindLine(s, t);
    var s1 := Advance(s, t);
    LocalRuns(s1, ch, t);
    Bucket(s1, ch, Hash(s1.threads[t].id));
    s' := Advance(s1, t);
    var e := Event(t, Run);
    assert [e] + [] == [e] && [e] + [e] == [e, e];
    LeadsNowhere(s');
    LeadsFirst(s1, t, [], s');
    LeadsFirst(s, t, [e], s');
  }

  /** Lines 57 to 61. */
  lemma FindTakes(s: State, ch: Chains, t: Tid) returns (s': State)
    requires Inv(s, ch) && t < |s.threads| && s.threads[t].pc == 57
    requires s.threads[t].fp in s.heap && s.heap[s.threads[t].fp].lock == Free
    ensures Leads(s, [Event(t, Run), Event(t, Run), Event(t, Run), Event(t, Run)], s') && Inv(s', ch)
    ensures var th := s.threads[t];
            s' == SetFoo(SetThread(s, t, th.(pc := IDLE, own := th.own + multiset{th.fp})), th.fp,
                         s.heap[th.fp].(count := s.heap[th.fp].count + 1)).(hashlock := Free)
  {
    hide Inv, Leads, Ready, Advance, Faults;
    FindStep(s, ch, t);
    FindLine(s, t);
    var s1 := Advance(s, t);
    FindStep(s1, ch, t);
    FindLine(s1, t);
    var s2 := Advance(s1, t);
    FindStep(s2, ch, t);
    FindLine(s2, t);
    var s3 := Advance(s2, t);
    FindStep(s3, ch, t);
    FindLine(s3, t);
    s' := Advance(s3, t);
    FourSteps(s, s1, s2, s3, s', t);
  }

  lemma FourSteps(s: State, s1: State, s2: State, s3: State, s4: State, t: Tid)
    requires Ready(s, t) && s1 == Advance(s, t) && Ready(s1, t) && s2 == Advance(s1, t)
    requires Ready(s2, t) && s3 == Advance(s2, t) && Ready(s3, t) && s4 == Advance(s3, t)
    ensures Leads(s, [Event(t, Run), Event(t, Run), Event(t, Run), Event(t, Run)], s4)
  {
    hide Leads, Ready, Advance;
    var e := Event(t, Run);
    assert [e] + [] == [e] && [e] + [e] == [e, e] && [e] + [e, e] == [e, e, e] && [e] + [e, e, e] == [e, e, e, e];
    LeadsNowhere(s4);
    LeadsFirst(s3, t, [], s4);
    LeadsFirst(s2, t, [e], s4);
    LeadsFirst(s1, t, [e, e], s4);
    LeadsFirst(s, t, [e, e, e], s4);
  }

  lemma ReadyNow(s: State, ch: Chains, t: Tid)
    requires Inv(s, ch) && t < |s.threads| && s.threads[t].pc != IDLE && !Blocked(s, t)
    ensures Ready(s, t) && |ch| == NHASH && (Names(s.threads[t].pc) ==> s.threads[t].fp in s.heap)
  {
    NoFault(s, ch, t);
    Unfold(s, ch, t);
    hide Inv, Faults, ChainsOk, LocksOk, CountsOk, AloneOk, WalkOk;
  }

  // ---------- foo_alloc ----------

  lemma AllocLine(s: State, t: Tid)
    requires Ready(s, t) && s.threads[t].pc in {38, 39, 40, 41, 42, 44} && s.threads[t].fp in s.heap
    ensures var th, foo := s.threads[t], s.heap[s.threads[t].fp];
            Advance(s, t) ==
              if th.pc == 38 then SetThread(s, t, th.(pc := 39)).(hashlock := Held(t))
              else if th.pc == 39 then SetFoo(SetThread(s, t, th.(pc := 40)), th.fp, foo.(next := s.fh[Hash(foo.id)]))
              else if th.pc == 40 then
                SetThread(s, t, th.(pc := 41)).(fh := s.fh[Hash(foo.id) := th.fp],
                                               linkedAt := s.linkedAt[th.fp := s.clock], clock := s.clock + 1)
              else if th.pc == 41 then SetFoo(SetThread(s, t, th.(pc := 42)), th.fp, foo.(lock := Held(t)))
              else if th.pc == 42 then SetThread(s, t, th.(pc := 44)).(hashlock := Free)
              else SetFoo(SetThread(s, t, th.(pc := IDLE, own := th.own + multiset{th.fp})), th.fp, foo.(lock := Free))
  {
    hide Hash, Faults;
  }

  /** What foo_alloc leaves: the new object in front of its bucket with count one, and the caller has the reference. */
  function Allocated(s: State, t: Tid, id: int, p: Ptr): State
    requires t < |s.threads| && |s.fh| == NHASH
  {
    var th := s.threads[t].(fp := p, own := s.threads[t].own + multiset{p});
    SetFoo(SetThread(s, t, th), p, Foo(1, Free, id, s.fh[Hash(id)])).(
      fh := s.fh[Hash(id) := p], linkedAt := s.linkedAt[p := s.clock], clock := s.clock + 1)
  }

  /** The state after lines 38 to 40, and after lines 41 to 44. */
  function Published(s: State, t: Tid): State
    requires t < |s.threads| && |s.fh| == NHASH && s.threads[t].fp in s.heap
  {
    var th, p := s.threads[t], s.threads[t].fp;
    var b := Hash(s.heap[p].id);
    SetFoo(SetThread(s, t, th.(pc := 41)), p, s.heap[p].(next := s.fh[b])).(
      hashlock := Held(t), fh := s.fh[b := p], linkedAt := s.linkedAt[p := s.clock], clock := s.clock + 1)
  }

  function HandedOver(s: State, t: Tid): State
    requires t < |s.threads|
  {
    var th := s.threads[t];
    SetThread(s, t, th.(pc := IDLE, own := th.own + multiset{th.fp})).(hashlock := Free)
  }

  lemma LinkedShape(s: State, t: Tid)
    requires t < |s.threads| && |s.fh| == NHASH && s.hashlock == Free
    requires s.threads[t].fp in s.heap && s.heap[s.threads[t].fp].lock == Free
    ensures var s3, p := Published(s, t), s.threads[t].fp;
            && |s3.threads| == |s.threads| && s3.threads[t].pc == 41 && s3.threads[t].fp == p && s3.hashlock == Held(t)
            && p in s3.heap && s3.heap[p].lock == Free && HandedOver(s3, t) == Linked(s, t)
  {
    hide Hash;
  }

  lemma AllocSteps(s: State, ch: Chains, t: Tid) returns (s1: State, s2: State, s3: State)
    requires Inv(s, ch) && t < |s.threads| && s.threads[t].pc == 38 && s.hashlock == Free && s.threads[t].fp in s.heap
    ensures Ready(s, t) && s1 == Advance(s, t) && Ready(s1, t) && s2 == Advance(s1, t) && Ready(s2, t)
    ensures s3 == Advance(s2, t) && |ch| == NHASH && |s.fh| == NHASH
    ensures s3 == Published(s, t)
    ensures var p := s.threads[t].fp; var b := Hash(s.heap[p].id); Inv(s3, ch[b := [p] + ch[b]])
  {
    hide Inv, Ready, Advance, Faults, Hash, TableAfter, WriteStep;
    ReadyNow(s, ch, t);
    AllocLine(s, t);
    StepInv(s, ch, t);
    s1 := Advance(s, t);
    ReadyNow(s1, ch, t);
    AllocLine(s1, t);
    StepInv(s1, ch, t);
    s2 := Advance(s1, t);
    ReadyNow(s2, ch, t);
    AllocLine(s2, t);
    Kinds(s2, t);
    var ch' := KeepPublish(s2, ch, t);
    s3 := Advance(s2, t);
    SizedHeads(s, ch);
  }

  lemma SizedHeads(s: State, ch: Chains)
    requires Inv(s, ch)
    ensures |s.fh| == NHASH && |ch| == NHASH
  {
  }

  lemma AllocEnds(s: State, ch: Chains, t: Tid) returns (s1: State, s2: State, s3: State)
    requires Inv(s, ch) && t < |s.threads| && s.threads[t].pc == 41 && s.hashlock == Held(t)
    requires s.threads[t].fp in s.heap && s.heap[s.threads[t].fp].lock == Free
    ensures Ready(s, t) && s1 == Advance(s, t) && Ready(s1, t) && s2 == Advance(s1, t) && Ready(s2, t)
    ensures s3 == Advance(s2, t) && Inv(s3, ch) && s3 == HandedOver(s, t)
  {
    hide Inv, Ready, Advance, Faults, Hash;
    ReadyNow(s, ch, t);
    AllocLine(s, t);
    StepInv(s, ch, t);
    s1 := Advance(s, t);
    ReadyNow(s1, ch, t);
    AllocLine(s1, t);
    StepInv(s1, ch, t);
    s2 := Advance(s1, t);
    ReadyNow(s2, ch, t);
    AllocLine(s2, t);
    StepInv(s2, ch, t);
    s3 := Advance(s2, t);
    assert s3.heap == s.heap;
  }

  lemma ThreeSteps(s: State, s1: State, s2: State, s3: State, t: Tid)
    requires Ready(s, t) && s1 == Advance(s, t) && Ready(s1, t) && s2 == Advance(s1, t)
    requires Ready(s2, t) && s3 == Advance(s2, t)
    ensures Leads(s, [Event(t, Run), Event(t, Run), Event(t, Run)], s3)
  {
    hide Leads, Ready, Advance;
    var e := Event(t, Run);
    assert [e] + [] == [e] && [e] + [e] == [e, e] && [e] + [e, e] == [e, e, e];
    LeadsNowhere(s3);
    LeadsFirst(s2, t, [], s3);
    LeadsFirst(s1, t, [e], s3);
    LeadsFirst(s, t, [e, e], s3);
  }

  /** foo_alloc, called while no mutex is held and left alone, returns in six steps a new object with the id and one
      reference, in front of its bucket; nothing else is changed. */
  lemma AllocReturns(s: State, ch: Chains, t: Tid, id: int, p: Ptr) returns (schedule: seq<Event>)
    requires Inv(s, ch) && t < |s.threads| && CanCall(s, t, CallAlloc(id, p)) && NoLocks(s)
    ensures |ch| == NHASH && |s.fh| == NHASH
    ensures Leads(s, [Event(t, Make(CallAlloc(id, p)))] + schedule, Allocated(s, t, id, p))
    ensures OnlyRuns(schedule, t) && |schedule| == 6
    ensures Inv(Allocated(s, t, id, p), ch[Hash(id) := [p] + ch[Hash(id)]])
  {
    SizedHeads(s, ch);
    var s0 := Begin(s, t, CallAlloc(id, p));
    assert s.hashlock == Free;
    AllocBegins(s, t, id, p);
    hide *;
    KeepCallAlloc(s, ch, t, id, p);
    var s6;
    schedule, s6 := AllocAlone(s0, ch, t);
    AllocShape(s, t, id, p, s0, s6);
    LeadsCall(s, t, CallAlloc(id, p), schedule, s6);
  }

  lemma AllocBegins(s: State, t: Tid, id: int, p: Ptr)
    requires CanCall(s, t, CallAlloc(id, p)) && s.hashlock == Free
    ensures var s0 := Begin(s, t, CallAlloc(id, p));
            && s0 == SetFoo(SetThread(s, t, s.threads[t].(pc := 38, fp := p)), p, Foo(1, Free, id, NULL))
            && |s0.threads| == |s.threads| && s0.threads[t].pc == 38 && s0.threads[t].fp == p
            && s0.hashlock == Free && p in s0.heap && s0.heap[p].id == id && s0.heap[p].lock == Free && s0.fh == s.fh
  {
  }

  lemma AllocShape(s: State, t: Tid, id: int, p: Ptr, s0: State, s6: State)
    requires t < |s.threads| && |s.fh| == NHASH && s.hashlock == Free && s.threads[t].pc == IDLE
    requires s0 == SetFoo(SetThread(s, t, s.threads[t].(pc := 38, fp := p)), p, Foo(1, Free, id, NULL))
    requires s6 == Linked(s0, t)
    ensures s6 == Allocated(s, t, id, p)
  {
    hide Hash;
  }

  /** The state after foo_alloc, from its line 38. */
  function Linked(s: State, t: Tid): State
    requires t < |s.threads| && |s.fh| == NHASH && s.threads[t].fp in s.heap
  {
    var th, p := s.threads[t], s.threads[t].fp;
    var b := Hash(s.heap[p].id);
    SetFoo(SetThread(s, t, th.(pc := IDLE, own := th.own + multiset{p})), p, s.heap[p].(next := s.fh[b])).(
      fh := s.fh[b := p], linkedAt := s.linkedAt[p := s.clock], clock := s.clock + 1)
  }

  lemma AllocAlone(s: State, ch: Chains, t: Tid) returns (schedule: seq<Event>, s': State)
    requires Inv(s, ch) && t < |s.threads| && s.threads[t].pc == 38 && s.hashlock == Free
    requires s.threads[t].fp in s.heap && s.heap[s.threads[t].fp].lock == Free
    ensures |ch| == NHASH && |s.fh| == NHASH
    ensures Leads(s, schedule, s') && OnlyRuns(schedule, t) && |schedule| == 6 && s' == Linked(s, t)
    ensures var b := Hash(s.heap[s.threads[t].fp].id); Inv(s', ch[b := [s.threads[t].fp] + ch[b]])
  {
    SizedHeads(s, ch);
    var e, p := Event(t, Run), s.threads[t].fp;
    var b := Hash(s.heap[p].id);
    assert OnlyRuns([e, e, e], t);
    hide *;
    LinkedShape(s, t);
    var s1, s2, s3 := AllocSteps(s, ch, t);
    ThreeSteps(s, s1, s2, s3, t);
    var s4, s5, s6 := AllocEnds(s3, ch[b := [p] + ch[b]], t);
    ThreeSteps(s3, s4, s5, s6, t);
    LeadsOn(s, [e, e, e], s3, [e, e, e], s6);
    OnlyRunsOn([e, e, e], [e, e, e], t);
    schedule, s' := [e, e, e] + [e, e, e], s6;
  }

  // ---------- foo_rele ----------

  lemma ReleLine(s: State, t: Tid)
    requires Ready(s, t) && s.threads[t].fp in s.heap
    requires s.threads[t].pc in {74, 75, 76, 78, 79, 81, 98, 99, 101, 106}
    ensures var th, foo := s.threads[t], s.heap[s.threads[t].fp];
            Advance(s, t) ==
              if th.pc == 74 then SetFoo(SetThread(s, t, th.(pc := 75)), th.fp, foo.(lock := Held(t)))
              else if th.pc == 75 then
                SetFoo(SetThread(s, t, th.(pc := if foo.count == 1 then 76 else 106)), th.fp,
                       foo.(count := foo.count - 1))
              else if th.pc == 76 then SetFoo(SetThread(s, t, th.(pc := 78)), th.fp, foo.(lock := Free))
              else if th.pc == 78 then SetThread(s, t, th.(pc := 79)).(hashlock := Held(t))
              else if th.pc == 79 then SetFoo(SetThread(s, t, th.(pc := 81)), th.fp, foo.(lock := Held(t)))
              else if th.pc == 81 then SetThread(s, t, th.(pc := if foo.count != 0 then 82 else 88))
              else if th.pc == 98 then SetThread(s, t, th.(pc := 99)).(hashlock := Free)
              else if th.pc == 99 then SetFoo(SetThread(s, t, th.(pc := 101)), th.fp, foo.(lock := Free))
              else if th.pc == 101 then SetThread(s, t, th.(pc := IDLE)).(heap := s.heap - {th.fp})
              else SetFoo(SetThread(s, t, th.(pc := IDLE)), th.fp, foo.(lock := Free))
  {
    hide Hash, Faults;
    assert s.threads[t].own + multiset{} == s.threads[t].own;
  }

  lemma ReleStep(s: State, ch: Chains, t: Tid)
    requires Inv(s, ch) && t < |s.threads| && s.threads[t].pc in {74, 75, 76, 78, 79, 81, 98, 99, 101, 106}
    requires !Blocked(s, t)
    ensures s.threads[t].fp in s.heap && Ready(s, t) && Inv(Advance(s, t), ch)
  {
    ReadyNow(s, ch, t);
    hide Inv, Ready, Advance, Blocked;
    StepInv(s, ch, t);
  }

  /** One reference less. */
  function Dropped(s: State, t: Tid, p: Ptr): State
    requires t < |s.threads| && p in s.heap
  {
    SetFoo(SetThread(s, t, s.threads[t].(pc := IDLE, fp := p)), p, s.heap[p].(count := s.heap[p].count - 1))
  }

  /** A release that leaves references, from line 74. */
  lemma ReleShort(s: State, ch: Chains, t: Tid) returns (s1: State, s2: State, s3: State)
    requires Inv(s, ch) && t < |s.threads| && s.threads[t].pc == 74 && s.threads[t].fp in s.heap
    requires s.heap[s.threads[t].fp].lock == Free && s.heap[s.threads[t].fp].count != 1
    ensures Ready(s, t) && s1 == Advance(s, t) && Ready(s1, t) && s2 == Advance(s1, t) && Ready(s2, t)
    ensures s3 == Advance(s2, t) && Inv(s3, ch) && s3 == Dropped(s, t, s.threads[t].fp)
  {
    hide Inv, Ready, Advance, Faults;
    ReleStep(s, ch, t);
    ReleLine(s, t);
    s1 := Advance(s, t);
    ReleStep(s1, ch, t);
    ReleLine(s1, t);
    s2 := Advance(s1, t);
    ReleStep(s2, ch, t);
    ReleLine(s2, t);
    s3 := Advance(s2, t);
  }

  /** The last release: lines 74 to 76. */
  lemma ReleParks(s: State, ch: Chains, t: Tid) returns (s1: State, s2: State, s3: State)
    requires Inv(s, ch) && t < |s.threads| && s.threads[t].pc == 74 && s.threads[t].fp in s.heap
    requires s.heap[s.threads[t].fp].lock == Free && s.heap[s.threads[t].fp].count == 1
    ensures Ready(s, t) && s1 == Advance(s, t) && Ready(s1, t) && s2 == Advance(s1, t) && Ready(s2, t)
    ensures s3 == Advance(s2, t) && Inv(s3, ch)
    ensures var th := s.threads[t]; s3 == SetFoo(SetThread(s, t, th.(pc := 78)), th.fp, s.heap[th.fp].(count := 0))
  {
    hide Inv, Ready, Advance, Faults;
    ReleStep(s, ch, t);
    ReleLine(s, t);
    s1 := Advance(s, t);
    ReleStep(s1, ch, t);
    ReleLine(s1, t);
    s2 := Advance(s1, t);
    ReleStep(s2, ch, t);
    ReleLine(s2, t);
    s3 := Advance(s2, t);
  }

  /** Lines 78 to 81. */
  lemma ReleLocks(s: State, ch: Chains, t: Tid) returns (s1: State, s2: State, s3: State)
    requires Inv(s, ch) && t < |s.threads| && s.threads[t].pc == 78 && s.threads[t].fp in s.heap
    requires s.heap[s.threads[t].fp].lock == Free && s.heap[s.threads[t].fp].count == 0 && s.hashlock == Free
    ensures Ready(s, t) && s1 == Advance(s, t) && Ready(s1, t) && s2 == Advance(s1, t) && Ready(s2, t)
    ensures s3 == Advance(s2, t) && Inv(s3, ch)
    ensures var th := s.threads[t];
            s3 == SetFoo(SetThread(s, t, th.(pc := 88)), th.fp, s.heap[th.fp].(lock := Held(t))).(hashlock := Held(t))
  {
    hide Inv, Ready, Advance, Faults;
    ReleStep(s, ch, t);
    ReleLine(s, t);
    s1 := Advance(s, t);
    ReleStep(s1, ch, t);
    ReleLine(s1, t);
    s2 := Advance(s1, t);
    ReleStep(s2, ch, t);
    ReleLine(s2, t);
    s3 := Advance(s2, t);
  }

  /** Lines 98 to 101. */
  lemma ReleFrees(s: State, ch: Chains, t: Tid) returns (s1: State, s2: State, s3: State)
    requires Inv(s, ch) && t < |s.threads| && s.threads[t].pc == 98
    ensures Ready(s, t) && s1 == Advance(s, t) && Ready(s1, t) && s2 == Advance(s1, t) && Ready(s2, t)
    ensures s3 == Advance(s2, t) && Inv(s3, ch) && s.threads[t].fp in s.heap
    ensures var th := s.threads[t];
            s3 == SetThread(s, t, th.(pc := IDLE)).(heap := s.heap - {th.fp}, hashlock := Free)
  {
    hide Inv, Ready, Advance, Faults;
    ReleStep(s, ch, t);
    ReleLine(s, t);
    s1 := Advance(s, t);
    ReleStep(s1, ch, t);
    ReleLine(s1, t);
    s2 := Advance(s1, t);
    ReleStep(s2, ch, t);
    ReleLine(s2, t);
    s3 := Advance(s2, t);
  }

  /** From line 93 at place i of the bucket, foo_rele alone comes to line 95 at the place before fp. */
  lemma {:induction false} UnlinkWalks(s: State, ch: Chains, t: Tid, i: nat, m: nat)
    returns (schedule: seq<Event>, s': State)
    requires Inv(s, ch) && |ch| == NHASH && t < |s.threads| && s.threads[t].pc == 93 && s.threads[t].fp in s.heap
    requires var d := ch[Hash(s.heap[s.threads[t].fp].id)];
             i < m < |d| && d[i] == s.threads[t].tfp && d[m] == s.threads[t].fp
    ensures Leads(s, schedule, s') && OnlyRuns(schedule, t) && |schedule| == m - i && Inv(s', ch)
    ensures |s'.threads| == |s.threads|
    ensures s' == SetThread(s, t, s.threads[t].(pc := 95, tfp := s'.threads[t].tfp))
    decreases m - i
  {
    hide Inv, Leads, Ready, Advance, LocalStep, ChainsOk, Touches, Hash;
    LocalRuns(s, ch, t);
    UnlinkTurn(s, ch, s.threads[t], i, m);
    var s1 := Advance(s, t);
    if i + 1 == m {
      schedule, s' := [], s1;
      LeadsNowhere(s1);
    } else {
      schedule, s' := UnlinkWalks(s1, ch, t, i + 1, m);
    }
    LeadsFirst(s, t, schedule, s');
    schedule := [Event(t, Run)] + schedule;
  }

  /** Line 88. */
  lemma HeadTurn(s: State, ch: Chains, th: Thread, m: nat)
    requires ChainsOk(s, ch) && th.pc == 88 && th.fp in s.heap && Touches(th) <= s.heap.Keys
    requires m < |ch[Hash(s.heap[th.fp].id)]| && ch[Hash(s.heap[th.fp].id)][m] == th.fp
    ensures |s.fh| == NHASH
    ensures LocalStep(s, th) == if m == 0 then th.(pc := 91) else th.(pc := 93, tfp := ch[Hash(s.heap[th.fp].id)][0])
  {
    hide Hash, ChainsOk;
    Sizes(s, ch);
    var b := Hash(s.heap[th.fp].id);
    Bucket(s, ch, b);
    BucketOk(s, ch, b);
    Distinct(s, b, ch[b]);
  }

  /** Lines 88 to 95: nothing but locals has changed when the object is about to be bypassed. */
  lemma FindsPlace(s: State, ch: Chains, t: Tid, m: nat) returns (schedule: seq<Event>, s': State)
    requires Inv(s, ch) && |ch| == NHASH && t < |s.threads| && s.threads[t].pc == 88 && s.threads[t].fp in s.heap
    requires var d := ch[Hash(s.heap[s.threads[t].fp].id)]; m < |d| && d[m] == s.threads[t].fp
    ensures Leads(s, schedule, s') && OnlyRuns(schedule, t) && |schedule| == m + 1 && Inv(s', ch)
    ensures |s'.threads| == |s.threads| && (s'.threads[t].pc == 91 || s'.threads[t].pc == 95)
    ensures s' == SetThread(s, t, s.threads[t].(pc := s'.threads[t].pc, tfp := s'.threads[t].tfp))
  {
    hide Inv, Leads, Ready, Advance, LocalStep, ChainsOk, Touches, Hash;
    LocalRuns(s, ch, t);
    HeadTurn(s, ch, s.threads[t], m);
    var s1 := Advance(s, t);
    if m == 0 {
      schedule, s' := [], s1;
      LeadsNowhere(s1);
    } else {
      schedule, s' := UnlinkWalks(s1, ch, t, 0, m);
    }
    LeadsFirst(s, t, schedule, s');
    schedule := [Event(t, Run)] + schedule;
  }

  /** The same state, but for the links of objects and heads. */
  ghost predicate Relinked(s: State, s': State) {
    && s'.heap.Keys == s.heap.Keys && |s'.threads| == |s.threads|
    && (forall q :: q in s.heap ==> s'.heap[q] == s.heap[q].(next := s'.heap[q].next))
    && s'.hashlock == s.hashlock && s'.linkedAt == s.linkedAt && s'.clock == s.clock
  }

  lemma UnlinkShape(s: State, t: Tid)
    requires Ready(s, t) && Unlinking(s, t) && s.threads[t].fp in s.heap
    ensures Relinked(s, Advance(s, t)) && Advance(s, t).threads == s.threads[t := s.threads[t].(pc := 98)]
    ensures Advance(s, t) == WriteStep(s, t)
  {
    hide Hash;
  }

  /** The object's place in its bucket. */
  lemma PlaceOf(s: State, ch: Chains, p: Ptr) returns (m: nat)
    requires |ch| == NHASH && In(s, ch, p)
    ensures m < |ch[Hash(s.heap[p].id)]| && ch[Hash(s.heap[p].id)][m] == p
  {
    m :| m < |ch[Hash(s.heap[p].id)]| && ch[Hash(s.heap[p].id)][m] == p;
  }

  /** The chains without p. */
  ghost predicate Bypassed(s: State, ch: Chains, ch': Chains, p: Ptr) {
    && |ch| == NHASH && p in s.heap
    && exists k: nat :: k < |ch[Hash(s.heap[p].id)]| && ch[Hash(s.heap[p].id)][k] == p
         && ch' == ch[Hash(s.heap[p].id) := Without(ch[Hash(s.heap[p].id)], k)]
  }

  /** Lines 88 to 95: fp is unlinked, and nothing but links and locals has changed. */
  lemma ReleUnlinks(s: State, ch: Chains, t: Tid, m: nat) returns (schedule: seq<Event>, s': State, ch': Chains)
    requires Inv(s, ch) && |ch| == NHASH && t < |s.threads| && s.threads[t].pc == 88 && s.threads[t].fp in s.heap
    requires AloneOn(s, t)
    requires var d := ch[Hash(s.heap[s.threads[t].fp].id)]; m < |d| && d[m] == s.threads[t].fp
    ensures Leads(s, schedule, s') && OnlyRuns(schedule, t) && |schedule| == m + 2
    ensures Inv(s', ch') && Bypassed(s, ch, ch', s.threads[t].fp)
    ensures Relinked(s, s') && |s'.threads| == |s.threads|
    ensures s'.threads == s.threads[t := s.threads[t].(pc := 98, tfp := s'.threads[t].tfp)]
  {
    hide *;
    var s1;
    schedule, s1 := FindsPlace(s, ch, t, m);
    AloneCarries(s, s1, ch, t);
    ch' := UnlinkNow(s1, ch, t);
    s' := Advance(s1, t);
    Carries(s, s1, s', ch, ch', t);
    LeadsNext(s, schedule, s1, t);
    OneRun(schedule, t);
    schedule := schedule + [Event(t, Run)];
  }

  lemma AloneCarries(s: State, s1: State, ch: Chains, t: Tid)
    requires t < |s.threads| == |s1.threads| && AloneOn(s, t)
    requires s1 == SetThread(s, t, s.threads[t].(pc := s1.threads[t].pc, tfp := s1.threads[t].tfp))
    requires s1.threads[t].pc == 91 || s1.threads[t].pc == 95
    ensures AloneOn(s1, t) && Unlinking(s1, t) && s1.threads[t].fp == s.threads[t].fp
  {
  }

  /** The step at line 91 or 95. */
  lemma UnlinkNow(s: State, ch: Chains, t: Tid) returns (ch': Chains)
    requires Inv(s, ch) && Unlinking(s, t) && AloneOn(s, t)
    ensures Ready(s, t) && Inv(Advance(s, t), ch') && Bypassed(s, ch, ch', s.threads[t].fp)
    ensures Relinked(s, Advance(s, t)) && Advance(s, t).threads == s.threads[t := s.threads[t].(pc := 98)]
  {
    assert !Blocked(s, t) && s.threads[t].pc != IDLE && Names(s.threads[t].pc);
    hide Inv, Ready, Advance, Hash, Faults, AloneOn, Without, WriteStep, TableAfter, Blocked, Relinked;
    ReadyNow(s, ch, t);
    UnlinkShape(s, t);
    ch' := KeepUnlink(s, ch, t);
  }

  lemma Carries(s: State, s1: State, s': State, ch: Chains, ch': Chains, t: Tid)
    requires t < |s.threads| == |s1.threads| && Relinked(s1, s') && Bypassed(s1, ch, ch', s1.threads[t].fp)
    requires s1 == SetThread(s, t, s.threads[t].(pc := s1.threads[t].pc, tfp := s1.threads[t].tfp))
    requires s'.threads == s1.threads[t := s1.threads[t].(pc := 98)]
    ensures Relinked(s, s') && Bypassed(s, ch, ch', s.threads[t].fp) && |s'.threads| == |s.threads|
    ensures s'.threads == s.threads[t := s.threads[t].(pc := 98, tfp := s'.threads[t].tfp)]
  {
    hide Hash, Without;
  }

  lemma OneRun(schedule: seq<Event>, t: Tid)
    requires OnlyRuns(schedule, t)
    ensures OnlyRuns(schedule + [Event(t, Run)], t)
  {
  }

  /** The last reference is gone: the object is out of the table and freed, and nothing else has changed but links. */
  ghost predicate Freed(s: State, s': State, t: Tid, p: Ptr) {
    && t < |s.threads| == |s'.threads| && p in s.heap
    && s'.threads == s.threads[t := s.threads[t].(pc := IDLE, fp := p, tfp := s'.threads[t].tfp)]
    && s'.heap.Keys == s.heap.Keys - {p}
    && (forall q :: q in s'.heap ==> q in s.heap && s'.heap[q] == s.heap[q].(next := s'.heap[q].next))
    && s'.hashlock == Free && s'.linkedAt == s.linkedAt && s'.clock == s.clock
  }

  /** From line 74 with the last reference. */
  lemma ReleLast(s: State, ch: Chains, t: Tid) returns (schedule: seq<Event>, s': State, ch': Chains)
    requires Inv(s, ch) && t < |s.threads| && s.threads[t].pc == 74 && s.threads[t].fp in s.heap && NoLocks(s)
    requires s.heap[s.threads[t].fp].count == 1 && AloneOn(s, t)
    ensures |ch| == NHASH && Leads(s, schedule, s') && OnlyRuns(schedule, t)
    ensures |schedule| <= |ch[Hash(s.heap[s.threads[t].fp].id)]| + 10
    ensures Inv(s', ch') && Bypassed(s, ch, ch', s.threads[t].fp) && Freed(s, s', t, s.threads[t].fp)
  {
    var e, p := Event(t, Run), s.threads[t].fp;
    SizedHeads(s, ch);
    assert s.hashlock == Free && s.heap[p].lock == Free && OnlyRuns([e, e, e], t);
    Referenced(s, ch, t);
    var m := PlaceOf(s, ch, p);
    hide *;
    var s6 := ReleReaches(s, ch, t);
    var s7;
    schedule, s7, ch' := ReleUnlinks(s6, ch, t, m);
    UnlinkedThread(s6, s7, t);
    var s8, s9;
    s8, s9, s' := ReleFrees(s7, ch', t);
    ThreeSteps(s7, s8, s9, s', t);
    FreedShape(s, s6, s7, s', ch, ch', t);
    LeadsOn(s, [e, e, e] + [e, e, e], s6, schedule, s7);
    LeadsOn(s, [e, e, e] + [e, e, e] + schedule, s7, [e, e, e], s');
    OnlyRunsOn([e, e, e], [e, e, e], t);
    OnlyRunsOn([e, e, e] + [e, e, e], schedule, t);
    OnlyRunsOn([e, e, e] + [e, e, e] + schedule, [e, e, e], t);
    schedule := [e, e, e] + [e, e, e] + schedule + [e, e, e];
  }

  /** Lines 74 to 81, when the count reaches zero and stays there. */
  lemma ReleReaches(s: State, ch: Chains, t: Tid) returns (s6: State)
    requires Inv(s, ch) && t < |s.threads| && s.threads[t].pc == 74 && s.threads[t].fp in s.heap && s.hashlock == Free
    requires s.heap[s.threads[t].fp].lock == Free && s.heap[s.threads[t].fp].count == 1 && AloneOn(s, t)
    ensures Leads(s, [Event(t, Run), Event(t, Run), Event(t, Run)] + [Event(t, Run), Event(t, Run), Event(t, Run)], s6)
    ensures Inv(s6, ch) && |s6.threads| == |s.threads| && s6.threads == s.threads[t := s.threads[t].(pc := 88)]
    ensures s6.threads[t].pc == 88
    ensures var p := s.threads[t].fp;
            && s6.threads[t].fp == p && p in s6.heap && s6.heap[p].id == s.heap[p].id && AloneOn(s6, t)
            && s6.heap.Keys == s.heap.Keys && (forall q :: q in s.heap && q != p ==> s6.heap[q] == s.heap[q])
            && s6.linkedAt == s.linkedAt && s6.clock == s.clock
  {
    hide *;
    var e := Event(t, Run);
    var s1, s2, s3 := ReleParks(s, ch, t);
    ThreeSteps(s, s1, s2, s3, t);
    LastShape(s, s3, t);
    var s4, s5;
    s4, s5, s6 := ReleLocks(s3, ch, t);
    ThreeSteps(s3, s4, s5, s6, t);
    LockedShape(s, s3, s6, t);
    LeadsOn(s, [e, e, e], s3, [e, e, e], s6);
  }

  /** A releaser's object is in the table. */
  lemma Referenced(s: State, ch: Chains, t: Tid)
    requires Inv(s, ch) && t < |s.threads| && s.threads[t].pc == 74
    ensures |ch| == NHASH && In(s, ch, s.threads[t].fp)
  {
    Unfold(s, ch, t);
    hide Inv, ChainsOk, LocksOk, CountsOk, AloneOk, WalkOk;
  }

  lemma LastShape(s: State, s3: State, t: Tid)
    requires t < |s.threads| && s.threads[t].fp in s.heap && s.hashlock == Free && s.heap[s.threads[t].fp].lock == Free
    requires var th := s.threads[t]; s3 == SetFoo(SetThread(s, t, th.(pc := 78)), th.fp, s.heap[th.fp].(count := 0))
    ensures |s3.threads| == |s.threads| && s3.threads[t].pc == 78 && s3.threads[t].fp == s.threads[t].fp
    ensures s3.threads[t].fp in s3.heap && s3.hashlock == Free
    ensures s3.heap[s3.threads[t].fp].lock == Free && s3.heap[s3.threads[t].fp].count == 0
  {
  }

  lemma LockedShape(s: State, s3: State, s6: State, t: Tid)
    requires t < |s.threads| && s.threads[t].fp in s.heap && AloneOn(s, t)
    requires var th := s.threads[t]; s3 == SetFoo(SetThread(s, t, th.(pc := 78)), th.fp, s.heap[th.fp].(count := 0))
    requires |s3.threads| == |s.threads| && s3.threads[t].fp in s3.heap
    requires var th := s3.threads[t];
             s6 == SetFoo(SetThread(s3, t, th.(pc := 88)), th.fp, s3.heap[th.fp].(lock := Held(t))).(
                   hashlock := Held(t))
    ensures |s6.threads| == |s.threads| && s6.threads == s.threads[t := s.threads[t].(pc := 88)]
    ensures var p := s.threads[t].fp;
            && s6.threads[t].fp == p && p in s6.heap && s6.heap[p].id == s.heap[p].id && AloneOn(s6, t)
            && s6.heap.Keys == s.heap.Keys && (forall q :: q in s.heap && q != p ==> s6.heap[q] == s.heap[q])
            && s6.linkedAt == s.linkedAt && s6.clock == s.clock
  {
  }

  lemma UnlinkedThread(s6: State, s7: State, t: Tid)
    requires t < |s6.threads| == |s7.threads|
    requires s7.threads == s6.threads[t := s6.threads[t].(pc := 98, tfp := s7.threads[t].tfp)]
    ensures s7.threads[t].pc == 98
  {
  }

  lemma FreedShape(s: State, s6: State, s7: State, s': State, ch: Chains, ch': Chains, t: Tid)
    requires t < |s.threads| == |s6.threads| == |s7.threads| && s.threads[t].fp in s.heap
    requires s6.threads == s.threads[t := s.threads[t].(pc := 88)]
    requires var p := s.threads[t].fp;
             && p in s6.heap && s6.heap[p].id == s.heap[p].id
             && s6.heap.Keys == s.heap.Keys && (forall q :: q in s.heap && q != p ==> s6.heap[q] == s.heap[q])
             && s6.linkedAt == s.linkedAt && s6.clock == s.clock && Bypassed(s6, ch, ch', p)
    requires Relinked(s6, s7) && s7.threads == s6.threads[t := s6.threads[t].(pc := 98, tfp := s7.threads[t].tfp)]
    requires var th := s7.threads[t];
             s' == SetThread(s7, t, th.(pc := IDLE)).(heap := s7.heap - {th.fp}, hashlock := Free)
    ensures Freed(s, s', t, s.threads[t].fp) && Bypassed(s, ch, ch', s.threads[t].fp)
  {
    hide Hash, Without;
  }

  /** foo_rele, called while no mutex is held and left alone, returns.  If other references are left only the count has
      changed; if none is, and nobody else is about to release the object, exactly it has left its bucket and the heap.
      */
  lemma ReleReturns(s: State, ch: Chains, t: Tid, p: Ptr) returns (schedule: seq<Event>, s': State, ch': Chains)
    requires Inv(s, ch) && t < |s.threads| && CanCall(s, t, CallRele(p)) && NoLocks(s) && p in s.heap
    requires s.heap[p].count == 1 ==>
               forall u :: 0 <= u < |s.threads| && u != t && Parked(s.threads[u].pc) ==> s.threads[u].fp != p
    ensures |ch| == NHASH && OnlyRuns(schedule, t) && |schedule| <= |ch[Hash(s.heap[p].id)]| + 10
    ensures Leads(s, [Event(t, Make(CallRele(p)))] + schedule, s') && Inv(s', ch')
    ensures var s0 := SetThread(s, t, s.threads[t].(own := s.threads[t].own - multiset{p}));
            if s.heap[p].count != 1 then ch' == ch && s' == Dropped(s0, t, p)
            else Bypassed(s, ch, ch', p) && Freed(s0, s', t, p)
  {
    SizedHeads(s, ch);
    var s0 := Begin(s, t, CallRele(p));
    ReleBegins(s, t, p);
    hide *;
    KeepCallOther(s, ch, t, CallRele(p));
    schedule, s', ch' := ReleAlone(s0, ch, t);
    ReleShape(s, s0, s', ch, ch', t, p);
    LeadsCall(s, t, CallRele(p), schedule, s');
  }

  lemma ReleBegins(s: State, t: Tid, p: Ptr)
    requires CanCall(s, t, CallRele(p)) && NoLocks(s) && p in s.heap
    requires s.heap[p].count == 1 ==>
               forall u :: 0 <= u < |s.threads| && u != t && Parked(s.threads[u].pc) ==> s.threads[u].fp != p
    ensures var s0 := Begin(s, t, CallRele(p));
            && s0 == SetThread(s, t, s.threads[t].(pc := 74, fp := p, own := s.threads[t].own - multiset{p}))
            && |s0.threads| == |s.threads| && s0.threads[t].pc == 74 && s0.threads[t].fp == p && p in s0.heap
            && s0.heap == s.heap && NoLocks(s0) && (s0.heap[p].count == 1 ==> AloneOn(s0, t))
  {
  }

  lemma ReleShape(s: State, s0: State, s': State, ch: Chains, ch': Chains, t: Tid, p: Ptr)
    requires t < |s.threads| && s.threads[t].pc == IDLE && p in s.heap
    requires s0 == SetThread(s, t, s.threads[t].(pc := 74, fp := p, own := s.threads[t].own - multiset{p}))
    requires if s.heap[p].count != 1 then ch' == ch && s' == Dropped(s0, t, p)
             else Bypassed(s0, ch, ch', p) && Freed(s0, s', t, p)
    ensures var s1 := SetThread(s, t, s.threads[t].(own := s.threads[t].own - multiset{p}));
            if s.heap[p].count != 1 then ch' == ch && s' == Dropped(s1, t, p)
            else Bypassed(s, ch, ch', p) && Freed(s1, s', t, p)
  {
    hide Hash, Without;
  }

  /** From line 74. */
  lemma ReleAlone(s: State, ch: Chains, t: Tid) returns (schedule: seq<Event>, s': State, ch': Chains)
    requires Inv(s, ch) && t < |s.threads| && s.threads[t].pc == 74 && s.threads[t].fp in s.heap && NoLocks(s)
    requires s.heap[s.threads[t].fp].count == 1 ==> AloneOn(s, t)
    ensures |ch| == NHASH && OnlyRuns(schedule, t) && |schedule| <= |ch[Hash(s.heap[s.threads[t].fp].id)]| + 10
    ensures Leads(s, schedule, s') && Inv(s', ch')
    ensures var p := s.threads[t].fp;
            if s.heap[p].count != 1 then ch' == ch && s' == Dropped(s, t, p)
            else Bypassed(s, ch, ch', p) && Freed(s, s', t, p)
  {
    SizedHeads(s, ch);
    Unlocked(s, s.threads[t].fp);
    hide *;
    if s.heap[s.threads[t].fp].count == 1 {
      schedule, s', ch' := ReleLast(s, ch, t);
    } else {
      var s1, s2;
      s1, s2, s' := ReleShort(s, ch, t);
      ch' := ch;
      ThreeSteps(s, s1, s2, s', t);
      ThreeRuns(t);
      schedule := [Event(t, Run), Event(t, Run), Event(t, Run)];
    }
  }

  lemma ThreeRuns(t: Tid)
    ensures OnlyRuns([Event(t, Run), Event(t, Run), Event(t, Run)], t)
  {
  }

  lemma Unlocked(s: State, p: Ptr)
    requires NoLocks(s) && p in s.heap
    ensures s.heap[p].lock == Free
  {
  }
}
