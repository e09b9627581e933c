/** Why the table needs the hypothesis: two releasers parked on one object lead to a step that touches
    freed memory, and foo_rele lets that situation arise. */
module RefTableHypothesis {
  import opened Counting
  import opened RefTable
  import opened RefTableInvariant
  import opened RefTableSafety

  predicate Does(s: State, e: Event) {
    match e.a
    case Run => Ready(s, e.t)
    case Make(c) => CanCall(s, e.t, c)
  }

  function Outcome(s: State, e: Event): State
    requires Does(s, e)
  {
    match e.a
    case Run => Advance(s, e.t)
    case Make(c) => Begin(s, e.t, c)
  }

  /** The events of schedule, in that order, turn s into s'. */
  ghost predicate Leads(s: State, schedule: seq<Event>, s': State)
    decreases |schedule|
  {
    if schedule == [] then s == s'
    else Does(s, schedule[0]) && Leads(Outcome(s, schedule[0]), schedule[1..], s')
  }

  lemma LeadsNowhere(s: State)
    ensures Leads(s, [], s)
  {
  }

  lemma LeadsEvent(s: State, e: Event, schedule: seq<Event>, s': State)
    requires Does(s, e) && Leads(Outcome(s, e), schedule, s')
    ensures Leads(s, [e] + schedule, s')
  {
    hide Does, Outcome;
    assert ([e] + schedule)[1..] == schedule;
  }

  lemma LeadsFirst(s: State, t: Tid, schedule: seq<Event>, s': State)
    requires Ready(s, t) && Leads(Advance(s, t), schedule, s')
    ensures Leads(s, [Event(t, Run)] + schedule, s')
  {
    hide Ready, Advance, Leads;
    LeadsEvent(s, Event(t, Run), schedule, s');
  }

  /** t has unlinked fp and still holds both its locks; nobody else has moved. */
  ghost predicate Unlinked(s: State, t: Tid, s': State) {
    && t < |s.threads| == |s'.threads| && |s'.fh| == NHASH
    && s'.threads == s.threads[t := s'.threads[t]]
    && s'.threads[t].pc == 98 && s'.threads[t].fp == s.threads[t].fp
    && s'.hashlock == Held(t) && s'.threads[t].fp in s'.heap && s'.heap[s'.threads[t].fp].lock == Held(t)
  }

  lemma CanRun(s: State, ch: Chains, t: Tid)
    requires Inv(s, ch) && t < |s.threads| && 88 <= s.threads[t].pc <= 95
    ensures Ready(s, t) && s.hashlock == Held(t) && s.threads[t].fp in s.heap && s.heap[s.threads[t].fp].lock == Held(t)
  {
    hide Inv, Faults, CountsOk, AloneOk, WalkOk, RefsOk, ChainsOk;
    NoFault(s, ch, t);
    Unfold(s, ch, t);
    HeldByMe(s, t);
  }

  lemma WriteUnlinks(s: State, t: Tid)
    requires Ready(s, t) && (s.threads[t].pc == 91 || s.threads[t].pc == 95)
    requires s.hashlock == Held(t) && s.threads[t].fp in s.heap && s.heap[s.threads[t].fp].lock == Held(t)
    ensures Unlinked(s, t, Advance(s, t))
  {
  }

  /** In the chain of fp, fp is left positions after tfp. */
  ghost predicate Ahead(s: State, ch: Chains, th: Thread, left: nat) {
    |ch| == NHASH && th.fp in s.heap && var d := ch[Hash(s.heap[th.fp].id)];
    exists i :: 0 <= i && i + left < |d| && d[i] == th.tfp && d[i + left] == th.fp
  }

  /** Following one pointer at line 93. */
  lemma CloserLocal(s: State, ch: Chains, th: Thread, left: nat)
    requires ChainsOk(s, ch) && th.pc == 93 && left > 0 && Ahead(s, ch, th, left) && Touches(th) <= s.heap.Keys
    ensures |s.fh| == NHASH
    ensures LocalStep(s, th).fp == th.fp && LocalStep(s, th).pc == (if left == 1 then 95 else 93)
    ensures left > 1 ==> Ahead(s, ch, LocalStep(s, th), left - 1)
  {
    hide ChainsOk, Hash;
    Sizes(s, ch);
    var b := Hash(s.heap[th.fp].id);
    var d := ch[b];
    var i :| 0 <= i && i + left < |d| && d[i] == th.tfp && d[i + left] == th.fp;
    Element(s, ch, b, i);
    BucketOk(s, ch, b);
    Distinct(s, b, d);
    hide ChainOk, Threaded;
    assert s.heap[th.tfp].next == d[i + 1];
  }

  lemma OneCloser(s: State, ch: Chains, t: Tid, left: nat)
    requires Inv(s, ch) && Ready(s, t) && s.threads[t].pc == 93 && left > 0 && Ahead(s, ch, s.threads[t], left)
    ensures Inv(Advance(s, t), ch) && |Advance(s, t).threads| == |s.threads|
    ensures Advance(s, t).threads == s.threads[t := Advance(s, t).threads[t]]
    ensures Advance(s, t).threads[t].fp == s.threads[t].fp
            && Advance(s, t).threads[t].pc == (if left == 1 then 95 else 93)
    ensures left > 1 ==> Ahead(Advance(s, t), ch, Advance(s, t).threads[t], left - 1)
  {
    hide Inv, Hash;
    KeepLocal(s, ch, t);
    Unfold(s, ch, t);
    CloserLocal(s, ch, s.threads[t], left);
    hide ChainsOk, LocksOk, CountsOk, AloneOk, WalkOk, RefsOk, LocalStep, Faults;
  }

  /** From line 93 the releaser alone reaches line 98: the unlink walk ends at fp. */
  lemma {:induction false} WalkRuns(s: State, ch: Chains, t: Tid, left: nat) returns (schedule: seq<Event>, s': State)
    requires Inv(s, ch) && t < |s.threads|
    requires s.threads[t].pc == 95 || (s.threads[t].pc == 93 && left > 0 && Ahead(s, ch, s.threads[t], left))
    ensures Leads(s, schedule, s') && Unlinked(s, t, s')
    decreases 95 - s.threads[t].pc, left
  {
    hide Inv, Ready, Advance, Ahead, Leads;
    CanRun(s, ch, t);
    var s1 := Advance(s, t);
    if s.threads[t].pc == 95 {
      WriteUnlinks(s, t);
      schedule, s' := [], s1;
      LeadsNowhere(s1);
    } else {
      OneCloser(s, ch, t, left);
      schedule, s' := WalkRuns(s1, ch, t, left - 1);
    }
    LeadsFirst(s, t, schedule, s');
    schedule := [Event(t, Run)] + schedule;
  }

  lemma TakesTable(s: State, t: Tid)
    requires t < |s.threads| && s.threads[t].pc == 78 && s.hashlock == Free && |s.fh| == NHASH && !Faults(s, t)
    ensures Ready(s, t) && Advance(s, t) == TakeTable(s, t)
            == SetThread(s, t, s.threads[t].(pc := 79)).(hashlock := Held(t))
  {
    hide Faults;
  }

  lemma TakesObj(s: State, t: Tid)
    requires t < |s.threads| && s.threads[t].pc == 79 && |s.fh| == NHASH && !Faults(s, t)
    requires s.threads[t].fp in s.heap && s.heap[s.threads[t].fp].lock == Free
    ensures Ready(s, t) && Advance(s, t) == TakeObj(s, t)
            == SetFoo(SetThread(s, t, s.threads[t].(pc := 81)), s.threads[t].fp,
                s.heap[s.threads[t].fp].(lock := Held(t)))
  {
    hide Faults;
  }

  lemma AtParkTable(s: State, ch: Chains, t: Tid)
    requires Inv(s, ch) && t < |s.threads| && s.threads[t].pc == 78 && s.hashlock == Free
    ensures Ready(s, t) && Inv(Advance(s, t), ch)
    ensures Advance(s, t) == SetThread(s, t, s.threads[t].(pc := 79)).(hashlock := Held(t))
  {
    hide Inv, Faults, Ready, Advance, ChainsOk, LocksOk, CountsOk, AloneOk, RefsOk, WalkOk;
    NoFault(s, ch, t);
    Unfold(s, ch, t);
    TakesTable(s, t);
    KeepTakeTable(s, ch, t);
    hide TakeTable, TableAfter;
  }

  lemma AtParkObj(s: State, ch: Chains, t: Tid)
    requires Inv(s, ch) && t < |s.threads| && s.threads[t].pc == 79 && s.threads[t].fp in s.heap
    requires s.heap[s.threads[t].fp].lock == Free
    ensures Ready(s, t) && Inv(Advance(s, t), ch)
    ensures Advance(s, t) == SetFoo(SetThread(s, t, s.threads[t].(pc := 81)), s.threads[t].fp,
            s.heap[s.threads[t].fp].(lock := Held(t)))
  {
    hide Inv, Faults, Ready, Advance, ChainsOk, LocksOk, CountsOk, AloneOk, RefsOk, WalkOk;
    NoFault(s, ch, t);
    Unfold(s, ch, t);
    TakesObj(s, t);
    KeepTakeObj(s, ch, t);
    hide TakeObj, TableAfter;
  }

  /** A parked releaser that finds the count still zero unlinks fp without help from anyone. */
  lemma ParkedUnlinks(s: State, ch: Chains, t: Tid) returns (schedule: seq<Event>, s': State)
    requires Inv(s, ch) && t < |s.threads| && s.threads[t].pc == 78 && s.hashlock == Free
    requires s.threads[t].fp in s.heap && s.heap[s.threads[t].fp].lock == Free && s.heap[s.threads[t].fp].count == 0
    ensures Leads(s, schedule, s') && Unlinked(s, t, s')
  {
    hide Inv, Leads, Advance, Ready;
    AtParkTable(s, ch, t);
    var s1 := Advance(s, t);
    AtParkObj(s1, ch, t);
    var s2 := Advance(s1, t);
    schedule, s' := LockedUnlinks(s2, ch, t);
    LeadsFirst(s1, t, schedule, s');
    LeadsFirst(s, t, [Event(t, Run)] + schedule, s');
    schedule := [Event(t, Run)] + ([Event(t, Run)] + schedule);
  }

  /** Following a pointer or testing the count: only the locals of t change. */
  lemma LocalMoves(s: State, ch: Chains, t: Tid)
    requires Inv(s, ch) && t < |s.threads| && (s.threads[t].pc == 81 || s.threads[t].pc == 88)
    ensures Ready(s, t) && Inv(Advance(s, t), ch) && |Advance(s, t).threads| == |s.threads|
    ensures Advance(s, t).heap == s.heap && Advance(s, t).threads == s.threads[t := Advance(s, t).threads[t]]
    ensures var th, th' := s.threads[t], Advance(s, t).threads[t];
            && th'.fp == th.fp && th.fp in s.heap
            && if th.pc == 81 then th'.pc == (if s.heap[th.fp].count != 0 then 82 else 88)
               else th'.pc == 91 || th'.pc == 93
  {
    hide Inv, Faults, ChainsOk, LocksOk, CountsOk, AloneOk, RefsOk, WalkOk;
    NoFault(s, ch, t);
    Unfold(s, ch, t);
    LocalShape(s, t);
    hide Advance, Ready, LocalStep;
    KeepLocal(s, ch, t);
    hide TableAfter;
  }

  lemma LocalShape(s: State, t: Tid)
    requires t < |s.threads| && (s.threads[t].pc == 81 || s.threads[t].pc == 88) && !Faults(s, t) && |s.fh| == NHASH
    ensures Ready(s, t) && Touches(s.threads[t]) <= s.heap.Keys && OnlyLocal(s.threads[t].pc)
    ensures Advance(s, t) == SetThread(s, t, LocalStep(s, s.threads[t])) && s.threads[t].fp in s.heap
    ensures var th, th' := s.threads[t], LocalStep(s, s.threads[t]);
            && th'.fp == th.fp
            && if th.pc == 81 then th'.pc == (if s.heap[th.fp].count != 0 then 82 else 88)
               else th'.pc == 91 || th'.pc == 93
  {
    hide Hash;
  }

  lemma LockedUnlinks(s: State, ch: Chains, t: Tid) returns (schedule: seq<Event>, s': State)
    requires Inv(s, ch) && t < |s.threads| && s.threads[t].pc == 81
    requires s.threads[t].fp in s.heap && s.heap[s.threads[t].fp].count == 0
    ensures Leads(s, schedule, s') && Unlinked(s, t, s')
  {
    hide Inv, Leads, Faults, Advance, Ready;
    LocalMoves(s, ch, t);
    var s1 := Advance(s, t);
    LocalMoves(s1, ch, t);
    var s2 := Advance(s1, t);
    schedule, s' := PlacedUnlinks(s2, ch, t);
    LeadsFirst(s1, t, schedule, s');
    LeadsFirst(s, t, [Event(t, Run)] + schedule, s');
    schedule := [Event(t, Run)] + ([Event(t, Run)] + schedule);
  }

  lemma HowFar(s: State, ch: Chains, th: Thread) returns (left: nat)
    requires |ch| == NHASH && |s.fh| == NHASH && th.pc == 93 && WalkOk(s, ch, th) && th.fp in s.heap
    ensures left > 0 && Ahead(s, ch, th, left)
  {
    hide Hash;
    var d := ch[Hash(s.heap[th.fp].id)];
    var i, j :| 0 <= i < j < |d| && d[i] == th.tfp && d[j] == th.fp;
    left := j - i;
    assert d[i + left] == th.fp;
  }

  lemma PlacedUnlinks(s: State, ch: Chains, t: Tid) returns (schedule: seq<Event>, s': State)
    requires Inv(s, ch) && t < |s.threads| && (s.threads[t].pc == 91 || s.threads[t].pc == 93)
    ensures Leads(s, schedule, s') && Unlinked(s, t, s')
  {
    CanRun(s, ch, t);
    if s.threads[t].pc == 91 {
      hide Inv, Leads;
      WriteUnlinks(s, t);
      LeadsNowhere(Advance(s, t));
      LeadsFirst(s, t, [], Advance(s, t));
      schedule, s' := [Event(t, Run)], Advance(s, t);
    } else {
      hide *;
      Unfold(s, ch, t);
      var left := HowFar(s, ch, s.threads[t]);
      schedule, s' := WalkRuns(s, ch, t, left);
    }
  }

  function FreeEvents(t: Tid, u: Tid): seq<Event> {
    [Event(t, Run), Event(t, Run), Event(t, Run), Event(u, Run)]
  }

  lemma LastSteps(s: State, t: Tid, u: Tid) returns (s1: State, s2: State, s3: State)
    requires t < |s.threads| && u < |s.threads| && t != u && |s.fh| == NHASH
    requires s.threads[t].pc == 98 && s.hashlock == Held(t)
    requires s.threads[t].fp in s.heap && s.heap[s.threads[t].fp].lock == Held(t)
    ensures Ready(s, t) && s1 == Advance(s, t) && Ready(s1, t) && s2 == Advance(s1, t) && Ready(s2, t)
    ensures s3 == Advance(s2, t)
    ensures |s3.threads| == |s.threads| && s3.threads[u] == s.threads[u] && |s3.fh| == NHASH
    ensures s1.hashlock == Free && s2.hashlock == Free && s3.hashlock == Free && s.threads[t].fp !in s3.heap
  {
    s1 := Advance(s, t);
    assert s1 == SetThread(s, t, s.threads[t].(pc := 99)).(hashlock := Free);
    s2 := Advance(s1, t);
    s3 := Advance(s2, t);
  }

  /** t frees fp, and the other releaser u then locks hashlock and is about to lock the freed f_lock. */
  lemma FreedUnderFoot(s: State, t: Tid, u: Tid) returns (s': State)
    requires t < |s.threads| && u < |s.threads| && t != u && |s.fh| == NHASH
    requires s.threads[t].pc == 98 && s.hashlock == Held(t)
    requires s.threads[t].fp in s.heap && s.heap[s.threads[t].fp].lock == Held(t)
    requires s.threads[u].pc == 78 && s.threads[u].fp == s.threads[t].fp
    ensures Leads(s, FreeEvents(t, u), s') && u < |s'.threads| && Faults(s', u) && s'.threads[u].fp !in s'.heap
  {
    var s1, s2, s3 := LastSteps(s, t, u);
    s' := Advance(s3, u);
    hide Advance, Ready, Faults, Leads;
    LeadsNowhere(s');
    LeadsFirst(s3, u, [], s');
    LeadsFirst(s2, t, [Event(u, Run)], s');
    LeadsFirst(s1, t, [Event(t, Run), Event(u, Run)], s');
    LeadsFirst(s, t, [Event(t, Run), Event(t, Run), Event(u, Run)], s');
  }

  lemma {:induction false} LeadsOn(s: State, a: seq<Event>, s': State, b: seq<Event>, s'': State)
    requires Leads(s, a, s') && Leads(s', b, s'')
    ensures Leads(s, a + b, s'')
    decreases |a|
  {
    hide Does, Outcome;
    if a == [] {
      assert a + b == b;
    } else {
      LeadsOn(Outcome(s, a[0]), a[1..], s', b, s'');
      assert (a + b)[1..] == a[1..] + b;
    }
  }

  // ---------- the condition is exact ----------

  /** t unlinks and frees its object, and then u takes one step. */
  function UnlinkEvents(t: Tid, u: Tid): seq<Event> {
    [Event(t, Run)] + FreeEvents(t, u)
  }

  /** A parked releaser other than the one that is about to unlink is at line 78: the other holds both mutexes. */
  lemma ParkedWaits(s: State, ch: Chains, t: Tid, u: Tid)
    requires Inv(s, ch) && LinesOk(s) && Unlinking(s, t) && u < |s.threads| && u != t
    requires Parked(s.threads[u].pc) && s.threads[u].fp == s.threads[t].fp
    ensures s.threads[u].pc == 78
  {
    CanRun(s, ch, t);
    hide Inv, Faults, Ready, CountsOk, AloneOk, WalkOk, RefsOk, ChainsOk;
    Unfold(s, ch, u);
    assert !HoldsTable(s.threads[u].pc) && !HoldsObj(s.threads[u].pc);
    hide LocksOk;
    assert IsLine(s.threads[u].pc);
  }

  /** From every state in which another releaser is parked on an object about to be unlinked, whatever its count and
      whoever holds which mutex, five steps of the two make that releaser touch the freed object. */
  lemma BusyUnlinkFaults(s: State, ch: Chains, t: Tid, u: Tid) returns (s': State)
    requires Inv(s, ch) && LinesOk(s) && Unlinking(s, t) && u < |s.threads| && u != t
    requires Parked(s.threads[u].pc) && s.threads[u].fp == s.threads[t].fp
    ensures Leads(s, UnlinkEvents(t, u), s') && u < |s'.threads| && Faults(s', u)
  {
    ParkedWaits(s, ch, t, u);
    CanRun(s, ch, t);
    hide Inv, LinesOk, Leads, Faults, Parked;
    WriteUnlinks(s, t);
    var s1 := Advance(s, t);
    hide Advance, Ready;
    s' := FreedUnderFoot(s1, t, u);
    LeadsFirst(s, t, FreeEvents(t, u), s');
  }

  /** While nobody, or someone else, has hashlock for another purpose, no object is about to be unlinked. */
  lemma NobodyUnlinks(s: State)
    requires LocksOk(s)
    requires s.hashlock.Held? ==> s.hashlock.holder < |s.threads| && !Unlinking(s, s.hashlock.holder)
    ensures UnlinkAlone(s)
  {
  }

  lemma Stepped(s: State, ch: Chains, t: Tid) returns (ch': Chains)
    requires Inv(s, ch) && UnlinkAlone(s) && Ready(s, t)
    ensures Inv(Advance(s, t), ch') && LocksOk(Advance(s, t))
  {
    hide Inv, UnlinkAlone, Advance, Ready;
    ch' := StepKeepsInv(s, ch, Event(t, Run), Advance(s, t));
    hide TableAfter;
    HasLocks(Advance(s, t), ch');
  }

  lemma HasLocks(s: State, ch: Chains)
    requires Inv(s, ch)
    ensures LocksOk(s)
  {
  }

  lemma LeadsStep(s: State, t: Tid, rest: seq<Event>, s': State)
    requires Leads(s, [Event(t, Run)] + rest, s')
    ensures Ready(s, t) && Leads(Advance(s, t), rest, s')
  {
    assert ([Event(t, Run)] + rest)[1..] == rest;
    hide Ready, Advance;
  }

  /** When nobody else is parked on the object, unlinking and freeing it harms no other thread's next step. */
  lemma LoneUnlinkHarmless(s: State, ch: Chains, t: Tid, u: Tid, s': State)
    requires Inv(s, ch) && UnlinkAlone(s) && Unlinking(s, t) && u < |s.threads| && u != t
    requires Leads(s, UnlinkEvents(t, u), s')
    ensures u < |s'.threads| && !Faults(s', u)
  {
    CanRun(s, ch, t);
    hide Inv, UnlinkAlone, LocksOk, Leads, Faults;
    WriteUnlinks(s, t);
    hide Advance, Ready;
    LeadsStep(s, t, FreeEvents(t, u), s');
    var ch1 := Stepped(s, ch, t);
    FreeingHarmless(Advance(s, t), ch1, t, u, s');
  }

  lemma FreeingHarmless(s: State, ch: Chains, t: Tid, u: Tid, s': State)
    requires Inv(s, ch) && t < |s.threads| && u < |s.threads| && t != u && |s.fh| == NHASH
    requires s.threads[t].pc == 98 && s.hashlock == Held(t)
    requires s.threads[t].fp in s.heap && s.heap[s.threads[t].fp].lock == Held(t)
    requires Leads(s, FreeEvents(t, u), s')
    ensures u < |s'.threads| && !Faults(s', u)
  {
    hide Inv, UnlinkAlone, LocksOk, Leads, Faults, Advance, Ready;
    HasLocks(s, ch);
    NobodyUnlinks(s);
    var s2, s3, s4 := LastSteps(s, t, u);
    assert FreeEvents(t, u) == [Event(t, Run)] + [Event(t, Run), Event(t, Run), Event(u, Run)];
    LeadsStep(s, t, [Event(t, Run), Event(t, Run), Event(u, Run)], s');
    var ch2 := Stepped(s, ch, t);
    NobodyUnlinks(s2);
    assert [Event(t, Run), Event(t, Run), Event(u, Run)] == [Event(t, Run)] + [Event(t, Run), Event(u, Run)];
    LeadsStep(s2, t, [Event(t, Run), Event(u, Run)], s');
    var ch3 := Stepped(s2, ch2, t);
    NobodyUnlinks(s3);
    assert [Event(t, Run), Event(u, Run)] == [Event(t, Run)] + [Event(u, Run)];
    LeadsStep(s3, t, [Event(u, Run)], s');
    var ch4 := Stepped(s3, ch3, t);
    NobodyUnlinks(s4);
    LastHarmless(s4, ch4, u, s');
  }

  lemma LastHarmless(s: State, ch: Chains, u: Tid, s': State)
    requires Inv(s, ch) && UnlinkAlone(s) && u < |s.threads| && Leads(s, [Event(u, Run)], s')
    ensures u < |s'.threads| && !Faults(s', u)
  {
    hide Inv, UnlinkAlone, Leads, Faults, Advance, Ready;
    assert [Event(u, Run)] == [Event(u, Run)] + [];
    LeadsStep(s, u, [], s');
    var ch' := Stepped(s, ch, u);
    LeadsStill(Advance(s, u), s');
    OnlyMine(s, Event(u, Run), s');
    NoFault(s', ch', u);
  }

  lemma LeadsStill(s: State, s': State)
    requires Leads(s, [], s')
    ensures s' == s
  {
  }

  /** Some other thread's step can be made to fault by letting one thread finish unlinking and freeing. */
  ghost predicate Impends(s: State) {
    exists t, u, s' :: Unlinking(s, t) && 0 <= u < |s.threads| && u != t && Leads(s, UnlinkEvents(t, u), s')
                       && u < |s'.threads| && Faults(s', u)
  }

  lemma UnlinkAloneExact(s: State, ch: Chains)
    requires Inv(s, ch) && LinesOk(s)
    ensures UnlinkAlone(s) <==> !Impends(s)
  {
    hide Inv, LinesOk, Leads, Faults, Parked;
    if UnlinkAlone(s) {
      forall t, u, s' | Unlinking(s, t) && 0 <= u < |s.threads| && u != t && Leads(s, UnlinkEvents(t, u), s')
                        && u < |s'.threads|
        ensures !Faults(s', u)
      {
        LoneUnlinkHarmless(s, ch, t, u, s');
      }
    } else {
      var t: Tid :| t < |s.threads| && Unlinking(s, t) && !AloneOn(s, t);
      var u: Tid :| u < |s.threads| && u != t && Parked(s.threads[u].pc) && s.threads[u].fp == s.threads[t].fp;
      var s' := BusyUnlinkFaults(s, ch, t, u);
    }
  }

  /** A run of any calls by any threads is safe, and five steps away from any fault of this kind, exactly if in none of
      its states another releaser is parked on an object about to be unlinked. */
  lemma RunSafeExactly(states: seq<State>, events: seq<Event>)
    requires IsRun(states, events) && Init(states[0])
    ensures (forall i :: 0 <= i < |states| ==> UnlinkAlone(states[i])) <==>
            (forall i :: 0 <= i < |states| ==> NothingFaults(states[i]) && !Impends(states[i]))
  {
    FirstBad(states, events, |states|);
    hide IsRun, Init, UnlinkAlone, Impends, Faults;
    if forall i :: 0 <= i < |states| ==> UnlinkAlone(states[i]) {
      RunIsSafe(states, events);
    }
  }

  ghost predicate NothingFaults(s: State) {
    forall t :: 0 <= t < |s.threads| ==> !Faults(s, t)
  }

  /** Up to its first state that violates the condition a run is good, so there the fault impends. */
  lemma {:induction false} FirstBad(states: seq<State>, events: seq<Event>, n: nat)
    requires IsRun(states, events) && Init(states[0]) && n <= |states|
    ensures (forall i :: 0 <= i < n ==> UnlinkAlone(states[i])) <==> (forall i :: 0 <= i < n ==> !Impends(states[i]))
  {
    if n > 0 {
      FirstBad(states, events, n - 1);
      if forall i :: 0 <= i < n - 1 ==> UnlinkAlone(states[i]) {
        hide UnlinkAlone, Impends;
        GoodExact(states, events, n - 1);
      }
    }
  }

  lemma GoodExact(states: seq<State>, events: seq<Event>, n: nat)
    requires IsRun(states, events) && Init(states[0]) && n < |states|
    requires forall i :: 0 <= i < n ==> UnlinkAlone(states[i])
    ensures UnlinkAlone(states[n]) <==> !Impends(states[n])
  {
    hide UnlinkAlone, Impends, Init;
    RunStaysGood(states[..n + 1], events[..n], n);
    var ch :| Inv(states[n], ch) && NoLeak(states[n], ch);
    hide Inv, NoLeak;
    UnlinkAloneExact(states[n], ch);
  }

  /** In particular the hypothesis of one parked releaser cannot be dropped: from every state that satisfies the
      invariant and in which two releasers of one object are parked at line 78, its count still zero and both mutexes
      free, the machine can run into a step that touches the freed object. */
  lemma TwoParkedFault(s: State, ch: Chains, t: Tid, u: Tid) returns (schedule: seq<Event>, s': State)
    requires Inv(s, ch) && t < |s.threads| && u < |s.threads| && t != u && s.hashlock == Free
    requires s.threads[t].pc == 78 && s.threads[u].pc == 78 && s.threads[t].fp == s.threads[u].fp
    requires s.threads[t].fp in s.heap && s.heap[s.threads[t].fp].lock == Free && s.heap[s.threads[t].fp].count == 0
    ensures Leads(s, schedule, s') && u < |s'.threads| && Faults(s', u)
  {
    hide Inv, Leads, Faults;
    var first, middle := ParkedUnlinks(s, ch, t);
    s' := FreedUnderFoot(middle, t, u);
    LeadsOn(s, first, middle, FreeEvents(t, u), s');
    schedule := first + FreeEvents(t, u);
  }

  // ---------- two parked releasers do arise ----------

  /** Two threads and one object of the given id at address 1, linked or still private. */
  function Scene(id: int, count: int, lock: Owner, linked: bool, hashlock: Owner, th0: Thread, th1: Thread): State {
    var zeros := seq(NHASH, _ => NULL);
    State(map[1 := Foo(count, lock, id, NULL)], if linked then zeros[Hash(id) := 1] else zeros, hashlock, [th0, th1],
          if linked then map[1 := 0] else map[], if linked then 1 else 0)
  }

  function Start(): State {
    State(map[], seq(NHASH, _ => NULL), Free, [NEW_THREAD, NEW_THREAD], map[], 0)
  }

  /** Thread 0 and thread 1 at a line that is about the object. */
  function A(pc: nat): Thread {
    Thread(pc, 0, 1, NULL, multiset{})
  }

  function B(id: int, pc: nat): Thread {
    Thread(pc, id, 1, NULL, multiset{})
  }

  const LAST: nat := 23

  /** Thread 0 allocates the object (1-7), and gives its only reference to foo_rele, where the count reaches zero
      (8-11). Thread 1 finds the object, which is still linked (12-19), and releases it too (20-23). */
  function Moment(id: int, k: nat): State {
    if k == 0 then Start()
    else if k == 1 then Scene(id, 1, Free, false, Free, A(38), NEW_THREAD)
    else if k == 2 then Scene(id, 1, Free, false, Held(0), A(39), NEW_THREAD)
    else if k == 3 then Scene(id, 1, Free, false, Held(0), A(40), NEW_THREAD)
    else if k == 4 then Scene(id, 1, Free, true, Held(0), A(41), NEW_THREAD)
    else if k == 5 then Scene(id, 1, Held(0), true, Held(0), A(42), NEW_THREAD)
    else if k == 6 then Scene(id, 1, Held(0), true, Free, A(44), NEW_THREAD)
    else if k == 7 then Scene(id, 1, Free, true, Free, A(IDLE).(own := multiset{1}), NEW_THREAD)
    else if k == 8 then Scene(id, 1, Free, true, Free, A(74), NEW_THREAD)
    else if k == 9 then Scene(id, 1, Held(0), true, Free, A(75), NEW_THREAD)
    else if k == 10 then Scene(id, 0, Held(0), true, Free, A(76), NEW_THREAD)
    else if k == 11 then Scene(id, 0, Free, true, Free, A(78), NEW_THREAD)
    else if k == 12 then Scene(id, 0, Free, true, Free, A(78), B(id, 54).(fp := NULL))
    else if k == 13 then Scene(id, 0, Free, true, Held(1), A(78), B(id, 55).(fp := NULL))
    else if k == 14 then Scene(id, 0, Free, true, Held(1), A(78), B(id, 56))
    else if k == 15 then Scene(id, 0, Free, true, Held(1), A(78), B(id, 57))
    else if k == 16 then Scene(id, 0, Held(1), true, Held(1), A(78), B(id, 58))
    else if k == 17 then Scene(id, 1, Held(1), true, Held(1), A(78), B(id, 60))
    else if k == 18 then Scene(id, 1, Held(1), true, Free, A(78), B(id, 61))
    else if k == 19 then Scene(id, 1, Free, true, Free, A(78), B(id, IDLE).(own := multiset{1}))
    else if k == 20 then Scene(id, 1, Free, true, Free, A(78), B(id, 74))
    else if k == 21 then Scene(id, 1, Held(1), true, Free, A(78), B(id, 75))
    else if k == 22 then Scene(id, 0, Held(1), true, Free, A(78), B(id, 76))
    else Scene(id, 0, Free, true, Free, A(78), B(id, 78))
  }

  function Deed(id: int, k: nat): Event {
    if k == 0 then Event(0, Make(CallAlloc(id, 1)))
    else if k == 7 then Event(0, Make(CallRele(1)))
    else if k == 11 then Event(1, Make(CallFind(id)))
    else if k == 19 then Event(1, Make(CallRele(1)))
    else Event(if k < 11 then 0 else 1, Run)
  }

  lemma Deed0(id: int, k: nat)
    requires 0 <= k < 3
    ensures Does(Moment(id, k), Deed(id, k)) && Outcome(Moment(id, k), Deed(id, k)) == Moment(id, k + 1)
  {
    hide Hash;
    assert NONE + multiset{1} == multiset{1} && multiset{1} - multiset{1} == NONE && NONE + NONE == NONE;
  }

  lemma Deed3(id: int, k: nat)
    requires 3 <= k < 6
    ensures Does(Moment(id, k), Deed(id, k)) && Outcome(Moment(id, k), Deed(id, k)) == Moment(id, k + 1)
  {
    hide Hash;
    assert NONE + multiset{1} == multiset{1} && multiset{1} - multiset{1} == NONE && NONE + NONE == NONE;
  }

  lemma Deed6(id: int, k: nat)
    requires 6 <= k < 8
    ensures Does(Moment(id, k), Deed(id, k)) && Outcome(Moment(id, k), Deed(id, k)) == Moment(id, k + 1)
  {
    hide Hash;
    assert NONE + multiset{1} == multiset{1} && multiset{1} - multiset{1} == NONE && NONE + NONE == NONE;
  }

  lemma Deed8(id: int, k: nat)
    requires 8 <= k < 10
    ensures Does(Moment(id, k), Deed(id, k)) && Outcome(Moment(id, k), Deed(id, k)) == Moment(id, k + 1)
  {
    hide Hash;
    assert NONE + multiset{1} == multiset{1} && multiset{1} - multiset{1} == NONE && NONE + NONE == NONE;
  }

  lemma Deed10(id: int, k: nat)
    requires 10 <= k < 12
    ensures Does(Moment(id, k), Deed(id, k)) && Outcome(Moment(id, k), Deed(id, k)) == Moment(id, k + 1)
  {
    hide Hash;
    assert NONE + multiset{1} == multiset{1} && multiset{1} - multiset{1} == NONE && NONE + NONE == NONE;
  }

  lemma Deed12(id: int, k: nat)
    requires 12 <= k < 15
    ensures Does(Moment(id, k), Deed(id, k)) && Outcome(Moment(id, k), Deed(id, k)) == Moment(id, k + 1)
  {
    hide Hash;
    assert NONE + multiset{1} == multiset{1} && multiset{1} - multiset{1} == NONE && NONE + NONE == NONE;
  }

  lemma Deed15(id: int, k: nat)
    requires 15 <= k < 17
    ensures Does(Moment(id, k), Deed(id, k)) && Outcome(Moment(id, k), Deed(id, k)) == Moment(id, k + 1)
  {
    hide Hash;
    assert NONE + multiset{1} == multiset{1} && multiset{1} - multiset{1} == NONE && NONE + NONE == NONE;
  }

  lemma Deed17(id: int, k: nat)
    requires 17 <= k < 19
    ensures Does(Moment(id, k), Deed(id, k)) && Outcome(Moment(id, k), Deed(id, k)) == Moment(id, k + 1)
  {
    hide Hash;
    assert NONE + multiset{1} == multiset{1} && multiset{1} - multiset{1} == NONE && NONE + NONE == NONE;
  }

  lemma Deed19(id: int, k: nat)
    requires 19 <= k < 21
    ensures Does(Moment(id, k), Deed(id, k)) && Outcome(Moment(id, k), Deed(id, k)) == Moment(id, k + 1)
  {
    hide Hash;
    assert NONE + multiset{1} == multiset{1} && multiset{1} - multiset{1} == NONE && NONE + NONE == NONE;
  }

  lemma Deed21(id: int, k: nat)
    requires 21 <= k < 23
    ensures Does(Moment(id, k), Deed(id, k)) && Outcome(Moment(id, k), Deed(id, k)) == Moment(id, k + 1)
  {
    hide Hash;
    assert NONE + multiset{1} == multiset{1} && multiset{1} - multiset{1} == NONE && NONE + NONE == NONE;
  }

  const NONE: multiset<Ptr> := multiset{}

  lemma DeedDone(id: int, k: nat)
    requires k < LAST
    ensures Does(Moment(id, k), Deed(id, k)) && Outcome(Moment(id, k), Deed(id, k)) == Moment(id, k + 1)
  {
    hide Moment, Deed, Does, Outcome;
    if k < 3 { Deed0(id, k); }
    else if k < 6 { Deed3(id, k); }
    else if k < 8 { Deed6(id, k); }
    else if k < 10 { Deed8(id, k); }
    else if k < 12 { Deed10(id, k); }
    else if k < 15 { Deed12(id, k); }
    else if k < 17 { Deed15(id, k); }
    else if k < 19 { Deed17(id, k); }
    else if k < 21 { Deed19(id, k); }
    else { Deed21(id, k); }
  }

  lemma {:induction false} Unfolds(id: int, k: nat) returns (schedule: seq<Event>)
    requires k <= LAST
    ensures Leads(Moment(id, k), schedule, Moment(id, LAST))
    decreases LAST - k
  {
    hide Moment, Deed, Does, Outcome;
    if k == LAST {
      schedule := [];
    } else {
      var rest := Unfolds(id, k + 1);
      DeedDone(id, k);
      LeadsEvent(Moment(id, k), Deed(id, k), rest, Moment(id, LAST));
      schedule := [Deed(id, k)] + rest;
    }
  }

  /** From the empty table, with two threads, a plain sequence of calls parks both on one object. */
  lemma TwoParkedArise(id: int) returns (schedule: seq<Event>, s': State)
    ensures Init(Start()) && Leads(Start(), schedule, s')
    ensures |s'.threads| == 2 && s'.threads[0].pc == 78 && s'.threads[1].pc == 78
    ensures s'.threads[0].fp == s'.threads[1].fp
    ensures s' == Moment(id, LAST)
  {
    schedule := Unfolds(id, 0);
    s' := Moment(id, LAST);
    hide Leads;
  }

  /** foo_rele is not safe for every client: a run from the empty table touches freed memory. */
  lemma SomeRunFaults(id: int) returns (schedule: seq<Event>, s': State)
    ensures Init(Start())
    ensures Leads(Start(), schedule, s') && 1 < |s'.threads| && Faults(s', 1)
  {
    var first, both := TwoParkedArise(id);
    var ch: Chains := seq(NHASH, b => if b == Hash(id) then [1] else []);
    BothInv(id, ch);
    hide Inv, Leads, Scene, Faults;
    var second;
    second, s' := TwoParkedFault(both, ch, 0, 1);
    LeadsOn(Start(), first, both, second, s');
    schedule := first + second;
  }

  lemma BothInv(id: int, ch: Chains)
    requires ch == seq(NHASH, b => if b == Hash(id) then [1] else [])
    ensures Inv(Moment(id, LAST), ch)
    ensures var s := Moment(id, LAST);
            s.hashlock == Free && 1 in s.heap && s.heap[1].lock == Free && s.heap[1].count == 0
  {
    BothFree(id);
    hide Moment, Hash, ChainsOk, LocksOk, AloneOk, CountsOk, RefsOk, WalkOk;
    BothChains(id, ch);
    BothThreads(id);
    BothKnow(id, ch);
  }

  lemma BothFree(id: int)
    ensures var s := Moment(id, LAST);
            s.hashlock == Free && 1 in s.heap && s.heap[1].lock == Free && s.heap[1].count == 0
  {
    hide Hash;
  }

  lemma BothKnow(id: int, ch: Chains)
    requires ch == seq(NHASH, b => if b == Hash(id) then [1] else [])
    ensures var s := Moment(id, LAST);
            |ch| == NHASH && |s.fh| == NHASH
            && forall t :: 0 <= t < |s.threads| ==> RefsOk(s, ch, s.threads[t]) && WalkOk(s, ch, s.threads[t])
  {
    hide Hash;
  }

  lemma BothThreads(id: int)
    ensures var s := Moment(id, LAST); LocksOk(s) && AloneOk(s) && CountsOk(s)
  {
    hide Hash;
    var s := Moment(id, LAST);
    SumZero(HoldsOf(1), s.threads);
  }

  lemma BothChains(id: int, ch: Chains)
    requires ch == seq(NHASH, b => if b == Hash(id) then [1] else [])
    ensures ChainsOk(Moment(id, LAST), ch)
  {
    hide Hash;
    var s := Moment(id, LAST);
    forall b | 0 <= b < NHASH ensures Threaded(s.heap, s.fh[b], ch[b]) && ChainOk(s, b, ch[b]) {
    }
  }
}
