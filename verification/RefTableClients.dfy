/** The two client programs of the table, with any number of workers: both keep the creators' references
    alive while other threads run, so no object ever has two parked releasers and every run is safe. */
module RefTableClients {
  import opened Counting
  import opened RefTable
  import opened RefTableInvariant
  import opened RefTableSafety

  // ---------- one object, created, shared and destroyed ----------

  /** Where main (thread 0) is: before foo_alloc returned, holding its reference while the workers run,
      or past the joins, giving the reference to foo_rele. */
  datatype Main = Starting | Holding(fp: Ptr) | Joined(fp: Ptr)

  /** All workers have returned and hold nothing. */
  predicate AllJoined(s: State) {
    forall u :: 1 <= u < |s.threads| ==> s.threads[u].pc == IDLE && s.threads[u].own == multiset{}
  }

  /** main allocates one object before the workers start and releases it after joining them; the workers
      find and release, any number of times, with any ids. */
  predicate SharingStep(s: State, m: Main, e: Event, s': State, m': Main) {
    && Step(s, e, s')
    && if e.t == 0 then
         match m
         case Starting =>
           && (e.a.Run? || e.a.call.CallAlloc?)
           && m' == if e.a.Run? && s.threads[0].pc == 44 then Holding(s.threads[0].fp) else Starting
         case Holding(fp) => e.a == Make(CallRele(fp)) && AllJoined(s) && m' == Joined(fp)
         case Joined(_) => e.a.Run? && m' == m
       else
         && m.Holding? && m' == m
         && (e.a.Run? || e.a.call.CallFind? || e.a.call.CallRele?)
  }

  predicate IsSharingRun(states: seq<State>, mains: seq<Main>, events: seq<Event>) {
    && |states| == |mains| == |events| + 1
    && Init(states[0]) && |states[0].threads| > 0 && mains[0] == Starting
    && forall i :: 0 <= i < |events| ==> SharingStep(states[i], mains[i], events[i], states[i + 1], mains[i + 1])
  }

  /** A worker is idle, looking up, or releasing without being the last. */
  predicate WorkerLine(pc: nat) {
    pc == IDLE || 54 <= pc <= 65 || pc == 74 || pc == 75 || pc == 106
  }

  ghost predicate SharingInv(s: State, m: Main) {
    && |s.threads| > 0
    && (forall u :: 1 <= u < |s.threads| ==> WorkerLine(s.threads[u].pc))
    && var th := s.threads[0];
       match m
       case Starting =>
         && AllJoined(s) && th.own == multiset{}
         && (th.pc == IDLE || 38 <= th.pc <= 44)
         && s.heap.Keys == if th.pc == IDLE then {} else {th.fp}
       case Holding(fp) =>
         th.pc == IDLE && th.own == multiset{fp} && s.heap.Keys == {fp}
       case Joined(fp) =>
         && AllJoined(s) && th.own == multiset{}
         && (th.pc == IDLE || (th.fp == fp && (74 <= th.pc <= 81 || 88 <= th.pc <= 101)))
         && s.heap.Keys == if th.pc == IDLE then {} else {fp}
  }

  lemma SharingOneParked(s: State, m: Main)
    requires SharingInv(s, m)
    ensures OneParked(s)
  {
  }

  /** While another thread holds a reference to the same object, a releaser does not see zero. */
  lemma NotLast(s: State, t: Tid, u: Tid)
    requires CountsOk(s) && t < |s.threads| && u < |s.threads| && t != u
    requires s.threads[t].pc == 75 && s.threads[t].fp in s.heap && Holds(s.threads[u], s.threads[t].fp) >= 1
    ensures s.heap[s.threads[t].fp].count >= 2
  {
    var p := s.threads[t].fp;
    if t < u { SumAtLeastTwo(HoldsOf(p), s.threads, t, u); } else { SumAtLeastTwo(HoldsOf(p), s.threads, u, t); }
    assert HoldsOf(p)(s.threads[t]) >= 1 && HoldsOf(p)(s.threads[u]) >= 1;
  }

  /** When the workers have been joined, main's references are all there are. */
  lemma OnlyMainHolds(s: State, p: Ptr)
    requires CountsOk(s) && |s.threads| > 0 && AllJoined(s) && p in s.heap
    ensures s.heap[p].count == Holds(s.threads[0], p)
  {
    var none := SetThread(s, 0, NEW_THREAD);
    forall u | 0 <= u < |none.threads| ensures HoldsOf(p)(none.threads[u]) == 0 {
    }
    SumZero(HoldsOf(p), none.threads);
    RefsUpdate(s, 0, NEW_THREAD, p);
  }

  /** A line of foo_rele taken by a last releaser. */
  predicate LastLine(pc: nat) {
    74 <= pc <= 81 || 88 <= pc <= 101
  }

  /** What a step of a running call does to the set of objects, and the reference it may hand out. */
  lemma RunShape(s: State, t: Tid)
    requires Ready(s, t) && IsLine(s.threads[t].pc)
    ensures t < |s.threads| && |Advance(s, t).threads| == |s.threads|
    ensures var s', th := Advance(s, t), s.threads[t];
            && s'.heap.Keys == (if th.pc == 101 then s.heap.Keys - {th.fp} else s.heap.Keys)
            && s'.threads[t].own == th.own + Handed(th)
  {
    hide IsLine;
  }

  /** A worker parks only if it drops the last reference. */
  lemma WorkerLines(s: State, t: Tid)
    requires Ready(s, t) && WorkerLine(s.threads[t].pc) && IsLine(s.threads[t].pc)
    requires s.threads[t].pc == 75 ==> s.heap[s.threads[t].fp].count != 1
    ensures |Advance(s, t).threads| == |s.threads| && WorkerLine(Advance(s, t).threads[t].pc)
  {
  }

  lemma AllocLines(s: State, t: Tid)
    requires Ready(s, t) && 38 <= s.threads[t].pc <= 44 && IsLine(s.threads[t].pc)
    ensures |Advance(s, t).threads| == |s.threads|
    ensures var th, th' := s.threads[t], Advance(s, t).threads[t];
            if th.pc == 44 then th'.pc == IDLE else 38 <= th'.pc <= 44 && th'.fp == th.fp
  {
  }

  /** A last releaser goes on to free the object. */
  lemma LastLines(s: State, t: Tid)
    requires Ready(s, t) && LastLine(s.threads[t].pc) && IsLine(s.threads[t].pc)
    requires s.threads[t].pc == 75 ==> s.heap[s.threads[t].fp].count == 1
    requires s.threads[t].pc == 81 ==> s.heap[s.threads[t].fp].count == 0
    ensures |Advance(s, t).threads| == |s.threads|
    ensures var th, th' := s.threads[t], Advance(s, t).threads[t];
            if th.pc == 101 then th'.pc == IDLE else LastLine(th'.pc) && th'.fp == th.fp
  {
  }

  lemma MainRuns(s: State, m: Main)
    requires LinesOk(s) && CountsOk(s) && SharingInv(s, m) && Ready(s, 0) && !m.Holding?
    ensures SharingInv(Advance(s, 0), if m.Starting? && s.threads[0].pc == 44 then Holding(s.threads[0].fp) else m)
  {
    OnlyMine(s, Event(0, Run), Advance(s, 0));
    RunShape(s, 0);
    if m.Joined? {
      OnlyMainHolds(s, m.fp);
      LastLines(s, 0);
    } else {
      AllocLines(s, 0);
    }
    hide Advance, Ready, CountsOk, LinesOk, IsLine, WorkerLine;
  }

  lemma SharingMainStep(s: State, m: Main, e: Event, s': State, m': Main)
    requires LinesOk(s) && CountsOk(s) && SharingInv(s, m) && SharingStep(s, m, e, s', m') && e.t == 0
    ensures SharingInv(s', m')
  {
    hide CountsOk, LinesOk, Advance, Ready, WorkerLine;
    if e.a.Run? {
      MainRuns(s, m);
      hide SharingInv;
    } else {
      OnlyMine(s, e, s');
    }
  }

  /** A worker that drops a reference is not the last while main holds one. */
  lemma WorkerNotLast(s: State, ch: Chains, m: Main, t: Tid)
    requires Inv(s, ch) && SharingInv(s, m) && m.Holding? && t < |s.threads| && t != 0 && s.threads[t].pc == 75
    ensures s.threads[t].fp in s.heap && s.heap[s.threads[t].fp].count != 1
  {
    hide Inv;
    Unfold(s, ch, t);
    InHeap(s, ch, s.threads[t]);
    hide ChainsOk, LocksOk, CountsOk, AloneOk, WalkOk, RefsOk, WorkerLine;
    NotLast(s, t, 0);
  }

  lemma WorkerKeeps(s: State, m: Main, t: Tid, th: Thread, s': State)
    requires SharingInv(s, m) && m.Holding? && t < |s.threads| && t != 0 && WorkerLine(th.pc)
    requires s'.threads == s.threads[t := th] && s'.heap.Keys == s.heap.Keys
    ensures SharingInv(s', m)
  {
    hide WorkerLine;
  }

  lemma WorkerRuns(s: State, ch: Chains, m: Main, t: Tid)
    requires LinesOk(s) && Inv(s, ch) && SharingInv(s, m) && m.Holding? && Ready(s, t) && t != 0
    ensures SharingInv(Advance(s, t), m)
  {
    hide Inv, Advance, Ready, Handed, ChainsOk, LocksOk, CountsOk, AloneOk, WalkOk, RefsOk, Step, IsLine;
    var s' := Advance(s, t);
    StepOf(s, t);
    OnlyMine(s, Event(t, Run), s');
    RunShape(s, t);
    if s.threads[t].pc == 75 {
      WorkerNotLast(s, ch, m, t);
    }
    WorkerLines(s, t);
    assert s.threads[t].pc != 101;
    hide SharingInv, LinesOk, WorkerLine;
    WorkerKeeps(s, m, t, s'.threads[t], s');
  }

  lemma StepOf(s: State, t: Tid)
    requires Ready(s, t)
    ensures Step(s, Event(t, Run), Advance(s, t))
  {
  }

  lemma WorkerCalls(s: State, m: Main, t: Tid, c: Call)
    requires SharingInv(s, m) && m.Holding? && CanCall(s, t, c) && t != 0 && (c.CallFind? || c.CallRele?)
    ensures SharingInv(Begin(s, t, c), m)
  {
  }

  lemma SharingWorkerStep(s: State, ch: Chains, m: Main, e: Event, s': State, m': Main)
    requires LinesOk(s) && Inv(s, ch) && SharingInv(s, m) && SharingStep(s, m, e, s', m') && e.t != 0
    ensures SharingInv(s', m')
  {
    hide Inv, SharingInv, LinesOk;
    match e.a
    case Run => WorkerRuns(s, ch, m, e.t);
    case Make(c) => WorkerCalls(s, m, e.t, c);
  }

  /** The step frees an object. */
  predicate Frees(s: State, e: Event) {
    e.a.Run? && e.t < |s.threads| && s.threads[e.t].pc == 101
  }

  /** How many of the first n steps free an object. */
  function FreeCount(states: seq<State>, events: seq<Event>, n: nat): nat
    requires n <= |events| < |states|
  {
    if n == 0 then 0 else FreeCount(states, events, n - 1) + if Frees(states[n - 1], events[n - 1]) then 1 else 0
  }

  lemma FreeShape(s: State, m: Main, e: Event, s': State, m': Main)
    requires LinesOk(s) && SharingInv(s, m) && SharingStep(s, m, e, s', m') && SharingInv(s', m')
    ensures Frees(s, e) <==> m'.Joined? && s'.heap == map[] && !(m.Joined? && s.heap == map[])
    ensures m.Joined? && s.heap == map[] ==> m'.Joined? && s'.heap == map[]
  {
    OnlyMine(s, e, s');
    if e.a.Run? {
      RunShape(s, e.t);
      hide Advance, Ready;
    }
    hide LinesOk;
  }

  lemma Unfold0(s: State, ch: Chains)
    requires Inv(s, ch)
    ensures CountsOk(s) && ChainsOk(s, ch)
  {
  }

  lemma SharingStepKept(s: State, m: Main, e: Event, s': State, m': Main)
    requires Good(s) && SharingInv(s, m) && SharingStep(s, m, e, s', m')
    ensures Good(s') && SharingInv(s', m')
    ensures Frees(s, e) <==> m'.Joined? && s'.heap == map[] && !(m.Joined? && s.heap == map[])
    ensures m.Joined? && s.heap == map[] ==> m'.Joined? && s'.heap == map[]
  {
    var ch :| Inv(s, ch) && NoLeak(s, ch);
    hide Inv, NoLeak, SharingInv, Step, UnlinkAlone;
    SharingOneParked(s, m);
    OneParkedIsEnough(s);
    StepKeepsGood(s, e, s');
    Unfold0(s, ch);
    hide LinesOk;
    if e.t == 0 {
      SharingMainStep(s, m, e, s', m');
    } else {
      SharingWorkerStep(s, ch, m, e, s', m');
    }
    FreeShape(s, m, e, s', m');
  }

  lemma SharingInit(s: State)
    requires Init(s) && |s.threads| > 0
    ensures Good(s) && SharingInv(s, Starting)
  {
    InitIsGood(s);
  }

  lemma {:induction false} SharingRunKept(states: seq<State>, mains: seq<Main>, events: seq<Event>, n: nat)
    requires IsSharingRun(states, mains, events) && n < |states|
    ensures Good(states[n]) && SharingInv(states[n], mains[n])
    ensures FreeCount(states, events, n) == if mains[n].Joined? && states[n].heap == map[] then 1 else 0
  {
    hide Good, SharingInv, SharingStep, Init, Frees;
    if n == 0 {
      SharingInit(states[0]);
    } else {
      SharingRunKept(states, mains, events, n - 1);
      SharingStepKept(states[n - 1], mains[n - 1], events[n - 1], states[n], mains[n]);
    }
  }

  lemma SharingStateSafe(s: State, m: Main)
    requires Good(s) && SharingInv(s, m) && |s.threads| > 0
    ensures forall t :: 0 <= t < |s.threads| ==> !Faults(s, t)
    ensures m.Holding? ==> m.fp in s.heap && s.heap[m.fp].count >= 1
    ensures m.Holding? ==> forall t :: 0 <= t < |s.threads| ==> !Parked(s.threads[t].pc)
    ensures m.Joined? && s.threads[0].pc == IDLE ==> s.heap == map[] && s.fh == seq(NHASH, _ => NULL)
  {
    var ch :| Inv(s, ch) && NoLeak(s, ch);
    hide Inv, NoLeak, SharingInv, Parked;
    forall t | 0 <= t < |s.threads| ensures !Faults(s, t) {
      NoFault(s, ch, t);
    }
    hide Faults;
    Unfold(s, ch, 0);
    hide ChainsOk, LocksOk, CountsOk, AloneOk, WalkOk, RefsOk;
    if m.Holding? {
      HoldingKeeps(s, m);
    }
    if m.Joined? && s.threads[0].pc == IDLE {
      JoinedEmpty(s, ch, m);
    }
  }

  lemma HoldingKeeps(s: State, m: Main)
    requires SharingInv(s, m) && CountsOk(s) && m.Holding?
    ensures m.fp in s.heap && s.heap[m.fp].count >= 1
    ensures forall t :: 0 <= t < |s.threads| ==> !Parked(s.threads[t].pc)
  {
    SumAtLeast(HoldsOf(m.fp), s.threads, 0);
    assert HoldsOf(m.fp)(s.threads[0]) == 1;
  }

  lemma JoinedEmpty(s: State, ch: Chains, m: Main)
    requires SharingInv(s, m) && ChainsOk(s, ch) && m.Joined? && s.threads[0].pc == IDLE
    ensures s.heap == map[] && s.fh == seq(NHASH, _ => NULL)
  {
    Sizes(s, ch);
    hide ChainsOk, WorkerLine, ChainOk;
    forall b | 0 <= b < NHASH ensures s.fh[b] == NULL {
      BucketOk(s, ch, b);
    }
  }

  /** Every interleaving of main with any number of workers is safe; while main holds its reference the object
      stays allocated with a count of at least one and nobody parks; and once main is done the object has
      been freed exactly once and the table is empty. */
  lemma SharingIsSafe(states: seq<State>, mains: seq<Main>, events: seq<Event>, n: nat)
    requires IsSharingRun(states, mains, events) && n < |states|
    ensures forall t :: 0 <= t < |states[n].threads| ==> !Faults(states[n], t)
    ensures mains[n].Holding? ==> mains[n].fp in states[n].heap && states[n].heap[mains[n].fp].count >= 1
    ensures mains[n].Holding? ==> forall t :: 0 <= t < |states[n].threads| ==> !Parked(states[n].threads[t].pc)
    ensures FreeCount(states, events, n) <= 1
    ensures |states[n].threads| > 0
    ensures mains[n].Joined? && states[n].threads[0].pc == IDLE ==>
      FreeCount(states, events, n) == 1 && states[n].heap == map[] && states[n].fh == seq(NHASH, _ => NULL)
  {
    SharingRunKept(states, mains, events, n);
    hide IsSharingRun, FreeCount, Good, Faults;
    SharingStateSafe(states[n], mains[n]);
  }

  // ---------- many objects, whose creator never gives up its last reference ----------

  /** main allocates objects and, like the workers, finds and releases them, but it releases an object only
      while it has another reference to it. */
  predicate PinningStep(s: State, e: Event, s': State) {
    && Step(s, e, s')
    && (e.a.Make? ==>
          match e.a.call
          case CallAlloc(_, _) => e.t == 0
          case CallAllocFails => e.t == 0
          case CallFind(_) => true
          case CallRele(p) => e.t == 0 ==> s.threads[0].own[p] >= 2)
  }

  predicate IsPinningRun(states: seq<State>, events: seq<Event>) {
    && |states| == |events| + 1
    && Init(states[0]) && |states[0].threads| > 0
    && forall i :: 0 <= i < |events| ==> PinningStep(states[i], events[i], states[i + 1])
  }

  ghost predicate PinningInv(s: State) {
    && |s.threads| > 0
    && (forall u :: 1 <= u < |s.threads| ==> WorkerLine(s.threads[u].pc))
    && var th := s.threads[0];
       && (WorkerLine(th.pc) || 38 <= th.pc <= 44)
       && forall p :: p in s.heap ==> p in th.own || (38 <= th.pc <= 44 && th.fp == p)
  }

  /** A dropper is never the last: main still has its own reference besides the one being dropped. */
  lemma PinnedCount(s: State, t: Tid)
    requires CountsOk(s) && PinningInv(s) && t < |s.threads| && s.threads[t].pc == 75 && s.threads[t].fp in s.heap
    ensures s.heap[s.threads[t].fp].count >= 2
  {
    var p := s.threads[t].fp;
    if t == 0 {
      SumAtLeast(HoldsOf(p), s.threads, 0);
      assert HoldsOf(p)(s.threads[0]) >= 2;
    } else {
      NotLast(s, t, 0);
    }
  }

  lemma PinningRunKept(s: State, ch: Chains, t: Tid)
    requires LinesOk(s) && Inv(s, ch) && PinningInv(s) && Ready(s, t)
    ensures PinningInv(Advance(s, t)) && s.heap.Keys <= Advance(s, t).heap.Keys
  {
    hide Inv;
    OnlyMine(s, Event(t, Run), Advance(s, t));
    RunShape(s, t);
    if s.threads[t].pc == 75 {
      Unfold(s, ch, t);
      InHeap(s, ch, s.threads[t]);
      PinnedCount(s, t);
    }
    if 38 <= s.threads[t].pc <= 44 { AllocLines(s, t); } else { WorkerLines(s, t); }
    hide Advance, Ready, ChainsOk, LocksOk, CountsOk, AloneOk, WalkOk, RefsOk, LinesOk, Step;
  }

  lemma InHeap(s: State, ch: Chains, th: Thread)
    requires |ch| == NHASH && RefsOk(s, ch, th) && Names(th.pc)
    ensures th.fp in s.heap
  {
  }

  lemma PinningCallKept(s: State, t: Tid, c: Call)
    requires PinningInv(s) && CanCall(s, t, c) && PinningStep(s, Event(t, Make(c)), Begin(s, t, c))
    ensures PinningInv(Begin(s, t, c)) && s.heap.Keys <= Begin(s, t, c).heap.Keys
  {
  }

  lemma PinningOneParked(s: State)
    requires PinningInv(s)
    ensures OneParked(s)
  {
  }

  lemma PinningStepGood(s: State, e: Event, s': State)
    requires Good(s) && PinningInv(s) && PinningStep(s, e, s')
    ensures Good(s') && PinningInv(s') && s.heap.Keys <= s'.heap.Keys
  {
    var ch :| Inv(s, ch) && NoLeak(s, ch);
    hide Inv, NoLeak, PinningInv, LinesOk, Ready, CanCall, Advance, Begin;
    PinningOneParked(s);
    OneParkedIsEnough(s);
    StepKeepsGood(s, e, s');
    match e.a
    case Run => PinningRunKept(s, ch, e.t);
    case Make(c) => assert e == Event(e.t, Make(c)); PinningCallKept(s, e.t, c);
  }

  lemma PinningInit(s: State)
    requires Init(s) && |s.threads| > 0
    ensures Good(s) && PinningInv(s)
  {
    InitIsGood(s);
  }

  /** Every run is safe and frees nothing: the set of objects only grows, so main's last loop, which finds and
      releases each object once, destroys none of them. */
  lemma {:induction false} PinningIsSafe(states: seq<State>, events: seq<Event>, n: nat)
    requires IsPinningRun(states, events) && n < |states|
    ensures Good(states[n]) && PinningInv(states[n])
    ensures forall t :: 0 <= t < |states[n].threads| ==> !Faults(states[n], t) && !Parked(states[n].threads[t].pc)
    ensures forall i :: 0 <= i <= n ==> states[i].heap.Keys <= states[n].heap.Keys
  {
    hide Good, PinningInv, PinningStep, Init, Faults;
    if n == 0 {
      PinningInit(states[0]);
    } else {
      PinningIsSafe(states, events, n - 1);
      PinningStepGood(states[n - 1], events[n - 1], states[n]);
    }
    PinningStateSafe(states[n]);
  }

  lemma PinningStateSafe(s: State)
    requires Good(s) && PinningInv(s)
    ensures forall t :: 0 <= t < |s.threads| ==> !Faults(s, t) && !Parked(s.threads[t].pc)
  {
    var ch :| Inv(s, ch) && NoLeak(s, ch);
    hide Inv, NoLeak;
    forall t | 0 <= t < |s.threads| ensures !Faults(s, t) {
      NoFault(s, ch, t);
    }
    hide Faults;
  }

  /** When all threads have returned and the workers hold nothing, each count is the number of references main
      kept: one per object if every find of main was followed by a release. */
  lemma PinningEnds(s: State)
    requires Good(s) && PinningInv(s) && |s.threads| > 0 && AllJoined(s) && s.threads[0].pc == IDLE
    ensures forall p :: p in s.heap ==> s.heap[p].count == s.threads[0].own[p] >= 1
  {
    hide *;
    GoodCounts(s);
    MainKeepsAll(s);
    forall p | p in s.heap ensures s.heap[p].count == s.threads[0].own[p] >= 1 {
      OnlyMainHolds(s, p);
      IdleHolds(s.threads[0], p);
    }
  }

  lemma GoodCounts(s: State)
    requires Good(s)
    ensures CountsOk(s)
  {
    hide ChainsOk, LocksOk, AloneOk, RefsOk, WalkOk, NoLeak, LinesOk;
  }

  lemma IdleHolds(th: Thread, p: Ptr)
    requires th.pc == IDLE
    ensures Holds(th, p) == th.own[p]
  {
  }

  lemma MainKeepsAll(s: State)
    requires PinningInv(s) && s.threads[0].pc == IDLE
    ensures forall p :: p in s.heap ==> s.threads[0].own[p] >= 1
  {
  }

  // ---------- main of the many-objects program ----------

  /** Where main (thread 0) is: allocating the objects, letting the workers run until they are joined, between two turns
      of its last loop, looking an id up, holding what it found, or releasing it. */
  datatype Loop = Making | Waiting | Between | Looking | Found(fp: Ptr) | Releasing(fp: Ptr)

  /** One step of the program: its workers run after the objects are made and before the last loop. */
  predicate ManyStep(s: State, m: Loop, e: Event, s': State, m': Loop) {
    && Step(s, e, s')
    && if e.t == 0 then
         match m
         case Making =>
           if e.a.Run? || e.a.call.CallAlloc? || e.a.call.CallAllocFails? then m' == Making
           else e.a.call.CallFind? && AllJoined(s) && m' == Looking
         case Waiting => e.a.Make? && e.a.call.CallFind? && AllJoined(s) && m' == Looking
         case Between => e.a.Make? && e.a.call.CallFind? && m' == Looking
         case Looking =>
           && e.a.Run?
           && m' == if s.threads[0].pc == 61 then Found(s.threads[0].fp)
                     else if s.threads[0].pc == 65 then Between else Looking
         case Found(fp) => e.a == Make(CallRele(fp)) && m' == Releasing(fp)
         case Releasing(_) => e.a.Run? && m' == if s.threads[0].pc == 106 then Between else m
       else
         && (m.Waiting? || (m.Making? && |s.threads| > 0 && s.threads[0].pc == IDLE)) && m' == Waiting
         && (e.a.Run? || e.a.call.CallFind? || e.a.call.CallRele?)
  }

  predicate IsManyRun(states: seq<State>, mains: seq<Loop>, events: seq<Event>) {
    && |states| == |mains| == |events| + 1
    && Init(states[0]) && |states[0].threads| > 0 && mains[0] == Making
    && forall i :: 0 <= i < |events| ==> ManyStep(states[i], mains[i], events[i], states[i + 1], mains[i + 1])
  }

  /** The references main was handed to p and has not given back: one for each object, two for the one just found. */
  function Handled(th: Thread, m: Loop, p: Ptr): nat {
    if 38 <= th.pc <= 44 && th.fp == p then 0 else if m == Found(p) then 2 else 1
  }

  predicate AtLine(th: Thread, m: Loop) {
    match m
    case Making => th.pc == IDLE || 38 <= th.pc <= 44
    case Looking => 54 <= th.pc <= 65
    case Releasing(fp) => th.fp == fp && (th.pc == 74 || th.pc == 75 || th.pc == 106)
    case _ => th.pc == IDLE
  }

  ghost predicate ManyInv(s: State, m: Loop) {
    && |s.threads| > 0 && AtLine(s.threads[0], m)
    && (!m.Making? && !m.Waiting? ==> AllJoined(s))
    && (m.Found? ==> m.fp in s.heap)
    && forall p :: p in s.heap ==> s.threads[0].own[p] == Handled(s.threads[0], m, p)
  }

  /** Every step of the program is one that PinningStep allows: what main releases it holds twice. */
  lemma ManyPins(s: State, m: Loop, e: Event, s': State, m': Loop)
    requires ManyInv(s, m) && ManyStep(s, m, e, s', m')
    ensures PinningStep(s, e, s')
  {
    hide Step;
  }

  lemma FindLines(s: State, t: Tid)
    requires Ready(s, t) && 54 <= s.threads[t].pc <= 65 && IsLine(s.threads[t].pc)
    ensures |Advance(s, t).threads| == |s.threads|
    ensures var th, th' := s.threads[t], Advance(s, t).threads[t];
            if th.pc == 61 || th.pc == 65 then th'.pc == IDLE else 54 <= th'.pc <= 65
  {
  }

  lemma ReleLines(s: State, t: Tid)
    requires Ready(s, t) && (s.threads[t].pc == 74 || s.threads[t].pc == 75 || s.threads[t].pc == 106)
    requires s.threads[t].pc == 75 ==> s.heap[s.threads[t].fp].count != 1
    ensures |Advance(s, t).threads| == |s.threads|
    ensures var th, th' := s.threads[t], Advance(s, t).threads[t];
            th'.fp == th.fp && th'.pc == if th.pc == 74 then 75 else if th.pc == 75 then 106 else IDLE
  {
  }

  /** Where main goes next. */
  lemma MainLines(s: State, ch: Chains, m: Loop, m': Loop)
    requires LinesOk(s) && Inv(s, ch) && PinningInv(s) && ManyInv(s, m) && Ready(s, 0)
    requires ManyStep(s, m, Event(0, Run), Advance(s, 0), m')
    ensures |Advance(s, 0).threads| == |s.threads| && AtLine(Advance(s, 0).threads[0], m')
    ensures m.Making? && s.threads[0].pc != 44 ==>
              38 <= Advance(s, 0).threads[0].pc <= 44 && Advance(s, 0).threads[0].fp == s.threads[0].fp
    ensures !m.Making? || s.threads[0].pc == 44 ==> !(38 <= Advance(s, 0).threads[0].pc <= 44)
  {
    hide Inv, PinningInv, Step;
    if m.Making? {
      AllocLines(s, 0);
    } else if m.Looking? {
      FindLines(s, 0);
    } else if s.threads[0].pc == 75 {
      Unfold(s, ch, 0);
      InHeap(s, ch, s.threads[0]);
      PinnedCount(s, 0);
      ReleLines(s, 0);
    } else {
      ReleLines(s, 0);
    }
    hide Advance, Ready, LinesOk, IsLine, ChainsOk, LocksOk, CountsOk, AloneOk, WalkOk, RefsOk;
  }

  /** What main is handed is what the phase says. */
  lemma MainOwns(s: State, m: Loop, s': State, m': Loop)
    requires ManyInv(s, m) && |s'.threads| > 0 && s'.heap.Keys == s.heap.Keys
    requires s'.threads[0].own == s.threads[0].own + Handed(s.threads[0])
    requires AtLine(s'.threads[0], m') && (m.Looking? && s.threads[0].pc == 61 ==> s.threads[0].fp in s.heap)
    requires m' == match m
                   case Looking => (if s.threads[0].pc == 61 then Found(s.threads[0].fp)
                                    else if s.threads[0].pc == 65 then Between else Looking)
                   case Releasing(_) => if s.threads[0].pc == 106 then Between else m
                   case _ => m
    requires m.Making? || m.Looking? || m.Releasing?
    requires !m.Making? && !m.Waiting? ==> AllJoined(s')
    requires m.Making? && s.threads[0].pc != IDLE && s.threads[0].pc != 44 ==>
               38 <= s'.threads[0].pc <= 44 && s'.threads[0].fp == s.threads[0].fp
    requires !m.Making? || s.threads[0].pc == 44 ==> !(38 <= s'.threads[0].pc <= 44)
    requires s.threads[0].pc != IDLE
    ensures ManyInv(s', m')
  {
    hide AllJoined;
  }

  lemma ManyMainRuns(s: State, ch: Chains, m: Loop, m': Loop)
    requires LinesOk(s) && Inv(s, ch) && PinningInv(s) && ManyInv(s, m) && Ready(s, 0)
    requires ManyStep(s, m, Event(0, Run), Advance(s, 0), m')
    ensures ManyInv(Advance(s, 0), m')
  {
    hide Inv, PinningInv, RefsOk;
    OnlyMine(s, Event(0, Run), Advance(s, 0));
    RunShape(s, 0);
    MainLines(s, ch, m, m');
    Unfold(s, ch, 0);
    if Names(s.threads[0].pc) {
      InHeap(s, ch, s.threads[0]);
    }
    hide Advance, Ready, ChainsOk, LocksOk, CountsOk, AloneOk, WalkOk, LinesOk, Step, IsLine, Handed;
    MainOwns(s, m, Advance(s, 0), m');
  }

  lemma ManyMainCalls(s: State, ch: Chains, m: Loop, c: Call, m': Loop)
    requires Inv(s, ch) && ManyInv(s, m) && CanCall(s, 0, c)
    requires ManyStep(s, m, Event(0, Make(c)), Begin(s, 0, c), m')
    ensures ManyInv(Begin(s, 0, c), m')
  {
    hide Inv, Step;
    OwnedInHeap(s, ch, 0);
    CallShape(s, c);
    hide Begin, CanCall;
  }

  lemma OwnedInHeap(s: State, ch: Chains, t: Tid)
    requires Inv(s, ch) && t < |s.threads|
    ensures forall p :: p in s.threads[t].own ==> p in s.heap
  {
    hide Inv;
    Unfold(s, ch, t);
    hide ChainsOk, LocksOk, CountsOk, AloneOk, WalkOk;
  }

  /** What main's call changes. */
  lemma CallShape(s: State, c: Call)
    requires CanCall(s, 0, c)
    ensures var s', th := Begin(s, 0, c), s.threads[0];
            && s'.threads == s.threads[0 := s'.threads[0]] && th.pc == IDLE
            && match c
               case CallAlloc(_, fp) =>
                 && fp !in s.heap && s'.heap.Keys == s.heap.Keys + {fp}
                 && s'.threads[0].pc == 38 && s'.threads[0].fp == fp && s'.threads[0].own == th.own
               case CallAllocFails => s' == s
               case CallFind(_) => s'.heap == s.heap && s'.threads[0].pc == 54 && s'.threads[0].own == th.own
               case CallRele(fp) =>
                 && fp in th.own && s'.heap == s.heap && s'.threads[0].pc == 74 && s'.threads[0].fp == fp
                 && s'.threads[0].own == th.own - multiset{fp}
  {
  }

  lemma ManyWorkerStep(s: State, m: Loop, e: Event, s': State, m': Loop)
    requires LinesOk(s) && PinningInv(s) && ManyInv(s, m) && ManyStep(s, m, e, s', m') && e.t != 0
    ensures ManyInv(s', m')
  {
    OnlyMine(s, e, s');
    if e.a.Run? {
      RunShape(s, e.t);
      hide Advance, Ready;
    }
    hide LinesOk;
  }

  lemma ManyStepKept(s: State, m: Loop, e: Event, s': State, m': Loop)
    requires Good(s) && PinningInv(s) && ManyInv(s, m) && ManyStep(s, m, e, s', m')
    ensures PinningStep(s, e, s') && ManyInv(s', m')
  {
    var ch :| Inv(s, ch) && NoLeak(s, ch);
    hide Inv, NoLeak, PinningInv, ManyInv, LinesOk, PinningStep;
    ManyPins(s, m, e, s', m');
    if e.t != 0 {
      ManyWorkerStep(s, m, e, s', m');
    } else if e.a.Run? {
      assert e == Event(0, Run);
      ManyMainRuns(s, ch, m, m');
    } else {
      assert e == Event(0, Make(e.a.call));
      ManyMainCalls(s, ch, m, e.a.call, m');
    }
  }

  lemma ManyInit(s: State)
    requires Init(s) && |s.threads| > 0
    ensures ManyInv(s, Making)
  {
  }

  lemma {:induction false} ManyRunKept(states: seq<State>, mains: seq<Loop>, events: seq<Event>, n: nat)
    requires IsManyRun(states, mains, events) && n < |states|
    ensures Good(states[n]) && PinningInv(states[n]) && ManyInv(states[n], mains[n])
    ensures forall i :: 0 <= i < n ==> PinningStep(states[i], events[i], states[i + 1])
  {
    hide Good, PinningInv, ManyInv, ManyStep, Init, PinningStep;
    if n == 0 {
      PinningInit(states[0]);
      ManyInit(states[0]);
    } else {
      ManyRunKept(states, mains, events, n - 1);
      ManyStepKept(states[n - 1], mains[n - 1], events[n - 1], states[n], mains[n]);
      PinningStepGood(states[n - 1], events[n - 1], states[n]);
    }
  }

  /** The program, with any number of objects, workers and ids looked up, in every interleaving: its discipline is the
      pinning one, so no step faults, nobody parks and no object is freed; and whenever main has joined the workers
      and is between two turns of its last loop, every object's count is exactly one. */
  lemma ManyObjects(states: seq<State>, mains: seq<Loop>, events: seq<Event>, n: nat)
    requires IsManyRun(states, mains, events) && n < |states|
    ensures IsPinningRun(states, events)
    ensures forall t :: 0 <= t < |states[n].threads| ==> !Faults(states[n], t) && !Parked(states[n].threads[t].pc)
    ensures forall i :: 0 <= i <= n ==> states[i].heap.Keys <= states[n].heap.Keys
    ensures (mains[n].Between? || mains[n].Waiting?) && AllJoined(states[n]) ==>
              forall p :: p in states[n].heap ==> states[n].heap[p].count == 1
    ensures mains[n].Between? ==> AllJoined(states[n])
  {
    hide Good, PinningInv, PinningStep, Init, Faults, ManyStep;
    ManyRunKept(states, mains, events, |events|);
    PinningIsSafe(states, events, n);
    ManyRunKept(states, mains, events, n);
    if (mains[n].Between? || mains[n].Waiting?) && AllJoined(states[n]) {
      PinningEnds(states[n]);
    }
  }
}
