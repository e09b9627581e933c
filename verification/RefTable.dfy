/** The two-lock table of reference-counted objects as a machine of interleaved steps.

    One step is one access to shared memory or one lock operation of one thread; the comment
    beside a program point gives the source line it is about to execute.  Any number of threads
    call foo_alloc, foo_find and foo_rele in any order. */
module RefTable {
  import opened Counting

  const NHASH: nat := 29
  const TWO_TO_THE_64: nat := 0x1_0000_0000_0000_0000

  type Tid = nat
  /** An address; malloc hands out any address that is not allocated, so addresses are reused. */
  type Ptr = nat
  const NULL: Ptr := 0

  /** The macro HASH: a (possibly negative) int converted to a 64-bit unsigned long, modulo 29. */
  function Hash(id: int): (bucket: nat)
    ensures bucket < NHASH
  {
    (id % TWO_TO_THE_64) % NHASH
  }

  /** On 32-bit ints: ids are spread by their remainder, and negative ones 24 buckets further on, since the conversion
      adds 2^64. */
  lemma HashSpreads(id: int)
    requires -0x8000_0000 <= id < 0x8000_0000
    ensures Hash(id) == if id >= 0 then id % 29 else (id + 24) % 29
  {
    if id < 0 {
      assert id % TWO_TO_THE_64 == id + TWO_TO_THE_64;
      assert TWO_TO_THE_64 == 29 * 636094623231363848 + 24;
      Remainder(id + 24, 636094623231363848);
    }
  }

  lemma Remainder(a: int, k: int)
    ensures (a + 29 * k) % 29 == a % 29
  {
    var q, r := a / 29, a % 29;
    assert a + 29 * k == 29 * (q + k) + r;
  }

  datatype Owner = Free | Held(holder: Tid)

  /** A struct foo in allocated memory. */
  datatype Foo = Foo(count: int, lock: Owner, id: int, next: Ptr)

  /** A thread.  pc is the source line it executes next, IDLE between calls; id, fp and tfp are the
      locals of the running call.  own holds the references it was handed and has not given to foo_rele.

      foo_alloc: 38 lock hashlock, 39 f_next, 40 fh[idx], 41 lock f_lock, 42 unlock hashlock, 44 unlock f_lock.
      foo_find: 54 lock hashlock, 55 bucket head, 56 compare and follow f_next, 57 lock f_lock, 58 f_count++,
        60 unlock hashlock, 61 unlock f_lock; 65 unlock hashlock and return NULL.
      foo_rele: 74 lock f_lock, 75 --f_count, 106 unlock f_lock; at zero 76 unlock f_lock, 78 lock hashlock,
        79 lock f_lock, 81 test f_count; 82 and 83 unlock both; 88 bucket head, 91 fh[idx], 93 follow f_next,
        95 f_next, 98 unlock hashlock, 99 unlock f_lock, 101 destroy and free. */
  datatype Thread = Thread(pc: nat, id: int, fp: Ptr, tfp: Ptr, own: multiset<Ptr>)

  const IDLE: nat := 0
  const NEW_THREAD := Thread(IDLE, 0, NULL, NULL, multiset{})

  /** The lines a thread can be at. */
  predicate IsLine(pc: nat) {
    pc == IDLE || 38 <= pc <= 42 || pc == 44 || 54 <= pc <= 58 || pc == 60 || pc == 61 || pc == 65 ||
    74 <= pc <= 76 || pc == 78 || pc == 79 || 81 <= pc <= 83 || pc == 88 || pc == 91 || pc == 93 || pc == 95 ||
    pc == 98 || pc == 99 || pc == 101 || pc == 106
  }

  /** heap holds the allocated objects and fh the bucket heads.  linkedAt and clock only observe:
      they record in which order objects were linked. */
  datatype State = State(heap: map<Ptr, Foo>, fh: seq<Ptr>, hashlock: Owner, threads: seq<Thread>,
                         linkedAt: map<Ptr, nat>, clock: nat)

  predicate Init(s: State) {
    && s.heap == map[]
    && s.fh == seq(NHASH, _ => NULL)
    && s.hashlock == Free
    && (forall t :: 0 <= t < |s.threads| ==> s.threads[t] == NEW_THREAD)
    && s.linkedAt == map[]
    && s.clock == 0
  }

  // ---------- what a program point holds, needs and mentions ----------

  predicate HoldsTable(pc: nat) {
    39 <= pc <= 42 || 55 <= pc <= 60 || pc == 65 || 79 <= pc <= 98
  }

  predicate HoldsObj(pc: nat) {
    42 <= pc <= 44 || 58 <= pc <= 61 || 75 <= pc <= 76 || 81 <= pc <= 82 || 88 <= pc <= 99 || pc == 106
  }

  /** The running call is about the object fp. */
  predicate Names(pc: nat) {
    38 <= pc <= 44 || 57 <= pc <= 61 || 74 <= pc <= 82 || 88 <= pc <= 101 || pc == 106
  }

  /** The next step locks hashlock. */
  predicate WantsTable(pc: nat) {
    pc == 38 || pc == 54 || pc == 78
  }

  /** The next step locks the f_lock of fp. */
  predicate WantsObj(pc: nat) {
    pc == 41 || pc == 57 || pc == 74 || pc == 79
  }

  predicate UnlocksTable(pc: nat) {
    pc == 42 || pc == 60 || pc == 65 || pc == 83 || pc == 98
  }

  predicate UnlocksObj(pc: nat) {
    pc == 44 || pc == 61 || pc == 76 || pc == 82 || pc == 99 || pc == 106
  }

  /** The object fp has not been published yet. */
  predicate Private(pc: nat) {
    38 <= pc <= 40
  }

  /** A releaser that saw the count of fp reach zero and has not decided yet. */
  predicate Parked(pc: nat) {
    76 <= pc <= 81 || 88 <= pc <= 95
  }

  /** fp has been unlinked by this thread and is about to be freed by it. */
  predicate Dying(pc: nat) {
    98 <= pc <= 101
  }

  /** fp is allocated but not in the table, and the running call alone knows it. */
  predicate Outside(pc: nat) {
    Private(pc) || Dying(pc)
  }

  /** The running call has a reference to fp: not yet returned, or not yet dropped. */
  predicate InFlight(pc: nat) {
    38 <= pc <= 44 || 60 <= pc <= 61 || 74 <= pc <= 75
  }

  function Holds(th: Thread, p: Ptr): nat {
    th.own[p] + if InFlight(th.pc) && th.fp == p then 1 else 0
  }

  function HoldsOf(p: Ptr): Thread -> nat {
    th => Holds(th, p)
  }

  /** References to p handed out and not yet released, over all threads. */
  function Refs(s: State, p: Ptr): nat {
    Sum(HoldsOf(p), s.threads)
  }

  // ---------- when a step is possible, and when it is undefined behaviour ----------

  /** The objects whose memory the next step reads or writes. */
  function Touches(th: Thread): set<Ptr> {
    if th.pc == 56 then if th.fp == NULL then {} else {th.fp}
    else if th.pc == 93 then {th.tfp}
    else if th.pc == 95 then {th.fp, th.tfp}
    else if !Names(th.pc) || WantsTable(th.pc) || UnlocksTable(th.pc) then {}
    else {th.fp}
  }

  /** The next step of t is undefined: it touches memory that is not allocated (NULL, or freed),
      unlocks a mutex it does not hold, or destroys a locked one. */
  predicate Faults(s: State, t: Tid)
    requires t < |s.threads|
  {
    var th := s.threads[t];
    || !(Touches(th) <= s.heap.Keys)
    || (UnlocksTable(th.pc) && s.hashlock != Held(t))
    || (UnlocksObj(th.pc) && s.heap[th.fp].lock != Held(t))
    || (th.pc == 101 && s.heap[th.fp].lock != Free)
  }

  /** The next step of t waits for a mutex that someone holds. */
  predicate Blocked(s: State, t: Tid)
    requires t < |s.threads|
  {
    var th := s.threads[t];
    || (WantsTable(th.pc) && s.hashlock.Held?)
    || (WantsObj(th.pc) && th.fp in s.heap && s.heap[th.fp].lock.Held?)
  }

  predicate Ready(s: State, t: Tid) {
    && t < |s.threads| && |s.fh| == NHASH
    && s.threads[t].pc != IDLE && !Blocked(s, t) && !Faults(s, t)
  }

  // ---------- the steps ----------

  /** Where a lock or unlock continues. */
  function After(pc: nat): nat {
    if pc == 38 then 39 else if pc == 41 then 42 else if pc == 42 then 44
    else if pc == 54 then 55 else if pc == 57 then 58 else if pc == 60 then 61
    else if pc == 74 then 75 else if pc == 76 then 78 else if pc == 78 then 79 else if pc == 79 then 81
    else if pc == 82 then 83 else if pc == 98 then 99 else if pc == 99 then 101
    else IDLE
  }

  /** Lines 46 and 62 hand the client a reference. */
  function Handed(th: Thread): multiset<Ptr> {
    if th.pc == 44 || th.pc == 61 then multiset{th.fp} else multiset{}
  }

  function SetThread(s: State, t: Tid, th: Thread): State
    requires t < |s.threads|
  {
    s.(threads := s.threads[t := th])
  }

  function SetFoo(s: State, p: Ptr, foo: Foo): State {
    s.(heap := s.heap[p := foo])
  }

  function TakeTable(s: State, t: Tid): State
    requires t < |s.threads|
  {
    SetThread(s, t, s.threads[t].(pc := After(s.threads[t].pc))).(hashlock := Held(t))
  }

  function DropTable(s: State, t: Tid): State
    requires t < |s.threads|
  {
    SetThread(s, t, s.threads[t].(pc := After(s.threads[t].pc))).(hashlock := Free)
  }

  function TakeObj(s: State, t: Tid): State
    requires t < |s.threads| && s.threads[t].fp in s.heap
  {
    var th := s.threads[t];
    SetFoo(SetThread(s, t, th.(pc := After(th.pc))), th.fp, s.heap[th.fp].(lock := Held(t)))
  }

  function DropObj(s: State, t: Tid): State
    requires t < |s.threads| && s.threads[t].fp in s.heap
  {
    var th := s.threads[t];
    SetFoo(SetThread(s, t, th.(pc := After(th.pc), own := th.own + Handed(th))), th.fp, s.heap[th.fp].(lock := Free))
  }

  /** The lines that change only locals: following pointers and testing f_count. */
  predicate OnlyLocal(pc: nat) {
    pc == 55 || pc == 56 || pc == 81 || pc == 88 || pc == 93
  }

  function LocalStep(s: State, th: Thread): Thread
    requires OnlyLocal(th.pc) && Touches(th) <= s.heap.Keys && |s.fh| == NHASH
  {
    if th.pc == 55 then th.(pc := 56, fp := s.fh[Hash(th.id)])
    else if th.pc == 56 then
      if th.fp == NULL then th.(pc := 65)
      else if s.heap[th.fp].id == th.id then th.(pc := 57)
      else th.(fp := s.heap[th.fp].next)
    else if th.pc == 81 then th.(pc := if s.heap[th.fp].count != 0 then 82 else 88)
    else if th.pc == 88 then
      var head := s.fh[Hash(s.heap[th.fp].id)];
      if head == th.fp then th.(pc := 91) else th.(pc := 93, tfp := head)
    else
      if s.heap[th.tfp].next != th.fp then th.(tfp := s.heap[th.tfp].next) else th.(pc := 95)
  }

  /** The lines that change a field of an object or a bucket head. */
  function WriteStep(s: State, t: Tid): State
    requires t < |s.threads| && |s.fh| == NHASH && s.threads[t].fp in s.heap
    requires s.threads[t].pc == 95 ==> s.threads[t].tfp in s.heap
  {
    var th := s.threads[t];
    var fp := th.fp;
    var foo := s.heap[fp];
    var bucket := Hash(foo.id);
    if th.pc == 39 then SetFoo(SetThread(s, t, th.(pc := 40)), fp, foo.(next := s.fh[bucket]))
    else if th.pc == 40 then
      SetThread(s, t, th.(pc := 41)).(fh := s.fh[bucket := fp], linkedAt := s.linkedAt[fp := s.clock],
          clock := s.clock + 1)
    else if th.pc == 58 then SetFoo(SetThread(s, t, th.(pc := 60)), fp, foo.(count := foo.count + 1))
    else if th.pc == 75 then
      SetFoo(SetThread(s, t, th.(pc := if foo.count == 1 then 76 else 106)), fp, foo.(count := foo.count - 1))
    else if th.pc == 91 then SetThread(s, t, th.(pc := 98)).(fh := s.fh[bucket := foo.next])
    else if th.pc == 95 then
      SetFoo(SetThread(s, t, th.(pc := 98)), th.tfp, s.heap[th.tfp].(next := foo.next))
    else SetThread(s, t, th.(pc := IDLE)).(heap := s.heap - {fp})
  }

  /** The lines WriteStep covers. */
  predicate Writes(pc: nat) {
    pc == 39 || pc == 40 || pc == 58 || pc == 75 || pc == 91 || pc == 95 || pc == 101
  }

  /** The step a running call takes next. */
  function Advance(s: State, t: Tid): State
    requires Ready(s, t)
  {
    var pc := s.threads[t].pc;
    if WantsTable(pc) then TakeTable(s, t)
    else if UnlocksTable(pc) then DropTable(s, t)
    else if WantsObj(pc) then TakeObj(s, t)
    else if UnlocksObj(pc) then DropObj(s, t)
    else if OnlyLocal(pc) then SetThread(s, t, LocalStep(s, s.threads[t]))
    else if Writes(pc) then WriteStep(s, t)
    else s
  }

  /** A call a client may make from IDLE.  CallAlloc carries the fresh address malloc chose; a failed
      malloc or mutex initialisation returns NULL and changes nothing (lines 25-33). */
  datatype Call = CallAlloc(id: int, fp: Ptr) | CallAllocFails | CallFind(id: int) | CallRele(fp: Ptr)

  predicate CanCall(s: State, t: Tid, c: Call) {
    && t < |s.threads|
    && s.threads[t].pc == IDLE
    && match c
       case CallAlloc(_, fp) => fp != NULL && fp !in s.heap
       case CallAllocFails => true
       case CallFind(_) => true
       case CallRele(fp) => fp in s.threads[t].own
  }

  function Begin(s: State, t: Tid, c: Call): State
    requires CanCall(s, t, c)
  {
    match c
    case CallAlloc(id, fp) => SetFoo(SetThread(s, t, s.threads[t].(pc := 38, fp := fp)), fp, Foo(1, Free, id, NULL))
    case CallAllocFails => s
    case CallFind(id) => SetThread(s, t, s.threads[t].(pc := 54, id := id))
    case CallRele(fp) => SetThread(s, t, s.threads[t].(pc := 74, fp := fp, own := s.threads[t].own - multiset{fp}))
  }

  /** What a thread does in one step. */
  datatype Action = Run | Make(call: Call)

  datatype Event = Event(t: Tid, a: Action)

  predicate Step(s: State, e: Event, s': State) {
    match e.a
    case Run => Ready(s, e.t) && s' == Advance(s, e.t)
    case Make(c) => CanCall(s, e.t, c) && s' == Begin(s, e.t, c)
  }

  /** states[i] becomes states[i + 1] by events[i]. */
  predicate IsRun(states: seq<State>, events: seq<Event>) {
    && |states| == |events| + 1
    && forall i :: 0 <= i < |events| ==> Step(states[i], events[i], states[i + 1])
  }

  /** The next step of t unlinks fp. */
  predicate Unlinking(s: State, t: Tid) {
    t < |s.threads| && (s.threads[t].pc == 91 || s.threads[t].pc == 95)
  }

  /** No other releaser is parked on the object of t. */
  predicate AloneOn(s: State, t: Tid)
    requires t < |s.threads|
  {
    forall u :: 0 <= u < |s.threads| && u != t && Parked(s.threads[u].pc) ==> s.threads[u].fp != s.threads[t].fp
  }

  /** The condition under which the table is safe: nobody else is parked on an object that is about to be unlinked. */
  predicate UnlinkAlone(s: State) {
    forall t :: 0 <= t < |s.threads| && Unlinking(s, t) ==> AloneOn(s, t)
  }

  /** What the client programs keep: no object has two parked releasers. */
  predicate OneParked(s: State) {
    forall t, u :: 0 <= t < u < |s.threads| && Parked(s.threads[t].pc) && Parked(s.threads[u].pc) ==>
      s.threads[t].fp != s.threads[u].fp
  }

  lemma OneParkedIsEnough(s: State)
    requires OneParked(s)
    ensures UnlinkAlone(s)
  {
  }
}
