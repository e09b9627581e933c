/** The bounded buffer in shared memory: any number of producer and consumer processes, any buffer size, any
    interleaving of their semaphore operations and memory accesses. */
module BoundedBuffer {
  import opened Counting
  import opened RingIndex

  /** A process and the source line it executes next.
      Producer: 20 wait empty, 21 wait mutex, 23 write, 25 in, 27 post mutex, 28 post full.
      Consumer: 11 wait full, 12 wait mutex, 14 read, 17 out, 19 post mutex, 20 post empty. */
  datatype Proc = Producer(pc: nat) | Consumer(pc: nat)

  /** The shared segment and the processes.  entered and left only observe: the items in the order they were
      written to the buffer and in the order they were read from it. */
  datatype State = State(buffer: seq<int>, inn: nat, out: nat, empty: nat, full: nat, mutex: nat,
                         procs: seq<Proc>, entered: seq<int>, left: seq<int>)

  predicate IsLine(p: Proc) {
    match p
    case Producer(pc) => pc == 20 || pc == 21 || pc == 23 || pc == 25 || pc == 27 || pc == 28
    case Consumer(pc) => pc == 11 || pc == 12 || pc == 14 || pc == 17 || pc == 19 || pc == 20
  }

  predicate Init(s: State) {
    && s.buffer != [] && s.inn == 0 && s.out == 0
    && s.empty == |s.buffer| && s.full == 0 && s.mutex == 1
    && s.entered == [] && s.left == []
    && forall i :: 0 <= i < |s.procs| ==> s.procs[i] == Producer(20) || s.procs[i] == Consumer(11)
  }

  /** A step waits only in sem_wait, for a semaphore that is zero. */
  predicate Ready(s: State, t: nat) {
    && t < |s.procs|
    && match s.procs[t]
       case Producer(pc) => (pc == 20 ==> s.empty > 0) && (pc == 21 ==> s.mutex > 0)
           && (pc == 23 ==> s.inn < |s.buffer|)
       case Consumer(pc) => (pc == 11 ==> s.full > 0) && (pc == 12 ==> s.mutex > 0) && (pc == 14 ==> s.out < |s.buffer|)
  }

  /** One step of process t; item is what a producer at line 23 produces. */
  function Advance(s: State, t: nat, item: int): State
    requires Ready(s, t) && s.buffer != []
  {
    var n := |s.buffer|;
    match s.procs[t]
    case Producer(pc) =>
      if pc == 20 then s.(empty := s.empty - 1, procs := s.procs[t := Producer(21)])
      else if pc == 21 then s.(mutex := s.mutex - 1, procs := s.procs[t := Producer(23)])
      else if pc == 23 then
        s.(buffer := s.buffer[s.inn := item], entered := s.entered + [item], procs := s.procs[t := Producer(25)])
      else if pc == 25 then s.(inn := (s.inn + 1) % n, procs := s.procs[t := Producer(27)])
      else if pc == 27 then s.(mutex := s.mutex + 1, procs := s.procs[t := Producer(28)])
      else s.(full := s.full + 1, procs := s.procs[t := Producer(20)])
    case Consumer(pc) =>
      if pc == 11 then s.(full := s.full - 1, procs := s.procs[t := Consumer(12)])
      else if pc == 12 then s.(mutex := s.mutex - 1, procs := s.procs[t := Consumer(14)])
      else if pc == 14 then s.(left := s.left + [s.buffer[s.out]], procs := s.procs[t := Consumer(17)])
      else if pc == 17 then s.(out := (s.out + 1) % n, procs := s.procs[t := Consumer(19)])
      else if pc == 19 then s.(mutex := s.mutex + 1, procs := s.procs[t := Consumer(20)])
      else s.(empty := s.empty + 1, procs := s.procs[t := Consumer(11)])
  }

  // ---------- counting processes ----------

  predicate InSection(p: Proc) {
    match p
    case Producer(pc) => pc == 23 || pc == 25 || pc == 27
    case Consumer(pc) => pc == 14 || pc == 17 || pc == 19
  }

  /** The process has taken a free slot it has not filled, or freed one it has not announced. */
  predicate OwesEmpty(p: Proc) {
    match p
    case Producer(pc) => pc == 21 || pc == 23
    case Consumer(pc) => pc == 17 || pc == 19 || pc == 20
  }

  /** The process has filled a slot it has not announced, or taken a filled one it has not read. */
  predicate OwesFull(p: Proc) {
    match p
    case Producer(pc) => pc == 25 || pc == 27 || pc == 28
    case Consumer(pc) => pc == 12 || pc == 14
  }

  function One(b: bool): nat { if b then 1 else 0 }

  function SectionOf(): Proc -> nat { p => One(InSection(p)) }

  function EmptyOf(): Proc -> nat { p => One(OwesEmpty(p)) }

  function FullOf(): Proc -> nat { p => One(OwesFull(p)) }

  // ---------- the invariant ----------

  /** The items written and not yet read are in the buffer, in order. */
  ghost predicate Stored(s: State) {
    && s.buffer != []
    && |s.left| <= |s.entered| <= |s.left| + |s.buffer|
    && s.left == s.entered[..|s.left|]
    && forall i :: |s.left| <= i < |s.entered| ==> s.buffer[Slot(0, i, |s.buffer|)] == s.entered[i]
  }

  ghost predicate CountsOk(s: State) {
    && s.mutex + Sum(SectionOf(), s.procs) == 1
    && s.full + Sum(FullOf(), s.procs) == |s.entered| - |s.left|
    && s.empty + Sum(EmptyOf(), s.procs) == |s.buffer| - (|s.entered| - |s.left|)
  }

  /** in is the count of items written, except between the write and the increment. */
  ghost predicate InOk(s: State)
    requires s.buffer != []
  {
    if exists t :: 0 <= t < |s.procs| && s.procs[t] == Producer(25)
    then |s.entered| > 0 && s.inn == Slot(0, |s.entered| - 1, |s.buffer|)
    else s.inn == Slot(0, |s.entered|, |s.buffer|)
  }

  /** out is the count of items read, except between the read and the increment. */
  ghost predicate OutOk(s: State)
    requires s.buffer != []
  {
    if exists t :: 0 <= t < |s.procs| && s.procs[t] == Consumer(17)
    then |s.left| > 0 && s.out == Slot(0, |s.left| - 1, |s.buffer|)
    else s.out == Slot(0, |s.left|, |s.buffer|)
  }

  ghost predicate IndicesOk(s: State)
    requires s.buffer != []
  {
    InOk(s) && OutOk(s)
  }

  ghost predicate Inv(s: State) {
    && Stored(s) && CountsOk(s) && IndicesOk(s)
    && forall t :: 0 <= t < |s.procs| ==> IsLine(s.procs[t])
  }

  lemma InitInv(s: State)
    requires Init(s)
    ensures Inv(s)
  {
    SumZero(SectionOf(), s.procs);
    SumZero(FullOf(), s.procs);
    SumZero(EmptyOf(), s.procs);
  }

  /** At most one process is between its wait on mutex and its post. */
  lemma Exclusive(s: State, t: nat, u: nat)
    requires CountsOk(s) && t < |s.procs| && u < |s.procs| && t != u && InSection(s.procs[t])
    ensures !InSection(s.procs[u]) && s.mutex == 0
  {
    SumAtLeast(SectionOf(), s.procs, t);
    if t < u { SumAtLeastTwo(SectionOf(), s.procs, t, u); } else { SumAtLeastTwo(SectionOf(), s.procs, u, t); }
  }

  lemma CountsKept(s: State, t: nat, item: int)
    requires CountsOk(s) && Ready(s, t) && s.buffer != [] && IsLine(s.procs[t])
    ensures CountsOk(Advance(s, t, item))
  {
    var p' := Advance(s, t, item).procs[t];
    SumUpdate(SectionOf(), s.procs, t, p');
    SumUpdate(FullOf(), s.procs, t, p');
    SumUpdate(EmptyOf(), s.procs, t, p');
  }

  /** A producer about to write has room, and a consumer about to read has an item. */
  lemma Room(s: State, t: nat)
    requires CountsOk(s) && t < |s.procs|
    ensures s.procs[t] == Producer(23) ==> |s.entered| - |s.left| < |s.buffer|
    ensures s.procs[t] == Consumer(14) ==> |s.left| < |s.entered|
  {
    SumAtLeast(EmptyOf(), s.procs, t);
    SumAtLeast(FullOf(), s.procs, t);
  }

  /** The process in the section sees in and out where its access needs them. */
  lemma InPlace(s: State, t: nat)
    requires s.buffer != [] && CountsOk(s) && IndicesOk(s) && t < |s.procs|
    ensures s.procs[t] == Producer(23) ==> s.inn == Slot(0, |s.entered|, |s.buffer|)
    ensures s.procs[t] == Consumer(14) ==> s.out == Slot(0, |s.left|, |s.buffer|)
  {
    hide Slot;
    forall u | 0 <= u < |s.procs| && u != t && InSection(s.procs[t]) ensures !InSection(s.procs[u]) {
      Exclusive(s, t, u);
    }
  }

  lemma SlotStep(i: nat, n: nat)
    requires n > 0
    ensures (Slot(0, i, n) + 1) % n == Slot(0, i + 1, n)
  {
    var q := i / n;
    var r := i % n;
    assert i == q * n + r;
    if r + 1 < n {
      RemainderUnique(i + 1, n, q, r + 1);
      RemainderUnique(r + 1, n, 0, r + 1);
    } else {
      RemainderUnique(i + 1, n, q + 1, 0);
      RemainderUnique(r + 1, n, 1, 0);
    }
  }

  /** A write overwrites no unread item; a read takes the oldest one. */
  lemma StoredKept(s: State, t: nat, item: int)
    requires Inv(s) && Ready(s, t)
    ensures Stored(Advance(s, t, item))
  {
    InPlace(s, t);
    Room(s, t);
    var n := |s.buffer|;
    forall i | |s.left| <= i < |s.entered| && |s.entered| - |s.left| < n
      ensures Slot(0, i, n) != Slot(0, |s.entered|, n)
    {
      SlotsDistinct(0, i, |s.entered|, n);
    }
    hide IndicesOk, CountsOk, Slot, IsLine;
  }

  lemma Alone(s: State, t: nat)
    requires CountsOk(s) && t < |s.procs| && InSection(s.procs[t])
    ensures forall u :: 0 <= u < |s.procs| && u != t ==> s.procs[u] != Producer(25) && s.procs[u] != Consumer(17)
  {
    forall u | 0 <= u < |s.procs| && u != t ensures s.procs[u] != Producer(25) && s.procs[u] != Consumer(17) {
      Exclusive(s, t, u);
    }
  }

  lemma InKept(s: State, t: nat, item: int)
    requires s.buffer != [] && CountsOk(s) && InOk(s) && Ready(s, t) && IsLine(s.procs[t])
    ensures InOk(Advance(s, t, item))
  {
    var s' := Advance(s, t, item);
    if s.procs[t] == Producer(23) || s.procs[t] == Producer(25) {
      Alone(s, t);
      SlotStep(|s.entered| - (if |s.entered| > 0 then 1 else 0), |s.buffer|);
      assert s'.procs[t] == if s.procs[t] == Producer(23) then Producer(25) else Producer(27);
      hide CountsOk, Slot;
      assert forall u :: 0 <= u < |s.procs| && u != t ==> s'.procs[u] == s.procs[u];
    } else {
      hide CountsOk, Slot;
      assert s'.inn == s.inn && s'.entered == s.entered;
      SameWhere(s.procs, s'.procs, t, Producer(25));
      hide Advance, Ready, IsLine;
    }
  }

  lemma OutKept(s: State, t: nat, item: int)
    requires s.buffer != [] && CountsOk(s) && OutOk(s) && Ready(s, t) && IsLine(s.procs[t])
    ensures OutOk(Advance(s, t, item))
  {
    var s' := Advance(s, t, item);
    if s.procs[t] == Consumer(14) || s.procs[t] == Consumer(17) {
      Alone(s, t);
      SlotStep(|s.left| - (if |s.left| > 0 then 1 else 0), |s.buffer|);
      assert s'.procs[t] == if s.procs[t] == Consumer(14) then Consumer(17) else Consumer(19);
      hide CountsOk, Slot;
      assert forall u :: 0 <= u < |s.procs| && u != t ==> s'.procs[u] == s.procs[u];
    } else {
      hide CountsOk, Slot;
      assert s'.out == s.out && s'.left == s.left;
      SameWhere(s.procs, s'.procs, t, Consumer(17));
      hide Advance, Ready, IsLine;
    }
  }

  lemma SameWhere(procs: seq<Proc>, procs': seq<Proc>, t: nat, where: Proc)
    requires t < |procs| == |procs'| && procs' == procs[t := procs'[t]] && procs'[t] != where && procs[t] != where
    ensures (exists u :: 0 <= u < |procs'| && procs'[u] == where)
            <==> (exists u :: 0 <= u < |procs| && procs[u] == where)
  {
    if u :| 0 <= u < |procs| && procs[u] == where {
      assert procs'[u] == where;
    }
  }

  /** Every step of every process keeps the invariant. */
  lemma StepKeepsInv(s: State, t: nat, item: int)
    requires Inv(s) && Ready(s, t)
    ensures Inv(Advance(s, t, item))
  {
    StoredKept(s, t, item);
    InKept(s, t, item);
    OutKept(s, t, item);
    CountsKept(s, t, item);
    LinesKept(s, t, item);
  }

  lemma LinesKept(s: State, t: nat, item: int)
    requires s.buffer != [] && Ready(s, t) && forall u :: 0 <= u < |s.procs| ==> IsLine(s.procs[u])
    ensures var s' := Advance(s, t, item); forall u :: 0 <= u < |s'.procs| ==> IsLine(s'.procs[u])
  {
    var s' := Advance(s, t, item);
    assert IsLine(s'.procs[t]);
    assert forall u :: 0 <= u < |s.procs| && u != t ==> s'.procs[u] == s.procs[u];
  }

  // ---------- main results ----------

  predicate IsRun(states: seq<State>, movers: seq<nat>, items: seq<int>) {
    && |states| == |movers| + 1 == |items| + 1
    && Init(states[0])
    && forall i :: 0 <= i < |movers| ==>
         states[i].buffer != [] && Ready(states[i], movers[i])
             && states[i + 1] == Advance(states[i], movers[i], items[i])
  }

  lemma {:induction false} RunKeepsInv(states: seq<State>, movers: seq<nat>, items: seq<int>, n: nat)
    requires IsRun(states, movers, items) && n < |states|
    ensures Inv(states[n])
  {
    if n == 0 {
      InitInv(states[0]);
    } else {
      RunKeepsInv(states, movers, items, n - 1);
      hide Inv;
      StepKeepsInv(states[n - 1], movers[n - 1], items[n - 1]);
    }
  }

  /** What the producers have produced in the first n steps, in order: the item of each write. */
  function Produced(states: seq<State>, movers: seq<nat>, items: seq<int>, n: nat): seq<int>
    requires n <= |movers| == |items| && n < |states|
  {
    if n == 0 then []
    else
      Produced(states, movers, items, n - 1) +
      if movers[n - 1] < |states[n - 1].procs| && states[n - 1].procs[movers[n - 1]] == Producer(23)
      then [items[n - 1]] else []
  }

  /** What the consumers have read in the first n steps, in order: the buffer at out. */
  function Consumed(states: seq<State>, movers: seq<nat>, n: nat): seq<int>
    requires n <= |movers| && n < |states|
  {
    if n == 0 then []
    else
      var s := states[n - 1];
      Consumed(states, movers, n - 1) +
      if movers[n - 1] < |s.procs| && s.procs[movers[n - 1]] == Consumer(14) && s.out < |s.buffer|
      then [s.buffer[s.out]] else []
  }

  lemma OneObserved(s: State, t: nat, item: int)
    requires Ready(s, t) && s.buffer != []
    ensures Advance(s, t, item).entered == s.entered + if s.procs[t] == Producer(23) then [item] else []
    ensures s.procs[t] == Consumer(14) ==> s.out < |s.buffer|
    ensures Advance(s, t, item).left == s.left + if s.procs[t] == Consumer(14) then [s.buffer[s.out]] else []
  {
  }

  lemma {:induction false} Observed(states: seq<State>, movers: seq<nat>, items: seq<int>, n: nat)
    requires IsRun(states, movers, items) && n < |states|
    ensures states[n].entered == Produced(states, movers, items, n)
    ensures states[n].left == Consumed(states, movers, n)
  {
    if n > 0 {
      Observed(states, movers, items, n - 1);
      var s, t := states[n - 1], movers[n - 1];
      assert states[n - 1 + 1] == Advance(s, t, items[n - 1]) && Ready(s, t);
      OneObserved(s, t, items[n - 1]);
      hide IsRun, Advance, Ready;
    }
  }

  /** Over every run, what the consumers have read is what the producers have produced, up to a prefix: no item is lost,
      doubled, invented or overtaken. */
  lemma ReadAsProduced(states: seq<State>, movers: seq<nat>, items: seq<int>, n: nat)
    requires IsRun(states, movers, items) && n < |states|
    ensures Consumed(states, movers, n) <= Produced(states, movers, items, n)
    ensures |Produced(states, movers, items, n)| - |Consumed(states, movers, n)| <= |states[n].buffer|
  {
    Observed(states, movers, items, n);
    RunKeepsInv(states, movers, items, n);
  }

  /** The processes between their first wait and their last post. */
  predicate Between(p: Proc) {
    OwesEmpty(p) || OwesFull(p)
  }

  function BetweenOf(): Proc -> nat { p => One(Between(p)) }

  lemma {:induction false} BetweenSplits(procs: seq<Proc>)
    ensures Sum(BetweenOf(), procs) == Sum(EmptyOf(), procs) + Sum(FullOf(), procs)
  {
    if procs != [] {
      BetweenSplits(procs[1..]);
    }
  }

  /** In every reachable state: empty + full + the processes between wait and post is the buffer size; items leave
      in the order they entered; the buffer holds the others, never more than fit, none overwritten. */
  lemma BufferIsFifo(states: seq<State>, movers: seq<nat>, items: seq<int>, n: nat)
    requires IsRun(states, movers, items) && n < |states|
    ensures var s := states[n];
            && s.empty + s.full + Sum(BetweenOf(), s.procs) == |s.buffer|
            && s.left <= s.entered && |s.entered| - |s.left| <= |s.buffer|
            && (forall i :: |s.left| <= i < |s.entered| ==>
                  s.buffer != [] && s.buffer[Slot(0, i, |s.buffer|)] == s.entered[i])
  {
    RunKeepsInv(states, movers, items, n);
    BetweenSplits(states[n].procs);
  }

  /** No deadlock: as long as there is a producer and a consumer, some process can step. */
  lemma NoDeadlock(s: State, p: nat, c: nat) returns (t: nat)
    requires Inv(s) && p < |s.procs| && c < |s.procs| && s.procs[p].Producer? && s.procs[c].Consumer?
    ensures Ready(s, t)
  {
    if s.mutex == 0 {
      t := SumWitness(SectionOf(), s.procs);
      Bounds(s);
    } else if s.empty > 0 && s.procs[p] == Producer(20) {
      t := p;
    } else if s.full > 0 && s.procs[c] == Consumer(11) {
      t := c;
    } else if s.procs[p] != Producer(20) {
      t := p;
      Bounds(s);
    } else if s.procs[c] != Consumer(11) {
      t := c;
      Bounds(s);
    } else {
      assert s.empty == 0 && s.full == 0;
      BetweenSplits(s.procs);
      t := SumWitness(BetweenOf(), s.procs);
      Bounds(s);
    }
  }

  lemma Bounds(s: State)
    requires Inv(s)
    ensures forall t :: 0 <= t < |s.procs| && s.procs[t] == Producer(23) ==> s.inn < |s.buffer|
    ensures forall t :: 0 <= t < |s.procs| && s.procs[t] == Consumer(14) ==> s.out < |s.buffer|
  {
    forall t | 0 <= t < |s.procs|
      ensures (s.procs[t] == Producer(23) ==> s.inn < |s.buffer|) && (s.procs[t] == Consumer(14) ==> s.out < |s.buffer|)
    {
      InPlace(s, t);
    }
  }
}
