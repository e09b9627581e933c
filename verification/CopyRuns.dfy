/** Whole runs of the copier: the program fills its window before it waits, and the kernel moves and completes
    operations in any order it likes. */
module CopyRuns {
  import opened Counting
  import opened CopyRing
  import opened CopyWritten

  /** The program starts a read, the kernel moves an operation's data or only its first n bytes, the program reaps a
      completion. */
  datatype Event = Fill | Transfer(k: nat) | Cut(k: nat, n: nat) | Collect(k: nat)

  predicate Can(job: Job, s: Copy, e: Event) {
    match e
    case Fill => CanIssue(job, s) && s.finished < |job.src|
    case Transfer(k) => CanMove(job, s, k)
    case Cut(k, n) => CanCut(job, s, k, n)
    case Collect(k) => CanReap(s, k) && !CanIssue(job, s) && s.finished < |job.src|
  }

  function Do(job: Job, s: Copy, e: Event): Copy
    requires Can(job, s, e)
  {
    match e
    case Fill => Issue(job, s)
    case Transfer(k) => Move(job, s, k)
    case Cut(k, n) => CopyRing.Cut(job, s, k, n)
    case Collect(k) => Reap(s, k)
  }

  /** The events, in that order, turn s into s'. */
  ghost predicate Leads(job: Job, s: Copy, events: seq<Event>, s': Copy)
    decreases |events|
  {
    if events == [] then s == s' else Can(job, s, events[0]) && Leads(job, Do(job, s, events[0]), events[1..], s')
  }

  /** Every read of the run is started in a slot that no operation in flight uses. */
  ghost predicate IdleFills(job: Job, s: Copy, events: seq<Event>)
    decreases |events|
  {
    events == [] ||
    (Can(job, s, events[0]) && (events[0].Fill? ==> SlotIdle(s, s.tail))
        && IdleFills(job, Do(job, s, events[0]), events[1..]))
  }

  /** Every write completes when its operation is the oldest; reads complete in any order. */
  ghost predicate InTurnRun(job: Job, s: Copy, events: seq<Event>)
    decreases |events|
  {
    events == [] ||
    (Can(job, s, events[0]) && (events[0].Collect? ==> InTurn(s, events[0].k))
        && InTurnRun(job, Do(job, s, events[0]), events[1..]))
  }

  /** No transfer was short and none failed. */
  predicate Full(events: seq<Event>) {
    forall i :: 0 <= i < |events| ==> !events[i].Cut?
  }

  lemma FullRest(events: seq<Event>)
    requires events != []
    ensures Full(events) <==> !events[0].Cut? && Full(events[1..])
  {
    assert forall i :: 1 <= i < |events| ==> events[i] == events[1..][i - 1];
  }

  /** The loop has ended. */
  predicate Exited(job: Job, s: Copy) {
    s.finished >= |job.src|
  }

  lemma LeadsEvent(job: Job, s: Copy, e: Event, events: seq<Event>, s': Copy)
    requires Can(job, s, e) && Leads(job, Do(job, s, e), events, s')
    ensures Leads(job, s, [e] + events, s')
  {
    assert ([e] + events)[1..] == events;
  }

  lemma {:induction false} LeadsOn(job: Job, s: Copy, a: seq<Event>, s': Copy, b: seq<Event>, s'': Copy)
    requires Leads(job, s, a, s') && Leads(job, s', b, s'')
    ensures Leads(job, s, a + b, s'')
    decreases |a|
  {
    hide Can, Do;
    if a == [] {
      assert a + b == b;
    } else {
      LeadsOn(job, Do(job, s, a[0]), a[1..], s', b, s'');
      assert (a + b)[1..] == a[1..] + b;
    }
  }

  /** One event at the end. */
  lemma LeadsTo(job: Job, s: Copy, events: seq<Event>, s': Copy, e: Event)
    requires Leads(job, s, events, s') && Can(job, s', e)
    ensures Leads(job, s, events + [e], Do(job, s', e))
  {
    hide Can, Do;
    LeadsEvent(job, s', e, [], Do(job, s', e));
    assert [e] + [] == [e];
    LeadsOn(job, s, events, s', [e], Do(job, s', e));
  }

  lemma {:induction false} IdleTo(job: Job, s: Copy, events: seq<Event>, s': Copy, e: Event)
    requires Leads(job, s, events, s') && Can(job, s', e)
    ensures IdleFills(job, s, events + [e]) <==> IdleFills(job, s, events) && (e.Fill? ==> SlotIdle(s', s'.tail))
    decreases |events|
  {
    hide Can, Do, SlotIdle;
    if events == [] {
      assert IdleFills(job, Do(job, s', e), []);
      assert ([e])[1..] == [] && events + [e] == [e];
    } else {
      IdleTo(job, Do(job, s, events[0]), events[1..], s', e);
      assert (events + [e])[1..] == events[1..] + [e];
    }
  }

  // ---------- every run, also when busy slots are filled and transfers are short ----------

  predicate OpRuns(job: Job, op: Op) {
    && op.slot < job.concurrency && op.len <= job.bufsize && (op.done || op.len > 0)
    && if op.read then op.offset + op.len <= |job.src| else op.offset <= |job.src|
  }

  /** The bytes asked for that are neither counted nor in flight. */
  function Lost(s: Copy): int {
    s.next - s.finished - InFlightBytes(s)
  }

  /** What holds in every run. */
  predicate Running(job: Job, s: Copy) {
    && Valid(job) && |s.reqs| == |s.bufs| == job.concurrency && s.tail < job.concurrency
    && (forall i :: 0 <= i < |s.bufs| ==> |s.bufs[i]| == job.bufsize)
    && (forall i :: 0 <= i < |s.reqs| ==> s.reqs[i].offset <= |job.src|)
    && (forall i :: 0 <= i < |s.ops| ==> OpRuns(job, s.ops[i]))
    && |s.dst| >= |job.src| && s.next <= |job.src| && s.inflight == |s.ops| <= job.concurrency
    && Lost(s) >= 0 && (Lost(s) == 0 ==> forall i :: 0 <= i < |s.ops| ==> s.ops[i].len > 0)
  }

  function ReadOf(): Req -> nat {
    (r: Req) => if r.isRead then 1 else 0
  }

  function StepsOf(): Op -> nat {
    (op: Op) => if op.done then 1 else 2
  }

  /** An upper bound on the events to come: five for each byte not asked for, those of the operations in flight, and two
      for each slot that waits for a read. */
  function Left(job: Job, s: Copy): int {
    5 * (|job.src| - s.next) + Sum(StepsOf(), s.ops) + 2 * Sum(ReadOf(), s.reqs)
  }

  lemma StartRuns(job: Job)
    requires Valid(job)
    ensures Running(job, Start(job)) && Lost(Start(job)) == 0 && Left(job, Start(job)) == 5 * |job.src|
  {
    SumZero(ReadOf(), Start(job).reqs);
  }

  lemma IssueRuns(job: Job, s: Copy)
    requires Running(job, s) && CanIssue(job, s)
    ensures Running(job, Issue(job, s)) && Lost(Issue(job, s)) == Lost(s)
    ensures Left(job, Issue(job, s)) < Left(job, s)
  {
    var s' := Issue(job, s);
    SumAppend(LenOf(), s.ops, s'.ops[|s.ops|]);
    SumAppend(StepsOf(), s.ops, s'.ops[|s.ops|]);
    SumUpdate(ReadOf(), s.reqs, s.tail, s'.reqs[s.tail]);
  }

  lemma MoveRuns(job: Job, s: Copy, k: nat)
    requires Running(job, s) && k < |s.ops| && !s.ops[k].done
    ensures CanMove(job, s, k) && Running(job, Move(job, s, k)) && Lost(Move(job, s, k)) == Lost(s)
    ensures Left(job, Move(job, s, k)) < Left(job, s)
  {
    assert OpRuns(job, s.ops[k]);
    SumUpdate(LenOf(), s.ops, k, s.ops[k].(done := true));
    SumUpdate(StepsOf(), s.ops, k, s.ops[k].(done := true));
  }

  /** A transfer that is cut loses the bytes it does not move, for ever. */
  lemma CutRuns(job: Job, s: Copy, k: nat, n: nat)
    requires Running(job, s) && k < |s.ops| && !s.ops[k].done && n < s.ops[k].len
    ensures CanCut(job, s, k, n) && Running(job, CopyRing.Cut(job, s, k, n))
    ensures Lost(CopyRing.Cut(job, s, k, n)) == Lost(s) + s.ops[k].len - n
    ensures Left(job, CopyRing.Cut(job, s, k, n)) < Left(job, s)
  {
    assert OpRuns(job, s.ops[k]);
    var op := s.ops[k].(len := n, done := true);
    assert Shortened(s, k, n).ops[k := op] == s.ops[k := op];
    SumUpdate(LenOf(), s.ops, k, op);
    SumUpdate(StepsOf(), s.ops, k, op);
  }

  lemma ReapRuns(job: Job, s: Copy, k: nat)
    requires Running(job, s) && k < |s.ops| && s.ops[k].done
    ensures CanReap(s, k) && Running(job, Reap(s, k)) && Lost(Reap(s, k)) == Lost(s)
    ensures Left(job, Reap(s, k)) < Left(job, s)
  {
    var op := s.ops[k];
    assert OpRuns(job, op);
    hide Running, Left, Lost;
    if s.reqs[op.slot].isRead && op.len > 0 {
      ReadTurns(job, s, k);
    } else {
      OpLeaves(job, s, k);
    }
  }

  lemma ReadTurns(job: Job, s: Copy, k: nat)
    requires Running(job, s) && k < |s.ops| && s.ops[k].done && s.ops[k].len > 0 && s.ops[k].slot < |s.reqs|
    requires s.reqs[s.ops[k].slot].isRead
    ensures CanReap(s, k) && Running(job, Reap(s, k)) && Lost(Reap(s, k)) == Lost(s)
    ensures Left(job, Reap(s, k)) < Left(job, s)
  {
    var op := s.ops[k];
    assert OpRuns(job, op);
    var s' := Reap(s, k);
    SumUpdate(LenOf(), s.ops, k, s'.ops[k]);
    SumUpdate(StepsOf(), s.ops, k, s'.ops[k]);
    SumUpdate(ReadOf(), s.reqs, op.slot, s'.reqs[op.slot]);
  }

  lemma OpLeaves(job: Job, s: Copy, k: nat)
    requires Running(job, s) && k < |s.ops| && s.ops[k].done && s.ops[k].slot < |s.reqs|
    requires !s.reqs[s.ops[k].slot].isRead || s.ops[k].len == 0
    ensures CanReap(s, k) && Running(job, Reap(s, k)) && Lost(Reap(s, k)) == Lost(s)
    ensures Left(job, Reap(s, k)) < Left(job, s)
  {
    var s' := Reap(s, k);
    SumRemove(LenOf(), s.ops, k);
    SumRemove(StepsOf(), s.ops, k);
    assert forall i :: 0 <= i < |s'.ops| ==> s'.ops[i] == s.ops[if i < k then i else i + 1];
  }

  lemma StepRuns(job: Job, s: Copy, e: Event)
    requires Running(job, s) && Can(job, s, e)
    ensures Running(job, Do(job, s, e)) && Left(job, Do(job, s, e)) < Left(job, s)
    ensures if e.Cut? then Lost(Do(job, s, e)) > Lost(s) else Lost(Do(job, s, e)) == Lost(s)
  {
    hide Running, Left, Lost;
    match e
    case Fill => IssueRuns(job, s);
    case Transfer(k) => MoveRuns(job, s, k);
    case Cut(k, n) => CutRuns(job, s, k, n);
    case Collect(k) => ReapRuns(job, s, k);
  }

  lemma {:induction false} RunRuns(job: Job, s: Copy, events: seq<Event>, s': Copy)
    requires Running(job, s) && Leads(job, s, events, s')
    ensures Running(job, s') && |events| <= Left(job, s) - Left(job, s')
    ensures if Full(events) then Lost(s') == Lost(s) else Lost(s') > Lost(s)
    decreases |events|
  {
    hide Running, Can, Do, Left, Lost;
    if events != [] {
      FullRest(events);
      hide Full;
      StepRuns(job, s, events[0]);
      RunRuns(job, Do(job, s, events[0]), events[1..], s');
    }
  }

  /** The program waits for a completion, everything is asked for, and nothing is in flight: it waits for ever. */
  predicate Stalled(job: Job, s: Copy) {
    s.finished < |job.src| && s.next == |job.src| && s.ops == []
  }

  /** Whatever the order and whatever the transfers, a run that has not come to an end can go on. */
  lemma GoesOn(job: Job, s: Copy) returns (e: Event)
    requires Running(job, s) && !Exited(job, s) && !Stalled(job, s)
    ensures Can(job, s, e)
  {
    if CanIssue(job, s) {
      e := Fill;
    } else if s.ops[0].done {
      e := Collect(0);
      ReapRuns(job, s, 0);
    } else {
      e := Transfer(0);
      MoveRuns(job, s, 0);
    }
  }

  lemma NothingInFlight(job: Job, s: Copy)
    requires Running(job, s)
    ensures s.ops == [] ==> Lost(s) == s.next - s.finished
    ensures Exited(job, s) ==> s.finished == |job.src| && Lost(s) == 0 && s.ops == []
  {
    if s.ops != [] {
      SumAtLeast(LenOf(), s.ops, 0);
      assert LenOf()(s.ops[0]) == s.ops[0].len;
    }
  }

  /** In every order and with every choice of short and failed transfers the loop comes to an end, and it ends exactly
      if all transfers were full: otherwise it comes to wait with nothing in flight. */
  lemma EndsExactly(job: Job, events: seq<Event>, s: Copy)
    requires Valid(job) && Leads(job, Start(job), events, s)
    ensures |events| <= 5 * |job.src|
    ensures Exited(job, s) ==> Full(events)
    ensures Stalled(job, s) ==> !Full(events)
    ensures Exited(job, s) || Stalled(job, s) <==> forall e :: !Can(job, s, e)
  {
    hide Leads, Start;
    StartRuns(job);
    RunRuns(job, Start(job), events, s);
    hide Full;
    LeftNatural(job, s);
    NothingInFlight(job, s);
    assert Exited(job, s) || Stalled(job, s) ==> forall e :: !Can(job, s, e);
    hide Can;
    hide Running, Left, Lost;
    if !Exited(job, s) && !Stalled(job, s) {
      var e := GoesOn(job, s);
    }
  }

  lemma LeftNatural(job: Job, s: Copy)
    requires Running(job, s)
    ensures Left(job, s) >= 0
  {
  }

  // ---------- a run that fills only idle slots copies ----------

  lemma StepKeepsInv(job: Job, s: Copy, e: Event)
    requires Inv(job, s) && Can(job, s, e) && !e.Cut? && (e.Fill? ==> SlotIdle(s, s.tail))
    ensures Inv(job, Do(job, s, e))
  {
    match e
    case Fill => IssueKeepsInv(job, s);
    case Transfer(k) => MoveKeepsInv(job, s, k);
    case Collect(k) => ReapKeepsInv(job, s, k);
  }

  lemma {:induction false} IdleRunKeepsInv(job: Job, s: Copy, events: seq<Event>, s': Copy)
    requires Inv(job, s) && Leads(job, s, events, s') && Full(events) && IdleFills(job, s, events)
    ensures Inv(job, s')
    decreases |events|
  {
    hide Inv, Can, Do, SlotIdle;
    if events != [] {
      FullRest(events);
      hide Full;
      StepKeepsInv(job, s, events[0]);
      IdleRunKeepsInv(job, Do(job, s, events[0]), events[1..], s');
    }
  }

  /** Every run that starts its reads in idle slots only and exits has copied the file and has nothing in flight,
      whatever the order of transfers and completions and however short they could have been. */
  lemma IdleFillsCopy(job: Job, events: seq<Event>, s: Copy)
    requires Valid(job) && Leads(job, Start(job), events, s) && IdleFills(job, Start(job), events) && Exited(job, s)
    ensures s.dst == job.src && s.finished == |job.src| && s.ops == []
  {
    StartInv(job);
    hide Inv, Leads, IdleFills, Full;
    EndsExactly(job, events, s);
    IdleRunKeepsInv(job, Start(job), events, s);
    AllCopied(job, s);
  }

  // ---------- what is written when transfers are short ----------

  /** As many places of the destination are right as bytes were counted; where a write has not landed either, it is
      still zero. */
  ghost predicate DeliveredAt(job: Job, s: Copy, w: set<nat>) {
    && |s.dst| == |job.src| && |w| == s.finished
    && (forall at :: at in w ==> at < |job.src| && s.dst[at] == job.src[at])
    && forall at :: 0 <= at < |job.src| && at !in w && !Landed(s.ops, at) ==> s.dst[at] == 0
  }

  ghost predicate Delivered(job: Job, s: Copy) {
    exists w: set<nat> :: DeliveredAt(job, s, w)
  }

  lemma StepKeepsWritten(job: Job, s: Copy, w: set<nat>, e: Event) returns (w': set<nat>)
    requires WrittenInv(job, s, w) && Can(job, s, e) && (e.Fill? ==> SlotIdle(s, s.tail))
    ensures WrittenInv(job, Do(job, s, e), w')
  {
    hide WrittenInv, SlotIdle;
    w' := w;
    match e
    case Fill => IssueWritten(job, s, w);
    case Transfer(k) => MoveWritten(job, s, w, k);
    case Cut(k, n) => CutWritten(job, s, w, k, n);
    case Collect(k) => ReapWritten(job, s, w, k); w' := WithReaped(s, k, w);
  }

  lemma {:induction false} RunKeepsWritten(job: Job, s: Copy, w: set<nat>, events: seq<Event>, s': Copy)
    returns (w': set<nat>)
    requires WrittenInv(job, s, w) && Leads(job, s, events, s') && IdleFills(job, s, events)
    ensures WrittenInv(job, s', w')
    decreases |events|
  {
    hide WrittenInv, Can, Do, SlotIdle;
    w' := w;
    if events != [] {
      w' := StepKeepsWritten(job, s, w, events[0]);
      w' := RunKeepsWritten(job, Do(job, s, events[0]), w', events[1..], s');
    }
  }

  /** In every run that starts its reads in idle slots only, whatever was short or failed, the bytes counted are bytes
      written: that many places of the destination are right, and no other has been touched but by writes that have
      completed and not been reaped. */
  lemma CountedIsWritten(job: Job, events: seq<Event>, s: Copy)
    requires Valid(job) && Leads(job, Start(job), events, s) && IdleFills(job, Start(job), events)
    ensures Delivered(job, s)
  {
    StartWritten(job);
    hide Leads, IdleFills, Start;
    var w := RunKeepsWritten(job, Start(job), {}, events, s);
    assert DeliveredAt(job, s, w);
  }

  /** Whenever the program waits, the window is full or the whole file is asked for. */
  lemma WaitsFull(job: Job, events: seq<Event>, s: Copy, k: nat)
    requires Valid(job) && Leads(job, Start(job), events, s) && Can(job, s, Collect(k))
    ensures |s.ops| == job.concurrency || s.next == |job.src|
  {
    hide Leads, Start;
    StartRuns(job);
    RunRuns(job, Start(job), events, s);
  }

  lemma StepKeepsOrder(job: Job, s: Copy, e: Event)
    requires Inv(job, s) && InOrder(job, s) && Can(job, s, e) && !e.Cut? && (e.Collect? ==> InTurn(s, e.k))
    ensures Inv(job, Do(job, s, e)) && InOrder(job, Do(job, s, e)) && (e.Fill? ==> SlotIdle(s, s.tail))
  {
    match e
    case Fill => OrderMakesIdle(job, s); IssueKeepsOrder(job, s);
    case Transfer(k) => MoveKeepsInv(job, s, k); hide Inv, Can;
    case Collect(k) => ReapKeepsOrder(job, s, k);
  }

  /** Slots that retire in ring order are idle when they are filled again. */
  lemma {:induction false} InTurnFillsIdle(job: Job, s: Copy, events: seq<Event>)
    requires Inv(job, s) && InOrder(job, s) && InTurnRun(job, s, events) && Full(events)
    ensures IdleFills(job, s, events)
    decreases |events|
  {
    hide Inv, InOrder, Can, Do, SlotIdle;
    if events != [] {
      FullRest(events);
      hide Full;
      StepKeepsOrder(job, s, events[0]);
      InTurnFillsIdle(job, Do(job, s, events[0]), events[1..]);
    }
  }

  // ---------- jobs that copy whatever the order ----------

  /** One slot, or a slot for every block. */
  predicate Small(job: Job) {
    job.concurrency == 1 || |job.src| <= job.concurrency * job.bufsize
  }

  /** f reads have been started, and the slots from f on have not been used. */
  predicate Early(job: Job, s: Copy, f: nat) {
    && f <= job.concurrency && s.next == (if f * job.bufsize <= |job.src| then f * job.bufsize else |job.src|)
    && (f < job.concurrency ==> s.tail == f)
    && forall i :: 0 <= i < |s.ops| ==> s.ops[i].slot < f
  }

  /** What every run keeps in a small job. */
  ghost predicate SmallOk(job: Job, s: Copy) {
    job.concurrency == 1 || exists f: nat :: Early(job, s, f)
  }

  lemma SmallIsIdle(job: Job, s: Copy)
    requires Small(job) && SmallOk(job, s) && Running(job, s) && CanIssue(job, s)
    ensures SlotIdle(s, s.tail)
  {
    if job.concurrency != 1 {
      var f: nat :| Early(job, s, f);
    }
  }

  lemma SmallKept(job: Job, s: Copy, e: Event)
    requires Valid(job) && Small(job) && SmallOk(job, s) && Can(job, s, e)
    ensures SmallOk(job, Do(job, s, e))
  {
    if job.concurrency != 1 {
      var f: nat :| Early(job, s, f);
      match e
      case Fill => EarlyFilled(job, s, f);
      case Transfer(k) => assert Early(job, Move(job, s, k), f);
      case Cut(k, n) => assert Early(job, CopyRing.Cut(job, s, k, n), f);
      case Collect(k) => assert Early(job, Reap(s, k), f) by { EarlyReaped(job, s, k, f); }
    }
  }

  lemma EarlyFilled(job: Job, s: Copy, f: nat)
    requires Valid(job) && Small(job) && job.concurrency != 1 && Early(job, s, f) && CanIssue(job, s)
    ensures f < job.concurrency && Early(job, Issue(job, s), f + 1)
  {
    var p, q := f * job.bufsize, (f + 1) * job.bufsize;
    Blocks(f, job.concurrency, job.bufsize);
    assert s.next == p && p < |job.src|;
    Wrap(s.tail, job.concurrency);
  }

  lemma Blocks(f: nat, n: nat, b: nat)
    ensures (f + 1) * b == f * b + b && (f >= n ==> f * b >= n * b)
  {
  }

  lemma EarlyReaped(job: Job, s: Copy, k: nat, f: nat)
    requires Early(job, s, f) && CanReap(s, k)
    ensures Early(job, Reap(s, k), f)
  {
    var s' := Reap(s, k);
    assert |s'.ops| < |s.ops| ==> forall i :: 0 <= i < |s'.ops| ==> s'.ops[i] == s.ops[if i < k then i else i + 1];
  }

  lemma {:induction false} SmallRunIdle(job: Job, s: Copy, events: seq<Event>, s': Copy)
    requires Small(job) && Running(job, s) && SmallOk(job, s) && Leads(job, s, events, s')
    ensures IdleFills(job, s, events)
    decreases |events|
  {
    if events != [] {
      var e := events[0];
      assert Valid(job);
      if e.Fill? {
        SmallIsIdle(job, s);
      }
      hide Running, Can, Do, Small, SmallOk, SlotIdle;
      SmallKept(job, s, e);
      StepRuns(job, s, e);
      SmallRunIdle(job, Do(job, s, e), events[1..], s');
    }
  }

  /** With one slot, or a slot for every block, every read is started in an idle slot, whatever was short or failed. */
  lemma SmallFillsIdle(job: Job, events: seq<Event>, s: Copy)
    requires Valid(job) && Small(job) && Leads(job, Start(job), events, s)
    ensures IdleFills(job, Start(job), events)
  {
    StartRuns(job);
    assert Early(job, Start(job), 0);
    hide Leads, IdleFills, Start, Running;
    SmallRunIdle(job, Start(job), events, s);
  }

  /** With one slot, or a slot for every block, every order of completions copies the file. */
  lemma SmallCopies(job: Job, events: seq<Event>, s: Copy)
    requires Valid(job) && Small(job) && Leads(job, Start(job), events, s) && Exited(job, s)
    ensures s.dst == job.src && s.finished == |job.src| && s.ops == []
  {
    hide *;
    SmallFillsIdle(job, events, s);
    IdleFillsCopy(job, events, s);
  }

  // ---------- the copy loop, for every order ----------

  /** The kernel moves the data of some operations, any of them in any order and as much as it likes, and some
      completion is there, any one. */
  method WaitCqe(job: Job, s: Copy, ghost events: seq<Event>) returns (s': Copy, k: nat, ghost events': seq<Event>)
    requires Running(job, s) && s.ops != [] && Leads(job, Start(job), events, s)
    ensures Running(job, s') && Leads(job, Start(job), events', s') && Left(job, s') <= Left(job, s)
    ensures s'.next == s.next && s'.inflight == s.inflight && s'.finished == s.finished
    ensures k < |s'.ops| && s'.ops[k].done
  {
    hide Leads, Start, Left;
    s', events' := s, events;
    var moves: nat :| moves >= 0;
    while moves > 0
      invariant Running(job, s') && Leads(job, Start(job), events', s') && Left(job, s') <= Left(job, s)
      invariant |s'.ops| == |s.ops| && s'.next == s.next && s'.inflight == s.inflight && s'.finished == s.finished
    {
      var j: nat :| j < |s'.ops|;
      s', events' := KernelMoves(job, s', j, events');
      moves := moves - 1;
    }
    k :| k < |s'.ops|;
    s', events' := KernelMoves(job, s', k, events');
  }

  method KernelMoves(job: Job, s: Copy, j: nat, ghost events: seq<Event>) returns (s': Copy, ghost events': seq<Event>)
    requires Running(job, s) && j < |s.ops| && Leads(job, Start(job), events, s)
    ensures Running(job, s') && Leads(job, Start(job), events', s') && Left(job, s') <= Left(job, s)
    ensures |s'.ops| == |s.ops| && s'.next == s.next && s'.inflight == s.inflight && s'.finished == s.finished
    ensures s'.ops[j].done
  {
    s', events' := s, events;
    if !s.ops[j].done {
      var n: nat :| n <= s.ops[j].len;
      if n == s.ops[j].len {
        MoveRuns(job, s, j);
        hide Leads, Start, Running, Left;
        LeadsTo(job, Start(job), events, s, Transfer(j));
        s', events' := Move(job, s, j), events + [Transfer(j)];
      } else {
        CutRuns(job, s, j, n);
        hide Leads, Start, Running, Left;
        LeadsTo(job, Start(job), events, s, Cut(j, n));
        s', events' := CopyRing.Cut(job, s, j, n), events + [Cut(j, n)];
      }
    }
  }

  /** Lines 81-100: start reads while there is a slot for them; the ring always has a free entry. */
  method FillWindow(job: Job, s: Copy, ghost events: seq<Event>) returns (s': Copy, ghost events': seq<Event>)
    requires Running(job, s) && Leads(job, Start(job), events, s) && s.finished < |job.src|
    ensures Running(job, s') && Leads(job, Start(job), events', s') && Left(job, s') <= Left(job, s)
    ensures !CanIssue(job, s') && s'.finished < |job.src|
  {
    hide Leads, Start, Running, Left;
    s', events' := s, events;
    var entries := job.concurrency * 2 + 8;
    var queued := 0;
    FitsRing(job, s);
    while s'.inflight < job.concurrency && s'.next < |job.src|
      invariant Running(job, s') && Leads(job, Start(job), events', s') && Left(job, s') <= Left(job, s)
      invariant 0 <= queued <= s'.inflight && s'.finished < |job.src|
      decreases |job.src| - s'.next
    {
      FitsRing(job, s');
      if queued == entries {
        break;
      }
      IssueRuns(job, s');
      LeadsTo(job, Start(job), events', s', Fill);
      s', events' := Issue(job, s'), events' + [Fill];
      queued := queued + 1;
    }
    FitsRing(job, s');
  }

  /** main's copy loop.  For every file, number of slots and buffer size, every order in which the kernel moves and
      completes operations, and every choice of short and failed transfers, the ring always has a free entry, and the
      loop ends if all transfers were full and otherwise comes to wait with nothing in flight.  When it ends every byte
      is counted and nothing is in flight, and the destination equals the source if every read was started in an idle
      slot, in particular if writes completed in ring order, and in every order if there is one slot or a slot for every
      block.  Also when it does not end, the bytes counted are then bytes written, and the others are still zero. */
  method CopyFile(job: Job) returns (s: Copy, stalled: bool, ghost events: seq<Event>)
    requires Valid(job)
    ensures Leads(job, Start(job), events, s)
    ensures stalled <==> !Full(events)
    ensures stalled ==> Stalled(job, s)
    ensures !stalled ==> s.finished == |job.src| && s.ops == []
    ensures !stalled && IdleFills(job, Start(job), events) ==> s.dst == job.src
    ensures !stalled && InTurnRun(job, Start(job), events) ==> s.dst == job.src
    ensures !stalled && Small(job) ==> s.dst == job.src
    ensures IdleFills(job, Start(job), events) || Small(job) ==> Delivered(job, s)
  {
    s, events, stalled := Start(job), [], false;
    StartRuns(job);
    assert Leads(job, Start(job), events, s);
    hide *;
    while s.finished < |job.src| && !stalled
      invariant Running(job, s) && Leads(job, Start(job), events, s)
      invariant stalled ==> Stalled(job, s)
      decreases Left(job, s), !stalled
    {
      LeftNatural(job, s);
      hide *;
      s, events := FillWindow(job, s, events);
      if s.ops == [] {
        NothingToDo(job, s);
        stalled := true;
      } else {
        var k;
        s, k, events := WaitCqe(job, s, events);
        ReapRuns(job, s, k);
        LeadsTo(job, Start(job), events, s, Collect(k));
        s, events := Reap(s, k), events + [Collect(k)];
      }
    }
    Outcome(job, events, s, stalled);
  }

  lemma NothingToDo(job: Job, s: Copy)
    requires Running(job, s) && !CanIssue(job, s) && s.finished < |job.src| && s.ops == []
    ensures Stalled(job, s)
  {
    FitsRing(job, s);
  }

  lemma FitsRing(job: Job, s: Copy)
    requires Running(job, s)
    ensures s.inflight <= job.concurrency && s.next <= |job.src| && s.inflight == |s.ops|
    ensures s.inflight < job.concurrency && s.next < |job.src| <==> CanIssue(job, s)
  {
  }

  lemma Outcome(job: Job, events: seq<Event>, s: Copy, stalled: bool)
    requires Running(job, s) && Leads(job, Start(job), events, s)
    requires if stalled then Stalled(job, s) else s.finished >= |job.src|
    ensures stalled <==> !Full(events)
    ensures !stalled ==> s.finished == |job.src| && s.ops == []
    ensures !stalled && IdleFills(job, Start(job), events) ==> s.dst == job.src
    ensures !stalled && InTurnRun(job, Start(job), events) ==> s.dst == job.src
    ensures !stalled && Small(job) ==> s.dst == job.src
    ensures IdleFills(job, Start(job), events) || Small(job) ==> Delivered(job, s)
  {
    StartInv(job);
    assert InOrder(job, Start(job));
    NothingInFlight(job, s);
    hide Leads, IdleFills, InTurnRun, Small, Inv, InOrder, Start, Full, Running, Delivered;
    EndsExactly(job, events, s);
    if Small(job) {
      SmallFillsIdle(job, events, s);
    }
    if IdleFills(job, Start(job), events) {
      CountedIsWritten(job, events, s);
    }
    if !stalled {
      if InTurnRun(job, Start(job), events) {
        InTurnFillsIdle(job, Start(job), events);
      }
      if IdleFills(job, Start(job), events) {
        IdleFillsCopy(job, events, s);
      }
      if Small(job) {
        SmallCopies(job, events, s);
      }
    }
  }
}
