/** Which jobs the copier can spoil: with two slots or more and more than one block for each slot, some file and some
    order of completions leave a wrong destination with every byte counted. */
module CopyLoss {
  import opened Basics
  import opened CopyRing
  import opened CopyRuns

  lemma Product(i: nat, n: nat, b: nat)
    requires i < n
    ensures (i + 1) * b == i * b + b <= n * b && 0 * b == 0 && 1 * b == b
  {
  }

  // ---------- filling and reading every slot ----------

  /** The first f slots have been given the first f blocks; those from k on are still to be read, the others to be
      written, and the kernel has moved none of them. */
  ghost predicate Loaded(job: Job, s: Copy, f: nat, k: nat) {
    && Inv(job, s) && f <= job.concurrency && |s.ops| == f && s.next == f * job.bufsize && s.finished == 0
    && s.tail == (if f == job.concurrency then 0 else f)
    && forall i :: 0 <= i < f ==> s.ops[i] == Op(i >= k, i, i * job.bufsize, job.bufsize, false)
  }

  lemma {:induction false} Fills(job: Job, f: nat) returns (events: seq<Event>, s: Copy)
    requires Valid(job) && |job.src| > job.concurrency * job.bufsize && f <= job.concurrency
    ensures Leads(job, Start(job), events, s) && Loaded(job, s, f, 0)
  {
    if f == 0 {
      events, s := [], Start(job);
      StartInv(job);
    } else {
      events, s := Fills(job, f - 1);
      Product(f - 1, job.concurrency, job.bufsize);
      LoadedFill(job, s, f - 1);
      hide Inv, Start;
      LeadsTo(job, Start(job), events, s, Fill);
      events, s := events + [Fill], Issue(job, s);
    }
  }

  lemma LoadedFill(job: Job, s: Copy, f: nat)
    requires Loaded(job, s, f, 0) && f < job.concurrency && |job.src| > job.concurrency * job.bufsize
    ensures Can(job, s, Fill) && Loaded(job, Issue(job, s), f + 1, 0)
  {
    Product(f, job.concurrency, job.bufsize);
    Wrap(f, job.concurrency);
    hide OpsOk, AllApart, DstOk;
    IssueKeepsInv(job, s);
  }

  lemma {:induction false} Turns(job: Job, s0: Copy, k: nat) returns (events: seq<Event>, s: Copy)
    requires Loaded(job, s0, job.concurrency, 0) && |job.src| > job.concurrency * job.bufsize && k <= job.concurrency
    ensures Leads(job, s0, events, s) && Loaded(job, s, job.concurrency, k)
  {
    if k == 0 {
      events, s := [], s0;
    } else {
      events, s := Turns(job, s0, k - 1);
      TurnsOne(job, s, k - 1);
      hide Inv, Loaded;
      LeadsTo(job, s0, events, s, Transfer(k - 1));
      events, s := events + [Transfer(k - 1)], Move(job, s, k - 1);
      LeadsTo(job, s0, events, s, Collect(k - 1));
      events, s := events + [Collect(k - 1)], Reap(s, k - 1);
    }
  }

  lemma TurnsOne(job: Job, s: Copy, k: nat)
    requires Loaded(job, s, job.concurrency, k) && |job.src| > job.concurrency * job.bufsize && k < job.concurrency
    ensures Can(job, s, Transfer(k)) && Can(job, Move(job, s, k), Collect(k))
    ensures Loaded(job, Reap(Move(job, s, k), k), job.concurrency, k + 1)
  {
    MoveKeepsInv(job, s, k);
    var s1 := Move(job, s, k);
    ReapKeepsInv(job, s1, k);
    assert OpOk(job, s1, s1.ops[k]);
    hide OpsOk, AllApart, DstOk, OpOk;
  }

  // ---------- one write, and one block read into a free slot ----------

  /** The write at place k is done and reaped. */
  function Written(s: Copy, k: nat): Copy
    requires k < |s.ops| && s.ops[k].slot < |s.bufs| && s.ops[k].len <= |s.bufs[s.ops[k].slot]|
    requires s.ops[k].offset <= |s.dst| && s.inflight > 0
  {
    var op := s.ops[k];
    s.(ops := s.ops[..k] + s.ops[k + 1..], dst := Overwrite(s.dst, op.offset, s.bufs[op.slot][..op.len]),
       finished := s.finished + op.len, inflight := s.inflight - 1)
  }

  predicate CanWrite(job: Job, s: Copy, k: nat) {
    && k < |s.ops| && s.ops[k].slot < |s.bufs| == |s.reqs| && s.ops[k].len <= |s.bufs[s.ops[k].slot]|
    && s.ops[k].offset <= |s.dst| && s.inflight == |s.ops| == job.concurrency && s.finished < |job.src|
    && !s.ops[k].read && !s.ops[k].done && !s.reqs[s.ops[k].slot].isRead
  }

  lemma Writes(job: Job, s: Copy, k: nat)
    requires CanWrite(job, s, k)
    ensures Leads(job, s, [Transfer(k), Collect(k)], Written(s, k))
    ensures Inv(job, s) && InOrder(job, s) && k == 0 ==> Inv(job, Written(s, k)) && InOrder(job, Written(s, k))
  {
    var s1 := Move(job, s, k);
    assert s1.ops[..k] + s1.ops[k + 1..] == s.ops[..k] + s.ops[k + 1..];
    assert Reap(s1, k) == Written(s, k);
    LeadsTo(job, s, [], s, Transfer(k));
    assert [] + [Transfer(k)] == [Transfer(k)];
    LeadsTo(job, s, [Transfer(k)], s1, Collect(k));
    assert [Transfer(k)] + [Collect(k)] == [Transfer(k), Collect(k)];
    if Inv(job, s) && InOrder(job, s) && k == 0 {
      StepKeepsOrder(job, s, Transfer(k));
      hide Inv, InOrder;
      StepKeepsOrder(job, s1, Collect(k));
    }
  }

  /** The next block has been read into the slot at tail and its write submitted. */
  function Refilled(job: Job, s: Copy): Copy
    requires CanIssue(job, s)
  {
    var size := ChunkSize(job, s.next);
    s.(reqs := s.reqs[s.tail := Req(s.next, size, false)],
       bufs := s.bufs[s.tail := Overwrite(s.bufs[s.tail], 0, job.src[s.next..s.next + size])],
       ops := s.ops + [Op(false, s.tail, s.next, size, false)],
       next := s.next + size, inflight := s.inflight + 1, tail := (s.tail + 1) % job.concurrency)
  }

  predicate CanRefill(job: Job, s: Copy) {
    && CanIssue(job, s) && s.finished < |job.src| && s.inflight == |s.ops| == job.concurrency - 1
    && |s.bufs[s.tail]| == job.bufsize
  }

  function RefillEvents(job: Job): seq<Event>
    requires job.concurrency > 0
  {
    [Fill, Transfer(job.concurrency - 1), Collect(job.concurrency - 1)]
  }

  lemma Refills(job: Job, s: Copy)
    requires CanRefill(job, s)
    ensures Leads(job, s, RefillEvents(job), Refilled(job, s))
    ensures Inv(job, s) && InOrder(job, s) ==> Inv(job, Refilled(job, s)) && InOrder(job, Refilled(job, s))
  {
    var k := job.concurrency - 1;
    var s1 := Issue(job, s);
    var s2 := Move(job, s1, k);
    var s3 := Reap(s2, k);
    assert s3 == Refilled(job, s) by {
      assert s3.reqs == Refilled(job, s).reqs && s3.bufs == Refilled(job, s).bufs && s3.ops == Refilled(job, s).ops;
    }
    assert Can(job, s, Fill) && Can(job, s1, Transfer(k)) && Can(job, s2, Collect(k));
    assert InTurn(s2, k);
    hide Can, Leads, Inv, InOrder, Refilled, CanRefill;
    if Inv(job, s) && InOrder(job, s) {
      StepKeepsOrder(job, s, Fill);
      StepKeepsOrder(job, s1, Transfer(k));
      StepKeepsOrder(job, s2, Collect(k));
    }
    ThreeEvents(job, s, Fill, s1, Transfer(k), s2, Collect(k));
  }

  lemma ThreeEvents(job: Job, s: Copy, a: Event, s1: Copy, b: Event, s2: Copy, c: Event)
    requires Can(job, s, a) && s1 == Do(job, s, a) && Can(job, s1, b) && s2 == Do(job, s1, b) && Can(job, s2, c)
    ensures Leads(job, s, [a, b, c], Do(job, s2, c))
  {
    hide Can, Do;
    LeadsEvent(job, s2, c, [], Do(job, s2, c));
    assert [c] == [c] + [] && [b, c] == [b] + [c] && [a, b, c] == [a] + [b, c];
    LeadsEvent(job, s1, b, [c], Do(job, s2, c));
    LeadsEvent(job, s, a, [b, c], Do(job, s2, c));
  }

  // ---------- finishing, with another file in mind ----------

  /** The two jobs differ only in bytes of the file before x. */
  predicate AgreeFrom(job: Job, other: Job, x: nat) {
    && job.concurrency == other.concurrency && job.bufsize == other.bufsize && |job.src| == |other.src|
    && forall at :: x <= at < |job.src| ==> job.src[at] == other.src[at]
  }

  /** Nothing before x will be read any more. */
  predicate Beyond(s: Copy, x: nat) {
    s.next >= x && forall i :: 0 <= i < |s.ops| && s.ops[i].read ==> s.ops[i].offset >= x
  }

  lemma SameStep(job: Job, other: Job, x: nat, s: Copy, e: Event)
    requires AgreeFrom(job, other, x) && Beyond(s, x) && Can(other, s, e)
    ensures Can(job, s, e) && Do(job, s, e) == Do(other, s, e) && Beyond(Do(job, s, e), x)
  {
    match e
    case Fill => assert Issue(job, s) == Issue(other, s);
    case Transfer(k) => SameMove(job, other, x, s, k); hide *;
    case Cut(k, n) => SameMove(job, other, x, Shortened(s, k, n), k); hide *;
    case Collect(k) => ReapBeyond(s, k, x); hide Beyond;
  }

  lemma SameMove(job: Job, other: Job, x: nat, s: Copy, k: nat)
    requires AgreeFrom(job, other, x) && Beyond(s, x) && CanMove(other, s, k)
    ensures CanMove(job, s, k) && Move(job, s, k) == Move(other, s, k) && Beyond(Move(job, s, k), x)
  {
    var op := s.ops[k];
    if op.read {
      assert job.src[op.offset..op.offset + op.len] == other.src[op.offset..op.offset + op.len];
    }
  }

  lemma ReapBeyond(s: Copy, k: nat, x: nat)
    requires Beyond(s, x) && CanReap(s, k)
    ensures Beyond(Reap(s, k), x)
  {
    var s' := Reap(s, k);
    assert |s'.ops| < |s.ops| ==> forall i :: 0 <= i < |s'.ops| ==> s'.ops[i] == s.ops[if i < k then i else i + 1];
  }

  /** What the program and the kernel do next when the oldest operation always goes first. */
  function NextEvent(job: Job, s: Copy): Event {
    if CanIssue(job, s) then Fill else if s.ops != [] && !s.ops[0].done then Transfer(0) else Collect(0)
  }

  lemma NextInTurn(job: Job, s: Copy)
    requires Inv(job, s) && InOrder(job, s) && s.finished < |job.src|
    ensures var e := NextEvent(job, s); Can(job, s, e) && (e.Collect? ==> InTurn(s, e.k))
    ensures var s' := Do(job, s, NextEvent(job, s));
            && Work(job, s') <= Work(job, s) && s.next <= s'.next <= |job.src|
            && (Work(job, s') == Work(job, s) && s'.next == s.next ==>
                  s.ops != [] && !s.ops[0].done && s'.ops != [] && s'.ops[0].done)
  {
    var e := NextEvent(job, s);
    if e.Fill? {
      IssueWork(job, s);
    } else {
      SomethingInFlight(job, s);
      assert OpOk(job, s, s.ops[0]);
      if e.Transfer? {
        MoveWork(job, s, 0);
      } else {
        ReapWork(job, s, 0);
      }
      hide OpsOk, AllApart, DstOk, Work;
    }
  }

  lemma SomethingInFlight(job: Job, s: Copy)
    requires Inv(job, s) && s.finished < |job.src| && !CanIssue(job, s)
    ensures s.ops != []
  {
    hide OpsOk, AllApart, DstOk;
  }

  predicate NotMoved(s: Copy) {
    s.ops != [] && !s.ops[0].done
  }

  /** From a state that is in order for another file which agrees with ours on all that is still to be read, our run can
      be finished, and leaves the other file. */
  lemma {:induction false} Finishes(job: Job, other: Job, x: nat, s: Copy) returns (events: seq<Event>, s': Copy)
    requires Inv(other, s) && InOrder(other, s) && AgreeFrom(job, other, x) && Beyond(s, x) && s.next <= |job.src|
    ensures Leads(job, s, events, s') && Exited(job, s') && s'.dst == other.src && s'.finished == |job.src|
    ensures s'.ops == []
    decreases Work(other, s), |job.src| - s.next, NotMoved(s)
  {
    if s.finished >= |job.src| {
      AllCopied(other, s);
      events, s' := [], s;
    } else {
      var e := NextEvent(other, s);
      NextInTurn(other, s);
      WorkNatural(other, s);
      hide Inv, InOrder, Can, Do, Work, InTurn, NextEvent;
      StepKeepsOrder(other, s, e);
      SameStep(job, other, x, s, e);
      WorkNatural(other, Do(other, s, e));
      var rest;
      rest, s' := Finishes(job, other, x, Do(other, s, e));
      LeadsEvent(job, s, e, rest, s');
      events := [e] + rest;
    }
  }

  lemma WorkNatural(job: Job, s: Copy)
    requires Inv(job, s)
    ensures Work(job, s) >= 0
  {
  }

  // ---------- the loss ----------

  /** A block of zeros for each slot, and ones after them. */
  function Zeros(k: nat, len: nat): seq<Byte> {
    seq(len, i => if i < k then 0 else 1)
  }

  /** The same file after its first bytes were replaced by the block that took slot 0. */
  function Spoiled(k: nat, b: nat, len: nat): seq<Byte> {
    seq(len, i => if i < k && !(i < b && k + i < len) then 0 else 1)
  }

  /** The second slot is written first, its place in the window lets the next block into slot 0, and only then slot 0 is
      written. */
  function LossEvents(job: Job): seq<Event>
    requires job.concurrency > 0
  {
    [Transfer(1), Collect(1)] + RefillEvents(job) + [Transfer(0), Collect(0)]
  }

  lemma LossRuns(job: Job, f: Copy)
    requires Loaded(job, f, job.concurrency, job.concurrency) && job.concurrency >= 2
    requires |job.src| > job.concurrency * job.bufsize
    ensures CanWrite(job, f, 1) && CanRefill(job, Written(f, 1)) && CanWrite(job, Refilled(job, Written(f, 1)), 0)
    ensures Leads(job, f, LossEvents(job), Written(Refilled(job, Written(f, 1)), 0))
  {
    LoadedOps(job, f);
    var s1 := Written(f, 1);
    assert s1.ops[0] == f.ops[0];
    var s2 := Refilled(job, s1);
    assert s2.ops[0] == f.ops[0];
    hide Leads, Loaded, Inv, Refilled, Written;
    Writes(job, f, 1);
    Refills(job, s1);
    Writes(job, s2, 0);
    LeadsOn(job, f, [Transfer(1), Collect(1)], s1, RefillEvents(job), s2);
    LeadsOn(job, f, [Transfer(1), Collect(1)] + RefillEvents(job), s2, [Transfer(0), Collect(0)], Written(s2, 0));
  }

  /** What is known of the window when every slot waits to be written. */
  lemma LoadedOps(job: Job, f: Copy)
    requires Loaded(job, f, job.concurrency, job.concurrency) && job.concurrency >= 2
    requires |job.src| > job.concurrency * job.bufsize
    ensures |f.reqs| == |f.bufs| == |f.ops| == f.inflight == job.concurrency && |f.dst| == |job.src| && f.tail == 0
    ensures Valid(job) && f.next == job.concurrency * job.bufsize && f.finished == 0
    ensures 2 * job.bufsize <= job.concurrency * job.bufsize
    ensures f.ops[0] == Op(false, 0, 0, job.bufsize, false) && f.ops[1] == Op(false, 1, job.bufsize, job.bufsize, false)
    ensures f.reqs[0] == Req(0, job.bufsize, false) && f.reqs[1] == Req(job.bufsize, job.bufsize, false)
    ensures |f.bufs[0]| == |f.bufs[1]| == job.bufsize && f.bufs[0] == job.src[..job.bufsize]
  {
    Product(0, job.concurrency, job.bufsize);
    Product(1, job.concurrency, job.bufsize);
    assert OpOk(job, f, f.ops[0]) && OpOk(job, f, f.ops[1]);
    assert f.bufs[0][..job.bufsize] == f.bufs[0];
  }

  /** The window of the spoiled file, of which the first block is already the one that will take slot 0. */
  lemma SpoiledWindow(job: Job, other: Job, f: Copy, f': Copy)
    requires Loaded(job, f, job.concurrency, job.concurrency) && job.concurrency >= 2
    requires |job.src| > job.concurrency * job.bufsize
    requires AgreeFrom(job, other, job.bufsize) && f' == f.(bufs := f.bufs[0 := other.src[..job.bufsize]])
    ensures Inv(other, f') && InOrder(other, f')
  {
    LoadedOps(job, f);
    forall i | 0 <= i < |f'.ops| ensures OpOk(other, f', f'.ops[i]) {
      assert OpOk(job, f, f.ops[i]);
      if i > 0 {
        Product(i - 1, job.concurrency, job.bufsize);
        assert (i - 1) * job.bufsize >= 0;
        var op := f.ops[i];
        assert job.src[op.offset..op.offset + op.len] == other.src[op.offset..op.offset + op.len];
      }
    }
    forall at | 0 <= at < f'.next ensures Open(f'.ops, at) {
      OpenAt(job, f, at);
    }
  }

  lemma BlockOf(at: nat, n: nat, b: nat) returns (i: nat)
    requires b > 0 && at < n * b
    ensures i < n && i * b <= at < i * b + b
    decreases n
  {
    if at >= (n - 1) * b {
      i := n - 1;
    } else {
      i := BlockOf(at, n - 1, b);
    }
  }

  lemma OpenAt(job: Job, f: Copy, at: nat)
    requires Loaded(job, f, job.concurrency, job.concurrency) && at < f.next
    ensures Open(f.ops, at)
  {
    var i := BlockOf(at, job.concurrency, job.bufsize);
    hide OpsOk, AllApart, DstOk;
    assert Covers(f.ops[i], at);
  }

  lemma NothingEarlier(job: Job, f: Copy)
    requires Loaded(job, f, job.concurrency, job.concurrency) && job.concurrency >= 2
    requires |job.src| > job.concurrency * job.bufsize
    requires CanWrite(job, f, 1) && CanRefill(job, Written(f, 1)) && CanWrite(job, Refilled(job, Written(f, 1)), 0)
    ensures var end := Written(Refilled(job, Written(f, 1)), 0); Beyond(end, job.bufsize) && end.next <= |job.src|
  {
    LoadedOps(job, f);
    var end := Written(Refilled(job, Written(f, 1)), 0);
    hide Inv, Overwrite;
    assert forall i :: 0 <= i < |end.ops| ==> !end.ops[i].read;
  }

  /** The block at this place in the file, put over the first block of either file, gives the first block of the other.
      */
  predicate Absorbs(job: Job, other: Job, at: nat)
    requires Valid(job) && |job.src| == |other.src| && job.bufsize <= at < |job.src|
  {
    var m := ChunkSize(job, at);
    && Overwrite(job.src[..job.bufsize], 0, job.src[at..at + m]) == other.src[..job.bufsize]
    && Overwrite(other.src[..job.bufsize], 0, job.src[at..at + m]) == other.src[..job.bufsize]
  }

  /** Another order in which nothing is lost, from the spoiled window, ends in the very same state. */
  lemma SameEnd(job: Job, other: Job, f: Copy, f': Copy)
    requires |f.bufs| > 0 && |other.src| == |job.src| && job.bufsize <= |job.src|
    requires AgreeFrom(job, other, job.bufsize) && f' == f.(bufs := f.bufs[0 := other.src[..job.bufsize]])
    requires Inv(other, f') && InOrder(other, f')
    requires CanWrite(job, f, 1) && CanRefill(job, Written(f, 1)) && CanWrite(job, Refilled(job, Written(f, 1)), 0)
    requires Valid(job) && job.bufsize <= f.next < |job.src| && Absorbs(job, other, f.next)
    requires Loaded(job, f, job.concurrency, job.concurrency) && job.concurrency >= 2
    requires |job.src| > job.concurrency * job.bufsize
    ensures var end := Written(Refilled(job, Written(f, 1)), 0);
            Inv(other, end) && InOrder(other, end) && Beyond(end, job.bufsize) && end.next <= |job.src|
  {
    LoadedOps(job, f);
    hide Loaded, Inv, InOrder, Overwrite, Written, Refilled, CanRefill;
    assert f.bufs[0] == job.src[..job.bufsize] && f'.bufs[0] == other.src[..job.bufsize] && f'.bufs[1] == f.bufs[1];
    assert CanWrite(other, f', 0);
    assert Overwrite(f.bufs[0], 0, job.src[f.next..f.next + ChunkSize(job, f.next)]) == other.src[..job.bufsize];
    hide *;
    NothingEarlier(job, f);
    InOrderToo(other, f');
    EndsAlike(job, other, f, f');
  }

  /** In order, a window whose slots all wait to be written goes on. */
  lemma InOrderToo(job: Job, f: Copy)
    requires Inv(job, f) && InOrder(job, f) && CanWrite(job, f, 0) && job.concurrency >= 2 && f.next < |job.src|
    requires !f.ops[1].read && !f.ops[1].done && f.ops[1].slot == 1 && f.ops[1].offset + f.ops[1].len <= |job.src|
    requires f.ops[0].slot == 0 && f.tail == 0 && !f.reqs[1].isRead && f.finished + f.ops[0].len < |job.src|
    requires Valid(job) && |f.reqs| == |f.bufs| == job.concurrency
    requires |f.dst| == |job.src| && f.ops[0].offset + f.ops[0].len <= |job.src|
    requires |f.bufs[0]| == |f.bufs[1]| == job.bufsize && f.ops[1].len <= job.bufsize
    ensures CanRefill(job, Written(f, 0)) && CanWrite(job, Refilled(job, Written(f, 0)), 0)
    ensures var end := Written(Refilled(job, Written(f, 0)), 0); Inv(job, end) && InOrder(job, end)
  {
    hide Inv, InOrder, Leads;
    var s1 := Written(f, 0);
    assert s1.ops[0] == f.ops[1];
    Writes(job, f, 0);
    var s2 := Refilled(job, s1);
    assert s2.ops[0] == f.ops[1];
    Refills(job, s1);
    Writes(job, s2, 0);
  }

  /** Two neighbouring writes commute. */
  lemma Commute(dst: seq<Byte>, first: seq<Byte>, second: seq<Byte>)
    requires |first| + |second| <= |dst|
    ensures Overwrite(Overwrite(dst, |first|, second), 0, first) == Overwrite(Overwrite(dst, 0, first), |first|, second)
  {
  }

  lemma EndsAlike(job: Job, other: Job, f: Copy, f': Copy)
    requires Valid(job) && job.concurrency >= 2 && AgreeFrom(job, other, job.bufsize)
    requires |f.reqs| == |f.bufs| == |f.ops| == f.inflight == job.concurrency && |f.dst| == |job.src| && f.tail == 0
    requires f.next < |job.src| && 2 * job.bufsize <= f.next && f.finished == 0
    requires f.ops[0] == Op(false, 0, 0, job.bufsize, false)
    requires f.ops[1] == Op(false, 1, job.bufsize, job.bufsize, false)
    requires |f.bufs[0]| == |f.bufs[1]| == job.bufsize
    requires f' == f.(bufs := f.bufs[0 := other.src[..job.bufsize]])
    requires var m := ChunkSize(job, f.next);
             Overwrite(f.bufs[0], 0, job.src[f.next..f.next + m]) == other.src[..job.bufsize]
             && Overwrite(other.src[..job.bufsize], 0, job.src[f.next..f.next + m]) == other.src[..job.bufsize]
    requires CanWrite(job, f, 1) && CanRefill(job, Written(f, 1)) && CanWrite(job, Refilled(job, Written(f, 1)), 0)
    requires CanWrite(other, f', 0) && CanRefill(other, Written(f', 0))
    requires CanWrite(other, Refilled(other, Written(f', 0)), 0)
    ensures Written(Refilled(other, Written(f', 0)), 0) == Written(Refilled(job, Written(f, 1)), 0)
  {
    var m := ChunkSize(job, f.next);
    var b, first, second := job.bufsize, other.src[..job.bufsize], f.bufs[1][..job.bufsize];
    assert job.src[f.next..f.next + m] == other.src[f.next..f.next + m];
    assert first[..b] == first && |first| == b;
    assert ChunkSize(other, f.next) == m && |other.src| == |job.src| && Valid(other);
    assert f.bufs[1][..b] == f'.bufs[1][..b] && f'.bufs[0] == first;
    hide *;
    EndFields(job, f, 1);
    EndFields(other, f', 0);
    assert f.bufs[0 := first][0 := first] == f.bufs[0 := first];
    Commute(f.dst, first, second);
  }

  /** The window after the write at place k, the refill of slot 0 and the write at place 0. */
  lemma EndFields(job: Job, f: Copy, k: nat)
    requires Valid(job) && job.concurrency >= 2 && k < 2
    requires |f.reqs| == |f.bufs| == |f.ops| == f.inflight == job.concurrency && f.tail == 0 && f.next < |job.src|
    requires f.ops[0] == Op(false, 0, 0, job.bufsize, false)
    requires f.ops[1] == Op(false, 1, job.bufsize, job.bufsize, false)
    requires |f.bufs[0]| == |f.bufs[1]| == job.bufsize && |f.dst| == |job.src|
    requires CanWrite(job, f, k) && CanRefill(job, Written(f, k)) && CanWrite(job, Refilled(job, Written(f, k)), 0)
    ensures var end, m, b := Written(Refilled(job, Written(f, k)), 0), ChunkSize(job, f.next), job.bufsize;
            var first := Overwrite(f.bufs[0], 0, job.src[f.next..f.next + m]);
            && end.reqs == f.reqs[0 := Req(f.next, m, false)] && end.bufs == f.bufs[0 := first]
            && end.ops == f.ops[2..] + [Op(false, 0, f.next, m, false)]
            && end.next == f.next + m && end.finished == f.finished + 2 * b && end.inflight == f.inflight - 1
            && end.tail == 1 % job.concurrency && |first| >= b && b <= |f.dst|
            && (k == 0 ==> |Overwrite(f.dst, 0, f.bufs[0][..b])| >= b
                           && end.dst == Overwrite(Overwrite(f.dst, 0, f.bufs[0][..b]), b, f.bufs[1][..b]))
            && (k == 1 ==> end.dst == Overwrite(Overwrite(f.dst, b, f.bufs[1][..b]), 0, first[..b]))
  {
    var s1 := Written(f, k);
    assert s1.ops == [f.ops[1 - k]] + f.ops[2..];
    var s2 := Refilled(job, s1);
    assert s2.ops[0] == f.ops[1 - k]
           && s2.ops[1..] == f.ops[2..] + [Op(false, 0, f.next, ChunkSize(job, f.next), false)];
    assert s2.ops[..0] + s2.ops[1..] == s2.ops[1..];
  }

  /** The bytes that take slot 0 are the ones the spoiled file starts with. */
  lemma SpoiledBytes(n: nat, b: nat, len: nat, k: nat)
    requires n > 0 && b > 0 && 2 * b <= k < len
    ensures Absorbs(Job(Zeros(k, len), n, b), Job(Spoiled(k, b, len), n, b), k)
    ensures AgreeFrom(Job(Zeros(k, len), n, b), Job(Spoiled(k, b, len), n, b), b)
    ensures Spoiled(k, b, len) != Zeros(k, len)
  {
    var src, other := Zeros(k, len), Spoiled(k, b, len);
    var m := ChunkSize(Job(src, n, b), k);
    assert |Overwrite(src[..b], 0, src[k..k + m])| == b == |Overwrite(other[..b], 0, src[k..k + m])|;
    forall i | 0 <= i < b
      ensures Overwrite(src[..b], 0, src[k..k + m])[i] == other[..b][i] == Overwrite(other[..b], 0, src[k..k + m])[i]
    {
      assert i < m ==> src[k..k + m][i] == 1 && other[i] == 1;
      assert i >= m ==> src[i] == 0 && other[i] == 0;
    }
    assert src[0] == 0 && other[0] == 1;
  }

  lemma LeadsThree(job: Job, s0: Copy, a: seq<Event>, s1: Copy, b: seq<Event>, s2: Copy, c: seq<Event>, s3: Copy)
    requires Leads(job, s0, a, s1) && Leads(job, s1, b, s2) && Leads(job, s2, c, s3)
    ensures Leads(job, s0, a + b + c, s3)
  {
    hide Leads;
    LeadsOn(job, s0, a, s1, b, s2);
    LeadsOn(job, s0, a + b, s2, c, s3);
  }

  /** For every number of slots from two on, every buffer size and every longer file size there are a file and an order
      of transfers and completions with which the program ends, has counted every byte and has nothing in flight, and
      has left a wrong destination. */
  lemma SomeOrderLoses(n: nat, b: nat, len: nat) returns (job: Job, events: seq<Event>, s: Copy)
    requires n >= 2 && b > 0 && len > n * b
    ensures job.concurrency == n && job.bufsize == b && |job.src| == len
    ensures Leads(job, Start(job), events, s) && Exited(job, s) && s.finished == len && s.ops == []
    ensures s.dst != job.src
  {
    job := Job(Zeros(n * b, len), n, b);
    var other := Job(Spoiled(n * b, b, len), n, b);
    assert |job.src| == len;
    Product(1, n, b);
    SpoiledBytes(n, b, len, n * b);
    assert |other.src| == len && Zeros(n * b, len) != Spoiled(n * b, b, len) && Valid(job);
    hide *;
    var fills, full := Fills(job, n);
    var turns, f := Turns(job, full, n);
    var loss;
    loss, s := LosesFrom(job, other, f);
    LeadsThree(job, Start(job), fills, full, turns, f, loss, s);
    events := fills + turns + loss;
  }

  lemma LosesFrom(job: Job, other: Job, f: Copy) returns (events: seq<Event>, s: Copy)
    requires Loaded(job, f, job.concurrency, job.concurrency) && job.concurrency >= 2
    requires |job.src| > job.concurrency * job.bufsize
    requires AgreeFrom(job, other, job.bufsize) && 2 * job.bufsize <= job.concurrency * job.bufsize
    requires |job.src| == |other.src| && Absorbs(job, other, job.concurrency * job.bufsize)
    ensures Leads(job, f, events, s) && Exited(job, s) && s.finished == |job.src| && s.ops == [] && s.dst == other.src
  {
    LoadedOps(job, f);
    hide *;
    LossRuns(job, f);
    var f' := f.(bufs := f.bufs[0 := other.src[..job.bufsize]]);
    SpoiledWindow(job, other, f, f');
    SameEnd(job, other, f, f');
    var end := Written(Refilled(job, Written(f, 1)), 0);
    var rest;
    rest, s := Finishes(job, other, job.bufsize, end);
    events := LossEvents(job) + rest;
    LeadsOn(job, f, LossEvents(job), end, rest, s);
  }

  /** Every run that exits, for every file of this size and every order, has copied. */
  ghost predicate AlwaysCopies(n: nat, b: nat, len: nat) {
    forall job: Job, events: seq<Event>, s: Copy ::
      job.concurrency == n && job.bufsize == b && |job.src| == len && Leads(job, Start(job), events, s)
          && Exited(job, s)
      ==> s.dst == job.src
  }

  /** The copier is right in every order exactly if it has one slot, or a slot for every block. */
  lemma CopiesExactly(n: nat, b: nat, len: nat)
    requires n > 0 && b > 0
    ensures AlwaysCopies(n, b, len) <==> n == 1 || len <= n * b
  {
    hide Leads, Start;
    if n == 1 || len <= n * b {
      forall job: Job, events: seq<Event>, s: Copy
        | job.concurrency == n && job.bufsize == b && |job.src| == len && Leads(job, Start(job), events, s)
            && Exited(job, s)
        ensures s.dst == job.src
      {
        SmallCopies(job, events, s);
      }
    } else {
      var job, events, s := SomeOrderLoses(n, b, len);
    }
  }
}
