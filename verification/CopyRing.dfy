/** The read-then-write copier over reusable slots: the program's variables, the kernel's operations in flight,
    the steps they take, and what those steps keep while no busy slot is filled and every transfer is full. */
module CopyRing {
  import opened Basics
  import opened Counting

  /** io_req without its buffer. */
  datatype Req = Req(offset: nat, size: nat, isRead: bool)

  /** An operation submitted to the ring and not reaped yet.  done: the kernel has moved the data, and len is then the
      number of bytes it moved. */
  datatype Op = Op(read: bool, slot: nat, offset: nat, len: nat, done: bool)

  /** The file being copied, the number of slots and the size of a slot's buffer. */
  datatype Job = Job(src: seq<Byte>, concurrency: nat, bufsize: nat)

  predicate Valid(job: Job) {
    job.concurrency > 0 && job.bufsize > 0
  }

  datatype Copy = Copy(reqs: seq<Req>, bufs: seq<seq<Byte>>, ops: seq<Op>, dst: seq<Byte>,
                       next: nat, finished: nat, inflight: nat, tail: nat)

  /** Before the loop: every buffer is bufsize zero bytes, and the destination is empty space. */
  function Start(job: Job): Copy {
    Copy(seq(job.concurrency, _ => Req(0, 0, false)), seq(job.concurrency, _ => seq(job.bufsize, _ => 0)), [],
         seq(|job.src|, _ => 0), 0, 0, 0, 0)
  }

  /** Write bytes at an offset; a write past the end extends the file. */
  function Overwrite(s: seq<Byte>, at: nat, bytes: seq<Byte>): seq<Byte>
    requires at <= |s|
  {
    s[..at] + bytes + if at + |bytes| <= |s| then s[at + |bytes|..] else []
  }

  // ---------- steps ----------

  predicate CanIssue(job: Job, s: Copy) {
    && Valid(job) && |s.reqs| == |s.bufs| == job.concurrency && s.tail < job.concurrency
    && s.inflight < job.concurrency && s.next < |job.src|
  }

  function ChunkSize(job: Job, offset: nat): (n: nat)
    requires Valid(job) && offset < |job.src|
    ensures 0 < n <= job.bufsize && offset + n <= |job.src|
  {
    if offset + job.bufsize > |job.src| then |job.src| - offset else job.bufsize
  }

  /** Lines 82-99: start a read into the slot at tail. */
  function Issue(job: Job, s: Copy): Copy
    requires CanIssue(job, s)
  {
    var size := ChunkSize(job, s.next);
    s.(reqs := s.reqs[s.tail := Req(s.next, size, true)],
       ops := s.ops + [Op(true, s.tail, s.next, size, false)],
       next := s.next + size, inflight := s.inflight + 1, tail := (s.tail + 1) % job.concurrency)
  }

  predicate CanMove(job: Job, s: Copy, k: nat) {
    && k < |s.ops| && !s.ops[k].done
    && s.ops[k].slot < |s.bufs| && s.ops[k].len <= |s.bufs[s.ops[k].slot]|
    && if s.ops[k].read then s.ops[k].offset + s.ops[k].len <= |job.src| else s.ops[k].offset <= |s.dst|
  }

  /** The kernel moves the data of one operation: file to buffer, or buffer to destination. */
  function Move(job: Job, s: Copy, k: nat): Copy
    requires CanMove(job, s, k)
  {
    var op := s.ops[k];
    var done := s.(ops := s.ops[k := op.(done := true)]);
    if op.read then
      done.(bufs := s.bufs[op.slot := Overwrite(s.bufs[op.slot], 0, job.src[op.offset..op.offset + op.len])])
    else
      done.(dst := Overwrite(s.dst, op.offset, s.bufs[op.slot][..op.len]))
  }

  /** The request as if it had been for n bytes: what the kernel serves when it moves fewer bytes than it was asked for,
      and none when it fails or meets the end of the file. */
  function Shortened(s: Copy, k: nat, n: nat): Copy
    requires k < |s.ops|
  {
    s.(ops := s.ops[k := s.ops[k].(len := n)])
  }

  predicate CanCut(job: Job, s: Copy, k: nat, n: nat) {
    k < |s.ops| && n < s.ops[k].len && CanMove(job, Shortened(s, k, n), k)
  }

  /** A short or failed transfer. */
  function Cut(job: Job, s: Copy, k: nat, n: nat): Copy
    requires CanCut(job, s, k, n)
  {
    Move(job, Shortened(s, k, n), k)
  }

  predicate CanReap(s: Copy, k: nat) {
    k < |s.ops| && s.ops[k].done && s.ops[k].slot < |s.reqs| && s.inflight > 0
  }

  /** Lines 109-145: the completion names a slot; whether it counts as a read is decided by the slot.  An operation that
      failed is given up like a read of no bytes, and a write of no bytes counts nothing. */
  function Reap(s: Copy, k: nat): Copy
    requires CanReap(s, k)
  {
    var op := s.ops[k];
    var r := s.reqs[op.slot];
    if r.isRead && op.len > 0 then
      s.(reqs := s.reqs[op.slot := Req(r.offset, op.len, false)],
         ops := s.ops[k := Op(false, op.slot, r.offset, op.len, false)])
    else
      s.(ops := s.ops[..k] + s.ops[k + 1..], finished := s.finished + op.len, inflight := s.inflight - 1)
  }

  // ---------- the invariant while no busy slot is reused ----------

  predicate SlotIdle(s: Copy, slot: nat) {
    forall i :: 0 <= i < |s.ops| ==> s.ops[i].slot != slot
  }

  function LenOf(): Op -> nat {
    (op: Op) => op.len
  }

  /** The bytes in flight. */
  function InFlightBytes(s: Copy): nat {
    Sum(LenOf(), s.ops)
  }

  predicate Covers(op: Op, at: nat) {
    op.offset <= at < op.offset + op.len
  }

  ghost predicate ShapeOk(job: Job, s: Copy) {
    && Valid(job) && |s.reqs| == |s.bufs| == job.concurrency && s.tail < job.concurrency
    && (forall i :: 0 <= i < |s.bufs| ==> |s.bufs[i]| == job.bufsize)
    && |s.dst| == |job.src| && s.next <= |job.src| && s.inflight == |s.ops|
    && s.finished + InFlightBytes(s) == s.next
  }

  /** One operation is consistent with its slot, its buffer and the destination. */
  ghost predicate OpOk(job: Job, s: Copy, op: Op)
    requires ShapeOk(job, s)
  {
    && op.slot < job.concurrency && 0 < op.len <= job.bufsize && op.offset + op.len <= s.next
    && s.reqs[op.slot] == Req(op.offset, op.len, op.read)
    && (op.read == op.done ==> s.bufs[op.slot][..op.len] == job.src[op.offset..op.offset + op.len])
    && (!op.read && op.done ==> s.dst[op.offset..op.offset + op.len] == job.src[op.offset..op.offset + op.len])
  }

  ghost predicate OpsOk(job: Job, s: Copy)
    requires ShapeOk(job, s)
  {
    forall i :: 0 <= i < |s.ops| ==> OpOk(job, s, s.ops[i])
  }

  predicate Apart(a: Op, b: Op) {
    a.slot != b.slot && (a.offset + a.len <= b.offset || b.offset + b.len <= a.offset)
  }

  /** No two operations share a slot or a byte of the file. */
  ghost predicate AllApart(ops: seq<Op>) {
    forall i, j :: 0 <= i < j < |ops| ==> Apart(ops[i], ops[j])
  }

  ghost predicate Open(ops: seq<Op>, at: nat) {
    exists i :: 0 <= i < |ops| && Covers(ops[i], at)
  }

  /** What is not in flight has been copied. */
  ghost predicate DstOk(job: Job, s: Copy)
    requires ShapeOk(job, s)
  {
    forall at :: 0 <= at < s.next && !Open(s.ops, at) ==> s.dst[at] == job.src[at]
  }

  ghost predicate Inv(job: Job, s: Copy) {
    ShapeOk(job, s) && OpsOk(job, s) && AllApart(s.ops) && DstOk(job, s)
  }

  lemma StartInv(job: Job)
    requires Valid(job)
    ensures Inv(job, Start(job))
  {
  }

  lemma {:induction false} SumAppend(f: Op -> nat, s: seq<Op>, x: Op)
    ensures Sum(f, s + [x]) == Sum(f, s) + f(x)
  {
    if s == [] {
      assert s + [x] == [x];
    } else {
      assert (s + [x])[1..] == s[1..] + [x];
      SumAppend(f, s[1..], x);
    }
  }

  lemma {:induction false} SumRemove(f: Op -> nat, s: seq<Op>, k: nat)
    requires k < |s|
    ensures Sum(f, s[..k] + s[k + 1..]) + f(s[k]) == Sum(f, s)
  {
    if k == 0 {
      assert s[..0] + s[1..] == s[1..];
    } else {
      assert (s[..k] + s[k + 1..])[1..] == s[1..][..k - 1] + s[1..][k..];
      SumRemove(f, s[1..], k - 1);
    }
  }

  /** Starting a read in an idle slot keeps the invariant. */
  lemma IssueKeepsInv(job: Job, s: Copy)
    requires Inv(job, s) && CanIssue(job, s) && SlotIdle(s, s.tail)
    ensures Inv(job, Issue(job, s))
  {
    var s' := Issue(job, s);
    var op := Op(true, s.tail, s.next, ChunkSize(job, s.next), false);
    SumAppend(LenOf(), s.ops, op);
    assert ShapeOk(job, s');
    IssueDst(job, s);
    hide DstOk, Open, Sum, InFlightBytes;
    forall i | 0 <= i < |s'.ops| ensures OpOk(job, s', s'.ops[i]) {
      assert i < |s.ops| ==> OpOk(job, s, s.ops[i]);
    }
    forall i | 0 <= i < |s.ops| ensures Apart(s.ops[i], op) {
      assert OpOk(job, s, s.ops[i]);
    }
    hide OpsOk, OpOk, ShapeOk;
  }

  lemma IssueDst(job: Job, s: Copy)
    requires ShapeOk(job, s) && DstOk(job, s) && CanIssue(job, s) && ShapeOk(job, Issue(job, s))
    ensures DstOk(job, Issue(job, s))
  {
    var s' := Issue(job, s);
    forall at | 0 <= at < s'.next && !Open(s'.ops, at) ensures s'.dst[at] == job.src[at] {
      OpenAppend(s.ops, s'.ops[|s.ops|], at);
    }
  }

  lemma OpenAppend(ops: seq<Op>, x: Op, at: nat)
    ensures Open(ops + [x], at) <==> Open(ops, at) || Covers(x, at)
  {
    var ops' := ops + [x];
    assert ops'[|ops|] == x && forall i :: 0 <= i < |ops| ==> ops'[i] == ops[i];
    if Open(ops, at) {
      var i :| 0 <= i < |ops| && Covers(ops[i], at);
      assert Covers(ops'[i], at);
    }
  }

  lemma OpenRemove(ops: seq<Op>, k: nat, at: nat)
    requires k < |ops|
    ensures Open(ops, at) ==> Open(ops[..k] + ops[k + 1..], at) || Covers(ops[k], at)
  {
    var ops' := ops[..k] + ops[k + 1..];
    if Open(ops, at) {
      var i :| 0 <= i < |ops| && Covers(ops[i], at);
      assert i != k ==> ops'[if i < k then i else i - 1] == ops[i];
    }
  }

  /** Two lists of operations that cover the same bytes at the same places. */
  lemma SameOpen(ops: seq<Op>, ops': seq<Op>, at: nat)
    requires |ops'| == |ops|
    requires forall i :: 0 <= i < |ops| ==> ops'[i].offset == ops[i].offset && ops'[i].len == ops[i].len
    ensures Open(ops', at) <==> Open(ops, at)
  {
    if Open(ops, at) {
      var i :| 0 <= i < |ops| && Covers(ops[i], at);
      assert Covers(ops'[i], at);
    }
    if Open(ops', at) {
      var i :| 0 <= i < |ops| && Covers(ops'[i], at);
      assert Covers(ops[i], at);
    }
  }

  lemma MoveKeepsInv(job: Job, s: Copy, k: nat)
    requires Inv(job, s) && k < |s.ops| && !s.ops[k].done
    ensures CanMove(job, s, k) && Inv(job, Move(job, s, k))
  {
    var op := s.ops[k];
    assert OpOk(job, s, op);
    SumUpdate(LenOf(), s.ops, k, op.(done := true));
    hide DstOk, Open;
    var s' := Move(job, s, k);
    forall i | 0 <= i < |s'.ops| ensures OpOk(job, s', s'.ops[i]) {
      MoveOp(job, s, k, i);
    }
    hide OpsOk, OpOk;
    MoveDst(job, s, k);
  }

  lemma MoveOp(job: Job, s: Copy, k: nat, i: nat)
    requires ShapeOk(job, s) && k < |s.ops| && i < |s.ops| && !s.ops[k].done
    requires OpOk(job, s, s.ops[k]) && OpOk(job, s, s.ops[i]) && AllApart(s.ops)
    requires CanMove(job, s, k) && ShapeOk(job, Move(job, s, k))
    ensures OpOk(job, Move(job, s, k), Move(job, s, k).ops[i])
  {
    var op, s' := s.ops[k], Move(job, s, k);
    if i != k {
      assert Apart(op, s.ops[i]) || Apart(s.ops[i], op);
      hide AllApart, ShapeOk;
      var o := s.ops[i];
      if !op.read && !o.read && o.done {
        OverwriteApart(s.dst, op.offset, s.bufs[op.slot][..op.len], o.offset, o.len);
      }
    } else {
      hide AllApart, ShapeOk;
      if op.read {
        OverwriteAt(s.bufs[op.slot], 0, job.src[op.offset..op.offset + op.len]);
      } else {
        OverwriteAt(s.dst, op.offset, s.bufs[op.slot][..op.len]);
      }
    }
  }

  lemma OverwriteAt(s: seq<Byte>, at: nat, bytes: seq<Byte>)
    requires at + |bytes| <= |s|
    ensures |Overwrite(s, at, bytes)| == |s| && Overwrite(s, at, bytes)[at..at + |bytes|] == bytes
  {
  }

  lemma OverwriteApart(s: seq<Byte>, at: nat, bytes: seq<Byte>, from: nat, len: nat)
    requires at + |bytes| <= |s| && from + len <= |s|
    requires at + |bytes| <= from || from + len <= at
    ensures Overwrite(s, at, bytes)[from..from + len] == s[from..from + len]
  {
  }

  lemma MoveDst(job: Job, s: Copy, k: nat)
    requires ShapeOk(job, s) && DstOk(job, s) && k < |s.ops| && CanMove(job, s, k) && ShapeOk(job, Move(job, s, k))
    ensures DstOk(job, Move(job, s, k))
  {
    var s', op := Move(job, s, k), s.ops[k];
    forall at | 0 <= at < s'.next && !Open(s'.ops, at) ensures s'.dst[at] == job.src[at] {
      SameOpen(s.ops, s'.ops, at);
      assert !Covers(s'.ops[k], at);
    }
  }

  lemma ReapKeepsInv(job: Job, s: Copy, k: nat)
    requires Inv(job, s) && k < |s.ops| && s.ops[k].done
    ensures CanReap(s, k) && Inv(job, Reap(s, k))
  {
    var op := s.ops[k];
    assert OpOk(job, s, op);
    if op.read {
      ReapRead(job, s, k);
    } else {
      ReapWrite(job, s, k);
    }
  }

  lemma ReapRead(job: Job, s: Copy, k: nat)
    requires Inv(job, s) && k < |s.ops| && s.ops[k].done && s.ops[k].read
    ensures CanReap(s, k) && Inv(job, Reap(s, k))
  {
    var op := s.ops[k];
    assert OpOk(job, s, op);
    var s' := Reap(s, k);
    SumUpdate(LenOf(), s.ops, k, s'.ops[k]);
    forall i | 0 <= i < |s'.ops| ensures OpOk(job, s', s'.ops[i]) {
      assert OpOk(job, s, s.ops[i]);
      assert i != k ==> Apart(op, s.ops[i]) || Apart(s.ops[i], op);
    }
    hide OpsOk, OpOk, Open;
    forall at | 0 <= at < s'.next && !Open(s'.ops, at) ensures s'.dst[at] == job.src[at] {
      SameOpen(s.ops, s'.ops, at);
    }
  }

  lemma ReapWrite(job: Job, s: Copy, k: nat)
    requires Inv(job, s) && k < |s.ops| && s.ops[k].done && !s.ops[k].read
    ensures CanReap(s, k) && Inv(job, Reap(s, k))
  {
    var op := s.ops[k];
    assert OpOk(job, s, op);
    var s' := Reap(s, k);
    SumRemove(LenOf(), s.ops, k);
    assert forall i :: 0 <= i < |s'.ops| ==> s'.ops[i] == s.ops[if i < k then i else i + 1];
    hide Open, DstOk;
    forall i | 0 <= i < |s'.ops| ensures OpOk(job, s', s'.ops[i]) {
      assert OpOk(job, s, s'.ops[i]);
    }
    hide OpsOk;
    WriteDst(job, s, k);
  }

  lemma WriteDst(job: Job, s: Copy, k: nat)
    requires ShapeOk(job, s) && DstOk(job, s) && CanReap(s, k) && !s.reqs[s.ops[k].slot].isRead
    requires OpOk(job, s, s.ops[k]) && !s.ops[k].read && s.ops[k].done && ShapeOk(job, Reap(s, k))
    ensures DstOk(job, Reap(s, k))
  {
    var s', op := Reap(s, k), s.ops[k];
    hide Open;
    forall at | 0 <= at < s'.next && !Open(s'.ops, at) ensures s'.dst[at] == job.src[at] {
      OpenRemove(s.ops, k, at);
      if Covers(op, at) {
        assert s.dst[at] == s.dst[op.offset..op.offset + op.len][at - op.offset];
        assert job.src[at] == job.src[op.offset..op.offset + op.len][at - op.offset];
      }
    }
  }

  // ---------- slots that retire in ring order ----------

  /** The slot filled back steps before the one at tail. */
  function SlotBack(job: Job, tail: nat, back: nat): int
  {
    if back <= tail then tail - back else tail + job.concurrency - back
  }

  /** The operations in flight occupy the slots just behind tail, oldest first. */
  ghost predicate InOrder(job: Job, s: Copy) {
    && |s.ops| <= job.concurrency
    && forall i :: 0 <= i < |s.ops| ==> s.ops[i].slot == SlotBack(job, s.tail, |s.ops| - i)
  }

  /** The hypothesis: reads complete in any order, but a write completes only when its slot is the oldest. */
  predicate InTurn(s: Copy, k: nat)
    requires CanReap(s, k)
  {
    s.reqs[s.ops[k].slot].isRead || k == 0
  }

  /** Under ring order the slot chosen at tail is idle. */
  lemma OrderMakesIdle(job: Job, s: Copy)
    requires Inv(job, s) && InOrder(job, s) && s.inflight < job.concurrency
    ensures SlotIdle(s, s.tail)
  {
  }

  /** And it is needed: in a full window with more to read, the slot at tail is idle after a write completes
      exactly if that write was the oldest operation. */
  lemma FullWindowNeedsOrder(job: Job, s: Copy, k: nat)
    requires Inv(job, s) && InOrder(job, s) && s.inflight == job.concurrency && s.next < |job.src|
    requires CanReap(s, k) && !s.reqs[s.ops[k].slot].isRead
    ensures SlotIdle(Reap(s, k), Reap(s, k).tail) <==> k == 0
  {
    var s' := Reap(s, k);
    assert s.ops[0].slot == SlotBack(job, s.tail, job.concurrency) == s.tail;
    if k != 0 {
      assert s'.ops[0] == s.ops[0];
    } else {
      assert forall i :: 0 <= i < |s'.ops| ==> s'.ops[i] == s.ops[i + 1];
    }
  }

  lemma Wrap(a: nat, n: nat)
    requires a < n
    ensures (a + 1) % n == if a + 1 == n then 0 else a + 1
  {
    if a + 1 < n {
      SmallMod(a + 1, n);
    }
  }

  lemma SmallMod(a: nat, n: nat)
    requires a < n
    ensures a % n == a
  {
  }

  lemma IssueKeepsOrder(job: Job, s: Copy)
    requires Inv(job, s) && InOrder(job, s) && CanIssue(job, s)
    ensures Inv(job, Issue(job, s)) && InOrder(job, Issue(job, s))
  {
    OrderMakesIdle(job, s);
    IssueKeepsInv(job, s);
    Wrap(s.tail, job.concurrency);
    hide OpsOk, AllApart, DstOk;
  }

  lemma ReapKeepsOrder(job: Job, s: Copy, k: nat)
    requires Inv(job, s) && InOrder(job, s) && k < |s.ops| && s.ops[k].done && CanReap(s, k) && InTurn(s, k)
    ensures Inv(job, Reap(s, k)) && InOrder(job, Reap(s, k))
  {
    ReapKeepsInv(job, s, k);
    var s' := Reap(s, k);
    hide Inv;
    if !s.reqs[s.ops[k].slot].isRead {
      assert forall i :: 0 <= i < |s'.ops| ==> s'.ops[i] == s.ops[i + 1];
    }
  }

  /** What is left to do: two completions for each byte not asked for, and those of the operations in flight. */
  function Work(job: Job, s: Copy): int {
    2 * (|job.src| - s.next) + Sum(WorkOf(), s.ops)
  }

  function WorkOf(): Op -> nat {
    (op: Op) => if op.read then 2 else 1
  }

  lemma IssueWork(job: Job, s: Copy)
    requires CanIssue(job, s)
    ensures Work(job, Issue(job, s)) <= Work(job, s)
  {
    SumAppend(WorkOf(), s.ops, Op(true, s.tail, s.next, ChunkSize(job, s.next), false));
  }

  lemma MoveWork(job: Job, s: Copy, k: nat)
    requires CanMove(job, s, k)
    ensures Work(job, Move(job, s, k)) == Work(job, s)
  {
    SumUpdate(WorkOf(), s.ops, k, s.ops[k].(done := true));
  }

  lemma ReapWork(job: Job, s: Copy, k: nat)
    requires Inv(job, s) && CanReap(s, k)
    ensures Work(job, Reap(s, k)) < Work(job, s)
  {
    assert OpOk(job, s, s.ops[k]);
    if s.ops[k].read {
      SumUpdate(WorkOf(), s.ops, k, Reap(s, k).ops[k]);
    } else {
      SumRemove(WorkOf(), s.ops, k);
    }
  }

  /** When the finished bytes reach the file size nothing is in flight and everything is copied. */
  lemma AllCopied(job: Job, s: Copy)
    requires Inv(job, s) && s.finished >= |job.src|
    ensures s.dst == job.src && s.ops == [] && s.finished == |job.src|
  {
    SomeInFlight(job, s);
    forall at | 0 <= at < |job.src| ensures s.dst[at] == job.src[at] {
      assert !Open(s.ops, at);
    }
  }

  lemma SomeInFlight(job: Job, s: Copy)
    requires Inv(job, s)
    ensures s.ops != [] ==> InFlightBytes(s) > 0
  {
    if s.ops != [] {
      assert OpOk(job, s, s.ops[0]);
      SumAtLeast(LenOf(), s.ops, 0);
    }
  }
}
