/** What the copier has written, also when transfers are short or fail: as long as no busy slot is filled, as many
    bytes of the destination are right as have been counted, and the others are still zero. */
module CopyWritten {
  import opened Basics
  import opened CopyRing

  ghost predicate Shape(job: Job, s: Copy) {
    && Valid(job) && |s.reqs| == |s.bufs| == job.concurrency && s.tail < job.concurrency
    && (forall i :: 0 <= i < |s.bufs| ==> |s.bufs[i]| == job.bufsize)
    && |s.dst| == |job.src| && s.next <= |job.src| && s.inflight == |s.ops|
  }

  /** One operation is consistent with its slot and its buffer, and a completed write with the destination. */
  ghost predicate Sound(job: Job, s: Copy, op: Op)
    requires Shape(job, s)
  {
    && op.slot < job.concurrency && op.len <= job.bufsize && op.offset + op.len <= s.next
    && s.reqs[op.slot].offset == op.offset && s.reqs[op.slot].isRead == op.read
    && (op.read == op.done ==> s.bufs[op.slot][..op.len] == job.src[op.offset..op.offset + op.len])
    && (!op.read && op.done ==> s.dst[op.offset..op.offset + op.len] == job.src[op.offset..op.offset + op.len])
  }

  ghost predicate AllSound(job: Job, s: Copy)
    requires Shape(job, s)
  {
    forall i :: 0 <= i < |s.ops| ==> Sound(job, s, s.ops[i])
  }

  /** A write has put its bytes here and has not been reaped yet. */
  ghost predicate Landed(ops: seq<Op>, at: nat) {
    exists i :: 0 <= i < |ops| && !ops[i].read && ops[i].done && Covers(ops[i], at)
  }

  /** Right at the places in w, and untouched elsewhere. */
  ghost predicate Right(job: Job, s: Copy, w: set<nat>) {
    && |s.dst| == |job.src|
    && (forall at :: at in w ==> at < |job.src| && s.dst[at] == job.src[at])
    && forall at :: 0 <= at < |job.src| && at !in w && !Landed(s.ops, at) ==> s.dst[at] == 0
  }

  /** The bytes counted are those at the places in w, which no operation in flight covers. */
  ghost predicate Counted(s: Copy, w: set<nat>) {
    |w| == s.finished && forall at :: at in w ==> at < s.next && !Open(s.ops, at)
  }

  ghost predicate WrittenInv(job: Job, s: Copy, w: set<nat>) {
    Shape(job, s) && AllSound(job, s) && AllApart(s.ops) && Counted(s, w) && Right(job, s, w)
  }

  lemma StartWritten(job: Job)
    requires Valid(job)
    ensures WrittenInv(job, Start(job), {})
  {
  }

  // ---------- starting a read ----------

  lemma IssueWritten(job: Job, s: Copy, w: set<nat>)
    requires WrittenInv(job, s, w) && CanIssue(job, s) && SlotIdle(s, s.tail)
    ensures WrittenInv(job, Issue(job, s), w)
  {
    var s' := Issue(job, s);
    var op := s'.ops[|s.ops|];
    forall i | 0 <= i < |s'.ops| ensures Sound(job, s', s'.ops[i]) {
      assert i < |s.ops| ==> s'.ops[i] == s.ops[i] && Sound(job, s, s.ops[i]) && s.ops[i].slot != s.tail;
    }
    forall i | 0 <= i < |s.ops| ensures Apart(s.ops[i], op) {
      assert Sound(job, s, s.ops[i]);
    }
    hide AllSound, Sound, Open, Landed;
    forall at | at in w ensures !Open(s'.ops, at) {
      OpenAppend(s.ops, op, at);
    }
    forall at | 0 <= at < |job.src| && Landed(s.ops, at) ensures Landed(s'.ops, at) {
      LandedStays(s.ops, s'.ops, at);
    }
  }

  lemma LandedStays(ops: seq<Op>, ops': seq<Op>, at: nat)
    requires Landed(ops, at) && |ops'| >= |ops|
    requires forall i :: 0 <= i < |ops| && !ops[i].read && ops[i].done ==> ops'[i] == ops[i]
    ensures Landed(ops', at)
  {
    var i :| 0 <= i < |ops| && !ops[i].read && ops[i].done && Covers(ops[i], at);
    assert Covers(ops'[i], at);
  }

  // ---------- transfers ----------

  lemma CanMoveSound(job: Job, s: Copy, k: nat)
    requires Shape(job, s) && k < |s.ops| && !s.ops[k].done && Sound(job, s, s.ops[k])
    ensures CanMove(job, s, k)
  {
  }

  /** A full transfer keeps everything: the bytes of a write land. */
  lemma MoveWritten(job: Job, s: Copy, w: set<nat>, k: nat)
    requires WrittenInv(job, s, w) && k < |s.ops| && !s.ops[k].done
    ensures CanMove(job, s, k) && WrittenInv(job, Move(job, s, k), w)
  {
    assert Sound(job, s, s.ops[k]);
    CanMoveSound(job, s, k);
    var s' := Move(job, s, k);
    forall i | 0 <= i < |s'.ops| ensures Sound(job, s', s'.ops[i]) {
      MoveSound(job, s, k, i);
    }
    MoveCounted(job, s, w, k);
    MoveRight(job, s, w, k);
    hide Sound, Counted, Right, Landed, Open;
  }

  lemma MoveSound(job: Job, s: Copy, k: nat, i: nat)
    requires Shape(job, s) && AllSound(job, s) && AllApart(s.ops) && k < |s.ops| && i < |s.ops| && CanMove(job, s, k)
    ensures Shape(job, Move(job, s, k)) && Sound(job, Move(job, s, k), Move(job, s, k).ops[i])
  {
    var op, o := s.ops[k], s.ops[i];
    assert Sound(job, s, op) && Sound(job, s, o);
    if i != k {
      assert Apart(op, o) || Apart(o, op);
      hide AllApart, AllSound;
      if !op.read && !o.read && o.done {
        OverwriteApart(s.dst, op.offset, s.bufs[op.slot][..op.len], o.offset, o.len);
      }
    } else {
      hide AllApart, AllSound;
      if op.read {
        OverwriteAt(s.bufs[op.slot], 0, job.src[op.offset..op.offset + op.len]);
      } else {
        OverwriteAt(s.dst, op.offset, s.bufs[op.slot][..op.len]);
      }
    }
  }

  lemma MoveCounted(job: Job, s: Copy, w: set<nat>, k: nat)
    requires Counted(s, w) && CanMove(job, s, k)
    ensures Counted(Move(job, s, k), w)
  {
    var s' := Move(job, s, k);
    forall at | at in w ensures !Open(s'.ops, at) {
      SameOpen(s.ops, s'.ops, at);
    }
  }

  lemma MoveRight(job: Job, s: Copy, w: set<nat>, k: nat)
    requires Shape(job, s) && CanMove(job, s, k) && Sound(job, s, s.ops[k]) && Counted(s, w) && Right(job, s, w)
    ensures Right(job, Move(job, s, k), w)
  {
    var s', op := Move(job, s, k), s.ops[k];
    forall at | 0 <= at < |job.src| && !Covers(op, at) ensures s'.dst[at] == s.dst[at] {
    }
    forall at | at in w ensures !Covers(op, at) {
      assert !Open(s.ops, at);
    }
    forall at | 0 <= at < |job.src| && Landed(s.ops, at) ensures Landed(s'.ops, at) {
      LandedStays(s.ops, s'.ops, at);
    }
    forall at | 0 <= at < |job.src| && !op.read && Covers(op, at) ensures Landed(s'.ops, at) {
      assert Covers(s'.ops[k], at);
    }
    hide Landed, Sound, Counted;
    if op.read {
      assert s'.dst == s.dst;
    }
  }

  /** An operation that will move fewer bytes than it was asked for. */
  lemma ShortenedWritten(job: Job, s: Copy, w: set<nat>, k: nat, n: nat)
    requires WrittenInv(job, s, w) && k < |s.ops| && !s.ops[k].done && n <= s.ops[k].len
    ensures WrittenInv(job, Shortened(s, k, n), w)
  {
    var s' := Shortened(s, k, n);
    forall i | 0 <= i < |s'.ops| ensures Sound(job, s', s'.ops[i]) {
      ShortenedSound(job, s, k, n, i);
    }
    hide AllSound, Sound, Shape, Right;
    forall i, j | 0 <= i < j < |s'.ops| ensures Apart(s'.ops[i], s'.ops[j]) {
      assert Apart(s.ops[i], s.ops[j]);
    }
    forall at | at in w ensures !Open(s'.ops, at) {
      OpenShrinks(s.ops, s'.ops, k, at);
    }
    hide Open;
    ShortenedShape(job, s, w, k, n);
  }

  lemma Prefix(bytes: seq<Byte>, at: nat, len: nat, n: nat)
    requires at + len <= |bytes| && n <= len
    ensures bytes[at..at + len][..n] == bytes[at..at + n]
  {
  }

  lemma ShortenedSound(job: Job, s: Copy, k: nat, n: nat, i: nat)
    requires Shape(job, s) && AllSound(job, s) && k < |s.ops| && !s.ops[k].done && n <= s.ops[k].len && i < |s.ops|
    ensures Shape(job, Shortened(s, k, n)) && Sound(job, Shortened(s, k, n), Shortened(s, k, n).ops[i])
  {
    assert Sound(job, s, s.ops[i]);
    if i == k && !s.ops[k].read {
      var op := s.ops[k];
      Prefix(s.bufs[op.slot], 0, op.len, n);
      Prefix(job.src, op.offset, op.len, n);
    }
  }

  lemma ShortenedShape(job: Job, s: Copy, w: set<nat>, k: nat, n: nat)
    requires Shape(job, s) && Right(job, s, w) && k < |s.ops| && !s.ops[k].done
    ensures Shape(job, Shortened(s, k, n)) && Right(job, Shortened(s, k, n), w)
  {
    var s' := Shortened(s, k, n);
    forall at | 0 <= at < |job.src| && Landed(s.ops, at) ensures Landed(s'.ops, at) {
      LandedStays(s.ops, s'.ops, at);
    }
    hide Landed;
  }

  lemma OpenShrinks(ops: seq<Op>, ops': seq<Op>, k: nat, at: nat)
    requires k < |ops| == |ops'| && ops' == ops[k := ops[k].(len := ops'[k].len)] && ops'[k].len <= ops[k].len
    ensures Open(ops', at) ==> Open(ops, at)
  {
    if Open(ops', at) {
      var i :| 0 <= i < |ops'| && Covers(ops'[i], at);
      assert Covers(ops[i], at);
    }
  }

  /** A short or failed transfer keeps everything too. */
  lemma CutWritten(job: Job, s: Copy, w: set<nat>, k: nat, n: nat)
    requires WrittenInv(job, s, w) && k < |s.ops| && !s.ops[k].done && n < s.ops[k].len
    ensures CanCut(job, s, k, n) && WrittenInv(job, Cut(job, s, k, n), w)
  {
    ShortenedWritten(job, s, w, k, n);
    hide WrittenInv;
    MoveWritten(job, Shortened(s, k, n), w, k);
  }

  // ---------- reaping ----------

  function Places(from: nat, len: nat): (w: set<nat>)
    ensures forall at :: at in w <==> from <= at < from + len
    ensures |w| == len
  {
    if len == 0 then {} else Places(from, len - 1) + {from + len - 1}
  }

  /** The places counted after a completion is reaped: those of a write are new. */
  function WithReaped(s: Copy, k: nat, w: set<nat>): set<nat>
    requires k < |s.ops|
  {
    if s.ops[k].read then w else w + Places(s.ops[k].offset, s.ops[k].len)
  }

  lemma ReapWritten(job: Job, s: Copy, w: set<nat>, k: nat)
    requires WrittenInv(job, s, w) && k < |s.ops| && s.ops[k].done
    ensures CanReap(s, k) && WrittenInv(job, Reap(s, k), WithReaped(s, k, w))
  {
    var op := s.ops[k];
    assert Sound(job, s, op);
    if op.read && op.len > 0 {
      ReadReaped(job, s, w, k);
    } else {
      OpReaped(job, s, w, k);
    }
  }

  /** A read, however short, becomes a write of the bytes read. */
  lemma ReadReaped(job: Job, s: Copy, w: set<nat>, k: nat)
    requires WrittenInv(job, s, w) && k < |s.ops| && s.ops[k].done && s.ops[k].read && s.ops[k].len > 0
    ensures CanReap(s, k) && WrittenInv(job, Reap(s, k), w)
  {
    var op := s.ops[k];
    assert Sound(job, s, op);
    var s' := Reap(s, k);
    forall i | 0 <= i < |s'.ops| ensures Sound(job, s', s'.ops[i]) {
      assert Sound(job, s, s.ops[i]);
      assert i != k ==> Apart(op, s.ops[i]) || Apart(s.ops[i], op);
    }
    forall i, j | 0 <= i < j < |s'.ops| ensures Apart(s'.ops[i], s'.ops[j]) {
      assert Apart(s.ops[i], s.ops[j]);
    }
    forall at | at in w ensures !Open(s'.ops, at) {
      SameOpen(s.ops, s'.ops, at);
    }
    hide Sound, Open;
    forall at | 0 <= at < |job.src| && Landed(s.ops, at) ensures Landed(s'.ops, at) {
      LandedStays(s.ops, s'.ops, at);
    }
    hide Landed;
  }

  /** A write, or a read that brought nothing, leaves. */
  lemma OpReaped(job: Job, s: Copy, w: set<nat>, k: nat)
    requires WrittenInv(job, s, w) && k < |s.ops| && s.ops[k].done && (s.ops[k].read ==> s.ops[k].len == 0)
    ensures CanReap(s, k) && WrittenInv(job, Reap(s, k), WithReaped(s, k, w))
  {
    Leaves(job, s, k);
    var s' := Reap(s, k);
    assert Shape(job, s) && AllSound(job, s) && AllApart(s.ops) && Counted(s, w) && Right(job, s, w);
    hide *;
    OthersStay(job, s, k, s');
    ReapedCounted(s, w, k, s');
    ReapedRight(job, s, w, k, s');
    Collected(job, s', WithReaped(s, k, w));
  }

  lemma Collected(job: Job, s: Copy, w: set<nat>)
    requires Shape(job, s) && AllSound(job, s) && AllApart(s.ops) && Counted(s, w) && Right(job, s, w)
    ensures WrittenInv(job, s, w)
  {
  }

  lemma Leaves(job: Job, s: Copy, k: nat)
    requires Shape(job, s) && AllSound(job, s) && k < |s.ops| && s.ops[k].done && (s.ops[k].read ==> s.ops[k].len == 0)
    ensures CanReap(s, k) && s.ops[k].offset + s.ops[k].len <= s.next <= |job.src| == |s.dst|
    ensures var op := s.ops[k];
            !op.read ==> s.dst[op.offset..op.offset + op.len] == job.src[op.offset..op.offset + op.len]
    ensures var s' := Reap(s, k);
            && s'.ops == s.ops[..k] + s.ops[k + 1..] && s'.inflight == s.inflight - 1
            && s'.reqs == s.reqs && s'.bufs == s.bufs && s'.dst == s.dst && s'.next == s.next && s'.tail == s.tail
            && s'.finished == s.finished + s.ops[k].len
  {
    assert Sound(job, s, s.ops[k]);
  }

  lemma OthersStay(job: Job, s: Copy, k: nat, s': Copy)
    requires Shape(job, s) && AllSound(job, s) && AllApart(s.ops) && k < |s.ops|
    requires s'.ops == s.ops[..k] + s.ops[k + 1..] && s'.inflight == s.inflight - 1
    requires s'.reqs == s.reqs && s'.bufs == s.bufs && s'.dst == s.dst && s'.next == s.next && s'.tail == s.tail
    ensures Shape(job, s') && AllSound(job, s') && AllApart(s'.ops)
  {
    assert forall i :: 0 <= i < |s'.ops| ==> s'.ops[i] == s.ops[if i < k then i else i + 1];
    hide Sound, Apart;
    forall i | 0 <= i < |s'.ops| ensures Sound(job, s', s'.ops[i]) {
      SoundStays(job, s, s', s'.ops[i]);
    }
    forall i, j | 0 <= i < j < |s'.ops| ensures Apart(s'.ops[i], s'.ops[j]) {
      assert Apart(s.ops[if i < k then i else i + 1], s.ops[if j < k then j else j + 1]);
    }
  }

  lemma SoundStays(job: Job, s: Copy, s': Copy, op: Op)
    requires Shape(job, s) && Shape(job, s') && Sound(job, s, op)
    requires s'.reqs == s.reqs && s'.bufs == s.bufs && s'.dst == s.dst && s'.next == s.next
    ensures Sound(job, s', op)
  {
  }

  /** Operations that are apart do not cover the same place. */
  lemma CoveredOnce(ops: seq<Op>, k: nat, at: nat)
    requires AllApart(ops) && k < |ops|
    ensures Open(ops[..k] + ops[k + 1..], at) ==> Open(ops, at) && !Covers(ops[k], at)
  {
    var ops' := ops[..k] + ops[k + 1..];
    if Open(ops', at) {
      var i :| 0 <= i < |ops'| && Covers(ops'[i], at);
      var m := if i < k then i else i + 1;
      assert ops'[i] == ops[m];
      assert if m < k then Apart(ops[m], ops[k]) else Apart(ops[k], ops[m]);
    }
  }

  lemma ReapedCounted(s: Copy, w: set<nat>, k: nat, s': Copy)
    requires Counted(s, w) && AllApart(s.ops) && k < |s.ops| && s.ops[k].offset + s.ops[k].len <= s.next
    requires s'.ops == s.ops[..k] + s.ops[k + 1..] && s'.next == s.next && s'.finished == s.finished + s.ops[k].len
    requires s.ops[k].read ==> s.ops[k].len == 0
    ensures Counted(s', WithReaped(s, k, w))
  {
    var op, w' := s.ops[k], WithReaped(s, k, w);
    var more := Places(op.offset, op.len);
    assert w !! more by {
      forall at | at in w && at in more ensures false {
        assert Covers(s.ops[k], at);
      }
    }
    assert w' == w + more;
    forall at | at in w' ensures at < s'.next && !Open(s'.ops, at) {
      CoveredOnce(s.ops, k, at);
    }
  }

  lemma ReapedRight(job: Job, s: Copy, w: set<nat>, k: nat, s': Copy)
    requires Right(job, s, w) && k < |s.ops| && s.ops[k].offset + s.ops[k].len <= |job.src|
    requires s'.ops == s.ops[..k] + s.ops[k + 1..] && s'.dst == s.dst && s.ops[k].done
    requires var op := s.ops[k];
             !op.read ==> s.dst[op.offset..op.offset + op.len] == job.src[op.offset..op.offset + op.len]
    ensures Right(job, s', WithReaped(s, k, w))
  {
    var op, w' := s.ops[k], WithReaped(s, k, w);
    forall at | at in w' ensures at < |job.src| && s'.dst[at] == job.src[at] {
      if at !in w {
        assert s.dst[at] == s.dst[op.offset..op.offset + op.len][at - op.offset];
        assert job.src[at] == job.src[op.offset..op.offset + op.len][at - op.offset];
      }
    }
    forall at | 0 <= at < |job.src| && at !in w' && Landed(s.ops, at) ensures Landed(s'.ops, at) {
      var i :| 0 <= i < |s.ops| && !s.ops[i].read && s.ops[i].done && Covers(s.ops[i], at);
      assert i != k && s'.ops[if i < k then i else i - 1] == s.ops[i];
    }
  }
}
