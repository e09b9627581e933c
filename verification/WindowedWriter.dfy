/** Two programs that write a file block by block with a bounded number of writes outstanding, over one model of the
    ring: one waits for a completion a round, the other takes whatever has completed. */
module WindowedWriter {
  import opened Basics

  /** A write request: which of the program's requests it is, and the file offset. */
  datatype Write = Write(tag: nat, offset: nat)

  /** Where block n starts. */
  function Offset(n: nat, bs: nat): nat {
    n * bs
  }

  lemma NextOffset(n: nat, bs: nat)
    ensures Offset(0, bs) == 0 && Offset(n + 1, bs) == Offset(n, bs) + bs
  {
  }

  /** The first n blocks of bs bytes. */
  function Blocks(n: nat, bs: nat): seq<Write> {
    seq(n, i requires 0 <= i => Write(i, Offset(i, bs)))
  }

  lemma WithoutCounts(s: seq<Write>, i: nat)
    requires i < |s|
    ensures multiset(s) == multiset(Without(s, i)) + multiset{s[i]}
  {
    assert s == s[..i] + [s[i]] + s[i + 1..];
  }

  /** Where a program is: at most window writes of bs bytes outstanding, this many submitted and completed. */
  datatype Progress = Progress(window: nat, bs: nat, submitted: nat, completed: nat)

  /** The ring: requests prepared, and requests the kernel has.  issued and reaped only observe. */
  class Ring {
    const entries: nat
    var queue: seq<Write>
    var inflight: seq<Write>
    ghost var issued: seq<Write>
    ghost var reaped: seq<Write>

    constructor (entries: nat)
      ensures this.entries == entries && queue == [] && inflight == [] && issued == [] && reaped == []
    {
      this.entries := entries;
      queue, inflight, issued, reaped := [], [], [], [];
    }

    /** What both programs keep: the blocks issued and prepared are the first ones, in order, each once; those issued
        are reaped or with the kernel; and no more than window are outstanding. */
    ghost predicate Windowed(p: Progress)
      reads this
    {
      && entries >= 2 * p.window
      && issued + queue == Blocks(p.submitted, p.bs)
      && multiset(reaped) + multiset(inflight) == multiset(issued)
      && |reaped| == p.completed && |reaped| + |inflight| == |issued|
      && p.completed <= p.submitted <= p.completed + p.window
    }

    /** Fill an entry of the submission queue, unless it is full; within the window it never is. */
    method Prepare(w: Write, ghost p: Progress) returns (ok: bool)
      requires Windowed(p) && p.submitted < p.completed + p.window && w == Write(p.submitted, Offset(p.submitted, p.bs))
      modifies `queue
      ensures ok && Windowed(p.(submitted := p.submitted + 1)) && queue == old(queue) + [w]
    {
      assert |issued + queue| == p.submitted;
      NextBlock(p.submitted, p.bs);
      ok := |queue| < entries;
      if ok {
        assert issued + queue + [w] == issued + (queue + [w]);
        queue := queue + [w];
      }
    }

    method Submit(ghost p: Progress)
      requires Windowed(p)
      modifies this
      ensures Windowed(p) && queue == [] && |inflight| == p.submitted - p.completed
    {
      assert |issued + queue| == p.submitted;
      inflight, issued, queue := inflight + queue, issued + queue, [];
      assert issued + queue == issued;
    }

    /** Reap a completion; writes complete in any order, and there is one to wait for only if the kernel has a write. */
    method Reap(choice: nat, ghost p: Progress)
      requires Windowed(p) && inflight != []
      modifies `inflight, `reaped
      ensures Windowed(p.(completed := p.completed + 1)) && |inflight| == |old(inflight)| - 1
    {
      var i := choice % |inflight|;
      WithoutCounts(inflight, i);
      assert |issued + queue| == p.submitted;
      reaped := reaped + [inflight[i]];
      inflight := Without(inflight, i);
    }
  }

  lemma NextBlock(n: nat, bs: nat)
    ensures Blocks(n, bs) + [Write(n, Offset(n, bs))] == Blocks(n + 1, bs)
  {
  }

  /** All blocks were written once, in order, and reaped once. */
  ghost predicate AllWritten(r: Ring, count: nat, bs: nat)
    reads r
  {
    && r.queue == [] && r.inflight == []
    && r.issued == Blocks(count, bs) && multiset(r.reaped) == multiset(r.issued)
  }

  lemma Finish(r: Ring, p: Progress)
    requires r.Windowed(p) && r.queue == [] && p.completed == p.submitted
    ensures AllWritten(r, p.submitted, p.bs)
  {
    assert r.issued + r.queue == r.issued;
  }

  ghost predicate Fresh(r: Ring)
    reads r
  {
    r.queue == [] && r.inflight == [] && r.issued == [] && r.reaped == []
  }

  lemma BeginsWindow(r: Ring, window: nat, bs: nat)
    requires Fresh(r) && r.entries >= 2 * window
    ensures r.Windowed(Progress(window, bs, 0, 0)) && r.queue == []
  {
  }

  function Min(a: int, b: int): int {
    if a < b then a else b
  }

  /** uringwritesync.c: a running offset, and one completion waited for in each round.  choice is the order in which
      the kernel completes; depths is how many writes are outstanding at each wait, which is always as many as the
      window and the blocks left allow. */
  method WriteSync(r: Ring, window: nat, count: nat, bs: nat, choice: nat -> nat) returns (ghost depths: seq<nat>)
    requires window > 0 && r.entries >= 2 * window && Fresh(r)
    modifies r
    ensures AllWritten(r, count, bs)
    ensures |depths| == count && forall k :: 0 <= k < count ==> depths[k] == Min(window, count - k)
  {
    depths := [];
    var submitted, completed, offset := 0, 0, 0;
    NextOffset(0, bs);
    BeginsWindow(r, window, bs);
    hide Ring.Windowed, Fresh, Offset;
    while completed < count
      invariant r.Windowed(Progress(window, bs, submitted, completed)) && r.queue == []
      invariant offset == Offset(submitted, bs) && completed <= submitted <= count
      invariant |depths| == completed && forall k :: 0 <= k < completed ==> depths[k] == Min(window, count - k)
      decreases count - completed
    {
      while submitted - completed < window && submitted < count
        invariant r.Windowed(Progress(window, bs, submitted, completed))
        invariant offset == Offset(submitted, bs) && completed <= submitted <= count
      {
        var ok := r.Prepare(Write(submitted, offset), Progress(window, bs, submitted, completed));
        if !ok {
          break;
        }
        NextOffset(submitted, bs);
        offset := offset + bs;
        submitted := submitted + 1;
      }
      r.Submit(Progress(window, bs, submitted, completed));
      depths := depths + [|r.inflight|];
      r.Reap(choice(completed), Progress(window, bs, submitted, completed));
      completed := completed + 1;
    }
    Finish(r, Progress(window, bs, submitted, completed));
  }

  const INT_MAX: nat := 0x7FFF_FFFF

  /** uringwritefull.c computes its offsets in 32-bit ints, with blocks of 64 bytes: they are right exactly for counts
      up to 2^25. */
  lemma OffsetsFit(count: nat)
    ensures (forall i: nat :: i < count ==> Offset(i, 64) <= INT_MAX) <==> count <= 0x200_0000
  {
    if count > 0x200_0000 {
      assert Offset(0x200_0000, 64) > INT_MAX;
    }
  }

  /** Rounds in which the kernel has something ready. */
  function Busy(polls: seq<nat>): nat {
    if polls == [] then 0
    else Busy(polls[..|polls| - 1]) + if polls[|polls| - 1] > 0 then 1 else 0
  }

  /** What the rounds can reap at most: all that is ready, but no more than the window. */
  function Capped(polls: seq<nat>, window: nat): nat {
    if polls == [] then 0
    else Capped(polls[..|polls| - 1], window) + Min(polls[|polls| - 1], window)
  }

  lemma {:induction false} CappedGrows(polls: seq<nat>, window: nat, round: nat)
    requires round <= |polls|
    ensures Capped(polls[..round], window) <= Capped(polls, window)
    decreases |polls| - round
  {
    if round < |polls| {
      assert polls[..round + 1][..round] == polls[..round];
      CappedGrows(polls, window, round + 1);
    } else {
      assert polls[..round] == polls;
    }
  }

  lemma {:induction false} BusyIsLess(polls: seq<nat>, window: nat)
    requires window > 0
    ensures Busy(polls) <= Capped(polls, window)
  {
    if polls != [] {
      BusyIsLess(polls[..|polls| - 1], window);
    }
  }

  /** Reap as long as something is ready: as many as are, but no more than are outstanding. */
  method ReapReady(r: Ring, ghost window: nat, ghost bs: nat, ghost submitted: nat, completed: nat, ready: nat,
                   choice: nat -> nat) returns (completed': nat)
    requires r.Windowed(Progress(window, bs, submitted, completed)) && r.queue == []
    requires completed <= submitted && |r.inflight| == submitted - completed
    modifies r
    ensures completed' == completed + Min(ready, submitted - completed)
    ensures r.Windowed(Progress(window, bs, submitted, completed')) && r.queue == []
    ensures |r.inflight| == submitted - completed'
  {
    completed' := completed;
    hide Ring.Windowed;
    while completed' - completed < ready && r.inflight != []
      invariant r.Windowed(Progress(window, bs, submitted, completed')) && r.queue == []
      invariant completed <= completed' <= submitted && |r.inflight| == submitted - completed'
      invariant completed' - completed <= ready
      decreases submitted - completed'
    {
      r.Reap(choice(completed'), Progress(window, bs, submitted, completed'));
      completed' := completed' + 1;
    }
  }

  /** uringwritefull.c: precomputed offsets, and in each round as many completions as there are.  polls is how many the
      kernel has ready in each round; a round reaps all that are ready of the window it has filled, so the program has
      polled enough exactly when these add up to count, and at the latest when count rounds have found something. */
  method WriteFull(r: Ring, window: nat, count: nat, bs: nat, polls: seq<nat>,
                   choice: nat -> nat) returns (finished: bool)
    requires window > 0 && r.entries >= 2 * window && Fresh(r)
    modifies r
    ensures finished ==> AllWritten(r, count, bs)
    ensures finished <==> Capped(polls, window) >= count
    ensures Busy(polls) >= count ==> finished
  {
    BusyIsLess(polls, window);
    var reqs := Blocks(count, bs);
    BeginsWindow(r, window, bs);
    hide Ring.Windowed, Fresh, Offset;
    var submitted: nat, completed: nat, round: nat := 0, 0, 0;
    while completed < count && round < |polls|
      invariant r.Windowed(Progress(window, bs, submitted, completed)) && r.queue == []
      invariant completed <= submitted <= count && round <= |polls|
      invariant completed == Min(count, Capped(polls[..round], window))
      decreases |polls| - round
    {
      while submitted - completed < window && submitted < count
        invariant r.Windowed(Progress(window, bs, submitted, completed))
        invariant completed <= submitted <= count
      {
        var ok := r.Prepare(reqs[submitted], Progress(window, bs, submitted, completed));
        if !ok {
          break;
        }
        submitted := submitted + 1;
      }
      r.Submit(Progress(window, bs, submitted, completed));
      var ready := polls[round];
      assert polls[..round + 1][..round] == polls[..round];
      completed := ReapReady(r, window, bs, submitted, completed, ready, choice);
      round := round + 1;
    }
    finished := completed >= count;
    assert polls[..|polls|] == polls;
    CappedGrows(polls, window, round);
    if finished {
      Finish(r, Progress(window, bs, submitted, completed));
    }
  }
}
