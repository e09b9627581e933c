/** Every call makes progress: each step of a thread brings its call nearer to its end, and no step of another thread
    sets it back, except while it still has to lock hashlock. */
module RefTableProgress {
  import opened RefTable
  import opened RefTableInvariant
  import opened RefTableSafety

  /** The first place of p in a chain, or the chain's length. */
  function PosOf(c: seq<Ptr>, p: Ptr): (k: nat)
    ensures k <= |c| && (k < |c| ==> c[k] == p) && forall i :: 0 <= i < k ==> c[i] != p
  {
    if c == [] || c[0] == p then 0
    else
      var k := PosOf(c[1..], p);
      assert forall i :: 0 < i <= k ==> c[i] == c[1..][i - 1] || i == k + 1;
      1 + k
  }

  /** 1 while the call has still to lock hashlock, or may have to. */
  function Stage(pc: nat): nat {
    if pc == 38 || pc == 54 || pc == 74 || pc == 75 || pc == 76 || pc == 78 then 1 else 0
  }

  /** Lines left in the stage: those behind a walk, and for a walk the objects still ahead in its chain. */
  function Left(s: State, ch: Chains, th: Thread): nat
    requires |ch| == NHASH
  {
    var c := ch[Hash(th.id)];
    var d := if th.fp in s.heap then ch[Hash(s.heap[th.fp].id)] else [];
    if th.pc == 39 then 5 else if th.pc == 40 then 4 else if th.pc == 41 then 3 else if th.pc == 42 then 2
    else if th.pc == 55 then |c| + 6 else if th.pc == 56 then |c| - PosOf(c, th.fp) + 5
    else if th.pc == 57 then 4 else if th.pc == 58 then 3 else if th.pc == 60 then 2
    else if th.pc == 74 then 4 else if th.pc == 75 then 3 else if th.pc == 76 then 2
    else if th.pc == 79 then |d| + 7 else if th.pc == 81 then |d| + 6 else if th.pc == 82 then 2
    else if th.pc == 88 then |d| + 5
    else if th.pc == 93 then
      4 + if PosOf(d, th.tfp) < PosOf(d, th.fp) then PosOf(d, th.fp) - PosOf(d, th.tfp) else 0
    else if th.pc == 91 || th.pc == 95 then 4 else if th.pc == 98 then 3 else if th.pc == 99 then 2
    else if th.pc == IDLE then 0 else 1
  }

  /** No more than the objects of one bucket and seven lines. */
  lemma LeftBound(s: State, ch: Chains, th: Thread)
    requires |ch| == NHASH
    ensures exists b: nat :: b < NHASH && Left(s, ch, th) <= |ch[b]| + 7
  {
    hide Hash, PosOf;
    var b := Hash(if th.pc == 55 || th.pc == 56 || th.fp !in s.heap then th.id else s.heap[th.fp].id);
    assert Left(s, ch, th) <= |ch[b]| + 7;
  }

  /** The lines at which Left depends on the chains. */
  predicate Walks(pc: nat) {
    pc == 55 || pc == 56 || pc == 79 || pc == 81 || pc == 88 || pc == 93
  }

  predicate Nearer(s: State, ch: Chains, th: Thread, s': State, ch': Chains, th': Thread)
    requires |ch| == NHASH && |ch'| == NHASH
  {
    Stage(th'.pc) < Stage(th.pc) || (Stage(th'.pc) == Stage(th.pc) && Left(s', ch', th') < Left(s, ch, th))
  }

  // ---------- the walks ----------

  lemma PosAt(c: seq<Ptr>, i: nat)
    requires i < |c| && forall j, k :: 0 <= j < k < |c| ==> c[j] != c[k]
    ensures PosOf(c, c[i]) == i
  {
  }

  /** What foo_find's loop does next, from place k of its bucket. */
  lemma FindTurn(s: State, ch: Chains, th: Thread, k: nat)
    requires ChainsOk(s, ch) && th.pc == 56 && k <= |ch[Hash(th.id)]| && th.fp == At(ch[Hash(th.id)], k)
    requires Touches(th) <= s.heap.Keys
    ensures |s.fh| == NHASH && forall i :: 0 <= i < |ch[Hash(th.id)]| ==> ch[Hash(th.id)][i] in s.heap
    ensures var c := ch[Hash(th.id)];
            LocalStep(s, th) ==
              if k == |c| then th.(pc := 65)
              else if s.heap[c[k]].id == th.id then th.(pc := 57)
              else th.(fp := At(c, k + 1))
  {
    hide Hash, ChainsOk;
    Sizes(s, ch);
    Bucket(s, ch, Hash(th.id));
    BucketOk(s, ch, Hash(th.id));
    if k < |ch[Hash(th.id)]| {
      Element(s, ch, Hash(th.id), k);
    }
  }

  lemma PosNull(s: State, ch: Chains, b: nat)
    requires ChainsOk(s, ch) && b < NHASH
    ensures PosOf(ch[b], NULL) == |ch[b]|
    ensures forall i :: 0 <= i <= |ch[b]| ==> PosOf(ch[b], At(ch[b], i)) == i
  {
    Bucket(s, ch, b);
    BucketOk(s, ch, b);
    Distinct(s, b, ch[b]);
    hide ChainsOk;
    forall i | 0 <= i <= |ch[b]| ensures PosOf(ch[b], At(ch[b], i)) == i {
      if i < |ch[b]| {
        PosAt(ch[b], i);
      }
    }
  }

  lemma FindNearer(s: State, ch: Chains, th: Thread)
    requires ChainsOk(s, ch) && WalkOk(s, ch, th) && (th.pc == 55 || th.pc == 56) && Touches(th) <= s.heap.Keys
    ensures Left(s, ch, LocalStep(s, th)) < Left(s, ch, th) && Stage(LocalStep(s, th).pc) == 0
  {
    var b := Hash(th.id);
    PosNull(s, ch, b);
    Bucket(s, ch, b);
    if th.pc == 56 {
      var k :| 0 <= k <= |ch[b]| && th.fp == At(ch[b], k) && NoneBefore(s.heap, ch[b], k, th.id);
      FindTurn(s, ch, th, k);
    }
    hide ChainsOk, Hash, PosOf;
  }

  /** What the unlink loop does next, from place i of its bucket, when fp is at place m. */
  lemma UnlinkTurn(s: State, ch: Chains, th: Thread, i: nat, m: nat)
    requires ChainsOk(s, ch) && th.pc == 93 && th.fp in s.heap && Touches(th) <= s.heap.Keys
    requires var d := ch[Hash(s.heap[th.fp].id)]; i < m < |d| && d[i] == th.tfp && d[m] == th.fp
    ensures |s.fh| == NHASH
    ensures LocalStep(s, th) == if i + 1 == m then th.(pc := 95) else th.(tfp := ch[Hash(s.heap[th.fp].id)][i + 1])
  {
    hide Hash, ChainsOk;
    Sizes(s, ch);
    var b := Hash(s.heap[th.fp].id);
    Element(s, ch, b, i);
    BucketOk(s, ch, b);
    Distinct(s, b, ch[b]);
    hide ChainOk, Threaded, In;
  }

  lemma LeftOnWalk(s: State, ch: Chains, th: Thread, i: nat, m: nat)
    requires ChainsOk(s, ch) && th.fp in s.heap && (th.pc == 93 || th.pc == 95)
    requires var d := ch[Hash(s.heap[th.fp].id)]; i < m < |d| && (th.pc == 93 ==> d[i] == th.tfp) && d[m] == th.fp
    ensures Left(s, ch, th) == if th.pc == 93 then 4 + m - i else 4
  {
    hide ChainsOk, Hash, PosOf;
    Sizes(s, ch);
    var b := Hash(s.heap[th.fp].id);
    PosNull(s, ch, b);
    assert At(ch[b], i) == ch[b][i] && At(ch[b], m) == ch[b][m];
  }

  lemma UnlinkNearer(s: State, ch: Chains, th: Thread)
    requires ChainsOk(s, ch) && WalkOk(s, ch, th) && RefsOk(s, ch, th) && Touches(th) <= s.heap.Keys && th.pc == 93
    ensures Left(s, ch, LocalStep(s, th)) < Left(s, ch, th) && Stage(LocalStep(s, th).pc) == 0
  {
    Sizes(s, ch);
    var d := ch[Hash(s.heap[th.fp].id)];
    var i, m :| 0 <= i < m < |d| && d[i] == th.tfp && d[m] == th.fp;
    hide ChainsOk, Hash, PosOf, Left, WalkOk, RefsOk, LocalStep;
    UnlinkTurn(s, ch, th, i, m);
    hide Touches;
    LeftOnWalk(s, ch, th, i, m);
    LeftOnWalk(s, ch, LocalStep(s, th), if i + 1 == m then i else i + 1, m);
  }

  /** The test of the count, and the choice between unlinking the head and walking. */
  lemma TestNearer(s: State, ch: Chains, th: Thread)
    requires |ch| == NHASH && |s.fh| == NHASH && th.fp in s.heap && (th.pc == 81 || th.pc == 88)
    requires Touches(th) <= s.heap.Keys
    ensures Left(s, ch, LocalStep(s, th)) < Left(s, ch, th) && Stage(LocalStep(s, th).pc) == 0
  {
    var th' := LocalStep(s, th);
    assert th'.fp == th.fp && th'.id == th.id;
    assert th.pc == 81 ==> th'.pc == 82 || th'.pc == 88;
    assert th.pc == 88 ==> th'.pc == 91 || th'.pc == 93;
    hide LocalStep, Hash, Touches, PosOf;
  }

  // ---------- one's own steps ----------

  lemma LockNearer(s: State, ch: Chains, th: Thread, s': State, th': Thread)
    requires |ch| == NHASH && th'.pc == After(th.pc) && th'.fp == th.fp && th'.id == th.id
    requires WantsTable(th.pc) || UnlocksTable(th.pc) || WantsObj(th.pc) || UnlocksObj(th.pc)
    requires th.pc == 79 ==> th.fp in s.heap && th.fp in s'.heap && s'.heap[th.fp].id == s.heap[th.fp].id
    ensures Nearer(s, ch, th, s', ch, th')
  {
    hide Hash, PosOf;
  }

  lemma WriteNearer(s: State, ch: Chains, t: Tid, ch': Chains)
    requires |ch| == NHASH && |ch'| == NHASH && t < |s.threads| && |s.fh| == NHASH && s.threads[t].fp in s.heap
    requires s.threads[t].pc == 95 ==> s.threads[t].tfp in s.heap
    requires Writes(s.threads[t].pc)
    ensures |WriteStep(s, t).threads| == |s.threads|
    ensures Nearer(s, ch, s.threads[t], WriteStep(s, t), ch', WriteStep(s, t).threads[t])
  {
    hide Hash, PosOf;
  }

  lemma Sized(s: State, ch: Chains)
    requires Inv(s, ch)
    ensures |ch| == NHASH && ChainsOk(s, ch)
  {
  }

  lemma LocalNearer(s: State, ch: Chains, t: Tid)
    requires Inv(s, ch) && t < |s.threads| && OnlyLocal(s.threads[t].pc) && Touches(s.threads[t]) <= s.heap.Keys
    ensures |ch| == NHASH && |s.fh| == NHASH
    ensures var s' := SetThread(s, t, LocalStep(s, s.threads[t]));
            Nearer(s, ch, s.threads[t], s', ch, s'.threads[t])
  {
    hide Inv, ChainsOk, LocksOk, CountsOk, AloneOk, RefsOk, WalkOk;
    Unfold(s, ch, t);
    var th := s.threads[t];
    if th.pc == 55 || th.pc == 56 {
      FindNearer(s, ch, th);
    } else if th.pc == 93 {
      UnlinkNearer(s, ch, th);
    } else {
      assert th.fp in s.heap;
      TestNearer(s, ch, th);
    }
    hide LocalStep, Touches;
    SameLeft(s, ch, SetThread(s, t, LocalStep(s, th)), LocalStep(s, th));
    hide Left;
  }

  lemma SameLeft(s: State, ch: Chains, s': State, th: Thread)
    requires |ch| == NHASH
    requires th.fp in s.heap <==> th.fp in s'.heap
    requires th.fp in s.heap ==> s'.heap[th.fp].id == s.heap[th.fp].id
    ensures Left(s', ch, th) == Left(s, ch, th)
  {
  }

  /** Every step of a running call brings it nearer to its end. */
  lemma OwnStepNearer(s: State, ch: Chains, t: Tid) returns (ch': Chains)
    requires Inv(s, ch) && UnlinkAlone(s) && Ready(s, t) && IsLine(s.threads[t].pc)
    ensures |ch| == NHASH && Inv(Advance(s, t), ch') && |ch'| == NHASH && |Advance(s, t).threads| == |s.threads|
    ensures ch' == ch || Relinks(s.threads[t].pc)
    ensures Nearer(s, ch, s.threads[t], Advance(s, t), ch', Advance(s, t).threads[t])
  {
    var s', pc := Advance(s, t), s.threads[t].pc;
    LineKind(s, t);
    Sized(s, ch);
    hide *;
    ch' := KeepRun(s, ch, t, s');
    Sized(s', ch');
    StepShape(s, t);
    if OnlyLocal(pc) {
      LocalNearer(s, ch, t);
    } else if Writes(pc) {
      WriteNearer(s, ch, t, ch');
    } else {
      LockNearer(s, ch, s.threads[t], s', s'.threads[t]);
    }
  }

  lemma LineKind(s: State, t: Tid)
    requires Ready(s, t) && IsLine(s.threads[t].pc)
    ensures |s.fh| == NHASH && t < |s.threads| && |Advance(s, t).threads| == |s.threads|
    ensures var pc := s.threads[t].pc;
            OnlyLocal(pc) || Writes(pc) || WantsTable(pc) || UnlocksTable(pc) || WantsObj(pc) || UnlocksObj(pc)
    ensures OnlyLocal(s.threads[t].pc) ==> Touches(s.threads[t]) <= s.heap.Keys
    ensures Writes(s.threads[t].pc) ==>
              s.threads[t].fp in s.heap && (s.threads[t].pc == 95 ==> s.threads[t].tfp in s.heap)
  {
    Kinds(s, t);
    hide Ready, Touches, LocalStep, WriteStep;
  }

  /** What a step does, and that a lock step only moves on and changes no id. */
  lemma StepShape(s: State, t: Tid)
    requires Ready(s, t) && IsLine(s.threads[t].pc)
    ensures |Advance(s, t).threads| == |s.threads| && |s.fh| == NHASH
    ensures OnlyLocal(s.threads[t].pc) ==>
              Touches(s.threads[t]) <= s.heap.Keys && Advance(s, t) == SetThread(s, t, LocalStep(s, s.threads[t]))
    ensures Writes(s.threads[t].pc) && !OnlyLocal(s.threads[t].pc) ==>
              && s.threads[t].fp in s.heap && (s.threads[t].pc == 95 ==> s.threads[t].tfp in s.heap)
              && Advance(s, t) == WriteStep(s, t)
    ensures !OnlyLocal(s.threads[t].pc) && !Writes(s.threads[t].pc) ==>
              var s', th, th' := Advance(s, t), s.threads[t], Advance(s, t).threads[t];
              && th'.pc == After(th.pc) && th'.fp == th.fp && th'.id == th.id
              && (th.pc == 79 ==> th.fp in s.heap && th.fp in s'.heap && s'.heap[th.fp].id == s.heap[th.fp].id)
  {
    Kinds(s, t);
    hide Ready, Touches, LocalStep, WriteStep, After, Handed, Advance;
  }

  // ---------- the steps of others ----------

  /** No step changes an id, and only line 101 frees. */
  lemma IdsKept(s: State, e: Event, s': State)
    requires Step(s, e, s') && (e.a.Run? ==> e.t < |s.threads| && IsLine(s.threads[e.t].pc))
    ensures forall p :: p in s.heap && p in s'.heap ==> s'.heap[p].id == s.heap[p].id
    ensures forall p :: p in s.heap && p !in s'.heap ==>
              e.t < |s.threads| && s.threads[e.t].pc == 101 && s.threads[e.t].fp == p
  {
    hide Hash, After, Handed, Faults;
    if e.a.Run? {
      Kinds(s, e.t);
      hide Ready, Advance;
      hide LocalStep;
    }
  }

  lemma LeftFrame(s: State, ch: Chains, s': State, ch': Chains, th: Thread)
    requires |ch| == NHASH && |ch'| == NHASH && (Walks(th.pc) ==> ch' == ch)
    requires Walks(th.pc) && th.pc != 55 && th.pc != 56 ==>
               th.fp in s.heap && th.fp in s'.heap && s'.heap[th.fp].id == s.heap[th.fp].id
    ensures Left(s', ch', th) == Left(s, ch, th)
  {
    hide Hash, PosOf;
  }

  /** No step of another thread sets a call back, once it has hashlock or needs it no more. */
  lemma OtherStepKeeps(s: State, ch: Chains, e: Event, s': State, t: Tid) returns (ch': Chains)
    requires Inv(s, ch) && UnlinkAlone(s) && LinesOk(s) && Step(s, e, s') && e.t != t && t < |s.threads|
    ensures |ch| == NHASH && |ch'| == NHASH && Inv(s', ch')
    ensures |s'.threads| == |s.threads| && s'.threads[t] == s.threads[t]
    ensures Left(s', ch', s.threads[t]) == Left(s, ch, s.threads[t])
  {
    OnlyMine(s, e, s');
    var th := s.threads[t];
    assert IsLine(s.threads[e.t].pc);
    hide UnlinkAlone, LinesOk, Advance, Begin, Ready, Inv;
    ch' := StepKeepsInv(s, ch, e, s');
    IdsKept(s, e, s');
    Sized(s, ch);
    Sized(s', ch');
    Unfold(s, ch, t);
    Unfold(s, ch, e.t);
    hide Step, ChainsOk, CountsOk, AloneOk, WalkOk;
    assert Walks(th.pc) && th.pc != 55 && th.pc != 56 ==> Names(th.pc) && !Outside(th.pc) && th.fp in s.heap;
    if s.threads[e.t].pc == 101 && Names(th.pc) {
      StrangersDoNotName(s, ch, e.t, t);
    }
    LeftFrame(s, ch, s', ch', th);
  }

  // ---------- over runs ----------

  /** The steps t takes between two states of a run. */
  function OwnSteps(events: seq<Event>, t: Tid, i: nat, j: nat): nat
    requires i <= j <= |events|
  {
    if i == j then 0 else OwnSteps(events, t, i, j - 1) + if events[j - 1].t == t then 1 else 0
  }

  /** In every run in which the table is safe, a call that has hashlock, or needs it no more, takes no more steps than
      there are lines and objects ahead of it, however the others are interleaved with it. */
  lemma {:induction false} CallIsBounded(states: seq<State>, events: seq<Event>, t: Tid, i: nat, j: nat, ch: Chains)
    returns (ch': Chains)
    requires IsRun(states, events) && i <= j < |states| && Inv(states[i], ch) && t < |states[i].threads|
    requires forall k :: i <= k < j ==> UnlinkAlone(states[k])
    requires forall k :: i <= k < j ==> (events[k].t == t ==> events[k].a.Run?)
    requires LinesOk(states[i]) && Stage(states[i].threads[t].pc) == 0
    ensures |ch| == NHASH && |ch'| == NHASH && Inv(states[j], ch') && LinesOk(states[j]) && t < |states[j].threads|
    ensures Stage(states[j].threads[t].pc) == 0
    ensures OwnSteps(events, t, i, j) + Left(states[j], ch', states[j].threads[t])
            <= Left(states[i], ch, states[i].threads[t])
    decreases j
  {
    hide Inv, UnlinkAlone, LinesOk, Left, IsRun, Step, Stage;
    RunLength(states, events);
    if i == j {
      ch' := ch;
      Sized(states[i], ch);
    } else {
      ch' := CallIsBounded(states, events, t, i, j - 1, ch);
      var s, e, s' := states[j - 1], events[j - 1], states[j];
      assert UnlinkAlone(s) && (e.t == t ==> e.a.Run?);
      assert OwnSteps(events, t, i, j) == OwnSteps(events, t, i, j - 1) + if e.t == t then 1 else 0;
      StepOfRun(states, events, j - 1);
      hide *;
      LinesKept(s, e, s');
      if e.t == t {
        ch' := OneOwnStep(s, ch', t);
      } else {
        ch' := OtherStepKeeps(s, ch', e, s', t);
      }
    }
  }

  lemma RunLength(states: seq<State>, events: seq<Event>)
    requires IsRun(states, events)
    ensures |states| == |events| + 1
  {
  }

  lemma StepOfRun(states: seq<State>, events: seq<Event>, k: nat)
    requires IsRun(states, events) && k < |events|
    ensures k + 1 < |states| && Step(states[k], events[k], states[k + 1])
    ensures events[k].a.Run? ==> Ready(states[k], events[k].t) && states[k + 1] == Advance(states[k], events[k].t)
  {
    hide Ready, Advance, CanCall, Begin;
  }

  lemma OneOwnStep(s: State, ch: Chains, t: Tid) returns (ch': Chains)
    requires Inv(s, ch) && UnlinkAlone(s) && LinesOk(s) && Ready(s, t) && Stage(s.threads[t].pc) == 0
    ensures |ch| == NHASH && |ch'| == NHASH && Inv(Advance(s, t), ch')
    ensures |Advance(s, t).threads| == |s.threads| && Stage(Advance(s, t).threads[t].pc) == 0
    ensures Left(Advance(s, t), ch', Advance(s, t).threads[t]) < Left(s, ch, s.threads[t])
  {
    assert IsLine(s.threads[t].pc);
    hide Inv, UnlinkAlone, LinesOk, Left, Advance, Ready;
    ch' := OwnStepNearer(s, ch, t);
  }
}
