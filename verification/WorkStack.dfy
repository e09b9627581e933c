/** The condition-variable work stack: any number of producers and consumers, spurious wakeups, and a signal sent after
    the lock is released. */
module WorkStack {
  import opened Basics

  /** Where a producer is: lines 39, 41-42, 44 and 45, and between two messages. */
  datatype ProducerAt = Locking39 | Pushing41 | Unlocking44 | Signalling45 | Resting

  /** Where a consumer is: lines 20, 22 and 24, asleep in the wait, awake in it without the lock, and lines 27-28, 29
      and 30-32. */
  datatype ConsumerAt = Locking20 | Testing22 | Waiting24 | Asleep | Woken | Taking27 | Unlocking29 | Handling30

  /** msg is the message a producer has at hand, and the one a consumer has taken. */
  datatype Thread = Producer(at: ProducerAt, msg: int) | Consumer(stage: ConsumerAt, taken: int)

  /** entered and handled only observe: the messages pushed and those processed. */
  datatype State = State(stack: seq<int>, owner: Option<nat>, threads: seq<Thread>, entered: multiset<int>,
                         handled: multiset<int>)

  predicate Init(s: State) {
    && s.stack == [] && s.owner == None && s.entered == multiset{} && s.handled == multiset{}
    && forall t :: 0 <= t < |s.threads| ==>
         (s.threads[t].Producer? && s.threads[t].at == Resting)
             || (s.threads[t].Consumer? && s.threads[t].stage == Locking20)
  }

  function Put(s: State, t: nat, th: Thread): State
    requires t < |s.threads|
  {
    s.(threads := s.threads[t := th])
  }

  predicate IsAsleep(th: Thread) {
    th.Consumer? && th.stage == Asleep
  }

  predicate NoneAsleep(threads: seq<Thread>) {
    forall u :: 0 <= u < |threads| ==> !IsAsleep(threads[u])
  }

  ghost predicate ProducerStep(s: State, s': State, t: nat)
    requires t < |s.threads| && s.threads[t].Producer?
  {
    var Producer(at, msg) := s.threads[t];
    match at
    case Resting => exists m :: s' == Put(s, t, Producer(Locking39, m))
    case Locking39 => s.owner == None && s' == Put(s, t, Producer(Pushing41, msg)).(owner := Some(t))
    case Pushing41 =>
      s' == Put(s, t, Producer(Unlocking44, msg)).(stack := [msg] + s.stack, entered := s.entered + multiset{msg})
    case Unlocking44 => s' == Put(s, t, Producer(Signalling45, msg)).(owner := None)
    case Signalling45 =>
      var s1 := Put(s, t, Producer(Resting, msg));
      if NoneAsleep(s.threads) then s' == s1
      else exists u ::
             0 <= u < |s.threads| && IsAsleep(s.threads[u]) && s' == Put(s1, u, Consumer(Woken, s.threads[u].taken))
  }

  ghost predicate ConsumerStep(s: State, s': State, t: nat)
    requires t < |s.threads| && s.threads[t].Consumer?
  {
    var Consumer(stage, msg) := s.threads[t];
    match stage
    case Locking20 => s.owner == None && s' == Put(s, t, Consumer(Testing22, msg)).(owner := Some(t))
    case Testing22 => s' == Put(s, t, Consumer(if s.stack == [] then Waiting24 else Taking27, msg))
    case Waiting24 => s' == Put(s, t, Consumer(Asleep, msg)).(owner := None)
    case Asleep => s' == Put(s, t, Consumer(Woken, msg))
    case Woken => s.owner == None && s' == Put(s, t, Consumer(Testing22, msg)).(owner := Some(t))
    case Taking27 => s.stack != [] && s' == Put(s, t, Consumer(Unlocking29, s.stack[0])).(stack := s.stack[1..])
    case Unlocking29 => s' == Put(s, t, Consumer(Handling30, msg)).(owner := None)
    case Handling30 => s' == Put(s, t, Consumer(Locking20, msg)).(handled := s.handled + multiset{msg})
  }

  ghost predicate Step(s: State, s': State, t: nat) {
    t < |s.threads| && if s.threads[t].Producer? then ProducerStep(s, s', t) else ConsumerStep(s, s', t)
  }

  // ---------- the invariant ----------

  predicate HasLock(th: Thread) {
    match th
    case Producer(at, _) => at == Pushing41 || at == Unlocking44
    case Consumer(stage, _) => stage == Testing22 || stage == Waiting24 || stage == Taking27 || stage == Unlocking29
  }

  /** The lock's owner is the one thread between taking and giving it back. */
  predicate LockOk(s: State) {
    && (s.owner.Some? ==> s.owner.value < |s.threads|)
    && forall t :: 0 <= t < |s.threads| ==> (HasLock(s.threads[t]) <==> s.owner == Some(t))
  }

  /** A consumer that has tested still sees what it saw. */
  predicate TestsHold(s: State) {
    forall t :: 0 <= t < |s.threads| && s.threads[t].Consumer? ==>
      && (s.threads[t].stage == Waiting24 ==> s.stack == [])
      && (s.threads[t].stage == Taking27 ==> s.stack != [])
  }

  /** The thread will look at the stack without being woken, or will wake one that does. */
  predicate Alert(th: Thread) {
    match th
    case Producer(at, _) => at == Unlocking44 || at == Signalling45
    case Consumer(stage, _) => stage != Asleep
  }

  /** No wakeup is lost: while there is a message, not everyone who could take it sleeps. */
  ghost predicate NoneLost(s: State) {
    s.stack != [] ==> exists t :: 0 <= t < |s.threads| && Alert(s.threads[t])
  }

  ghost predicate HasConsumer(s: State) {
    exists t :: 0 <= t < |s.threads| && s.threads[t].Consumer?
  }

  function Held(th: Thread): multiset<int> {
    if th.Consumer? && (th.stage == Unlocking29 || th.stage == Handling30) then multiset{th.taken} else multiset{}
  }

  function AllHeld(threads: seq<Thread>): multiset<int> {
    if threads == [] then multiset{} else Held(threads[0]) + AllHeld(threads[1..])
  }

  lemma {:induction false} HeldUpdate(threads: seq<Thread>, t: nat, th: Thread)
    requires t < |threads|
    ensures forall m :: AllHeld(threads[t := th])[m] + Held(threads[t])[m] == AllHeld(threads)[m] + Held(th)[m]
  {
    var threads' := threads[t := th];
    if t == 0 {
      assert threads'[1..] == threads[1..];
    } else {
      assert threads'[1..] == threads[1..][t - 1 := th];
      HeldUpdate(threads[1..], t - 1, th);
    }
  }

  /** Every message pushed is on the stack, held by one consumer, or processed, once. */
  ghost predicate Conserved(s: State) {
    forall m :: s.entered[m] == multiset(s.stack)[m] + AllHeld(s.threads)[m] + s.handled[m]
  }

  ghost predicate Inv(s: State) {
    LockOk(s) && TestsHold(s) && NoneLost(s) && HasConsumer(s) && Conserved(s)
  }

  lemma {:induction false} NoneHeld(threads: seq<Thread>)
    requires forall t :: 0 <= t < |threads| ==> Held(threads[t]) == multiset{}
    ensures AllHeld(threads) == multiset{}
  {
    if threads != [] {
      forall t | 0 <= t < |threads[1..]| ensures Held(threads[1..][t]) == multiset{} {
        assert threads[1..][t] == threads[t + 1];
      }
      NoneHeld(threads[1..]);
    }
  }

  lemma InitInv(s: State)
    requires Init(s) && HasConsumer(s)
    ensures Inv(s)
  {
    NoneHeld(s.threads);
  }

  // ---------- every step keeps it ----------

  /** A step takes the lock when it is free, gives it back, or leaves it; the other threads keep what they have of it.
      */
  lemma LockOf(s: State, s': State, t: nat)
    requires Step(s, s', t)
    ensures |s'.threads| == |s.threads|
    ensures forall u :: 0 <= u < |s.threads| && u != t ==> HasLock(s'.threads[u]) == HasLock(s.threads[u])
    ensures HasLock(s'.threads[t]) == HasLock(s.threads[t]) ==> s'.owner == s.owner
    ensures HasLock(s'.threads[t]) && !HasLock(s.threads[t]) ==> s.owner == None && s'.owner == Some(t)
    ensures !HasLock(s'.threads[t]) && HasLock(s.threads[t]) ==> s'.owner == None
  {
  }

  lemma LockKept(s: State, s': State, t: nat)
    requires LockOk(s) && Step(s, s', t)
    ensures LockOk(s')
  {
    LockOf(s, s', t);
    hide Step, NoneAsleep, HasLock;
  }

  lemma TestsKept(s: State, s': State, t: nat)
    requires LockOk(s) && TestsHold(s) && Step(s, s', t)
    ensures TestsHold(s')
  {
    if s'.stack != s.stack {
      assert HasLock(s.threads[t]);
    }
    forall u | 0 <= u < |s.threads| && u != t && HasLock(s.threads[t]) ensures !HasLock(s.threads[u]) {
      assert s.owner == Some(t);
    }
  }

  lemma ConsumersKept(s: State, s': State, t: nat)
    requires HasConsumer(s) && Step(s, s', t)
    ensures HasConsumer(s') && |s'.threads| == |s.threads|
    ensures forall u :: 0 <= u < |s.threads| ==> (s'.threads[u].Consumer? <==> s.threads[u].Consumer?)
  {
    assert forall u :: 0 <= u < |s.threads| ==> (s'.threads[u].Consumer? <==> s.threads[u].Consumer?);
    var u :| 0 <= u < |s.threads| && s.threads[u].Consumer?;
    assert s'.threads[u].Consumer?;
  }

  lemma AlertKept(s: State, s': State, t: nat)
    requires TestsHold(s) && NoneLost(s) && HasConsumer(s) && Step(s, s', t)
    ensures NoneLost(s')
  {
    if s'.stack != [] {
      if s.stack == [] {
        assert Alert(s'.threads[t]);
      } else if s.threads[t].Producer? && s.threads[t].at == Signalling45 {
        if !NoneAsleep(s.threads) {
          var u :| 0 <= u < |s.threads| && IsAsleep(s.threads[u])
                   && s' == Put(Put(s, t, Producer(Resting, s.threads[t].msg)), u, Consumer(Woken, s.threads[u].taken));
          assert Alert(s'.threads[u]);
        } else {
          var c :| 0 <= c < |s.threads| && s.threads[c].Consumer?;
          assert !IsAsleep(s.threads[c]) && Alert(s'.threads[c]);
        }
      } else {
        var w :| 0 <= w < |s.threads| && Alert(s.threads[w]);
        assert Alert(s'.threads[w]);
      }
    }
  }

  /** A change of one thread that moves messages only between it, the stack and the messages processed. */
  lemma Balanced(s: State, s': State, t: nat)
    requires t < |s.threads| == |s'.threads| && s'.threads == s.threads[t := s'.threads[t]] && Conserved(s)
    requires forall m :: s'.entered[m] + multiset(s.stack)[m] + Held(s.threads[t])[m] + s.handled[m]
                         == s.entered[m] + multiset(s'.stack)[m] + Held(s'.threads[t])[m] + s'.handled[m]
    ensures Conserved(s')
  {
    HeldUpdate(s.threads, t, s'.threads[t]);
    hide Held, AllHeld;
  }

  /** A change of one thread that moves no message. */
  lemma Unmoved(s: State, s': State, t: nat)
    requires t < |s.threads| == |s'.threads| && s'.threads == s.threads[t := s'.threads[t]] && Conserved(s)
    requires Held(s'.threads[t]) == Held(s.threads[t])
    requires s'.entered == s.entered && s'.stack == s.stack && s'.handled == s.handled
    ensures Conserved(s')
  {
    hide Held, Conserved, AllHeld;
    Balanced(s, s', t);
  }

  lemma Pushed(s: State, s': State, t: nat, m: int)
    requires t < |s.threads| == |s'.threads| && s'.threads == s.threads[t := s'.threads[t]] && Conserved(s)
    requires Held(s'.threads[t]) == Held(s.threads[t])
    requires s'.entered == s.entered + multiset{m} && s'.stack == [m] + s.stack && s'.handled == s.handled
    ensures Conserved(s')
  {
    hide Held, Conserved, AllHeld;
    Balanced(s, s', t);
  }

  lemma Taken(s: State, s': State, t: nat, m: int)
    requires t < |s.threads| == |s'.threads| && s'.threads == s.threads[t := s'.threads[t]] && Conserved(s)
    requires Held(s.threads[t]) == multiset{} && Held(s'.threads[t]) == multiset{m}
    requires s'.entered == s.entered && s.stack == [m] + s'.stack && s'.handled == s.handled
    ensures Conserved(s')
  {
    hide Held, Conserved, AllHeld;
    Balanced(s, s', t);
  }

  lemma Handled(s: State, s': State, t: nat, m: int)
    requires t < |s.threads| == |s'.threads| && s'.threads == s.threads[t := s'.threads[t]] && Conserved(s)
    requires Held(s.threads[t]) == multiset{m} && Held(s'.threads[t]) == multiset{}
    requires s'.entered == s.entered && s.stack == s'.stack && s'.handled == s.handled + multiset{m}
    ensures Conserved(s')
  {
    hide Held, Conserved, AllHeld;
    Balanced(s, s', t);
  }

  lemma ProducerConserves(s: State, s': State, t: nat)
    requires Conserved(s) && t < |s.threads| && s.threads[t].Producer? && ProducerStep(s, s', t)
    ensures Conserved(s')
  {
    var th := s.threads[t];
    if th.at == Pushing41 {
      hide Conserved, AllHeld, NoneAsleep;
      Pushed(s, s', t, th.msg);
    } else if th.at == Signalling45 && !NoneAsleep(s.threads) {
      var u :| 0 <= u < |s.threads| && IsAsleep(s.threads[u])
               && s' == Put(Put(s, t, Producer(Resting, th.msg)), u, Consumer(Woken, s.threads[u].taken));
      hide *;
      SignalConserves(s, s', t, u);
    } else {
      ProducerMoves(s, s', t);
      hide *;
      Unmoved(s, s', t);
    }
  }

  lemma ProducerMoves(s: State, s': State, t: nat)
    requires t < |s.threads| && s.threads[t].Producer? && ProducerStep(s, s', t) && s.threads[t].at != Pushing41
    requires s.threads[t].at == Signalling45 ==> NoneAsleep(s.threads)
    ensures |s'.threads| == |s.threads| && s'.threads == s.threads[t := s'.threads[t]]
    ensures Held(s'.threads[t]) == Held(s.threads[t])
    ensures s'.entered == s.entered && s'.stack == s.stack && s'.handled == s.handled
  {
    hide NoneAsleep;
  }

  lemma SignalConserves(s: State, s': State, t: nat, u: nat)
    requires Conserved(s) && t < |s.threads| && s.threads[t].Producer?
    requires u < |s.threads| && IsAsleep(s.threads[u])
    requires s' == Put(Put(s, t, Producer(Resting, s.threads[t].msg)), u, Consumer(Woken, s.threads[u].taken))
    ensures Conserved(s')
  {
    var s1 := Put(s, t, Producer(Resting, s.threads[t].msg));
    assert s1.threads[u] == s.threads[u] && Held(s1.threads[t]) == Held(s.threads[t]);
    assert Held(s'.threads[u]) == Held(s1.threads[u]);
    hide Conserved, AllHeld, Held, IsAsleep;
    Unmoved(s, s1, t);
    Unmoved(s1, s', u);
  }

  lemma ConsumerConserves(s: State, s': State, t: nat)
    requires Conserved(s) && t < |s.threads| && s.threads[t].Consumer? && ConsumerStep(s, s', t)
    ensures Conserved(s')
  {
    hide Conserved, AllHeld;
    var stage, th' := s.threads[t].stage, s'.threads[t];
    assert s' == Put(s, t, th').(stack := s'.stack, owner := s'.owner, handled := s'.handled);
    if stage == Taking27 {
      var m := s.stack[0];
      assert th' == Consumer(Unlocking29, m) && s.stack == [m] + s'.stack && s'.handled == s.handled;
      hide ConsumerStep;
      Taken(s, s', t, m);
    } else if stage == Handling30 {
      Handled(s, s', t, s.threads[t].taken);
    } else {
      assert th'.taken == s.threads[t].taken && s'.stack == s.stack && s'.handled == s.handled;
      assert (stage == Unlocking29 <==> th'.stage == Handling30) && th'.stage != Unlocking29;
      hide ConsumerStep, Held;
      Unmoved(s, s', t);
    }
  }

  lemma StepKeepsInv(s: State, s': State, t: nat)
    requires Inv(s) && Step(s, s', t)
    ensures Inv(s')
  {
    LockKept(s, s', t);
    TestsKept(s, s', t);
    ConsumersKept(s, s', t);
    AlertKept(s, s', t);
    if s.threads[t].Producer? {
      ProducerConserves(s, s', t);
    } else {
      ConsumerConserves(s, s', t);
    }
  }

  // ---------- main results ----------

  ghost predicate IsRun(states: seq<State>, movers: seq<nat>) {
    && |states| == |movers| + 1
    && Init(states[0]) && HasConsumer(states[0])
    && forall i :: 0 <= i < |movers| ==> Step(states[i], states[i + 1], movers[i])
  }

  lemma {:induction false} RunKeepsInv(states: seq<State>, movers: seq<nat>, n: nat)
    requires IsRun(states, movers) && n < |states|
    ensures Inv(states[n])
  {
    if n == 0 {
      InitInv(states[0]);
    } else {
      RunKeepsInv(states, movers, n - 1);
      assert Step(states[n - 1], states[n - 1 + 1], movers[n - 1]);
      hide Inv;
      StepKeepsInv(states[n - 1], states[n], movers[n - 1]);
    }
  }

  /** In every reachable state of every run with a consumer: messages are conserved, and while one is on the stack some
      consumer is not asleep or some producer has still to signal. */
  lemma NoWakeupLost(states: seq<State>, movers: seq<nat>, n: nat)
    requires IsRun(states, movers) && n < |states|
    ensures Conserved(states[n]) && NoneLost(states[n])
  {
    RunKeepsInv(states, movers, n);
  }

  predicate Pushes(s: State, t: nat) {
    t < |s.threads| && s.threads[t].Producer? && s.threads[t].at == Pushing41
  }

  predicate Takes(s: State, t: nat) {
    t < |s.threads| && s.threads[t].Consumer? && s.threads[t].stage == Taking27
  }

  lemma StackMoves(s: State, s': State, t: nat)
    requires Step(s, s', t)
    ensures |s'.threads| == |s.threads|
    ensures Pushes(s, t) ==> s'.stack == [s.threads[t].msg] + s.stack
    ensures Takes(s, t) ==> s.stack != [] && s'.stack == s.stack[1..] && s'.threads[t].taken == s.stack[0]
    ensures !Pushes(s, t) && !Takes(s, t) ==> s'.stack == s.stack
  {
  }

  lemma RunMoves(states: seq<State>, movers: seq<nat>, n: nat)
    requires IsRun(states, movers) && n < |movers|
    ensures var s, s', t := states[n], states[n + 1], movers[n];
            && t < |s.threads| == |s'.threads|
            && (Pushes(s, t) ==> s.threads[t].Producer? && s'.stack == [s.threads[t].msg] + s.stack)
            && (Takes(s, t) ==> s.stack != [] && s'.stack == s.stack[1..])
            && (!Pushes(s, t) && !Takes(s, t) ==> s'.stack == s.stack)
  {
    assert Step(states[n], states[n + 1], movers[n]);
    StackMoves(states[n], states[n + 1], movers[n]);
    hide Step;
  }

  /** Step i pushed the first of these messages on top of the others, which have been there ever since. */
  ghost predicate PushedAt(states: seq<State>, movers: seq<nat>, n: nat, top: seq<int>, i: nat) {
    && i < n < |states| && n <= |movers| && Pushes(states[i], movers[i])
    && top == [states[i].threads[movers[i]].msg] + states[i].stack
    && forall k :: i < k <= n ==> |states[k].stack| > |states[i].stack|
  }

  lemma StillThere(states: seq<State>, movers: seq<nat>, n: nat, top: seq<int>, i: nat)
    requires PushedAt(states, movers, n, top, i) && n + 1 < |states| && n < |movers| && |states[n + 1].stack| >= |top|
    ensures PushedAt(states, movers, n + 1, top, i)
  {
  }

  lemma NewTop(states: seq<State>, movers: seq<nat>, n: nat)
    requires n + 1 < |states| && n < |movers| && Pushes(states[n], movers[n])
    requires states[n + 1].stack == [states[n].threads[movers[n]].msg] + states[n].stack
    ensures PushedAt(states, movers, n + 1, states[n + 1].stack, n)
  {
  }

  lemma {:induction false} PushedBefore(states: seq<State>, movers: seq<nat>, n: nat, d: nat) returns (i: nat)
    requires IsRun(states, movers) && n < |states| && d < |states[n].stack|
    ensures PushedAt(states, movers, n, states[n].stack[d..], i)
  {
    RunStarts(states, movers);
    hide *;
    RunMoves(states, movers, n - 1);
    var before, after := states[n - 1].stack, states[n].stack;
    if Pushes(states[n - 1], movers[n - 1]) && d == 0 {
      NewTop(states, movers, n - 1);
      i := n - 1;
      assert after[0..] == after;
    } else {
      var e := SameSuffix(before, after, d);
      i := PushedBefore(states, movers, n - 1, e);
      StillThere(states, movers, n - 1, after[d..], i);
    }
  }

  lemma RunStarts(states: seq<State>, movers: seq<nat>)
    requires IsRun(states, movers)
    ensures |states| == |movers| + 1 && states[0].stack == []
  {
    hide Step;
  }

  /** The same messages one place up or down, or where they were. */
  lemma SameSuffix(before: seq<int>, after: seq<int>, d: nat) returns (e: nat)
    requires d < |after|
    requires (d > 0 && after != [] && after[1..] == before) || (before != [] && after == before[1..]) || after == before
    ensures e < |before| && after[d..] == before[e..]
  {
    e := d + |before| - |after|;
  }

  /** Last in, first out: a consumer takes the message of the last push that is still on the stack, and leaves the stack
      as it was before that push; everything pushed in between has been taken. */
  lemma LastInFirstOut(states: seq<State>, movers: seq<nat>, n: nat) returns (i: nat)
    requires IsRun(states, movers) && n < |movers| && Takes(states[n], movers[n])
    ensures i < n && Pushes(states[i], movers[i]) && movers[n] < |states[n + 1].threads|
    ensures states[n + 1].threads[movers[n]].Consumer?
    ensures states[n + 1].threads[movers[n]].taken == states[i].threads[movers[i]].msg
    ensures states[n + 1].stack == states[i].stack
    ensures forall k :: i < k <= n ==> |states[k].stack| > |states[i].stack|
  {
    var s, s', t := states[n], states[n + 1], movers[n];
    assert Step(states[n], states[n + 1], movers[n]);
    assert s'.threads[t].Consumer?;
    StackMoves(s, s', t);
    hide IsRun, Step;
    i := PushedBefore(states, movers, n, 0);
    assert s.stack[0..] == s.stack;
  }

  /** The lock's owner can step, and so can an alert thread when the lock is free. */
  lemma Successor(s: State, t: nat) returns (s': State)
    requires LockOk(s) && TestsHold(s) && t < |s.threads|
    requires if s.owner.Some? then t == s.owner.value else Alert(s.threads[t])
    ensures Step(s, s', t) && s'.threads[t] != s.threads[t]
    ensures s.threads[t].Producer? ==> s.threads[t].at != Resting
    ensures s.threads[t].Consumer? ==> s.threads[t].stage != Asleep
  {
    match s.threads[t]
    case Producer(at, msg) =>
      s' := if at == Pushing41 then
              Put(s, t, Producer(Unlocking44, msg)).(stack := [msg] + s.stack, entered := s.entered + multiset{msg})
            else if at == Unlocking44 then Put(s, t, Producer(Signalling45, msg)).(owner := None)
            else Put(s, t, Producer(Resting, msg));
      if at == Signalling45 && !NoneAsleep(s.threads) {
        var u :| 0 <= u < |s.threads| && IsAsleep(s.threads[u]);
        s' := Put(s', u, Consumer(Woken, s.threads[u].taken));
      }
    case Consumer(stage, msg) =>
      s' := if stage == Locking20 || stage == Woken then Put(s, t, Consumer(Testing22, msg)).(owner := Some(t))
            else if stage == Testing22 then Put(s, t, Consumer(if s.stack == [] then Waiting24 else Taking27, msg))
            else if stage == Waiting24 then Put(s, t, Consumer(Asleep, msg)).(owner := None)
            else if stage == Taking27 then Put(s, t, Consumer(Unlocking29, s.stack[0])).(stack := s.stack[1..])
            else if stage == Unlocking29 then Put(s, t, Consumer(Handling30, msg)).(owner := None)
            else Put(s, t, Consumer(Locking20, msg)).(handled := s.handled + multiset{msg});
  }

  /** While a message is on the stack, a thread other than a resting producer can step: the pool never falls silent. */
  lemma SomeoneMoves(s: State) returns (t: nat, s': State)
    requires Inv(s) && s.stack != []
    ensures Step(s, s', t) && s.threads[t] != s'.threads[t]
    ensures s.threads[t].Producer? ==> s.threads[t].at != Resting
    ensures s.threads[t].Consumer? ==> s.threads[t].stage != Asleep
  {
    if s.owner.Some? {
      t := s.owner.value;
    } else {
      t :| t < |s.threads| && Alert(s.threads[t]);
    }
    s' := Successor(s, t);
  }
}
