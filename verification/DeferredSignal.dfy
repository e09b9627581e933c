/** Deferring a signal while a structure is updated: SIGINT may arrive between any two steps of the program. */
module DeferredSignal {

  /** What has happened: a signal handled at once, one put off, a deferred one raised again; regions are entered when
      the deferral count goes up and left when it comes down. */
  datatype Event = Immediate | Deferred | Raised | Entered | Exited

  /** The program counter is the line to run next: 34 to 53 of update_data, 72 in main.  sig is its local; trace only
      observes. */
  datatype State = State(pc: nat, deferral: nat, pending: int, sig: int, a: int, b: int, c: int, trace: seq<Event>)

  const SIGINT := 2
  const FROB := 4

  predicate Init(s: State) {
    s.pc == 34 && s.deferral == 0 && s.pending == 0 && s.trace == []
  }

  /** The handler, which no second SIGINT interrupts. */
  function Handle(s: State, signum: int): State {
    if s.deferral != 0 then s.(pending := signum, trace := s.trace + [Deferred])
    else s.(trace := s.trace + [Immediate])
  }

  /** The program's next step. */
  function Run(s: State): State {
    if s.pc == 34 then s.(pc := 36, deferral := s.deferral + 1, trace := s.trace + [Entered])
    else if s.pc == 36 then s.(pc := 39)
    else if s.pc == 39 then s.(pc := 40, a := 1)
    else if s.pc == 40 then s.(pc := 41, b := 2)
    else if s.pc == 41 then s.(pc := 47, c := FROB)
    else if s.pc == 47 then
      s.(pc := 49, deferral := if s.deferral > 0 then s.deferral - 1 else 0, trace := s.trace + [Exited])
    else if s.pc == 49 then s.(pc := if s.deferral == 0 && s.pending != 0 then 50 else 72)
    else if s.pc == 50 then s.(pc := 51, sig := s.pending)
    else if s.pc == 51 then s.(pc := 52, pending := 0)
    else if s.pc == 52 then Handle(s.(pc := 72, trace := s.trace + [Raised]), s.sig)
    else s.(pc := 34)
  }

  /** Either the program steps or a signal arrives. */
  predicate Step(s: State, s': State) {
    s' == Run(s) || s' == Handle(s, SIGINT)
  }

  // ---------- the promise, as a language of traces ----------

  /** What a trace leaves open: idle, in a region without or with a deferred signal, or owing a raise, which happens
      before the next region; a raise is handled at once. */
  datatype Phase = Idle | Quiet | Marked | Owing | Raising | Broken

  function Advance(p: Phase, e: Event): Phase {
    match e
    case Immediate => if p == Raising then Idle else if p == Idle || p == Owing then p else Broken
    case Deferred => if p == Quiet || p == Marked then Marked else Broken
    case Raised => if p == Owing then Raising else Broken
    case Entered => if p == Idle then Quiet else Broken
    case Exited => if p == Quiet then Idle else if p == Marked then Owing else Broken
  }

  function PhaseOf(trace: seq<Event>): Phase {
    if trace == [] then Idle else Advance(PhaseOf(trace[..|trace| - 1]), trace[|trace| - 1])
  }

  predicate Updating(pc: nat) {
    pc == 36 || pc == 39 || pc == 40 || pc == 41 || pc == 47
  }

  predicate Inv(s: State) {
    && (s.pc in {34, 49, 50, 51, 52, 72} || Updating(s.pc))
    && s.deferral == (if Updating(s.pc) then 1 else 0)
    && (s.pending == 0 || s.pending == SIGINT)
    && (s.pending != 0 ==> Updating(s.pc) || s.pc in {49, 50, 51})
    && (s.pc in {50, 51} ==> s.pending != 0)
    && (s.pc in {51, 52} ==> s.sig == SIGINT)
    && PhaseOf(s.trace) == PhaseAt(s)
  }

  /** The phase the program's variables show. */
  function PhaseAt(s: State): Phase {
    if Updating(s.pc) then (if s.pending == 0 then Quiet else Marked)
    else if s.pc == 52 || (s.pc in {49, 50, 51} && s.pending != 0) then Owing
    else Idle
  }

  lemma PhaseSnoc(trace: seq<Event>, e: Event)
    ensures PhaseOf(trace + [e]) == Advance(PhaseOf(trace), e)
  {
    assert (trace + [e])[..|trace|] == trace;
  }

  lemma StepKeepsInv(s: State, s': State)
    requires Inv(s) && Step(s, s')
    ensures Inv(s')
  {
    forall e { PhaseSnoc(s.trace, e); }
    PhaseSnoc(s.trace + [Raised], Immediate);
    hide PhaseOf;
  }

  ghost predicate IsRun(states: seq<State>) {
    states != [] && Init(states[0]) && forall i, k :: 0 <= i < |states| - 1 && k == i + 1 ==> Step(states[i], states[k])
  }

  lemma {:induction false} RunKeepsInv(states: seq<State>, n: nat)
    requires IsRun(states) && n < |states|
    ensures Inv(states[n])
  {
    if n > 0 {
      RunKeepsInv(states, n - 1);
      StepKeepsInv(states[n - 1], states[n]);
    }
  }

  // ---------- main results ----------

  /** The last region entered has not been left. */
  predicate InRegion(trace: seq<Event>) {
    trace != [] &&
    match trace[|trace| - 1]
    case Entered => true
    case Exited => false
    case _ => InRegion(trace[..|trace| - 1])
  }

  /** A signal was put off since the last region was entered. */
  predicate Arrived(trace: seq<Event>) {
    trace != [] &&
    match trace[|trace| - 1]
    case Deferred => true
    case Entered => false
    case _ => Arrived(trace[..|trace| - 1])
  }

  /** Regions left in which at least one signal was put off. */
  function Interrupted(trace: seq<Event>): nat {
    if trace == [] then 0
    else
      var rest := trace[..|trace| - 1];
      Interrupted(rest) + if trace[|trace| - 1] == Exited && Arrived(rest) then 1 else 0
  }

  function Raises(trace: seq<Event>): nat {
    if trace == [] then 0
    else Raises(trace[..|trace| - 1]) + if trace[|trace| - 1] == Raised then 1 else 0
  }

  /** How an unbroken trace stands: in a region or not, with a signal put off or not, and with a raise owed or none. */
  lemma {:induction false} Standing(trace: seq<Event>)
    requires PhaseOf(trace) != Broken
    ensures InRegion(trace) <==> PhaseOf(trace) == Quiet || PhaseOf(trace) == Marked
    ensures InRegion(trace) ==> (Arrived(trace) <==> PhaseOf(trace) == Marked)
    ensures Raises(trace) + (if PhaseOf(trace) == Owing then 1 else 0) == Interrupted(trace)
  {
    if trace != [] {
      Standing(trace[..|trace| - 1]);
    }
  }

  lemma LastEvent(trace: seq<Event>)
    requires trace != [] && PhaseOf(trace) != Broken
    ensures var rest, last := trace[..|trace| - 1], trace[|trace| - 1];
            && PhaseOf(rest) != Broken
            && (last == Immediate ==> !InRegion(rest))
            && (last == Entered ==> Raises(rest) == Interrupted(rest))
  {
    Standing(trace[..|trace| - 1]);
    hide InRegion, Raises, Interrupted, Arrived;
  }

  /** What an unbroken trace promises. */
  lemma {:induction false} Unbroken(trace: seq<Event>)
    requires PhaseOf(trace) != Broken
    ensures forall i :: 0 <= i < |trace| && trace[i] == Immediate ==> !InRegion(trace[..i])
    ensures forall i :: 0 <= i < |trace| && trace[i] == Entered ==> Raises(trace[..i]) == Interrupted(trace[..i])
    ensures Raises(trace) <= Interrupted(trace) <= Raises(trace) + 1
  {
    Standing(trace);
    if trace != [] {
      var rest := trace[..|trace| - 1];
      LastEvent(trace);
      hide InRegion, Raises, Interrupted, PhaseOf, Arrived;
      Unbroken(rest);
      assert forall i :: 0 <= i < |rest| ==> rest[..i] == trace[..i] && rest[i] == trace[i];
    }
  }

  /** In every run: no signal is handled while the structure is updated; by the time the next update begins, there has
      been exactly one raise for every update in which a signal arrived; and a signal is pending only from its arrival
      to the raise. */
  lemma DeferralIsSafe(states: seq<State>, n: nat)
    requires IsRun(states) && n < |states|
    ensures var s := states[n];
            && (forall i :: 0 <= i < |s.trace| && s.trace[i] == Immediate ==> !InRegion(s.trace[..i]))
            && (Updating(s.pc) ==> InRegion(s.trace) && (s.pending != 0 <==> Arrived(s.trace)))
            && (s.pc == 34 ==> s.pending == 0 && Raises(s.trace) == Interrupted(s.trace))
            && (s.pending != 0 ==> Updating(s.pc) || s.pc == 49 || s.pc == 50 || s.pc == 51)
            && Raises(s.trace) <= Interrupted(s.trace) <= Raises(s.trace) + 1
  {
    RunKeepsInv(states, n);
    Standing(states[n].trace);
    Unbroken(states[n].trace);
  }

  // ---------- the structure, and the way back to main ----------

  /** The structure as an update leaves it. */
  predicate Whole(s: State) {
    s.a == 1 && s.b == 2 && s.c == 4
  }

  /** Before the first update has ended the structure is what it was, or is being updated; afterwards it is whole
      outside an update, and each field of it always is. */
  predicate DataOk(s0: State, s: State) {
    && (s.pc in {34, 36, 39} && Exited !in s.trace ==> s.a == s0.a && s.b == s0.b && s.c == s0.c)
    && (s.pc == 40 ==> s.a == 1) && (s.pc == 41 ==> s.a == 1 && s.b == 2)
    && (s.pc == 47 || s.pc in {49, 50, 51, 52, 72} || Exited in s.trace ==> Whole(s))
    && (s.pc in {49, 50, 51, 52, 72} ==> Exited in s.trace)
  }

  lemma StepKeepsData(s0: State, s: State, s': State)
    requires Inv(s) && DataOk(s0, s) && Step(s, s')
    ensures DataOk(s0, s')
  {
    hide PhaseOf, PhaseAt;
  }

  lemma {:induction false} RunKeepsData(states: seq<State>, n: nat)
    requires IsRun(states) && n < |states|
    ensures Inv(states[n]) && DataOk(states[0], states[n])
  {
    if n > 0 {
      RunKeepsData(states, n - 1);
      StepAt(states, n - 1, n);
      hide *;
      StepKeepsInv(states[n - 1], states[n]);
      StepKeepsData(states[0], states[n - 1], states[n]);
    }
  }

  lemma StepAt(states: seq<State>, i: nat, k: nat)
    requires IsRun(states) && k == i + 1 < |states|
    ensures Step(states[i], states[k])
  {
    hide Step;
  }

  /** A signal handled on the spot, on its own or raised again, never sees a half-updated structure: it is as at the
      start as long as no update has ended, and whole ever after. */
  lemma HandledWhole(states: seq<State>, n: nat)
    requires IsRun(states) && n + 1 < |states|
    requires |states[n].trace| <= |states[n + 1].trace| && Immediate in states[n + 1].trace[|states[n].trace|..]
    ensures var s := states[n];
            if Exited in s.trace then s.a == 1 && s.b == 2 && s.c == 4
            else s.a == states[0].a && s.b == states[0].b && s.c == states[0].c
  {
    RunKeepsData(states, n);
    var s, k := states[n], n + 1;
    assert Step(states[n], states[k]);
    var s' := states[k];
    assert Handle(s, SIGINT).trace[|s.trace|..] == if s.deferral != 0 then [Deferred] else [Immediate];
    hide PhaseOf, PhaseAt, IsRun;
  }

  /** The program runs alone for k steps. */
  function RunFor(s: State, k: nat): State
    decreases k
  {
    if k == 0 then s else RunFor(Run(s), k - 1)
  }

  /** Lines to run before main sleeps again, at most. */
  function Left(pc: nat): nat {
    if pc == 34 then 10 else if pc == 36 then 9 else if pc == 39 then 8 else if pc == 40 then 7 else if pc == 41 then 6
    else if pc == 47 then 5 else if pc == 49 then 4 else if pc == 50 then 3 else if pc == 51 then 2
    else if pc == 52 then 1 else 0
  }

  /** Left alone, the program always gets back to main, within ten steps, with the structure whole, no signal deferred
      and none pending. */
  lemma {:induction false} BackInMain(s0: State, s: State) returns (k: nat)
    requires Inv(s) && DataOk(s0, s)
    ensures k <= Left(s.pc) <= 10 && RunFor(s, k).pc == 72
    ensures var e := RunFor(s, k);
            Whole(e) && e.deferral == 0 && e.pending == 0 && Raises(e.trace) == Interrupted(e.trace)
    decreases Left(s.pc)
  {
    if s.pc == 72 {
      k := 0;
      Standing(s.trace);
    } else {
      var s' := Run(s);
      assert Left(s'.pc) < Left(s.pc);
      hide PhaseOf, PhaseAt, Raises, Interrupted;
      StepKeepsInv(s, s');
      StepKeepsData(s0, s, s');
      k := BackInMain(s0, s');
      k := k + 1;
    }
  }
}
