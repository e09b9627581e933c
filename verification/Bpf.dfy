/** Classic BPF as seccomp runs it, the architecture-check prologue, and the two filter programs. */
module Bpf {

  type Word = bv32

  /** struct seccomp_data as sixteen 32-bit words: nr, arch, instruction pointer and six arguments. */
  type SeccompData = d: seq<Word> | |d| == 16 witness seq(16, _ => 0)

  const NR_OFFSET: nat := 0
  const ARCH_OFFSET: nat := 4

  const AUDIT_ARCH_X86_64: Word := 0xC000_003E
  const X32_SYSCALL_BIT: Word := 0x4000_0000
  const SYS_MKDIR: Word := 83
  const RET_KILL_PROCESS: Word := 0x8000_0000
  const RET_USER_NOTIF: Word := 0x7FC0_0000
  const RET_ALLOW: Word := 0x7FFF_0000

  datatype Test = JEQ | JGT | JGE | JSET

  /** The instructions: word load at an absolute offset, immediate load, AND with an immediate, relative
      forward jumps, and return of an immediate or of the accumulator. */
  datatype Instr =
    | LdAbs(offset: nat)
    | LdImm(k: Word)
    | AndImm(k: Word)
    | Jump(test: Test, k: Word, jt: nat, jf: nat)
    | Always(skip: nat)
    | RetImm(k: Word)
    | RetAcc

  predicate Holds(test: Test, acc: Word, k: Word) {
    match test
    case JEQ => acc == k
    case JGT => acc > k
    case JGE => acc >= k
    case JSET => acc & k != 0
  }

  predicate IsRet(i: Instr) {
    i.RetImm? || i.RetAcc?
  }

  /** A load is aligned and inside seccomp_data, a jump stays inside the program. */
  predicate Admitted(p: seq<Instr>, pc: nat)
    requires pc < |p|
  {
    match p[pc]
    case LdAbs(offset) => offset % 4 == 0 && offset < 64
    case Jump(_, _, jt, jf) => pc + 1 + jt < |p| && pc + 1 + jf < |p|
    case Always(skip) => pc + 1 + skip < |p|
    case _ => true
  }

  /** The kernel's check: every instruction is admitted, and the last one returns. */
  predicate Accepted(p: seq<Instr>) {
    && p != []
    && IsRet(p[|p| - 1])
    && forall pc :: 0 <= pc < |p| ==> Admitted(p, pc)
  }

  /** What one instruction does: go on after skipping some instructions, return, or go wrong. */
  datatype Next = Skip(n: nat, acc: Word) | Return(action: Word) | Wrong

  function Step(i: Instr, acc: Word, d: SeccompData): Next {
    match i
    case LdAbs(offset) => if offset % 4 == 0 && offset < 64 then Skip(0, d[offset / 4]) else Wrong
    case LdImm(k) => Skip(0, k)
    case AndImm(k) => Skip(0, acc & k)
    case Jump(test, k, jt, jf) => Skip(if Holds(test, acc, k) then jt else jf, acc)
    case Always(skip) => Skip(skip, acc)
    case RetImm(k) => Return(k)
    case RetAcc => Return(acc)
  }

  datatype Outcome = Returned(action: Word, steps: nat) | Stuck

  function Tick(o: Outcome): Outcome {
    match o
    case Returned(action, steps) => Returned(action, steps + 1)
    case Stuck => Stuck
  }

  /** Run p from pc with accumulator acc, counting instructions; Stuck is a jump or load out of bounds. */
  function Exec(p: seq<Instr>, pc: nat, acc: Word, d: SeccompData): Outcome
    decreases |p| - pc
  {
    if pc >= |p| then Stuck
    else match Step(p[pc], acc, d)
      case Skip(n, acc') => Tick(Exec(p, pc + 1 + n, acc', d))
      case Return(action) => Returned(action, 1)
      case Wrong => Stuck
  }

  lemma InRange(p: seq<Instr>, pc: nat, acc: Word, d: SeccompData)
    requires Accepted(p) && pc < |p|
    ensures !Step(p[pc], acc, d).Wrong?
    ensures Step(p[pc], acc, d).Skip? ==> pc + 1 + Step(p[pc], acc, d).n < |p|
  {
    assert Admitted(p, pc) && (pc == |p| - 1 ==> IsRet(p[pc]));
    hide Holds, Accepted;
  }

  /** An accepted program returns, after at most one step for each instruction that is left. */
  lemma {:induction false} AcceptedReturns(p: seq<Instr>, pc: nat, acc: Word, d: SeccompData)
    requires Accepted(p) && pc < |p|
    ensures Exec(p, pc, acc, d).Returned? && Exec(p, pc, acc, d).steps <= |p| - pc
    decreases |p| - pc
  {
    hide Holds;
    var next := Step(p[pc], acc, d);
    InRange(p, pc, acc, d);
    hide Accepted, Step;
    if next.Skip? {
      AcceptedReturns(p, pc + 1 + next.n, next.acc, d);
    }
  }

  /** Jumps are relative, so code behaves the same wherever it is placed. */
  lemma {:induction false} Relocation(pre: seq<Instr>, body: seq<Instr>, pc: nat, acc: Word, d: SeccompData)
    ensures Exec(pre + body, |pre| + pc, acc, d) == Exec(body, pc, acc, d)
    decreases |body| - pc
  {
    hide Step;
    if pc < |body| {
      var next := Step(body[pc], acc, d);
      if next.Skip? {
        Relocation(pre, body, pc + 1 + next.n, next.acc, d);
        assert |pre| + (pc + 1 + next.n) == (|pre| + pc) + 1 + next.n;
      }
    }
  }

  // ---------- the prologue ----------

  /** X86_64_CHECK_ARCH_AND_LOAD_SYSCALL_NR. */
  const PROLOGUE: seq<Instr> := [
    LdAbs(ARCH_OFFSET),
    Jump(JEQ, AUDIT_ARCH_X86_64, 0, 2),
    LdAbs(NR_OFFSET),
    Jump(JGE, X32_SYSCALL_BIT, 0, 1),
    RetImm(RET_KILL_PROCESS)
  ]

  function Nr(d: SeccompData): Word { d[0] }

  function Arch(d: SeccompData): Word { d[1] }

  /** A native x86-64 call, not one of the x32 numbers. */
  predicate Native(d: SeccompData) {
    Arch(d) == AUDIT_ARCH_X86_64 && Nr(d) < X32_SYSCALL_BIT
  }

  /** For every body: the prologue in front of it kills a wrong architecture or an x32 number, and otherwise hands
      over to the body with the system call number in the accumulator. */
  lemma PrologueLaw(body: seq<Instr>, acc: Word, d: SeccompData)
    ensures var whole := Exec(PROLOGUE + body, 0, acc, d);
            if Native(d) then
              match Exec(body, 0, Nr(d), d)
              case Returned(action, steps) => whole == Returned(action, steps + 4)
              case Stuck => whole == Stuck
            else whole.Returned? && whole.action == RET_KILL_PROCESS && whole.steps <= 5
  {
    NativeIs(d);
    if Arch(d) != AUDIT_ARCH_X86_64 {
      PrologueForeign(body, acc, d);
    } else {
      PrologueNumber(body, acc, d);
    }
    hide Exec, Native, Arch, Nr;
  }

  lemma NativeIs(d: SeccompData)
    ensures Native(d) <==> Arch(d) == AUDIT_ARCH_X86_64 && !(Nr(d) >= X32_SYSCALL_BIT)
  {
  }

  lemma PrologueForeign(body: seq<Instr>, acc: Word, d: SeccompData)
    requires Arch(d) != AUDIT_ARCH_X86_64
    ensures Exec(PROLOGUE + body, 0, acc, d) == Returned(RET_KILL_PROCESS, 3)
  {
    var p := PROLOGUE + body;
    assert |p| >= 5;
    PrologueSteps(body, acc, d);
    hide Step, Holds, Exec, Arch, Nr, PROLOGUE;
    Continues(p, 0, acc, d);
    Continues(p, 1, Arch(d), d);
    Ends(p, 4, Arch(d), d);
  }

  lemma PrologueNumber(body: seq<Instr>, acc: Word, d: SeccompData)
    requires Arch(d) == AUDIT_ARCH_X86_64
    ensures Exec(PROLOGUE + body, 0, acc, d) ==
            if Nr(d) >= X32_SYSCALL_BIT then Returned(RET_KILL_PROCESS, 5)
            else Tick(Tick(Tick(Tick(Exec(body, 0, Nr(d), d)))))
  {
    var p := PROLOGUE + body;
    assert |p| >= 5 && |PROLOGUE| == 5;
    PrologueSteps(body, acc, d);
    Relocation(PROLOGUE, body, 0, Nr(d), d);
    hide Step, Holds, Exec, Arch, Nr, PROLOGUE;
    Continues(p, 0, acc, d);
    Continues(p, 1, Arch(d), d);
    Continues(p, 2, Arch(d), d);
    Continues(p, 3, Nr(d), d);
    if Nr(d) >= X32_SYSCALL_BIT {
      Ends(p, 4, Nr(d), d);
    }
  }

  /** What the prologue's instructions do in front of any body. */
  lemma PrologueSteps(body: seq<Instr>, acc: Word, d: SeccompData)
    ensures var p := PROLOGUE + body;
            && Step(p[0], acc, d) == Skip(0, Arch(d)) && Step(p[2], Arch(d), d) == Skip(0, Nr(d))
            && Step(p[1], Arch(d), d) == Skip(if Arch(d) == AUDIT_ARCH_X86_64 then 0 else 2, Arch(d))
            && Step(p[3], Nr(d), d) == Skip(if Nr(d) >= X32_SYSCALL_BIT then 0 else 1, Nr(d))
            && forall a :: Step(p[4], a, d) == Return(RET_KILL_PROCESS)
  {
    assert forall i :: 0 <= i < 5 ==> (PROLOGUE + body)[i] == PROLOGUE[i];
  }

  lemma Continues(p: seq<Instr>, pc: nat, acc: Word, d: SeccompData)
    requires pc < |p| && Step(p[pc], acc, d).Skip?
    ensures Exec(p, pc, acc, d) == Tick(Exec(p, pc + 1 + Step(p[pc], acc, d).n, Step(p[pc], acc, d).acc, d))
  {
    hide Step;
  }

  lemma Ends(p: seq<Instr>, pc: nat, acc: Word, d: SeccompData)
    requires pc < |p| && Step(p[pc], acc, d).Return?
    ensures Exec(p, pc, acc, d) == Returned(Step(p[pc], acc, d).action, 1)
  {
    hide Step;
  }

  /** The composed program is accepted exactly when the body is, so it always returns within its length. */
  lemma PrologueAccepted(body: seq<Instr>)
    requires body != []
    ensures Accepted(PROLOGUE + body) <==> Accepted(body)
  {
    var p := PROLOGUE + body;
    assert forall i :: 0 <= i < |body| ==> p[5 + i] == body[i];
    assert forall i :: 0 <= i < 5 ==> p[i] == PROLOGUE[i];
    if Accepted(p) {
      forall pc | 0 <= pc < |body| ensures Admitted(body, pc) {
        assert p[5 + pc] == body[pc] && Admitted(p, 5 + pc);
      }
    } else if Accepted(body) {
      forall pc | 0 <= pc < |p| ensures Admitted(p, pc) {
        assert pc >= 5 ==> p[pc] == body[pc - 5] && Admitted(body, pc - 5);
      }
    }
  }

  // ---------- the installed filters ----------

  const NOTIFY_BODY: seq<Instr> := [Jump(JEQ, SYS_MKDIR, 0, 1), RetImm(RET_USER_NOTIF), RetImm(RET_ALLOW)]

  /** installNotifyFilter's program. */
  const NOTIFY_FILTER: seq<Instr> := PROLOGUE + NOTIFY_BODY

  /** The program of secnotimkdir.c. */
  const MKDIR_FILTER: seq<Instr> := [
    LdAbs(ARCH_OFFSET),
    Jump(JEQ, AUDIT_ARCH_X86_64, 1, 0),
    RetImm(RET_KILL_PROCESS),
    LdAbs(NR_OFFSET),
    Jump(JEQ, SYS_MKDIR, 0, 1),
    RetImm(RET_USER_NOTIF),
    RetImm(RET_ALLOW)
  ]

  /** What the kernel does with a filter: run it from its first instruction with a zero accumulator. */
  function Action(p: seq<Instr>, d: SeccompData): Word
    requires Accepted(p)
  {
    AcceptedReturns(p, 0, 0, d);
    Exec(p, 0, 0, d).action
  }

  lemma FiltersAccepted()
    ensures Accepted(NOTIFY_FILTER) && Accepted(MKDIR_FILTER)
  {
    PrologueAccepted(NOTIFY_BODY);
  }

  /** The first filter notifies exactly on a native mkdir, kills exactly what is not native, allows the rest. */
  lemma NotifyFilterMeaning(d: SeccompData)
    ensures Accepted(NOTIFY_FILTER)
    ensures Action(NOTIFY_FILTER, d) ==
            if !Native(d) then RET_KILL_PROCESS else if Nr(d) == SYS_MKDIR then RET_USER_NOTIF else RET_ALLOW
  {
    FiltersAccepted();
    PrologueLaw(NOTIFY_BODY, 0, d);
    assert Exec(NOTIFY_BODY, 0, Nr(d), d) == Returned(if Nr(d) == SYS_MKDIR then RET_USER_NOTIF else RET_ALLOW, 2);
  }

  /** The second filter does not look at the x32 bit. */
  lemma MkdirFilterMeaning(d: SeccompData)
    ensures Accepted(MKDIR_FILTER)
    ensures Action(MKDIR_FILTER, d) ==
            if Arch(d) != AUDIT_ARCH_X86_64 then RET_KILL_PROCESS
             else if Nr(d) == SYS_MKDIR then RET_USER_NOTIF else RET_ALLOW
  {
    FiltersAccepted();
    assert Exec(MKDIR_FILTER, 4, Nr(d), d) == Returned(if Nr(d) == SYS_MKDIR then RET_USER_NOTIF else RET_ALLOW, 2);
    assert Exec(MKDIR_FILTER, 3, Arch(d), d) == Tick(Exec(MKDIR_FILTER, 4, Nr(d), d));
    assert Exec(MKDIR_FILTER, 1, Arch(d), d) ==
           Tick(if Arch(d) == AUDIT_ARCH_X86_64 then Exec(MKDIR_FILTER, 3, Arch(d), d)
               else Exec(MKDIR_FILTER, 2, Arch(d), d));
  }

  /** The two filters agree exactly on calls of a wrong architecture and calls below the x32 bit. */
  lemma FiltersAgree(d: SeccompData)
    ensures Accepted(NOTIFY_FILTER) && Accepted(MKDIR_FILTER)
    ensures Action(NOTIFY_FILTER, d) == Action(MKDIR_FILTER, d) <==>
            Arch(d) != AUDIT_ARCH_X86_64 || Nr(d) < X32_SYSCALL_BIT
  {
    NotifyFilterMeaning(d);
    MkdirFilterMeaning(d);
  }
}
