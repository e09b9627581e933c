/** How the job-control shell plumbs a pipeline of any length: the descriptors of the shell and of each child. */
module Pipeline {
  import opened JobControl

  /** An open file: one the shell was started with, or an end of the n-th pipe it made. */
  datatype File = Given(id: nat) | ReadEnd(pipe: nat) | WriteEnd(pipe: nat)

  type Files = map<nat, File>

  // ---------- the child ----------

  /** dup2(from, to); close(from), where both fail if from is not open. */
  function Move(t: Files, from: nat, to: nat): Files {
    if from == to || from !in t then t else t[to := t[from]] - {from}
  }

  /** The descriptors of a child when it calls execvp. */
  function ChildFiles(t: Files, infile: nat, outfile: nat, errfile: nat): Files {
    Move(Move(Move(t, infile, 0), outfile, 1), errfile, 2)
  }

  predicate Opened(t: Files, infile: nat, outfile: nat, errfile: nat) {
    infile in t && outfile in t && errfile in t
  }

  /** The child reads, writes and reports errors where it should. */
  predicate StdioRight(t: Files, infile: nat, outfile: nat, errfile: nat)
    requires Opened(t, infile, outfile, errfile)
  {
    var c := ChildFiles(t, infile, outfile, errfile);
    && 0 in c && c[0] == t[infile]
    && 1 in c && c[1] == t[outfile]
    && 2 in c && c[2] == t[errfile]
  }

  /** No move of the child overwrites or closes what a later one needs. */
  predicate NoClash(infile: nat, outfile: nat, errfile: nat) {
    outfile != 0 && errfile != 0 && errfile != 1 && infile != outfile && infile != errfile && outfile != errfile
  }

  /** Stream n is the file that descriptor d is meant to give it, even without a move. */
  predicate Already(t: Files, n: nat, d: nat) {
    d != n && n in t && d in t && t[n] == t[d]
  }

  /** A descriptor meant for two streams is closed by its first move, so the later stream must be right already and stay
      open; and no stream may be overwritten or closed before it is moved. */
  predicate StdioFits(t: Files, infile: nat, outfile: nat, errfile: nat) {
    && outfile != 0 && errfile != 0 && errfile != 1
    && (infile == outfile ==> Already(t, 1, outfile))
    && (infile == errfile || outfile == errfile ==> infile != 2 && outfile != 2 && Already(t, 2, errfile))
  }

  /** For every table, also with files open twice, that is exactly when the child gets its three streams. */
  lemma StdioExact(t: Files, infile: nat, outfile: nat, errfile: nat)
    requires Opened(t, infile, outfile, errfile)
    ensures StdioRight(t, infile, outfile, errfile) <==> StdioFits(t, infile, outfile, errfile)
    ensures NoClash(infile, outfile, errfile) ==> StdioRight(t, infile, outfile, errfile)
  {
  }

  /** With 0 as its output a child never gets its streams: the first move has put the input, or nothing, there. */
  lemma OutputZeroLost(t: Files, infile: nat, errfile: nat)
    requires Opened(t, infile, 0, errfile) && errfile > 2
    ensures !StdioRight(t, infile, 0, errfile)
    ensures var c := ChildFiles(t, infile, 0, errfile); 0 !in c && 1 in c && c[1] == t[infile]
  {
  }

  /** At a terminal, where 0, 1 and 2 are one file, a copy of it may serve as input and output at once. */
  lemma SharedTerminal(tty: File)
    ensures var t: Files := map[0 := tty, 1 := tty, 2 := tty, 5 := tty];
            Opened(t, 5, 5, 2) && StdioRight(t, 5, 5, 2) && !NoClash(5, 5, 2)
  {
    var t: Files := map[0 := tty, 1 := tty, 2 := tty, 5 := tty];
    StdioExact(t, 5, 5, 2);
  }

  // ---------- the shell ----------

  /** The shell's descriptor table.  closed only observes: the files closed so far. */
  class Descriptors {
    var open: Files
    var pipes: nat
    ghost var closed: seq<File>

    /** A pipe end in the table is of a pipe made. */
    ghost predicate Valid()
      reads this
    {
      forall d :: d in open && !open[d].Given? ==> open[d].pipe < pipes
    }

    /** The lowest descriptor not in use. */
    static method LowestFree(t: Files) returns (d: nat)
      ensures d !in t && forall k :: 0 <= k < d ==> k in t
    {
      d := 0;
      ghost var below: set<nat> := {};
      while d in t
        invariant forall k :: 0 <= k < d ==> k in t
        invariant below <= t.Keys && d !in below && forall k :: k in below <==> 0 <= k < d
        decreases t.Keys - below
      {
        below := below + {d};
        d := d + 1;
      }
    }

    method Pipe() returns (reader: nat, writer: nat)
      requires Valid()
      modifies this
      ensures Valid() && closed == old(closed) && pipes == old(pipes) + 1
      ensures reader !in old(open) && writer !in old(open) && reader < writer
      ensures forall d :: 0 <= d < writer && d != reader ==> d in old(open)
      ensures open == old(open)[reader := ReadEnd(old(pipes))][writer := WriteEnd(old(pipes))]
    {
      ghost var before := open;
      reader := LowestFree(open);
      var half := open[reader := ReadEnd(pipes)];
      writer := LowestFree(half);
      assert forall d :: d in half && d != reader ==> d in before;
      open := half[writer := WriteEnd(pipes)];
      pipes := pipes + 1;
    }

    /** Closing a descriptor that is not open fails. */
    method Close(d: nat)
      requires Valid()
      modifies this
      ensures Valid() && pipes == old(pipes) && open == old(open) - {d}
      ensures closed == if d in old(open) then old(closed) + [old(open)[d]] else old(closed)
    {
      if d in open {
        closed := closed + [open[d]];
      }
      open := open - {d};
    }
  }

  /** A forked child: its process id, the process group it sets for itself and the one the shell sets for it (0 for
      none), the descriptors it inherits at the fork, the two it is told to use, and the read end of the pipe made for
      it (if one was). */
  datatype Child = Child(pid: int, own: int, shell: int, forked: Files, infile: nat, outfile: nat, reader: nat)

  /** The first m closes of a pipeline whose first pipe is b: the write end of each pipe, then its read end. */
  function Ends(b: nat, m: nat): seq<File> {
    seq(m, x requires 0 <= x => if x % 2 == 0 then WriteEnd(b + x / 2) else ReadEnd(b + x / 2))
  }

  /** No pipe of a job is given this number: it is in use, or three lower ones are free. */
  predicate Spared(t: Files, d: nat) {
    d in t || exists a, b, c :: 0 <= a < b < c < d && a !in t && b !in t && c !in t
  }

  /** A pipe set up beside at most one more descriptor does not take a spared number. */
  lemma PipeSpares(start: Files, before: Files, extra: nat, reader: nat, writer: nat, d: nat)
    requires Spared(start, d) && before.Keys <= start.Keys + {extra} && start.Keys <= before.Keys
    requires reader !in before && writer !in before && reader < writer
    requires forall x :: 0 <= x < writer && x != reader ==> x in before
    ensures reader != d && writer != d
  {
    if d !in start {
      var a, b, c :| 0 <= a < b < c < d && a !in start && b !in start && c !in start;
      assert a != extra ==> a !in before;
      assert b != extra ==> b !in before;
      assert c != extra ==> c !in before;
    }
  }

  /** The shell's descriptors when it is about to launch the child that reads infile. */
  function Upstream(start: Files, b: nat, k: nat, infile: nat): Files {
    if k == 0 then start else start[infile := ReadEnd(b + k - 1)]
  }

  /** Child k of n: it inherits the shell's descriptors, the read end of the pipe before it and both ends of the pipe
      after it, reads the former and writes the latter. */
  predicate Plumbed(c: Child, k: nat, n: nat, b: nat, start: Files, stdin: nat, stdout: nat) {
    var before := Upstream(start, b, k, c.infile);
    && (if k == 0 then c.infile == stdin else c.infile !in start && c.infile != stdin)
    && (if k == n - 1 then c.outfile == stdout && c.forked == before
        else && c.reader !in before && c.outfile !in before && c.reader < c.outfile
             && c.reader != stdin && c.outfile != stdout
             && c.forked == before[c.reader := ReadEnd(b + k)][c.outfile := WriteEnd(b + k)])
  }

  /** The process group of every child of an interactive job. */
  function Group(pgid: int, pids: seq<int>): int
    requires pids != []
  {
    if pgid == 0 then pids[0] else pgid
  }

  /** The children of a job so far: each told to read the pipe made for the one before it, and put by itself and by the
      shell into the same group. */
  predicate Grouped(children: seq<Child>, n: nat, pids: seq<int>, interactive: bool, pgid: int, stdin: nat) {
    && |children| <= n <= |pids|
    && (children != [] ==> children[0].infile == stdin)
    && (forall i, k :: 0 <= i < |children| && i < k < |children| && k == i + 1 ==>
          children[k].infile == children[i].reader)
    && forall k :: 0 <= k < |children| ==>
         && children[k].pid == pids[k]
         && children[k].own == children[k].shell == if interactive then Group(pgid, pids) else 0
  }

  /** And each plumbed. */
  predicate Launched(children: seq<Child>, n: nat, pids: seq<int>, interactive: bool, pgid: int, b: nat, start: Files,
                     stdin: nat, stdout: nat) {
    && Grouped(children, n, pids, interactive, pgid, stdin)
    && forall k :: 0 <= k < |children| ==> Plumbed(children[k], k, n, b, start, stdin, stdout)
  }

  /** Descriptors closed after k of n children. */
  function Closes(k: nat, n: nat): nat {
    if k == 0 then 0 else if k == n then 2 * n - 2 else 2 * k - 1
  }

  /** The shell's descriptors before child k of n is launched, and after the last one. */
  function Between(start: Files, b: nat, k: nat, n: nat, infile: nat): Files {
    if k == n then start else Upstream(start, b, k, infile)
  }

  /** Set up a pipe, if the process is not the last. */
  method SetUpPipe(fds: Descriptors, last: bool, stdout: nat, mypipe: (nat, nat))
    returns (pipe: (nat, nat), outfile: nat)
    requires fds.Valid()
    modifies fds
    ensures fds.Valid() && fds.closed == old(fds.closed)
    ensures last ==> fds.open == old(fds.open) && fds.pipes == old(fds.pipes) && outfile == stdout
    ensures !last ==>
              && fds.pipes == old(fds.pipes) + 1 && outfile == pipe.1 && pipe.0 < pipe.1
              && pipe.0 !in old(fds.open) && pipe.1 !in old(fds.open)
              && (forall d :: 0 <= d < pipe.1 && d != pipe.0 ==> d in old(fds.open))
              && fds.open == old(fds.open)[pipe.0 := ReadEnd(old(fds.pipes))][pipe.1 := WriteEnd(old(fds.pipes))]
  {
    pipe := mypipe;
    if !last {
      var r, w := fds.Pipe();
      pipe := (r, w);
      outfile := pipe.1;
    } else {
      outfile := stdout;
    }
  }

  /** Clean up after pipes: the shell keeps neither the pipe the child reads nor the end it writes. */
  method CleanUp(fds: Descriptors, infile: nat, outfile: nat, stdin: nat, stdout: nat)
    requires fds.Valid() && (infile != stdin ==> infile in fds.open) && (outfile != stdout ==> outfile in fds.open)
    requires infile != stdin && outfile != stdout ==> outfile != infile
    modifies fds
    ensures fds.Valid() && fds.pipes == old(fds.pipes)
    ensures fds.open == old(fds.open) - (if infile != stdin then {infile} else {})
                        - (if outfile != stdout then {outfile} else {})
    ensures fds.closed == old(fds.closed) + (if infile != stdin then [old(fds.open)[infile]] else [])
                                          + (if outfile != stdout then [old(fds.open)[outfile]] else [])
  {
    if infile != stdin {
      fds.Close(infile);
    }
    if outfile != stdout {
      fds.Close(outfile);
    }
  }

  /** One more child of the pipeline. */
  lemma OneMore(children: seq<Child>, c: Child, n: nat, pids: seq<int>, interactive: bool, pgid: int, b: nat,
                start: Files, stdin: nat, stdout: nat)
    requires Grouped(children, n, pids, interactive, pgid, stdin) && |children| < n
    requires c.infile == if children == [] then stdin else children[|children| - 1].reader
    requires c.pid == pids[|children|] && c.own == c.shell == if interactive then Group(pgid, pids) else 0
    ensures Grouped(children + [c], n, pids, interactive, pgid, stdin)
    ensures Launched(children, n, pids, interactive, pgid, b, start, stdin, stdout)
            && Plumbed(c, |children|, n, b, start, stdin, stdout)
            ==> Launched(children + [c], n, pids, interactive, pgid, b, start, stdin, stdout)
  {
    hide Plumbed, Group;
    var all := children + [c];
    assert forall k :: 0 <= k < |children| ==> all[k] == children[k];
  }

  lemma IsPlumbed(c: Child, before: Files, k: nat, n: nat, b: nat, start: Files, stdin: nat, stdout: nat)
    requires k < n && (if k == 0 then c.infile == stdin else c.infile !in start && c.infile != stdin)
    requires n > 1 ==> Spared(start, stdin) && Spared(start, stdout)
    requires before == Between(start, b, k, n, c.infile)
    requires if k == n - 1 then c.outfile == stdout && c.forked == before
             else && c.reader !in before && c.outfile !in before && c.reader < c.outfile
                  && (forall d :: 0 <= d < c.outfile && d != c.reader ==> d in before)
                  && c.forked == before[c.reader := ReadEnd(b + k)][c.outfile := WriteEnd(b + k)]
    ensures Plumbed(c, k, n, b, start, stdin, stdout)
  {
    if k < n - 1 {
      PipeSpares(start, before, c.infile, c.reader, c.outfile, stdin);
      PipeSpares(start, before, c.infile, c.reader, c.outfile, stdout);
    }
    hide Spared;
  }

  /** What the shell closes after launching a child. */
  function ClosedBy(c: Child, stdin: nat, stdout: nat): seq<File> {
    (if c.infile != stdin && c.infile in c.forked then [c.forked[c.infile]] else []) +
    (if c.outfile != stdout && c.outfile in c.forked then [c.forked[c.outfile]] else [])
  }

  lemma MoreClosed(c: Child, k: nat, n: nat, b: nat, start: Files, stdin: nat, stdout: nat, closed: seq<File>)
    requires k < n && Plumbed(c, k, n, b, start, stdin, stdout)
    ensures closed + Ends(b, Closes(k, n)) + ClosedBy(c, stdin, stdout) == closed + Ends(b, Closes(k + 1, n))
  {
    AfterChild(c, k, n, b, start, stdin, stdout);
  }

  /** What the shell closes after launching child k, and what it is left with. */
  lemma AfterChild(c: Child, k: nat, n: nat, b: nat, start: Files, stdin: nat, stdout: nat)
    requires k < n && Plumbed(c, k, n, b, start, stdin, stdout)
    ensures (c.infile != stdin ==> c.infile in c.forked) && (c.outfile != stdout ==> c.outfile in c.forked)
    ensures c.infile != stdin && c.outfile != stdout ==> c.outfile != c.infile
    ensures c.forked - (if c.infile != stdin then {c.infile} else {})
            - (if c.outfile != stdout then {c.outfile} else {})
            == Between(start, b, k + 1, n, c.reader)
    ensures Ends(b, Closes(k, n)) + ClosedBy(c, stdin, stdout) == Ends(b, Closes(k + 1, n))
    ensures k + 1 < n ==> c.reader !in start && c.reader != stdin
  {
  }

  lemma BetweenStart(start: Files, b: nat, n: nat, stdin: nat)
    ensures Between(start, b, 0, n, stdin) == start && forall infile :: Between(start, b, n, n, infile) == start
  {
  }

  /** The first child founds the group, and nobody changes it. */
  lemma GroupKept(pgid: int, pids: seq<int>, k: nat, interactive: bool)
    requires k < |pids| && forall m :: 0 <= m < |pids| ==> pids[m] > 0
    ensures var before := if interactive && k > 0 then Group(pgid, pids) else pgid;
            (if interactive && before == 0 then pids[k] else before) == if interactive then Group(pgid, pids) else pgid
  {
  }

  lemma StartsAt(j: Job)
    requires j.Valid()
    ensures j.firstProcess == ProcessAt(j.processes, 0) && ProcessAt(j.processes, |j.processes|) == null
  {
  }

  lemma NextOf(j: Job, k: nat)
    requires j.Valid() && k < |j.processes|
    ensures j.processes[k].next == ProcessAt(j.processes, k + 1) && ProcessAt(j.processes, k) == j.processes[k]
    ensures j.processes[k].next == null <==> k == |j.processes| - 1
  {
  }

  /** The child and the shell each put the child into the job's group, which the first child founds. */
  method Adopt(j: Job, p: Process, pid: int, interactive: bool) returns (own: int, shell: int)
    requires pid > 0 && j.Valid()
    modifies j`pgid, p`pid
    ensures j.Valid()
    ensures p.pid == pid && j.pgid == if interactive && old(j.pgid) == 0 then pid else old(j.pgid)
    ensures own == shell == if interactive then j.pgid else 0
  {
    own := if interactive then (if j.pgid == 0 then pid else j.pgid) else 0;
    shell := 0;
    p.pid := pid;
    if interactive {
      if j.pgid == 0 {
        j.pgid := pid;
      }
      shell := j.pgid;
    }
  }

  /** No pipe of the job takes the number of one of its own descriptors. */
  predicate NoReuse(n: nat, start: Files, stdin: nat, stdout: nat) {
    n > 1 ==> Spared(start, stdin) && Spared(start, stdout)
  }

  /** The shell is about to launch child k of n: it has start open, and the read end of the pipe before. */
  predicate Ahead(open: Files, pipes: nat, k: nat, n: nat, b: nat, start: Files, infile: nat, stdin: nat) {
    && open == Between(start, b, k, n, infile) && pipes == b + (if k == n > 0 then n - 1 else k)
    && (0 < k < n ==> infile !in start && infile != stdin)
  }

  /** The loop body of launch_job, for process p at place k of n. */
  method LaunchOne(j: Job, p: Process, fds: Descriptors, pid: int, interactive: bool, infile: nat, mypipe: (nat, nat),
                   ghost k: nat, ghost n: nat, ghost b: nat, ghost start: Files)
    returns (child: Child, pipe: (nat, nat))
    requires j.Valid() && fds.Valid() && pid > 0 && k < n && (p.next == null <==> k == n - 1)
    requires (k == 0 ==> infile == j.stdin) && (infile != j.stdin ==> infile in fds.open)
    modifies fds, j`pgid, p`pid
    ensures j.Valid() && fds.Valid()
    ensures p.pid == pid && j.pgid == if interactive && old(j.pgid) == 0 then pid else old(j.pgid)
    ensures child.pid == pid && child.own == child.shell == if interactive then j.pgid else 0
    ensures child.infile == infile && child.reader == pipe.0 && (k + 1 < n ==> pipe.0 in fds.open)
    ensures NoReuse(n, start, j.stdin, j.stdout) && old(Ahead(fds.open, fds.pipes, k, n, b, start, infile, j.stdin)) ==>
              && Plumbed(child, k, n, b, start, j.stdin, j.stdout)
              && Ahead(fds.open, fds.pipes, k + 1, n, b, start, pipe.0, j.stdin)
              && fds.closed == old(fds.closed) + ClosedBy(child, j.stdin, j.stdout)
  {
    hide Plumbed, Ends, Closes, Spared, Descriptors.Valid, Job.Valid, Between;
    ghost var before := fds.open;
    ghost var planned := NoReuse(n, start, j.stdin, j.stdout)
        && Ahead(fds.open, fds.pipes, k, n, b, start, infile, j.stdin);
    var outfile: nat;
    pipe, outfile := SetUpPipe(fds, p.next == null, j.stdout, mypipe);
    var forked := fds.open;
    var own, shell := Adopt(j, p, pid, interactive);
    child := Child(pid, own, shell, forked, infile, outfile, pipe.0);
    if planned {
      IsPlumbed(child, before, k, n, b, start, j.stdin, j.stdout);
      AfterChild(child, k, n, b, start, j.stdin, j.stdout);
    }
    CleanUp(fds, infile, outfile, j.stdin, j.stdout);
  }

  /** launch_job.  pids is what fork returns, one process after another.  A pipe can take the number of the job's own
      input or output if that is not open; the shell then takes its end for the job's and keeps it. */
  method LaunchJob(j: Job, fds: Descriptors, pids: seq<int>, interactive: bool) returns (children: seq<Child>)
    requires j.Valid() && fds.Valid()
    requires forall a, b :: 0 <= a < b < |j.processes| ==> j.processes[a] != j.processes[b]
    requires |pids| >= |j.processes| && forall k :: 0 <= k < |pids| ==> pids[k] > 0
    modifies fds, j`pgid, set p | p in j.processes
    ensures fds.Valid() && |children| == |j.processes|
    ensures Grouped(children, |children|, pids, interactive, old(j.pgid), j.stdin)
    ensures forall k :: 0 <= k < |children| ==> j.processes[k].pid == pids[k]
    ensures j.pgid == if interactive && children != [] then Group(old(j.pgid), pids) else old(j.pgid)
    ensures NoReuse(|children|, old(fds.open), j.stdin, j.stdout) ==>
              && fds.open == old(fds.open)
              && Launched(children, |children|, pids, interactive, old(j.pgid), old(fds.pipes), old(fds.open),
                          j.stdin, j.stdout)
              && fds.closed == old(fds.closed) + Ends(old(fds.pipes), Closes(|children|, |children|))
  {
    ghost var start, b, n, group := fds.open, fds.pipes, |j.processes|, j.pgid;
    ghost var spared := NoReuse(n, start, j.stdin, j.stdout);
    var infile, k := j.stdin, 0;
    var mypipe := (0, 0);
    children := [];
    var p := j.firstProcess;
    BetweenStart(start, b, n, j.stdin);
    StartsAt(j);
    assert Ahead(fds.open, fds.pipes, 0, n, b, start, infile, j.stdin);
    hide *;
    while p != null
      invariant 0 <= k <= n && p == ProcessAt(j.processes, k) && |children| == k
      invariant fds.Valid() && j.Valid()
      invariant infile == if k == 0 then j.stdin else children[k - 1].reader
      invariant k < n && infile != j.stdin ==> infile in fds.open
      invariant Grouped(children, n, pids, interactive, group, j.stdin)
      invariant forall m :: 0 <= m < k ==> j.processes[m].pid == pids[m]
      invariant j.pgid == if interactive && k > 0 then Group(group, pids) else group
      invariant spared ==> Ahead(fds.open, fds.pipes, k, n, b, start, infile, j.stdin)
      invariant spared ==> Launched(children, n, pids, interactive, group, b, start, j.stdin, j.stdout)
      invariant spared ==> fds.closed == old(fds.closed) + Ends(b, Closes(k, n))
      decreases n - k
    {
      NextOf(j, k);
      var child;
      child, mypipe := LaunchOne(j, p, fds, pids[k], interactive, infile, mypipe, k, n, b, start);
      GroupKept(group, pids, k, interactive);
      OneMore(children, child, n, pids, interactive, group, b, start, j.stdin, j.stdout);
      if spared {
        MoreClosed(child, k, n, b, start, j.stdin, j.stdout, old(fds.closed));
      }
      children := children + [child];
      infile := mypipe.0;
      p := p.next;
      k := k + 1;
    }
    AheadEnds(fds.open, fds.pipes, n, b, start, infile, j.stdin);
  }

  lemma AheadEnds(open: Files, pipes: nat, n: nat, b: nat, start: Files, infile: nat, stdin: nat)
    ensures Ahead(open, pipes, n, n, b, start, infile, stdin) ==> open == start
  {
  }

  // ---------- what the children get ----------

  /** The files of the shell are not ends of the pipes to come. */
  predicate OldFiles(start: Files, b: nat) {
    forall d :: d in start && !start[d].Given? ==> start[d].pipe < b
  }

  /** No clash among the descriptors of a job of n processes. */
  predicate JobClear(n: nat, stdin: nat, stdout: nat, stderr: nat) {
    n > 0 ==>
      && stdout != 0 && stderr != 0 && stderr != 1 && stdin != stderr && stdout != stderr
      && (n == 1 ==> stdin != stdout)
  }

  /** What child k of n needs of the job's descriptors.  Only the first and the last child use two of them. */
  predicate StageFits(k: nat, n: nat, start: Files, stdin: nat, stdout: nat, stderr: nat) {
    if n == 1 then StdioFits(start, stdin, stdout, stderr)
    else
      && (k == n - 1 ==> stdout != 0) && stderr != 0 && stderr != 1
      && ((k == 0 && stdin == stderr) || (k == n - 1 && stdout == stderr) ==> Already(start, 2, stderr))
  }

  /** What a job of n processes needs of its descriptors. */
  predicate JobFits(n: nat, start: Files, stdin: nat, stdout: nat, stderr: nat) {
    if n == 0 then true
    else if n == 1 then StdioFits(start, stdin, stdout, stderr)
    else
      && stdout != 0 && stderr != 0 && stderr != 1
      && (stdin == stderr || stdout == stderr ==> Already(start, 2, stderr))
  }

  lemma ForkedFiles(c: Child, k: nat, n: nat, b: nat, start: Files, stdin: nat, stdout: nat)
    requires k < n && Plumbed(c, k, n, b, start, stdin, stdout) && stdin in start && stdout in start
    ensures c.infile in c.forked && c.outfile in c.forked
    ensures forall d :: d in start ==> d in c.forked && c.forked[d] == start[d]
    ensures c.forked[c.infile] == if k == 0 then start[stdin] else ReadEnd(b + k - 1)
    ensures c.forked[c.outfile] == if k == n - 1 then start[stdout] else WriteEnd(b + k)
  {
  }

  /** The pipe ends a child inherits. */
  lemma ForkedEnds(c: Child, k: nat, n: nat, b: nat, start: Files, stdin: nat, stdout: nat)
    requires k < n && Plumbed(c, k, n, b, start, stdin, stdout) && OldFiles(start, b)
    ensures forall d :: d in c.forked && !c.forked[d].Given? && c.forked[d].pipe >= b ==>
              || (d == c.infile && k > 0) || (d == c.outfile && k < n - 1)
              || (d == c.reader && k < n - 1 && c.forked[d] == ReadEnd(b + k))
    ensures k < n - 1 ==> c.reader in c.forked && c.forked[c.reader] == ReadEnd(b + k)
    ensures k < n - 1 ==> c.reader != c.infile && c.reader != c.outfile && c.reader !in start
    ensures k == 0 ==> c.infile == stdin
    ensures k == n - 1 ==> c.outfile == stdout
  {
  }

  /** Child k gets its streams exactly if the job's descriptors suit it. */
  lemma StageExact(c: Child, k: nat, n: nat, b: nat, start: Files, stdin: nat, stdout: nat, stderr: nat)
    requires k < n && Plumbed(c, k, n, b, start, stdin, stdout) && Opened(start, stdin, stdout, stderr)
    requires OldFiles(start, b)
    ensures Opened(c.forked, c.infile, c.outfile, stderr)
    ensures StdioRight(c.forked, c.infile, c.outfile, stderr) <==> StageFits(k, n, start, stdin, stdout, stderr)
  {
    ForkedFiles(c, k, n, b, start, stdin, stdout);
    StdioExact(c.forked, c.infile, c.outfile, stderr);
    hide StdioRight;
  }

  ghost predicate AllStdioRight(children: seq<Child>, stderr: nat) {
    forall k :: 0 <= k < |children| ==>
      && Opened(children[k].forked, children[k].infile, children[k].outfile, stderr)
      && StdioRight(children[k].forked, children[k].infile, children[k].outfile, stderr)
  }

  /** Every child of the pipeline gets its three streams exactly if the job's descriptors fit; in particular if none of
      them clash. */
  lemma PipelineStdioExact(children: seq<Child>, n: nat, pids: seq<int>, interactive: bool, pgid: int, b: nat,
                           start: Files, stdin: nat, stdout: nat, stderr: nat)
    requires Launched(children, n, pids, interactive, pgid, b, start, stdin, stdout) && |children| == n
    requires Opened(start, stdin, stdout, stderr) && OldFiles(start, b)
    ensures AllStdioRight(children, stderr) <==> JobFits(n, start, stdin, stdout, stderr)
    ensures JobClear(n, stdin, stdout, stderr) ==> AllStdioRight(children, stderr)
  {
    forall k | 0 <= k < n
      ensures var c := children[k];
              && Opened(c.forked, c.infile, c.outfile, stderr)
              && (StdioRight(c.forked, c.infile, c.outfile, stderr) <==> StageFits(k, n, start, stdin, stdout, stderr))
    {
      StageExact(children[k], k, n, b, start, stdin, stdout, stderr);
    }
    hide StdioRight, Plumbed, OldFiles;
    if n > 0 {
      assert JobFits(n, start, stdin, stdout, stderr) <==>
        StageFits(0, n, start, stdin, stdout, stderr) && StageFits(n - 1, n, start, stdin, stdout, stderr);
    }
  }

  /** Stage k writes the pipe that stage k + 1 reads; no other process has an end of it but the read end that stage k
      itself inherits and never closes.  In particular a reader sees end of file as soon as its writer is gone. */
  lemma PipesMeet(c: Child, k: nat, n: nat, b: nat, start: Files, stdin: nat, stdout: nat, stderr: nat)
    requires k < n && Plumbed(c, k, n, b, start, stdin, stdout) && Opened(start, stdin, stdout, stderr)
    requires OldFiles(start, b) && StageFits(k, n, start, stdin, stdout, stderr)
    ensures var t := ChildFiles(c.forked, c.infile, c.outfile, stderr);
            && 0 in t && t[0] == (if k == 0 then start[stdin] else ReadEnd(b + k - 1))
            && 1 in t && t[1] == (if k == n - 1 then start[stdout] else WriteEnd(b + k))
            && 2 in t && t[2] == start[stderr]
            && (forall d :: d in t && !t[d].Given? && t[d].pipe >= b ==>
                 || (d == 0 && k > 0) || (d == 1 && k < n - 1)
                     || (d == c.reader && k < n - 1 && t[d] == ReadEnd(b + k)))
            && (k < n - 1 && c.reader > 2 ==> c.reader in t && t[c.reader] == ReadEnd(b + k))
  {
    ForkedFiles(c, k, n, b, start, stdin, stdout);
    StageExact(c, k, n, b, start, stdin, stdout, stderr);
    ForkedEnds(c, k, n, b, start, stdin, stdout);
    MovedFiles(c.forked, c.infile, c.outfile, stderr);
    hide Plumbed, ChildFiles, StageFits, StdioFits;
  }

  /** What a child has open after its moves: its three streams, and what it inherited and was not told to move. */
  lemma MovedFiles(t: Files, infile: nat, outfile: nat, errfile: nat)
    requires Opened(t, infile, outfile, errfile) && StdioRight(t, infile, outfile, errfile)
    ensures var c := ChildFiles(t, infile, outfile, errfile);
            && 0 in c && c[0] == t[infile] && 1 in c && c[1] == t[outfile] && 2 in c && c[2] == t[errfile]
            && (forall d :: d in c && d > 2 ==> d in t && c[d] == t[d] && d != infile && d != outfile && d != errfile)
            && (forall d :: d in t && d > 2 && d != infile && d != outfile && d != errfile ==> d in c)
  {
  }

  /** The shell closes both ends of every pipe of the job, each exactly once. */
  lemma EndsOnce(b: nat, m: nat, f: File)
    ensures f in Ends(b, 2 * m) <==> !f.Given? && b <= f.pipe < b + m
    ensures forall x, y :: 0 <= x < y < 2 * m ==> Ends(b, 2 * m)[x] != Ends(b, 2 * m)[y]
  {
    if !f.Given? && b <= f.pipe < b + m {
      var x := 2 * (f.pipe - b) + if f.WriteEnd? then 0 else 1;
      assert Ends(b, 2 * m)[x] == f;
    }
  }
}
