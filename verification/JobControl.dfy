/** The job-control shell's linked lists of jobs and processes, updated in place. */
module JobControl {
  import opened Basics
  import opened JobTable

  class Process {
    var next: Process?
    var pid: int
    var completed: bool
    var stopped: bool
    var status: int

    constructor ()
      ensures next == null && pid == 0 && !completed && !stopped && status == 0
    {
      next, pid, completed, stopped, status := null, 0, false, false, 0;
    }

    method Take(status: int)
      modifies `status, `stopped, `completed
      ensures RecordOf(this) == Told(old(RecordOf(this)), status)
      ensures this.status == status
      ensures stopped <==> old(stopped) || status % 256 == 127
      ensures completed <==> old(completed) || status % 256 != 127
    {
      this.status := status;
      if StoppedStatus(status) {
        stopped := true;
      } else {
        completed := true;
      }
    }
  }

  /** The node at position i of a list of processes, null past its end. */
  function ProcessAt(ps: seq<Process>, i: int): Process? {
    if 0 <= i < |ps| then ps[i] else null
  }

  ghost predicate ProcessesLinked(head: Process?, ps: seq<Process>)
    reads ps
  {
    && head == ProcessAt(ps, 0)
    && forall i, k :: 0 <= i < |ps| && k == i + 1 ==> ps[i].next == ProcessAt(ps, k)
  }

  function RecordOf(p: Process): Record
    reads p
  {
    Record(p.pid, p.completed, p.stopped, p.status)
  }

  ghost function RecordsOf(ps: seq<Process>): (rs: seq<Record>)
    reads ps
    ensures |rs| == |ps| && forall i :: 0 <= i < |ps| ==> rs[i] == RecordOf(ps[i])
  {
    if ps == [] then [] else [RecordOf(ps[0])] + RecordsOf(ps[1..])
  }

  class Job {
    var next: Job?
    const firstProcess: Process?
    var pgid: int
    var notified: bool
    /** The descriptors its first, last and every process gets. */
    const stdin: nat
    const stdout: nat
    const stderr: nat
    /** The nodes of the list that starts at firstProcess. */
    ghost const processes: seq<Process>

    constructor (first: Process?, ghost processes: seq<Process>, stdin: nat, stdout: nat, stderr: nat)
      ensures next == null && firstProcess == first && this.processes == processes && pgid == 0 && !notified
      ensures this.stdin == stdin && this.stdout == stdout && this.stderr == stderr
    {
      next, firstProcess, pgid, notified := null, first, 0, false;
      this.stdin, this.stdout, this.stderr := stdin, stdout, stderr;
      this.processes := processes;
    }

    ghost function Records(): seq<Record>
      reads processes
    {
      RecordsOf(processes)
    }

    ghost predicate Valid()
      reads processes
    {
      ProcessesLinked(firstProcess, processes)
    }

    method IsStopped() returns (b: bool)
      requires Valid()
      ensures b <==> AllHalted(Records())
    {
      var p := firstProcess;
      ghost var i := 0;
      while p != null
        invariant 0 <= i <= |processes| && p == ProcessAt(processes, i)
        invariant forall k :: 0 <= k < i ==> Records()[k].completed || Records()[k].stopped
        decreases |processes| - i
      {
        if !p.completed && !p.stopped {
          assert Records()[i] == RecordOf(p);
          return false;
        }
        p := p.next;
        i := i + 1;
      }
      return true;
    }

    method IsCompleted() returns (b: bool)
      requires Valid()
      ensures b <==> AllCompleted(Records())
    {
      var p := firstProcess;
      ghost var i := 0;
      while p != null
        invariant 0 <= i <= |processes| && p == ProcessAt(processes, i)
        invariant forall k :: 0 <= k < i ==> Records()[k].completed
        decreases |processes| - i
      {
        if !p.completed {
          assert Records()[i] == RecordOf(p);
          return false;
        }
        p := p.next;
        i := i + 1;
      }
      return true;
    }

    /** The first process of the job with this pid. */
    method Locate(pid: int) returns (p: Process?, ghost b: int)
      requires Valid()
      ensures p == null ==> forall d :: 0 <= d < |processes| ==> processes[d].pid != pid
      ensures p != null ==> 0 <= b < |processes| && p == processes[b] && p.pid == pid
                            && forall d :: 0 <= d < b ==> processes[d].pid != pid
    {
      p, b := firstProcess, 0;
      while p != null
        invariant 0 <= b <= |processes| && p == ProcessAt(processes, b)
        invariant forall d :: 0 <= d < b ==> processes[d].pid != pid
        decreases |processes| - b
      {
        if p.pid == pid {
          return;
        }
        p := p.next;
        b := b + 1;
      }
    }
  }

  function JobAt(js: seq<Job>, i: int): Job? {
    if 0 <= i < |js| then js[i] else null
  }

  function Members(ps: seq<Process>): set<Process> {
    set p | p in ps
  }

  /** The processes of the jobs. */
  ghost function Owned(js: seq<Job>): (ps: set<Process>)
    ensures forall i, p :: 0 <= i < |js| && p in js[i].processes ==> p in ps
  {
    if js == [] then {} else Owned(js[..|js| - 1]) + Members(js[|js| - 1].processes)
  }

  ghost predicate JobsLinked(head: Job?, js: seq<Job>)
    reads js
  {
    && head == JobAt(js, 0)
    && forall i, k :: 0 <= i < |js| && k == i + 1 ==> js[i].next == JobAt(js, k)
  }

  ghost predicate Distinct(js: seq<Job>) {
    forall i, k :: 0 <= i < k < |js| ==> js[i] != js[k]
  }

  ghost predicate AllValid(js: seq<Job>)
    reads Owned(js)
  {
    forall k :: 0 <= k < |js| ==> js[k].Valid()
  }

  ghost function TableOf(js: seq<Job>): (t: Table)
    reads Owned(js)
    ensures |t| == |js|
  {
    if js == [] then [] else TableOf(js[..|js| - 1]) + [js[|js| - 1].Records()]
  }

  lemma {:induction false} TableAt(js: seq<Job>, i: nat)
    requires i < |js|
    ensures TableOf(js)[i] == js[i].Records()
  {
    if i < |js| - 1 {
      TableAt(js[..|js| - 1], i);
    }
  }

  ghost function ViewOf(j: Job): JobView
    reads j, j.processes
  {
    JobView(j.pgid, j.Records(), j.notified)
  }

  ghost function ViewsOf(js: seq<Job>): (vs: seq<JobView>)
    reads js, Owned(js)
    ensures |vs| == |js| && forall i :: 0 <= i < |js| ==> vs[i] == ViewOf(js[i])
  {
    if js == [] then [] else ViewsOf(js[..|js| - 1]) + [ViewOf(js[|js| - 1])]
  }

  /** The jobs that have a process not completed, in order. */
  function Unfinished(js: seq<Job>, views: seq<JobView>): seq<Job>
    requires |js| == |views|
  {
    if js == [] then []
    else
      Unfinished(js[..|js| - 1], views[..|js| - 1]) +
      (if AllCompleted(views[|js| - 1].records) then [] else [js[|js| - 1]])
  }

  predicate Left(listed: (Job, JobView)) {
    !IsFinished(listed.1)
  }

  predicate Node(listed: (Job, JobView), j: Job) {
    j == listed.0
  }

  function Zipped(all: seq<Job>, views: seq<JobView>): seq<(Job, JobView)>
    requires |all| == |views|
  {
    seq(|all|, i requires 0 <= i < |all| => (all[i], views[i]))
  }

  /** The nodes left in the list are those of the jobs with a process not completed, in their old order. */
  ghost predicate StillListed(all: seq<Job>, views: seq<JobView>, js: seq<Job>)
    requires |all| == |views|
  {
    exists places: seq<nat> :: Selected(Zipped(all, views), Left, Node, js, places)
  }

  lemma {:induction false} UnfinishedListed(all: seq<Job>, views: seq<JobView>) returns (places: seq<nat>)
    requires |all| == |views|
    ensures Selected(Zipped(all, views), Left, Node, Unfinished(all, views), places)
  {
    if all == [] {
      places := [];
      assert Zipped(all, views) == [];
      SelectedNone(Left, Node);
    } else {
      var n := |all| - 1;
      var rest, last := Zipped(all[..n], views[..n]), (all[n], views[n]);
      SurvivorOf(views[n]);
      assert Zipped(all, views) == rest + [last];
      var js := Unfinished(all[..n], views[..n]);
      assert Unfinished(all, views) == if IsFinished(views[n]) then js else js + [all[n]];
      hide Selected, Unfinished, IsFinished, Zipped;
      places := UnfinishedListed(all[..n], views[..n]);
      if IsFinished(views[n]) {
        SelectedPast(rest, Left, Node, js, places, last);
      } else {
        SelectedMore(rest, Left, Node, js, places, last, all[n]);
        places := places + [|rest|];
      }
    }
  }

  lemma StaysListed(all: seq<Job>, views: seq<JobView>)
    requires |all| == |views|
    ensures StillListed(all, views, Unfinished(all, views))
  {
    var places := UnfinishedListed(all, views);
  }

  lemma Announces(views: seq<JobView>)
    ensures Announced(views, Notices(views)) && Remaining(views, Survivors(views))
  {
    var told := NoticesAnnounced(views);
    var left := SurvivorsRemain(views);
  }

  ghost predicate Separate(js: seq<Job>) {
    forall a, b, c, d :: 0 <= a < |js| && 0 <= b < |js[a].processes| && 0 <= c < |js| && 0 <= d < |js[c].processes|
      && js[a].processes[b] == js[c].processes[d]
      ==> a == c && b == d
  }

  ghost predicate Others(js: seq<Job>, a: int, b: int)
    requires 0 <= a < |js| && 0 <= b < |js[a].processes|
  {
    forall c, d :: 0 <= c < |js| && 0 <= d < |js[c].processes| && !(c == a && d == b) ==>
      js[c].processes[d] != js[a].processes[b]
  }

  /** The records of the processes, one by one. */
  lemma RecordsIn(js: seq<Job>)
    ensures forall c :: 0 <= c < |js| ==> |TableOf(js)[c]| == |js[c].processes|
    ensures forall c, d :: 0 <= c < |js| && 0 <= d < |js[c].processes| ==>
              TableOf(js)[c][d] == RecordOf(js[c].processes[d])
  {
    forall c | 0 <= c < |js| ensures TableOf(js)[c] == js[c].Records() {
      TableAt(js, c);
    }
  }

  /** A table that differs from another in one record. */
  lemma OneRecord(t: Table, t': Table, a: int, b: int)
    requires 0 <= a < |t| == |t'| && 0 <= b < |t[a]|
    requires forall c :: 0 <= c < |t| ==> |t'[c]| == |t[c]|
    requires forall c, d :: 0 <= c < |t| && 0 <= d < |t[c]| && !(c == a && d == b) ==> t'[c][d] == t[c][d]
    ensures t' == Put(t, a, b, t'[a][b])
  {
    forall c | 0 <= c < |t| ensures t'[c] == Put(t, a, b, t'[a][b])[c] {
      assert |t'[c]| == |Put(t, a, b, t'[a][b])[c]|;
      forall d | 0 <= d < |t[c]| ensures t'[c][d] == Put(t, a, b, t'[a][b])[c][d] {
      }
    }
  }

  /** No process of the first n jobs has this pid. */
  ghost predicate Nowhere(js: seq<Job>, n: int, pid: int)
    requires n <= |js|
    reads Owned(js)
  {
    forall c, d :: 0 <= c < n && 0 <= d < |js[c].processes| ==> js[c].processes[d].pid != pid
  }

  ghost predicate FoundAt(js: seq<Job>, pid: int, a: int, b: int)
    reads Owned(js)
  {
    && 0 <= a < |js| && 0 <= b < |js[a].processes| && js[a].processes[b].pid == pid
    && Nowhere(js, a, pid)
    && forall d :: 0 <= d < b ==> js[a].processes[d].pid != pid
  }

  lemma NowhereInTable(js: seq<Job>, pid: int)
    requires Nowhere(js, |js|, pid)
    ensures !Known(TableOf(js), pid)
  {
    var t: Table := TableOf(js);
    RecordsIn(js);
    forall c, d | 0 <= c < |t| && 0 <= d < |t[c]| ensures t[c][d].pid != pid {
    }
  }

  lemma FoundInTable(js: seq<Job>, pid: int, a: int, b: int)
    requires FoundAt(js, pid, a, b)
    ensures IsFirst(TableOf(js), pid, a, b) && Known(TableOf(js), pid)
    ensures TableOf(js)[a][b] == RecordOf(js[a].processes[b])
  {
    var t: Table := TableOf(js);
    RecordsIn(js);
    forall c, d | 0 <= c < a && 0 <= d < |t[c]| ensures t[c][d].pid != pid {
    }
  }

  twostate lemma StillValid(s: Shell)
    requires old(s.Valid()) && unchanged(s)
    requires forall j: Job | old(allocated(j)) :: j.next == old(j.next)
    requires forall p: Process | old(allocated(p)) :: p.next == old(p.next)
    ensures s.Valid()
  {
    hide Separate, Owned;
  }

  twostate lemma {:induction false} SameRecords(ps: seq<Process>)
    requires forall p <- ps :: RecordOf(p) == old(RecordOf(p))
    ensures RecordsOf(ps) == old(RecordsOf(ps))
  {
    if ps != [] {
      assert ps[0] in ps && forall p <- ps[1..] :: p in ps;
      SameRecords(ps[1..]);
    }
  }

  twostate lemma {:induction false} SameTable(js: seq<Job>)
    requires forall j, p :: j in js && p in j.processes ==> RecordOf(p) == old(RecordOf(p))
    ensures TableOf(js) == old(TableOf(js))
  {
    if js != [] {
      assert js[|js| - 1] in js && forall j <- js[..|js| - 1] :: j in js;
      SameRecords(js[|js| - 1].processes);
      SameTable(js[..|js| - 1]);
    }
  }

  /** Calls that modify nothing keep the lists and the table. */
  twostate lemma Unmoved(s: Shell)
    requires old(s.Valid()) && unchanged(s)
    requires forall j: Job | old(allocated(j)) :: j.next == old(j.next)
    requires forall p: Process | old(allocated(p)) ::
               && p.next == old(p.next) && p.pid == old(p.pid)
               && p.completed == old(p.completed) && p.stopped == old(p.stopped) && p.status == old(p.status)
    ensures s.Valid() && s.Table() == old(s.Table())
  {
    StillValid(s);
    SameTable(s.jobs);
  }

  // ---------- unlinking in place ----------

  /** The fields of the jobs, as they are while the list is being edited. */
  ghost predicate Holds(all: seq<Job>, views: seq<JobView>, links: seq<Job?>, marks: seq<bool>)
    reads all, Owned(all)
  {
    && |all| == |views| == |links| == |marks|
    && forall k :: 0 <= k < |all| ==>
         && all[k].next == links[k] && all[k].notified == marks[k]
         && all[k].pgid == views[k].pgid && all[k].Records() == views[k].records
  }

  predicate Increasing(places: seq<int>, i: int) {
    && (forall a :: 0 <= a < |places| ==> 0 <= places[a] < i)
    && forall a, b :: 0 <= a < b < |places| ==> places[a] < places[b]
  }

  /** The b-th stop of a list that runs through the jobs at these places and on to the job at i. */
  function StopAt(all: seq<Job>, places: seq<int>, i: int, b: int): Job? {
    if 0 <= b < |places| then JobAt(all, places[b]) else JobAt(all, i)
  }

  /** The list from first runs through the jobs at these places, on to the job at i. */
  ghost predicate Threaded(all: seq<Job>, places: seq<int>, links: seq<Job?>, i: int, first: Job?) {
    && 0 <= i <= |all| == |links| && Increasing(places, i)
    && first == StopAt(all, places, i, 0)
    && forall a, b :: 0 <= a < |places| && b == a + 1 ==>
         links[places[a]] == StopAt(all, places, i, b)
  }

  /** The jobs at other places have their first successor and mark. */
  ghost predicate Untouched(all: seq<Job>, views: seq<JobView>, places: seq<int>, links: seq<Job?>, marks: seq<bool>) {
    && |all| == |views| == |links| == |marks|
    && forall k :: 0 <= k < |all| && k !in places ==> links[k] == JobAt(all, k + 1) && marks[k] == views[k].notified
  }

  /** These are the places of the unfinished ones of the first i jobs, marked as one pass marks them. */
  ghost predicate Picked(all: seq<Job>, views: seq<JobView>, places: seq<int>, marks: seq<bool>, i: int) {
    && 0 <= i <= |all| == |views| == |marks| && Increasing(places, i)
    && |Unfinished(all[..i], views[..i])| == |Survivors(views[..i])| == |places|
    && forall a :: 0 <= a < |places| ==>
         && Unfinished(all[..i], views[..i])[a] == all[places[a]]
         && Survivors(views[..i])[a] == views[places[a]].(notified := marks[places[a]])
  }

  /** The first i jobs have been visited. */
  ghost predicate Halfway(all: seq<Job>, views: seq<JobView>, places: seq<int>, links: seq<Job?>, marks: seq<bool>,
                          i: int,
                          first: Job?) {
    && Threaded(all, places, links, i, first)
    && Untouched(all, views, places, links, marks)
    && Picked(all, views, places, marks, i)
  }

  lemma Prefix<T>(s: seq<T>, i: nat)
    requires i < |s|
    ensures s[..i + 1][..i] == s[..i] && s[..i + 1][i] == s[i]
  {
  }

  lemma NoticesNext(views: seq<JobView>, i: nat)
    requires i < |views|
    ensures Notices(views[..i + 1]) == Notices(views[..i]) + NoticeOf(views[i])
  {
    assert views[..i + 1][..i] == views[..i] && views[..i + 1][i] == views[i];
  }

  lemma Bypass(all: seq<Job>, places: seq<int>, links: seq<Job?>, i: int, first: Job?)
    requires Threaded(all, places, links, i, first) && i < |all|
    ensures places == [] ==> Threaded(all, places, links, i + 1, JobAt(all, i + 1))
    ensures places != [] ==> Threaded(all, places, links[places[|places| - 1] := JobAt(all, i + 1)], i + 1, first)
  {
    if places != [] {
      var last := |places| - 1;
      var links' := links[places[last] := JobAt(all, i + 1)];
      forall a | 0 <= a < |places| ensures links'[places[a]] == StopAt(all, places, i + 1, a + 1) {
        if a < last {
          assert links[places[a]] == StopAt(all, places, i, a + 1);
        }
      }
    }
  }

  lemma PickedDropped(all: seq<Job>, views: seq<JobView>, places: seq<int>, marks: seq<bool>, i: int)
    requires Picked(all, views, places, marks, i) && i < |all| && AllCompleted(views[i].records)
    ensures Picked(all, views, places, marks, i + 1)
  {
    Prefix(all, i);
    Prefix(views, i);
    hide AllCompleted, AllHalted;
  }

  /** Unlinking a completed job. */
  lemma Dropped(all: seq<Job>, views: seq<JobView>, places: seq<int>, links: seq<Job?>, marks: seq<bool>, i: int,
                first: Job?)
    requires Halfway(all, views, places, links, marks, i, first) && i < |all| && AllCompleted(views[i].records)
    ensures places == [] ==> Halfway(all, views, places, links, marks, i + 1, JobAt(all, i + 1))
    ensures places != [] ==>
              0 <= places[|places| - 1] < |links|
              && Halfway(all, views, places, links[places[|places| - 1] := JobAt(all, i + 1)], marks, i + 1, first)
  {
    Bypass(all, places, links, i, first);
    PickedDropped(all, views, places, marks, i);
    hide Picked, Threaded, AllCompleted, JobAt;
  }

  lemma ThreadedKept(all: seq<Job>, places: seq<int>, links: seq<Job?>, i: int, first: Job?)
    requires Threaded(all, places, links, i, first) && i < |all| && links[i] == JobAt(all, i + 1)
    ensures Threaded(all, places + [i], links, i + 1, first)
  {
    var places' := places + [i];
    forall a | 0 <= a < |places'| ensures links[places'[a]] == StopAt(all, places', i + 1, a + 1) {
      var b := a + 1;
      if a < |places| {
        assert links[places[a]] == StopAt(all, places, i, b);
      }
    }
  }

  lemma PickedKept(all: seq<Job>, views: seq<JobView>, places: seq<int>, marks: seq<bool>, i: int)
    requires Picked(all, views, places, marks, i) && i < |all| && !AllCompleted(views[i].records)
    ensures Picked(all, views, places + [i], marks[i := views[i].notified || AllHalted(views[i].records)], i + 1)
  {
    Prefix(all, i);
    Prefix(views, i);
    hide AllCompleted, AllHalted;
  }

  /** Passing a job that stays, marked if it is stopped. */
  lemma Kept(all: seq<Job>, views: seq<JobView>, places: seq<int>, links: seq<Job?>, marks: seq<bool>, i: int,
             first: Job?)
    requires Halfway(all, views, places, links, marks, i, first) && i < |all| && !AllCompleted(views[i].records)
    ensures Halfway(all, views, places + [i], links, marks[i := views[i].notified || AllHalted(views[i].records)],
            i + 1,
                    first)
  {
    assert i !in places;
    ThreadedKept(all, places, links, i, first);
    PickedKept(all, views, places, marks, i);
    hide Picked, Threaded, AllCompleted, AllHalted, JobAt;
  }

  function Links(js: seq<Job>): seq<Job?> {
    seq(|js|, k => JobAt(js, k + 1))
  }

  function Marks(views: seq<JobView>): seq<bool> {
    seq(|views|, k requires 0 <= k < |views| => views[k].notified)
  }

  lemma BeginPass(s: Shell)
    requires s.Valid()
    ensures var views := ViewsOf(s.jobs);
            && Halfway(s.jobs, views, [], Links(s.jobs), Marks(views), 0, s.firstJob)
            && Holds(s.jobs, views, Links(s.jobs), Marks(views))
            && Distinct(s.jobs) && AllValid(s.jobs) && Separate(s.jobs)
  {
    hide Separate, Owned;
  }

  lemma SeparateAt(all: seq<Job>, js: seq<Job>, places: seq<int>)
    requires Separate(all) && Increasing(places, |all|) && |js| == |places|
    requires forall a :: 0 <= a < |js| ==> js[a] == all[places[a]]
    ensures Separate(js)
  {
    forall a, b, c, d | 0 <= a < |js| && 0 <= b < |js[a].processes| && 0 <= c < |js| && 0 <= d < |js[c].processes|
                        && js[a].processes[b] == js[c].processes[d]
      ensures a == c && b == d
    {
      assert all[places[a]].processes[b] == all[places[c]].processes[d];
    }
  }

  lemma ViewsAt(all: seq<Job>, views: seq<JobView>, places: seq<int>, links: seq<Job?>, marks: seq<bool>)
    requires Picked(all, views, places, marks, |all|) && Holds(all, views, links, marks)
    ensures ViewsOf(Unfinished(all, views)) == Survivors(views)
    ensures var js := Unfinished(all, views); |js| == |places| && forall a :: 0 <= a < |js| ==> js[a] == all[places[a]]
  {
    assert all[..|all|] == all && views[..|all|] == views;
    var js := Unfinished(all, views);
    hide Owned, Unfinished, Survivors, AllCompleted, AllHalted, RecordsOf;
    forall a | 0 <= a < |js| ensures ViewOf(js[a]) == Survivors(views)[a] {
    }
  }

  lemma LinksAt(all: seq<Job>, views: seq<JobView>, places: seq<int>, links: seq<Job?>, marks: seq<bool>, first: Job?,
                js: seq<Job>)
    requires Threaded(all, places, links, |all|, first) && Holds(all, views, links, marks) && Distinct(all)
    requires |js| == |places| && forall a :: 0 <= a < |js| ==> js[a] == all[places[a]]
    ensures JobsLinked(first, js) && Distinct(js)
  {
    hide Owned, RecordsOf;
    forall i, k | 0 <= i < |js| && k == i + 1 ensures js[i].next == JobAt(js, k) {
      assert links[places[i]] == StopAt(all, places, |all|, k);
    }
  }

  /** The jobs of all that are not among js have the fields they had. */
  ghost predicate LeftAlone(all: seq<Job>, views: seq<JobView>, js: seq<Job>)
    reads all, Owned(all)
  {
    |all| == |views| && forall k :: 0 <= k < |all| && all[k] !in js ==>
      all[k].next == JobAt(all, k + 1) && ViewOf(all[k]) == views[k]
  }

  lemma LeftAt(all: seq<Job>, views: seq<JobView>, places: seq<int>, links: seq<Job?>, marks: seq<bool>, js: seq<Job>)
    requires Untouched(all, views, places, links, marks) && Holds(all, views, links, marks)
    requires |js| == |places| && Increasing(places, |all|) && forall a :: 0 <= a < |js| ==> js[a] == all[places[a]]
    ensures LeftAlone(all, views, js)
  {
    hide Owned, RecordsOf;
    forall k | 0 <= k < |all| && all[k] !in js ensures k !in places {
      if a :| 0 <= a < |places| && places[a] == k {
        assert js[a] == all[k];
      }
    }
  }

  lemma EndPass(all: seq<Job>, views: seq<JobView>, places: seq<int>, links: seq<Job?>, marks: seq<bool>, first: Job?)
    requires Halfway(all, views, places, links, marks, |all|, first) && Holds(all, views, links, marks)
    requires Distinct(all) && AllValid(all) && Separate(all)
    ensures var js := Unfinished(all, views);
            && JobsLinked(first, js) && Distinct(js) && AllValid(js) && Separate(js)
            && ViewsOf(js) == Survivors(views) && LeftAlone(all, views, js)
  {
    var js := Unfinished(all, views);
    ViewsAt(all, views, places, links, marks);
    LinksAt(all, views, places, links, marks, first, js);
    SeparateAt(all, js, places);
    LeftAt(all, views, places, links, marks, js);
    assert AllValid(js) by {
      hide Job.Valid, Owned, Unfinished, Survivors, Separate, Untouched, Holds, ViewsOf;
    }
    hide *;
  }

  method SetNext(ghost all: seq<Job>, ghost views: seq<JobView>, ghost links: seq<Job?>, ghost marks: seq<bool>, j: Job,
                 next: Job?, ghost q: int)
    requires Holds(all, views, links, marks) && Distinct(all) && AllValid(all) && 0 <= q < |all| && j == all[q]
    modifies j`next
    ensures j.next == next && AllValid(all) && Holds(all, views, links[q := next], marks)
  {
    j.next := next;
  }

  method SetNotified(ghost all: seq<Job>, ghost views: seq<JobView>, ghost links: seq<Job?>, ghost marks: seq<bool>,
                     j: Job,
                     ghost q: int)
    requires Holds(all, views, links, marks) && Distinct(all) && AllValid(all) && 0 <= q < |all| && j == all[q]
    modifies j`notified
    ensures j.notified && AllValid(all) && Holds(all, views, links, marks[q := true])
  {
    j.notified := true;
  }

  /** What the loop sees of the job it visits. */
  lemma Visiting(all: seq<Job>, views: seq<JobView>, places: seq<int>, links: seq<Job?>, marks: seq<bool>, i: int,
                 first: Job?)
    requires Halfway(all, views, places, links, marks, i, first) && Holds(all, views, links, marks) && i < |all|
    ensures all[i].next == JobAt(all, i + 1) && all[i].notified == views[i].notified == marks[i]
    ensures all[i].Records() == views[i].records && all[i].pgid == views[i].pgid
    ensures |all| == |links| == |marks| == |views|
    ensures forall k :: 0 <= k < |places| ==> 0 <= places[k] < |all|
    ensures places == [] ==> first == all[i]
  {
    hide Picked, Owned, RecordsOf;
    assert i !in places;
  }

  lemma NodeAt(all: seq<Job>, i: int)
    requires 0 <= i <= |all|
    ensures JobAt(all, i) == null <==> i == |all|
    ensures i < |all| ==> JobAt(all, i) == all[i]
  {
  }

  lemma LastKept(all: seq<Job>, places: seq<int>)
    requires forall k :: 0 <= k < |places| ==> 0 <= places[k] < |all|
    ensures Previous(all, places) == null <==> places == []
    ensures places != [] ==> Previous(all, places) == all[places[|places| - 1]]
  {
  }

  lemma LastIs(all: seq<Job>, places: seq<int>, i: int)
    requires 0 <= i < |all|
    ensures Previous(all, places + [i]) == all[i]
  {
  }

  lemma NoticeCases(j: JobView)
    ensures NoticeOf(j) == if AllCompleted(j.records) then [Completed(j.pgid)]
                           else if AllHalted(j.records) && !j.notified then [Stopped(j.pgid)] else []
  {
  }

  lemma StartOfPass(all: seq<Job>, views: seq<JobView>)
    ensures Previous(all, []) == null && Notices([]) == [] && views[..0] == []
  {
  }

  /** The last job kept so far. */
  function Previous(all: seq<Job>, places: seq<int>): Job? {
    if places == [] then null else JobAt(all, places[|places| - 1])
  }

  class Shell {
    var firstJob: Job?
    /** The nodes of the list that starts at firstJob. */
    ghost var jobs: seq<Job>

    constructor ()
      ensures Valid() && jobs == []
    {
      firstJob, jobs := null, [];
    }

    /** The job list is linked, has no node twice, and no two jobs, or places in a job, share a process. */
    ghost predicate Valid()
      reads this, jobs, Owned(jobs)
    {
      JobsLinked(firstJob, jobs) && Distinct(jobs) && AllValid(jobs) && Separate(jobs)
    }

    ghost function Table(): Table
      reads this, Owned(jobs)
    {
      TableOf(jobs)
    }

    /** Insert a job at the head of the list. */
    method Add(j: Job)
      requires Valid() && j.Valid() && j !in jobs && Separate([j] + jobs)
      modifies this, j`next
      ensures Valid() && jobs == [j] + old(jobs)
    {
      ghost var rest := jobs;
      j.next := firstJob;
      firstJob := j;
      jobs := [j] + jobs;
      hide Separate, Owned;
      forall i, k | 0 <= i < |jobs| && k == i + 1 ensures jobs[i].next == JobAt(jobs, k) {
        if i > 0 {
          assert jobs[i] == rest[i - 1] && rest[i - 1].next == JobAt(rest, i);
        }
      }
    }

    method Find(pgid: int) returns (j: Job?)
      requires Valid()
      ensures j == null ==> forall i :: 0 <= i < |jobs| ==> jobs[i].pgid != pgid
      ensures j != null ==> exists i :: 0 <= i < |jobs| && j == jobs[i] && j.pgid == pgid &&
                                        forall k :: 0 <= k < i ==> jobs[k].pgid != pgid
    {
      j := firstJob;
      ghost var i := 0;
      while j != null
        invariant 0 <= i <= |jobs| && j == JobAt(jobs, i)
        invariant forall k :: 0 <= k < i ==> jobs[k].pgid != pgid
        decreases |jobs| - i
      {
        if j.pgid == pgid {
          return;
        }
        j := j.next;
        i := i + 1;
      }
    }

    /** The first process with this pid, in list order, and its place. */
    method Locate(pid: int) returns (p: Process?, ghost a: int, ghost b: int)
      requires Valid()
      ensures p == null ==> Nowhere(jobs, |jobs|, pid)
      ensures p != null ==> FoundAt(jobs, pid, a, b) && p == jobs[a].processes[b]
    {
      var j := firstJob;
      a, b := 0, 0;
      while j != null
        invariant 0 <= a <= |jobs| && j == JobAt(jobs, a)
        invariant Nowhere(jobs, a, pid)
        decreases |jobs| - a
      {
        p, b := j.Locate(pid);
        if p != null {
          return;
        }
        j := j.next;
        a := a + 1;
      }
      p := null;
    }

    method Update(p: Process, status: int, ghost a: int, ghost b: int)
      requires Valid() && 0 <= a < |jobs| && 0 <= b < |jobs[a].processes| && p == jobs[a].processes[b]
      modifies p
      ensures |old(Table())[a]| == |jobs[a].processes|
      ensures Valid() && Table() == Put(old(Table()), a, b, Told(old(RecordOf(p)), status))
    {
      assert Others(jobs, a, b);
      RecordsIn(jobs);
      ghost var before := Table();
      hide TableOf, RecordsOf, Owned, Separate, Valid;
      p.Take(status);
      RecordsIn(jobs);
      ghost var after := Table();
      forall c, d | 0 <= c < |before| && 0 <= d < |before[c]| && !(c == a && d == b)
          ensures after[c][d] == before[c][d] {
        assert jobs[c].processes[d] != p;
      }
      OneRecord(before, after, a, b);
      StillValid(this);
    }

    /** Record an answer of waitpid in the first record of its process; true if there was none. */
    method MarkProcessStatus(pid: int, status: int) returns (failed: bool)
      requires Valid()
      modifies Owned(jobs)
      ensures Valid()
      ensures failed <==> old(Fails(Table(), Report(pid, status)))
      ensures Recorded(old(Table()), Table(), pid, status)
    {
      hide Valid, IsFirst, Known, Put, TableOf, RecordOf, Told, Nowhere;
      if pid > 0 {
        var p, a, b := Locate(pid);
        Unmoved(this);
        if p == null {
          NowhereInTable(jobs, pid);
          return true;
        }
        FoundInTable(jobs, pid, a, b);
        Update(p, status, a, b);
        return false;
      } else {
        return true;
      }
    }

    /** One turn of the loop of wait_for_job: whether another is needed. */
    method WaitOnce(j: Job, ghost n: nat, pid: int, status: int) returns (again: bool)
      requires Valid() && n < |jobs| && jobs[n] == j
      modifies Owned(jobs)
      ensures Valid() && Recorded(old(Table()), Table(), pid, status)
      ensures again <==> !old(Fails(Table(), Report(pid, status))) && !AllHalted(Table()[n])
    {
      var failed := MarkProcessStatus(pid, status);
      TableAt(jobs, n);
      assert j.Valid();
      hide Valid, RecordsOf, TableOf, Recorded, Fails;
      label marked:
      if failed {
        return false;
      }
      var stopped := j.IsStopped();
      Unmoved@marked(this);
      if stopped {
        return false;
      }
      var completed := j.IsCompleted();
      Unmoved@marked(this);
      return !completed;
    }

    /** Wait for job j, at place n of the list.  reports is what waitpid answers, and tables what the shell has recorded
        before the first and after each.  The wait stops at the first report that ends it, on every stream; and if the
        stream is plausible, that is one of the first Pending + 1. */
    method WaitForJob(j: Job, ghost n: nat, reports: seq<Report>, ghost tables: seq<Table>)
      returns (used: nat, ended: bool)
      requires Valid() && n < |jobs| && jobs[n] == j
      requires Recording(tables, reports) && tables[0] == Table()
      modifies Owned(jobs)
      ensures Valid()
      ensures used <= |reports| && Table() == tables[used]
      ensures forall k :: 0 <= k <= used ==> |tables[k]| == |jobs|
      ensures ended ==> used > 0 && EndsWait(tables, reports, n, used - 1)
      ensures forall k :: 0 <= k < (if ended then used - 1 else used) ==> !EndsWait(tables, reports, n, k)
      ensures !ended ==> used == |reports|
      ensures AllPlausible(tables, reports) ==>
                used <= Pending(tables[0]) + 1 && (|reports| > Pending(tables[0]) ==> ended)
    {
      hide Valid, Plausible, AllPlausible, Recorded, Known, TableOf, Pending, Fails, AllHalted;
      used, ended := 0, false;
      while !ended && used < |reports|
        invariant used <= |reports| && Valid() && Table() == tables[used]
        invariant forall k :: 0 <= k <= used ==> |tables[k]| == |jobs|
        invariant ended ==> used > 0 && EndsWait(tables, reports, n, used - 1)
        invariant forall k :: 0 <= k < (if ended then used - 1 else used) ==> !EndsWait(tables, reports, n, k)
        decreases !ended, |reports| - used
      {
        hide Valid, Plausible, AllPlausible, Recorded, Known, TableOf, Owned, Pending, Fails, AllHalted;
        var again := WaitOnce(j, n, reports[used].pid, reports[used].status);
        RecordedUnique(tables[used], tables[used + 1], Table(), reports[used].pid, reports[used].status);
        used := used + 1;
        ended := !again;
      }
      hide Valid, Recording, EndsWait, TableOf, Pending;
      if AllPlausible(tables, reports) {
        WaitBound(tables, reports, n, if ended then used - 1 else used);
      }
    }

    static method Inspect(j: Job, ghost all: seq<Job>, ghost views: seq<JobView>, ghost links: seq<Job?>,
                          ghost marks: seq<bool>, ghost i: nat)
      returns (completed: bool, stopped: bool)
      requires Holds(all, views, links, marks) && AllValid(all) && i < |all| == |views| && j == all[i]
      ensures Holds(all, views, links, marks) && AllValid(all)
      ensures completed == AllCompleted(views[i].records) && stopped == AllHalted(views[i].records)
      ensures j.next == old(j.next) && j.notified == old(j.notified) && j.pgid == old(j.pgid)
    {
      assert j.Valid() && j.Records() == views[i].records;
      completed := j.IsCompleted();
      stopped := j.IsStopped();
    }

    /** The loop body: announce job j, at place i of the old list, and mark or unlink it. */
    method Visit(j: Job, jlast: Job?, ghost all: seq<Job>, ghost views: seq<JobView>, ghost places: seq<int>,
                 ghost links: seq<Job?>, ghost marks: seq<bool>, ghost i: int)
      returns (told: seq<Notice>, last: Job?, ghost places': seq<int>, ghost links': seq<Job?>, ghost marks': seq<bool>)
      requires Halfway(all, views, places, links, marks, i, firstJob) && Holds(all, views, links, marks)
      requires Distinct(all) && AllValid(all)
      requires i < |all| == |views| && j == all[i] && jlast == Previous(all, places)
      modifies `firstJob, all
      ensures Halfway(all, views, places', links', marks', i + 1, firstJob) && Holds(all, views, links', marks')
      ensures AllValid(all) && last == Previous(all, places') && told == NoticeOf(views[i])
      ensures if IsNews(views[i]) then |told| == 1 && Says(views[i], told[0]) else told == []
    {
      told, last, places', links', marks' := [], jlast, places, links, marks;
      NoticeIsNews(views[i]);
      NoticeCases(views[i]);
      Visiting(all, views, places, links, marks, i, firstJob);
      hide *;
      var completed, stopped := Inspect(j, all, views, links, marks, i);
      if completed {
        told := [Completed(j.pgid)];
        links' := Unlink(jlast, j.next, all, views, places, links, marks, i);
      } else {
        Kept(all, views, places, links, marks, i, firstJob);
        if stopped && !j.notified {
          told := [Stopped(j.pgid)];
          SetNotified(all, views, links, marks, j, i);
          marks' := marks[i := true];
        } else {
          assert marks == marks[i := views[i].notified || AllHalted(views[i].records)];
        }
        last := j;
        places' := places + [i];
        LastIs(all, places, i);
      }
    }

    method Unlink(jlast: Job?, jnext: Job?, ghost all: seq<Job>, ghost views: seq<JobView>, ghost places: seq<int>,
                  ghost links: seq<Job?>, ghost marks: seq<bool>, ghost i: int)
      returns (ghost links': seq<Job?>)
      requires Halfway(all, views, places, links, marks, i, firstJob) && Holds(all, views, links, marks)
      requires Distinct(all) && AllValid(all)
      requires i < |all| == |views| && jnext == JobAt(all, i + 1) && jlast == Previous(all, places)
      requires AllCompleted(views[i].records)
      modifies `firstJob, all
      ensures Halfway(all, views, places, links', marks, i + 1, firstJob) && Holds(all, views, links', marks)
      ensures AllValid(all)
    {
      links' := links;
      hide Halfway, Distinct, AllCompleted, AllHalted, JobAt, Previous, RecordsOf, Owned, Job.Valid;
      Dropped(all, views, places, links, marks, i, firstJob);
      Visiting(all, views, places, links, marks, i, firstJob);
      LastKept(all, places);
      if jlast != null {
        hide *;
        SetNext(all, views, links, marks, jlast, jnext, places[|places| - 1]);
        links' := links[places[|places| - 1] := jnext];
      } else {
        firstJob := jnext;
      }
    }

    /** Tell the user about completed and newly stopped jobs, and unlink the completed ones in place. */
    method DoJobNotification() returns (told: seq<Notice>)
      requires Valid()
      modifies this, jobs
      ensures Valid()
      ensures jobs == Unfinished(old(jobs), old(ViewsOf(jobs)))
      ensures told == Notices(old(ViewsOf(jobs))) && Announced(old(ViewsOf(jobs)), told)
      ensures ViewsOf(jobs) == Survivors(old(ViewsOf(jobs))) && Remaining(old(ViewsOf(jobs)), ViewsOf(jobs))
      ensures StillListed(old(jobs), old(ViewsOf(jobs)), jobs)
      ensures LeftAlone(old(jobs), old(ViewsOf(jobs)), jobs)
    {
      ghost var all, views := jobs, ViewsOf(jobs);
      BeginPass(this);
      hide *;
      ghost var places, links, marks;
      told, places, links, marks := Pass(all, views);
      Relist(all, views, places, links, marks);
      Announces(views);
      StaysListed(all, views);
    }

    /** The loop over the list. */
    method Pass(ghost all: seq<Job>, ghost views: seq<JobView>)
      returns (told: seq<Notice>, ghost places: seq<int>, ghost links: seq<Job?>, ghost marks: seq<bool>)
      requires |all| == |views| && firstJob == JobAt(all, 0)
      requires Halfway(all, views, [], Links(all), Marks(views), 0, firstJob)
      requires Holds(all, views, Links(all), Marks(views)) && Distinct(all) && AllValid(all)
      modifies `firstJob, all
      ensures Halfway(all, views, places, links, marks, |all|, firstJob) && Holds(all, views, links, marks)
      ensures AllValid(all) && told == Notices(views)
    {
      ghost var i := 0;
      told, places, links, marks := [], [], Links(all), Marks(views);
      var jlast: Job? := null;
      var j := firstJob;
      StartOfPass(all, views);
      hide *;
      while j != null
        invariant 0 <= i <= |all| == |views| && j == JobAt(all, i)
        invariant Halfway(all, views, places, links, marks, i, firstJob)
        invariant Holds(all, views, links, marks) && AllValid(all)
        invariant jlast == Previous(all, places)
        invariant told == Notices(views[..i])
        decreases |all| - i
      {
        hide *;
        NodeAt(all, i);
        var jnext, notice := j.next, [];
        Visiting(all, views, places, links, marks, i, firstJob);
        NoticesNext(views, i);
        notice, jlast, places, links, marks := Visit(j, jlast, all, views, places, links, marks, i);
        told := told + notice;
        j := jnext;
        i := i + 1;
      }
      NodeAt(all, i);
      assert views[..i] == views;
    }

    ghost method Relist(all: seq<Job>, views: seq<JobView>, places: seq<int>, links: seq<Job?>, marks: seq<bool>)
      requires Halfway(all, views, places, links, marks, |all|, firstJob) && Holds(all, views, links, marks)
      requires Distinct(all) && AllValid(all) && Separate(all)
      modifies this`jobs
      ensures Valid() && jobs == Unfinished(all, views)
      ensures ViewsOf(jobs) == Survivors(views) && LeftAlone(all, views, jobs)
    {
      hide Halfway, Separate, Distinct, Unfinished, Survivors, LeftAlone, ViewsOf, RecordsOf, Owned;
      jobs := Unfinished(all, views);
      assert Holds(all, views, links, marks) && AllValid(all);
      hide Holds, AllValid;
      EndPass(all, views, places, links, marks, firstJob);
    }
  }
}
