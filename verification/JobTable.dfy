/** What the job-control shell knows about its children, as values: the specification of the operations on its
    linked lists. */
module JobTable {
  import opened Basics
  import opened Counting

  datatype Record = Record(pid: int, completed: bool, stopped: bool, status: int)

  /** The process records of each job, in list order. */
  type Table = seq<seq<Record>>

  /** WIFSTOPPED: the low byte of the status is 0x7f. */
  predicate StoppedStatus(status: int) {
    status % 256 == 127
  }

  /** What a report does to the record of its process. */
  function Told(r: Record, status: int): Record {
    if StoppedStatus(status) then r.(status := status, stopped := true) else r.(status := status, completed := true)
  }

  predicate AllHalted(rs: seq<Record>) {
    forall i :: 0 <= i < |rs| ==> rs[i].completed || rs[i].stopped
  }

  predicate AllCompleted(rs: seq<Record>) {
    forall i :: 0 <= i < |rs| ==> rs[i].completed
  }

  /** The first record with this pid, in list order. */
  predicate IsFirst(t: Table, pid: int, a: int, b: int) {
    && 0 <= a < |t| && 0 <= b < |t[a]| && t[a][b].pid == pid
    && (forall c, d :: 0 <= c < a && 0 <= d < |t[c]| ==> t[c][d].pid != pid)
    && (forall d :: 0 <= d < b ==> t[a][d].pid != pid)
  }

  predicate Known(t: Table, pid: int) {
    exists a, b :: 0 <= a < |t| && 0 <= b < |t[a]| && t[a][b].pid == pid
  }

  function Put(t: Table, a: int, b: int, r: Record): Table
    requires 0 <= a < |t| && 0 <= b < |t[a]|
  {
    t[a := t[a][b := r]]
  }

  /** t' is t after the shell has recorded one answer of waitpid: the first record of the pid takes the status, and
      an answer without a pid, or with an unknown one, changes nothing. */
  ghost predicate Recorded(t: Table, t': Table, pid: int, status: int) {
    if pid > 0 && Known(t, pid)
    then exists a, b :: IsFirst(t, pid, a, b) && t' == Put(t, a, b, Told(t[a][b], status))
    else t' == t
  }

  /** An answer the kernel can give when stopped children are continued by nobody but the shell: it is about a child
      not reaped before, and a stop report is about a running one. */
  ghost predicate Plausible(t: Table, pid: int, status: int) {
    forall a, b :: pid > 0 && IsFirst(t, pid, a, b) ==>
      !t[a][b].completed && (StoppedStatus(status) ==> !t[a][b].stopped)
  }

  // ---------- why waiting ends ----------

  /** Reports a process can still cause. */
  function Weight(r: Record): nat {
    if r.completed then 0 else if r.stopped then 1 else 2
  }

  function JobWeight(rs: seq<Record>): nat {
    Sum(Weight, rs)
  }

  function Pending(t: Table): nat {
    Sum(JobWeight, t)
  }

  lemma PutMoves(t: Table, a: int, b: int, r: Record)
    requires 0 <= a < |t| && 0 <= b < |t[a]|
    ensures Pending(Put(t, a, b, r)) + Weight(t[a][b]) == Pending(t) + Weight(r)
  {
    SumUpdate(Weight, t[a], b, r);
    SumUpdate(JobWeight, t, a, t[a][b := r]);
  }

  /** A record's first match is unique. */
  lemma FirstUnique(t: Table, pid: int, a: int, b: int, c: int, d: int)
    requires IsFirst(t, pid, a, b) && IsFirst(t, pid, c, d)
    ensures a == c && b == d
  {
  }

  lemma PlausibleHere(t: Table, pid: int, status: int, a: int, b: int)
    requires pid > 0 && IsFirst(t, pid, a, b)
    ensures Plausible(t, pid, status) <==> Weight(Told(t[a][b], status)) < Weight(t[a][b])
    ensures Weight(Told(t[a][b], status)) <= Weight(t[a][b])
  {
    forall c, d | IsFirst(t, pid, c, d) ensures c == a && d == b {
      FirstUnique(t, pid, a, b, c, d);
    }
  }

  /** A recorded report of a known child brings the end of waiting nearer exactly when it is plausible; an implausible
      one leaves the measure where it was. */
  lemma PlausibleLowers(t: Table, t': Table, pid: int, status: int)
    requires pid > 0 && Known(t, pid) && Recorded(t, t', pid, status)
    ensures Pending(t') < Pending(t) <==> Plausible(t, pid, status)
    ensures Pending(t') <= Pending(t)
  {
    var a, b :| IsFirst(t, pid, a, b) && t' == Put(t, a, b, Told(t[a][b], status));
    PlausibleHere(t, pid, status, a, b);
    PutMoves(t, a, b, Told(t[a][b], status));
    hide *;
  }

  // ---------- a stream of reports ----------

  datatype Report = Report(pid: int, status: int)

  /** tables is the table before the first report and after each one. */
  ghost predicate Recording(tables: seq<Table>, reports: seq<Report>) {
    && |tables| == |reports| + 1
    && forall k :: 0 <= k < |reports| ==> Recorded(tables[k], tables[k + 1], reports[k].pid, reports[k].status)
  }

  /** The shell's record-keeping fails on this report: waitpid returned no child, or one the shell does not know. */
  predicate Fails(t: Table, r: Report) {
    r.pid <= 0 || !Known(t, r.pid)
  }

  lemma RecordedUnique(t: Table, t': Table, t'': Table, pid: int, status: int)
    requires Recorded(t, t', pid, status) && Recorded(t, t'', pid, status)
    ensures t' == t''
  {
    if pid > 0 && Known(t, pid) {
      var a, b :| IsFirst(t, pid, a, b) && t' == Put(t, a, b, Told(t[a][b], status));
      var c, d :| IsFirst(t, pid, c, d) && t'' == Put(t, c, d, Told(t[c][d], status));
      FirstUnique(t, pid, a, b, c, d);
    }
  }

  /** The k-th report ends the wait for job n: it fails, or it leaves every process of the job stopped or completed. */
  predicate EndsWait(tables: seq<Table>, reports: seq<Report>, n: nat, k: nat)
    requires k < |reports| && k + 1 < |tables| && n < |tables[k + 1]|
  {
    Fails(tables[k], reports[k]) || AllHalted(tables[k + 1][n])
  }

  /** A report that does not end the wait uses up one of the waits left. */
  lemma Advances(tables: seq<Table>, reports: seq<Report>, n: nat, k: nat)
    requires Recording(tables, reports) && k < |reports| && n < |tables[k + 1]|
    requires Plausible(tables[k], reports[k].pid, reports[k].status) && !EndsWait(tables, reports, n, k)
    ensures Pending(tables[k + 1]) < Pending(tables[k])
  {
    PlausibleLowers(tables[k], tables[k + 1], reports[k].pid, reports[k].status);
  }

  ghost predicate AllPlausible(tables: seq<Table>, reports: seq<Report>) {
    |tables| == |reports| + 1
    && forall k :: 0 <= k < |reports| ==> Plausible(tables[k], reports[k].pid, reports[k].status)
  }

  /** No more than Pending plausible reports can leave a wait unfinished. */
  lemma {:induction false} WaitBound(tables: seq<Table>, reports: seq<Report>, n: nat, m: nat)
    requires Recording(tables, reports) && AllPlausible(tables, reports) && m <= |reports|
    requires forall k :: 0 <= k <= m ==> n < |tables[k]|
    requires forall k :: 0 <= k < m ==> !EndsWait(tables, reports, n, k)
    ensures Pending(tables[m]) + m <= Pending(tables[0])
  {
    if m > 0 {
      WaitBound(tables, reports, n, m - 1);
      Advances(tables, reports, n, m - 1);
    }
  }

  predicate SameProcesses(t: Table, t': Table) {
    && |t| == |t'|
    && (forall a :: 0 <= a < |t| ==> |t[a]| == |t'[a]|)
    && forall a, b :: 0 <= a < |t| && 0 <= b < |t[a]| ==> t[a][b].pid == t'[a][b].pid
  }

  predicate KeepsCompleted(t: Table, t': Table) {
    && SameProcesses(t, t')
    && forall a, b :: 0 <= a < |t| && 0 <= b < |t[a]| ==>
         (t[a][b].completed ==> t'[a][b].completed) && (t[a][b].stopped ==> t'[a][b].stopped)
  }

  /** No stream of reports, plausible or not, ever resets completed or stopped. */
  lemma {:induction false} CompletedIsForever(tables: seq<Table>, reports: seq<Report>, k: nat)
    requires Recording(tables, reports) && k < |tables|
    ensures KeepsCompleted(tables[0], tables[k])
  {
    if k > 0 {
      CompletedIsForever(tables, reports, k - 1);
      assert Recorded(tables[k - 1], tables[k - 1 + 1], reports[k - 1].pid, reports[k - 1].status);
      RecordedKeeps(tables[k - 1], tables[k], reports[k - 1].pid, reports[k - 1].status);
    }
  }

  lemma RecordedKeeps(t: Table, t': Table, pid: int, status: int)
    requires Recorded(t, t', pid, status)
    ensures KeepsCompleted(t, t')
  {
    if pid > 0 && Known(t, pid) {
      var a, b :| IsFirst(t, pid, a, b) && t' == Put(t, a, b, Told(t[a][b], status));
      hide IsFirst, Known, Recorded;
      assert forall c :: 0 <= c < |t| && c != a ==> t'[c] == t[c];
    }
  }

  /** Processes do not change their places. */
  lemma FirstStays(t: Table, t': Table, pid: int, a: int, b: int)
    requires SameProcesses(t, t')
    ensures IsFirst(t, pid, a, b) <==> IsFirst(t', pid, a, b)
  {
  }

  /** One report, seen from one record. */
  lemma ReportMoves(t: Table, t': Table, pid: int, status: int, a: nat, b: nat)
    requires Recorded(t, t', pid, status) && SameProcesses(t, t') && a < |t| && b < |t[a]|
    ensures t'[a][b] == if pid > 0 && IsFirst(t, pid, a, b) then Told(t[a][b], status) else t[a][b]
  {
    if pid > 0 && Known(t, pid) {
      var c, d :| IsFirst(t, pid, c, d) && t' == Put(t, c, d, Told(t[c][d], status));
      if IsFirst(t, pid, a, b) {
        FirstUnique(t, pid, a, b, c, d);
      }
      hide IsFirst, Told;
    }
  }

  /** Whatever the stream of reports: the first record of a pid has the status of the last report about it, is completed
      exactly if a report said that it ended, and stopped exactly if one said that it stopped, unless it was so before;
      and no other record ever changes. */
  lemma {:induction false} LatestReport(tables: seq<Table>, reports: seq<Report>, n: nat, a: nat, b: nat)
    requires Recording(tables, reports) && n <= |reports| && a < |tables[0]| && b < |tables[0][a]|
    ensures SameProcesses(tables[0], tables[n])
    ensures var r, r', pid := tables[0][a][b], tables[n][a][b], tables[0][a][b].pid;
            if pid > 0 && IsFirst(tables[0], pid, a, b) then
              && r'.pid == pid
              && (r'.completed <==>
                    r.completed || exists i :: 0 <= i < n && reports[i].pid == pid && reports[i].status % 256 != 127)
              && (r'.stopped <==>
                    r.stopped || exists i :: 0 <= i < n && reports[i].pid == pid && reports[i].status % 256 == 127)
              && ((forall i :: 0 <= i < n ==> reports[i].pid != pid) ==> r'.status == r.status)
              && forall i :: 0 <= i < n && reports[i].pid == pid && (forall k :: i < k < n ==> reports[k].pid != pid)
                   ==> r'.status == reports[i].status
            else r' == r
  {
    hide IsFirst;
    if n > 0 {
      var t, t', e := tables[n - 1], tables[n], reports[n - 1];
      LatestReport(tables, reports, n - 1, a, b);
      assert Recorded(tables[n - 1], tables[n - 1 + 1], e.pid, e.status);
      RecordedKeeps(t, t', e.pid, e.status);
      ReportMoves(t, t', e.pid, e.status, a, b);
      FirstStays(tables[0], t, e.pid, a, b);
      FirstHas(t, e.pid, a, b);
      hide Recorded, Recording;
    }
  }

  lemma FirstHas(t: Table, pid: int, a: int, b: int)
    requires 0 <= a < |t| && 0 <= b < |t[a]|
    ensures IsFirst(t, pid, a, b) ==> t[a][b].pid == pid
  {
  }

  /** The status words of waitpid: an exit code, a terminating signal with or without a core, and a stopping signal. */
  lemma StatusWords(code: nat, signal: nat, core: bool)
    requires code < 256 && 0 < signal < 127
    ensures !StoppedStatus(code * 256) && !StoppedStatus(signal + if core then 128 else 0)
    ensures StoppedStatus(signal * 256 + 127)
  {
  }

  /** In a stream of plausible reports of known children the n-th leaves at least n fewer to come: the shell waits at
      most Pending times. */
  lemma {:induction false} WaitsAreBounded(tables: seq<Table>, reports: seq<Report>, n: nat)
    requires Recording(tables, reports) && n <= |reports|
    requires forall k :: 0 <= k < n ==>
               Plausible(tables[k], reports[k].pid, reports[k].status) && !Fails(tables[k], reports[k])
    ensures Pending(tables[n]) + n <= Pending(tables[0])
  {
    if n > 0 {
      WaitsAreBounded(tables, reports, n - 1);
      assert Recorded(tables[n - 1], tables[n - 1 + 1], reports[n - 1].pid, reports[n - 1].status);
      PlausibleLowers(tables[n - 1], tables[n], reports[n - 1].pid, reports[n - 1].status);
    }
  }

  // ---------- notifying the user ----------

  datatype JobView = JobView(pgid: int, records: seq<Record>, notified: bool)

  datatype Notice = Completed(pgid: int) | Stopped(pgid: int)

  /** The jobs one pass leaves in the list: those with a process not completed, in their old order, with every stopped
      one marked as notified. */
  function Survivors(jobs: seq<JobView>): seq<JobView> {
    if jobs == [] then []
    else
      var j := jobs[|jobs| - 1];
      Survivors(jobs[..|jobs| - 1]) +
      (if AllCompleted(j.records) then [] else [j.(notified := j.notified || AllHalted(j.records))])
  }

  function NoticeOf(j: JobView): seq<Notice> {
    if AllCompleted(j.records) then [Completed(j.pgid)]
    else if AllHalted(j.records) && !j.notified then [Stopped(j.pgid)]
    else []
  }

  /** What one pass tells the user, in order. */
  function Notices(jobs: seq<JobView>): seq<Notice> {
    if jobs == [] then [] else Notices(jobs[..|jobs| - 1]) + NoticeOf(jobs[|jobs| - 1])
  }

  lemma {:induction false} SurvivorsSettled(jobs: seq<JobView>)
    ensures forall k :: 0 <= k < |Survivors(jobs)| ==>
              var j := Survivors(jobs)[k]; !AllCompleted(j.records) && (AllHalted(j.records) ==> j.notified)
  {
    if jobs != [] {
      SurvivorsSettled(jobs[..|jobs| - 1]);
    }
  }

  lemma {:induction false} SettledSaysNothing(jobs: seq<JobView>)
    requires forall k :: 0 <= k < |jobs| ==>
               !AllCompleted(jobs[k].records) && (AllHalted(jobs[k].records) ==> jobs[k].notified)
    ensures Survivors(jobs) == jobs && Notices(jobs) == []
  {
    hide AllCompleted, AllHalted;
    if jobs != [] {
      var rest, last := jobs[..|jobs| - 1], jobs[|jobs| - 1];
      SettledSaysNothing(rest);
      assert NoticeOf(last) == [] && last.(notified := last.notified || AllHalted(last.records)) == last;
      assert jobs == rest + [last];
    }
  }

  /** The user is told once: a second pass with no report in between says nothing and changes nothing. */
  lemma NotifiedOnce(jobs: seq<JobView>)
    ensures Notices(Survivors(jobs)) == [] && Survivors(Survivors(jobs)) == Survivors(jobs)
  {
    SurvivorsSettled(jobs);
    SettledSaysNothing(Survivors(jobs));
  }

  /** What the user must be told of: a job that halted, unless it only stopped and the user knows. */
  predicate IsNews(j: JobView) {
    && (forall i :: 0 <= i < |j.records| ==> j.records[i].completed || j.records[i].stopped)
    && ((forall i :: 0 <= i < |j.records| ==> j.records[i].completed) || !j.notified)
  }

  predicate IsFinished(j: JobView) {
    forall i :: 0 <= i < |j.records| ==> j.records[i].completed
  }

  predicate Says(j: JobView, notice: Notice) {
    notice == if IsFinished(j) then Completed(j.pgid) else Stopped(j.pgid)
  }

  /** The places of one notice for each job that is news, in list order: completed or stopped. */
  ghost predicate AnnouncedAt(jobs: seq<JobView>, told: seq<Notice>, places: seq<nat>) {
    Selected(jobs, IsNews, Says, told, places)
  }

  ghost predicate Announced(jobs: seq<JobView>, told: seq<Notice>) {
    exists places: seq<nat> :: AnnouncedAt(jobs, told, places)
  }

  /** What a pass leaves of a job: nothing is changed, but a stopped job is marked. */
  predicate Marked(j: JobView, j': JobView) {
    && j'.pgid == j.pgid && j'.records == j.records
    && (j'.notified <==>
          j.notified || forall d :: 0 <= d < |j.records| ==> j.records[d].completed || j.records[d].stopped)
  }

  predicate IsUnfinished(j: JobView) {
    !IsFinished(j)
  }

  /** The places of the jobs left: those with a process not completed, each once and in order. */
  ghost predicate RemainingAt(jobs: seq<JobView>, rest: seq<JobView>, places: seq<nat>) {
    Selected(jobs, IsUnfinished, Marked, rest, places)
  }

  ghost predicate Remaining(jobs: seq<JobView>, rest: seq<JobView>) {
    exists places: seq<nat> :: RemainingAt(jobs, rest, places)
  }

  lemma NoticeIsNews(j: JobView)
    ensures if IsNews(j) then |NoticeOf(j)| == 1 && Says(j, NoticeOf(j)[0]) else NoticeOf(j) == []
  {
  }

  lemma {:induction false} NoticesAnnounced(jobs: seq<JobView>) returns (places: seq<nat>)
    ensures AnnouncedAt(jobs, Notices(jobs), places)
  {
    if jobs == [] {
      places := [];
      SelectedNone(IsNews, Says);
    } else {
      var rest, last := jobs[..|jobs| - 1], jobs[|jobs| - 1];
      NoticeIsNews(last);
      assert jobs == rest + [last] && Notices(jobs) == Notices(rest) + NoticeOf(last);
      hide Selected, Notices, NoticeOf, IsNews, Says;
      places := NoticesAnnounced(rest);
      if IsNews(last) {
        assert NoticeOf(last) == [NoticeOf(last)[0]];
        SelectedMore(rest, IsNews, Says, Notices(rest), places, last, NoticeOf(last)[0]);
        places := places + [|rest|];
      } else {
        assert Notices(jobs) == Notices(rest);
        SelectedPast(rest, IsNews, Says, Notices(rest), places, last);
      }
    }
  }

  lemma SurvivorOf(j: JobView)
    ensures IsFinished(j) <==> AllCompleted(j.records)
    ensures Marked(j, j.(notified := j.notified || AllHalted(j.records)))
  {
  }

  lemma {:induction false} SurvivorsRemain(jobs: seq<JobView>) returns (places: seq<nat>)
    ensures RemainingAt(jobs, Survivors(jobs), places)
  {
    if jobs == [] {
      places := [];
      SelectedNone(IsUnfinished, Marked);
    } else {
      var rest, last := jobs[..|jobs| - 1], jobs[|jobs| - 1];
      var left := last.(notified := last.notified || AllHalted(last.records));
      SurvivorOf(last);
      assert jobs == rest + [last];
      assert Survivors(jobs) == Survivors(rest) + if IsFinished(last) then [] else [left];
      hide Selected, Survivors, Marked, IsFinished, AllHalted;
      places := SurvivorsRemain(rest);
      if IsFinished(last) {
        assert Survivors(jobs) == Survivors(rest);
        SelectedPast(rest, IsUnfinished, Marked, Survivors(rest), places, last);
      } else {
        SelectedMore(rest, IsUnfinished, Marked, Survivors(rest), places, last, left);
        places := places + [|rest|];
      }
    }
  }

  /** A job is announced as stopped exactly if none of its processes runs, some is not completed, and the user has not
      been told. */
  lemma StoppedIsAnnounced(jobs: seq<JobView>, pgid: int)
    ensures Stopped(pgid) in Notices(jobs) <==>
            exists k :: 0 <= k < |jobs| && jobs[k].pgid == pgid && !jobs[k].notified
              && (forall d :: 0 <= d < |jobs[k].records| ==> jobs[k].records[d].completed || jobs[k].records[d].stopped)
              && exists d :: 0 <= d < |jobs[k].records| && !jobs[k].records[d].completed
  {
    var places := NoticesAnnounced(jobs);
    var told := Notices(jobs);
    if Stopped(pgid) in told {
      var k :| 0 <= k < |told| && told[k] == Stopped(pgid);
      assert places[k] in places && IsNews(jobs[places[k]]) && !IsFinished(jobs[places[k]]);
    }
    if k :| 0 <= k < |jobs| && jobs[k].pgid == pgid && IsNews(jobs[k]) && !IsFinished(jobs[k]) {
      var m :| 0 <= m < |places| && places[m] == k;
      assert told[m] == Stopped(pgid);
    }
  }

  /** Every job whose processes all completed is announced, and only those are. */
  lemma {:induction false} CompletedIsAnnounced(jobs: seq<JobView>, pgid: int)
    ensures Completed(pgid) in Notices(jobs) <==>
            exists k :: 0 <= k < |jobs| && jobs[k].pgid == pgid
              && forall d :: 0 <= d < |jobs[k].records| ==> jobs[k].records[d].completed
  {
    if jobs != [] {
      var rest := jobs[..|jobs| - 1];
      CompletedIsAnnounced(rest, pgid);
      assert forall k :: 0 <= k < |rest| ==> rest[k] == jobs[k];
      var last := jobs[|jobs| - 1];
      if k :| 0 <= k < |jobs| && jobs[k].pgid == pgid && AllCompleted(jobs[k].records) {
        if k < |rest| {
          assert rest[k].pgid == pgid && AllCompleted(rest[k].records);
        }
      }
    }
  }
}
