/**
 * The background-task filters `getReports` and `getFinishedReports`
 * (src/lib/sonarqube.ts:88-94) and the loops of `waitForReportToShowUp` and
 * `waitForReportsToFinish` (src/lib/sonarqube.ts:96-134). Each call of
 * `getTasks` returns the next snapshot of a given sequence.
 */
module Tasks {

  /** One entry of `api/ce/activity`; only these three fields are read. */
  datatype Task = Task(taskType: string, status: string, analysisId: string)

  /** `Array.prototype.filter`. */
  function Filter<T>(p: T -> bool, s: seq<T>): (r: seq<T>)
    ensures |r| <= |s|
    decreases |s|
  {
    if s == [] then []
    else if p(s[0]) then [s[0]] + Filter(p, s[1..])
    else Filter(p, s[1..])
  }

  /**
   * The filter keeps exactly the elements satisfying `p`, each as often as it
   * occurs in the input.
   */
  lemma {:induction false} FilterContents<T(!new)>(p: T -> bool, s: seq<T>)
    ensures forall x :: x in Filter(p, s) <==> x in s && p(x)
    ensures forall x :: multiset(Filter(p, s))[x] == if p(x) then multiset(s)[x] else 0
    decreases |s|
  {
    if s != [] {
      FilterContents(p, s[1..]);
      assert s == [s[0]] + s[1..];
    }
  }

  /**
   * The filter keeps the input order: filtering a concatenation filters each
   * part and concatenates the results.
   */
  lemma {:induction false} FilterKeepsOrder<T>(p: T -> bool, a: seq<T>, b: seq<T>)
    ensures Filter(p, a + b) == Filter(p, a) + Filter(p, b)
    decreases |a|
  {
    if a != [] {
      assert (a + b)[0] == a[0] && (a + b)[1..] == a[1..] + b;
      FilterKeepsOrder(p, a[1..], b);
      if p(a[0]) {
        assert Filter(p, a + b) == [a[0]] + (Filter(p, a[1..]) + Filter(p, b));
        assert Filter(p, a) == [a[0]] + Filter(p, a[1..]);
      } else {
        assert Filter(p, a + b) == Filter(p, a[1..]) + Filter(p, b);
      }
    } else {
      assert a + b == b;
    }
  }

  predicate IsReport(t: Task) {
    t.taskType == "REPORT"
  }

  predicate IsSuccess(t: Task) {
    t.status == "SUCCESS"
  }

  predicate IsFinishedReport(t: Task) {
    t.status == "SUCCESS" && t.taskType == "REPORT"
  }

  function Reports(tasks: seq<Task>): seq<Task> {
    Filter(IsReport, tasks)
  }

  function FinishedReports(tasks: seq<Task>): seq<Task> {
    Filter(IsFinishedReport, tasks)
  }

  /** The finished reports are exactly the successful tasks among the reports, in order. */
  lemma {:induction false} FinishedReportsAreSuccessfulReports(tasks: seq<Task>)
    ensures FinishedReports(tasks) == Filter(IsSuccess, Reports(tasks))
    decreases |tasks|
  {
    if tasks != [] {
      FinishedReportsAreSuccessfulReports(tasks[1..]);
    }
  }

  /** A snapshot with a finished report also has a report. */
  lemma FinishedImpliesReported(tasks: seq<Task>)
    ensures FinishedReports(tasks) != [] ==> Reports(tasks) != []
  {
    if FinishedReports(tasks) != [] {
      FilterContents(IsFinishedReport, tasks);
      FilterContents(IsReport, tasks);
      var t := FinishedReports(tasks)[0];
      assert t in Reports(tasks);
    }
  }

  /**
   * How a poll loop ended: the `probe`-th filtered snapshot (counting from 0) was
   * non-empty, or the given snapshots ran out while the loop was still waiting.
   * `tasks` is the loop variable's final value; the source's pollers return
   * nothing, so it is exposed only to state what the loop last read.
   */
  datatype PollResult = Exited(probe: nat, tasks: seq<Task>) | Exhausted

  /**
   * The snapshot the `k`-th `getReports` call of `waitForReportToShowUp` reads:
   * after each empty probe inside the loop an extra `getTasks` call (for the log
   * line) takes a snapshot of its own.
   */
  function ShowUpProbe(k: nat): nat {
    if k == 0 then 0 else 2 * k - 1
  }

  /**
   * `waitForReportToShowUp`: exits on the first probe whose reports are
   * non-empty, and on no other.
   */
  method WaitForReportToShowUp(snapshots: seq<seq<Task>>) returns (r: PollResult)
    ensures r.Exited? ==> ShowUpProbe(r.probe) < |snapshots|
                          && r.tasks == Reports(snapshots[ShowUpProbe(r.probe)]) && r.tasks != []
    ensures r.Exited? ==> forall j :: 0 <= j < r.probe ==> Reports(snapshots[ShowUpProbe(j)]) == []
    ensures r.Exhausted? ==> forall j :: ShowUpProbe(j) < |snapshots| ==> Reports(snapshots[ShowUpProbe(j)]) == []
    ensures r.Exited? <==> exists j :: ShowUpProbe(j) < |snapshots| && Reports(snapshots[ShowUpProbe(j)]) != []
  {
    if |snapshots| == 0 {
      return Exhausted;
    }
    var runningTasks := Reports(snapshots[0]);
    var probe := 0;
    var next := 1;
    while runningTasks == []
      invariant runningTasks == [] ==> next == ShowUpProbe(probe + 1)
      invariant ShowUpProbe(probe) < |snapshots| && next <= |snapshots|
      invariant runningTasks == Reports(snapshots[ShowUpProbe(probe)])
      invariant forall j :: 0 <= j < probe ==> Reports(snapshots[ShowUpProbe(j)]) == []
      decreases |snapshots| - next
    {
      if next >= |snapshots| {
        return Exhausted;
      }
      runningTasks := Reports(snapshots[next]);
      probe := probe + 1;
      next := next + 1;
      if runningTasks == [] {
        if next >= |snapshots| {
          return Exhausted;
        }
        next := next + 1;
      }
    }
    return Exited(probe, runningTasks);
  }

  /**
   * `waitForReportsToFinish`: probe `k` reads snapshot `k`; exits on the first
   * probe whose finished reports are non-empty, and on no other.
   */
  method WaitForReportsToFinish(snapshots: seq<seq<Task>>) returns (r: PollResult)
    ensures r.Exited? ==> r.probe < |snapshots|
                          && r.tasks == FinishedReports(snapshots[r.probe]) && r.tasks != []
    ensures r.Exited? ==> forall j :: 0 <= j < r.probe ==> FinishedReports(snapshots[j]) == []
    ensures r.Exhausted? ==> forall j :: 0 <= j < |snapshots| ==> FinishedReports(snapshots[j]) == []
    ensures r.Exited? <==> exists j :: 0 <= j < |snapshots| && FinishedReports(snapshots[j]) != []
  {
    if |snapshots| == 0 {
      return Exhausted;
    }
    var finishedTasks := FinishedReports(snapshots[0]);
    var probe := 0;
    while finishedTasks == []
      invariant probe < |snapshots| && finishedTasks == FinishedReports(snapshots[probe])
      invariant forall j :: 0 <= j < probe ==> FinishedReports(snapshots[j]) == []
      decreases |snapshots| - probe
    {
      if probe + 1 >= |snapshots| {
        return Exhausted;
      }
      probe := probe + 1;
      finishedTasks := FinishedReports(snapshots[probe]);
    }
    return Exited(probe, finishedTasks);
  }
}
