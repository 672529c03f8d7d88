/**
 * The per-severity pagination loop of `getIssues` (src/lib/sonarqube.ts:183-203)
 * and the `Promise.all` over the five severities (src/lib/sonarqube.ts:180-206),
 * as functions. The search service is a given sequence of pages per severity; a
 * page number past that sequence is a failed request.
 */
module Pagination {
  import opened Wrappers
  import opened Issues
  import opened Aggregation

  /** One response of `api/issues/search`: the page's issues and its component dictionary. */
  datatype Page = Page(issues: seq<Issue>, components: seq<Component>)

  /** The `ps=500` of every request. */
  const PageSize: nat := 500

  /** What the service answers for each severity, page 1 first. */
  type Feed = Severity -> seq<Page>

  /** The severities in the order of the literal list at src/lib/sonarqube.ts:181. */
  const Severities: seq<Severity> := [Info, Minor, Major, Critical, Blocker]

  function Ord(sev: Severity): (i: nat)
    ensures i < |Severities| && Severities[i] == sev
  {
    match sev
    case Info => 0
    case Minor => 1
    case Major => 2
    case Critical => 3
    case Blocker => 4
  }

  type PageNumber = n: nat | n >= 1 witness 1

  /** `issues` and `componentToFile` of one `getIssues` run. */
  datatype State = State(issues: seq<Issue>, components: ComponentMap)

  /**
   * A severity task is suspended awaiting the response to request `pageNumber`,
   * or has finished after `requests` requests.
   */
  datatype Cursor = Awaiting(pageNumber: PageNumber) | Finished(requests: PageNumber)

  datatype Processed = Processed(state: State, error: Option<FetchError>)

  datatype Resumed = Resumed(state: State, cursor: Cursor, error: Option<FetchError>)

  /** The response to request `n` of a severity. */
  function Request(pages: seq<Page>, sev: Severity, n: PageNumber): Result<Page, FetchError> {
    if n <= |pages| then Success(pages[n - 1]) else Failure(TransportFailure(sev, n))
  }

  /** Lines 188-191 (and 199-202): merge the page's components, then push its issues. */
  function ProcessPage(s: State, page: Page, md5: Digest): Processed {
    var merged := MergeComponents(s.components, page.components);
    var pushed := Push(s.issues, merged, page.issues, md5);
    Processed(State(pushed.issues, merged), pushed.error)
  }

  /**
   * What a severity task does when the response to request `n` arrives, up to
   * its next `await`: process the page, then request page `n + 1` if this page
   * was full, or finish. A failed request or a throw ends the task with an error.
   */
  function Resume(s: State, sev: Severity, pages: seq<Page>, n: PageNumber, md5: Digest): (r: Resumed)
    ensures r.cursor.Awaiting? ==> n <= |pages| && r.cursor.pageNumber == n + 1 && r.error == None
    ensures r.cursor.Awaiting? ==> |pages[n - 1].issues| >= PageSize
    ensures r.cursor.Finished? ==> r.cursor.requests == n
  {
    match Request(pages, sev, n)
    case Failure(e) => Resumed(s, Finished(n), Some(e))
    case Success(page) =>
      var p := ProcessPage(s, page, md5);
      if p.error.Some? then Resumed(p.state, Finished(n), p.error)
      else if |page.issues| >= PageSize then Resumed(p.state, Awaiting(n + 1), None)
      else Resumed(p.state, Finished(n), None)
  }

  /** Runs a severity task from request `n` until it finishes. */
  function Drain(s: State, sev: Severity, pages: seq<Page>, n: PageNumber, md5: Digest): (r: Resumed)
    ensures r.cursor.Finished?
    decreases if n <= |pages| then |pages| + 1 - n else 0
  {
    var r := Resume(s, sev, pages, n, md5);
    if r.cursor.Awaiting? then Drain(r.state, sev, pages, n + 1, md5) else r
  }

  /** One step of `Drain`: resume once, then go on from the next request if there is one. */
  lemma DrainStep(s: State, sev: Severity, pages: seq<Page>, n: PageNumber, md5: Digest, r: Resumed)
    requires r == Resume(s, sev, pages, n, md5)
    ensures r.cursor.Awaiting? ==> Drain(s, sev, pages, n, md5) == Drain(r.state, sev, pages, n + 1, md5)
    ensures r.cursor.Finished? ==> Drain(s, sev, pages, n, md5) == r
  {
  }

  /**
   * The last page number a task started at request `n` asks for: the first
   * page with fewer than `PageSize` issues, or the first page past the feed.
   */
  function LastRequest(pages: seq<Page>, n: PageNumber): (last: PageNumber)
    ensures n <= last && (n <= |pages| + 1 ==> last <= |pages| + 1)
    ensures forall i :: n - 1 <= i < last - 1 ==> i < |pages| && |pages[i].issues| >= PageSize
    ensures last <= |pages| ==> |pages[last - 1].issues| < PageSize
    decreases if n <= |pages| then |pages| + 1 - n else 0
  {
    if n > |pages| || |pages[n - 1].issues| < PageSize then n else LastRequest(pages, n + 1)
  }

  /** Processes pages in order, stopping at the first error. */
  function ProcessAll(s: State, pages: seq<Page>, md5: Digest): Processed
    decreases |pages|
  {
    if pages == [] then Processed(s, None)
    else
      var p := ProcessPage(s, pages[0], md5);
      if p.error.Some? then p else ProcessAll(p.state, pages[1..], md5)
  }

  /**
   * A task started at request `n` processes pages `n`, `n + 1`, ... up to
   * `LastRequest(pages, n)` in order and nothing else; if that last request
   * lies past the feed, the run ends with a failed request for it.
   */
  lemma {:induction false} DrainProcessesInOrder(s: State, sev: Severity, pages: seq<Page>, n: PageNumber, md5: Digest)
    requires n <= |pages| + 1
    ensures var last := LastRequest(pages, n);
      var r := Drain(s, sev, pages, n, md5);
      var done := ProcessAll(s, pages[n - 1..if last <= |pages| then last else |pages|], md5);
      && r.state == done.state
      && (done.error.Some? ==> r.error == done.error)
      && (done.error.None? && last <= |pages| ==> r.error == None && r.cursor == Finished(last))
      && (done.error.None? && last > |pages| ==> r.error == Some(TransportFailure(sev, last)))
    decreases |pages| + 1 - n
  {
    var last := LastRequest(pages, n);
    if n > |pages| {
      assert pages[n - 1..|pages|] == [];
      assert Request(pages, sev, n) == Failure(TransportFailure(sev, n));
    } else {
      var page := pages[n - 1];
      assert Request(pages, sev, n) == Success(page);
      var p := ProcessPage(s, page, md5);
      var upto := if last <= |pages| then last else |pages|;
      var rest := pages[n - 1..upto];
      assert rest[0] == page;
      assert ProcessAll(s, rest, md5) == if p.error.Some? then p else ProcessAll(p.state, rest[1..], md5);
      if p.error.Some? {
        assert Drain(s, sev, pages, n, md5) == Resumed(p.state, Finished(n), p.error);
      } else if |page.issues| >= PageSize {
        assert last == LastRequest(pages, n + 1);
        assert Drain(s, sev, pages, n, md5) == Drain(p.state, sev, pages, n + 1, md5);
        DrainProcessesInOrder(p.state, sev, pages, n + 1, md5);
        assert rest[1..] == pages[n..upto];
      } else {
        assert last == n && rest[1..] == [];
        assert Drain(s, sev, pages, n, md5) == Resumed(p.state, Finished(n), None);
      }
    }
  }

  /** The number of requests a task makes when it runs from page 1 without error. */
  function RequestCount(pages: seq<Page>): PageNumber {
    LastRequest(pages, 1)
  }

  /** Pages of 500, 500 and 137 issues take exactly three requests. */
  lemma ThreePageFeed(pages: seq<Page>)
    requires |pages| == 3
    requires |pages[0].issues| == 500 && |pages[1].issues| == 500 && |pages[2].issues| == 137
    ensures RequestCount(pages) == 3
  {
  }

  /** All five tasks running, each having sent its request for page 1. */
  datatype Run = Run(state: State, cursors: seq<Cursor>, error: Option<FetchError>)

  function Start(): (r: Run)
    ensures |r.cursors| == |Severities|
  {
    Run(State([], map[]), [Awaiting(1), Awaiting(1), Awaiting(1), Awaiting(1), Awaiting(1)], None)
  }

  /**
   * One scheduling step: the pending response of severity `sev` is processed.
   * A finished severity has nothing pending; after the first error the run's
   * outcome is decided (`Promise.all` has rejected) and nothing more is observed.
   */
  function Step(run: Run, feed: Feed, sev: Severity, md5: Digest): (r: Run)
    requires |run.cursors| == |Severities|
    ensures |r.cursors| == |Severities|
  {
    if run.error.Some? then run
    else match run.cursors[Ord(sev)]
      case Finished(_) => run
      case Awaiting(n) =>
        var r := Resume(run.state, sev, feed(sev), n, md5);
        Run(r.state, run.cursors[Ord(sev) := r.cursor], r.error)
  }

  function RunSchedule(run: Run, feed: Feed, schedule: seq<Severity>, md5: Digest): (r: Run)
    requires |run.cursors| == |Severities|
    ensures |r.cursors| == |Severities|
    decreases |schedule|
  {
    if schedule == [] then run else RunSchedule(Step(run, feed, schedule[0], md5), feed, schedule[1..], md5)
  }

  /** Completes the severities still running, from index `k` on, one after another. */
  function DrainAll(run: Run, feed: Feed, k: nat, md5: Digest): (r: Run)
    requires |run.cursors| == |Severities|
    ensures |r.cursors| == |Severities|
    decreases |Severities| - k
  {
    if k >= |Severities| || run.error.Some? then run
    else match run.cursors[k]
      case Finished(_) => DrainAll(run, feed, k + 1, md5)
      case Awaiting(n) =>
        var r := Drain(run.state, Severities[k], feed(Severities[k]), n, md5);
        DrainAll(Run(r.state, run.cursors[k := r.cursor], r.error), feed, k + 1, md5)
  }

  /**
   * A schedule that lists a complete interleaving (every task finished, or the
   * run failed) leaves the final drain nothing to do.
   */
  lemma {:induction false} CompleteScheduleNeedsNoDrain(run: Run, feed: Feed, k: nat, md5: Digest)
    requires |run.cursors| == |Severities|
    requires run.error.None? ==> forall i :: 0 <= i < |run.cursors| ==> run.cursors[i].Finished?
    ensures DrainAll(run, feed, k, md5) == run
    decreases |Severities| - k
  {
    if k < |Severities| && run.error.None? {
      CompleteScheduleNeedsNoDrain(run, feed, k + 1, md5);
    }
  }

  /**
   * `getIssues` under the interleaving that starts with `schedule` and then lets
   * the remaining tasks complete in list order.
   */
  function GetIssuesSpec(feed: Feed, schedule: seq<Severity>, md5: Digest): Result<seq<Issue>, FetchError> {
    var run := DrainAll(RunSchedule(Start(), feed, schedule, md5), feed, 0, md5);
    if run.error.Some? then Failure(run.error.value) else Success(run.state.issues)
  }

  predicate ConsistentState(s: State) {
    Consistent(s.issues, s.components)
  }

  lemma ProcessPageKeepsConsistent(s: State, page: Page, md5: Digest)
    requires ConsistentState(s)
    ensures ConsistentState(ProcessPage(s, page, md5).state)
  {
    var merged := MergeComponents(s.components, page.components);
    MergeKeepsConsistent(s.issues, s.components, page.components);
    PushKeepsConsistent(s.issues, merged, page.issues, md5);
  }

  lemma ResumeKeepsConsistent(s: State, sev: Severity, pages: seq<Page>, n: PageNumber, md5: Digest)
    requires ConsistentState(s)
    ensures ConsistentState(Resume(s, sev, pages, n, md5).state)
  {
    if n <= |pages| {
      ProcessPageKeepsConsistent(s, pages[n - 1], md5);
      assert Resume(s, sev, pages, n, md5).state == ProcessPage(s, pages[n - 1], md5).state;
    }
  }

  lemma {:induction false} DrainKeepsConsistent(s: State, sev: Severity, pages: seq<Page>, n: PageNumber, md5: Digest)
    requires ConsistentState(s)
    ensures ConsistentState(Drain(s, sev, pages, n, md5).state)
    decreases if n <= |pages| then |pages| + 1 - n else 0
  {
    var r := Resume(s, sev, pages, n, md5);
    ResumeKeepsConsistent(s, sev, pages, n, md5);
    DrainStep(s, sev, pages, n, md5, r);
    var d := Drain(s, sev, pages, n, md5);
    if r.cursor.Awaiting? {
      DrainKeepsConsistent(r.state, sev, pages, n + 1, md5);
      assert d == Drain(r.state, sev, pages, n + 1, md5);
      assert ConsistentState(d.state);
    } else {
      assert d == r;
      assert ConsistentState(d.state);
    }
  }

  lemma {:induction false} RunScheduleKeepsConsistent(run: Run, feed: Feed, schedule: seq<Severity>, md5: Digest)
    requires |run.cursors| == |Severities| && ConsistentState(run.state)
    ensures ConsistentState(RunSchedule(run, feed, schedule, md5).state)
    decreases |schedule|
  {
    if schedule != [] {
      var sev := schedule[0];
      if run.error.None? && run.cursors[Ord(sev)].Awaiting? {
        ResumeKeepsConsistent(run.state, sev, feed(sev), run.cursors[Ord(sev)].pageNumber, md5);
      }
      RunScheduleKeepsConsistent(Step(run, feed, sev, md5), feed, schedule[1..], md5);
    }
  }

  lemma {:induction false} DrainAllKeepsConsistent(run: Run, feed: Feed, k: nat, md5: Digest)
    requires |run.cursors| == |Severities| && ConsistentState(run.state)
    ensures ConsistentState(DrainAll(run, feed, k, md5).state)
    decreases |Severities| - k
  {
    if k < |Severities| && run.error.None? {
      match run.cursors[k]
      case Finished(_) =>
        DrainAllKeepsConsistent(run, feed, k + 1, md5);
      case Awaiting(n) =>
        var r := Drain(run.state, Severities[k], feed(Severities[k]), n, md5);
        DrainKeepsConsistent(run.state, Severities[k], feed(Severities[k]), n, md5);
        DrainAllKeepsConsistent(Run(r.state, run.cursors[k := r.cursor], r.error), feed, k + 1, md5);
    }
  }

  /** Whatever the interleaving, a completed fetch holds no two issues with one fingerprint. */
  lemma GetIssuesUnique(feed: Feed, schedule: seq<Severity>, md5: Digest)
    ensures GetIssuesSpec(feed, schedule, md5).Success? ==> UniqueFingerprints(GetIssuesSpec(feed, schedule, md5).value)
  {
    assert ConsistentState(Start().state);
    RunScheduleKeepsConsistent(Start(), feed, schedule, md5);
    DrainAllKeepsConsistent(RunSchedule(Start(), feed, schedule, md5), feed, 0, md5);
  }

  /** The first error decides the run: nothing afterwards changes it. */
  lemma {:induction false} ErrorIsFinal(run: Run, feed: Feed, schedule: seq<Severity>, md5: Digest)
    requires |run.cursors| == |Severities| && run.error.Some?
    ensures DrainAll(RunSchedule(run, feed, schedule, md5), feed, 0, md5) == run
    decreases |schedule|
  {
    if schedule != [] {
      ErrorIsFinal(Step(run, feed, schedule[0], md5), feed, schedule[1..], md5);
    }
  }

  /** Resuming a task only appends to the result list. */
  lemma ResumeAppends(s: State, sev: Severity, pages: seq<Page>, n: PageNumber, md5: Digest)
    ensures s.issues <= Resume(s, sev, pages, n, md5).state.issues
  {
    if n <= |pages| {
      var page := pages[n - 1];
      var merged := MergeComponents(s.components, page.components);
      PushAppends(s.issues, merged, page.issues, md5);
      assert Resume(s, sev, pages, n, md5).state.issues == Push(s.issues, merged, page.issues, md5).issues;
    }
  }

  /** Each scheduling step only appends to the result list. */
  lemma StepAppends(run: Run, feed: Feed, sev: Severity, md5: Digest)
    requires |run.cursors| == |Severities|
    ensures run.state.issues <= Step(run, feed, sev, md5).state.issues
  {
    if run.error.None? && run.cursors[Ord(sev)].Awaiting? {
      var n := run.cursors[Ord(sev)].pageNumber;
      ResumeAppends(run.state, sev, feed(sev), n, md5);
      assert Step(run, feed, sev, md5).state == Resume(run.state, sev, feed(sev), n, md5).state;
    }
  }
}
