/**
 * `getIssues` (src/lib/sonarqube.ts:136-211) in its imperative form: the two
 * local collections that the `pushIssues` closure and the five severity tasks
 * update, held as the fields of one object, and the loops that update them.
 */
module Collector {
  import opened Wrappers
  import opened Issues
  import opened Aggregation
  import opened Pagination

  class IssueCollector {
    /** `issues`: the result list, only ever appended to. */
    var issues: seq<Issue>
    /** `componentToFile`. */
    var componentToFile: ComponentMap
    /** The md5 hex digest, an uninterpreted function of the key. */
    const md5: Digest

    ghost predicate Valid()
      reads this
    {
      Consistent(issues, componentToFile)
    }

    function Snapshot(): State
      reads this
    {
      State(issues, componentToFile)
    }

    constructor (md5: Digest)
      ensures Valid() && this.md5 == md5
      ensures issues == [] && componentToFile == map[]
    {
      this.md5 := md5;
      issues := [];
      componentToFile := map[];
    }

    /** Assigns each component's path under its key, in page order. */
    method MergeComponents(comps: seq<Component>)
      requires Valid()
      modifies this`componentToFile
      ensures Valid()
      ensures componentToFile == Aggregation.MergeComponents(old(componentToFile), comps)
    {
      for i := 0 to |comps|
        invariant componentToFile == Aggregation.MergeComponents(old(componentToFile), comps[..i])
      {
        assert comps[..i + 1][..i] == comps[..i];
        componentToFile := componentToFile[comps[i].key := comps[i].path];
      }
      assert comps[..|comps|] == comps;
      MergeKeepsConsistent(issues, old(componentToFile), comps);
    }

    /**
     * `pushIssues(page)`: an unmapped component throws (here: an error result),
     * a fingerprint already stored ends the page, every other issue is appended
     * as its resolved record.
     */
    method PushIssues(page: seq<Issue>) returns (error: Option<FetchError>)
      requires Valid()
      modifies this`issues
      ensures Valid()
      ensures PushResult(issues, error) == Push(old(issues), componentToFile, page, md5)
    {
      PushKeepsConsistent(issues, componentToFile, page, md5);
      var i := 0;
      while i < |page|
        invariant 0 <= i <= |page|
        invariant Push(old(issues), componentToFile, page, md5) == Push(issues, componentToFile, page[i..], md5)
      {
        var issue := page[i];
        assert page[i..][0] == issue && page[i..][1..] == page[i + 1..];
        if !Mapped(componentToFile, issue.component) {
          return Some(UnresolvedComponent(issue.component));
        }
        var issueToAdd := Resolve(issue, componentToFile[issue.component].value, md5);
        if HasFingerprint(issues, issueToAdd.hash) {
          return None;
        }
        issues := issues + [issueToAdd];
        i := i + 1;
      }
      return None;
    }

    /** The work between two `await`s: merge the page's components, then push its issues. */
    method ProcessPage(page: Page) returns (error: Option<FetchError>)
      requires Valid()
      modifies this
      ensures Valid()
      ensures Processed(Snapshot(), error) == Pagination.ProcessPage(old(Snapshot()), page, md5)
    {
      MergeComponents(page.components);
      error := PushIssues(page.issues);
    }

    /**
     * A severity task resumed with the response to request `n`: process the page
     * and either ask for page `n + 1` (the page was full) or finish.
     */
    method Resume(sev: Severity, pages: seq<Page>, n: PageNumber) returns (cursor: Cursor, error: Option<FetchError>)
      requires Valid()
      modifies this
      ensures Valid()
      ensures Resumed(Snapshot(), cursor, error) == Pagination.Resume(old(Snapshot()), sev, pages, n, md5)
    {
      var result := Request(pages, sev, n);
      if result.Failure? {
        return Finished(n), Some(result.error);
      }
      error := ProcessPage(result.value);
      if error.Some? {
        cursor := Finished(n);
      } else if |result.value.issues| >= PageSize {
        cursor := Awaiting(n + 1);
      } else {
        cursor := Finished(n);
      }
    }

    /**
     * The severity loop of lines 183-203, resumed at request `first` (1 for a
     * task that runs alone): while the last page was full, request the next.
     */
    method FetchSeverity(sev: Severity, pages: seq<Page>, first: PageNumber) returns (cursor: Cursor, error: Option<FetchError>)
      requires Valid()
      modifies this
      ensures Valid()
      ensures Resumed(Snapshot(), cursor, error) == Drain(old(Snapshot()), sev, pages, first, md5)
    {
      cursor, error := Resume(sev, pages, first);
      DrainStep(old(Snapshot()), sev, pages, first, md5, Resumed(Snapshot(), cursor, error));
      while cursor.Awaiting?
        invariant Valid()
        invariant cursor.Awaiting? ==> cursor.pageNumber <= |pages| + 1
        invariant Drain(old(Snapshot()), sev, pages, first, md5)
                  == if cursor.Awaiting? then Drain(Snapshot(), sev, pages, cursor.pageNumber, md5)
                     else Resumed(Snapshot(), cursor, error)
        decreases if cursor.Awaiting? then |pages| + 2 - cursor.pageNumber else 0
      {
        ghost var before := Snapshot();
        var n := cursor.pageNumber;
        cursor, error := Resume(sev, pages, n);
        DrainStep(before, sev, pages, n, md5, Resumed(Snapshot(), cursor, error));
      }
    }
  }

  /**
   * `getIssues`: the five severity tasks interleaved as `schedule` says (a
   * severity's entry processes its pending response), then the tasks still
   * running completed in list order. A thrown error or a failed request makes
   * the whole fetch fail; otherwise the result list is returned.
   */
  method GetIssues(feed: Feed, schedule: seq<Severity>, md5: Digest) returns (r: Result<seq<Issue>, FetchError>)
    ensures r == GetIssuesSpec(feed, schedule, md5)
    ensures r.Success? ==> UniqueFingerprints(r.value)
  {
    var c := new IssueCollector(md5);
    var cursors: seq<Cursor> := Start().cursors;
    var error: Option<FetchError> := None;
    for i := 0 to |schedule|
      invariant c.Valid() && c.md5 == md5 && |cursors| == |Severities|
      invariant RunSchedule(Start(), feed, schedule, md5)
                == RunSchedule(Run(c.Snapshot(), cursors, error), feed, schedule[i..], md5)
    {
      var sev := schedule[i];
      assert schedule[i..][0] == sev && schedule[i..][1..] == schedule[i + 1..];
      if error.None? && cursors[Ord(sev)].Awaiting? {
        var cursor, e := c.Resume(sev, feed(sev), cursors[Ord(sev)].pageNumber);
        cursors := cursors[Ord(sev) := cursor];
        error := e;
      }
    }
    ghost var scheduled := Run(c.Snapshot(), cursors, error);
    for k := 0 to |Severities|
      invariant c.Valid() && c.md5 == md5 && |cursors| == |Severities|
      invariant DrainAll(scheduled, feed, 0, md5) == DrainAll(Run(c.Snapshot(), cursors, error), feed, k, md5)
    {
      if error.None? && cursors[k].Awaiting? {
        var cursor, e := c.FetchSeverity(Severities[k], feed(Severities[k]), cursors[k].pageNumber);
        cursors := cursors[k := cursor];
        error := e;
      }
    }
    if error.Some? {
      return Failure(error.value);
    }
    return Success(c.issues);
  }
}
