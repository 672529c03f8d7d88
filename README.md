# SonarQube issue aggregation: a Dafny model

This project models the core of the `Sonarqube` client in `src/lib/sonarqube.ts`. That core has two parts:

- the issue aggregation of `getIssues`;
- the task filters and poll loops that come before it.

`getIssues` asks the SonarQube issue search for each of the five severities. It pages through results 500 at a time, while the last page was full. From each page it merges the component → file dictionary ("last writer wins"). It then hands the page's issues to `pushIssues`. `pushIssues` fails on an issue whose component has no file. It computes a content fingerprint. It stores the issue with its path resolved and its hash replaced by that fingerprint. When the fingerprint is already stored, it returns at once, so the rest of that page is dropped.

The pollers re-read the task list until a report task exists (`waitForReportToShowUp`) or until one has succeeded (`waitForReportsToFinish`).

## How the model is built

- `issues.dfy` holds the issue record field for field. The fingerprint key is component ++ service hash ++ rule ++ location.
  - The location is the decimal text of the numeric SUM `startLine + endLine + startOffset + endOffset` when there is a text range, and the `line` text otherwise. JavaScript adds the numbers inside the parentheses before it concatenates.
  - md5 is a digest parameter: an arbitrary function of the key string, never assumed collision-free.
  - `decimal.dfy` renders integers the way `String(n)` does and proves that rendering invertible.
- `aggregation.dfy` states the component merge and `pushIssues` as functions. It states what they do in non-recursive terms: append-only growth, which prefix of the page is admitted, and why the page stops. It also proves that they keep the run invariant: unique fingerprints, and every stored component is a key.
- `collector.dfy` holds the same operations in imperative form. Class `IssueCollector` has the two collections of `getIssues` as fields, and its loops are proved against the functions.
  - `FetchSeverity` is the severity loop.
  - `GetIssues` runs the five severity tasks in some interleaving.
- `pagination.dfy` models the remote service as a given page sequence per severity. Asking for a page past that sequence is a failed request. The `Promise.all` is a schedule of severities. Each entry processes that severity's pending response, which is the code between two `await`s. After the schedule, the tasks still running finish in list order. For any complete interleaving, the schedule that lists it in full leaves nothing to finish (`CompleteScheduleNeedsNoDrain`).
- `tasks.dfy` holds the `filter` expressions and the two poll loops. Each `getTasks` call reads the next element of a given snapshot sequence. The loop of `waitForReportToShowUp` makes an extra `getTasks` call for its log line after each empty probe, and that call takes a snapshot too.

Three behaviours of the code are easy to misread; the model follows the code as written:

- The fingerprint sums the four range numbers instead of using them one by one. So a range on lines 1-4 and a range on lines 2-3 with the same offsets share a fingerprint (`DistinctRangesShareFingerprint`).
- A duplicate fingerprint ends the whole page, not just that issue. An issue with an unmapped component placed after a duplicate is never checked.
- The poll loops never look at their deadline.

## Model

| member | source | states |
|---|---|---|
| `Decimal.IntToString` | src/lib/sonarqube.ts:151-156 | the text JavaScript gives a sum when it concatenates it into the key: a minus sign for negatives and digits without a leading zero; `IntRoundTrip` and `IntToStringInjective` show it loses nothing |
| `Decimal.IntRoundTrip` | src/lib/sonarqube.ts:151-156 | the decimal text of the range sum parses back to the same integer |
| `Decimal.IntToStringInjective` | src/lib/sonarqube.ts:151-156 | two integers render to the same text exactly when they are equal |
| `Issues.RangeSum` | src/lib/sonarqube.ts:151-155 | the numeric sum of start line, end line, start offset and end offset; `RangedKeyIffSameSum` shows the key sees only this sum |
| `Issues.LocationText` | src/lib/sonarqube.ts:151-156 | the rendered range sum when the issue has a text range, otherwise the `line` text; `KeyDeterminedByLocation` and `LineAndRangeCanCollide` characterize it |
| `Issues.FingerprintKey` | src/lib/sonarqube.ts:148-156 | component, service hash, rule and location text joined in that order; `KeyDeterminedByLocation` and `RangedKeyIffSameSum` say when two keys are equal |
| `Issues.Fingerprint` | src/lib/sonarqube.ts:145-158 | the digest of the key; `DistinctRangesShareFingerprint` and `LineAndRangeCanCollide` show it gives different issues one fingerprint |
| `Issues.Resolve` | src/lib/sonarqube.ts:160-164 | the stored record has the resolved path and the md5 of the fingerprint key |
| `Issues.ResolveKeepsRawFields` | src/lib/sonarqube.ts:160-164 | putting back the original path and hash gives the raw issue, so no other field changes |
| `Issues.KeyDeterminedByLocation` | src/lib/sonarqube.ts:145-158 | for issues agreeing on component, hash and rule, the keys are equal exactly when the location texts are |
| `Issues.RangedKeyIffSameSum` | src/lib/sonarqube.ts:151-155 | for such issues that both have text ranges, the keys are equal exactly when the four-number sums are equal |
| `Issues.DistinctRangesShareFingerprint` | src/lib/sonarqube.ts:151-155 | two different ranges with the same sum get the same fingerprint under every digest |
| `Issues.LineAndRangeCanCollide` | src/lib/sonarqube.ts:148-156 | a ranged issue and an unranged one whose line text is the rendered sum share a fingerprint |
| `Aggregation.MergeComponents` | src/lib/sonarqube.ts:188-190 | merging never removes a key of the old dictionary |
| `Aggregation.MergeKeys` | src/lib/sonarqube.ts:188-190 | the merged dictionary's keys are exactly the old keys plus the page's component keys |
| `Aggregation.MergeLastWins` | src/lib/sonarqube.ts:188-190 | a key holds the path of the last component on the page with that key |
| `Aggregation.MergeKeepsOthers` | src/lib/sonarqube.ts:188-190 | a key the page does not mention keeps its old value |
| `Aggregation.MergeKeepsConsistent` | src/lib/sonarqube.ts:188-190 | merging keeps the run invariant (unique fingerprints, every stored component a key) |
| `Aggregation.Push` | src/lib/sonarqube.ts:140-178 | pushIssues on one page; `PushExtends`, `PushAppends`, `PushAdmitsFresh` and `PushStops` together fix its result, and `PushKeepsConsistent` its invariant |
| `Aggregation.PushExtends` | src/lib/sonarqube.ts:140-178 | pushIssues never removes or changes a stored entry and adds at most one per page issue |
| `Aggregation.PushAppends` | src/lib/sonarqube.ts:140-178 | pushIssues keeps the existing entries as a prefix; the k new entries are the resolved records of the first k page issues, in order, each with a mapped component |
| `Aggregation.PushAdmitsFresh` | src/lib/sonarqube.ts:166-176 | each appended entry's fingerprint is carried by no entry before it |
| `Aggregation.PushStops` | src/lib/sonarqube.ts:141-177 | after k issues the page ends: it is exhausted (no error); or issue k's component is unmapped (UnresolvedComponent naming it); or issue k's fingerprint is already stored (no error, and the rest of the page is dropped) |
| `Aggregation.PushKeepsConsistent` | src/lib/sonarqube.ts:140-178 | pushIssues keeps fingerprints unique and every stored component a key of the dictionary, whether it completes, returns early or throws |
| `Aggregation.DuplicateKeepsFirst` | src/lib/sonarqube.ts:166-174 | of two mapped issues with one new fingerprint, only the first is stored and no error arises |
| `Pagination.Request` | src/lib/sonarqube.ts:184-198 | the response to request `n`: page `n` of the feed, or a transport failure naming severity and page past its end; `DrainProcessesInOrder` states the failure a task ends with |
| `Pagination.ProcessPage` | src/lib/sonarqube.ts:188-191 | merge the page's components, then push its issues; `ProcessPageKeepsConsistent` shows it keeps the run invariant |
| `Pagination.ProcessPageKeepsConsistent` | src/lib/sonarqube.ts:188-191 | processing a page keeps fingerprints unique and every stored component a key of the dictionary |
| `Pagination.Resume` | src/lib/sonarqube.ts:188-203 | after processing page n, a task asks for page n + 1 only when page n was full and no error arose; otherwise it finishes after n requests |
| `Pagination.ResumeKeepsConsistent` | src/lib/sonarqube.ts:184-203 | one resumption keeps the run invariant, also when the request fails |
| `Pagination.ResumeAppends` | src/lib/sonarqube.ts:176 | one resumption only appends to the result list |
| `Pagination.Drain` | src/lib/sonarqube.ts:183-203 | the severity loop from request `n` always ends with the task finished; `DrainProcessesInOrder` and `LastRequest` characterize what it processes |
| `Pagination.DrainKeepsConsistent` | src/lib/sonarqube.ts:183-203 | the whole severity loop keeps the run invariant |
| `Pagination.LastRequest` | src/lib/sonarqube.ts:193-203 | the last page asked for is the first page with fewer than 500 issues, or the first page past the feed; every page before it is full |
| `Pagination.DrainProcessesInOrder` | src/lib/sonarqube.ts:183-203 | a task processes pages n, n + 1, ... up to its last request, in order and in full, unless an error from pushIssues stops it; past the feed it fails with a transport failure for that page |
| `Pagination.ThreePageFeed` | src/lib/sonarqube.ts:193-203 | pages of 500, 500 and 137 issues take exactly three requests |
| `Pagination.Step` | src/lib/sonarqube.ts:180-206 | one scheduling step resumes the named severity if it is awaiting and nothing has failed; `StepAppends` and `ErrorIsFinal` characterize it |
| `Pagination.RunSchedule` | src/lib/sonarqube.ts:180-206 | the steps of a schedule in order; `RunScheduleKeepsConsistent` and `ErrorIsFinal` characterize it |
| `Pagination.RunScheduleKeepsConsistent` | src/lib/sonarqube.ts:180-206 | every interleaving keeps the run invariant |
| `Pagination.DrainAll` | src/lib/sonarqube.ts:180-206 | the tasks still running finish in list order; `CompleteScheduleNeedsNoDrain` and `DrainAllKeepsConsistent` characterize it |
| `Pagination.DrainAllKeepsConsistent` | src/lib/sonarqube.ts:180-206 | finishing the remaining tasks keeps the run invariant |
| `Pagination.GetIssuesSpec` | src/lib/sonarqube.ts:180-210 | the fetch under one interleaving fails with the first error or returns the list; `GetIssuesUnique` and `ErrorIsFinal` characterize it |
| `Pagination.CompleteScheduleNeedsNoDrain` | src/lib/sonarqube.ts:180-206 | when every severity task has finished (or the run has failed), completing the remaining tasks changes nothing, so a schedule listing a whole interleaving is that interleaving |
| `Pagination.GetIssuesUnique` | src/lib/sonarqube.ts:180-210 | under every interleaving, a completed fetch returns no two issues with one fingerprint |
| `Pagination.ErrorIsFinal` | src/lib/sonarqube.ts:180-206 | once a task has failed, no later step changes the run, so the fetch fails with that error and returns no partial list |
| `Pagination.StepAppends` | src/lib/sonarqube.ts:176 | each scheduling step only appends to the result list |
| `Collector.IssueCollector.constructor` | src/lib/sonarqube.ts:137-138 | a run starts with an empty list and an empty dictionary |
| `Collector.IssueCollector.MergeComponents` | src/lib/sonarqube.ts:188-190 | the loop leaves the dictionary equal to MergeComponents of the old one and keeps the invariant |
| `Collector.IssueCollector.PushIssues` | src/lib/sonarqube.ts:140-178 | the loop leaves the list and the thrown error equal to Push of the old list |
| `Collector.IssueCollector.ProcessPage` | src/lib/sonarqube.ts:188-191 | merging and then pushing one page leaves the state that ProcessPage specifies |
| `Collector.IssueCollector.Resume` | src/lib/sonarqube.ts:193-203 | one resumption of a severity task does what Resume specifies |
| `Collector.IssueCollector.FetchSeverity` | src/lib/sonarqube.ts:183-203 | the severity while-loop ends in the state, cursor and error that Drain specifies |
| `Collector.GetIssues` | src/lib/sonarqube.ts:136-211 | the fetch returns GetIssuesSpec of the feed and schedule, and a successful result has unique fingerprints |
| `Tasks.Filter` | src/lib/sonarqube.ts:88-94 | `Array.prototype.filter`, never longer than its input; `FilterContents` and `FilterKeepsOrder` fix its result |
| `Tasks.FilterContents` | src/lib/sonarqube.ts:88-94 | the filter keeps exactly the tasks that satisfy the test, each as often as it occurs (the order is `FilterKeepsOrder`) |
| `Tasks.FilterKeepsOrder` | src/lib/sonarqube.ts:88-94 | filtering a concatenation is the concatenation of the filtered parts, so the input order is kept |
| `Tasks.Reports` | src/lib/sonarqube.ts:88-90 | getReports: the tasks of type REPORT, in order (by `FilterContents` and `FilterKeepsOrder`) |
| `Tasks.FinishedReports` | src/lib/sonarqube.ts:92-94 | getFinishedReports: the REPORT tasks with status SUCCESS, in order; `FinishedReportsAreSuccessfulReports` relates it to `Reports` |
| `Tasks.FinishedReportsAreSuccessfulReports` | src/lib/sonarqube.ts:88-94 | getFinishedReports equals the SUCCESS tasks among getReports |
| `Tasks.FinishedImpliesReported` | src/lib/sonarqube.ts:92-94 | a snapshot with a finished report has a report |
| `Tasks.WaitForReportToShowUp` | src/lib/sonarqube.ts:100-112 | the loop exits exactly when some probed snapshot (snapshots 0, 1, 3, 5, ...) has a report; it exits at the first such probe, and `tasks` is the loop's final `runningTasks`, those reports (the source itself returns nothing) |
| `Tasks.WaitForReportsToFinish` | src/lib/sonarqube.ts:121-131 | the loop exits exactly when some snapshot has a finished report; it exits at the first one, and `tasks` is the loop's final `runningTasks`, those finished reports (the source itself returns nothing) |

## Left out

- HTTP transport, TLS and auth: the `request` helper, `getTasks` and the axios instance (src/lib/sonarqube.ts:63-86). They are replaced by the given page feed and snapshot sequence.
- The `setTimeout` deadlines of both pollers, their 2000 ms sleeps and all wall-clock time. The loop never checks the deadline, and the timer's throw does not reject the poller's promise; under Node's default uncaught-exception handling it ends the whole process. The model has no deadline, and a poll over a finite snapshot sequence ends `Exhausted` when the sequence runs out.
- Scheduling inside `Promise.all`: only the order of page processing is modelled. After the first failure the model stops. In the source the other tasks keep running: they still send their remaining page requests and still log, but their later updates to `issues` and `componentToFile` can no longer be observed once the promise has rejected.
- The md5 implementation: it is a parameter and is not assumed injective.
- `console.log` output, the constructor and the configuration fields.
- Property names that `componentToFile` inherits from `Object.prototype` (a component named `constructor` reads as mapped), a JSON `null` path, and a missing `line` rendered as `undefined`. The model treats the dictionary as a plain map, a path as present or absent, and `line` as the declared string.
- JavaScript Number limits: the range sum is an unbounded integer. Precision loss above 2^53 and exponent notation from 1e21 up are not modelled.
- Fields beyond the `SonarqubeIssue` interface, which the object spread would also copy.
- The union of all severities' issues in the result: because of the early return and first-wins deduplication, the source does not keep every fetched issue. The model proves only what it keeps (`PushAppends`, `PushStops`).
