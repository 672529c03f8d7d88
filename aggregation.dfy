/**
 * The state `getIssues` accumulates: the component-to-file dictionary and the
 * result list, and the two operations on them, the component merge
 * (src/lib/sonarqube.ts:188-190) and `pushIssues` (src/lib/sonarqube.ts:140-178),
 * stated as functions.
 */
module Aggregation {
  import opened Wrappers
  import opened Issues

  /** One entry of a page's `components` list; `path` is absent for non-file components. */
  datatype Component = Component(key: string, path: Option<string>)

  /**
   * `componentToFile`. A key assigned an absent path holds `undefined`, which
   * the lookup in `pushIssues` treats like a missing key.
   */
  type ComponentMap = map<string, Option<string>>

  datatype FetchError =
    | UnresolvedComponent(component: string)
    | TransportFailure(severity: Severity, pageNumber: nat)

  /** What `pushIssues` leaves behind: the result list and whether it threw. */
  datatype PushResult = PushResult(issues: seq<Issue>, error: Option<FetchError>)

  predicate Mapped(m: ComponentMap, component: string) {
    component in m && m[component].Some?
  }

  predicate HasFingerprint(issues: seq<Issue>, h: string) {
    exists i :: 0 <= i < |issues| && issues[i].hash == h
  }

  predicate UniqueFingerprints(issues: seq<Issue>) {
    forall i, j :: 0 <= i < j < |issues| ==> issues[i].hash != issues[j].hash
  }

  /** The run invariant: fingerprints are unique and every stored component is a key. */
  predicate Consistent(issues: seq<Issue>, m: ComponentMap) {
    && UniqueFingerprints(issues)
    && forall i :: 0 <= i < |issues| ==> issues[i].component in m
  }

  predicate LastWithKey(comps: seq<Component>, i: int)
    requires 0 <= i < |comps|
  {
    forall j :: i < j < |comps| ==> comps[j].key != comps[i].key
  }

  function KeysOf(comps: seq<Component>): set<string> {
    set c | c in comps :: c.key
  }

  /**
   * Assigns each component's path under its key, in page order; the last
   * assignment is the outermost update.
   */
  function MergeComponents(m: ComponentMap, comps: seq<Component>): (r: ComponentMap)
    ensures m.Keys <= r.Keys
    decreases |comps|
  {
    if comps == [] then m
    else
      var init := comps[..|comps| - 1];
      var last := comps[|comps| - 1];
      MergeComponents(m, init)[last.key := last.path]
  }

  /** Nothing is removed and nothing else is added: the keys are the old keys plus the page's. */
  lemma {:induction false} MergeKeys(m: ComponentMap, comps: seq<Component>)
    ensures MergeComponents(m, comps).Keys == m.Keys + KeysOf(comps)
    decreases |comps|
  {
    if comps != [] {
      var init := comps[..|comps| - 1];
      var last := comps[|comps| - 1];
      assert KeysOf(comps) == KeysOf(init) + {last.key} by {
        assert comps == init + [last];
      }
      MergeKeys(m, init);
    }
  }

  /**
   * Last writer wins: the value under each key the page mentions is the path of
   * the last component with that key.
   */
  lemma {:induction false} MergeLastWins(m: ComponentMap, comps: seq<Component>, i: nat)
    requires i < |comps| && LastWithKey(comps, i)
    ensures comps[i].key in MergeComponents(m, comps)
    ensures MergeComponents(m, comps)[comps[i].key] == comps[i].path
    decreases |comps|
  {
    var init := comps[..|comps| - 1];
    if i < |comps| - 1 {
      assert comps[|comps| - 1].key != comps[i].key;
      assert init[i] == comps[i];
      MergeLastWins(m, init, i);
    }
  }

  /** Keys the page does not mention keep their value. */
  lemma {:induction false} MergeKeepsOthers(m: ComponentMap, comps: seq<Component>, k: string)
    requires k in m && k !in KeysOf(comps)
    ensures MergeComponents(m, comps)[k] == m[k]
    decreases |comps|
  {
    if comps != [] {
      var init := comps[..|comps| - 1];
      assert comps == init + [comps[|comps| - 1]];
      assert KeysOf(init) <= KeysOf(comps);
      MergeKeepsOthers(m, init, k);
    }
  }

  /**
   * `pushIssues(page)` on result list `issues` with dictionary `m`: throws on an
   * unmapped component, returns at the first fingerprint already stored (the
   * rest of the page is dropped), and otherwise appends the resolved issue.
   */
  function Push(issues: seq<Issue>, m: ComponentMap, page: seq<Issue>, md5: Digest): PushResult
    decreases |page|
  {
    if page == [] then PushResult(issues, None)
    else if !Mapped(m, page[0].component) then
      PushResult(issues, Some(UnresolvedComponent(page[0].component)))
    else
      var added := Resolve(page[0], m[page[0].component].value, md5);
      if HasFingerprint(issues, added.hash) then PushResult(issues, None)
      else Push(issues + [added], m, page[1..], md5)
  }

  /** The number of page issues `Push` appends. */
  function Admitted(issues: seq<Issue>, m: ComponentMap, page: seq<Issue>, md5: Digest): int {
    |Push(issues, m, page, md5).issues| - |issues|
  }

  /** `Push` never shrinks the list and leaves its entries as they were. */
  lemma {:induction false} PushExtends(issues: seq<Issue>, m: ComponentMap, page: seq<Issue>, md5: Digest)
    ensures var r := Push(issues, m, page, md5);
      |issues| <= |r.issues| <= |issues| + |page| && r.issues[..|issues|] == issues
    decreases |page|
  {
    if page != [] && Mapped(m, page[0].component) {
      var added := Resolve(page[0], m[page[0].component].value, md5);
      if !HasFingerprint(issues, added.hash) {
        var issues' := issues + [added];
        var r := Push(issues', m, page[1..], md5);
        PushExtends(issues', m, page[1..], md5);
        assert r.issues[..|issues|] == r.issues[..|issues'|][..|issues|];
      }
    }
  }

  /**
   * `Push` only appends: the earlier entries stay as they were, and the `k`
   * appended entries are the resolved records of the first `k` page issues, in
   * page order, each with a mapped component.
   */
  lemma {:induction false} PushAppends(issues: seq<Issue>, m: ComponentMap, page: seq<Issue>, md5: Digest)
    ensures var r := Push(issues, m, page, md5); var k := Admitted(issues, m, page, md5);
      && 0 <= k <= |page|
      && r.issues[..|issues|] == issues
      && (forall j :: 0 <= j < k ==> Mapped(m, page[j].component))
      && (forall j :: 0 <= j < k ==>
            r.issues[|issues| + j] == Resolve(page[j], m[page[j].component].value, md5))
    decreases |page|
  {
    if page != [] && Mapped(m, page[0].component) {
      var added := Resolve(page[0], m[page[0].component].value, md5);
      if !HasFingerprint(issues, added.hash) {
        var issues' := issues + [added];
        var r := Push(issues', m, page[1..], md5);
        PushAppends(issues', m, page[1..], md5);
        assert r == Push(issues, m, page, md5);
        assert r.issues[..|issues|] == r.issues[..|issues'|][..|issues|];
        forall j | 0 <= j < Admitted(issues, m, page, md5)
          ensures Mapped(m, page[j].component)
          ensures r.issues[|issues| + j] == Resolve(page[j], m[page[j].component].value, md5)
        {
          if j == 0 {
            assert r.issues[|issues|] == r.issues[..|issues'|][|issues|];
          } else {
            assert page[j] == page[1..][j - 1];
            assert |issues| + j == |issues'| + (j - 1);
          }
        }
      }
    }
  }

  /** Each appended entry carries a fingerprint that no entry before it has. */
  lemma {:induction false} PushAdmitsFresh(issues: seq<Issue>, m: ComponentMap, page: seq<Issue>, md5: Digest)
    ensures var r := Push(issues, m, page, md5); var k := Admitted(issues, m, page, md5);
      && 0 <= k <= |page|
      && forall j :: 0 <= j < k ==> !HasFingerprint(r.issues[..|issues| + j], Fingerprint(page[j], md5))
    decreases |page|
  {
    if page != [] && Mapped(m, page[0].component) {
      var added := Resolve(page[0], m[page[0].component].value, md5);
      if !HasFingerprint(issues, added.hash) {
        var issues' := issues + [added];
        var r := Push(issues', m, page[1..], md5);
        assert r == Push(issues, m, page, md5);
        PushExtends(issues', m, page[1..], md5);
        PushAdmitsFresh(issues', m, page[1..], md5);
        forall j | 0 <= j < Admitted(issues, m, page, md5)
          ensures !HasFingerprint(r.issues[..|issues| + j], Fingerprint(page[j], md5))
        {
          if j == 0 {
            assert r.issues[..|issues|] == r.issues[..|issues'|][..|issues|];
          } else {
            assert page[j] == page[1..][j - 1];
            assert |issues| + j == |issues'| + (j - 1);
          }
        }
      }
    }
  }

  /**
   * Why `Push` stops after `k` issues: the page is exhausted (no error), or
   * issue `k` has no mapped component (an error naming it), or issue `k`'s
   * fingerprint is already stored, which ends the page without an error.
   */
  lemma {:induction false} PushStops(issues: seq<Issue>, m: ComponentMap, page: seq<Issue>, md5: Digest)
    ensures var r := Push(issues, m, page, md5); var k := Admitted(issues, m, page, md5);
      && 0 <= k <= |page|
      && (k == |page| ==> r.error == None)
      && (k < |page| && !Mapped(m, page[k].component) ==>
            r.error == Some(UnresolvedComponent(page[k].component)))
      && (k < |page| && Mapped(m, page[k].component) ==>
            r.error == None && HasFingerprint(r.issues, Fingerprint(page[k], md5)))
    decreases |page|
  {
    PushAppends(issues, m, page, md5);
    if page != [] && Mapped(m, page[0].component) {
      var added := Resolve(page[0], m[page[0].component].value, md5);
      if !HasFingerprint(issues, added.hash) {
        var issues' := issues + [added];
        PushStops(issues', m, page[1..], md5);
        var k := Admitted(issues, m, page, md5);
        if k < |page| {
          assert page[k] == page[1..][k - 1];
        }
      }
    }
  }

  /** `pushIssues` keeps the run invariant, whether it completes, returns early or throws. */
  lemma {:induction false} PushKeepsConsistent(issues: seq<Issue>, m: ComponentMap, page: seq<Issue>, md5: Digest)
    requires Consistent(issues, m)
    ensures Consistent(Push(issues, m, page, md5).issues, m)
    decreases |page|
  {
    if page != [] && Mapped(m, page[0].component) {
      var added := Resolve(page[0], m[page[0].component].value, md5);
      if !HasFingerprint(issues, added.hash) {
        var issues' := issues + [added];
        forall i | 0 <= i < |issues|
          ensures issues'[i].hash != issues'[|issues|].hash
        {
          assert issues[i].hash != added.hash;
        }
        assert Consistent(issues', m);
        PushKeepsConsistent(issues', m, page[1..], md5);
      }
    }
  }

  /** Merging a page's components keeps the run invariant: no key is removed. */
  lemma MergeKeepsConsistent(issues: seq<Issue>, m: ComponentMap, comps: seq<Component>)
    requires Consistent(issues, m)
    ensures Consistent(issues, MergeComponents(m, comps))
  {
  }

  /**
   * Two issues of one page with one fingerprint, the first of them new: only the
   * first is stored, and the page does not fail.
   */
  lemma {:induction false} DuplicateKeepsFirst(issues: seq<Issue>, m: ComponentMap, a: Issue, b: Issue, md5: Digest)
    requires Mapped(m, a.component) && Mapped(m, b.component)
    requires Fingerprint(a, md5) == Fingerprint(b, md5)
    requires !HasFingerprint(issues, Fingerprint(a, md5))
    ensures Push(issues, m, [a, b], md5) == PushResult(issues + [Resolve(a, m[a.component].value, md5)], None)
  {
    var added := Resolve(a, m[a.component].value, md5);
    assert [a, b][1..] == [b];
    assert (issues + [added])[|issues|] == added;
    assert HasFingerprint(issues + [added], Fingerprint(b, md5));
  }
}
