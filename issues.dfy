/**
 * The SonarQube issue record as the client receives it, and the content
 * fingerprint the client computes for it (src/lib/sonarqube.ts).
 */
module Issues {
  import opened Wrappers
  import Decimal

  /** The five severity levels; `getIssues` fetches one partition per level. */
  datatype Severity = Info | Minor | Major | Critical | Blocker

  datatype IssueStatus = Open | Closed

  /** The issue type; `Untyped` is the empty string the interface allows. */
  datatype IssueType = CodeSmell | Vulnerability | Bug | Untyped

  datatype TextRange = TextRange(startLine: int, endLine: int, startOffset: int, endOffset: int)

  /** One issue, field for field as the `SonarqubeIssue` interface declares it. */
  datatype Issue = Issue(
    key: string,
    rule: string,
    severity: Severity,
    component: string,
    project: string,
    line: string,
    hash: string,
    textRange: Option<TextRange>,
    flows: seq<string>,
    status: IssueStatus,
    message: string,
    effort: string,
    debt: string,
    author: string,
    tags: seq<string>,
    creationDate: string,
    updateDate: string,
    issueType: IssueType,
    organization: string,
    scope: string,
    path: string)

  /** The hex md5 digest, left uninterpreted: any function of the key string. */
  type Digest = string -> string

  /** JavaScript adds the four numbers before the result is concatenated as text. */
  function RangeSum(t: TextRange): int {
    t.startLine + t.endLine + t.startOffset + t.endOffset
  }

  /** The location part of the key: the rendered range sum, or the raw line. */
  function LocationText(issue: Issue): string {
    match issue.textRange
    case Some(t) => Decimal.IntToString(RangeSum(t))
    case None => issue.line
  }

  /** The string handed to md5. */
  function FingerprintKey(issue: Issue): string {
    issue.component + issue.hash + issue.rule + LocationText(issue)
  }

  function Fingerprint(issue: Issue, md5: Digest): string {
    md5(FingerprintKey(issue))
  }

  /**
   * The record `pushIssues` adds: the raw issue with `path` resolved and `hash`
   * replaced by the fingerprint, every other field as received.
   */
  function Resolve(issue: Issue, path: string, md5: Digest): (r: Issue)
    ensures r.path == path && r.hash == Fingerprint(issue, md5)
  {
    issue.(path := path, hash := Fingerprint(issue, md5))
  }

  /** Resolving touches no field but the path and the hash. */
  lemma ResolveKeepsRawFields(issue: Issue, path: string, md5: Digest)
    ensures Resolve(issue, path, md5).(path := issue.path, hash := issue.hash) == issue
  {
  }

  lemma PrefixCancel(p: string, x: string, y: string)
    ensures p + x == p + y <==> x == y
  {
    if p + x == p + y {
      assert x == (p + x)[|p|..];
      assert y == (p + y)[|p|..];
    }
  }

  /**
   * For issues that agree on component, service hash and rule, the key is the
   * same exactly when the location text is.
   */
  lemma KeyDeterminedByLocation(a: Issue, b: Issue)
    requires a.component == b.component && a.hash == b.hash && a.rule == b.rule
    ensures FingerprintKey(a) == FingerprintKey(b) <==> LocationText(a) == LocationText(b)
  {
    PrefixCancel(a.component + a.hash + a.rule, LocationText(a), LocationText(b));
  }

  /**
   * Two ranged issues that agree on component, service hash and rule have the
   * same key exactly when their four range numbers have the same sum: the key
   * sees the sum, not the individual numbers.
   */
  lemma RangedKeyIffSameSum(a: Issue, b: Issue)
    requires a.component == b.component && a.hash == b.hash && a.rule == b.rule
    requires a.textRange.Some? && b.textRange.Some?
    ensures FingerprintKey(a) == FingerprintKey(b)
            <==> RangeSum(a.textRange.value) == RangeSum(b.textRange.value)
  {
    KeyDeterminedByLocation(a, b);
    Decimal.IntToStringInjective(RangeSum(a.textRange.value), RangeSum(b.textRange.value));
  }

  /**
   * Hence one issue spanning lines 1-4 and another spanning lines 2-3 (same
   * offsets, same component, hash and rule) get one fingerprint, whatever the
   * digest.
   */
  lemma DistinctRangesShareFingerprint(a: Issue, md5: Digest)
    requires a.textRange == Some(TextRange(1, 4, 0, 10))
    ensures var b := a.(textRange := Some(TextRange(2, 3, 0, 10)));
            b != a && Fingerprint(a, md5) == Fingerprint(b, md5)
  {
  }

  /** A ranged issue and an unranged one collide when the line text equals the rendered sum. */
  lemma LineAndRangeCanCollide(a: Issue, md5: Digest)
    requires a.textRange.Some?
    ensures var b := a.(textRange := None, line := Decimal.IntToString(RangeSum(a.textRange.value)));
            Fingerprint(a, md5) == Fingerprint(b, md5)
  {
  }
}
