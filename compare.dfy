/**
 * The GitHub compare endpoint queried by run in main.go, and a reading of
 * such a URL back into its parts, which shows that the URL determines the
 * repository and the two revisions.
 */
module Compare {
  import opened Results
  import opened Text
  import Version

  const ReposPrefix := "https://api.github.com/repos/"
  const CompareSegment := "compare/"
  const RangeDots := "..."

  /** The endpoint listing the commits between revisions `oldVersion` and `newVersion` of owner/project. */
  function CompareUrl(owner: string, project: string, oldVersion: string, newVersion: string): string {
    ReposPrefix + owner + "/" + project + "/" + CompareSegment + oldVersion + RangeDots + newVersion
  }

  /** The URL as the nested concatenation that ParseCompareUrl takes apart. */
  lemma CompareUrlNested(owner: string, project: string, oldVersion: string, newVersion: string)
    ensures CompareUrl(owner, project, oldVersion, newVersion)
         == ReposPrefix + (owner + "/" + (project + "/" + (CompareSegment + oldVersion + RangeDots + newVersion)))
  {
  }

  datatype CompareTarget = CompareTarget(owner: string, project: string, oldVersion: string, newVersion: string)

  /**
   * The text before and after the first `c` in `s`, or None when `s` has no
   * `c` (Go's strings.Cut).
   */
  function Cut(s: string, c: char): (r: Option<(string, string)>)
    ensures r.None? <==> c !in s
    ensures r.Some? ==> c !in r.value.0 && s == r.value.0 + [c] + r.value.1
  {
    var i := IndexOf(s, c);
    if i == |s| then None
    else
      assert s == s[..i] + [c] + s[i + 1..];
      assert forall k :: 0 <= k < i ==> s[..i][k] == s[k];
      Some((s[..i], s[i + 1..]))
  }

  lemma CutAt(x: string, c: char, y: string)
    requires c !in x
    ensures Cut(x + [c] + y, c) == Some((x, y))
  {
    var s := x + [c] + y;
    IndexOfAfter(x, c, y);
    assert s[..|x|] == x && s[|x| + 1..] == y;
  }

  /** The `compare/<old>...<new>` part of the URL, old revision twelve bytes long. */
  function ParseRange(range: string): (r: Option<(string, string)>)
    ensures r.Some? ==> |r.value.0| == Version.RevisionLength
    ensures r.Some? ==> range == CompareSegment + r.value.0 + RangeDots + r.value.1
  {
    var n := |CompareSegment| + Version.RevisionLength;
    if CompareSegment <= range && |range| >= n + |RangeDots| && range[n..n + |RangeDots|] == RangeDots then
      assert range == range[..|CompareSegment|] + range[|CompareSegment|..n] + range[n..n + |RangeDots|] + range[n + |RangeDots|..];
      Some((range[|CompareSegment|..n], range[n + |RangeDots|..]))
    else None
  }

  lemma ParseRangeAt(oldVersion: string, newVersion: string)
    requires |oldVersion| == Version.RevisionLength
    ensures ParseRange(CompareSegment + oldVersion + RangeDots + newVersion) == Some((oldVersion, newVersion))
  {
    var range := CompareSegment + oldVersion + RangeDots + newVersion;
    var n := |CompareSegment| + Version.RevisionLength;
    assert range[..|CompareSegment|] == CompareSegment;
    assert range[|CompareSegment|..n] == oldVersion;
    assert range[n..n + |RangeDots|] == RangeDots;
    assert range[n + |RangeDots|..] == newVersion;
  }

  /**
   * Reads a compare URL whose old revision is twelve bytes long back into
   * owner, project, old and new revision; the URL built from those parts is
   * the one read.
   */
  function ParseCompareUrl(url: string): (t: Option<CompareTarget>)
    ensures t.Some? ==> '/' !in t.value.owner && '/' !in t.value.project
    ensures t.Some? ==> |t.value.oldVersion| == Version.RevisionLength
    ensures t.Some? ==> url == CompareUrl(t.value.owner, t.value.project, t.value.oldVersion, t.value.newVersion)
  {
    if !(ReposPrefix <= url) then None
    else
      match Cut(url[|ReposPrefix|..], '/')
      case None => None
      case Some((owner, rest)) =>
        match Cut(rest, '/')
        case None => None
        case Some((project, range)) =>
          match ParseRange(range)
          case None => None
          case Some((oldVersion, newVersion)) =>
            assert url == ReposPrefix + url[|ReposPrefix|..];
            CompareUrlNested(owner, project, oldVersion, newVersion);
            Some(CompareTarget(owner, project, oldVersion, newVersion))
  }

  /** Reading back the URL built from validated revisions yields the same request. */
  lemma ParseCompareUrlRoundTrip(owner: string, project: string, oldVersion: string, newVersion: string)
    requires '/' !in owner && '/' !in project
    requires |oldVersion| == Version.RevisionLength
    ensures ParseCompareUrl(CompareUrl(owner, project, oldVersion, newVersion)) == Some(CompareTarget(owner, project, oldVersion, newVersion))
  {
    var range := CompareSegment + oldVersion + RangeDots + newVersion;
    var rest := project + "/" + range;
    var url := CompareUrl(owner, project, oldVersion, newVersion);
    CompareUrlNested(owner, project, oldVersion, newVersion);
    assert url[|ReposPrefix|..] == owner + "/" + rest;
    CutAt(owner, '/', rest);
    CutAt(project, '/', range);
    ParseRangeAt(oldVersion, newVersion);
  }

  /** Distinct requests with validated revisions go to distinct URLs. */
  lemma CompareUrlInjective(a: CompareTarget, b: CompareTarget)
    requires '/' !in a.owner && '/' !in a.project && |a.oldVersion| == Version.RevisionLength
    requires '/' !in b.owner && '/' !in b.project && |b.oldVersion| == Version.RevisionLength
    requires CompareUrl(a.owner, a.project, a.oldVersion, a.newVersion) == CompareUrl(b.owner, b.project, b.oldVersion, b.newVersion)
    ensures a == b
  {
    ParseCompareUrlRoundTrip(a.owner, a.project, a.oldVersion, a.newVersion);
    ParseCompareUrlRoundTrip(b.owner, b.project, b.oldVersion, b.newVersion);
  }
}
