/**
 * getVersion in main.go: the revision of one side of the staged go.mod diff.
 *
 * The shell pipeline that produces the candidate text is an external process;
 * its outcome (standard output, or the error of running it) is a parameter.
 * What is modelled is the command text handed to bash and the acceptance of
 * its output: trimmed of surrounding white space, it must be exactly twelve
 * bytes long.
 */
module Version {
  import opened Results
  import opened Text

  datatype VersionError =
    | CommandFailed(cause: string)   // running the pipeline failed
    | NotFound                       // its trimmed output is not twelve bytes long

  /** Length in bytes of the short commit hash ending a pseudo-version. */
  const RevisionLength: nat := 12

  /**
   * The bash command run for one side of the diff: `ch` is "-" for the old
   * version and "+" for the new one. Owner and project are pasted in unquoted.
   */
  function DiffCommand(owner: string, project: string, ch: string): string {
    "git diff --cached go.mod | grep \"github.com/" + owner + "/" + project + "\" | grep -- \""
      + ch + "\t\" | cut -f\"2\" | cut -d\" \" -f\"2\" | cut -d\"-\" -f\"3\""
  }

  /** The user-visible text of a version error. */
  function VersionErrorText(e: VersionError): string {
    match e
    case CommandFailed(cause) => "command failed: " + cause
    case NotFound => "version information not found"
  }

  /**
   * getVersion, given the outcome of the pipeline: a failed command is
   * wrapped, otherwise the trimmed output is the revision if and only if it
   * is twelve bytes long.
   */
  function GetVersion(out: Result<string, string>): (r: Result<string, VersionError>)
    ensures out.Err? ==> r == Err(CommandFailed(out.error))
    ensures out.Ok? ==> (r.Ok? <==> |TrimSpace(out.value)| == RevisionLength)
    ensures out.Ok? && r.Err? ==> r.error == NotFound
    ensures r.Ok? ==> out.Ok? && r.value == TrimSpace(out.value)
    ensures r.Ok? ==> |r.value| == RevisionLength && !IsSpace(r.value[0]) && !IsSpace(r.value[RevisionLength - 1])
  {
    match out
    case Err(cause) => Err(CommandFailed(cause))
    case Ok(stdout) =>
      var version := TrimSpace(stdout);
      if |version| != RevisionLength then Err(NotFound) else Ok(version)
  }

  /** A twelve-byte hash surrounded by white space (such as cut's "\n") is accepted as it is. */
  lemma PaddedRevisionAccepted(lead: string, hash: string, trail: string)
    requires AllSpace(lead) && AllSpace(trail)
    requires |hash| == RevisionLength && !IsSpace(hash[0]) && !IsSpace(hash[RevisionLength - 1])
    ensures GetVersion(Ok(lead + hash + trail)) == Ok(hash)
  {
    var s := lead + hash + trail;
    var i, j := |lead|, |lead| + |hash|;
    assert forall m :: 0 <= m < i ==> s[m] == lead[m];
    assert forall m :: j <= m < |s| ==> s[m] == trail[m - j];
    assert s[i] == hash[0] && s[j - 1] == hash[RevisionLength - 1];
    assert s[i..j] == hash;
    TrimSpaceIsSlice(s, i, j);
  }

  /**
   * When the diff holds two matching lines, the pipeline prints two hashes on
   * two lines; the joined text is not twelve bytes long, so it is rejected
   * rather than resolved to either match.
   */
  lemma TwoMatchesRejected(first: string, second: string, trail: string)
    requires |first| == RevisionLength && !IsSpace(first[0])
    requires |second| == RevisionLength && !IsSpace(second[RevisionLength - 1])
    requires AllSpace(trail)
    ensures GetVersion(Ok(first + "\n" + second + trail)) == Err(NotFound)
  {
    var s := first + "\n" + second + trail;
    var j := 2 * RevisionLength + 1;
    assert forall m :: j <= m < |s| ==> s[m] == trail[m - j];
    assert s[0] == first[0] && s[j - 1] == second[RevisionLength - 1];
    TrimSpaceIsSlice(s, 0, j);
  }
}
