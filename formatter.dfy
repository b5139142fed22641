/**
 * The changelog text that run in main.go builds once the compare response is
 * decoded: a fixed header, then one entry per commit in response order, each
 * entry the short identifier line and at most one line of the message, with
 * a blank line between consecutive entries.
 */
module Formatter {
  import opened Results
  import opened Text

  /** The decoded JSON response of the compare endpoint (the fields main.go reads). */
  datatype ResponseCommitCommit = ResponseCommitCommit(message: string)
  datatype ResponseCommit = ResponseCommit(sha: string, commit: ResponseCommitCommit)
  datatype Response = Response(commits: seq<ResponseCommit>)

  /** strings.Builder: a text buffer that is only ever appended to. */
  class Builder {
    var buf: string

    constructor ()
      ensures buf == []
    {
      buf := [];
    }

    method WriteString(s: string)
      modifies this
      ensures buf == old(buf) + s
    {
      buf := buf + s;
    }

    function String(): string
      reads this
    {
      buf
    }
  }

  /** Removes one trailing carriage return, as bufio.ScanLines does with each line. */
  function DropCR(s: string): string {
    if |s| > 0 && s[|s| - 1] == '\r' then s[..|s| - 1] else s
  }

  /**
   * The first token a bufio.Scanner with the default line splitting yields
   * for `message`: None for an empty message, otherwise the text before the
   * first "\n" (all of it if there is none) without a trailing "\r".
   */
  function FirstLine(message: string): (r: Option<string>)
    ensures r.None? <==> message == []
    ensures r.Some? ==> NoNewline(r.value) && r.value <= message
    ensures r.Some? ==>
      var n := |r.value|;
      n == |message| || message[n] == '\n' || (message[n] == '\r' && (n + 1 == |message| || message[n + 1] == '\n'))
  {
    if message == [] then None
    else
      var line := message[..IndexOf(message, '\n')];
      assert forall k :: 0 <= k < |line| ==> line[k] == message[k];
      assert DropCR(line) <= line;
      Some(DropCR(line))
  }

  /** Whatever follows the first "\n" of a message is never part of its first line. */
  lemma FirstLineDropsRest(line: string, rest: string)
    requires NoNewline(line)
    ensures FirstLine(line + "\n" + rest) == Some(DropCR(line))
  {
    IndexOfAfter(line, '\n', rest);
    assert (line + "\n" + rest)[..|line|] == line;
  }

  /** The text written before the loop over the commits, one write after the other. */
  function Header(owner: string, project: string, oldVersion: string, newVersion: string): string {
    "Bump github.com/" + owner + "/" + project + "\n"
      + "\n"
      + (oldVersion + " -> " + newVersion + "\n")
      + "\n"
      + "Commits:\n"
  }

  /** The indented first line of the commit message, if the scanner yields one. */
  function MessageText(c: ResponseCommit): string {
    match FirstLine(c.commit.message)
    case Some(line) => "    " + line + "\n"
    case None => ""
  }

  /** The blank line written before every entry but the first. */
  function Separator(i: nat): string {
    if i > 0 then "\n" else ""
  }

  /**
   * The report, as builder.String() returns it (without Println's newline):
   * the header, then what each iteration of the loop over `commits` writes.
   */
  function Report(owner: string, project: string, oldVersion: string, newVersion: string,
                  commits: seq<ResponseCommit>): string {
    if commits == [] then Header(owner, project, oldVersion, newVersion)
    else
      var n := |commits| - 1;
      Report(owner, project, oldVersion, newVersion, commits[..n])
        + Separator(n) + ("  - " + commits[n].sha + "\n") + MessageText(commits[n])
  }

  /** One more commit adds one more entry at the end of the report. */
  lemma ReportStep(owner: string, project: string, oldVersion: string, newVersion: string,
                   commits: seq<ResponseCommit>, i: nat)
    requires i < |commits|
    ensures Report(owner, project, oldVersion, newVersion, commits[..i + 1])
         == Report(owner, project, oldVersion, newVersion, commits[..i])
            + Separator(i) + ("  - " + commits[i].sha + "\n") + MessageText(commits[i])
  {
    assert commits[..i + 1][..i] == commits[..i];
  }

  /** The body of the loop over the commits: one entry, after a blank line unless it is the first. */
  method WriteEntry(builder: Builder, commit: ResponseCommit, i: nat)
    modifies builder
    ensures builder.buf == old(builder.buf) + Separator(i) + ("  - " + commit.sha + "\n") + MessageText(commit)
  {
    if i > 0 {
      builder.WriteString("\n");
    } else {
      assert builder.buf + Separator(i) == builder.buf;
    }
    builder.WriteString("  - " + commit.sha + "\n");
    ghost var entry := builder.buf;
    // the scanner loop writes its first token, if any, and breaks
    var line := FirstLine(commit.commit.message);
    if line.Some? {
      builder.WriteString("    " + line.value + "\n");
    } else {
      assert entry + MessageText(commit) == entry;
    }
  }

  /** Writes the title, the version range and the "Commits:" line. */
  method WriteHeader(builder: Builder, owner: string, project: string, oldVersion: string, newVersion: string)
    modifies builder
    ensures builder.buf == old(builder.buf) + Header(owner, project, oldVersion, newVersion)
  {
    builder.WriteString("Bump github.com/" + owner + "/" + project + "\n");
    builder.WriteString("\n");
    builder.WriteString(oldVersion + " -> " + newVersion + "\n");
    builder.WriteString("\n");
    builder.WriteString("Commits:\n");
  }

  /** The report-building code of run: the strings.Builder and the loop over the commits. */
  method FormatReport(owner: string, project: string, oldVersion: string, newVersion: string,
                      response: Response) returns (report: string)
    ensures report == Report(owner, project, oldVersion, newVersion, response.commits)
  {
    var builder := new Builder();
    WriteHeader(builder, owner, project, oldVersion, newVersion);
    var commits := response.commits;
    assert commits[..0] == [];

    for i := 0 to |commits|
      invariant builder.buf == Report(owner, project, oldVersion, newVersion, commits[..i])
    {
      WriteEntry(builder, commits[i], i);
      ReportStep(owner, project, oldVersion, newVersion, commits, i);
    }
    assert commits[..|commits|] == commits;
    report := builder.String();
  }

  // ---------------------------------------------------------------------------
  // The layout, line by line

  function HeaderLines(owner: string, project: string, oldVersion: string, newVersion: string): seq<string> {
    ["Bump github.com/" + owner + "/" + project, "", oldVersion + " -> " + newVersion, "", "Commits:"]
  }

  /** A commit's entry: its identifier, then at most the first line of its message. */
  function EntryLines(c: ResponseCommit): seq<string> {
    ["  - " + c.sha] + match FirstLine(c.commit.message) case Some(line) => ["    " + line] case None => []
  }

  /** The blank line before every entry but the first. */
  function SeparatorLines(i: nat): seq<string> {
    if i > 0 then [""] else []
  }

  /** The entries in commit order, a blank line between each two of them. */
  function EntriesLines(commits: seq<ResponseCommit>): seq<string> {
    if commits == [] then []
    else
      var n := |commits| - 1;
      EntriesLines(commits[..n]) + SeparatorLines(n) + EntryLines(commits[n])
  }

  function ReportLines(owner: string, project: string, oldVersion: string, newVersion: string,
                       commits: seq<ResponseCommit>): seq<string> {
    HeaderLines(owner, project, oldVersion, newVersion) + EntriesLines(commits)
  }

  lemma HeaderAsLines(owner: string, project: string, oldVersion: string, newVersion: string)
    ensures Header(owner, project, oldVersion, newVersion) == Unlines(HeaderLines(owner, project, oldVersion, newVersion))
  {
    var title, range := "Bump github.com/" + owner + "/" + project, oldVersion + " -> " + newVersion;
    FiveLines(title, "", range, "", "Commits:");
    assert "" + "\n" == "\n";
    assert "Commits:" + "\n" == "Commits:\n";
  }

  /** Five lines, as text, each followed by a newline. */
  lemma FiveLines(a: string, b: string, c: string, d: string, e: string)
    ensures Unlines([a, b, c, d, e]) == a + "\n" + (b + "\n") + (c + "\n") + (d + "\n") + (e + "\n")
  {
    var l1 := [] + [a];
    var l2 := l1 + [b];
    var l3 := l2 + [c];
    var l4 := l3 + [d];
    var l5 := l4 + [e];
    UnlinesSnoc([], a);
    UnlinesSnoc(l1, b);
    UnlinesSnoc(l2, c);
    UnlinesSnoc(l3, d);
    UnlinesSnoc(l4, e);
    assert [a, b, c, d, e] == l5;
  }

  /** The separator, as text, is its lines. */
  lemma SeparatorAsLines(lines: seq<string>, i: nat)
    ensures Unlines(lines + SeparatorLines(i)) == Unlines(lines) + Separator(i)
  {
    if i > 0 {
      UnlinesSnoc(lines, "");
      assert "" + "\n" == "\n";
    } else {
      assert lines + [] == lines;
      assert Unlines(lines) + "" == Unlines(lines);
    }
  }

  /** A commit's entry, as text, is its lines. */
  lemma EntryAsLines(lines: seq<string>, c: ResponseCommit)
    ensures Unlines(lines + EntryLines(c)) == Unlines(lines) + ("  - " + c.sha + "\n") + MessageText(c)
  {
    var id := "  - " + c.sha;
    UnlinesSnoc(lines, id);
    match FirstLine(c.commit.message)
    case Some(line) =>
      assert lines + EntryLines(c) == lines + [id] + ["    " + line];
      UnlinesSnoc(lines + [id], "    " + line);
    case None =>
      assert lines + EntryLines(c) == lines + [id];
      assert Unlines(lines + [id]) + "" == Unlines(lines + [id]);
  }

  /** The report is exactly its header lines and entry lines, each ended by "\n". */
  lemma {:induction false} ReportAsLines(owner: string, project: string, oldVersion: string, newVersion: string,
                                         commits: seq<ResponseCommit>)
    ensures Report(owner, project, oldVersion, newVersion, commits)
         == Unlines(ReportLines(owner, project, oldVersion, newVersion, commits))
  {
    var hl := HeaderLines(owner, project, oldVersion, newVersion);
    if commits == [] {
      HeaderAsLines(owner, project, oldVersion, newVersion);
      assert hl + [] == hl;
    } else {
      var n := |commits| - 1;
      var init, last := commits[..n], commits[n];
      ReportAsLines(owner, project, oldVersion, newVersion, init);
      var lines := hl + EntriesLines(init);
      SeparatorAsLines(lines, n);
      EntryAsLines(lines + SeparatorLines(n), last);
      ConcatAssoc(hl, EntriesLines(init), SeparatorLines(n), EntryLines(last));
    }
  }

  // ---------------------------------------------------------------------------
  // What the layout guarantees

  /** Whatever the commits, the report begins with the header. */
  lemma {:induction false} ReportStartsWithHeader(owner: string, project: string, oldVersion: string, newVersion: string,
                                                  commits: seq<ResponseCommit>)
    ensures Header(owner, project, oldVersion, newVersion) <= Report(owner, project, oldVersion, newVersion, commits)
  {
    if commits != [] {
      var n := |commits| - 1;
      ReportStartsWithHeader(owner, project, oldVersion, newVersion, commits[..n]);
    }
  }

  lemma PrefixExtends(a: string, b: string, c: string, d: string, e: string)
    requires a <= b
    ensures a <= b + c + d + e
  {
    assert b + c + d + e == b + (c + d + e);
  }

  /** Entries keep the order of the commits: the report for the first i commits is the start of the whole report. */
  lemma {:induction false} ReportKeepsOrder(owner: string, project: string, oldVersion: string, newVersion: string,
                                            commits: seq<ResponseCommit>, i: nat)
    requires i <= |commits|
    ensures Report(owner, project, oldVersion, newVersion, commits[..i])
         <= Report(owner, project, oldVersion, newVersion, commits)
    decreases |commits| - i
  {
    if i < |commits| {
      ReportKeepsOrder(owner, project, oldVersion, newVersion, commits, i + 1);
      ReportStep(owner, project, oldVersion, newVersion, commits, i);
      var shorter := Report(owner, project, oldVersion, newVersion, commits[..i]);
      PrefixExtends(shorter, shorter, Separator(i), "  - " + commits[i].sha + "\n", MessageText(commits[i]));
    } else {
      assert commits[..i] == commits;
    }
  }

  /** Without commits the report is the header alone, ending with the "Commits:" line. */
  lemma ReportWithoutCommits(owner: string, project: string, oldVersion: string, newVersion: string)
    ensures Report(owner, project, oldVersion, newVersion, []) == Header(owner, project, oldVersion, newVersion)
    ensures ReportLines(owner, project, oldVersion, newVersion, [])
         == ["Bump github.com/" + owner + "/" + project, "", oldVersion + " -> " + newVersion, "", "Commits:"]
  {
  }

  /** An entry is its identifier line, then a message line exactly when the message is not empty. */
  lemma EntryLinesShape(c: ResponseCommit)
    ensures 1 <= |EntryLines(c)| <= 2
    ensures EntryLines(c)[0] == "  - " + c.sha
    ensures |EntryLines(c)| == 2 <==> c.commit.message != []
    ensures |EntryLines(c)| == 2 ==>
      var line := EntryLines(c)[1][4..];
      EntryLines(c)[1] == "    " + line && NoNewline(line) && line <= c.commit.message
  {
    match FirstLine(c.commit.message)
    case Some(line) =>
      assert EntryLines(c) == ["  - " + c.sha, "    " + line];
      assert ("    " + line)[4..] == line;
    case None =>
  }

  /** A two-line message yields its first line alone. */
  lemma FirstLineOfExample()
    ensures FirstLine("Fix bug\nDetails here") == Some("Fix bug")
  {
    assert "Fix bug\nDetails here" == "Fix bug" + "\n" + "Details here";
    FirstLineDropsRest("Fix bug", "Details here");
    assert DropCR("Fix bug") == "Fix bug";
  }

  /** A message of several lines yields the entry "  - <sha>", "    <first line>": the rest of the message is dropped. */
  lemma EntryKeepsFirstLineOnly(sha: string, line: string, rest: string)
    requires NoNewline(line)
    ensures EntryLines(ResponseCommit(sha, ResponseCommitCommit(line + "\n" + rest))) == ["  - " + sha, "    " + DropCR(line)]
  {
    FirstLineDropsRest(line, rest);
  }

  predicate LinesWithoutNewline(ls: seq<string>) {
    forall k :: 0 <= k < |ls| ==> NoNewline(ls[k])
  }

  lemma NoNewlineConcat(a: seq<string>, b: seq<string>)
    requires LinesWithoutNewline(a) && LinesWithoutNewline(b)
    ensures LinesWithoutNewline(a + b)
  {
    forall k | 0 <= k < |a + b| ensures NoNewline((a + b)[k]) {
      if k < |a| { assert (a + b)[k] == a[k]; } else { assert (a + b)[k] == b[k - |a|]; }
    }
  }

  predicate ShasWithoutNewline(commits: seq<ResponseCommit>) {
    forall k :: 0 <= k < |commits| ==> NoNewline(commits[k].sha)
  }

  lemma {:induction false} EntriesLinesWithoutNewline(commits: seq<ResponseCommit>)
    requires ShasWithoutNewline(commits)
    ensures LinesWithoutNewline(EntriesLines(commits))
  {
    if commits != [] {
      var n := |commits| - 1;
      assert ShasWithoutNewline(commits[..n]) by {
        forall k | 0 <= k < n ensures NoNewline(commits[..n][k].sha) { assert commits[..n][k] == commits[k]; }
      }
      EntriesLinesWithoutNewline(commits[..n]);
      var c := commits[n];
      assert LinesWithoutNewline(EntryLines(c)) by {
        match FirstLine(c.commit.message)
        case Some(line) =>
          assert EntryLines(c) == ["  - " + c.sha, "    " + line];
        case None =>
          assert EntryLines(c) == ["  - " + c.sha];
      }
      NoNewlineConcat(EntriesLines(commits[..n]), SeparatorLines(n));
      NoNewlineConcat(EntriesLines(commits[..n]) + SeparatorLines(n), EntryLines(c));
    }
  }

  /**
   * When the names, revisions and commit identifiers hold no newline, the
   * report splits into exactly the header lines and the entry lines.
   */
  lemma ReportLinesExact(owner: string, project: string, oldVersion: string, newVersion: string,
                         commits: seq<ResponseCommit>)
    requires NoNewline(owner) && NoNewline(project) && NoNewline(oldVersion) && NoNewline(newVersion)
    requires ShasWithoutNewline(commits)
    ensures Lines(Report(owner, project, oldVersion, newVersion, commits))
         == ReportLines(owner, project, oldVersion, newVersion, commits)
  {
    var hl := HeaderLines(owner, project, oldVersion, newVersion);
    assert LinesWithoutNewline(hl);
    EntriesLinesWithoutNewline(commits);
    NoNewlineConcat(hl, EntriesLines(commits));
    ReportAsLines(owner, project, oldVersion, newVersion, commits);
    LinesUnlines(ReportLines(owner, project, oldVersion, newVersion, commits));
  }

  /** The blank separator lines among the entries: one fewer than there are commits. */
  lemma {:induction false} SeparatorCount(commits: seq<ResponseCommit>)
    requires commits != []
    ensures multiset(EntriesLines(commits))[""] == |commits| - 1
  {
    var n := |commits| - 1;
    var c := commits[n];
    assert multiset(EntryLines(c))[""] == 0 by {
      match FirstLine(c.commit.message)
      case Some(line) =>
        assert EntryLines(c) == ["  - " + c.sha, "    " + line];
        assert "  - " + c.sha != "" && "    " + line != "";
      case None =>
        assert EntryLines(c) == ["  - " + c.sha];
        assert "  - " + c.sha != "";
    }
    if n > 0 {
      SeparatorCount(commits[..n]);
    }
  }
}
