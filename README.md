# gomod-github-changelog, modelled in Dafny

`gomod-github-changelog` writes the commit message for a bump of one Go
module dependency. `run` does the following:

1. It checks that it was given exactly two arguments, owner and project.
2. It reads the old and the new pinned revision from the staged `go.mod` diff, with a bash pipeline run once per side.
3. It asks the GitHub compare endpoint for the commits between the two revisions.
4. It decodes the JSON answer.
5. It formats a changelog with a `strings.Builder`.
6. It prints the changelog.

`main` prints any error from `run` and exits with status 1.

The project models all of `main.go` except its external calls:

- `text.dfy`, module `Text`: byte-string helpers. These are a byte search, `strings.TrimSpace`, and splitting text into lines and joining it back (`Lines`, `Unlines`). A Go string is a sequence of bytes, so a Dafny `string` holds one char per byte.
- `version.dfy`, module `Version`: `getVersion`.
  - The bash command text it runs is `DiffCommand`.
  - The outcome of that command, its standard output or the error of running it, is a parameter.
  - `GetVersion` is the trim-and-length acceptance check.
- `compare.dfy`, module `Compare`: the compare URL built at `main.go:42`.
  - `ParseCompareUrl` reads such a URL back into its parts.
  - It is the partner used to prove that the URL determines the request.
- `formatter.dfy`, module `Formatter`: the report.
  - The Go types `Response`, `ResponseCommit` and `ResponseCommitCommit` are datatypes.
  - `strings.Builder` is a class `Builder` whose `WriteString` appends to its buffer.
  - `FormatReport` is the imperative loop of `run`. It is proved equal to the recursive function `Report`.
  - The layout is then proved about `Report`, also as a list of lines (`ReportLines`).
  - `FirstLine` is the first token of a `bufio.Scanner` that splits lines. The inner `for sc.Scan() { …; break }` runs at most once, so it is an `if`.
- `pipeline.dfy`, module `Pipeline`: `run` and `main`.
  - The answers of the outside world form an `Env`: the two pipeline runs, `http.Get`, `io.ReadAll` and `json.Unmarshal`.
  - `Run` records every call to the outside world and every write to a standard stream as an `Effect`. `RunSpec` is its reference function.
  - This lets the lemmas state which error wins and that nothing is fetched or printed after a failure.
  - `Execute` is `main`. It returns the two output streams and the exit status.
- `results.dfy`, module `Results`: `Option` and `Result`.

`main` prints the error with `fmt.Println`, which writes to standard output. So a failing run writes the error text to standard output, and the model follows the code here. What is true is narrower: `run` prints nothing to standard output on any error path (`PrintsOnlyOnSuccess`). `main` then writes the error text alone (`ExecuteOnError`).

## Model

| member | source | states |
|---|---|---|
| Version.GetVersion | main.go:108-118 | A failed command becomes `CommandFailed` with its cause. Otherwise the output is accepted exactly when, trimmed of white space, it is 12 bytes long; in every other case the error is "version information not found". An accepted revision is the trimmed output: 12 bytes, with no white space at either end. |
| Text.TrimSpaceIsSlice | main.go:112 | When `s[..i]` and `s[j..]` are all white space and `s[i..j]` neither starts nor ends with white space, `TrimSpace(s)` is exactly `s[i..j]`. |
| Version.PaddedRevisionAccepted | main.go:112-118 | A 12-byte hash with white space on either side, such as the newline that `cut` adds, is accepted as exactly that hash. |
| Version.TwoMatchesRejected | main.go:112-116 | If the pipeline prints two hashes on two lines, the output is rejected with `NotFound`. Neither match is taken. |
| Compare.ParseCompareUrl | main.go:42 | Whatever it reads back rebuilds the same URL: `url == CompareUrl(owner, project, old, new)`. In what it reads, owner and project hold no `/` and the old revision is 12 bytes. |
| Compare.ParseCompareUrlRoundTrip | main.go:42 | When owner and project hold no `/` and the old revision is 12 bytes, reading the built URL back yields exactly owner, project, old and new. |
| Compare.CompareUrlInjective | main.go:42 | Two such requests that produce the same URL are the same request. |
| Formatter.FirstLine | main.go:72-76 | The scanner yields no token exactly when the message is empty. A token holds no newline and is a prefix of the message. It ends at the end of the message, at the first `\n`, or at a `\r` that ends the line. |
| Formatter.FirstLineDropsRest | main.go:72-76 | For a line without a newline, the first token of `line + "\n" + rest` is that line without a trailing `\r`, whatever `rest` holds. |
| Formatter.FirstLineOfExample | main.go:72-76 | The message "Fix bug\nDetails here" yields the token "Fix bug". |
| Formatter.Builder.WriteString | main.go:60-74 | Appends its argument to the buffer and changes nothing else. |
| Formatter.WriteHeader | main.go:59-64 | The five header writes append exactly `Header(owner, project, old, new)`. |
| Formatter.WriteEntry | main.go:66-77 | One loop iteration appends a `\n` when the index is not 0, then `"  - " + sha + "\n"`, then the indented first line of the message, if there is one. |
| Formatter.FormatReport | main.go:59-79 | The builder's final text equals `Report(owner, project, old, new, commits)`. A loop invariant keeps the buffer equal to the report of the commits seen so far. |
| Formatter.ReportStep | main.go:66-77 | The report of the first i+1 commits is the report of the first i, followed by commit i's separator and entry. |
| Formatter.ReportAsLines | main.go:59-77 | The report is its header lines and entry lines, each ended by `\n`, in order. |
| Formatter.ReportLinesExact | main.go:59-77 | When names, revisions and commit ids hold no newline, splitting the report at newlines gives back exactly the header lines and the entry lines. |
| Formatter.ReportStartsWithHeader | main.go:60-64 | Whatever the commits, the report starts with `Bump github.com/<owner>/<project>\n\n<old> -> <new>\n\nCommits:\n`. |
| Formatter.ReportWithoutCommits | main.go:64-66 | With no commits the report is exactly that header: the five header lines, the last one "Commits:". |
| Formatter.ReportKeepsOrder | main.go:66-77 | The report for the first i commits is a prefix of the whole report, so entries appear in response order. |
| Formatter.EntryLinesShape | main.go:71-76 | An entry has one or two lines. The first is `"  - " + sha`. The second exists exactly when the message is not empty, and it is `"    "` followed by a newline-free prefix of the message. |
| Formatter.EntryKeepsFirstLineOnly | main.go:72-76 | For the message `line + "\n" + rest`, the entry is exactly `"  - " + sha` and `"    " + line`. Nothing from `rest` appears. |
| Formatter.SeparatorCount | main.go:67-69 | With n ≥ 1 commits, the entry lines contain exactly n-1 blank separator lines. |
| Pipeline.Run | main.go:23-80 | The error and the effect trace of `run` equal `RunSpec(args, env)`. |
| Pipeline.ArgumentsCheckedFirst | main.go:24-27 | The error is "invalid arguments" exactly when `os.Args` does not hold the program name plus two arguments. Then the usage line on standard error is the only effect. |
| Pipeline.OldVersionCheckedBeforeNew | main.go:32-40 | When the old revision fails, that error is returned, wrapped as the old-version error. Only the "-" command has run. The answer for the new revision does not matter. |
| Pipeline.FetchOnlyWithBothRevisions | main.go:32-44 | The compare endpoint is queried only after both revisions are accepted. Before the query exactly the "-" and "+" commands have run. The URL is the one built from the two accepted 12-byte revisions. |
| Pipeline.PrintsOnlyOnSuccess | main.go:44-80 | `run` prints exactly when every step succeeds. On success it prints once, as the sixth and last effect: the report of the decoded commits plus Println's newline. |
| Pipeline.ExecuteOnSuccess | main.go:79-80 | On success the process writes only the report, followed by a newline, to standard output. It writes nothing to standard error and exits with 0. |
| Pipeline.ExecuteOnError | main.go:16-21 | On failure standard output holds only the error text and a newline. Standard error holds the usage line only for wrong arguments. The exit status is 1. |
| Pipeline.OldAndNewErrorsDiffer | main.go:32-40 | The old-revision and new-revision errors can be told apart by their text. |

## Left out

- The bash pipeline `git diff --cached go.mod | grep … | cut …` is an external process. Only its command text (`Version.DiffCommand`) and its outcome, a parameter, are modelled. It inherits the process's standard input, which is not modelled.
- The `Env` is fixed before the run. In the program, the HTTP answer depends on the URL requested. The model records that URL in the trace instead.
- The model does not read the response body bytes. `json.Unmarshal` is represented by its result: the decoded commits, or an error.
- `http.Get` and `io.ReadAll` are network I/O. The HTTP status code is not inspected by the program either, so there is nothing more to model there.
- The response body is never closed in the program. Resource release is not modelled.
- Text.TrimSpace: removes ASCII white space only. Go's `strings.TrimSpace` also trims Unicode white space, such as U+0085 and U+00A0 encoded in UTF-8. The model has no UTF-8 decoding.
- Formatter.FirstLine: does not model `bufio.Scanner`'s 64 KiB token limit. A first line longer than that makes `Scan` fail in the program, so no message line is written.
- `os.Exit` is the `exitCode` of `Pipeline.ProcessResult`. Write errors from `fmt.Println` and `fmt.Fprintln` are ignored, as the program ignores them.
- `main.go` reads the diff only through the external command. Reading diff text from standard input is not part of this model.
