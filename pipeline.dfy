/**
 * run and main in main.go: check the arguments, read the old and then the new
 * revision from the staged diff, query the compare endpoint, decode its
 * answer and print the report, returning at the first failure.
 *
 * The outside world (the two runs of the diff pipeline, http.Get, io.ReadAll
 * and json.Unmarshal) is an `Env` of answers fixed in advance. Every call
 * made to it, and every write to the standard streams, is recorded in order
 * as an `Effect`, so that what happens before and after a failure can be
 * stated.
 */
module Pipeline {
  import opened Results
  import opened Text
  import opened Version
  import opened Compare
  import opened Formatter

  datatype Error =
    | InvalidArguments
    | OldVersion(versionError: VersionError)
    | NewVersion(versionError: VersionError)
    | HttpGetFailed(cause: string)
    | ReadAllFailed(cause: string)
    | UnmarshalFailed(cause: string)

  /** The text of an error, each stage's wrapping prefixed to its cause. */
  function ErrorText(e: Error): string {
    match e
    case InvalidArguments => "invalid arguments"
    case OldVersion(cause) => "error checking old version in diff: " + VersionErrorText(cause)
    case NewVersion(cause) => "error checking new version in diff: " + VersionErrorText(cause)
    case HttpGetFailed(cause) => "http get failed: " + cause
    case ReadAllFailed(cause) => "read all error: " + cause
    case UnmarshalFailed(cause) => "json unmarshal failed: " + cause
  }

  /** The answers of the outside world to each call run may make. */
  datatype Env = Env(
    oldDiff: Result<string, string>,   // the "-" pipeline: its standard output, or why it failed
    newDiff: Result<string, string>,   // the "+" pipeline
    get: Result<(), string>,           // http.Get
    read: Result<(), string>,          // io.ReadAll of the response body
    decode: Result<Response, string>)  // json.Unmarshal of the body

  /** A call to the outside world or a write to a standard stream. */
  datatype Effect =
    | Stderr(text: string)
    | Exec(command: string)
    | HttpGet(url: string)
    | ReadBody
    | Unmarshal
    | Print(text: string)

  const Usage := "Arguments: owner project\n"

  datatype Outcome = Outcome(err: Option<Error>, trace: seq<Effect>)

  /** run, as a function of the command line (os.Args, program name first) and the outside world. */
  function RunSpec(args: seq<string>, env: Env): Outcome {
    if |args| != 3 then Outcome(Some(InvalidArguments), [Stderr(Usage)])
    else
      var owner, project := args[1], args[2];
      var minus, plus := Exec(DiffCommand(owner, project, "-")), Exec(DiffCommand(owner, project, "+"));
      match GetVersion(env.oldDiff)
      case Err(e) => Outcome(Some(OldVersion(e)), [minus])
      case Ok(oldVersion) =>
        match GetVersion(env.newDiff)
        case Err(e) => Outcome(Some(NewVersion(e)), [minus, plus])
        case Ok(newVersion) =>
          var get := HttpGet(CompareUrl(owner, project, oldVersion, newVersion));
          if env.get.Err? then Outcome(Some(HttpGetFailed(env.get.error)), [minus, plus, get])
          else if env.read.Err? then Outcome(Some(ReadAllFailed(env.read.error)), [minus, plus, get, ReadBody])
          else
            match env.decode
            case Err(cause) => Outcome(Some(UnmarshalFailed(cause)), [minus, plus, get, ReadBody, Unmarshal])
            case Ok(response) =>
              var report := Report(owner, project, oldVersion, newVersion, response.commits);
              Outcome(None, [minus, plus, get, ReadBody, Unmarshal, Print(report + "\n")])
  }

  /** run: each step in turn, returning at the first failure. */
  method Run(args: seq<string>, env: Env) returns (err: Option<Error>, trace: seq<Effect>)
    ensures Outcome(err, trace) == RunSpec(args, env)
  {
    if |args| != 3 {
      trace := [Stderr(Usage)];
      return Some(InvalidArguments), trace;
    }
    var owner := args[1];
    var project := args[2];

    trace := [Exec(DiffCommand(owner, project, "-"))];
    var oldVersion := GetVersion(env.oldDiff);
    if oldVersion.Err? {
      return Some(OldVersion(oldVersion.error)), trace;
    }

    trace := trace + [Exec(DiffCommand(owner, project, "+"))];
    var newVersion := GetVersion(env.newDiff);
    if newVersion.Err? {
      return Some(NewVersion(newVersion.error)), trace;
    }

    var url := CompareUrl(owner, project, oldVersion.value, newVersion.value);

    trace := trace + [HttpGet(url)];
    if env.get.Err? {
      return Some(HttpGetFailed(env.get.error)), trace;
    }

    trace := trace + [ReadBody];
    if env.read.Err? {
      return Some(ReadAllFailed(env.read.error)), trace;
    }

    trace := trace + [Unmarshal];
    if env.decode.Err? {
      return Some(UnmarshalFailed(env.decode.error)), trace;
    }

    var report := FormatReport(owner, project, oldVersion.value, newVersion.value, env.decode.value);
    trace := trace + [Print(report + "\n")];
    err := None;
  }

  // ---------------------------------------------------------------------------
  // Which error wins, and what happens before it

  /** The argument count is checked first: nothing is run or fetched when it is wrong. */
  lemma ArgumentsCheckedFirst(args: seq<string>, env: Env)
    ensures RunSpec(args, env).err == Some(InvalidArguments) <==> |args| != 3
    ensures |args| != 3 ==> RunSpec(args, env).trace == [Stderr(Usage)]
  {
  }

  /** A failure reading the old revision is reported before the new one is looked at. */
  lemma OldVersionCheckedBeforeNew(args: seq<string>, env: Env, env': Env)
    requires |args| == 3 && GetVersion(env.oldDiff).Err?
    requires env'.oldDiff == env.oldDiff
    ensures RunSpec(args, env).err == Some(OldVersion(GetVersion(env.oldDiff).error))
    ensures RunSpec(args, env).trace == [Exec(DiffCommand(args[1], args[2], "-"))]
    ensures RunSpec(args, env') == RunSpec(args, env)
  {
  }

  /** The compare endpoint is queried only with two accepted revisions, and at the URL built from them. */
  lemma FetchOnlyWithBothRevisions(args: seq<string>, env: Env, k: nat)
    requires k < |RunSpec(args, env).trace| && RunSpec(args, env).trace[k].HttpGet?
    ensures |args| == 3 && GetVersion(env.oldDiff).Ok? && GetVersion(env.newDiff).Ok?
    ensures var oldVersion, newVersion := GetVersion(env.oldDiff).value, GetVersion(env.newDiff).value;
      RunSpec(args, env).trace[k].url == CompareUrl(args[1], args[2], oldVersion, newVersion)
      && |oldVersion| == RevisionLength && |newVersion| == RevisionLength
    ensures RunSpec(args, env).trace[..k]
         == [Exec(DiffCommand(args[1], args[2], "-")), Exec(DiffCommand(args[1], args[2], "+"))]
  {
    var o := RunSpec(args, env);
    if |args| == 3 && GetVersion(env.oldDiff).Ok? && GetVersion(env.newDiff).Ok? {
      assert k == 2;
    }
  }

  predicate Printed(trace: seq<Effect>) {
    exists k :: 0 <= k < |trace| && trace[k].Print?
  }

  /**
   * The report is printed exactly when every step succeeds, once, as the last
   * effect; no failure prints anything to standard output from run.
   */
  lemma PrintsOnlyOnSuccess(args: seq<string>, env: Env)
    ensures RunSpec(args, env).err.Some? <==> !Printed(RunSpec(args, env).trace)
    ensures RunSpec(args, env).err.None? <==>
      |args| == 3 && GetVersion(env.oldDiff).Ok? && GetVersion(env.newDiff).Ok?
      && env.get.Ok? && env.read.Ok? && env.decode.Ok?
    ensures RunSpec(args, env).err.None? ==>
      var o := RunSpec(args, env);
      |o.trace| == 6 && o.trace[5] == Print(Report(args[1], args[2], GetVersion(env.oldDiff).value,
                                                  GetVersion(env.newDiff).value, env.decode.value.commits) + "\n")
  {
    var o := RunSpec(args, env);
    if o.err.Some? {
      assert forall k :: 0 <= k < |o.trace| ==> !o.trace[k].Print?;
    } else {
      assert o.trace[5].Print?;
    }
  }

  // ---------------------------------------------------------------------------
  // main

  /** What the process leaves behind: its two output streams and its exit status. */
  datatype ProcessResult = ProcessResult(stdout: string, stderr: string, exitCode: int)

  /** What the effects write to standard output, in order. */
  function StdoutOf(trace: seq<Effect>): string {
    if trace == [] then ""
    else
      var n := |trace| - 1;
      StdoutOf(trace[..n]) + (if trace[n].Print? then trace[n].text else "")
  }

  /** What the effects write to standard error, in order. */
  function StderrOf(trace: seq<Effect>): string {
    if trace == [] then ""
    else
      var n := |trace| - 1;
      StderrOf(trace[..n]) + (if trace[n].Stderr? then trace[n].text else "")
  }

  /** main: run, then on an error print its text on standard output and exit with status 1. */
  function Execute(args: seq<string>, env: Env): ProcessResult {
    var o := RunSpec(args, env);
    match o.err
    case Some(e) => ProcessResult(StdoutOf(o.trace) + ErrorText(e) + "\n", StderrOf(o.trace), 1)
    case None => ProcessResult(StdoutOf(o.trace), StderrOf(o.trace), 0)
  }

  /** A call to the outside world, which writes nothing to the standard streams. */
  predicate Silent(e: Effect) {
    e.Exec? || e.HttpGet? || e.ReadBody? || e.Unmarshal?
  }

  lemma {:induction false} SilentTrace(trace: seq<Effect>)
    requires forall k :: 0 <= k < |trace| ==> Silent(trace[k])
    ensures StdoutOf(trace) == [] && StderrOf(trace) == []
  {
    if trace != [] {
      SilentTrace(trace[..|trace| - 1]);
    }
  }

  /** Silent calls, then one print: standard output is that print's text. */
  lemma SilentThenPrint(trace: seq<Effect>)
    requires trace != [] && trace[|trace| - 1].Print?
    requires forall k :: 0 <= k < |trace| - 1 ==> Silent(trace[k])
    ensures StdoutOf(trace) == trace[|trace| - 1].text && StderrOf(trace) == []
  {
    SilentTrace(trace[..|trace| - 1]);
  }

  /** On success main prints the report, with Println's newline, and nothing else; it exits with 0. */
  lemma ExecuteOnSuccess(args: seq<string>, env: Env)
    requires RunSpec(args, env).err.None?
    ensures Execute(args, env) == ProcessResult(RunSpec(args, env).trace[5].text, [], 0)
  {
    var o := RunSpec(args, env);
    assert forall k :: 0 <= k < 5 ==> Silent(o.trace[k]);
    SilentThenPrint(o.trace);
  }

  /**
   * On a failure main prints the error text alone on standard output and
   * exits with 1; only the argument check writes to standard error.
   */
  lemma ExecuteOnError(args: seq<string>, env: Env)
    requires RunSpec(args, env).err.Some?
    ensures Execute(args, env)
         == ProcessResult(ErrorText(RunSpec(args, env).err.value) + "\n", if |args| != 3 then Usage else [], 1)
  {
    var o := RunSpec(args, env);
    if |args| != 3 {
      assert o.trace[..0] == [];
      assert StdoutOf(o.trace) == "" + "";
      assert StderrOf(o.trace) == "" + Usage;
    } else {
      SilentTrace(o.trace);
    }
  }

  /** The two revision errors can be told apart from their text alone. */
  lemma OldAndNewErrorsDiffer(a: VersionError, b: VersionError)
    ensures ErrorText(OldVersion(a)) != ErrorText(NewVersion(b))
  {
    assert ErrorText(OldVersion(a))[15] == 'o';
    assert ErrorText(NewVersion(b))[15] == 'n';
  }
}
