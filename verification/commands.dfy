/** The `check` and `fix` commands: choose the files, install the
    configuration, then run isort, black and flake8 under one of two
    policies. Running a tool is outside the model; an oracle gives the exit
    code the tool returns for a command line in the current state of the
    files (0 is success). */
module Commands {
  import Settings
  import ToolArgs
  import Configuration
  import opened Wrappers

  type Argv = ToolArgs.Argv

  /** The exit code of the tool that a command line names. */
  type ExitOracle = Argv -> int

  /** `files or project_paths`: the explicit file list, unless it is empty. */
  function SelectFiles(files: seq<string>, projectPaths: seq<string>): (r: seq<string>)
    ensures files != [] ==> r == files
    ensures files == [] ==> r == projectPaths
    ensures r == [] <==> files == [] && projectPaths == []
  {
    if files != [] then files else projectPaths
  }

  /** The aggregating policy of `check`: every command runs, and each failure
      sets the status to 1, which nothing resets. */
  function RecordFailures(cmds: seq<Argv>, exitOf: ExitOracle): (status: int)
    ensures status == 0 || status == 1
    ensures status == 1 <==> exists i :: 0 <= i < |cmds| && exitOf(cmds[i]) != 0
    decreases |cmds|
  {
    if cmds == [] then 0
    else
      var before := RecordFailures(cmds[..|cmds| - 1], exitOf);
      assert forall i :: 0 <= i < |cmds| - 1 ==> cmds[..|cmds| - 1][i] == cmds[i];
      if exitOf(cmds[|cmds| - 1]) != 0 then 1 else before
  }

  /** Commands run under the fail-fast policy, and the exit code they leave. */
  datatype FailFast = FailFast(runs: seq<Argv>, exit: int)

  /** The fail-fast policy of `fix`: run in order and stop at the first
      non-zero exit, whose code becomes the process's. */
  function RunUntilFailure(cmds: seq<Argv>, exitOf: ExitOracle): (r: FailFast)
    ensures |r.runs| <= |cmds| && r.runs == cmds[..|r.runs|]
    ensures forall i :: 0 <= i < |r.runs| - 1 ==> exitOf(r.runs[i]) == 0
    ensures r.exit != 0 ==> r.runs != [] && r.exit == exitOf(r.runs[|r.runs| - 1])
    ensures r.exit == 0 <==> forall i :: 0 <= i < |cmds| ==> exitOf(cmds[i]) == 0
    ensures r.exit == 0 ==> r.runs == cmds
    decreases |cmds|
  {
    if cmds == [] then FailFast([], 0)
    else
      var code := exitOf(cmds[0]);
      if code != 0 then FailFast([cmds[0]], code)
      else
        var rest := RunUntilFailure(cmds[1..], exitOf);
        assert cmds == [cmds[0]] + cmds[1..];
        FailFast([cmds[0]] + rest.runs, rest.exit)
  }

  /** The fail-fast policy over a plan of three commands, spelled out. */
  lemma FailFastOverThree(a: Argv, b: Argv, c: Argv, exitOf: ExitOracle)
    ensures var r := RunUntilFailure([a, b, c], exitOf);
      && 1 <= |r.runs| <= 3
      && r.runs[0] == a
      && (|r.runs| >= 2 ==> r.runs[1] == b)
      && (|r.runs| == 3 ==> r.runs[2] == c)
      && (forall i :: 0 <= i < |r.runs| - 1 ==> exitOf(r.runs[i]) == 0)
      && r.exit == exitOf(r.runs[|r.runs| - 1])
      && (r.exit == 0 <==> |r.runs| == 3 && exitOf(a) == 0 && exitOf(b) == 0 && exitOf(c) == 0)
  {
    var cmds := [a, b, c];
    var r := RunUntilFailure(cmds, exitOf);
    assert r.runs == cmds[..|r.runs|];
    if r.exit == 0 {
      assert exitOf(cmds[0]) == 0 && exitOf(cmds[1]) == 0 && exitOf(cmds[2]) == 0;
    }
  }

  /** Outcome of `check`: the working directory after installation, the
      commands run in order, the recorded status, and the argument of the
      `sys.exit` call, if one is made. */
  datatype CheckOutcome = CheckOutcome(
    workdir: Configuration.Workdir,
    runs: seq<Argv>,
    status: int,
    exitCall: Option<int>)

  /** Outcome of `fix`: the working directory after installation, the
      commands run in order, and the process exit code. */
  datatype FixOutcome = FixOutcome(workdir: Configuration.Workdir, runs: seq<Argv>, exit: int)

  /** The `check` command. */
  function Check(
    overrideConfig: bool, files: seq<string>, projectPaths: seq<string>,
    dir: Configuration.Workdir, assets: Configuration.Workdir, exitOf: ExitOracle): (r: CheckOutcome)
    requires Configuration.Ships(assets, Settings.ConfigurationFiles)
    ensures r.workdir == Configuration.CopyConfiguration(dir, assets, overrideConfig)
    ensures |r.runs| == 3
    ensures var sel := if files != [] then files else projectPaths;
      && ToolArgs.Decode(r.runs[0]) == Some(ToolArgs.Request(ToolArgs.Isort, sel, projectPaths, true))
      && ToolArgs.Decode(r.runs[1]) == Some(ToolArgs.Request(ToolArgs.Black, sel, [], true))
      && ToolArgs.Decode(r.runs[2]) == Some(ToolArgs.Request(ToolArgs.Flake8, sel, [], true))
    ensures r.status == 0 || r.status == 1
    ensures r.status == 1 <==> exists i :: 0 <= i < 3 && exitOf(r.runs[i]) != 0
    ensures r.exitCall == if r.status == 0 then None else Some(r.status)
  {
    var sel := SelectFiles(files, projectPaths);
    var workdir := Configuration.CopyConfiguration(dir, assets, overrideConfig);
    var runs := [
      ToolArgs.IsortArgs(sel, projectPaths, true),
      ToolArgs.BlackArgs(sel, true),
      ToolArgs.Flake8Args(sel, true)
    ];
    ToolArgs.DecodeIsortArgs(sel, projectPaths, true);
    ToolArgs.DecodeBlackArgs(sel, true);
    ToolArgs.DecodeFlake8Args(sel);
    var status := RecordFailures(runs, exitOf);
    CheckOutcome(workdir, runs, status, if status != 0 then Some(status) else None)
  }

  /** The `fix` command. */
  function Fix(
    overrideConfig: bool, files: seq<string>, projectPaths: seq<string>,
    dir: Configuration.Workdir, assets: Configuration.Workdir, exitOf: ExitOracle): (r: FixOutcome)
    requires Configuration.Ships(assets, Settings.ConfigurationFiles)
    ensures r.workdir == Configuration.CopyConfiguration(dir, assets, overrideConfig)
    ensures 1 <= |r.runs| <= 3
    ensures var sel := if files != [] then files else projectPaths;
      && ToolArgs.Decode(r.runs[0]) == Some(ToolArgs.Request(ToolArgs.Isort, sel, projectPaths, false))
      && (|r.runs| >= 2 ==> ToolArgs.Decode(r.runs[1]) == Some(ToolArgs.Request(ToolArgs.Black, sel, [], false)))
      && (|r.runs| == 3 ==> ToolArgs.Decode(r.runs[2]) == Some(ToolArgs.Request(ToolArgs.Flake8, sel, [], true)))
    ensures forall i :: 0 <= i < |r.runs| - 1 ==> exitOf(r.runs[i]) == 0
    ensures r.exit == exitOf(r.runs[|r.runs| - 1])
    ensures r.exit == 0 <==> |r.runs| == 3 && forall i :: 0 <= i < 3 ==> exitOf(r.runs[i]) == 0
  {
    var workdir := Configuration.CopyConfiguration(dir, assets, overrideConfig);
    var sel := SelectFiles(files, projectPaths);
    var cmds := [
      ToolArgs.IsortArgs(sel, projectPaths, false),
      ToolArgs.BlackArgs(sel, false),
      ToolArgs.Flake8Args(sel, true)
    ];
    ToolArgs.DecodeIsortArgs(sel, projectPaths, false);
    ToolArgs.DecodeBlackArgs(sel, false);
    ToolArgs.DecodeFlake8Args(sel);
    FailFastOverThree(cmds[0], cmds[1], cmds[2], exitOf);
    var outcome := RunUntilFailure(cmds, exitOf);
    FixOutcome(workdir, outcome.runs, outcome.exit)
  }

  /** The two policies agree on success: the fail-fast run exits 0 exactly
      when the aggregating run records status 0, and the fail-fast run is a
      prefix of the aggregating one. */
  lemma PoliciesAgree(cmds: seq<Argv>, exitOf: ExitOracle)
    ensures RunUntilFailure(cmds, exitOf).exit == 0 <==> RecordFailures(cmds, exitOf) == 0
    ensures RunUntilFailure(cmds, exitOf).runs <= cmds
  {
  }

  /** A failing first step stops `fix` at once: when isort fails, neither
      black nor flake8 runs and the exit code is isort's. */
  lemma FixStopsAtIsortFailure(
    overrideConfig: bool, files: seq<string>, projectPaths: seq<string>,
    dir: Configuration.Workdir, assets: Configuration.Workdir, exitOf: ExitOracle)
    requires Configuration.Ships(assets, Settings.ConfigurationFiles)
    requires exitOf(ToolArgs.IsortArgs(SelectFiles(files, projectPaths), projectPaths, false)) != 0
    ensures var r := Fix(overrideConfig, files, projectPaths, dir, assets, exitOf);
      |r.runs| == 1 && r.exit == exitOf(ToolArgs.IsortArgs(SelectFiles(files, projectPaths), projectPaths, false))
  {
  }
}
