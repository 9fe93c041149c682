/** The command lines the three tool runners hand to the operating system.
    Each builder is the argument tuple of one runner as a pure function; the
    decoder reads a command line back into the request that produced it. */
module ToolArgs {
  import Settings
  import opened Wrappers

  type Argv = seq<string>

  datatype Tool = Isort | Black | Flake8

  /** What a runner was asked to do: which tool, on which paths, with which
      project roots (isort only), in check or fix mode. */
  datatype Request = Request(tool: Tool, paths: seq<string>, projectPaths: seq<string>, check: bool)
  {
    /** Requests a runner can issue: only isort takes project roots, and the
        style checker has no fix mode. */
    predicate WellFormed()
    {
      && (tool != Isort ==> projectPaths == [])
      && (tool == Flake8 ==> check)
    }
  }

  const CheckFlags: Argv := ["--check", "--diff"]
  const BlackOptions: Argv := ["--exclude", Settings.SnapshotRegex, "--quiet", "--"]
  const IsortOptions: Argv := ["--skip-glob", Settings.SnapshotGlob, "--atomic", "--quiet", "--recursive", "--"]

  /** black's mode flags: report a diff in check mode, rewrite in place otherwise. */
  function BlackMode(check: bool): Argv
  {
    if check then CheckFlags else []
  }

  /** isort's mode flags: report a diff in check mode, apply the changes otherwise. */
  function IsortMode(check: bool): Argv
  {
    if check then CheckFlags else ["--apply"]
  }

  /** The command line of the black runner. */
  function BlackArgs(paths: seq<string>, check: bool): (argv: Argv)
    ensures |argv| == 5 + (if check then 2 else 0) + |paths|
    ensures argv[0] == "black"
    ensures check ==> argv[1] == "--check" && argv[2] == "--diff"
    ensures !check ==> argv[1] == "--exclude"
    ensures argv[|argv| - |paths| - 4..|argv| - |paths|] == ["--exclude", Settings.SnapshotRegex, "--quiet", "--"]
    ensures argv[|argv| - |paths|..] == paths
    ensures ("--check" in argv[..|argv| - |paths|]) <==> check
  {
    var argv := ["black"] + (BlackMode(check) + (BlackOptions + paths));
    assert argv[|argv| - |paths|..] == paths;
    assert argv[..|argv| - |paths|] == ["black"] + BlackMode(check) + BlackOptions;
    argv
  }

  /** One `--project <root>` pair per project root, in order. */
  function ProjectFlags(projectPaths: seq<string>): (r: Argv)
    ensures |r| == 2 * |projectPaths|
    ensures forall k :: 0 <= k < |projectPaths| ==> r[2 * k..2 * k + 2] == ["--project", projectPaths[k]]
  {
    if projectPaths == [] then []
    else
      var rest := ProjectFlags(projectPaths[1..]);
      var r := ["--project", projectPaths[0]] + rest;
      assert forall k :: 1 <= k < |projectPaths| ==> r[2 * k..2 * k + 2] == rest[2 * (k - 1)..2 * (k - 1) + 2];
      r
  }

  /** The command line of the isort runner. */
  function IsortArgs(paths: seq<string>, projectPaths: seq<string>, check: bool): (argv: Argv)
    ensures |argv| == (if check then 9 else 8) + 2 * |projectPaths| + |paths|
    ensures argv[0] == "isort"
    ensures argv[1] == "--check" <==> check
    ensures argv[1] == "--apply" <==> !check
    ensures check ==> argv[2] == "--diff"
    ensures var m := if check then 3 else 2;
      argv[m..m + 2 * |projectPaths|] == ProjectFlags(projectPaths)
    ensures argv[|argv| - |paths| - 6..|argv| - |paths|] == IsortOptions
    ensures argv[|argv| - |paths|..] == paths
  {
    var mode := IsortMode(check);
    var flags := ProjectFlags(projectPaths);
    WordsDistinct();
    Layout(["isort"], mode, flags, IsortOptions, paths);
    ["isort"] + (mode + (flags + (IsortOptions + paths)))
  }

  /** The command line of the flake8 runner, which exists in check mode only. */
  function Flake8Args(paths: seq<string>, check: bool): (argv: Argv)
    requires check
    ensures |argv| == 2 + |paths|
    ensures argv[..2] == ["flake8", "--"]
    ensures argv[2..] == paths
  {
    ["flake8"] + (["--"] + paths)
  }

  /** The command line a request produces. */
  function Build(req: Request): Argv
    requires req.WellFormed()
  {
    match req.tool
    case Isort => IsortArgs(req.paths, req.projectPaths, req.check)
    case Black => BlackArgs(req.paths, req.check)
    case Flake8 => Flake8Args(req.paths, req.check)
  }

  /** Reads a command line back into the request behind it, if it is one the
      runners could have built. */
  function Decode(argv: Argv): (r: Option<Request>)
    ensures r.Some? ==> r.value.WellFormed()
  {
    if argv == [] then None
    else if argv[0] == "black" then DecodeBlack(argv[1..])
    else if argv[0] == "isort" then DecodeIsort(argv[1..])
    else if argv[0] == "flake8" then DecodeFlake8(argv[1..])
    else None
  }

  /** `args` starts with `prefix`. */
  predicate StartsWith(args: Argv, prefix: Argv)
  {
    |prefix| <= |args| && args[..|prefix|] == prefix
  }

  function DecodeBlack(args: Argv): (r: Option<Request>)
    ensures r.Some? ==> r.value.tool == Black && r.value.projectPaths == []
  {
    var check := StartsWith(args, CheckFlags);
    var rest := args[|BlackMode(check)|..];
    if StartsWith(rest, BlackOptions) then Some(Request(Black, rest[4..], [], check))
    else None
  }

  /** Splits off the leading `--project <root>` pairs. */
  function DecodeProjects(args: Argv): (seq<string>, Argv)
    decreases |args|
  {
    if |args| >= 2 && args[0] == "--project" then
      var (ps, rest) := DecodeProjects(args[2..]);
      ([args[1]] + ps, rest)
    else ([], args)
  }

  function DecodeIsortTail(args: Argv, check: bool): (r: Option<Request>)
    ensures r.Some? ==> r.value.tool == Isort
  {
    var (projects, rest) := DecodeProjects(args);
    if StartsWith(rest, IsortOptions) then Some(Request(Isort, rest[6..], projects, check))
    else None
  }

  function DecodeIsort(args: Argv): (r: Option<Request>)
    ensures r.Some? ==> r.value.tool == Isort
  {
    if StartsWith(args, CheckFlags) then DecodeIsortTail(args[2..], true)
    else if StartsWith(args, ["--apply"]) then DecodeIsortTail(args[1..], false)
    else None
  }

  function DecodeFlake8(args: Argv): (r: Option<Request>)
    ensures r.Some? ==> r.value.tool == Flake8 && r.value.check && r.value.projectPaths == []
  {
    if StartsWith(args, ["--"]) then Some(Request(Flake8, args[1..], [], true))
    else None
  }

  /** A prefix followed by anything starts with that prefix, and the rest is
      what follows it. */
  lemma StartsWithConcat(prefix: Argv, rest: Argv)
    ensures StartsWith(prefix + rest, prefix)
    ensures (prefix + rest)[|prefix|..] == rest
  {
    assert (prefix + rest)[..|prefix|] == prefix;
  }

  /** The tool names differ, and so do isort's two mode flags. */
  lemma WordsDistinct()
    ensures "isort" != "black" && "isort" != "flake8" && "black" != "flake8"
    ensures "--check" != "--apply"
  {
    assert "isort"[0] != "black"[0];
    assert "--check"[2] != "--apply"[2];
  }

  lemma {:induction false} DecodeProjectFlags(projectPaths: seq<string>, tail: Argv)
    requires tail == [] || tail[0] != "--project"
    ensures DecodeProjects(ProjectFlags(projectPaths) + tail) == (projectPaths, tail)
  {
    if projectPaths != [] {
      var args := ProjectFlags(projectPaths) + tail;
      assert args[2..] == ProjectFlags(projectPaths[1..]) + tail;
      DecodeProjectFlags(projectPaths[1..], tail);
      assert projectPaths == [projectPaths[0]] + projectPaths[1..];
    } else {
      assert ProjectFlags(projectPaths) + tail == tail;
    }
  }

  lemma {:induction false} DecodeProjectsSplits(args: Argv)
    ensures var (ps, rest) := DecodeProjects(args);
      args == ProjectFlags(ps) + rest
    decreases |args|
  {
    if |args| >= 2 && args[0] == "--project" {
      DecodeProjectsSplits(args[2..]);
      var (ps, rest) := DecodeProjects(args[2..]);
      assert ([args[1]] + ps)[1..] == ps;
      assert args == ["--project", args[1]] + args[2..];
    } else {
      assert ProjectFlags([]) + args == args;
    }
  }

  lemma DecodeBlackArgs(paths: seq<string>, check: bool)
    ensures Decode(BlackArgs(paths, check)) == Some(Request(Black, paths, [], check))
  {
    var mode := BlackMode(check);
    var args := mode + (BlackOptions + paths);
    StartsWithConcat(["black"], args);
    StartsWithConcat(mode, BlackOptions + paths);
    StartsWithConcat(BlackOptions, paths);
    if !check {
      assert args[0] == "--exclude";
      assert !StartsWith(args, CheckFlags);
    }
  }

  lemma DecodeIsortTailArgs(paths: seq<string>, projectPaths: seq<string>, check: bool)
    ensures DecodeIsortTail(ProjectFlags(projectPaths) + (IsortOptions + paths), check)
      == Some(Request(Isort, paths, projectPaths, check))
  {
    var tail := IsortOptions + paths;
    DecodeProjectFlags(projectPaths, tail);
    StartsWithConcat(IsortOptions, paths);
  }

  lemma DecodeIsortMode(check: bool, tail: Argv)
    ensures DecodeIsort(IsortMode(check) + tail) == DecodeIsortTail(tail, check)
  {
    StartsWithConcat(IsortMode(check), tail);
    if !check {
      assert (IsortMode(check) + tail)[0] == "--apply";
    }
  }

  lemma DecodeIsortArgs(paths: seq<string>, projectPaths: seq<string>, check: bool)
    ensures Decode(IsortArgs(paths, projectPaths, check)) == Some(Request(Isort, paths, projectPaths, check))
  {
    var tail := ProjectFlags(projectPaths) + (IsortOptions + paths);
    var args := IsortMode(check) + tail;
    StartsWithConcat(["isort"], args);
    WordsDistinct();
    DecodeIsortMode(check, tail);
    DecodeIsortTailArgs(paths, projectPaths, check);
  }

  lemma DecodeFlake8Args(paths: seq<string>)
    ensures Decode(Flake8Args(paths, true)) == Some(Request(Flake8, paths, [], true))
  {
    StartsWithConcat(["flake8"], ["--"] + paths);
    StartsWithConcat(["--"], paths);
  }

  /** Every request a runner issues is recovered from its command line: the
      tool, the mode, the project roots and the paths, unchanged and in order,
      whatever characters the paths contain. */
  lemma DecodeBuild(req: Request)
    requires req.WellFormed()
    ensures Decode(Build(req)) == Some(req)
  {
    match req.tool
    case Black => DecodeBlackArgs(req.paths, req.check);
    case Isort => DecodeIsortArgs(req.paths, req.projectPaths, req.check);
    case Flake8 => DecodeFlake8Args(req.paths);
  }

  /** Where each part of a concatenation of five parts sits. */
  lemma Layout(a: Argv, b: Argv, c: Argv, d: Argv, e: Argv)
    ensures var s := a + (b + (c + (d + e)));
      && |s| == |a| + |b| + |c| + |d| + |e|
      && s[..|a|] == a
      && s[|a|..|a| + |b|] == b
      && s[|a| + |b|..|a| + |b| + |c|] == c
      && s[|a| + |b| + |c|..|s| - |e|] == d
      && s[|s| - |e|..] == e
  {
  }

  /** A sequence is its prefix followed by the rest. */
  lemma SplitAt(args: Argv, prefix: Argv)
    requires StartsWith(args, prefix)
    ensures args == prefix + args[|prefix|..]
  {
  }

  lemma BlackFromDecode(args: Argv, req: Request)
    requires DecodeBlack(args) == Some(req)
    ensures BlackArgs(req.paths, req.check) == ["black"] + args
  {
    var mode := BlackMode(req.check);
    SplitAt(args, mode);
    SplitAt(args[|mode|..], BlackOptions);
  }

  lemma IsortTailFromDecode(args: Argv, req: Request)
    requires DecodeIsortTail(args, req.check) == Some(req)
    ensures ProjectFlags(req.projectPaths) + (IsortOptions + req.paths) == args
  {
    DecodeProjectsSplits(args);
    var (ps, rest) := DecodeProjects(args);
    SplitAt(rest, IsortOptions);
  }

  lemma IsortFromDecode(args: Argv, req: Request)
    requires DecodeIsort(args) == Some(req)
    ensures IsortArgs(req.paths, req.projectPaths, req.check) == ["isort"] + args
  {
    var mode := IsortMode(req.check);
    assert StartsWith(args, mode);
    SplitAt(args, mode);
    IsortTailFromDecode(args[|mode|..], req);
  }

  /** Conversely, every command line the decoder accepts is exactly the one
      its request builds, so the decoder accepts nothing else. */
  lemma BuildDecode(argv: Argv)
    requires Decode(argv).Some?
    ensures Build(Decode(argv).value) == argv
  {
    var req := Decode(argv).value;
    var args := argv[1..];
    assert argv == [argv[0]] + args;
    if argv[0] == "black" {
      BlackFromDecode(args, req);
    } else if argv[0] == "isort" {
      IsortFromDecode(args, req);
    } else {
      SplitAt(args, ["--"]);
    }
  }
}
