# fourmat lint commands — a Dafny model

fourmat wraps three Python code-quality tools (isort, black, flake8) behind
two commands, `check` and `fix`, run over a project's configured source
roots. Most of `fourmat/lint.py` starts subprocesses. This project models the
pure logic inside it:

- **Dirty-file filter** (`DirtyFiles`). Of the names git lists as changed,
  `get_dirty_filenames` keeps the ones whose `pathlib` suffix is `.py` and
  that do not match the fnmatch glob `*/snapshots/snap_*.py`. `PurePath`
  models `Path.name` and `Path.suffix`. `FnMatch` models fnmatch for patterns
  made of literals and `*`.
- **Argument vectors** (`ToolArgs`). These are the command lines of the
  black, isort and flake8 runners. A decoder reads a command line back into
  the request that built it, and both directions of that round trip are
  proved.
- **Configuration installer** (`Configuration`). `copy_configuration` acts on
  the working directory, modelled as a map from file name to bytes.
- **Command policies** (`Commands`). `check` runs all three tools and records
  whether any failed. `fix` runs the tools in order and stops at the first
  failure. The exit code of each tool comes from an oracle function of the
  tool's command line. The oracle stands for running that tool against the
  files as they are at that moment.

`Settings` holds the shared constants (`SNAPSHOT_GLOB`, `SNAPSHOT_REGEX`,
`CONFIGURATION_FILES`).

The filter's fnmatch glob is anchored at both ends, and its `*` also
matches `/`. So `snapshots/snap_a.py`, with no directory in front, is kept,
and `a/snapshots/snap_x/b.py` is excluded.
`FnMatch.SnapshotGlobMeaning` states this exact reading.

## Model

| member | source | states |
|---|---|---|
| PurePath.Name | fourmat/lint.py:49 | `Path(s).name` contains no `/`, is empty or a real component (never `.`), and is no longer than the path |
| PurePath.NameIgnoresDot | fourmat/lint.py:49 | a trailing `.` component does not change `Path(s).name`, and `""` and `.` have the empty name |
| PurePath.NameOfComponent | fourmat/lint.py:49 | a plain component is its own name, and it is also the name of any path ending in `/` plus that component |
| PurePath.NameIgnoresTrailingSlash | fourmat/lint.py:49 | a trailing `/` does not change `Path(s).name` |
| PurePath.Suffix | fourmat/lint.py:49 | the suffix is empty, or is a proper ending of the name that starts with its only `.`; it is non-empty exactly when the name's last `.` is neither its first nor its last character |
| PurePath.SuffixIsPy | fourmat/lint.py:49 | the suffix is `.py` exactly when the name is longer than `.py` and ends with it, so a bare `.py` is not kept |
| FnMatch.LiteralPrefix | fourmat/lint.py:50 | a literal pattern prefix matches exactly that prefix of the name and leaves the rest to the remaining pattern |
| FnMatch.StarPrefix | fourmat/lint.py:50 | a leading `*` can consume any prefix of the name, including `/` characters |
| FnMatch.StarLiteralStarLiteral | fourmat/lint.py:50 | `*a*b` matches exactly the names that end with `b` and contain `a` before that ending |
| FnMatch.SnapshotGlobMeaning | fourmat/lint.py:50 | the snapshot glob is supported by the matcher, and it matches a name exactly when the name ends in `.py` and has `/snapshots/snap_` before that ending |
| DirtyFiles.FilterBy | fourmat/lint.py:46-51 | for any per-name test, the result is an order-preserving subsequence of the input that holds each passing name as often as the input does and nothing else |
| DirtyFiles.DirtyFilter | fourmat/lint.py:46-51 | the result is an order-preserving subsequence of git's names; it holds each kept name as many times as git listed it and no other name; a name is in it exactly when it is listed and passes both tests |
| DirtyFiles.KeepMeaning | fourmat/lint.py:49-50 | a name is kept exactly when its final component is longer than `.py` and ends with it, and the name is not a snapshot path |
| DirtyFiles.DirtyFilterIdempotent | fourmat/lint.py:46-51 | filtering an already filtered list changes nothing |
| DirtyFiles.DirtyFilterAppend | fourmat/lint.py:46-51 | filtering distributes over concatenation, so each name is judged on its own |
| ToolArgs.BlackArgs | fourmat/lint.py:65-77 | starts with `black`; has `--check --diff` in check mode only; then `--exclude`, the regex, `--quiet`, `--`, then the paths unchanged; length is 5, plus 2 in check mode, plus the number of paths |
| ToolArgs.ProjectFlags | fourmat/lint.py:85 | one `--project`, root pair per project root, in order |
| ToolArgs.IsortArgs | fourmat/lint.py:80-95 | starts with `isort`; `--check --diff` in check mode and `--apply` in fix mode, never both; then the `--project` pairs in order; then `--skip-glob`, the glob, `--atomic`, `--quiet`, `--recursive`, `--`; then the paths unchanged |
| ToolArgs.Flake8Args | fourmat/lint.py:98-101 | defined only in check mode; it is `flake8 --` followed by the paths |
| ToolArgs.DecodeProjectFlags | fourmat/lint.py:85 | the `--project` pairs decode back to the project roots, whatever the roots are |
| ToolArgs.DecodeBlackArgs | fourmat/lint.py:65-77 | black's command line decodes back to its paths and mode |
| ToolArgs.DecodeIsortArgs | fourmat/lint.py:80-95 | isort's command line decodes back to its paths, project roots and mode |
| ToolArgs.DecodeFlake8Args | fourmat/lint.py:98-101 | flake8's command line decodes back to its paths |
| ToolArgs.DecodeBuild | fourmat/lint.py:65-101 | every request a runner issues is recovered from its command line, even when a path starts with `-` |
| ToolArgs.BuildDecode | fourmat/lint.py:65-101 | every command line the decoder accepts is exactly the one its request builds |
| Configuration.CopyEach | fourmat/lint.py:58-62 | after the loop, each visited name holds the template if override was set or the file was missing, and the old file otherwise; every other file is unchanged; no other name appears |
| Configuration.CopyConfiguration | fourmat/lint.py:57-62 | with override, every configuration file equals its template; without override, existing files are kept and missing ones become the template; other files are untouched and no other names appear |
| Configuration.CopyEachIdempotent | fourmat/lint.py:58-62 | a second pass of the loop without override, over the same names, changes nothing |
| Configuration.CopyEachOverrideSupersedes | fourmat/lint.py:58-62 | a pass with override gives the same directory whatever pass came before it |
| Configuration.CopyEachKeepsComplete | fourmat/lint.py:58-59 | without override, a pass over names that all exist leaves the directory unchanged |
| Configuration.CopyConfigurationIdempotent | fourmat/lint.py:57-62 | a second installation without override changes nothing |
| Configuration.OverrideSupersedes | fourmat/lint.py:57-62 | an override installation gives the same directory whatever installation came before it |
| Configuration.NoOverrideKeepsCompleteDirectory | fourmat/lint.py:58-59 | when every configuration file already exists, installing without override leaves the directory as it was |
| Commands.SelectFiles | fourmat/lint.py:115 | the file set is the explicit files when there are any, and the project roots otherwise; it is empty only when both are |
| Commands.RecordFailures | fourmat/lint.py:117-134 | the status is 0 or 1, and it is 1 exactly when some command exited non-zero |
| Commands.RunUntilFailure | fourmat/lint.py:160-165 | the commands run form a prefix of the plan; every run before the last succeeded; a non-zero exit is the last run's code; the exit is 0 exactly when every command succeeds, and then all of them ran |
| Commands.FailFastOverThree | fourmat/lint.py:160-165 | over three commands, the fail-fast policy runs the first, runs the second only if the first succeeded, and runs the third only if both succeeded; the exit code is that of the last command run |
| Commands.Check | fourmat/lint.py:112-137 | configuration is installed; isort, black and flake8 all run in check mode, in that order, on the explicit files or else the project roots; status is 1 exactly when some tool failed; `sys.exit` is called only with a non-zero status |
| Commands.Fix | fourmat/lint.py:153-167 | configuration is installed; isort and then black run in fix mode, then flake8 in check mode, on the explicit files or else the project roots; nothing runs after the first failure; the exit code is the last run's code, and it is 0 only when all three ran and succeeded |
| Commands.PoliciesAgree | fourmat/lint.py:117-165 | on the same commands, the fail-fast policy exits 0 exactly when the aggregating policy records 0, and it runs a prefix of the commands |
| Commands.FixStopsAtIsortFailure | fourmat/lint.py:160-165 | when isort fails in `fix`, nothing else runs and the exit code is isort's |

## Left out

- Running git, isort, black and flake8 as subprocesses. The tools' exit codes come from an oracle, and git's output is an input sequence of names.
- Building the `git diff-index` command, and splitting its output on whitespace (fourmat/lint.py:29-44).
- Reading `.fourmat` and splitting it (fourmat/lint.py:24-25). The project roots are an input sequence.
- What `SNAPSHOT_REGEX` means. Black's own regex engine interprets it, so here it is opaque text.
- The click command-line layer, `KeyboardInterrupt` handling, and how `sys.exit` works. Exit codes are return values. The operating system's truncation of an exit code to 8 bits is not modelled.
- The byte-level behaviour of `shutil.copy`, and installer failures. If `copy_configuration` raises in `check`, the exception escapes the failure recording (fourmat/lint.py:116). The model gives no status for that case. A name that exists as a directory is not modelled either: the working directory holds only files.
- Platforms other than POSIX. `PurePath` and `FnMatch` model pathlib and fnmatch as they behave on POSIX. On Windows, `Path` also splits on `\`, and fnmatch lower-cases both sides and maps `/` to `\` before matching, so the filter can decide differently there.
- fnmatch wildcards other than `*`: `?` and `[...]`. The snapshot glob uses neither, and `FnMatch.Supported` rules them out.
- Commands.Check and Commands.Fix: the tools in `fix` change files, so a later tool's result can depend on what an earlier tool wrote. The model folds this into the exit-code oracle and does not state it separately.
