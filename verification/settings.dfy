/** The fixed names and patterns that the lint commands share. */
module Settings {

  /** fnmatch pattern naming generated snapshot-test modules; handed to the
      dirty-file filter and to isort's `--skip-glob`. */
  const SnapshotGlob: string := "*/snapshots/snap_*.py"

  /** The same exclusion written as a regular expression for black's
      `--exclude`. It is interpreted by black alone, so here it is only text. */
  const SnapshotRegex: string := ".*\\/snapshots\\/snap_.*\\.py"

  /** The bundled configuration files installed in the project root, in the
      order the installer visits them. */
  const ConfigurationFiles: seq<string> := [".flake8", ".isort.cfg", "pyproject.toml"]
}
