/** `copy_configuration`: installs the bundled configuration templates into
    the working directory. The directory is a map from file name to contents;
    a name that is a key exists, and copying a template replaces the value. */
module Configuration {
  import Settings

  newtype Byte = x: int | 0 <= x < 256
  type Bytes = seq<Byte>
  type Workdir = map<string, Bytes>

  /** The installed package ships a template for every name in `names`. */
  predicate Ships(assets: Workdir, names: seq<string>)
  {
    forall n :: n in names ==> n in assets
  }

  /** The contents a configuration file ends up with: the template when
      overriding or when no file of that name existed, the old file otherwise. */
  function Installed(dir: Workdir, assets: Workdir, name: string, override: bool): Bytes
    requires name in assets
  {
    if override || name !in dir then assets[name] else dir[name]
  }

  /** The installer loop over `names`, visiting them in order. */
  function CopyEach(dir: Workdir, assets: Workdir, names: seq<string>, override: bool): (r: Workdir)
    requires Ships(assets, names)
    ensures forall n :: n in r <==> n in dir || n in names
    ensures forall n :: n in names ==> r[n] == Installed(dir, assets, n, override)
    ensures forall n :: n in dir && n !in names ==> r[n] == dir[n]
    decreases |names|
  {
    if names == [] then dir
    else
      var name := names[0];
      var next := if override || name !in dir then dir[name := assets[name]] else dir;
      var r := CopyEach(next, assets, names[1..], override);
      assert forall n :: n in names <==> n == name || n in names[1..];
      r
  }

  /** `copy_configuration(override)`. */
  function CopyConfiguration(dir: Workdir, assets: Workdir, override: bool): (r: Workdir)
    requires Ships(assets, Settings.ConfigurationFiles)
    ensures forall n :: n in r <==> n in dir || n in Settings.ConfigurationFiles
    ensures override ==> forall n :: n in Settings.ConfigurationFiles ==> r[n] == assets[n]
    ensures forall n :: n in Settings.ConfigurationFiles && n in dir && !override ==> r[n] == dir[n]
    ensures forall n :: n in Settings.ConfigurationFiles && n !in dir ==> r[n] == assets[n]
    ensures forall n :: n in dir && n !in Settings.ConfigurationFiles ==> r[n] == dir[n]
  {
    CopyEach(dir, assets, Settings.ConfigurationFiles, override)
  }

  /** A second pass of the loop without override changes nothing. */
  lemma CopyEachIdempotent(dir: Workdir, assets: Workdir, names: seq<string>, override: bool)
    requires Ships(assets, names)
    ensures var once := CopyEach(dir, assets, names, override);
      CopyEach(once, assets, names, false) == once
  {
    var once := CopyEach(dir, assets, names, override);
    var twice := CopyEach(once, assets, names, false);
    assert twice.Keys == once.Keys;
    forall n | n in twice
      ensures twice[n] == once[n]
    {
      if n in names {
        assert n in once;
      }
    }
  }

  /** A pass of the loop with override gives the same directory whatever pass
      came before it. */
  lemma CopyEachOverrideSupersedes(dir: Workdir, assets: Workdir, names: seq<string>, override: bool)
    requires Ships(assets, names)
    ensures CopyEach(CopyEach(dir, assets, names, override), assets, names, true)
      == CopyEach(dir, assets, names, true)
  {
    var once := CopyEach(dir, assets, names, override);
    var r1 := CopyEach(once, assets, names, true);
    var r2 := CopyEach(dir, assets, names, true);
    assert r1.Keys == r2.Keys;
    forall n | n in r1
      ensures r1[n] == r2[n]
    {
      if n !in names {
        assert n in dir && n in once;
      }
    }
  }

  /** Running the installer again without override changes nothing. */
  lemma CopyConfigurationIdempotent(dir: Workdir, assets: Workdir, override: bool)
    requires Ships(assets, Settings.ConfigurationFiles)
    ensures var once := CopyConfiguration(dir, assets, override);
      CopyConfiguration(once, assets, false) == once
  {
    CopyEachIdempotent(dir, assets, Settings.ConfigurationFiles, override);
  }

  /** An override run erases the effect of any earlier run. */
  lemma OverrideSupersedes(dir: Workdir, assets: Workdir, override: bool)
    requires Ships(assets, Settings.ConfigurationFiles)
    ensures CopyConfiguration(CopyConfiguration(dir, assets, override), assets, true)
      == CopyConfiguration(dir, assets, true)
  {
    CopyEachOverrideSupersedes(dir, assets, Settings.ConfigurationFiles, override);
  }

  /** With every configuration file already present, the installer without
      override leaves the directory as it was. */
  lemma NoOverrideKeepsCompleteDirectory(dir: Workdir, assets: Workdir)
    requires Ships(assets, Settings.ConfigurationFiles)
    requires forall n :: n in Settings.ConfigurationFiles ==> n in dir
    ensures CopyConfiguration(dir, assets, false) == dir
  {
    CopyEachKeepsComplete(dir, assets, Settings.ConfigurationFiles);
  }

  /** Without override, a pass over names that all exist changes nothing. */
  lemma CopyEachKeepsComplete(dir: Workdir, assets: Workdir, names: seq<string>)
    requires Ships(assets, names)
    requires forall n :: n in names ==> n in dir
    ensures CopyEach(dir, assets, names, false) == dir
  {
    var r := CopyEach(dir, assets, names, false);
    assert r.Keys == dir.Keys;
  }
}
