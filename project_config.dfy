/**
 * `config.py`, the older configuration module: every setting is read from the
 * environment (the process variables and the `.env` file, one map from names to
 * strings here) or takes its default; the project root is two levels above the
 * resolved location of the module file; the four directories are made absolute under
 * that root; and the Stata executable depends on the OS family, with no way around
 * an unknown one.
 */
module ProjectConfig {
  import opened Outcomes
  import opened Paths
  import Settings

  /** The module's constants after it has been imported. */
  datatype ProjectSettings = ProjectSettings(
    osType: string,
    baseDir: Path,
    wrdsUsername: string,
    pipelineTheme: string,
    dataDir: Path,
    manualDataDir: Path,
    outputDir: Path,
    docsPublishDir: Path,
    stataExe: string)

  /** What `if_relative_make_abs` always returns: an absolute path without "..". */
  predicate Anchored(p: Path) {
    p.absolute && ".." !in p.parts
  }

  /** `BASE_DIR = Path(__file__).resolve().parent.parent`. */
  function BaseDir(moduleFile: Path, cwd: Path): (r: Path)
    requires cwd.absolute
    ensures r.absolute && ".." !in r.parts
    ensures WellFormed(moduleFile) && WellFormed(cwd) ==> IsNormalAbsolute(r)
  {
    Parent(Parent(Resolve(moduleFile, cwd)))
  }

  /** `config(name, default)` for a string setting: the environment's value, else the default. */
  function Setting(name: string, default: string, env: map<string, string>): (r: string)
    ensures name in env ==> r == env[name]
    ensures name !in env ==> r == default
  {
    if name in env then env[name] else default
  }

  /**
   * `if_relative_make_abs(config(name, default=Path(defaultName), cast=Path))`: the
   * environment's value, else the one-component default, made absolute under the root.
   */
  function DirSetting(name: string, defaultName: string, env: map<string, string>, baseDir: Path, cwd: Path): (r: Path)
    requires cwd.absolute
    ensures r.absolute && ".." !in r.parts
    ensures name in env ==> r == Settings.IfRelativeMakeAbs(Parse(env[name]), baseDir, cwd)
    ensures name !in env ==> r == Settings.IfRelativeMakeAbs(Path(false, [defaultName]), baseDir, cwd)
  {
    var p := if name in env then Parse(env[name]) else Path(false, [defaultName]);
    Settings.IfRelativeMakeAbs(p, baseDir, cwd)
  }

  /** The Stata executable: the environment's STATA_EXE when the OS family is known, else ValueError. */
  function StataExe(osType: string, env: map<string, string>): (r: Result<string>)
    ensures r.Ok? <==> osType == "windows" || osType == "nix"
    ensures r.Err? ==> r.error == ValueError("Unknown OS type")
    ensures r.Ok? && "STATA_EXE" in env ==> r.value == env["STATA_EXE"]
    ensures r.Ok? && "STATA_EXE" !in env ==> r.value == (if osType == "windows" then "StataMP-64.exe" else "stata-mp")
  {
    if osType == "windows" then Ok(Setting("STATA_EXE", "StataMP-64.exe", env))
    else if osType == "nix" then Ok(Setting("STATA_EXE", "stata-mp", env))
    else Err(ValueError("Unknown OS type"))
  }

  /** Importing the module: the constants in the order the module sets them, or the ValueError it raises. */
  function Load(env: map<string, string>, moduleFile: Path, systemName: string, cwd: Path): (r: Result<ProjectSettings>)
    requires cwd.absolute
    ensures r.Ok? <==> systemName == "Windows" || systemName == "Darwin" || systemName == "Linux"
    ensures r.Err? ==> r.error == ValueError("Unknown OS type")
    ensures r.Ok? ==>
              r.value.osType == (if systemName == "Windows" then "windows" else "nix") &&
              r.value.baseDir == BaseDir(moduleFile, cwd) &&
              r.value.wrdsUsername == Setting("WRDS_USERNAME", "", env) &&
              r.value.pipelineTheme == Setting("PIPELINE_THEME", "pipeline", env)
    ensures r.Ok? ==>
              r.value.dataDir == DirSetting("DATA_DIR", "_data", env, r.value.baseDir, cwd) &&
              r.value.manualDataDir == DirSetting("MANUAL_DATA_DIR", "data_manual", env, r.value.baseDir, cwd) &&
              r.value.outputDir == DirSetting("OUTPUT_DIR", "_output", env, r.value.baseDir, cwd) &&
              r.value.docsPublishDir == DirSetting("DOCS_PUBLISH_DIR", "docs", env, r.value.baseDir, cwd)
    ensures r.Ok? ==>
              Anchored(r.value.dataDir) && Anchored(r.value.manualDataDir) &&
              Anchored(r.value.outputDir) && Anchored(r.value.docsPublishDir)
  {
    var osType := Settings.GetOs(systemName);
    var baseDir := BaseDir(moduleFile, cwd);
    var wrdsUsername := Setting("WRDS_USERNAME", "", env);
    var pipelineTheme := Setting("PIPELINE_THEME", "pipeline", env);
    var dataDir := DirSetting("DATA_DIR", "_data", env, baseDir, cwd);
    var manualDataDir := DirSetting("MANUAL_DATA_DIR", "data_manual", env, baseDir, cwd);
    var outputDir := DirSetting("OUTPUT_DIR", "_output", env, baseDir, cwd);
    var docsPublishDir := DirSetting("DOCS_PUBLISH_DIR", "docs", env, baseDir, cwd);
    Settings.GetOsCases(systemName);
    var stataExe :- StataExe(osType, env);
    Ok(ProjectSettings(osType, baseDir, wrdsUsername, pipelineTheme, dataDir, manualDataDir, outputDir, docsPublishDir, stataExe))
  }

  /**
   * Unlike `settings.py`, which accepts a STATA_EXE given on the command line whatever
   * the OS, this module raises for an unknown OS even when STATA_EXE is set.
   */
  lemma {:induction false} UnknownOsRaises(env: map<string, string>, moduleFile: Path, systemName: string, cwd: Path)
    requires cwd.absolute && Settings.GetOs(systemName) == "unknown"
    ensures Load(env, moduleFile, systemName, cwd) == Err(ValueError("Unknown OS type"))
  {
    Settings.GetOsCases(systemName);
  }

  /**
   * Without an environment value, a directory is its default name directly under the
   * project root, which is a normal absolute path (`_data`, `data_manual`, `_output`
   * and `docs` in `Load`).
   */
  lemma {:induction false} DefaultDirectory(name: string, defaultName: string, env: map<string, string>,
                                             moduleFile: Path, cwd: Path)
    requires cwd.absolute && WellFormed(moduleFile) && WellFormed(cwd)
    requires name !in env && ValidPart(defaultName) && defaultName != ".."
    ensures var base := BaseDir(moduleFile, cwd);
            IsNormalAbsolute(base) && DirSetting(name, defaultName, env, base, cwd) == Path(true, base.parts + [defaultName])
  {
    Settings.ChildOfBase(defaultName, BaseDir(moduleFile, cwd), cwd);
  }

  /** A directory set in the environment as a normal absolute path is taken as it is. */
  lemma {:induction false} AbsoluteDirectoryKept(name: string, defaultName: string, env: map<string, string>,
                                                  parts: seq<string>, baseDir: Path, cwd: Path)
    requires cwd.absolute
    requires forall i :: 0 <= i < |parts| ==> ValidPart(parts[i]) && parts[i] != ".."
    requires name in env && env[name] == "/" + JoinParts(parts)
    ensures DirSetting(name, defaultName, env, baseDir, cwd) == Path(true, parts)
  {
    ParseAbsolute(parts);
  }
}
