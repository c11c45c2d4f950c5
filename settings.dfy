/**
 * Configuration resolution of `settings.py`: the module table of defaults, and `config`,
 * which looks a name up on the command line, then in the environment, then in the
 * defaults table, then falls back to the given default.
 *
 * The environment (process variables and the `.env` file that `decouple` reads) is a
 * map from names to strings; the operating system's name, the location of the
 * module file and the working directory are parameters.
 */
module Settings {
  import opened Outcomes
  import opened Text
  import opened Paths
  import Calendar

  // ------------------------------------------------------------ operating system

  /** `get_os`: the name `platform.system()` reports, mapped to an OS family. */
  function GetOs(systemName: string): (r: string)
    ensures r == "windows" || r == "nix" || r == "unknown"
  {
    if systemName == "Windows" then "windows"
    else if systemName == "Darwin" then "nix"
    else if systemName == "Linux" then "nix"
    else "unknown"
  }

  /** Windows is the only "windows" system, Darwin and Linux the only "nix" ones. */
  lemma GetOsCases(systemName: string)
    ensures GetOs(systemName) == "windows" <==> systemName == "Windows"
    ensures GetOs(systemName) == "nix" <==> systemName == "Darwin" || systemName == "Linux"
  {
  }

  /** `get_stata_exe`: the Stata executable for an OS family; ValueError for any other. */
  function GetStataExe(osType: string): (r: Result<string>)
    ensures r.Ok? <==> osType == "windows" || osType == "nix"
    ensures r.Err? ==> r.error == ValueError("Unknown OS type")
  {
    if osType == "windows" then Ok("StataMP-64.exe")
    else if osType == "nix" then Ok("stata-mp")
    else Err(ValueError("Unknown OS type"))
  }

  /** The executable is known exactly for Windows, Darwin and Linux, and differs between the two families. */
  lemma StataExeForSystem(systemName: string)
    ensures GetStataExe(GetOs(systemName)).Ok? <==>
            systemName == "Windows" || systemName == "Darwin" || systemName == "Linux"
    ensures GetStataExe(GetOs(systemName)).Ok? ==>
            (GetStataExe(GetOs(systemName)).value == "StataMP-64.exe" <==> systemName == "Windows")
  {
  }

  // ------------------------------------------------------------ paths

  /**
   * `if_relative_make_abs`: an absolute path is resolved as it is, a relative one under
   * the project root.  The result is absolute and free of "..", and a path that is
   * already normal comes back unchanged, one without ".." lands under the root.
   */
  function IfRelativeMakeAbs(p: Path, baseDir: Path, cwd: Path): (r: Path)
    requires cwd.absolute
    ensures r.absolute && ".." !in r.parts
    ensures WellFormed(p) && WellFormed(baseDir) && WellFormed(cwd) ==> IsNormalAbsolute(r)
    ensures p.absolute && ".." !in p.parts ==> r == p
    ensures !p.absolute && IsNormalAbsolute(baseDir) && ".." !in p.parts ==> r == Path(true, baseDir.parts + p.parts)
  {
    ResolveFacts(p, baseDir, cwd);
    if p.absolute then Resolve(p, cwd) else Resolve(Join(baseDir, p), cwd)
  }

  lemma ResolveFacts(p: Path, baseDir: Path, cwd: Path)
    requires cwd.absolute
    ensures p.absolute && ".." !in p.parts ==> Resolve(p, cwd) == p
    ensures !p.absolute && IsNormalAbsolute(baseDir) && ".." !in p.parts ==>
              Resolve(Join(baseDir, p), cwd) == Path(true, baseDir.parts + p.parts)
  {
    if p.absolute && ".." !in p.parts {
      CollapseNoDotDot(p.parts);
    }
    if !p.absolute && IsNormalAbsolute(baseDir) && ".." !in p.parts {
      ResolveJoin(baseDir, p, cwd);
      CollapseNoDotDot(baseDir.parts);
    }
  }

  /** Making a path absolute twice is making it absolute once. */
  lemma {:induction false} IfRelativeMakeAbsIdempotent(p: Path, baseDir: Path, cwd: Path)
    requires cwd.absolute
    ensures IfRelativeMakeAbs(IfRelativeMakeAbs(p, baseDir, cwd), baseDir, cwd) == IfRelativeMakeAbs(p, baseDir, cwd)
  {
  }

  // ------------------------------------------------------------ config

  /** A configuration value: a string, a path, a date, Python's None, or whatever else a cast produced. */
  datatype Value = Str(s: string) | PathValue(path: Path) | DateValue(date: Calendar.Date) | NoneValue | Other(repr: string)

  /** `Path(value)`: strings are parsed, paths kept, anything else is a TypeError. */
  function ToPath(v: Value): (r: Result<Path>)
    ensures r.Ok? <==> v.Str? || v.PathValue?
    ensures r.Err? ==> r.error.TypeError?
  {
    match v
    case Str(s) => Ok(Parse(s))
    case PathValue(p) => Ok(p)
    case _ => Err(TypeError("expected str, bytes or os.PathLike object"))
  }

  function ApplyCast(cast: Option<Value -> Value>, v: Value): Value {
    if cast.Some? then cast.value(v) else v
  }

  /** A value from the command line or the environment: a name containing "DIR" becomes an absolute path. */
  function Converted(varName: string, v: Value, convert: bool, baseDir: Path, cwd: Path): (r: Result<Value>)
    requires cwd.absolute
    ensures !(HasSubstring(varName, "DIR") && convert) ==> r == Ok(v)
    ensures HasSubstring(varName, "DIR") && convert ==>
              (r.Ok? <==> v.Str? || v.PathValue?) && (r.Ok? ==> r.value.PathValue? && r.value.path.absolute)
    ensures r.Err? ==> r.error.TypeError?
  {
    if HasSubstring(varName, "DIR") && convert then
      var p :- ToPath(v);
      Ok(PathValue(IfRelativeMakeAbs(p, baseDir, cwd)))
    else Ok(v)
  }

  /** A command-line value counts only when it is not None. */
  predicate OnCommandLine(varName: string, cliVars: map<string, Option<string>>) {
    varName in cliVars && cliVars[varName].Some?
  }

  /** The name is found by one of the first three steps. */
  predicate Found(varName: string, table: map<string, Value>, cliVars: map<string, Option<string>>,
                  env: map<string, string>) {
    OnCommandLine(varName, cliVars) || varName in env || varName in table
  }

  /**
   * Step 4, `decouple`'s `config(var_name, default=default, cast=cast)` for a name that is in
   * neither the environment nor the `.env` file: an explicit default (None included) is never
   * "undefined", so it is handed to the cast, and a cast that is None cannot be called.
   */
  function Fallback(default: Value, cast: Option<Value -> Value>): (r: Result<Value>)
    ensures r.Err? <==> cast.None?
    ensures r.Err? ==> r.error == TypeError("'NoneType' object is not callable")
    ensures r.Ok? ==> r.value == cast.value(default)
  {
    match cast
    case None => Err(TypeError("'NoneType' object is not callable"))
    case Some(f) => Ok(f(default))
  }

  /**
   * The four lookups of `config`, with the table consulted in step 3 given explicitly.
   * `None` in `cliVars` is a name bound to Python's None, which does not count; the
   * default `NoneValue` is Python's None.
   */
  function Lookup(varName: string, default: Value, cast: Option<Value -> Value>,
                  table: map<string, Value>, cliVars: map<string, Option<string>>, env: map<string, string>,
                  convert: bool, baseDir: Path, cwd: Path): (r: Result<Value>)
    requires cwd.absolute
    ensures r.Err? ==> r.error.TypeError?
    ensures r.Err? ==> (HasSubstring(varName, "DIR") && convert) || (cast.None? && !Found(varName, table, cliVars, env))
    ensures cast.None? && !Found(varName, table, cliVars, env) ==> r.Err?
    ensures cast.Some? && !(HasSubstring(varName, "DIR") && convert) ==> r.Ok?
  {
    if OnCommandLine(varName, cliVars) then
      Converted(varName, ApplyCast(cast, Str(cliVars[varName].value)), convert, baseDir, cwd)
    else if varName in env then
      Converted(varName, ApplyCast(cast, Str(env[varName])), convert, baseDir, cwd)
    else if varName in table then
      Ok(ApplyCast(cast, table[varName]))
    else
      Fallback(default, cast)
  }

  /**
   * `config` as written: step 3 reads the module's `defaults`, whatever table the caller passed
   * as `settings_py_defaults`.
   */
  function ConfigAsWritten(varName: string, default: Value, cast: Option<Value -> Value>,
                           settingsPyDefaults: map<string, Value>, cliVars: map<string, Option<string>>,
                           env: map<string, string>, convert: bool, baseDir: Path, cwd: Path,
                           moduleDefaults: map<string, Value>): (r: Result<Value>)
    requires cwd.absolute
    ensures r.Err? ==> r.error.TypeError?
    ensures r.Err? ==>
              (HasSubstring(varName, "DIR") && convert) || (cast.None? && !Found(varName, moduleDefaults, cliVars, env))
    ensures varName in moduleDefaults && !OnCommandLine(varName, cliVars) && varName !in env ==>
              r == Ok(ApplyCast(cast, moduleDefaults[varName]))
    ensures OnCommandLine(varName, cliVars) ==>
              r == Converted(varName, ApplyCast(cast, Str(cliVars[varName].value)), convert, baseDir, cwd)
    ensures !OnCommandLine(varName, cliVars) && varName in env ==>
              r == Converted(varName, ApplyCast(cast, Str(env[varName])), convert, baseDir, cwd)
  {
    Lookup(varName, default, cast, moduleDefaults, cliVars, env, convert, baseDir, cwd)
  }

  /** `config`, reading step 3 from its `settings_py_defaults` parameter. */
  function Config(varName: string, default: Value, cast: Option<Value -> Value>,
                  settingsPyDefaults: map<string, Value>, cliVars: map<string, Option<string>>,
                  env: map<string, string>, convert: bool, baseDir: Path, cwd: Path): (r: Result<Value>)
    requires cwd.absolute
    ensures r.Err? ==> r.error.TypeError?
    ensures r.Err? ==>
              (HasSubstring(varName, "DIR") && convert) || (cast.None? && !Found(varName, settingsPyDefaults, cliVars, env))
    ensures cast.None? && !Found(varName, settingsPyDefaults, cliVars, env) ==> r.Err?
    ensures cast.Some? && !(HasSubstring(varName, "DIR") && convert) ==> r.Ok?
    ensures varName in settingsPyDefaults && !OnCommandLine(varName, cliVars) && varName !in env ==>
              r == Ok(ApplyCast(cast, settingsPyDefaults[varName]))
    ensures OnCommandLine(varName, cliVars) ==>
              r == Converted(varName, ApplyCast(cast, Str(cliVars[varName].value)), convert, baseDir, cwd)
    ensures !OnCommandLine(varName, cliVars) && varName in env ==>
              r == Converted(varName, ApplyCast(cast, Str(env[varName])), convert, baseDir, cwd)
  {
    Lookup(varName, default, cast, settingsPyDefaults, cliVars, env, convert, baseDir, cwd)
  }

  /** As written, the result does not depend on the table passed as `settings_py_defaults`. */
  lemma ConfigAsWrittenIgnoresTable(varName: string, default: Value, cast: Option<Value -> Value>,
                                    table1: map<string, Value>, table2: map<string, Value>,
                                    cliVars: map<string, Option<string>>, env: map<string, string>,
                                    convert: bool, baseDir: Path, cwd: Path, moduleDefaults: map<string, Value>)
    requires cwd.absolute
    ensures ConfigAsWritten(varName, default, cast, table1, cliVars, env, convert, baseDir, cwd, moduleDefaults) ==
            ConfigAsWritten(varName, default, cast, table2, cliVars, env, convert, baseDir, cwd, moduleDefaults)
  {
  }

  /**
   * A value supplied only through `settings_py_defaults`: as written, the lookup falls through
   * to step 4, whose cast None is called; `Config` finds the value.
   */
  lemma ConfigAsWrittenIgnoresParameter(moduleDefaults: map<string, Value>)
    requires "START_YEAR" !in moduleDefaults
    ensures ConfigAsWritten("START_YEAR", NoneValue, None, map["START_YEAR" := Str("1913")], map[], map[], true,
                            Path(true, []), Path(true, []), moduleDefaults) ==
            Err(TypeError("'NoneType' object is not callable"))
    ensures Config("START_YEAR", NoneValue, None, map["START_YEAR" := Str("1913")], map[], map[], true,
                   Path(true, []), Path(true, [])) == Ok(Str("1913"))
  {
  }

  /**
   * A command-line value decides the result: it is cast, then converted when the name holds
   * "DIR"; the environment, the table and the default are not consulted.
   */
  lemma CommandLineWins(varName: string, cast: Option<Value -> Value>, cliVars: map<string, Option<string>>,
                        convert: bool, baseDir: Path, cwd: Path,
                        default1: Value, table1: map<string, Value>, env1: map<string, string>,
                        default2: Value, table2: map<string, Value>, env2: map<string, string>)
    requires cwd.absolute && OnCommandLine(varName, cliVars)
    ensures Config(varName, default1, cast, table1, cliVars, env1, convert, baseDir, cwd) ==
            Config(varName, default2, cast, table2, cliVars, env2, convert, baseDir, cwd)
    ensures Config(varName, default1, cast, table1, cliVars, env1, convert, baseDir, cwd) ==
            Converted(varName, ApplyCast(cast, Str(cliVars[varName].value)), convert, baseDir, cwd)
  {
  }

  /**
   * Without a command-line value, an environment value decides (`export DATA_DIR=/path/to/other`):
   * it is cast, then converted when the name holds "DIR"; the table and the default are not consulted.
   */
  lemma EnvironmentWins(varName: string, cast: Option<Value -> Value>, cliVars: map<string, Option<string>>,
                        env: map<string, string>, convert: bool, baseDir: Path, cwd: Path,
                        default1: Value, table1: map<string, Value>,
                        default2: Value, table2: map<string, Value>)
    requires cwd.absolute && !OnCommandLine(varName, cliVars) && varName in env
    ensures Config(varName, default1, cast, table1, cliVars, env, convert, baseDir, cwd) ==
            Config(varName, default2, cast, table2, cliVars, env, convert, baseDir, cwd)
    ensures Config(varName, default1, cast, table1, cliVars, env, convert, baseDir, cwd) ==
            Converted(varName, ApplyCast(cast, Str(env[varName])), convert, baseDir, cwd)
  {
  }

  /** A value from the table is returned as it is: a "DIR" name is not converted again. */
  lemma TableValueNotConverted(varName: string, default: Value, cast: Option<Value -> Value>,
                               table: map<string, Value>, cliVars: map<string, Option<string>>,
                               env: map<string, string>, baseDir: Path, cwd: Path)
    requires cwd.absolute && !OnCommandLine(varName, cliVars) && varName !in env
    ensures Config(varName, default, cast, table, cliVars, env, true, baseDir, cwd) ==
            Config(varName, default, cast, table, cliVars, env, false, baseDir, cwd)
  {
  }

  /**
   * A name found nowhere goes to step 4: the default (None when none is given) is cast, and
   * without a cast the call fails with a TypeError.
   */
  lemma FallbackOnlyWhenMissing(varName: string, default: Value, cast: Option<Value -> Value>,
                                table: map<string, Value>, cliVars: map<string, Option<string>>,
                                env: map<string, string>, convert: bool, baseDir: Path, cwd: Path)
    requires cwd.absolute && !Found(varName, table, cliVars, env)
    ensures cast.Some? ==> Config(varName, default, cast, table, cliVars, env, convert, baseDir, cwd) == Ok(cast.value(default))
    ensures cast.None? ==>
              Config(varName, default, cast, table, cliVars, env, convert, baseDir, cwd) ==
              Err(TypeError("'NoneType' object is not callable"))
  {
  }

  /** A "DIR" name given on the command line comes back as an absolute path without "..". */
  lemma CommandLineDirIsAbsolute(varName: string, default: Value, table: map<string, Value>,
                                 cliVars: map<string, Option<string>>, env: map<string, string>,
                                 baseDir: Path, cwd: Path)
    requires cwd.absolute && HasSubstring(varName, "DIR") && OnCommandLine(varName, cliVars)
    ensures var r := Config(varName, default, None, table, cliVars, env, true, baseDir, cwd);
            r.Ok? && r.value.PathValue? &&
            r.value.path == IfRelativeMakeAbs(Parse(cliVars[varName].value), baseDir, cwd)
  {
  }

  /** "DATA_DIR" contains "DIR". */
  lemma DataDirIsDir()
    ensures HasSubstring("DATA_DIR", "DIR")
  {
    var s := "DATA_DIR";
    assert StartsWith(s[5..], "DIR");
    assert s[1..][1..][1..][1..][1..] == s[5..];
    assert HasSubstring(s[4..], "DIR") by {
      assert s[4..][1..] == s[5..];
    }
    assert HasSubstring(s[3..], "DIR") by {
      assert s[3..][1..] == s[4..];
    }
    assert HasSubstring(s[2..], "DIR") by {
      assert s[2..][1..] == s[3..];
    }
    assert HasSubstring(s[1..], "DIR") by {
      assert s[1..][1..] == s[2..];
    }
  }

  /**
   * With an absolute "DIR" path without ".." on the command line (`--DATA_DIR=/path/to/data`),
   * `config` gives that very path, whatever the table, the environment and the project root.
   */
  lemma {:induction false} AbsoluteDirFromCommandLine(varName: string, parts: seq<string>, table: map<string, Value>,
                                                      cliVars: map<string, Option<string>>, env: map<string, string>,
                                                      baseDir: Path, cwd: Path)
    requires cwd.absolute && HasSubstring(varName, "DIR")
    requires forall i :: 0 <= i < |parts| ==> ValidPart(parts[i]) && parts[i] != ".."
    requires varName in cliVars && cliVars[varName] == Some("/" + JoinParts(parts))
    ensures Config(varName, NoneValue, None, table, cliVars, env, true, baseDir, cwd) == Ok(PathValue(Path(true, parts)))
  {
    var p := Path(true, parts);
    ParseAbsolute(parts);
    assert IsNormalAbsolute(p);
    assert IfRelativeMakeAbs(p, baseDir, cwd) == p;
    assert Parse(cliVars[varName].value) == p;
    CommandLineDirIsAbsolute(varName, NoneValue, table, cliVars, env, baseDir, cwd);
  }

  /**
   * With no command-line value and an absolute "DIR" path without ".." in the environment
   * (`export DATA_DIR=/path/to/other`), `config` gives that very path.
   */
  lemma {:induction false} AbsoluteDirFromEnvironment(varName: string, parts: seq<string>, table: map<string, Value>,
                                                      cliVars: map<string, Option<string>>, env: map<string, string>,
                                                      baseDir: Path, cwd: Path)
    requires cwd.absolute && HasSubstring(varName, "DIR")
    requires forall i :: 0 <= i < |parts| ==> ValidPart(parts[i]) && parts[i] != ".."
    requires !OnCommandLine(varName, cliVars) && varName in env && env[varName] == "/" + JoinParts(parts)
    ensures Config(varName, NoneValue, None, table, cliVars, env, true, baseDir, cwd) == Ok(PathValue(Path(true, parts)))
  {
    var p := Path(true, parts);
    ParseAbsolute(parts);
    assert IsNormalAbsolute(p);
    assert IfRelativeMakeAbs(p, baseDir, cwd) == p;
    assert Parse(env[varName]) == p;
    EnvironmentWins(varName, None, cliVars, env, true, baseDir, cwd, NoneValue, table, NoneValue, table);
  }

  // ------------------------------------------------------------ the defaults table

  /**
   * The directories of the defaults table, relative to the project root: `Path("_data")` and
   * so on, which are the one-component relative paths (`Paths.ParseRelative`).
   */
  const DataDirName: string := "_data"
  const ManualDataDirName: string := "data_manual"
  const OutputDirName: string := "_output"

  function RelativeDir(name: string): Path {
    Path(false, [name])
  }

  /** The names the module's `defaults` sets before the directories, and the directories' names. */
  const InitialNames: set<string> := {"BASE_DIR", "OS_TYPE", "STATA_EXE", "START_DATE", "END_DATE"}
  const DirectoryNames: set<string> := {"DATA_DIR", "MANUAL_DATA_DIR", "OUTPUT_DIR"}

  lemma DirectoryNamesFresh()
    ensures "DATA_DIR" !in InitialNames && "MANUAL_DATA_DIR" !in InitialNames && "OUTPUT_DIR" !in InitialNames
  {
  }

  /** The five entries of the first part of `defaults`, set one after the other. */
  lemma InitialEntries(base: Value, osType: Value, stata: Value, start: Value, end: Value)
    ensures var m := map["BASE_DIR" := base, "OS_TYPE" := osType, "STATA_EXE" := stata,
                         "START_DATE" := start, "END_DATE" := end];
            m.Keys == InitialNames && m["BASE_DIR"] == base && m["OS_TYPE"] == osType &&
            m["STATA_EXE"] == stata && m["START_DATE"] == start && m["END_DATE"] == end
  {
  }

  /**
   * The first part of the module's `defaults`, built entry by entry: BASE_DIR and OS_TYPE
   * from the command line or derived, STATA_EXE from the command line or from the OS
   * type (ValueError when there is none), and the two dates.
   */
  method InitialDefaults(cliVars: map<string, string>, moduleFile: Path, systemName: string, cwd: Path)
    returns (r: Result<map<string, Value>>)
    requires cwd.absolute
    ensures var osType := if "OS_TYPE" in cliVars then cliVars["OS_TYPE"] else GetOs(systemName);
            r.Ok? <==> "STATA_EXE" in cliVars || GetStataExe(osType).Ok?
    ensures r.Err? ==> r.error == ValueError("Unknown OS type")
    ensures r.Ok? ==> r.value.Keys == InitialNames
    ensures r.Ok? ==>
              var osType := if "OS_TYPE" in cliVars then cliVars["OS_TYPE"] else GetOs(systemName);
              r.value["BASE_DIR"] == PathValue(if "BASE_DIR" in cliVars then Parse(cliVars["BASE_DIR"])
                                               else Parent(Parent(Absolute(moduleFile, cwd)))) &&
              r.value["OS_TYPE"] == Str(osType) &&
              r.value["STATA_EXE"] == Str(if "STATA_EXE" in cliVars then cliVars["STATA_EXE"] else GetStataExe(osType).value) &&
              r.value["START_DATE"] == DateValue(Calendar.Date(1913, 1, 1)) &&
              r.value["END_DATE"] == DateValue(Calendar.Date(2024, 12, 31))
  {
    ghost var base := if "BASE_DIR" in cliVars then Parse(cliVars["BASE_DIR"]) else Parent(Parent(Absolute(moduleFile, cwd)));
    ghost var osType := if "OS_TYPE" in cliVars then cliVars["OS_TYPE"] else GetOs(systemName);
    var defaults: map<string, Value> := map[];
    if "BASE_DIR" in cliVars {
      defaults := defaults["BASE_DIR" := PathValue(Parse(cliVars["BASE_DIR"]))];
    } else {
      defaults := defaults["BASE_DIR" := PathValue(Parent(Parent(Absolute(moduleFile, cwd))))];
    }
    assert defaults == map["BASE_DIR" := PathValue(base)];
    if "OS_TYPE" in cliVars {
      defaults := defaults["OS_TYPE" := Str(cliVars["OS_TYPE"])];
    } else {
      defaults := defaults["OS_TYPE" := Str(GetOs(systemName))];
    }
    assert defaults == map["BASE_DIR" := PathValue(base), "OS_TYPE" := Str(osType)];
    if "STATA_EXE" in cliVars {
      defaults := defaults["STATA_EXE" := Str(cliVars["STATA_EXE"])];
    } else {
      var exe := GetStataExe(defaults["OS_TYPE"].s);
      if exe.Err? {
        return Err(exe.error);
      }
      defaults := defaults["STATA_EXE" := Str(exe.value)];
    }
    ghost var stata := defaults["STATA_EXE"];
    defaults := defaults["START_DATE" := DateValue(Calendar.Date(1913, 1, 1))];
    defaults := defaults["END_DATE" := DateValue(Calendar.Date(2024, 12, 31))];
    InitialEntries(PathValue(base), Str(osType), stata,
                   DateValue(Calendar.Date(1913, 1, 1)), DateValue(Calendar.Date(2024, 12, 31)));
    r := Ok(defaults);
  }

  /** The three directory entries, each made absolute under `base`. */
  function DirectoryEntries(base: Path, cwd: Path): (r: map<string, Value>)
    requires cwd.absolute
    ensures r.Keys == DirectoryNames
    ensures r["DATA_DIR"] == PathValue(IfRelativeMakeAbs(RelativeDir(DataDirName), base, cwd))
    ensures r["MANUAL_DATA_DIR"] == PathValue(IfRelativeMakeAbs(RelativeDir(ManualDataDirName), base, cwd))
    ensures r["OUTPUT_DIR"] == PathValue(IfRelativeMakeAbs(RelativeDir(OutputDirName), base, cwd))
  {
    map["DATA_DIR" := PathValue(IfRelativeMakeAbs(RelativeDir(DataDirName), base, cwd)),
        "MANUAL_DATA_DIR" := PathValue(IfRelativeMakeAbs(RelativeDir(ManualDataDirName), base, cwd)),
        "OUTPUT_DIR" := PathValue(IfRelativeMakeAbs(RelativeDir(OutputDirName), base, cwd))]
  }

  /**
   * The module's `defaults`: the three directories, made absolute under BASE_DIR, put in
   * front of the entries built so far (which win on a clash, as `**defaults` comes last).
   */
  method ModuleDefaults(cliVars: map<string, string>, moduleFile: Path, systemName: string, cwd: Path)
    returns (r: Result<map<string, Value>>)
    requires cwd.absolute
    ensures var osType := if "OS_TYPE" in cliVars then cliVars["OS_TYPE"] else GetOs(systemName);
            r.Ok? <==> "STATA_EXE" in cliVars || GetStataExe(osType).Ok?
    ensures r.Err? ==> r.error == ValueError("Unknown OS type")
    ensures r.Ok? ==> r.value.Keys == InitialNames + DirectoryNames
    ensures r.Ok? ==>
              var base := if "BASE_DIR" in cliVars then Parse(cliVars["BASE_DIR"]) else Parent(Parent(Absolute(moduleFile, cwd)));
              r.value["BASE_DIR"] == PathValue(base) &&
              r.value["DATA_DIR"] == PathValue(IfRelativeMakeAbs(RelativeDir(DataDirName), base, cwd)) &&
              r.value["MANUAL_DATA_DIR"] == PathValue(IfRelativeMakeAbs(RelativeDir(ManualDataDirName), base, cwd)) &&
              r.value["OUTPUT_DIR"] == PathValue(IfRelativeMakeAbs(RelativeDir(OutputDirName), base, cwd))
    ensures r.Ok? ==>
              var osType := if "OS_TYPE" in cliVars then cliVars["OS_TYPE"] else GetOs(systemName);
              r.value["OS_TYPE"] == Str(osType) &&
              r.value["STATA_EXE"] == Str(if "STATA_EXE" in cliVars then cliVars["STATA_EXE"] else GetStataExe(osType).value) &&
              r.value["START_DATE"] == DateValue(Calendar.Date(1913, 1, 1)) &&
              r.value["END_DATE"] == DateValue(Calendar.Date(2024, 12, 31))
  {
    var initial := InitialDefaults(cliVars, moduleFile, systemName, cwd);
    if initial.Err? {
      return Err(initial.error);
    }
    var defaults := initial.value;
    var base := defaults["BASE_DIR"].path;
    DirectoryNamesFresh();
    var dirs := DirectoryEntries(base, cwd);
    r := Ok(dirs + defaults);
  }

  /** A single relative component is placed directly under a normal absolute project root. */
  lemma {:induction false} ChildOfBase(name: string, base: Path, cwd: Path)
    requires cwd.absolute && IsNormalAbsolute(base) && ValidPart(name) && name != ".."
    ensures IfRelativeMakeAbs(RelativeDir(name), base, cwd) == Path(true, base.parts + [name])
  {
    assert base.parts + [name] == base.parts + RelativeDir(name).parts;
  }

  /** With the project root an absolute normal path, the three directories are its children `_data`, `data_manual` and `_output`. */
  lemma {:induction false} DefaultDirectoriesUnderBase(base: Path, cwd: Path)
    requires cwd.absolute && IsNormalAbsolute(base)
    ensures IfRelativeMakeAbs(RelativeDir(DataDirName), base, cwd) == Path(true, base.parts + ["_data"])
    ensures IfRelativeMakeAbs(RelativeDir(ManualDataDirName), base, cwd) == Path(true, base.parts + ["data_manual"])
    ensures IfRelativeMakeAbs(RelativeDir(OutputDirName), base, cwd) == Path(true, base.parts + ["_output"])
  {
    ChildOfBase(DataDirName, base, cwd);
    ChildOfBase(ManualDataDirName, base, cwd);
    ChildOfBase(OutputDirName, base, cwd);
  }
}
