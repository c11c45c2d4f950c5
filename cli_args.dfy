/**
 * `find_all_caps_cli_vars` of `settings.py`: the scan of the command line for
 * `--NAME=value` and `--NAME value` pairs whose name is all caps.
 */
module CliArgs {
  import opened Outcomes
  import opened Text

  /** `--NAME=value` whose text before the first "=" is all caps. */
  predicate EqualsForm(arg: string) {
    StartsWith(arg, "--") && '=' in arg && IsUpper(BeforeFirst(arg[2..], '='))
  }

  lemma EqualsInRest(arg: string)
    requires StartsWith(arg, "--") && '=' in arg
    ensures '=' in arg[2..]
  {
    var k :| 0 <= k < |arg| && arg[k] == '=';
    assert arg[..2] == "--";
    assert k >= 2 && arg[2..][k - 2] == '=';
  }

  /** The name of an `--NAME=value` argument: the text before the first "=". */
  function OptionName(arg: string): string
    requires EqualsForm(arg)
  {
    BeforeFirst(arg[2..], '=')
  }

  /** The value of an `--NAME=value` argument: everything after the first "=". */
  function OptionValue(arg: string): string
    requires EqualsForm(arg)
  {
    EqualsInRest(arg);
    AfterFirst(arg[2..], '=')
  }

  /** `--NAME` with an all-caps remainder, not in the first form, and followed by another argument. */
  predicate SpaceForm(argv: seq<string>, i: nat) {
    i + 1 < |argv| && !EqualsForm(argv[i]) && StartsWith(argv[i], "--") && IsUpper(argv[i][2..])
  }

  /** What the scan records from position `i` on, starting from the entries `acc`. */
  function ScanFrom(argv: seq<string>, i: nat, acc: map<string, string>): map<string, string>
    requires i <= |argv|
    decreases |argv| - i
  {
    if i == |argv| then acc
    else if EqualsForm(argv[i]) then ScanFrom(argv, i + 1, acc[OptionName(argv[i]) := OptionValue(argv[i])])
    else if SpaceForm(argv, i) && !StartsWith(argv[i + 1], "--") then
      ScanFrom(argv, i + 2, acc[argv[i][2..] := argv[i + 1]])
    else ScanFrom(argv, i + 1, acc)
  }

  /** The variables found on the whole command line. */
  function CliVars(argv: seq<string>): map<string, string> {
    ScanFrom(argv, 0, map[])
  }

  /**
   * `find_all_caps_cli_vars`: one pass over the arguments, the index moving on by one,
   * or by two when the next argument was taken as a value.
   */
  method FindAllCapsCliVars(argv: seq<string>) returns (result: map<string, string>)
    ensures result == CliVars(argv)
  {
    result := map[];
    var i := 0;
    while i < |argv|
      invariant 0 <= i <= |argv|
      invariant ScanFrom(argv, i, result) == CliVars(argv)
      decreases |argv| - i
    {
      var arg := argv[i];
      if StartsWith(arg, "--") && '=' in arg && IsUpper(BeforeFirst(arg[2..], '=')) {
        EqualsInRest(arg);
        var varName, value := BeforeFirst(arg[2..], '='), AfterFirst(arg[2..], '=');
        result := result[varName := value];
      } else if StartsWith(arg, "--") && IsUpper(arg[2..]) && i + 1 < |argv| {
        var varName := arg[2..];
        var value := argv[i + 1];
        if !StartsWith(value, "--") {
          result := result[varName := value];
          i := i + 1;
        }
      }
      i := i + 1;
    }
  }

  /** The entries found before `i` only ever lose to entries found later. */
  lemma {:induction false} ScanAcc(argv: seq<string>, i: nat, acc: map<string, string>)
    requires i <= |argv|
    ensures ScanFrom(argv, i, acc) == acc + ScanFrom(argv, i, map[])
    decreases |argv| - i
  {
    if i < |argv| {
      var k: string, v: string, next: nat;
      if EqualsForm(argv[i]) {
        k, v, next := OptionName(argv[i]), OptionValue(argv[i]), i + 1;
      } else if SpaceForm(argv, i) && !StartsWith(argv[i + 1], "--") {
        k, v, next := argv[i][2..], argv[i + 1], i + 2;
      } else {
        ScanAcc(argv, i + 1, acc);
        return;
      }
      ScanAcc(argv, next, acc[k := v]);
      ScanAcc(argv, next, map[k := v]);
      assert acc[k := v] == acc + map[k := v];
      MapUnionAssociative(acc, map[k := v], ScanFrom(argv, next, map[]));
    }
  }

  lemma MapUnionAssociative(a: map<string, string>, b: map<string, string>, c: map<string, string>)
    ensures (a + b) + c == a + (b + c)
  {
  }

  /** Scanning the tail of `a + b` is scanning `b`. */
  lemma {:induction false} ScanShift(a: seq<string>, b: seq<string>, j: nat, acc: map<string, string>)
    requires j <= |b|
    ensures ScanFrom(a + b, |a| + j, acc) == ScanFrom(b, j, acc)
    decreases |b| - j
  {
    var s := a + b;
    if j < |b| {
      assert s[|a| + j] == b[j];
      if j + 1 < |b| {
        assert s[|a| + j + 1] == b[j + 1];
      }
      if EqualsForm(b[j]) {
        ScanShift(a, b, j + 1, acc[OptionName(b[j]) := OptionValue(b[j])]);
      } else if SpaceForm(b, j) && !StartsWith(b[j + 1], "--") {
        ScanShift(a, b, j + 2, acc[b[j][2..] := b[j + 1]]);
      } else {
        ScanShift(a, b, j + 1, acc);
      }
    }
  }

  /** When `b` starts with an option, the scan of `a + b` is the scan of `a` and then the scan of `b`. */
  lemma {:induction false} ScanConcat(a: seq<string>, b: seq<string>, i: nat, acc: map<string, string>)
    requires i <= |a|
    requires b == [] || StartsWith(b[0], "--")
    ensures ScanFrom(a + b, i, acc) == ScanFrom(b, 0, ScanFrom(a, i, acc))
    decreases |a| - i
  {
    var s := a + b;
    if i == |a| {
      ScanShift(a, b, 0, acc);
    } else {
      assert s[i] == a[i];
      if i + 1 < |a| {
        assert s[i + 1] == a[i + 1];
      } else if b != [] {
        assert s[i + 1] == b[0];
      }
      if EqualsForm(a[i]) {
        ScanConcat(a, b, i + 1, acc[OptionName(a[i]) := OptionValue(a[i])]);
      } else if SpaceForm(a, i) && !StartsWith(a[i + 1], "--") {
        ScanConcat(a, b, i + 2, acc[a[i][2..] := a[i + 1]]);
      } else {
        ScanConcat(a, b, i + 1, acc);
      }
    }
  }

  /**
   * Splitting the command line before an option: the variables of the whole line are
   * those of the first part, overwritten by those of the second.
   */
  lemma {:induction false} CliVarsConcat(a: seq<string>, b: seq<string>)
    requires b == [] || StartsWith(b[0], "--")
    ensures CliVars(a + b) == CliVars(a) + CliVars(b)
  {
    ScanConcat(a, b, 0, map[]);
    ScanAcc(b, 0, CliVars(a));
  }

  /** Only all-caps names are ever recorded. */
  lemma {:induction false} ScanKeysUpper(argv: seq<string>, i: nat, acc: map<string, string>)
    requires i <= |argv|
    requires forall k :: k in acc ==> IsUpper(k)
    ensures forall k :: k in ScanFrom(argv, i, acc) ==> IsUpper(k)
    decreases |argv| - i
  {
    if i < |argv| {
      if EqualsForm(argv[i]) {
        ScanKeysUpper(argv, i + 1, acc[OptionName(argv[i]) := OptionValue(argv[i])]);
      } else if SpaceForm(argv, i) && !StartsWith(argv[i + 1], "--") {
        ScanKeysUpper(argv, i + 2, acc[argv[i][2..] := argv[i + 1]]);
      } else {
        ScanKeysUpper(argv, i + 1, acc);
      }
    }
  }

  lemma {:induction false} CliVarsKeysUpper(argv: seq<string>)
    ensures forall k :: k in CliVars(argv) ==> IsUpper(k)
  {
    ScanKeysUpper(argv, 0, map[]);
  }

  /** `--NAME=value` records everything after the first "=" under NAME, and nothing else. */
  lemma {:induction false} EqualsArgument(arg: string)
    requires EqualsForm(arg)
    ensures CliVars([arg]) == map[OptionName(arg) := OptionValue(arg)]
    ensures arg == "--" + OptionName(arg) + "=" + OptionValue(arg) && '=' !in OptionName(arg)
  {
    EqualsInRest(arg);
    assert arg == arg[..2] + arg[2..];
    assert [arg][0] == arg;
    assert CliVars([arg]) == ScanFrom([arg], 1, map[OptionName(arg) := OptionValue(arg)]);
  }

  /** `--NAME value`: the value is taken when it does not look like an option; otherwise NAME is dropped. */
  lemma {:induction false} SpaceArgument(option: string, value: string)
    requires StartsWith(option, "--") && !EqualsForm(option) && IsUpper(option[2..])
    ensures !StartsWith(value, "--") ==> CliVars([option, value]) == map[option[2..] := value]
    ensures StartsWith(value, "--") ==> CliVars([option, value]) == CliVars([value])
    ensures CliVars([option]) == map[]
  {
    var argv := [option, value];
    assert argv[0] == option && argv[1] == value;
    assert SpaceForm(argv, 0);
    if StartsWith(value, "--") {
      assert CliVars(argv) == ScanFrom(argv, 1, map[]);
      ScanShift([option], [value], 0, map[]);
      assert [option] + [value] == argv;
    } else {
      assert CliVars(argv) == ScanFrom(argv, 2, map[option[2..] := value]);
    }
    assert [option][0] == option;
    assert CliVars([option]) == ScanFrom([option], 1, map[]);
  }

  /** An argument that does not start with "--", or whose name is not all caps, records nothing. */
  lemma {:induction false} IgnoredArgument(arg: string)
    requires !StartsWith(arg, "--") || (!EqualsForm(arg) && !IsUpper(arg[2..]))
    ensures CliVars([arg]) == map[]
  {
    assert [arg][0] == arg;
    assert CliVars([arg]) == ScanFrom([arg], 1, map[]);
  }

  /** A later `--NAME=value` overwrites an earlier value of NAME. */
  lemma {:induction false} LaterOccurrenceWins(argv: seq<string>, arg: string)
    requires EqualsForm(arg)
    ensures CliVars(argv + [arg]) == CliVars(argv)[OptionName(arg) := OptionValue(arg)]
  {
    CliVarsConcat(argv, [arg]);
    EqualsArgument(arg);
  }

  /** `s.split("=", 1)` when the part before the "=" has none. */
  lemma SplitAtFirst(name: string, value: string)
    requires '=' !in name
    ensures BeforeFirst(name + "=" + value, '=') == name
    ensures AfterFirst(name + "=" + value, '=') == value
  {
    var s := name + "=" + value;
    assert s[|name|] == '=' && s[..|name|] == name;
    assert FirstIndex(s, '=') == Some(|name|);
    assert s[|name| + 1..] == value;
  }

  /** `--NAME=value` with an all-caps NAME is in the first form, with that name and value. */
  lemma {:induction false} OptionArgument(name: string, value: string)
    requires '=' !in name && IsUpper(name)
    ensures var arg := "--" + name + "=" + value;
            EqualsForm(arg) && OptionName(arg) == name && OptionValue(arg) == value
  {
    var arg := "--" + name + "=" + value;
    assert arg == "--" + (name + "=" + value);
    assert arg[2..] == name + "=" + value;
    assert arg[2 + |name|] == '=';
    SplitAtFirst(name, value);
  }

  /**
   * The documented notebook command line, `<launcher> --f=<kernel file> --DATA_DIR=... --MANUAL_DATA_DIR=...`:
   * the launcher and the lower-case `--f=...` are ignored, and the two all-caps options are recorded.
   */
  lemma {:induction false} NotebookCommandLine(launcher: string, flag: string, flagValue: string,
                                               name1: string, value1: string, name2: string, value2: string)
    requires !StartsWith(launcher, "--")
    requires flag != "" && IsLowerLetter(flag[0]) && '=' !in flag
    requires '=' !in name1 && IsUpper(name1) && '=' !in name2 && IsUpper(name2)
    ensures CliVars([launcher, "--" + flag + "=" + flagValue, "--" + name1 + "=" + value1, "--" + name2 + "=" + value2]) ==
            map[name1 := value1][name2 := value2]
  {
    var k := "--" + flag + "=" + flagValue;
    var d, m := "--" + name1 + "=" + value1, "--" + name2 + "=" + value2;
    assert k[2..] == flag + "=" + flagValue;
    SplitAtFirst(flag, flagValue);
    assert !IsUpper(flag);
    assert !IsUpper(k[2..]) by {
      assert IsLowerLetter(k[2..][0]);
    }
    IgnoredArgument(launcher);
    IgnoredArgument(k);
    OptionArgument(name1, value1);
    OptionArgument(name2, value2);
    CliVarsConcat([launcher], [k]);
    assert [launcher] + [k] == [launcher, k];
    LaterOccurrenceWins([launcher, k], d);
    assert [launcher, k] + [d] == [launcher, k, d];
    LaterOccurrenceWins([launcher, k, d], m);
    assert [launcher, k, d] + [m] == [launcher, k, d, m];
  }

  /** The two directory names of the documented command line are all caps and free of "=". */
  lemma DirectoryOptionNames()
    ensures IsUpper("DATA_DIR") && '=' !in "DATA_DIR"
    ensures IsUpper("MANUAL_DATA_DIR") && '=' !in "MANUAL_DATA_DIR"
  {
    assert IsUpperLetter("DATA_DIR"[0]);
    assert IsUpperLetter("MANUAL_DATA_DIR"[0]);
  }
}
