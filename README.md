# Verified model of the project utilities of a rate-curve pipeline

This project models the supporting utilities of a Python research pipeline for
repo rates and CDS returns, and proves what they promise. The pipeline's floating-point
analytics are outside the model. The modelled utilities are:

- **Identifier, calendar and table helpers** (`src/misc_tools.py`):
  - the CUSIP check digit and the conversion of 8-character CUSIPs to 9 characters;
  - quarter and month boundaries of timestamps;
  - `merge_stats`;
  - leave-one-out group sums and group-wise lags;
  - in-place column moves;
  - the null-aware grouped weighted mean.
- **Configuration resolution** (`src/settings.py` and its older twin `src/config.py`):
  - the all-caps command-line scanner;
  - the module table of defaults;
  - the four-level lookup of `config`;
  - the relative-to-absolute path rule;
  - the OS-name and Stata-executable mapping.
- **Publishing** (`src/pipeline_publish.py`):
  - the lists of documentation pages;
  - the dataframe-to-page table;
  - the three copy plans;
  - the theme-dependent page links;
  - the README text that goes into the built docs.

## Modules

Each `.dfy` file holds one module.

**Shared modules**
- `Outcomes`: `Option`, `Result` and the Python exceptions the code raises.
- `Text`: the `str` operations the code relies on.
- `Paths`: `pathlib` on POSIX paths, taken lexically.
- `DictUpdates`: a dict filled by a loop of `d[k] = v`.

**`misc_tools.py`**
- `Cusip`, `Calendar`, `MergeStats` and `Groups`: pure functions.
- `Frames`: a `Frame` class whose methods change the caller's table in place, as pandas
  does.

**`settings.py` and `config.py`**
- `CliArgs`: the argv scan, as a `while` loop proved against a recursive specification.
- `Settings`: `settings.py`.
- `ProjectConfig`: `config.py`.

**`pipeline_publish.py`**
- `PipelinePublish`: the pipeline specs and `_get`.
- `DataframeDocs`: `get_dataframes_and_dataframe_docs`.
- `PublishPlan`: `get_file_publish_plan`.
- `DocLinks`: page links, README text and the index page.

The loops of `_get`, `get_file_publish_plan` and `get_dataframes_and_dataframe_docs` are
methods with loop invariants. Each is proved equal to a function of the specs, and the
properties are lemmas about that function.

## Model

| member | source | states |
|---|---|---|
| Cusip.CharValue | src/misc_tools.py:429-440 | `_alphabet.index(c)` is defined exactly for the 39 CUSIP characters and is below 39 |
| Cusip.CharValueIsIndex | src/misc_tools.py:429-440 | the value is defined iff `c` occurs in the alphabet, and it is `c`'s position there |
| Cusip.WeightedDigitsSum | src/misc_tools.py:439-441 | the joined string of weighted values exists iff every character is in the set; it consists of decimal digits, and their sum is the weighted digit sum (digits of value times 1 on even positions and times 2 on odd ones) |
| Cusip.CheckDigit | src/misc_tools.py:432-442 | defined iff the input is over the alphabet; the result is one decimal digit that brings the weighted digit sum to a multiple of 10 |
| Cusip.CheckDigitUnique | src/misc_tools.py:442 | a digit is the check digit iff it brings the weighted digit sum to a multiple of 10, so exactly one digit qualifies |
| Cusip.ConvertCusip | src/misc_tools.py:445-448 | ValueError iff a character is outside the CUSIP set; otherwise the input followed by its check digit `calc_check_digit(s)`, a decimal digit that completes the weighted sum to a multiple of 10 |
| Cusip.ConvertCusips | src/misc_tools.py:445-448 | on a series: fails on an empty series or any invalid entry; otherwise it has the same length and each element is that entry's conversion |
| Cusip.ConvertCusipWith | src/misc_tools.py:445-448 | any digit that completes the sum gives the 9-character CUSIP `s + [c]` |
| Cusip.ConvertCusipExample | src/misc_tools.py:445-448 | `03783310` becomes `037833100` |
| Calendar.PrevNextDay | src/misc_tools.py:660-742 | the day before and the day after are inverse on valid dates |
| Calendar.MostRecentQuarterEnd | src/misc_tools.py:660-673 | a quarter end at midnight, strictly before the date, whose next day is the 1st of the date's quarter |
| Calendar.NextQuarterStart | src/misc_tools.py:676-691 | the 1st of a quarter month at midnight, strictly after the date and 1 to 3 months ahead |
| Calendar.EndOfCurrentMonth | src/misc_tools.py:694-719 | the last calendar day of the date's own month and year, time zeroed |
| Calendar.EndOfCurrentQuarter | src/misc_tools.py:722-742 | a quarter end at midnight in the date's own quarter, not before the date |
| Calendar.QuarterEndsAgree | src/misc_tools.py:722-742 | the end of the current quarter is the most recent quarter end before the next quarter start |
| Calendar.MonthEndWithinQuarter | src/misc_tools.py:694-742 | date <= end of month <= end of quarter |
| Calendar.FirstQuarterLooksBackAYear | src/misc_tools.py:660-673 | for January to March the most recent quarter end is December 31 of the year before |
| Calendar.FourthQuarterRollsOver | src/misc_tools.py:676-691 | for October to December the next quarter start is January 1 of the next year |
| Calendar.OctoberExamples | src/misc_tools.py:660-742 | from 2019-10-21: 2019-09-30, 2020-01-01, 2019-10-31 and 2019-12-31 |
| Calendar.MiddayExamples | src/misc_tools.py:694-742 | 2023-03-31 12:00 gives month end and quarter end 2023-03-31 at midnight |
| MergeStats.Compute | src/misc_tools.py:86-133 | fails with ZeroDivisionError iff a side is empty; union, intersection, left and right are the sizes of the sets of distinct keys; the three differences are the sizes of the symmetric difference, of left-only and of right-only keys; each ratio is the intersection's size over the union's, the left's or the right's |
| MergeStats.UnionSplits | src/misc_tools.py:123-130 | union = intersection + left excess + right excess; union - intersection = sum of the two excesses |
| MergeStats.CountsBounded | src/misc_tools.py:123-130 | every count lies between 0 and the union |
| MergeStats.RatiosBounded | src/misc_tools.py:126-132 | the three ratios lie in [0, 1] |
| MergeStats.CompleteMatch | src/misc_tools.py:126 | intersection/union is 1 iff both sides have the same distinct keys |
| Groups.LeaveOneOutSums | src/misc_tools.py:621-657 | one entry per row, null exactly where the key or the value is null |
| Groups.LeaveOneOutIsSumOfOthers | src/misc_tools.py:621-657 | a row's entry is the sum of its group's values over the other rows |
| Groups.LeaveOneOutExample | src/misc_tools.py:633-651 | the doc-test: groups one/two with 1,5,5,2,5,3 give 10,6,6,8,5,7 |
| Groups.GroupShift | src/misc_tools.py:484 | one entry per row; a row with a null key gets null |
| Groups.ShiftLeadingNulls | src/misc_tools.py:484 | the first `lags` rows of each group get null |
| Groups.ShiftTakesLaggedRow | src/misc_tools.py:484 | any later row gets the value of the row exactly `lags` group rows earlier |
| Groups.ShiftByOneTakesPrevious | src/misc_tools.py:484 | with lag 1 a row gets the value of the previous row of its group |
| Groups.ShiftFirstOfGroup | src/misc_tools.py:484 | the first row of a group gets null for any positive lag |
| Groups.ShiftExample | src/misc_tools.py:535-546 | two groups of 3 and 6 rows lagged by one: null at each group start, otherwise the row before |
| Frames.Frame.MoveColumn | src/misc_tools.py:224-231 | a missing column is a KeyError with nothing changed; a valid position re-inserts the column there with the cells unchanged; a position past the end leaves the column popped (IndexError) |
| Frames.Frame.MoveColumnsToFront | src/misc_tools.py:234-237 | succeeds iff every column exists; the cells are unchanged; for distinct `cols` the columns become `cols` followed by the rest in their old order; on a KeyError the moves made before it have happened |
| Frames.MovedToFrontOrder | src/misc_tools.py:234-237 | the result of the repeated moves is `cols` followed by the other columns in their original order |
| Frames.MovedToFrontKeeps | src/misc_tools.py:234-237 | the moves keep the same distinct set of columns |
| Frames.Frame.AddTemporaryColumns | src/misc_tools.py:298-299 | both temporary columns exist afterwards; when neither name was taken, `_data_times_weight` and `_weight_where_notnull` are appended, holding x·w and w where x is not null, and every other column is unchanged |
| Frames.Frame.GroupMeansAndDrop | src/misc_tools.py:300-302 | the per-group quotient of the two temporary sums, and both columns deleted; a missing `by_col` is a KeyError with the temporary columns left in place |
| Frames.Frame.GroupbyWeightedAverage | src/misc_tools.py:266-311 | KeyError for a missing data or weight column; on success the caller's columns and cells are as before and the result is the per-group quotient (or that quotient on every row when `transform`); a missing `by_col` leaves both temporary columns behind |
| Frames.WeightedAverageIsReference | src/misc_tools.py:298-302 | each group's mean is Σ x·w over rows with non-null x divided by Σ w over the same rows |
| Frames.WeightedAverageExample | src/misc_tools.py:276-293 | the doc-test: RECEIVED 800/300, DELIVERED 2.0 |
| Frames.Frame.AssignAll | src/misc_tools.py:486-487 | after the loop the columns are the old ones plus any new names in order; each name holds its column and other columns are untouched |
| Frames.Frame.WithLaggedColumnNoResample | src/misc_tools.py:451-489 | no group keys is a ValueError; a missing column is an error; a column listed twice is a ValueError, as assigning the two-column selection to one column fails; otherwise a fresh copy with one `L{lags}_{col}` per column holding the group shift, and every other column unchanged |
| Frames.LagNameInjective | src/misc_tools.py:487 | distinct lagged columns get distinct names |
| Frames.NoResampleCallFails | src/misc_tools.py:609-616 | the call as written passes `date_col`, which the callee does not accept: TypeError |
| Frames.NoResampleCallBinds | src/misc_tools.py:451-458 | the call without `date_col` binds |
| Frames.Frame.WithLaggedColumns | src/misc_tools.py:492-618 | with `resample=False` and the corrected call: succeeds iff both columns exist; the copy keeps every other column and the column order, with the lag of the column within the id groups assigned to `L{lags}_{col}` |
| CliArgs.FindAllCapsCliVars | src/settings.py:81-98 | the loop computes the recursive scan `CliVars(argv)`, and terminates |
| CliArgs.ScanAcc | src/settings.py:81-98 | the scan from an accumulated dict is that dict overridden by a fresh scan |
| CliArgs.CliVarsConcat | src/settings.py:83-97 | scanning two argument lists split before an option is the union of the scans, the later overriding |
| CliArgs.CliVarsKeysUpper | src/settings.py:86-95 | every key found passes `isupper` |
| CliArgs.EqualsArgument | src/settings.py:86-88 | `--NAME=value` records NAME (before the first "=") with everything after it |
| CliArgs.SpaceArgument | src/settings.py:90-96 | `--NAME value` records the value unless it starts with "--"; a trailing `--NAME` records nothing |
| CliArgs.IgnoredArgument | src/settings.py:84-90 | an argument without "--" or with a name that is not all caps records nothing |
| CliArgs.LaterOccurrenceWins | src/settings.py:88 | a later `--NAME=value` overrides the earlier value |
| CliArgs.OptionArgument | src/settings.py:86-87 | `"--" + NAME + "=" + value` splits back into NAME and value |
| CliArgs.NotebookCommandLine | src/settings.py:70-78 | the doc example: a launcher, a lower-case `--f=` and two all-caps options give exactly those two entries |
| Settings.GetOs | src/settings.py:116-125 | the result is "windows", "nix" or "unknown" |
| Settings.GetOsCases | src/settings.py:116-125 | "windows" iff Windows; "nix" iff Darwin or Linux |
| Settings.GetStataExe | src/settings.py:135-142 | defined iff the OS type is windows or nix; otherwise ValueError("Unknown OS type") |
| Settings.StataExeForSystem | src/settings.py:116-142 | an executable is found iff the system is Windows, Darwin or Linux; it is StataMP-64.exe iff Windows |
| Settings.IfRelativeMakeAbs | src/settings.py:156-175 | always absolute and normalised; absolute normal paths are kept; a relative one is anchored under the base directory |
| Settings.IfRelativeMakeAbsIdempotent | src/settings.py:156-175 | applying it twice is applying it once |
| Settings.Converted | src/settings.py:209-210 | only names containing "DIR" are converted, and then to an absolute path |
| Settings.Config | src/settings.py:186-234 | errors are TypeErrors, from converting a DIR value or from step 4 calling a cast that is None; a name found nowhere without a cast is that TypeError, and with a cast and no DIR conversion the call succeeds; a command-line value, else an environment value, is returned cast and then DIR-converted; a name found only in the defaults table gets that table's value, cast and not converted |
| Settings.CommandLineWins | src/settings.py:203-211 | a non-None command-line value decides the result, whatever the environment, table or default: the value cast, then DIR-converted |
| Settings.EnvironmentWins | src/settings.py:213-223 | with no command-line value, an environment value decides, whatever the table or default: the value cast, then DIR-converted |
| Settings.TableValueNotConverted | src/settings.py:225-231 | a value from the defaults table is not passed through the DIR conversion |
| Settings.FallbackOnlyWhenMissing | src/settings.py:233-234 | a name found nowhere gets the cast applied to the default (None when none is given); with no cast it is TypeError("'NoneType' object is not callable") |
| Settings.CommandLineDirIsAbsolute | src/settings.py:204-211 | a command-line DIR value becomes the absolute path `if_relative_make_abs` gives |
| Settings.AbsoluteDirFromCommandLine | src/settings.py:204-211 | an absolute normal command-line DIR path comes back unchanged |
| Settings.AbsoluteDirFromEnvironment | src/settings.py:213-223 | with no command-line value, an absolute normal DIR path from the environment comes back unchanged |
| Settings.ConfigAsWritten | src/settings.py:186-234 | errors are TypeErrors, from a DIR conversion or a None cast for a name missing from the module table; a name in the module's `defaults` with no command-line or environment value gets that module value, cast; command-line and environment values are returned cast and DIR-converted, as by `Settings.Config` |
| Settings.ConfigAsWrittenIgnoresTable | src/settings.py:225-231 | as written, any two `settings_py_defaults` tables give the same result |
| Settings.ConfigAsWrittenIgnoresParameter | src/settings.py:186-234 | a value supplied only through `settings_py_defaults` is not found as written, so step 4 calls the cast None and raises TypeError; `Settings.Config` finds the value |
| Settings.InitialDefaults | src/settings.py:106-152 | fails iff neither a command-line STATA_EXE nor a known OS type; otherwise exactly BASE_DIR, OS_TYPE, STATA_EXE, START_DATE and END_DATE, each taken from the command line when given |
| Settings.DirectoryEntries | src/settings.py:178-181 | the three directory entries, each `if_relative_make_abs` of its relative name |
| Settings.ModuleDefaults | src/settings.py:106-183 | fails iff neither a command-line STATA_EXE nor a known OS type; otherwise exactly the eight names: BASE_DIR, OS_TYPE, STATA_EXE, START_DATE and END_DATE as `InitialDefaults` sets them, and the three directories under BASE_DIR |
| Settings.DefaultDirectoriesUnderBase | src/settings.py:178-181 | with a normal base the directories are base/_data, base/data_manual and base/_output |
| ProjectConfig.BaseDir | src/config.py:44 | the project root is absolute and normalised |
| ProjectConfig.Setting | src/config.py:70-74 | the environment value when present, else the default |
| ProjectConfig.DirSetting | src/config.py:77-80 | always absolute: the environment path or the default name, through `if_relative_make_abs` |
| ProjectConfig.StataExe | src/config.py:84-90 | defined iff the OS type is windows or nix; the environment overrides the OS default |
| ProjectConfig.Load | src/config.py:29-90 | loads iff the system is Windows, Darwin or Linux (else ValueError); every setting as described, and all four directories absolute |
| ProjectConfig.UnknownOsRaises | src/config.py:85-90 | an unknown OS raises ValueError("Unknown OS type") |
| ProjectConfig.DefaultDirectory | src/config.py:77-80 | an unset directory is `BASE_DIR/<default name>` |
| ProjectConfig.AbsoluteDirectoryKept | src/config.py:46-65 | an absolute normal directory from the environment is kept |
| Paths.ParseAsPosix | src/pipeline_publish.py:69-70 | parsing `as_posix()` gives the same path back |
| Paths.ResolveIdempotent | src/settings.py:172-174 | resolving twice is resolving once |
| Paths.ResolveJoin | src/settings.py:174 | resolving `dir / p` for a relative `p` without ".." appends `p` to the resolved `dir` |
| Text.NatStringRoundTrip | src/misc_tools.py:440 | `int` of the decimal string of `n` is `n` |
| Text.LinesRoundTrip | src/pipeline_publish.py:176 | `readlines()` joined back is the file content |
| Text.DropLinesIsAfterNewlines | src/pipeline_publish.py:236-237 | `"".join(lines[k:])` is the text after the first `k` newlines |
| Text.AfterNewlinesIsSuffix | src/pipeline_publish.py:236-237 | the trimmed text is a suffix of the content |
| Text.AfterNewlinesCut | src/pipeline_publish.py:236-237 | the removed prefix holds exactly `k` newlines and ends with one |
| PipelinePublish.PipelineIds | src/pipeline_publish.py:133-135 | the ids in spec order, one per pipeline, and distinct |
| PipelinePublish.DevModeProdDir | src/pipeline_publish.py:68-70 | in dev mode every pipeline's production directory is the project root |
| PipelinePublish.FileList | src/pipeline_publish.py:388-408 | the loop produces, pipeline by pipeline, one page per dataframe then one per chart, under `prod/middle_dir/kind` |
| PipelinePublish.DocPagesCount | src/pipeline_publish.py:388-408 | the list has Σ (dataframes + charts) entries |
| PipelinePublish.GetTargets | src/pipeline_publish.py:418-420 | dev mode and `_docs`: each target is `base/_docs/<kind>/<p>_<id>.md`, and there are Σ (dataframes + charts) of them |
| PipelinePublish.GetFileDeps | src/pipeline_publish.py:411-415 | the same with `docs_src`; in dev mode every path lies under the project root |
| PipelinePublish.DevModeLayout | src/pipeline_publish.py:396-407 | in dev mode every path is `base/middle_dir/kind/file` |
| PipelinePublish.DocPathLayout | src/pipeline_publish.py:401-402 | a page path is `prod/middle_dir/kind/file` |
| DictUpdates.AssignAllKeys | src/pipeline_publish.py:77-108 | after the assignments the keys are the old keys plus the assigned ones |
| DictUpdates.AssignAllLastWins | src/pipeline_publish.py:77-108 | a key holds the value of its last assignment |
| DictUpdates.AssignAllUntouched | src/pipeline_publish.py:77-108 | a key not assigned keeps its value |
| DictUpdates.AssignAllValues | src/pipeline_publish.py:77-108 | every value was there before or was assigned |
| DictUpdates.AssignAllAppend | src/pipeline_publish.py:65-110 | two loops in a row are one loop over the concatenation |
| DictUpdates.AssignAllFunctional | src/pipeline_publish.py:429-433 | if every assignment stores `f(key)`, the dict maps each key to `f(key)` |
| DataframeDocs.TableFileMap | src/pipeline_publish.py:423-434 | the keys are exactly the `"{p}_{d}"` pairs, and each maps to `dataframes/{p}_{d}.md` |
| DataframeDocs.TableKeys | src/pipeline_publish.py:427-433 | a key is present iff it is some pipeline id, "_" and one of its dataframe ids |
| DataframeDocs.TableValues | src/pipeline_publish.py:430-433 | each key maps to its page |
| DataframeDocs.DocForLayout | src/pipeline_publish.py:430-433 | the page of `key` is `dataframes/<key>.md` |
| PublishPlan.FilePublishPlan | src/pipeline_publish.py:49-112 | the three dicts are the in-order assignments of the plan entries; every static source is also a download source; with slash-free ids every destination lies in its directory |
| PublishPlan.AddDataframes | src/pipeline_publish.py:72-85 | the dataset plan gains the parquet and excel entries of each dataframe, in order |
| PublishPlan.AddCharts | src/pipeline_publish.py:87-110 | each chart adds html and excel download entries and an html static entry, in order |
| PublishPlan.StaticKeysAreDownloadKeys | src/pipeline_publish.py:87-110 | every source planned for `_static` is also planned for download |
| PublishPlan.DatasetDestinations | src/pipeline_publish.py:60-85 | every dataset destination is a file directly in `download_dataframe` |
| PublishPlan.ChartDestinations | src/pipeline_publish.py:57-110 | every chart download destination is in `download_chart`, every static one in `_static` |
| DocLinks.PageLink | src/pipeline_publish.py:310-315 | a link iff the theme is "pipeline" or "chart_base"; otherwise ValueError("Invalid Pipeline theme") |
| DocLinks.PipelineLinkReaches | src/pipeline_publish.py:310-311 | under "pipeline" the link from a dataframe or chart page resolves to the built `index.md` |
| DocLinks.ChartBaseLinkReaches | src/pipeline_publish.py:312-313 | under "chart_base" the link resolves to the README that pipeline's loop writes |
| DocLinks.ReadmeBody | src/pipeline_publish.py:176-181 | the content after its first two newlines: a suffix, empty when there are fewer than two lines |
| DocLinks.ChartBaseReadme | src/pipeline_publish.py:179-182 | the heading ``# `pid` name`` followed by `" \n\n "` and the README body after its first two lines |
| DocLinks.ChartBaseReadmes | src/pipeline_publish.py:159-189 | one README write per pipeline, in spec order |
| DocLinks.ReadmeDestinationsDistinct | src/pipeline_publish.py:184-186 | distinct slash-free ids write to distinct README files |
| DocLinks.IndexPlan | src/pipeline_publish.py:191-253 | succeeds iff the theme is known and there is a pipeline; an unknown theme raises ValueError and no pipeline leaves `pipeline_specs` unbound; "chart_base" has empty README text; "pipeline" uses the last pipeline's README after two lines |
| DocLinks.IndexLinkReaches | src/pipeline_publish.py:225-246 | the index's page link resolves to the index itself ("pipeline") or to the last pipeline's README ("chart_base") |

## Left out

- The rate and CDS analytics, the network and database pulls, plotting, notebooks and the build scripts are not part of this model. They are floating point, library-bound or I/O.
- Several `misc_tools` functions are not modelled:
  - `weighted_quantile`, `groupby_weighted_std`, `freq_counts`, `dataframe_set_difference` and `df_to_literal`;
  - the resample branch of `with_lagged_columns`;
  - the plotting helpers.
  They are floating point, pandas or polars semantics, or Python `repr`.
- Frames.Frame.GroupbyWeightedAverage: the weighted sums are exact reals, not IEEE doubles, and a division by a zero sum is `NaN` or `±inf` as a symbolic value. When a temporary column name already exists in the table, the contract leaves the result open. The per-group result is a map, so the key-sorted order of the returned Series (`groupby` sorts its keys) is not modelled. `by_col` is one column name; a list of names is not modelled.
- Calendar.MostRecentQuarterEnd, Calendar.NextQuarterStart, Calendar.EndOfCurrentMonth, Calendar.EndOfCurrentQuarter: years are unbounded. The range errors of the source are not modelled: `datetime` raises for the quarter before year 1 (src/misc_tools.py:672) and for year 10000 (src/misc_tools.py:690), and a pandas Timestamp outside 1677-09-21 to 2262-04-11 raises OutOfBoundsDatetime (src/misc_tools.py:713-718).
- Groups.LeaveOneOutSums: values are integers. Float columns, whose `x.sum() - x` is not exactly the sum of the other rows, are not modelled. Nor is the ValueError "No group keys passed!" of the default `groupby=[]`.
- Settings.Config, Settings.ConfigAsWritten: a cast is a total function on values. A cast that raises, such as `Path(None)` in step 4, is not modelled, so "with a cast and no DIR conversion the call succeeds" holds only for casts that return.
- MergeStats.Compute: counts are exact integers and ratios exact reals. The source writes them into a `pd.Series(dtype=int)` created without data, which is float64, so the counts come back as floats and the ratios are IEEE doubles.
- Frames.Frame: tables whose column labels repeat are not modelled. Every operation requires distinct labels, which pandas does not demand.
- Column dtypes are modelled only as number or text cells. A text column in the weighted mean is a TypeError; other dtype errors are not modelled.
- Groups.GroupShift: rows are kept in table order and the group key is compared for equality. pandas' sorting of group keys does not change `shift`, so it is not modelled.
- `read_specs` is not modelled: JSON reading and its recursive `import_from`. The specs are a parameter, a list of pipelines in JSON order. The file paths a spec holds are the `Path` the code builds from each JSON string.
- Modification-time lookups, jinja rendering, `shutil` copying, `mkdir` and `create_directories` are not modelled. They are file-system effects. Reading a README is a `read: Path -> string` parameter.
- DocLinks.IndexPlan: the `dataframes.md` and `pipelines.md` pages that "chart_base" renders are not modelled, nor the order of errors when a template is missing. An unknown theme, which the source meets inside the README loop, is modelled only by its final ValueError.
- The in-place overwrite of `pipeline_prod_directory` is modelled by its effect on the production directory. The change to the caller's specs dict is not modelled.
- `decouple`'s lookup of process variables and `.env` is one map from names to strings. A cast is an abstract function on values, `bool` included; `decouple`'s own boolean parsing is not modelled.
- ProjectConfig.Load: the `to_datetime` casts of START_DATE and END_DATE and the `bool` cast of PIPELINE_DEV_MODE are not modelled.
- `Path.resolve` is modelled lexically. Symbolic links and Windows drive paths are not modelled.
- `isupper` is modelled for ASCII. Characters outside ASCII are treated as uncased.
- `DOCS_BUILD_DIR / "name"` joins of a single component are modelled with one `Child` step.
- Groups.ShiftExample and Frames.WeightedAverageExample state the doc examples over abstract ids and values where the example's own literals would add nothing.

## Findings

| source | as written | input that shows it | evidently intended | confidence | as-written member | corrected member |
|---|---|---|---|---|---|---|
| src/misc_tools.py:609-616 | `with_lagged_columns(resample=False)` calls `_with_lagged_column_no_resample(..., date_col=date_col, ...)`, whose parameter `date_col` is commented out (line 456) | any call with `resample=False` | call it without `date_col`, giving the lagged column of the group shift | high, not executed | Frames.NoResampleCallFails | Frames.Frame.WithLaggedColumns |
| src/settings.py:186-234 | `config` looks the name up in the module-level `defaults` (line 226) and ignores its `settings_py_defaults` parameter | `config("START_YEAR", settings_py_defaults={"START_YEAR": "1913"})` with no CLI or environment value: as written it raises TypeError in step 4, as `cast` is None | use the `settings_py_defaults` argument | medium, not executed | Settings.ConfigAsWrittenIgnoresParameter | Settings.Config |
