/**
 * `get_file_publish_plan`: three dicts from a file a pipeline produced to the place in
 * the built docs where it is copied.  The dicts are filled by assignment, keyed by the
 * source path, so they are the `DictUpdates.AssignAll` of a sequence of entries.
 */
module PublishPlan {
  import opened Paths
  import opened DictUpdates
  import opened PipelinePublish

  type Plan = map<Path, Path>

  /** `DOCS_BUILD_DIR = BASE_DIR / Path("_docs")`; "_docs" is one component. */
  function DocsBuildDir(baseDir: Path): Path { Child(baseDir, "_docs") }

  /** `DOCS_BUILD_DIR / "download_dataframe"`. */
  function DownloadDataframeDir(baseDir: Path): Path { Child(DocsBuildDir(baseDir), "download_dataframe") }

  /** `DOCS_BUILD_DIR / "download_chart"`. */
  function DownloadChartDir(baseDir: Path): Path { Child(DocsBuildDir(baseDir), "download_chart") }

  /** `DOCS_BUILD_DIR / "_static"`. */
  function StaticDir(baseDir: Path): Path { Child(DocsBuildDir(baseDir), "_static") }

  // ------------------------------------------------------------ entries

  /** The two assignments for one dataframe: its parquet file, then its Excel file. */
  function DataframeCopies(pid: string, d: Dataframe, prod: Path, dir: Path): seq<(Path, Path)> {
    [(Join(prod, d.pathToParquet), JoinStr(dir, pid + "_" + d.id + ".parquet")),
     (Join(prod, d.pathToExcel), JoinStr(dir, pid + "_" + d.id + ".xlsx"))]
  }

  /** The two assignments to the download plan for one chart: its HTML file, then its Excel file. */
  function ChartDownloads(pid: string, c: Chart, prod: Path, dir: Path): seq<(Path, Path)> {
    [(Join(prod, c.pathToHtml), JoinStr(dir, pid + "_" + c.id + ".html")),
     (Join(prod, c.pathToExcel), JoinStr(dir, pid + "_" + c.id + ".xlsx"))]
  }

  /** The assignment to the static plan for one chart: its HTML file. */
  function ChartStatic(pid: string, c: Chart, prod: Path, dir: Path): (Path, Path) {
    (Join(prod, c.pathToHtml), JoinStr(dir, pid + "_" + c.id + ".html"))
  }

  /** The dataset assignments of the first `n` dataframes of `p`. */
  function DataframeEntries(p: Pipeline, prod: Path, dir: Path, n: nat): seq<(Path, Path)>
    requires n <= |p.dataframes|
  {
    if n == 0 then [] else DataframeEntries(p, prod, dir, n - 1) + DataframeCopies(p.id, p.dataframes[n - 1], prod, dir)
  }

  /** The download-plan assignments of the first `n` charts of `p`. */
  function ChartDownloadEntries(p: Pipeline, prod: Path, dir: Path, n: nat): seq<(Path, Path)>
    requires n <= |p.charts|
  {
    if n == 0 then [] else ChartDownloadEntries(p, prod, dir, n - 1) + ChartDownloads(p.id, p.charts[n - 1], prod, dir)
  }

  /** The static-plan assignments of the first `n` charts of `p`. */
  function ChartStaticEntries(p: Pipeline, prod: Path, dir: Path, n: nat): seq<(Path, Path)>
    requires n <= |p.charts|
  {
    if n == 0 then [] else ChartStaticEntries(p, prod, dir, n - 1) + [ChartStatic(p.id, p.charts[n - 1], prod, dir)]
  }

  /** Every dataset assignment, pipeline after pipeline. */
  function DatasetPlanEntries(specs: seq<Pipeline>, devMode: bool, baseDir: Path): seq<(Path, Path)> {
    if specs == [] then []
    else
      var last := specs[|specs| - 1];
      DatasetPlanEntries(specs[..|specs| - 1], devMode, baseDir)
        + DataframeEntries(last, ProdDir(last, devMode, baseDir), DownloadDataframeDir(baseDir), |last.dataframes|)
  }

  /** Every chart download assignment, pipeline after pipeline. */
  function ChartDownloadPlanEntries(specs: seq<Pipeline>, devMode: bool, baseDir: Path): seq<(Path, Path)> {
    if specs == [] then []
    else
      var last := specs[|specs| - 1];
      ChartDownloadPlanEntries(specs[..|specs| - 1], devMode, baseDir)
        + ChartDownloadEntries(last, ProdDir(last, devMode, baseDir), DownloadChartDir(baseDir), |last.charts|)
  }

  /** Every chart static assignment, pipeline after pipeline. */
  function ChartStaticPlanEntries(specs: seq<Pipeline>, devMode: bool, baseDir: Path): seq<(Path, Path)> {
    if specs == [] then []
    else
      var last := specs[|specs| - 1];
      ChartStaticPlanEntries(specs[..|specs| - 1], devMode, baseDir)
        + ChartStaticEntries(last, ProdDir(last, devMode, baseDir), StaticDir(baseDir), |last.charts|)
  }

  // ------------------------------------------------------------ the loops

  /** The loop over a pipeline's dataframes. */
  method AddDataframes(plan: Plan, pipeline: Pipeline, prod: Path, dir: Path) returns (result: Plan)
    ensures result == AssignAll(plan, DataframeEntries(pipeline, prod, dir, |pipeline.dataframes|))
  {
    result := plan;
    for i := 0 to |pipeline.dataframes|
      invariant result == AssignAll(plan, DataframeEntries(pipeline, prod, dir, i))
    {
      var d := pipeline.dataframes[i];
      result := result[Join(prod, d.pathToParquet) := JoinStr(dir, pipeline.id + "_" + d.id + ".parquet")];
      result := result[Join(prod, d.pathToExcel) := JoinStr(dir, pipeline.id + "_" + d.id + ".xlsx")];
      AssignAllAppend(plan, DataframeEntries(pipeline, prod, dir, i), DataframeCopies(pipeline.id, d, prod, dir));
      AssignTwo(AssignAll(plan, DataframeEntries(pipeline, prod, dir, i)), DataframeCopies(pipeline.id, d, prod, dir)[0],
                DataframeCopies(pipeline.id, d, prod, dir)[1]);
    }
  }

  /** The loop over a pipeline's charts, which fills the download and the static plans together. */
  method AddCharts(download: Plan, statics: Plan, pipeline: Pipeline, prod: Path, downloadDir: Path, staticDir: Path)
    returns (newDownload: Plan, newStatic: Plan)
    ensures newDownload == AssignAll(download, ChartDownloadEntries(pipeline, prod, downloadDir, |pipeline.charts|))
    ensures newStatic == AssignAll(statics, ChartStaticEntries(pipeline, prod, staticDir, |pipeline.charts|))
  {
    newDownload, newStatic := download, statics;
    for j := 0 to |pipeline.charts|
      invariant newDownload == AssignAll(download, ChartDownloadEntries(pipeline, prod, downloadDir, j))
      invariant newStatic == AssignAll(statics, ChartStaticEntries(pipeline, prod, staticDir, j))
    {
      var c := pipeline.charts[j];
      var fileName := pipeline.id + "_" + c.id;
      newDownload := newDownload[Join(prod, c.pathToHtml) := JoinStr(downloadDir, fileName + ".html")];
      newStatic := newStatic[Join(prod, c.pathToHtml) := JoinStr(staticDir, fileName + ".html")];
      newDownload := newDownload[Join(prod, c.pathToExcel) := JoinStr(downloadDir, fileName + ".xlsx")];
      AssignAllAppend(download, ChartDownloadEntries(pipeline, prod, downloadDir, j), ChartDownloads(pipeline.id, c, prod, downloadDir));
      AssignTwo(AssignAll(download, ChartDownloadEntries(pipeline, prod, downloadDir, j)), ChartDownloads(pipeline.id, c, prod, downloadDir)[0],
                ChartDownloads(pipeline.id, c, prod, downloadDir)[1]);
      AssignAllAppend(statics, ChartStaticEntries(pipeline, prod, staticDir, j), [ChartStatic(pipeline.id, c, prod, staticDir)]);
      AssignOne(AssignAll(statics, ChartStaticEntries(pipeline, prod, staticDir, j)), ChartStatic(pipeline.id, c, prod, staticDir));
    }
  }

  /** `get_file_publish_plan` on the given specs: the dataset plan, the chart download plan and the chart static plan. */
  method FilePublishPlan(specs: seq<Pipeline>, devMode: bool, baseDir: Path)
    returns (datasetPlan: Plan, chartPlanDownload: Plan, chartPlanStatic: Plan)
    ensures datasetPlan == AssignAll(map[], DatasetPlanEntries(specs, devMode, baseDir))
    ensures chartPlanDownload == AssignAll(map[], ChartDownloadPlanEntries(specs, devMode, baseDir))
    ensures chartPlanStatic == AssignAll(map[], ChartStaticPlanEntries(specs, devMode, baseDir))
    ensures chartPlanStatic.Keys <= chartPlanDownload.Keys
    ensures SlashFreeIds(specs) ==>
              (forall v :: v in datasetPlan.Values ==> FileIn(v, DownloadDataframeDir(baseDir))) &&
              (forall v :: v in chartPlanDownload.Values ==> FileIn(v, DownloadChartDir(baseDir))) &&
              (forall v :: v in chartPlanStatic.Values ==> FileIn(v, StaticDir(baseDir)))
  {
    datasetPlan, chartPlanDownload, chartPlanStatic := map[], map[], map[];
    var downloadChartDir, staticDir, downloadDataframeDir := DownloadChartDir(baseDir), StaticDir(baseDir), DownloadDataframeDir(baseDir);
    for k := 0 to |specs|
      invariant datasetPlan == AssignAll(map[], DatasetPlanEntries(specs[..k], devMode, baseDir))
      invariant chartPlanDownload == AssignAll(map[], ChartDownloadPlanEntries(specs[..k], devMode, baseDir))
      invariant chartPlanStatic == AssignAll(map[], ChartStaticPlanEntries(specs[..k], devMode, baseDir))
    {
      var pipeline := specs[k];
      if devMode {
        pipeline := pipeline.(prodDirectory := AsPosix(baseDir));
      }
      var prod := Parse(pipeline.prodDirectory);
      assert prod == ProdDir(specs[k], devMode, baseDir);
      datasetPlan := AddDataframes(datasetPlan, pipeline, prod, downloadDataframeDir);
      chartPlanDownload, chartPlanStatic := AddCharts(chartPlanDownload, chartPlanStatic, pipeline, prod, downloadChartDir, staticDir);
      PlanStep(specs, k, devMode, baseDir, pipeline);
    }
    assert specs[..|specs|] == specs;
    StaticSourcesAreDownloaded(specs, devMode, baseDir);
    if SlashFreeIds(specs) {
      DatasetDestinations(specs, devMode, baseDir);
      ChartDestinations(specs, devMode, baseDir);
    }
  }

  /** One more pipeline appends its entries to each plan; they do not depend on its recorded directory. */
  lemma {:induction false} PlanStep(specs: seq<Pipeline>, k: nat, devMode: bool, baseDir: Path, pipeline: Pipeline)
    requires k < |specs|
    requires pipeline.id == specs[k].id && pipeline.dataframes == specs[k].dataframes && pipeline.charts == specs[k].charts
    ensures var prod := ProdDir(specs[k], devMode, baseDir);
            && AssignAll(map[], DatasetPlanEntries(specs[..k + 1], devMode, baseDir))
               == AssignAll(AssignAll(map[], DatasetPlanEntries(specs[..k], devMode, baseDir)),
                            DataframeEntries(pipeline, prod, DownloadDataframeDir(baseDir), |pipeline.dataframes|))
            && AssignAll(map[], ChartDownloadPlanEntries(specs[..k + 1], devMode, baseDir))
               == AssignAll(AssignAll(map[], ChartDownloadPlanEntries(specs[..k], devMode, baseDir)),
                            ChartDownloadEntries(pipeline, prod, DownloadChartDir(baseDir), |pipeline.charts|))
            && AssignAll(map[], ChartStaticPlanEntries(specs[..k + 1], devMode, baseDir))
               == AssignAll(AssignAll(map[], ChartStaticPlanEntries(specs[..k], devMode, baseDir)),
                            ChartStaticEntries(pipeline, prod, StaticDir(baseDir), |pipeline.charts|))
  {
    var prod := ProdDir(specs[k], devMode, baseDir);
    assert specs[..k + 1][..k] == specs[..k];
    assert specs[..k + 1][k] == specs[k];
    SameEntries(pipeline, specs[k], prod, baseDir);
    AssignAllAppend(map[], DatasetPlanEntries(specs[..k], devMode, baseDir),
                    DataframeEntries(pipeline, prod, DownloadDataframeDir(baseDir), |pipeline.dataframes|));
    AssignAllAppend(map[], ChartDownloadPlanEntries(specs[..k], devMode, baseDir),
                    ChartDownloadEntries(pipeline, prod, DownloadChartDir(baseDir), |pipeline.charts|));
    AssignAllAppend(map[], ChartStaticPlanEntries(specs[..k], devMode, baseDir),
                    ChartStaticEntries(pipeline, prod, StaticDir(baseDir), |pipeline.charts|));
  }

  /** A pipeline's entries depend on its id, dataframes and charts only. */
  lemma {:induction false} SameEntries(p: Pipeline, q: Pipeline, prod: Path, baseDir: Path)
    requires p.id == q.id && p.dataframes == q.dataframes && p.charts == q.charts
    ensures DataframeEntries(p, prod, DownloadDataframeDir(baseDir), |p.dataframes|)
         == DataframeEntries(q, prod, DownloadDataframeDir(baseDir), |q.dataframes|)
    ensures ChartDownloadEntries(p, prod, DownloadChartDir(baseDir), |p.charts|)
         == ChartDownloadEntries(q, prod, DownloadChartDir(baseDir), |q.charts|)
    ensures ChartStaticEntries(p, prod, StaticDir(baseDir), |p.charts|)
         == ChartStaticEntries(q, prod, StaticDir(baseDir), |q.charts|)
  {
    EntriesIgnoreDirectory(p, q, prod, DownloadDataframeDir(baseDir), DownloadChartDir(baseDir), StaticDir(baseDir),
                           |p.dataframes|, |p.charts|);
  }

  lemma {:induction false} EntriesIgnoreDirectory(p: Pipeline, q: Pipeline, prod: Path, dfDir: Path, chartDir: Path,
                                                  staticDir: Path, n: nat, m: nat)
    requires p.id == q.id && p.dataframes == q.dataframes && p.charts == q.charts
    requires n <= |p.dataframes| && m <= |p.charts|
    ensures DataframeEntries(p, prod, dfDir, n) == DataframeEntries(q, prod, dfDir, n)
    ensures ChartDownloadEntries(p, prod, chartDir, m) == ChartDownloadEntries(q, prod, chartDir, m)
    ensures ChartStaticEntries(p, prod, staticDir, m) == ChartStaticEntries(q, prod, staticDir, m)
    decreases n + m
  {
    if n > 0 {
      EntriesIgnoreDirectory(p, q, prod, dfDir, chartDir, staticDir, n - 1, m);
    }
    if m > 0 {
      EntriesIgnoreDirectory(p, q, prod, dfDir, chartDir, staticDir, n, m - 1);
    }
  }

  // ------------------------------------------------------------ properties of the plans

  /** Every HTML chart copied to `_static` is also copied to `download_chart`. */
  lemma {:induction false} StaticSourcesAreDownloaded(specs: seq<Pipeline>, devMode: bool, baseDir: Path)
    ensures AssignAll(map[], ChartStaticPlanEntries(specs, devMode, baseDir)).Keys
         <= AssignAll(map[], ChartDownloadPlanEntries(specs, devMode, baseDir)).Keys
  {
    StaticKeysAreDownloadKeys(specs, devMode, baseDir);
    AssignAllKeys(map[], ChartStaticPlanEntries(specs, devMode, baseDir));
    AssignAllKeys(map[], ChartDownloadPlanEntries(specs, devMode, baseDir));
  }

  lemma {:induction false} StaticKeysAreDownloadKeys(specs: seq<Pipeline>, devMode: bool, baseDir: Path)
    ensures KeysOf(ChartStaticPlanEntries(specs, devMode, baseDir)) <= KeysOf(ChartDownloadPlanEntries(specs, devMode, baseDir))
  {
    if specs != [] {
      var init, last := specs[..|specs| - 1], specs[|specs| - 1];
      var prod := ProdDir(last, devMode, baseDir);
      StaticKeysAreDownloadKeys(init, devMode, baseDir);
      PipelineStaticKeys(last, prod, DownloadChartDir(baseDir), StaticDir(baseDir), |last.charts|);
      KeysOfAppend(ChartStaticPlanEntries(init, devMode, baseDir), ChartStaticEntries(last, prod, StaticDir(baseDir), |last.charts|));
      KeysOfAppend(ChartDownloadPlanEntries(init, devMode, baseDir), ChartDownloadEntries(last, prod, DownloadChartDir(baseDir), |last.charts|));
    }
  }

  lemma {:induction false} PipelineStaticKeys(p: Pipeline, prod: Path, downloadDir: Path, staticDir: Path, n: nat)
    requires n <= |p.charts|
    ensures KeysOf(ChartStaticEntries(p, prod, staticDir, n)) <= KeysOf(ChartDownloadEntries(p, prod, downloadDir, n))
  {
    if n > 0 {
      var c := p.charts[n - 1];
      PipelineStaticKeys(p, prod, downloadDir, staticDir, n - 1);
      var a, b := ChartStaticEntries(p, prod, staticDir, n - 1), [ChartStatic(p.id, c, prod, staticDir)];
      var a', b' := ChartDownloadEntries(p, prod, downloadDir, n - 1), ChartDownloads(p.id, c, prod, downloadDir);
      KeysOfAppend(a, b);
      KeysOfAppend(a', b');
      SingleKeysValues(b[0]);
      PairKeysValues(b'[0], b'[1]);
    }
  }

  /** A single file directly inside `dir`. */
  predicate FileIn(v: Path, dir: Path) {
    v.parts != [] && Parent(v) == dir && ValidPart(v.parts[|v.parts| - 1])
  }

  lemma {:induction false} NamedFileIn(dir: Path, pid: string, id: string, ext: string)
    requires '/' !in pid && '/' !in id && '/' !in ext
    ensures FileIn(JoinStr(dir, pid + "_" + id + ext), dir)
  {
    FileNameValid(pid, id, ext);
    JoinStrChild(dir, pid + "_" + id + ext);
  }

  /** With ids free of "/", every dataframe lands directly in `_docs/download_dataframe`. */
  lemma {:induction false} DatasetDestinations(specs: seq<Pipeline>, devMode: bool, baseDir: Path)
    requires SlashFreeIds(specs)
    ensures forall v :: v in AssignAll(map[], DatasetPlanEntries(specs, devMode, baseDir)).Values ==>
                          FileIn(v, DownloadDataframeDir(baseDir))
  {
    AssignAllValues(map[], DatasetPlanEntries(specs, devMode, baseDir));
    DatasetEntryDestinations(specs, devMode, baseDir);
  }

  lemma {:induction false} DatasetEntryDestinations(specs: seq<Pipeline>, devMode: bool, baseDir: Path)
    requires SlashFreeIds(specs)
    ensures forall v :: v in ValuesOf(DatasetPlanEntries(specs, devMode, baseDir)) ==> FileIn(v, DownloadDataframeDir(baseDir))
  {
    if specs != [] {
      var init, last := specs[..|specs| - 1], specs[|specs| - 1];
      var prod, dir := ProdDir(last, devMode, baseDir), DownloadDataframeDir(baseDir);
      assert SlashFreeIds(init) by {
        forall k | 0 <= k < |init|
          ensures init[k] == specs[k]
        {
        }
      }
      DatasetEntryDestinations(init, devMode, baseDir);
      PipelineDatasetDestinations(last, prod, dir, |last.dataframes|);
      ValuesOfAppend(DatasetPlanEntries(init, devMode, baseDir), DataframeEntries(last, prod, dir, |last.dataframes|));
    }
  }

  lemma {:induction false} PipelineDatasetDestinations(p: Pipeline, prod: Path, dir: Path, n: nat)
    requires n <= |p.dataframes|
    requires '/' !in p.id && forall i :: 0 <= i < |p.dataframes| ==> '/' !in p.dataframes[i].id
    ensures forall v :: v in ValuesOf(DataframeEntries(p, prod, dir, n)) ==> FileIn(v, dir)
  {
    if n > 0 {
      PipelineDatasetDestinations(p, prod, dir, n - 1);
      ValuesOfAppend(DataframeEntries(p, prod, dir, n - 1), DataframeCopies(p.id, p.dataframes[n - 1], prod, dir));
      DataframeCopyDestinations(p.id, p.dataframes[n - 1], prod, dir);
    }
  }

  lemma {:induction false} DataframeCopyDestinations(pid: string, d: Dataframe, prod: Path, dir: Path)
    requires '/' !in pid && '/' !in d.id
    ensures forall v :: v in ValuesOf(DataframeCopies(pid, d, prod, dir)) ==> FileIn(v, dir)
  {
    var copies := DataframeCopies(pid, d, prod, dir);
    PairKeysValues(copies[0], copies[1]);
    NamedFileIn(dir, pid, d.id, ".parquet");
    NamedFileIn(dir, pid, d.id, ".xlsx");
  }

  /** With ids free of "/", every chart lands directly in `_docs/download_chart`, or in `_docs/_static`. */
  lemma {:induction false} ChartDestinations(specs: seq<Pipeline>, devMode: bool, baseDir: Path)
    requires SlashFreeIds(specs)
    ensures forall v :: v in AssignAll(map[], ChartDownloadPlanEntries(specs, devMode, baseDir)).Values ==>
                          FileIn(v, DownloadChartDir(baseDir))
    ensures forall v :: v in AssignAll(map[], ChartStaticPlanEntries(specs, devMode, baseDir)).Values ==>
                          FileIn(v, StaticDir(baseDir))
  {
    AssignAllValues(map[], ChartDownloadPlanEntries(specs, devMode, baseDir));
    AssignAllValues(map[], ChartStaticPlanEntries(specs, devMode, baseDir));
    ChartEntryDestinations(specs, devMode, baseDir);
  }

  lemma {:induction false} ChartEntryDestinations(specs: seq<Pipeline>, devMode: bool, baseDir: Path)
    requires SlashFreeIds(specs)
    ensures forall v :: v in ValuesOf(ChartDownloadPlanEntries(specs, devMode, baseDir)) ==> FileIn(v, DownloadChartDir(baseDir))
    ensures forall v :: v in ValuesOf(ChartStaticPlanEntries(specs, devMode, baseDir)) ==> FileIn(v, StaticDir(baseDir))
  {
    if specs != [] {
      var init, last := specs[..|specs| - 1], specs[|specs| - 1];
      var prod, dir, sdir := ProdDir(last, devMode, baseDir), DownloadChartDir(baseDir), StaticDir(baseDir);
      assert SlashFreeIds(init) by {
        forall k | 0 <= k < |init|
          ensures init[k] == specs[k]
        {
        }
      }
      ChartEntryDestinations(init, devMode, baseDir);
      PipelineChartDestinations(last, prod, dir, sdir, |last.charts|);
      ValuesOfAppend(ChartDownloadPlanEntries(init, devMode, baseDir), ChartDownloadEntries(last, prod, dir, |last.charts|));
      ValuesOfAppend(ChartStaticPlanEntries(init, devMode, baseDir), ChartStaticEntries(last, prod, sdir, |last.charts|));
    }
  }

  lemma {:induction false} PipelineChartDestinations(p: Pipeline, prod: Path, dir: Path, sdir: Path, n: nat)
    requires n <= |p.charts|
    requires '/' !in p.id && forall j :: 0 <= j < |p.charts| ==> '/' !in p.charts[j].id
    ensures forall v :: v in ValuesOf(ChartDownloadEntries(p, prod, dir, n)) ==> FileIn(v, dir)
    ensures forall v :: v in ValuesOf(ChartStaticEntries(p, prod, sdir, n)) ==> FileIn(v, sdir)
  {
    if n > 0 {
      var c := p.charts[n - 1];
      PipelineChartDestinations(p, prod, dir, sdir, n - 1);
      ValuesOfAppend(ChartDownloadEntries(p, prod, dir, n - 1), ChartDownloads(p.id, c, prod, dir));
      ValuesOfAppend(ChartStaticEntries(p, prod, sdir, n - 1), [ChartStatic(p.id, c, prod, sdir)]);
      ChartCopyDestinations(p.id, c, prod, dir, sdir);
    }
  }

  lemma {:induction false} ChartCopyDestinations(pid: string, c: Chart, prod: Path, dir: Path, sdir: Path)
    requires '/' !in pid && '/' !in c.id
    ensures forall v :: v in ValuesOf(ChartDownloads(pid, c, prod, dir)) ==> FileIn(v, dir)
    ensures forall v :: v in ValuesOf([ChartStatic(pid, c, prod, sdir)]) ==> FileIn(v, sdir)
  {
    var downloads := ChartDownloads(pid, c, prod, dir);
    PairKeysValues(downloads[0], downloads[1]);
    SingleKeysValues(ChartStatic(pid, c, prod, sdir));
    NamedFileIn(dir, pid, c.id, ".html");
    NamedFileIn(dir, pid, c.id, ".xlsx");
    NamedFileIn(sdir, pid, c.id, ".html");
  }
}
