/**
 * The path and plan building of `pipeline_publish.py`.  The pipeline specs, which the
 * source reads from `pipeline.json`, are given as a list of pipelines in the order of
 * that JSON object; each pipeline lists its dataframes and its charts in order.
 * `baseDir` is the project root the module takes from `config.BASE_DIR`.
 */
module PipelinePublish {
  import opened Outcomes
  import opened Text
  import opened Paths

  /** A dataframe's files are held as the `Path` the code builds from each JSON string. */
  datatype Dataframe = Dataframe(id: string, pathToParquet: Path, pathToExcel: Path)
  datatype Chart = Chart(id: string, pathToHtml: Path, pathToExcel: Path, dataframeId: string)
  datatype Pipeline = Pipeline(id: string, prodDirectory: string, name: string,
                               dataframes: seq<Dataframe>, charts: seq<Chart>)

  /** The specs are a JSON object: no pipeline id occurs twice. */
  predicate DistinctIds(specs: seq<Pipeline>) {
    forall i, j :: 0 <= i < j < |specs| ==> specs[i].id != specs[j].id
  }

  /** Ids that `Path` keeps as part of a single file name: none of them holds a "/". */
  predicate SlashFreeIds(specs: seq<Pipeline>) {
    forall k :: 0 <= k < |specs| ==>
      '/' !in specs[k].id &&
      (forall i :: 0 <= i < |specs[k].dataframes| ==> '/' !in specs[k].dataframes[i].id) &&
      (forall j :: 0 <= j < |specs[k].charts| ==> '/' !in specs[k].charts[j].id)
  }

  /** `get_pipeline_id_list`: the keys of the specs, in order; distinct because the specs' keys are. */
  function PipelineIds(specs: seq<Pipeline>): (r: seq<string>)
    ensures |r| == |specs|
    ensures forall i :: 0 <= i < |r| ==> r[i] == specs[i].id
    ensures DistinctIds(specs) ==> forall i, j :: 0 <= i < j < |r| ==> r[i] != r[j]
  {
    if specs == [] then [] else [specs[0].id] + PipelineIds(specs[1..])
  }

  /**
   * `Path(pipeline_specs["pipeline_prod_directory"])` after the loop has, in dev mode,
   * overwritten that entry with `BASE_DIR.as_posix()`.
   */
  function ProdDir(p: Pipeline, devMode: bool, baseDir: Path): Path {
    Parse(if devMode then AsPosix(baseDir) else p.prodDirectory)
  }

  /** In dev mode every pipeline is built from the project root itself. */
  lemma {:induction false} DevModeProdDir(p: Pipeline, baseDir: Path)
    requires WellFormed(baseDir)
    ensures ProdDir(p, true, baseDir) == baseDir
  {
    ParseAsPosix(baseDir);
  }

  // ------------------------------------------------------------ documentation pages

  /** A page of the docs: the pipeline's directory, "dataframes" or "charts", and `{p}_{id}.md`. */
  datatype DocPage = DocPage(prod: Path, kind: string, fileName: string)

  /** The pages of the first `n` dataframes of `p`. */
  function DataframePages(p: Pipeline, prod: Path, n: nat): (r: seq<DocPage>)
    requires n <= |p.dataframes|
    ensures |r| == n
    ensures forall i :: 0 <= i < n ==> r[i] == DocPage(prod, "dataframes", p.id + "_" + p.dataframes[i].id + ".md")
  {
    if n == 0 then []
    else DataframePages(p, prod, n - 1) + [DocPage(prod, "dataframes", p.id + "_" + p.dataframes[n - 1].id + ".md")]
  }

  /** The pages of the first `n` charts of `p`. */
  function ChartPages(p: Pipeline, prod: Path, n: nat): (r: seq<DocPage>)
    requires n <= |p.charts|
    ensures |r| == n
    ensures forall j :: 0 <= j < n ==> r[j] == DocPage(prod, "charts", p.id + "_" + p.charts[j].id + ".md")
  {
    if n == 0 then []
    else ChartPages(p, prod, n - 1) + [DocPage(prod, "charts", p.id + "_" + p.charts[n - 1].id + ".md")]
  }

  /** The pages of one pipeline: its dataframes', then its charts'. */
  function PipelinePages(p: Pipeline, prod: Path): seq<DocPage> {
    DataframePages(p, prod, |p.dataframes|) + ChartPages(p, prod, |p.charts|)
  }

  /** Every pipeline's pages, pipeline after pipeline. */
  function DocPages(specs: seq<Pipeline>, devMode: bool, baseDir: Path): seq<DocPage> {
    if specs == [] then []
    else
      var last := specs[|specs| - 1];
      DocPages(specs[..|specs| - 1], devMode, baseDir) + PipelinePages(last, ProdDir(last, devMode, baseDir))
  }

  /** `pipeline_prod_dir / middle_dir / kind / Path(file_name)`. */
  function DocPath(page: DocPage, middleDir: string): Path {
    JoinStr(Child(JoinStr(page.prod, middleDir), page.kind), page.fileName)
  }

  /** The path of each page, in order. */
  function DocPaths(pages: seq<DocPage>, middleDir: string): (r: seq<Path>)
    ensures |r| == |pages|
  {
    if pages == [] then []
    else DocPaths(pages[..|pages| - 1], middleDir) + [DocPath(pages[|pages| - 1], middleDir)]
  }

  lemma {:induction false} DocPathsAt(pages: seq<DocPage>, middleDir: string)
    ensures forall i :: 0 <= i < |pages| ==> DocPaths(pages, middleDir)[i] == DocPath(pages[i], middleDir)
  {
    if pages != [] {
      var init := pages[..|pages| - 1];
      DocPathsAt(init, middleDir);
      forall i | 0 <= i < |init|
        ensures pages[i] == init[i]
      {
      }
    }
  }

  lemma DocPathsAppend(a: seq<DocPage>, b: seq<DocPage>, middleDir: string)
    ensures DocPaths(a + b, middleDir) == DocPaths(a, middleDir) + DocPaths(b, middleDir)
  {
    var l, r := DocPaths(a + b, middleDir), DocPaths(a, middleDir) + DocPaths(b, middleDir);
    assert |l| == |r|;
    DocPathsAt(a + b, middleDir);
    DocPathsAt(a, middleDir);
    DocPathsAt(b, middleDir);
    forall i | 0 <= i < |l|
      ensures l[i] == r[i]
    {
      if i < |a| {
        assert (a + b)[i] == a[i];
      } else {
        assert (a + b)[i] == b[i - |a|];
      }
    }
  }

  lemma DataframeFilesStep(fileList: seq<Path>, pipeline: Pipeline, prod: Path, middleDir: string, i: nat)
    requires i < |pipeline.dataframes|
    ensures fileList + DocPaths(DataframePages(pipeline, prod, i + 1), middleDir)
         == fileList + DocPaths(DataframePages(pipeline, prod, i), middleDir)
            + [DocPath(DocPage(prod, "dataframes", pipeline.id + "_" + pipeline.dataframes[i].id + ".md"), middleDir)]
  {
    var pages := DataframePages(pipeline, prod, i + 1);
    assert pages[..i] == DataframePages(pipeline, prod, i);
  }

  lemma ChartFilesStep(fileList: seq<Path>, pipeline: Pipeline, prod: Path, middleDir: string, j: nat)
    requires j < |pipeline.charts|
    ensures fileList + DocPaths(ChartPages(pipeline, prod, j + 1), middleDir)
         == fileList + DocPaths(ChartPages(pipeline, prod, j), middleDir)
            + [DocPath(DocPage(prod, "charts", pipeline.id + "_" + pipeline.charts[j].id + ".md"), middleDir)]
  {
    var pages := ChartPages(pipeline, prod, j + 1);
    assert pages[..j] == ChartPages(pipeline, prod, j);
  }

  /** The first inner loop of `_get`: one path per dataframe of the pipeline, appended to `fileList`. */
  method AppendDataframeFiles(fileList: seq<Path>, pipeline: Pipeline, prod: Path, middleDir: string)
    returns (result: seq<Path>)
    ensures result == fileList + DocPaths(DataframePages(pipeline, prod, |pipeline.dataframes|), middleDir)
  {
    result := fileList;
    for i := 0 to |pipeline.dataframes|
      invariant result == fileList + DocPaths(DataframePages(pipeline, prod, i), middleDir)
    {
      var fileName := pipeline.id + "_" + pipeline.dataframes[i].id + ".md";
      // prod / middle_dir / "dataframes" / Path(fileName)
      result := result + [DocPath(DocPage(prod, "dataframes", fileName), middleDir)];
      DataframeFilesStep(fileList, pipeline, prod, middleDir, i);
    }
  }

  /** The second inner loop of `_get`: one path per chart of the pipeline, appended to `fileList`. */
  method AppendChartFiles(fileList: seq<Path>, pipeline: Pipeline, prod: Path, middleDir: string)
    returns (result: seq<Path>)
    ensures result == fileList + DocPaths(ChartPages(pipeline, prod, |pipeline.charts|), middleDir)
  {
    result := fileList;
    for j := 0 to |pipeline.charts|
      invariant result == fileList + DocPaths(ChartPages(pipeline, prod, j), middleDir)
    {
      var fileName := pipeline.id + "_" + pipeline.charts[j].id + ".md";
      // prod / middle_dir / "charts" / Path(fileName)
      result := result + [DocPath(DocPage(prod, "charts", fileName), middleDir)];
      ChartFilesStep(fileList, pipeline, prod, middleDir, j);
    }
  }

  /** Both inner loops of `_get` for one pipeline. */
  method AppendPipelineFiles(fileList: seq<Path>, pipeline: Pipeline, prod: Path, middleDir: string)
    returns (result: seq<Path>)
    ensures result == fileList + DocPaths(PipelinePages(pipeline, prod), middleDir)
  {
    var withFrames := AppendDataframeFiles(fileList, pipeline, prod, middleDir);
    result := AppendChartFiles(withFrames, pipeline, prod, middleDir);
    PipelinePathsSplit(fileList, pipeline, prod, middleDir);
  }

  lemma PipelinePathsSplit(fileList: seq<Path>, pipeline: Pipeline, prod: Path, middleDir: string)
    ensures fileList + DocPaths(PipelinePages(pipeline, prod), middleDir)
         == fileList + DocPaths(DataframePages(pipeline, prod, |pipeline.dataframes|), middleDir)
                     + DocPaths(ChartPages(pipeline, prod, |pipeline.charts|), middleDir)
  {
    var frames := DataframePages(pipeline, prod, |pipeline.dataframes|);
    var charts := ChartPages(pipeline, prod, |pipeline.charts|);
    DocPathsAppend(frames, charts, middleDir);
    var a, b := DocPaths(frames, middleDir), DocPaths(charts, middleDir);
    assert fileList + (a + b) == fileList + a + b;
  }

  /** The pages of a pipeline depend on its id, dataframes and charts, not on its recorded directory. */
  lemma {:induction false} PipelinePagesIgnoreDirectory(p: Pipeline, q: Pipeline, prod: Path)
    requires p.id == q.id && p.dataframes == q.dataframes && p.charts == q.charts
    ensures PipelinePages(p, prod) == PipelinePages(q, prod)
  {
    var a, b := DataframePages(p, prod, |p.dataframes|), DataframePages(q, prod, |q.dataframes|);
    assert a == b;
    var c, d := ChartPages(p, prod, |p.charts|), ChartPages(q, prod, |q.charts|);
    assert c == d;
  }

  /** One more pipeline adds its pages at the end. */
  lemma {:induction false} DocPagesSnoc(specs: seq<Pipeline>, k: nat, devMode: bool, baseDir: Path)
    requires k < |specs|
    ensures DocPages(specs[..k + 1], devMode, baseDir)
         == DocPages(specs[..k], devMode, baseDir) + PipelinePages(specs[k], ProdDir(specs[k], devMode, baseDir))
  {
    assert specs[..k + 1][..k] == specs[..k];
    assert specs[..k + 1][k] == specs[k];
  }

  /** `_get`: the list of page paths, pipeline after pipeline. */
  method FileList(specs: seq<Pipeline>, baseDir: Path, middleDir: string, devMode: bool) returns (fileList: seq<Path>)
    ensures fileList == DocPaths(DocPages(specs, devMode, baseDir), middleDir)
  {
    fileList := [];
    for k := 0 to |specs|
      invariant fileList == DocPaths(DocPages(specs[..k], devMode, baseDir), middleDir)
    {
      var pipeline := specs[k];
      if devMode {
        pipeline := pipeline.(prodDirectory := AsPosix(baseDir));
      }
      var prod := Parse(pipeline.prodDirectory);
      assert prod == ProdDir(specs[k], devMode, baseDir);
      ghost var before := fileList;
      fileList := AppendPipelineFiles(fileList, pipeline, prod, middleDir);
      PipelinePagesIgnoreDirectory(pipeline, specs[k], prod);
      DocPagesSnoc(specs, k, devMode, baseDir);
      DocPathsAppend(DocPages(specs[..k], devMode, baseDir), PipelinePages(specs[k], prod), middleDir);
    }
    assert specs[..|specs|] == specs;
  }

  /** `get_targets`: the built pages, always under the project root, in `_docs`. */
  method GetTargets(specs: seq<Pipeline>, baseDir: Path) returns (targets: seq<Path>)
    ensures targets == DocPaths(DocPages(specs, true, baseDir), "_docs")
    ensures |targets| == PageCount(specs)
    ensures WellFormed(baseDir) && SlashFreeIds(specs) ==>
              var pages := DocPages(specs, true, baseDir);
              forall i :: 0 <= i < |targets| ==>
                targets[i] == Path(baseDir.absolute, baseDir.parts + ["_docs", pages[i].kind, pages[i].fileName])
  {
    targets := FileList(specs, baseDir, "_docs", true);
    DocPagesCount(specs, true, baseDir);
    if WellFormed(baseDir) && SlashFreeIds(specs) {
      DevModeLayout(specs, baseDir, "_docs");
    }
  }

  /** `get_file_deps`: the page templates, in each pipeline's `docs_src` (the project's own in dev mode). */
  method GetFileDeps(specs: seq<Pipeline>, baseDir: Path, devMode: bool) returns (deps: seq<Path>)
    ensures deps == DocPaths(DocPages(specs, devMode, baseDir), "docs_src")
    ensures |deps| == PageCount(specs)
    ensures devMode && WellFormed(baseDir) && SlashFreeIds(specs) ==>
              var pages := DocPages(specs, true, baseDir);
              forall i :: 0 <= i < |deps| ==>
                deps[i] == Path(baseDir.absolute, baseDir.parts + ["docs_src", pages[i].kind, pages[i].fileName])
  {
    deps := FileList(specs, baseDir, "docs_src", devMode);
    DocPagesCount(specs, devMode, baseDir);
    if devMode && WellFormed(baseDir) && SlashFreeIds(specs) {
      DevModeLayout(specs, baseDir, "docs_src");
    }
  }

  // ------------------------------------------------------------ properties of the page list

  /** Σ (number of dataframes + number of charts) over the pipelines. */
  function PageCount(specs: seq<Pipeline>): nat {
    if specs == [] then 0
    else
      var last := specs[|specs| - 1];
      PageCount(specs[..|specs| - 1]) + |last.dataframes| + |last.charts|
  }

  /** One page per dataframe and one per chart, whatever the mode. */
  lemma {:induction false} DocPagesCount(specs: seq<Pipeline>, devMode: bool, baseDir: Path)
    ensures |DocPages(specs, devMode, baseDir)| == PageCount(specs)
  {
    if specs != [] {
      DocPagesCount(specs[..|specs| - 1], devMode, baseDir);
    }
  }

  /** `{p}_{id}{ext}` is a single file name when neither id holds a "/". */
  lemma {:induction false} FileNameValid(pid: string, id: string, ext: string)
    requires '/' !in pid && '/' !in id && '/' !in ext
    ensures ValidPart(pid + "_" + id + ext)
  {
    var name := pid + "_" + id + ext;
    assert name[|pid|] == '_';
    assert '/' !in pid + "_";
  }

  /** A page that `_get` turns into `prod / middle / kind / fileName` with four single components. */
  predicate PageShape(page: DocPage, prod: Path) {
    page.prod == prod && ValidPart(page.fileName) && (page.kind == "dataframes" || page.kind == "charts")
  }

  lemma {:induction false} PipelinePagesShape(p: Pipeline, prod: Path)
    requires '/' !in p.id
    requires forall i :: 0 <= i < |p.dataframes| ==> '/' !in p.dataframes[i].id
    requires forall j :: 0 <= j < |p.charts| ==> '/' !in p.charts[j].id
    ensures forall i :: 0 <= i < |PipelinePages(p, prod)| ==> PageShape(PipelinePages(p, prod)[i], prod)
  {
    var frames, charts := DataframePages(p, prod, |p.dataframes|), ChartPages(p, prod, |p.charts|);
    forall i | 0 <= i < |frames|
      ensures PageShape(frames[i], prod)
    {
      FileNameValid(p.id, p.dataframes[i].id, ".md");
    }
    forall j | 0 <= j < |charts|
      ensures PageShape(charts[j], prod)
    {
      FileNameValid(p.id, p.charts[j].id, ".md");
    }
  }

  /** In dev mode every page lies under the project root and has a single-component file name. */
  lemma {:induction false} DevModePages(specs: seq<Pipeline>, baseDir: Path)
    requires WellFormed(baseDir) && SlashFreeIds(specs)
    ensures forall i :: 0 <= i < |DocPages(specs, true, baseDir)| ==> PageShape(DocPages(specs, true, baseDir)[i], baseDir)
  {
    if specs != [] {
      var init, last := specs[..|specs| - 1], specs[|specs| - 1];
      assert SlashFreeIds(init) by {
        forall k | 0 <= k < |init|
          ensures init[k] == specs[k]
        {
        }
      }
      DevModePages(init, baseDir);
      DevModeProdDir(last, baseDir);
      PipelinePagesShape(last, baseDir);
      var a, b := DocPages(init, true, baseDir), PipelinePages(last, baseDir);
      assert DocPages(specs, true, baseDir) == a + b;
      forall i | 0 <= i < |a + b|
        ensures PageShape((a + b)[i], baseDir)
      {
        if i < |a| {
          assert (a + b)[i] == a[i];
        } else {
          assert (a + b)[i] == b[i - |a|];
        }
      }
    }
  }

  /** `prod / middle / kind / fileName` for a page with single-component names. */
  lemma {:induction false} DocPathLayout(page: DocPage, middleDir: string)
    requires ValidPart(middleDir) && ValidPart(page.fileName)
    ensures DocPath(page, middleDir) == Path(page.prod.absolute, page.prod.parts + [middleDir, page.kind, page.fileName])
  {
    JoinStrChild(page.prod, middleDir);
    JoinStrChild(Child(Child(page.prod, middleDir), page.kind), page.fileName);
  }

  lemma {:induction false} DevModeLayout(specs: seq<Pipeline>, baseDir: Path, middleDir: string)
    requires WellFormed(baseDir) && SlashFreeIds(specs) && ValidPart(middleDir)
    ensures var pages := DocPages(specs, true, baseDir);
            forall i :: 0 <= i < |pages| ==>
              DocPaths(pages, middleDir)[i] == Path(baseDir.absolute, baseDir.parts + [middleDir, pages[i].kind, pages[i].fileName])
  {
    var pages := DocPages(specs, true, baseDir);
    DevModePages(specs, baseDir);
    DocPathsAt(pages, middleDir);
    forall i | 0 <= i < |pages|
      ensures DocPaths(pages, middleDir)[i] == Path(baseDir.absolute, baseDir.parts + [middleDir, pages[i].kind, pages[i].fileName])
    {
      DocPathLayout(pages[i], middleDir);
    }
  }
}
