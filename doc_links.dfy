/**
 * The links between the generated documentation pages and the README text copied into
 * them: the link back from a dataframe or chart page, the per-pipeline READMEs the
 * "chart_base" theme writes, and what the index page is rendered with.
 */
module DocLinks {
  import opened Outcomes
  import opened Text
  import opened Paths
  import opened PipelinePublish

  predicate KnownTheme(theme: string) {
    theme == "pipeline" || theme == "chart_base"
  }

  /** The `pipeline_page_link` of a dataframe or chart page of pipeline `pid`. */
  function PageLink(theme: string, pid: string): (r: Result<string>)
    ensures r.Ok? <==> KnownTheme(theme)
    ensures r.Err? ==> r.error == ValueError("Invalid Pipeline theme")
  {
    if theme == "pipeline" then Ok("../index.md")
    else if theme == "chart_base" then Ok("../pipelines/" + pid + "_README.md")
    else Err(ValueError("Invalid Pipeline theme"))
  }

  /** Where the "chart_base" theme writes the README of pipeline `pid`. */
  function ReadmeDestination(docsBuild: Path, pid: string): Path {
    JoinStr(Child(docsBuild, "pipelines"), pid + "_README.md")
  }

  /** Where the index page is written. */
  function IndexDestination(docsBuild: Path): Path {
    Child(docsBuild, "index.md")
  }

  /** Where a pipeline's README is read from. */
  function ReadmeSource(p: Pipeline, devMode: bool, baseDir: Path): Path {
    Child(ProdDir(p, devMode, baseDir), "README.md")
  }

  lemma ReadmeNameValid(pid: string)
    requires '/' !in pid
    ensures ValidPart(pid + "_README.md")
  {
    assert (pid + "_README.md")[|pid|] == '_';
  }

  /** `x/..` cancels when neither the prefix nor the rest holds "..". */
  lemma {:induction false} CollapseUpOne(a: seq<string>, dir: string, rest: seq<string>)
    requires ".." !in a && dir != ".." && ".." !in rest
    ensures Collapse(a + [dir, ".."] + rest) == a + rest
  {
    var up := a + [dir, ".."];
    CollapseAppend(up, rest);
    assert up[..|up| - 1] == a + [dir];
    CollapseAppend(a, [dir]);
    CollapseNoDotDot(a);
    assert (a + [dir])[..|a|] == a;
  }

  /** A ".." link from a page in `docsBuild/dir` lands back under `docsBuild`. */
  lemma {:induction false} UpLinkResolves(docsBuild: Path, dir: string, parts: seq<string>, cwd: Path)
    requires IsNormalAbsolute(docsBuild) && dir != ".." && ".." !in parts && cwd.absolute
    ensures Resolve(Join(Child(docsBuild, dir), Path(false, [".."] + parts)), cwd)
              == Path(true, docsBuild.parts + parts)
  {
    CollapseUpOne(docsBuild.parts, dir, parts);
    assert docsBuild.parts + [dir] + ([".."] + parts) == docsBuild.parts + [dir, ".."] + parts;
  }

  /** A link without ".." from a page in `docsBuild` lands under `docsBuild`. */
  lemma {:induction false} DownLinkResolves(docsBuild: Path, parts: seq<string>, cwd: Path)
    requires IsNormalAbsolute(docsBuild) && ".." !in parts && cwd.absolute
    ensures Resolve(Join(docsBuild, Path(false, parts)), cwd) == Path(true, docsBuild.parts + parts)
  {
    CollapseNoDotDot(docsBuild.parts + parts);
  }

  lemma IndexUpLink(link: string)
    requires link == "../index.md"
    ensures Parse(link) == Path(false, [".."] + ["index.md"])
  {
    assert link == "../" + JoinParts(["index.md"]);
    ParseUpRelative(["index.md"]);
  }

  lemma {:induction false} ReadmeUpLink(pid: string, link: string)
    requires '/' !in pid && link == "../pipelines/" + pid + "_README.md"
    ensures Parse(link) == Path(false, [".."] + ["pipelines", pid + "_README.md"])
  {
    var name := pid + "_README.md";
    ReadmeNameValid(pid);
    JoinPartsPair("pipelines", name);
    assert link == "../" + JoinParts(["pipelines", name]);
    ParseUpRelative(["pipelines", name]);
  }

  lemma IndexDotLink(link: string)
    requires link == "./index.md"
    ensures Parse(link) == Path(false, ["index.md"])
  {
    assert link == "./" + JoinParts(["index.md"]);
    ParseDotRelative(["index.md"]);
  }

  lemma {:induction false} ReadmeDotLink(pid: string, link: string)
    requires '/' !in pid && link == "./pipelines/" + pid + "_README.md"
    ensures Parse(link) == Path(false, ["pipelines", pid + "_README.md"])
  {
    var name := pid + "_README.md";
    ReadmeNameValid(pid);
    JoinPartsPair("pipelines", name);
    assert link == "./" + JoinParts(["pipelines", name]);
    ParseDotRelative(["pipelines", name]);
  }

  /** The README of pipeline `pid` is the file `pid_README.md` in `docsBuild/pipelines`. */
  lemma ReadmeDestinationLayout(docsBuild: Path, pid: string)
    requires '/' !in pid
    ensures ReadmeDestination(docsBuild, pid) == Path(docsBuild.absolute, docsBuild.parts + ["pipelines", pid + "_README.md"])
  {
    ReadmeNameValid(pid);
    JoinStrChild(Child(docsBuild, "pipelines"), pid + "_README.md");
  }

  /** Under "pipeline", followed from a page in `docsBuild/kind`, the page link reaches the index. */
  lemma {:induction false} PipelineLinkReaches(docsBuild: Path, kind: string, pid: string, link: string, cwd: Path)
    requires IsNormalAbsolute(docsBuild) && kind != ".." && cwd.absolute
    requires PageLink("pipeline", pid) == Ok(link)
    ensures Resolve(Join(Child(docsBuild, kind), Parse(link)), cwd) == IndexDestination(docsBuild)
  {
    assert link == "../index.md";
    IndexUpLink(link);
    UpLinkResolves(docsBuild, kind, ["index.md"], cwd);
  }

  /** Under "chart_base", followed from a page in `docsBuild/kind`, the page link reaches the pipeline's README. */
  lemma {:induction false} ChartBaseLinkReaches(docsBuild: Path, kind: string, pid: string, link: string, cwd: Path)
    requires IsNormalAbsolute(docsBuild) && kind != ".." && cwd.absolute
    requires '/' !in pid
    requires PageLink("chart_base", pid) == Ok(link)
    ensures Resolve(Join(Child(docsBuild, kind), Parse(link)), cwd) == ReadmeDestination(docsBuild, pid)
  {
    ReadmeUpLink(pid, link);
    ReadmeNameValid(pid);
    assert ".." != pid + "_README.md";
    UpLinkResolves(docsBuild, kind, ["pipelines", pid + "_README.md"], cwd);
    ReadmeDestinationLayout(docsBuild, pid);
  }

  // ------------------------------------------------------------ README text

  /** `"".join(readme_content[2:])` for `readme_content = file.readlines()`. */
  function ReadmeBody(content: string): (r: string)
    ensures r == AfterNewlines(content, 2)
    ensures |r| <= |content| && content[|content| - |r|..] == r
    ensures NewlineCount(content) < 2 ==> r == ""
    ensures NewlineCount(content) >= 2 ==>
              NewlineCount(content[..|content| - |r|]) == 2 && content[|content| - |r| - 1] == '\n'
  {
    DropLinesIsAfterNewlines(content, 2);
    AfterNewlinesIsSuffix(content, 2);
    if NewlineCount(content) < 2 then
      AfterTooFewNewlines(content, 2);
      ""
    else
      AfterNewlinesCut(content, 2);
      var lines := Lines(content);
      if |lines| >= 2 then Concat(lines[2..]) else ""
  }

  /** The heading the "chart_base" theme puts before a pipeline's README body. */
  function ChartBaseHeading(pid: string, name: string): string {
    "# `" + pid + "` " + name + " \n\n "
  }

  /** The README written for pipeline `pid` under "chart_base": heading, then the body. */
  function ChartBaseReadme(pid: string, name: string, content: string): (r: string)
    ensures StartsWith(r, "# `" + pid + "` ")
    ensures |r| == |pid| + |name| + 9 + |ReadmeBody(content)|
    ensures r[|r| - |ReadmeBody(content)|..] == ReadmeBody(content)
    ensures r == "# `" + pid + "` " + name + " \n\n " + ReadmeBody(content)
  {
    var h := ChartBaseHeading(pid, name);
    assert |h| == |pid| + |name| + 9;
    assert h == ("# `" + pid + "` ") + (name + " \n\n ");
    h + ReadmeBody(content)
  }

  /** The README the "chart_base" theme writes for pipeline `p`: where, and what. */
  function ReadmeWrite(p: Pipeline, devMode: bool, baseDir: Path, docsBuild: Path,
                       read: Path -> string): (Path, string)
  {
    (ReadmeDestination(docsBuild, p.id), ChartBaseReadme(p.id, p.name, read(ReadmeSource(p, devMode, baseDir))))
  }

  /** The READMEs the "chart_base" pipeline loop writes, one per pipeline, in order. */
  function ChartBaseReadmes(specs: seq<Pipeline>, devMode: bool, baseDir: Path,
                            docsBuild: Path, read: Path -> string): (r: seq<(Path, string)>)
    ensures |r| == |specs|
    ensures forall i :: 0 <= i < |specs| ==> r[i] == ReadmeWrite(specs[i], devMode, baseDir, docsBuild, read)
  {
    if specs == [] then []
    else
      [ReadmeWrite(specs[0], devMode, baseDir, docsBuild, read)]
        + ChartBaseReadmes(specs[1..], devMode, baseDir, docsBuild, read)
  }

  /** The READMEs written by the pipeline loop: none unless the theme is "chart_base". */
  function ReadmeWrites(specs: seq<Pipeline>, theme: string, devMode: bool, baseDir: Path,
                        docsBuild: Path, read: Path -> string): seq<(Path, string)>
  {
    if theme == "chart_base" then ChartBaseReadmes(specs, devMode, baseDir, docsBuild, read) else []
  }

  /** Distinct pipelines write distinct READMEs: none overwrites another. */
  lemma {:induction false} ReadmeDestinationsDistinct(specs: seq<Pipeline>, theme: string, devMode: bool,
                                                      baseDir: Path, docsBuild: Path, read: Path -> string)
    requires DistinctIds(specs) && SlashFreeIds(specs)
    ensures var w := ReadmeWrites(specs, theme, devMode, baseDir, docsBuild, read);
            forall i, j :: 0 <= i < j < |w| ==> w[i].0 != w[j].0
  {
    var w := ReadmeWrites(specs, theme, devMode, baseDir, docsBuild, read);
    forall i, j | 0 <= i < j < |w|
      ensures w[i].0 != w[j].0
    {
      var a, b := specs[i].id, specs[j].id;
      ReadmeNameValid(a);
      ReadmeNameValid(b);
      JoinStrChild(Child(docsBuild, "pipelines"), a + "_README.md");
      JoinStrChild(Child(docsBuild, "pipelines"), b + "_README.md");
      if w[i].0 == w[j].0 {
        var base := docsBuild.parts + ["pipelines"];
        assert (base + [a + "_README.md"])[|base|] == (base + [b + "_README.md"])[|base|];
        SuffixCancels(a, b, "_README.md");
      }
    }
  }

  lemma SuffixCancels(a: string, b: string, x: string)
    requires a + x == b + x
    ensures a == b
  {
    assert |a| == |b|;
    assert a == (a + x)[..|a|] && b == (b + x)[..|b|];
  }

  // ------------------------------------------------------------ index page

  /** What `index.md` is rendered with besides the spec tables. */
  datatype IndexPage = IndexPage(readmeText: string, pipelinePageLink: string)

  /**
   * The index page: it uses the last pipeline of the loop, so with no pipelines the
   * name `pipeline_specs` is unbound; an unknown theme raises ValueError.
   */
  function IndexPlan(specs: seq<Pipeline>, theme: string, devMode: bool, baseDir: Path,
                     read: Path -> string): (r: Result<IndexPage>)
    ensures r.Ok? <==> KnownTheme(theme) && specs != []
    ensures !KnownTheme(theme) ==> r == Err(ValueError("Invalid Pipeline theme"))
    ensures KnownTheme(theme) && specs == [] ==> r == Err(UnboundLocalError("pipeline_specs"))
    ensures r.Ok? && theme == "chart_base" ==> r.value.readmeText == ""
    ensures r.Ok? && theme == "pipeline" ==>
              var last := specs[|specs| - 1];
              r.value.readmeText == AfterNewlines(read(ReadmeSource(last, devMode, baseDir)), 2)
  {
    if !KnownTheme(theme) then Err(ValueError("Invalid Pipeline theme"))
    else if specs == [] then Err(UnboundLocalError("pipeline_specs"))
    else
      var last := specs[|specs| - 1];
      if theme == "chart_base" then Ok(IndexPage("", "./pipelines/" + last.id + "_README.md"))
      else Ok(IndexPage(ReadmeBody(read(ReadmeSource(last, devMode, baseDir))), "./index.md"))
  }

  /**
   * Followed from the index page, its link reaches the index itself under "pipeline",
   * and under "chart_base" the README the pipeline loop wrote for the last pipeline.
   */
  lemma {:induction false} IndexLinkReaches(specs: seq<Pipeline>, theme: string, devMode: bool, baseDir: Path,
                                            read: Path -> string, page: IndexPage, docsBuild: Path, cwd: Path)
    requires IsNormalAbsolute(docsBuild) && SlashFreeIds(specs) && cwd.absolute
    requires IndexPlan(specs, theme, devMode, baseDir, read) == Ok(page)
    ensures theme == "pipeline" ==>
              Resolve(Join(docsBuild, Parse(page.pipelinePageLink)), cwd) == IndexDestination(docsBuild)
    ensures theme == "chart_base" ==>
              Resolve(Join(docsBuild, Parse(page.pipelinePageLink)), cwd)
                == ReadmeDestination(docsBuild, specs[|specs| - 1].id)
  {
    var link := page.pipelinePageLink;
    if theme == "pipeline" {
      IndexDotLink(link);
      DownLinkResolves(docsBuild, ["index.md"], cwd);
    } else {
      var pid := specs[|specs| - 1].id;
      assert '/' !in pid;
      ReadmeDotLink(pid, link);
      ReadmeNameValid(pid);
      assert ".." != pid + "_README.md";
      DownLinkResolves(docsBuild, ["pipelines", pid + "_README.md"], cwd);
      ReadmeDestinationLayout(docsBuild, pid);
    }
  }
}
