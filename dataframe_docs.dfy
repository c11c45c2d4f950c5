/**
 * `get_dataframes_and_dataframe_docs`: a dict from `"{p}_{d}"`, for every dataframe `d`
 * of every pipeline `p`, to the posix path of that dataframe's page relative to the
 * built docs.
 */
module DataframeDocs {
  import opened Paths
  import opened DictUpdates
  import opened PipelinePublish

  /** `Path("dataframes")`, a single component. */
  const DataframesDir := Path(false, ["dataframes"])

  /** `("dataframes" / Path(f"{key}.md")).as_posix()`: the value stored for `key`. */
  function DocFor(key: string): string {
    AsPosix(Join(DataframesDir, Parse(key + ".md")))
  }

  /** The assignment for dataframe `d` of pipeline `pid`. */
  function TableEntry(pid: string, d: Dataframe): (string, string) {
    (pid + "_" + d.id, AsPosix(Join(DataframesDir, Parse(pid + "_" + d.id + ".md"))))
  }

  /** The assignments for the first `n` dataframes of `p`. */
  function PipelineEntries(p: Pipeline, n: nat): seq<(string, string)>
    requires n <= |p.dataframes|
  {
    if n == 0 then [] else PipelineEntries(p, n - 1) + [TableEntry(p.id, p.dataframes[n - 1])]
  }

  /** Every assignment, pipeline after pipeline. */
  function TableEntries(specs: seq<Pipeline>): seq<(string, string)> {
    if specs == [] then []
    else
      var last := specs[|specs| - 1];
      TableEntries(specs[..|specs| - 1]) + PipelineEntries(last, |last.dataframes|)
  }

  /** `"{p}_{d}"` for some dataframe `d` of some pipeline `p`. */
  predicate IsTableKey(specs: seq<Pipeline>, key: string) {
    exists i, j :: 0 <= i < |specs| && 0 <= j < |specs[i].dataframes| && key == specs[i].id + "_" + specs[i].dataframes[j].id
  }

  /** The loop over one pipeline's dataframes. */
  method AddPipeline(tableFileMap: map<string, string>, pipeline: Pipeline) returns (result: map<string, string>)
    ensures result == AssignAll(tableFileMap, PipelineEntries(pipeline, |pipeline.dataframes|))
  {
    result := tableFileMap;
    for j := 0 to |pipeline.dataframes|
      invariant result == AssignAll(tableFileMap, PipelineEntries(pipeline, j))
    {
      var dataframeId := pipeline.dataframes[j].id;
      var fileName := Parse(pipeline.id + "_" + dataframeId + ".md");
      var filePath := Join(DataframesDir, fileName);
      result := result[pipeline.id + "_" + dataframeId := AsPosix(filePath)];
      AssignAllAppend(tableFileMap, PipelineEntries(pipeline, j), [TableEntry(pipeline.id, pipeline.dataframes[j])]);
      AssignOne(AssignAll(tableFileMap, PipelineEntries(pipeline, j)), TableEntry(pipeline.id, pipeline.dataframes[j]));
    }
  }

  /**
   * `get_dataframes_and_dataframe_docs` on the given specs: exactly one key per
   * `"{p}_{d}"`, each mapped to the page named after it.
   */
  method TableFileMap(specs: seq<Pipeline>) returns (tableFileMap: map<string, string>)
    ensures tableFileMap == AssignAll(map[], TableEntries(specs))
    ensures forall key :: key in tableFileMap <==> IsTableKey(specs, key)
    ensures forall key :: key in tableFileMap ==> tableFileMap[key] == DocFor(key)
  {
    tableFileMap := map[];
    for k := 0 to |specs|
      invariant tableFileMap == AssignAll(map[], TableEntries(specs[..k]))
    {
      tableFileMap := AddPipeline(tableFileMap, specs[k]);
      assert specs[..k + 1][..k] == specs[..k];
      AssignAllAppend(map[], TableEntries(specs[..k]), PipelineEntries(specs[k], |specs[k].dataframes|));
    }
    assert specs[..|specs|] == specs;
    TableKeys(specs);
    TableValues(specs);
  }

  /** The keys are exactly the `"{p}_{d}"`: nothing is missing and nothing else is there. */
  lemma {:induction false} TableKeys(specs: seq<Pipeline>)
    ensures forall key :: key in AssignAll(map[], TableEntries(specs)) <==> IsTableKey(specs, key)
  {
    AssignAllKeys(map[], TableEntries(specs));
    EntryKeys(specs);
  }

  lemma {:induction false} EntryKeys(specs: seq<Pipeline>)
    ensures forall key :: key in KeysOf(TableEntries(specs)) <==> IsTableKey(specs, key)
  {
    if specs != [] {
      var init, last := specs[..|specs| - 1], specs[|specs| - 1];
      EntryKeys(init);
      PipelineKeys(last, |last.dataframes|);
      KeysOfAppend(TableEntries(init), PipelineEntries(last, |last.dataframes|));
      TableKeySnoc(specs);
    }
  }

  /** A key of the specs is a key of all but the last pipeline, or one of the last pipeline's. */
  lemma {:induction false} TableKeySnoc(specs: seq<Pipeline>)
    requires specs != []
    ensures var init, last := specs[..|specs| - 1], specs[|specs| - 1];
            forall key :: IsTableKey(specs, key) <==>
              IsTableKey(init, key) || exists j :: 0 <= j < |last.dataframes| && key == last.id + "_" + last.dataframes[j].id
  {
    var init, last := specs[..|specs| - 1], specs[|specs| - 1];
    forall key | IsTableKey(specs, key)
      ensures IsTableKey(init, key) || exists j :: 0 <= j < |last.dataframes| && key == last.id + "_" + last.dataframes[j].id
    {
      var i, j :| 0 <= i < |specs| && 0 <= j < |specs[i].dataframes| && key == specs[i].id + "_" + specs[i].dataframes[j].id;
      if i < |init| {
        assert init[i] == specs[i];
      }
    }
    forall key | IsTableKey(init, key)
      ensures IsTableKey(specs, key)
    {
      var i, j :| 0 <= i < |init| && 0 <= j < |init[i].dataframes| && key == init[i].id + "_" + init[i].dataframes[j].id;
      assert init[i] == specs[i];
    }
  }

  lemma {:induction false} PipelineKeys(p: Pipeline, n: nat)
    requires n <= |p.dataframes|
    ensures forall key :: key in KeysOf(PipelineEntries(p, n)) <==>
                            exists j :: 0 <= j < n && key == p.id + "_" + p.dataframes[j].id
  {
    if n > 0 {
      PipelineKeys(p, n - 1);
      KeysOfAppend(PipelineEntries(p, n - 1), [TableEntry(p.id, p.dataframes[n - 1])]);
      SingleKeysValues(TableEntry(p.id, p.dataframes[n - 1]));
    }
  }

  /** Each key holds the page named after it, even when two dataframes produce the same key. */
  lemma {:induction false} TableValues(specs: seq<Pipeline>)
    ensures forall key :: key in AssignAll(map[], TableEntries(specs)) ==> AssignAll(map[], TableEntries(specs))[key] == DocFor(key)
  {
    EntryValues(specs);
    AssignAllFunctional(map[], TableEntries(specs), DocFor);
  }

  lemma {:induction false} EntryValues(specs: seq<Pipeline>)
    ensures forall i :: 0 <= i < |TableEntries(specs)| ==> TableEntries(specs)[i].1 == DocFor(TableEntries(specs)[i].0)
  {
    if specs != [] {
      var init, last := specs[..|specs| - 1], specs[|specs| - 1];
      EntryValues(init);
      PipelineValues(last, |last.dataframes|);
      var a: seq<(string, string)>, b: seq<(string, string)> := TableEntries(init), PipelineEntries(last, |last.dataframes|);
      forall i | 0 <= i < |a + b|
        ensures (a + b)[i].1 == DocFor((a + b)[i].0)
      {
        if i < |a| {
          assert (a + b)[i] == a[i];
        } else {
          assert (a + b)[i] == b[i - |a|];
        }
      }
    }
  }

  lemma {:induction false} PipelineValues(p: Pipeline, n: nat)
    requires n <= |p.dataframes|
    ensures forall i :: 0 <= i < |PipelineEntries(p, n)| ==> PipelineEntries(p, n)[i].1 == DocFor(PipelineEntries(p, n)[i].0)
  {
    if n > 0 {
      PipelineValues(p, n - 1);
      var a: seq<(string, string)>, e: (string, string) := PipelineEntries(p, n - 1), TableEntry(p.id, p.dataframes[n - 1]);
      assert e.1 == DocFor(e.0);
      forall i | 0 <= i < |a + [e]|
        ensures (a + [e])[i].1 == DocFor((a + [e])[i].0)
      {
        if i < |a| {
          assert (a + [e])[i] == a[i];
        }
      }
    }
  }

  /** For a key that makes one file name, the page is `dataframes/{key}.md`. */
  lemma {:induction false} DocForLayout(key: string)
    requires ValidPart(key + ".md")
    ensures DocFor(key) == "dataframes/" + key + ".md"
  {
    var name := key + ".md";
    ParseRelative([name]);
    assert JoinParts([name]) == name;
    assert Join(DataframesDir, Parse(name)).parts == ["dataframes", name];
    assert JoinParts(["dataframes", name]) == "dataframes" + "/" + JoinParts([name]);
  }
}
