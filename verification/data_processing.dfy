/** The indexing revision that embeds the documentation side: build the
    first `slice_size` DataPoints, embed each documentation string, and write
    the pairs as a hand-framed JSON array. */
module DataProcessing {
  import opened Wrappers
  import opened Models
  import opened Records
  import opened RecordsSlicing
  import opened Text

  /** The default of `slice_size`. */
  const DefaultSliceSize: int := 20

  /** `select` raises for a range that runs past the end of the split. */
  datatype SelectError = IndexOutOfRange

  /** How many items `range(sliceSize)` selects. */
  function SelectedCount(sliceSize: int): nat {
    if sliceSize <= 0 then 0 else sliceSize
  }

  /** `dataset.select(range(slice_size))`: the first `slice_size` items; an
      empty split is returned unchanged whatever the range, and a range that
      runs past the end of a non-empty split raises. */
  function Select(ds: seq<Item>, sliceSize: int): (r: Result<seq<Item>, SelectError>)
    ensures r.Success? <==> |ds| == 0 || sliceSize <= |ds|
    ensures r.Success? ==> r.value <= ds
    ensures r.Success? && |ds| > 0 ==> |r.value| == SelectedCount(sliceSize)
  {
    if |ds| == 0 then Success(ds)
    else if sliceSize <= |ds| then Success(ds[..SelectedCount(sliceSize)])
    else Failure(IndexOutOfRange)
  }

  /** `create_code_search_net_dataset(slice_size)`: the records of the first
      `slice_size` items of the split, which are exactly the records of the
      whole split whose id is below `slice_size`. */
  function CreateCodeSearchNetDataset(ds: seq<Item>, sliceSize: int): (r: Result<seq<DataPoint>, SelectError>)
    ensures r.Success? <==> |ds| == 0 || sliceSize <= |ds|
    ensures r.Success? ==> |r.value| <= SelectedCount(sliceSize)
    ensures r.Success? ==> forall k :: 0 <= k < |r.value| ==> r.value[k].id < sliceSize && BuiltFrom(ds, r.value[k])
    ensures r.Success? ==> forall k, l :: 0 <= k < l < |r.value| ==> r.value[k].id < r.value[l].id
    ensures r.Success? ==> forall i :: 0 <= i < |ds| && i < sliceSize && Constructible(ds[i]) ==> HasId(r.value, i)
    ensures r.Success? ==> r.value <= Build(ds)
  {
    var selected :- Select(ds, sliceSize);
    var m := |selected|;
    BuildFromSplit(ds, 0, m);
    assert forall i :: 0 <= i < m ==> selected[i] == ds[i];
    assert selected == ds[..m];
    var points := Build(selected);
    assert forall k :: 0 <= k < |points| ==> points[k] == Build(ds)[k];
    Success(points)
  }

  /** `create_code_search_net_dataset()` called with its default `slice_size`:
      the records of the first twenty items. */
  function CreateDefaultDataset(ds: seq<Item>): (r: Result<seq<DataPoint>, SelectError>)
    ensures r.Success? <==> |ds| == 0 || 20 <= |ds|
    ensures r.Success? ==> |r.value| <= 20
    ensures r.Success? ==> forall k :: 0 <= k < |r.value| ==> r.value[k].id < 20 && BuiltFrom(ds, r.value[k])
    ensures r.Success? ==> forall i :: 0 <= i < |ds| && i < 20 && Constructible(ds[i]) ==> HasId(r.value, i)
  {
    CreateCodeSearchNetDataset(ds, DefaultSliceSize)
  }

  /** `generate_embedding(snippet_for_model, code_string)`, with the encoder
      and its normalisation as the function `embed`. */
  function GenerateEmbedding(snippetForModel: string, codeString: string, embed: string -> seq<real>): (p: Pair)
    ensures p.codeString == codeString
    ensures p.commentString == snippetForModel
    ensures p.commentEmbedding == embed(snippetForModel)
  {
    Pair(codeString, embed(snippetForModel), snippetForModel)
  }

  /** `process_data_point`: the whole function is stored, and its
      documentation string is both recorded and embedded. */
  function ProcessDataPoint(dp: DataPoint, embed: string -> seq<real>): (p: Pair)
    ensures p.codeString == dp.wholeFuncString
    ensures p.commentString == dp.funcDocumentationString
    ensures p.commentEmbedding == embed(p.commentString)
  {
    GenerateEmbedding(dp.funcDocumentationString, dp.wholeFuncString, embed)
  }

  /** The separator between array elements. */
  const ItemSeparator := ",\n"

  /** The write loop of `process_data`: "[\n", then each dump followed by ","
      unless it is the last, then "\n", and finally "\n]". */
  method WriteJsonArray(dumps: seq<string>) returns (content: string)
    ensures |dumps| == 0 ==> content == "[\n\n]"
    ensures |dumps| > 0 ==> content == "[\n" + Join(dumps, ItemSeparator) + "\n" + "\n]"
  {
    content := "[\n";
    for idx := 0 to |dumps|
      invariant idx == 0 ==> content == "[\n"
      invariant 0 < idx < |dumps| ==> content == "[\n" + Join(dumps[..idx], ItemSeparator) + ItemSeparator
      invariant 0 < idx == |dumps| ==> content == "[\n" + Join(dumps, ItemSeparator) + "\n"
    {
      if idx > 0 {
        JoinSnoc(dumps[..idx], dumps[idx], ItemSeparator);
        assert dumps[..idx + 1] == dumps[..idx] + [dumps[idx]];
      } else {
        assert dumps[..1] == [dumps[0]];
      }
      content := content + dumps[idx];
      if idx != |dumps| - 1 {
        content := content + ",";
      }
      content := content + "\n";
      if idx + 1 == |dumps| {
        assert dumps[..idx + 1] == dumps;
      }
    }
    content := content + "\n]";
  }

  /** `process_data`: embed every data point (the order-preserving
      `executor.map`) and frame the dumped pairs as a JSON array. */
  method ProcessData(dataPoints: seq<DataPoint>, embed: string -> seq<real>, dump: Pair -> string)
    returns (pairs: seq<Pair>, content: string)
    ensures |pairs| == |dataPoints|
    ensures forall i :: 0 <= i < |pairs| ==>
              && pairs[i].codeString == dataPoints[i].wholeFuncString
              && pairs[i].commentString == dataPoints[i].funcDocumentationString
              && pairs[i].commentEmbedding == embed(dataPoints[i].funcDocumentationString)
    ensures |pairs| == 0 ==> content == "[\n\n]"
    ensures |pairs| > 0 ==>
              content == "[\n" + Join(seq(|pairs|, i requires 0 <= i < |pairs| => dump(pairs[i])), ItemSeparator) + "\n\n]"
  {
    pairs := seq(|dataPoints|, i requires 0 <= i < |dataPoints| => ProcessDataPoint(dataPoints[i], embed));
    var dumps := seq(|pairs|, i requires 0 <= i < |pairs| => dump(pairs[i]));
    content := WriteJsonArray(dumps);
    if |pairs| > 0 {
      assert content == "[\n" + Join(dumps, ItemSeparator) + "\n" + "\n]";
      assert "[\n" + Join(dumps, ItemSeparator) + "\n" + "\n]" == "[\n" + Join(dumps, ItemSeparator) + "\n\n]";
    }
  }
}
