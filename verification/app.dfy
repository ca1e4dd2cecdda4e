/** The projection of the web route, `app.py` line 16, applied to the result
    of `search_processing.get_top_ten`: the code string of every returned
    entry. The route itself imports its search functions from the draft
    `search.py`, which does not provide them in this shape. */
module App {
  import opened Models
  import opened Ranking
  import opened SearchProcessing

  /** `[processed_data[index].code_string for index, _ in top_ten]`: every
      index `TopTen` returns is in range, so projecting its result never fails. */
  function TopTenSnippets(query: seq<real>, data: seq<Pair>): (snippets: seq<string>)
    requires SameDimension(query, data)
    ensures |snippets| == Min(TopCount, |data|)
    ensures forall k :: 0 <= k < |snippets| ==> exists i :: 0 <= i < |data| && snippets[k] == data[i].codeString
  {
    var top := TopTen(query, data);
    seq(|top|, k requires 0 <= k < |top| => data[top[k].index].codeString)
  }
}
