/** The indexing revision that embeds the code side: build DataPoints from
    the whole split, embed each whole function in a process pool, keep the
    results that succeeded in completion order, and write their dumps back to
    back. */
module UnixcoderUsecase {
  import opened Wrappers
  import opened Models
  import opened Records
  import opened Text
  import opened Multisets

  /** `create_code_search_net_dataset()`: one record per constructible item
      of the whole split, with the item's position as its id. */
  function CreateCodeSearchNetDataset(ds: seq<Item>): (r: seq<DataPoint>)
    ensures |r| <= |ds|
    ensures forall k :: 0 <= k < |r| ==> BuiltFrom(ds, r[k])
    ensures forall k, l :: 0 <= k < l < |r| ==> r[k].id < r[l].id
    ensures forall i :: 0 <= i < |ds| ==> (Constructible(ds[i]) <==> HasId(r, i))
  {
    var r := Build(ds);
    forall i | 0 <= i < |ds| && HasId(r, i) ensures Constructible(ds[i]) {
      var k :| 0 <= k < |r| && r[k].id == i;
      assert BuiltFrom(ds, r[k]);
    }
    r
  }

  /** `generate_embeddings(snippet)`; `embed` yields `None` where the encoder
      or the pair construction raises. */
  function GenerateEmbeddings(snippet: string, embed: string -> Option<seq<real>>): (r: Option<CodePair>)
    ensures r.Some? <==> embed(snippet).Some?
    ensures r.Some? ==> r.value.codeString == snippet && Some(r.value.vector) == embed(snippet)
  {
    match embed(snippet)
    case None => None
    case Some(v) => Some(CodePair(snippet, v))
  }

  /** `process_data_point`: embeds the whole function, which is also the
      stored code string. */
  function ProcessDataPoint(dp: DataPoint, embed: string -> Option<seq<real>>): (r: Option<CodePair>)
    ensures r.Some? <==> embed(dp.wholeFuncString).Some?
    ensures r.Some? ==> r.value.codeString == dp.wholeFuncString && embed(r.value.codeString) == Some(r.value.vector)
  {
    GenerateEmbeddings(dp.wholeFuncString, embed)
  }

  /** `p` stores the whole function of some data point, together with the
      embedding of that function. */
  predicate FromSomeDataPoint(dps: seq<DataPoint>, embed: string -> Option<seq<real>>, p: CodePair) {
    && embed(p.codeString) == Some(p.vector)
    && exists i :: 0 <= i < |dps| && dps[i].wholeFuncString == p.codeString
  }

  /** What one future contributes to `pairs`: its result, or nothing when it raised. */
  function Kept(dp: DataPoint, embed: string -> Option<seq<real>>): seq<CodePair> {
    match ProcessDataPoint(dp, embed)
    case Some(p) => [p]
    case None => []
  }

  /** The results of the data points whose embedding succeeded, in input order. */
  function Succeeded(dps: seq<DataPoint>, embed: string -> Option<seq<real>>): seq<CodePair> {
    if |dps| == 0 then [] else Kept(dps[0], embed) + Succeeded(dps[1..], embed)
  }

  lemma {:induction false} SucceededAppend(a: seq<DataPoint>, b: seq<DataPoint>, embed: string -> Option<seq<real>>)
    ensures Succeeded(a + b, embed) == Succeeded(a, embed) + Succeeded(b, embed)
  {
    if |a| == 0 {
      assert a + b == b;
    } else {
      assert (a + b)[1..] == a[1..] + b;
      SucceededAppend(a[1..], b, embed);
    }
  }

  /** Every surviving result comes from a data point whose embedding
      succeeded: it stores that data point's whole function with its embedding. */
  lemma {:induction false} SucceededSource(dps: seq<DataPoint>, embed: string -> Option<seq<real>>)
    ensures forall p :: p in Succeeded(dps, embed) ==> FromSomeDataPoint(dps, embed, p)
  {
    if |dps| > 0 {
      SucceededSource(dps[1..], embed);
      forall p | p in Succeeded(dps, embed)
        ensures FromSomeDataPoint(dps, embed, p)
      {
        if p in Kept(dps[0], embed) {
          assert ProcessDataPoint(dps[0], embed) == Some(p);
        } else {
          assert FromSomeDataPoint(dps[1..], embed, p);
          var i :| 0 <= i < |dps[1..]| && dps[1..][i].wholeFuncString == p.codeString;
          assert dps[i + 1] == dps[1..][i];
        }
      }
    }
  }

  /** Taking one data point out of the input takes its result (if any) out
      of the successes. */
  lemma SucceededRemove(b: seq<DataPoint>, j: nat, embed: string -> Option<seq<real>>)
    requires j < |b|
    ensures multiset(Succeeded(b, embed))
            == multiset(Succeeded([b[j]], embed)) + multiset(Succeeded(b[..j] + b[j + 1..], embed))
  {
    SucceededSplit(b, j, embed);
    var l, x, r := Succeeded(b[..j], embed), Succeeded([b[j]], embed), Succeeded(b[j + 1..], embed);
    assert multiset(l + (x + r)) == multiset(l) + multiset(x) + multiset(r);
  }

  /** The successes of `b` split around position `j`. */
  lemma SucceededSplit(b: seq<DataPoint>, j: nat, embed: string -> Option<seq<real>>)
    requires j < |b|
    ensures Succeeded(b, embed)
            == Succeeded(b[..j], embed) + (Succeeded([b[j]], embed) + Succeeded(b[j + 1..], embed))
    ensures Succeeded(b[..j] + b[j + 1..], embed) == Succeeded(b[..j], embed) + Succeeded(b[j + 1..], embed)
  {
    var left, right := b[..j], b[j + 1..];
    assert b[j..] == [b[j]] + right;
    assert b == left + b[j..];
    SucceededAppend(left, [b[j]] + right, embed);
    SucceededAppend([b[j]], right, embed);
    SucceededAppend(left, right, embed);
  }

  /** Processing the data points in any order keeps the same results, only
      reordered. */
  lemma {:induction false} SucceededPermutation(a: seq<DataPoint>, b: seq<DataPoint>, embed: string -> Option<seq<real>>)
    requires multiset(a) == multiset(b)
    ensures multiset(Succeeded(a, embed)) == multiset(Succeeded(b, embed))
    decreases |a|
  {
    if |a| == 0 {
      assert |b| == |multiset(b)| == 0;
      assert b == [];
    } else {
      var x := a[0];
      assert x in multiset(b);
      var j :| 0 <= j < |b| && b[j] == x;
      var left, right := b[..j], b[j + 1..];
      RemoveMatching(a, b, j);
      SucceededPermutation(a[1..], left + right, embed);
      SucceededRemove(b, j, embed);
      assert Succeeded([x], embed) == Kept(x, embed);
      assert multiset(Succeeded(a, embed)) == multiset(Kept(x, embed)) + multiset(Succeeded(a[1..], embed));
    }
  }

  /** The write loop: each dump is written with no separator or brackets. */
  method WriteDumps(dumps: seq<string>) returns (content: string)
    ensures content == Concat(dumps)
  {
    content := "";
    for i := 0 to |dumps|
      invariant content == Concat(dumps[..i])
    {
      ConcatSnoc(dumps[..i], dumps[i]);
      assert dumps[..i + 1] == dumps[..i] + [dumps[i]];
      content := content + dumps[i];
    }
    assert dumps[..|dumps|] == dumps;
  }

  /** The collection loop over the futures in completion order: a future
      that raised contributes nothing. */
  method CollectResults(completed: seq<DataPoint>, embed: string -> Option<seq<real>>)
    returns (pairs: seq<CodePair>)
    ensures pairs == Succeeded(completed, embed)
  {
    pairs := [];
    for k := 0 to |completed|
      invariant pairs == Succeeded(completed[..k], embed)
    {
      var result := ProcessDataPoint(completed[k], embed);
      SucceededAppend(completed[..k], [completed[k]], embed);
      assert completed[..k + 1] == completed[..k] + [completed[k]];
      if result.Some? {
        pairs := pairs + [result.value];
      }
    }
    assert completed[..|completed|] == completed;
  }

  /** Whatever order the data points complete in, the kept results are the
      successful results in input order, rearranged, and each comes from a
      data point whose whole function it stores with its embedding. */
  lemma CompletionOrderFacts(dataPoints: seq<DataPoint>, completed: seq<DataPoint>,
                             embed: string -> Option<seq<real>>)
    requires multiset(completed) == multiset(dataPoints)
    ensures multiset(Succeeded(completed, embed)) == multiset(Succeeded(dataPoints, embed))
    ensures forall p :: p in Succeeded(completed, embed) ==> FromSomeDataPoint(dataPoints, embed, p)
  {
    SucceededPermutation(completed, dataPoints, embed);
    SucceededSource(dataPoints, embed);
    forall p | p in Succeeded(completed, embed)
      ensures FromSomeDataPoint(dataPoints, embed, p)
    {
      assert p in multiset(Succeeded(dataPoints, embed));
    }
  }

  /** `process_data`: the futures complete in the order `completed`, which
      holds each data point exactly once; a failing future is dropped, and
      the kept results are dumped back to back. */
  method ProcessData(dataPoints: seq<DataPoint>, completed: seq<DataPoint>,
                     embed: string -> Option<seq<real>>, dump: CodePair -> string)
    returns (pairs: seq<CodePair>, content: string)
    requires multiset(completed) == multiset(dataPoints)
    ensures multiset(pairs) == multiset(Succeeded(dataPoints, embed))
    ensures forall p :: p in pairs ==> FromSomeDataPoint(dataPoints, embed, p)
    ensures content == Concat(seq(|pairs|, i requires 0 <= i < |pairs| => dump(pairs[i])))
  {
    pairs := CollectResults(completed, embed);
    CompletionOrderFacts(dataPoints, completed, embed);
    content := WriteDumps(seq(|pairs|, i requires 0 <= i < |pairs| => dump(pairs[i])));
  }
}
