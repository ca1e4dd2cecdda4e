/** Query-time logic: loading the index file and selecting the ten stored
    pairs whose comment embedding scores highest against the query. */
module SearchProcessing {
  import opened Wrappers
  import opened Models
  import opened Ranking

  /** How many entries the search keeps (the `[:10]` slice). */
  const TopCount: nat := 10

  function Min(a: nat, b: nat): nat {
    if a <= b then a else b
  }

  /** The state of the index file when the search opens it; `J` stands for a
      decoded JSON value. */
  datatype DataFile<J> = NotFound | Undecodable | Decoded(items: seq<J>)

  /** What loading yields: the validated pairs, or the validation error of
      the first item that is not a pair, which the loader does not catch. */
  datatype Loaded = Pairs(pairs: seq<Pair>) | ValidationRaised(at: nat)

  /** Validates the decoded items one by one, stopping at the first failure. */
  function ValidateAll<J>(items: seq<J>, validate: J -> Option<Pair>): (r: Loaded)
    ensures r.Pairs? <==> forall i :: 0 <= i < |items| ==> validate(items[i]).Some?
    ensures r.Pairs? ==> |r.pairs| == |items|
                         && forall i :: 0 <= i < |items| ==> validate(items[i]) == Some(r.pairs[i])
    ensures r.ValidationRaised? ==> r.at < |items| && validate(items[r.at]).None?
                                    && forall i :: 0 <= i < r.at ==> validate(items[i]).Some?
  {
    if |items| == 0 then Pairs([])
    else
      match validate(items[0])
      case None => ValidationRaised(0)
      case Some(p) =>
        match ValidateAll(items[1..], validate)
        case Pairs(ps) => Pairs([p] + ps)
        case ValidationRaised(k) => ValidationRaised(k + 1)
  }

  /** `get_processed_data`: a missing or undecodable file gives the empty
      list; otherwise every item is validated as a pair. */
  function GetProcessedData<J>(file: DataFile<J>, validate: J -> Option<Pair>): (r: Loaded)
    ensures !file.Decoded? ==> r == Pairs([])
    ensures file.Decoded? ==>
              (r.Pairs? <==> forall i :: 0 <= i < |file.items| ==> validate(file.items[i]).Some?)
    ensures file.Decoded? && r.Pairs? ==>
              |r.pairs| == |file.items|
              && forall i :: 0 <= i < |file.items| ==> validate(file.items[i]) == Some(r.pairs[i])
  {
    match file
    case NotFound => Pairs([])
    case Undecodable => Pairs([])
    case Decoded(items) => ValidateAll(items, validate)
  }

  /** `np.dot` of two vectors of equal length. */
  function Dot(u: seq<real>, v: seq<real>): real
    requires |u| == |v|
  {
    if |u| == 0 then 0.0 else u[0] * v[0] + Dot(u[1..], v[1..])
  }

  /** Every stored comment embedding has the query's dimension; `np.dot`
      raises otherwise. */
  predicate SameDimension(query: seq<real>, data: seq<Pair>) {
    forall i :: 0 <= i < |data| ==> |data[i].commentEmbedding| == |query|
  }

  function ScoreOf(query: seq<real>, data: seq<Pair>, i: nat): real
    requires SameDimension(query, data) && i < |data|
  {
    Dot(data[i].commentEmbedding, query)
  }

  /** The items of the score dictionary, in insertion (index) order. */
  function ScoreItems(query: seq<real>, data: seq<Pair>): (r: seq<Scored>)
    requires SameDimension(query, data)
    ensures |r| == |data|
    ensures forall i :: 0 <= i < |r| ==> r[i] == Scored(i, ScoreOf(query, data, i))
    ensures IndicesIncreasing(r)
  {
    seq(|data|, i requires 0 <= i < |data| => Scored(i, ScoreOf(query, data, i)))
  }

  /** `get_top_ten`: score every pair, sort descending (stably) and keep the
      first ten. */
  function TopTen(query: seq<real>, data: seq<Pair>): (top: seq<Scored>)
    requires SameDimension(query, data)
    ensures |top| == Min(TopCount, |data|)
    ensures forall k :: 0 <= k < |top| ==>
              top[k].index < |data| && top[k].score == ScoreOf(query, data, top[k].index)
    ensures forall k, l :: 0 <= k < l < |top| ==> top[k].index != top[l].index
    ensures NonIncreasing(top)
    ensures forall k, l :: 0 <= k < l < |top| && top[k].score == top[l].score ==> top[k].index < top[l].index
    ensures forall i :: 0 <= i < |data| && (forall k :: 0 <= k < |top| ==> top[k].index != i) ==>
              forall k :: 0 <= k < |top| ==> Precedes(top[k], Scored(i, ScoreOf(query, data, i)))
  {
    var ranked := SortByScoreDesc(ScoreItems(query, data));
    var top := ranked[..Min(TopCount, |ranked|)];
    TopTenFacts(query, data, ranked, top);
    top
  }

  /** Each entry of a permutation of the score items is the item at its own
      index. */
  lemma RankedEntryIsItem(query: seq<real>, data: seq<Pair>, ranked: seq<Scored>, k: nat)
    requires SameDimension(query, data)
    requires multiset(ranked) == multiset(ScoreItems(query, data))
    requires k < |ranked|
    ensures ranked[k].index < |data| && ranked[k] == Scored(ranked[k].index, ScoreOf(query, data, ranked[k].index))
  {
    var items := ScoreItems(query, data);
    assert ranked[k] in multiset(items);
    var m :| 0 <= m < |items| && items[m] == ranked[k];
  }

  lemma TopTenFacts(query: seq<real>, data: seq<Pair>, ranked: seq<Scored>, top: seq<Scored>)
    requires SameDimension(query, data)
    requires multiset(ranked) == multiset(ScoreItems(query, data))
    requires StrictlyRanked(ranked)
    requires |ranked| == |data| && top == ranked[..Min(TopCount, |ranked|)]
    ensures forall k :: 0 <= k < |top| ==>
              top[k].index < |data| && top[k].score == ScoreOf(query, data, top[k].index)
    ensures forall k, l :: 0 <= k < l < |top| ==> top[k].index != top[l].index
    ensures NonIncreasing(top)
    ensures forall k, l :: 0 <= k < l < |top| && top[k].score == top[l].score ==> top[k].index < top[l].index
    ensures forall i :: 0 <= i < |data| && (forall k :: 0 <= k < |top| ==> top[k].index != i) ==>
              forall k :: 0 <= k < |top| ==> Precedes(top[k], Scored(i, ScoreOf(query, data, i)))
  {
    forall k | 0 <= k < |top|
      ensures top[k].index < |data| && top[k] == Scored(top[k].index, ScoreOf(query, data, top[k].index))
    {
      RankedEntryIsItem(query, data, ranked, k);
    }
    TopComplete(query, data, ranked, top);
  }

  /** An item missing from the prefix of a strict ranking comes after every
      entry the prefix keeps. */
  lemma TopComplete(query: seq<real>, data: seq<Pair>, ranked: seq<Scored>, top: seq<Scored>)
    requires SameDimension(query, data)
    requires multiset(ranked) == multiset(ScoreItems(query, data))
    requires StrictlyRanked(ranked)
    requires |ranked| == |data| && top == ranked[..Min(TopCount, |ranked|)]
    ensures forall i :: 0 <= i < |data| && (forall k :: 0 <= k < |top| ==> top[k].index != i) ==>
              forall k :: 0 <= k < |top| ==> Precedes(top[k], Scored(i, ScoreOf(query, data, i)))
  {
    var items := ScoreItems(query, data);
    forall i | 0 <= i < |data| && (forall k :: 0 <= k < |top| ==> top[k].index != i)
      ensures forall k :: 0 <= k < |top| ==> Precedes(top[k], Scored(i, ScoreOf(query, data, i)))
    {
      assert items[i] in multiset(ranked);
      var p :| 0 <= p < |ranked| && ranked[p] == items[i];
      assert ranked[p].index == i;
      if p < |top| {
        assert false;
      }
    }
  }

  /** Any ordering of the score items by descending score with ties in
      ascending index order is exactly the stable sort of those items. */
  lemma SortedIsRanking(items: seq<Scored>, ranking: seq<Scored>)
    requires IndicesIncreasing(items)
    requires multiset(ranking) == multiset(items)
    requires StrictlyRanked(ranking)
    ensures SortByScoreDesc(items) == ranking
  {
    RankingUnique(SortByScoreDesc(items), ranking);
  }

  /** Hence such an ordering starts with exactly the entries `TopTen` returns. */
  lemma TopTenIsRankingPrefix(query: seq<real>, data: seq<Pair>, ranking: seq<Scored>)
    requires SameDimension(query, data)
    requires multiset(ranking) == multiset(ScoreItems(query, data))
    requires StrictlyRanked(ranking)
    ensures TopTen(query, data) == ranking[..Min(TopCount, |ranking|)]
  {
    SortedIsRanking(ScoreItems(query, data), ranking);
  }
}

module SearchScenarios {
  import opened Models
  import opened Ranking
  import opened SearchProcessing

  /** Three stored vectors `[1,0]`, `[0,1]`, `[0.7071,0.7071]` searched with
      the query `[1,0]`: the first, then the third, then the second. */
  lemma ThreeVectorScenario()
    ensures TopTen([1.0, 0.0], [Pair("a", [1.0, 0.0], "x"), Pair("b", [0.0, 1.0], "y"), Pair("c", [0.7071, 0.7071], "z")])
            == [Scored(0, 1.0), Scored(2, 0.7071), Scored(1, 0.0)]
  {
    var data := [Pair("a", [1.0, 0.0], "x"), Pair("b", [0.0, 1.0], "y"), Pair("c", [0.7071, 0.7071], "z")];
    var expected := [Scored(0, 1.0), Scored(2, 0.7071), Scored(1, 0.0)];
    ThreeVectorRanking(data, expected);
    TopTenIsRankingPrefix([1.0, 0.0], data, expected);
  }

  lemma ThreeVectorRanking(data: seq<Pair>, expected: seq<Scored>)
    requires data == [Pair("a", [1.0, 0.0], "x"), Pair("b", [0.0, 1.0], "y"), Pair("c", [0.7071, 0.7071], "z")]
    requires expected == [Scored(0, 1.0), Scored(2, 0.7071), Scored(1, 0.0)]
    ensures SameDimension([1.0, 0.0], data)
    ensures multiset(expected) == multiset(ScoreItems([1.0, 0.0], data))
    ensures StrictlyRanked(expected)
  {
    ThreeVectorItems(data);
    var items := [Scored(0, 1.0), Scored(1, 0.0), Scored(2, 0.7071)];
    assert multiset(items) == multiset{Scored(0, 1.0), Scored(1, 0.0), Scored(2, 0.7071)};
    assert multiset(expected) == multiset{Scored(0, 1.0), Scored(2, 0.7071), Scored(1, 0.0)};
  }

  lemma ThreeVectorItems(data: seq<Pair>)
    requires data == [Pair("a", [1.0, 0.0], "x"), Pair("b", [0.0, 1.0], "y"), Pair("c", [0.7071, 0.7071], "z")]
    ensures SameDimension([1.0, 0.0], data)
    ensures ScoreItems([1.0, 0.0], data) == [Scored(0, 1.0), Scored(1, 0.0), Scored(2, 0.7071)]
  {
    var query := [1.0, 0.0];
    assert ScoreOf(query, data, 0) == 1.0;
    assert ScoreOf(query, data, 1) == 0.0;
    assert ScoreOf(query, data, 2) == 0.7071;
  }

  /** Three pairs with the same comment embedding score the same, and the
      result lists them in stored order. */
  lemma TiedScenario()
    ensures TopTen([1.0, 0.0], [Pair("a", [0.5, 0.5], "x"), Pair("b", [0.5, 0.5], "y"), Pair("c", [0.5, 0.5], "z")])
            == [Scored(0, 0.5), Scored(1, 0.5), Scored(2, 0.5)]
  {
    var data := [Pair("a", [0.5, 0.5], "x"), Pair("b", [0.5, 0.5], "y"), Pair("c", [0.5, 0.5], "z")];
    var expected := [Scored(0, 0.5), Scored(1, 0.5), Scored(2, 0.5)];
    TiedRanking(data, expected);
    TopTenIsRankingPrefix([1.0, 0.0], data, expected);
  }

  lemma TiedRanking(data: seq<Pair>, expected: seq<Scored>)
    requires data == [Pair("a", [0.5, 0.5], "x"), Pair("b", [0.5, 0.5], "y"), Pair("c", [0.5, 0.5], "z")]
    requires expected == [Scored(0, 0.5), Scored(1, 0.5), Scored(2, 0.5)]
    ensures SameDimension([1.0, 0.0], data)
    ensures multiset(expected) == multiset(ScoreItems([1.0, 0.0], data))
    ensures StrictlyRanked(expected)
  {
    TiedItems(data, 0);
    TiedItems(data, 1);
    TiedItems(data, 2);
    assert ScoreItems([1.0, 0.0], data) == expected;
  }

  lemma TiedItems(data: seq<Pair>, i: nat)
    requires data == [Pair("a", [0.5, 0.5], "x"), Pair("b", [0.5, 0.5], "y"), Pair("c", [0.5, 0.5], "z")]
    requires i < 3
    ensures SameDimension([1.0, 0.0], data)
    ensures ScoreOf([1.0, 0.0], data, i) == 0.5
  {
    assert data[i].commentEmbedding == [0.5, 0.5];
    assert Dot([0.5, 0.5], [1.0, 0.0]) == 0.5;
  }
}
