/** Scored entries and the stable descending sort the search uses:
    Python's `sorted(items, key=score, reverse=True)`, which orders by score
    from high to low and keeps equal-score entries in their input order. */
module Ranking {
  import opened Multisets

  /** An `(index, score)` item of the score dictionary. */
  datatype Scored = Scored(index: nat, score: real)

  /** The ranking order: higher score first, then lower index first. */
  predicate Precedes(a: Scored, b: Scored) {
    a.score > b.score || (a.score == b.score && a.index < b.index)
  }

  predicate NonIncreasing(s: seq<Scored>) {
    forall i, j :: 0 <= i < j < |s| ==> s[i].score >= s[j].score
  }

  /** Every entry precedes every later one: sorted by score and, among equal
      scores, by ascending index. */
  predicate StrictlyRanked(s: seq<Scored>) {
    forall i, j :: 0 <= i < j < |s| ==> Precedes(s[i], s[j])
  }

  predicate IndicesIncreasing(s: seq<Scored>) {
    forall i, j :: 0 <= i < j < |s| ==> s[i].index < s[j].index
  }

  /** Inserts `x` in front of the first entry whose score does not exceed
      its own, so `x` lands before every entry of equal score. */
  function InsertByScore(x: Scored, s: seq<Scored>): (r: seq<Scored>)
    ensures |r| == |s| + 1
    ensures multiset(r) == multiset(s) + multiset{x}
  {
    if |s| == 0 || s[0].score <= x.score then [x] + s
    else
      assert s == [s[0]] + s[1..];
      [s[0]] + InsertByScore(x, s[1..])
  }

  /** Every entry of the insertion result is `x` or an entry of `s`. */
  lemma InsertedFrom(x: Scored, s: seq<Scored>, j: nat)
    requires j < |InsertByScore(x, s)|
    ensures InsertByScore(x, s)[j] == x || exists m :: 0 <= m < |s| && s[m] == InsertByScore(x, s)[j]
  {
    var r := InsertByScore(x, s);
    assert r[j] in multiset(r);
    if r[j] != x {
      assert r[j] in multiset(s);
    }
  }

  /** Inserting into a score-sorted list keeps it score-sorted. */
  lemma {:induction false} InsertKeepsOrder(x: Scored, s: seq<Scored>)
    requires NonIncreasing(s)
    ensures NonIncreasing(InsertByScore(x, s))
  {
    if |s| > 0 && s[0].score > x.score {
      var tail := s[1..];
      var rest := InsertByScore(x, tail);
      InsertKeepsOrder(x, tail);
      forall j | 0 <= j < |rest| ensures rest[j].score <= s[0].score {
        InsertedFrom(x, tail, j);
      }
    }
  }

  /** Inserting an entry whose index is below all others into a strictly
      ranked list keeps it strictly ranked: the entry lands before every
      entry of equal score. */
  lemma {:induction false} InsertKeepsRanking(x: Scored, s: seq<Scored>)
    requires StrictlyRanked(s)
    requires forall k :: 0 <= k < |s| ==> x.index < s[k].index
    ensures StrictlyRanked(InsertByScore(x, s))
  {
    if |s| > 0 && s[0].score > x.score {
      var tail := s[1..];
      var rest := InsertByScore(x, tail);
      InsertKeepsRanking(x, tail);
      forall j | 0 <= j < |rest| ensures Precedes(s[0], rest[j]) {
        InsertedFrom(x, tail, j);
      }
    }
  }

  /** Stable descending sort by score: Python's `sorted(..., reverse=True)`. */
  function SortByScoreDesc(s: seq<Scored>): (r: seq<Scored>)
    ensures |r| == |s|
    ensures multiset(r) == multiset(s)
    ensures NonIncreasing(r)
    ensures IndicesIncreasing(s) ==> StrictlyRanked(r)
  {
    if |s| == 0 then []
    else
      var t := SortByScoreDesc(s[1..]);
      SortStep(s, t);
      InsertByScore(s[0], t)
  }

  /** One insertion-sort step: inserting the head into a sorted permutation
      of the tail gives a sorted permutation of the whole input. */
  lemma SortStep(s: seq<Scored>, t: seq<Scored>)
    requires |s| > 0 && multiset(t) == multiset(s[1..])
    requires NonIncreasing(t)
    requires IndicesIncreasing(s[1..]) ==> StrictlyRanked(t)
    ensures multiset(InsertByScore(s[0], t)) == multiset(s)
    ensures NonIncreasing(InsertByScore(s[0], t))
    ensures IndicesIncreasing(s) ==> StrictlyRanked(InsertByScore(s[0], t))
  {
    InsertKeepsOrder(s[0], t);
    HeadIndexBelowSortedTail(s, t);
    if IndicesIncreasing(s) {
      assert IndicesIncreasing(s[1..]);
      InsertKeepsRanking(s[0], t);
    }
    assert s == [s[0]] + s[1..];
    assert multiset(s) == multiset{s[0]} + multiset(s[1..]);
  }

  /** In an index-increasing input, the head's index is below that of every
      entry of any permutation of the tail. */
  lemma HeadIndexBelowSortedTail(s: seq<Scored>, t: seq<Scored>)
    requires |s| > 0 && multiset(t) == multiset(s[1..])
    ensures IndicesIncreasing(s) ==> forall k :: 0 <= k < |t| ==> s[0].index < t[k].index
  {
    if IndicesIncreasing(s) {
      forall k | 0 <= k < |t| ensures s[0].index < t[k].index {
        assert t[k] in multiset(s[1..]);
        var m :| 0 <= m < |s[1..]| && s[1..][m] == t[k];
        assert s[m + 1] == t[k];
      }
    }
  }

  /** Two strictly ranked permutations of the same entries start with the
      same entry. */
  lemma RankedHeadsAgree(a: seq<Scored>, b: seq<Scored>)
    requires multiset(a) == multiset(b) && |a| > 0
    requires StrictlyRanked(a) && StrictlyRanked(b)
    ensures |b| > 0 && a[0] == b[0]
  {
    assert a[0] in multiset(b);
    var j :| 0 <= j < |b| && b[j] == a[0];
    assert b[0] in multiset(a);
    var i :| 0 <= i < |a| && a[i] == b[0];
    if j > 0 {
      assert false;
    }
  }

  lemma RankedTail(s: seq<Scored>)
    requires StrictlyRanked(s) && |s| > 0
    ensures StrictlyRanked(s[1..])
  {
    forall i, j | 0 <= i < j < |s| - 1 ensures Precedes(s[1..][i], s[1..][j]) {
      assert s[1..][i] == s[i + 1] && s[1..][j] == s[j + 1];
    }
  }

  /** Ranking is unique: two strictly ranked permutations of the same entries
      are equal, so any correct ordering gives the same list. */
  lemma {:induction false} RankingUnique(a: seq<Scored>, b: seq<Scored>)
    requires multiset(a) == multiset(b)
    requires StrictlyRanked(a) && StrictlyRanked(b)
    ensures a == b
    decreases |a|
  {
    if |a| == 0 {
      assert |multiset(b)| == 0;
    } else {
      RankedHeadsAgree(a, b);
      RemoveMatching(a, b, 0);
      assert b[..0] + b[1..] == b[1..];
      RankedTail(a);
      RankedTail(b);
      RankingUnique(a[1..], b[1..]);
      assert a == [a[0]] + a[1..];
      assert b == [b[0]] + b[1..];
    }
  }
}
