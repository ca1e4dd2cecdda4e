/** Reference definitions of the two index-file layouts: separator-joined
    text and plain concatenation. */
module Text {

  /** The items in order with `sep` between consecutive items. */
  function Join(items: seq<string>, sep: string): string {
    if |items| == 0 then ""
    else if |items| == 1 then items[0]
    else items[0] + sep + Join(items[1..], sep)
  }

  /** The items in order with nothing between them. */
  function Concat(items: seq<string>): string {
    if |items| == 0 then "" else items[0] + Concat(items[1..])
  }

  function TotalLength(items: seq<string>): nat {
    if |items| == 0 then 0 else |items[0]| + TotalLength(items[1..])
  }

  /** Appending one more item adds one separator and the item at the end. */
  lemma {:induction false} JoinSnoc(items: seq<string>, x: string, sep: string)
    requires |items| > 0
    ensures Join(items + [x], sep) == Join(items, sep) + sep + x
  {
    if |items| == 1 {
      assert items + [x] == [items[0], x];
    } else {
      assert (items + [x])[1..] == items[1..] + [x];
      JoinSnoc(items[1..], x, sep);
    }
  }

  lemma {:induction false} ConcatSnoc(items: seq<string>, x: string)
    ensures Concat(items + [x]) == Concat(items) + x
  {
    if |items| == 0 {
      assert items + [x] == [x];
    } else {
      assert (items + [x])[1..] == items[1..] + [x];
      ConcatSnoc(items[1..], x);
    }
  }

  /** A join of n items holds exactly n - 1 separators besides the items. */
  lemma {:induction false} JoinLength(items: seq<string>, sep: string)
    requires |items| > 0
    ensures |Join(items, sep)| == TotalLength(items) + (|items| - 1) * |sep|
  {
    if |items| > 1 {
      JoinLength(items[1..], sep);
    }
  }

  /** Concatenation adds nothing between the items. */
  lemma {:induction false} ConcatLength(items: seq<string>)
    ensures |Concat(items)| == TotalLength(items)
  {
    if |items| > 0 {
      ConcatLength(items[1..]);
    }
  }

  /** The prefix of the concatenation that covers the first k items is the
      concatenation of those items, so each item sits where its
      predecessors' lengths place it. */
  lemma {:induction false} ConcatPrefix(items: seq<string>, k: nat)
    requires k <= |items|
    ensures Concat(items) == Concat(items[..k]) + Concat(items[k..])
  {
    if k > 0 {
      assert items[..k][1..] == items[1..][..k - 1];
      assert items[k..] == items[1..][k - 1..];
      ConcatPrefix(items[1..], k - 1);
    } else {
      assert items[..0] == [];
      assert items[0..] == items;
    }
  }
}
