/** Turning raw dataset items into DataPoints: every field is read with a
    default for a missing key, `split_name` is fixed to "test", and an item
    whose construction fails is skipped while the loop goes on. */
module Records {
  import opened Wrappers
  import opened Models

  const RepositoryNameKey := "repository_name"
  const FuncPathKey := "func_path_in_repository"
  const FuncNameKey := "func_name"
  const WholeFuncKey := "whole_func_string"
  const LanguageKey := "language"
  const FuncCodeKey := "func_code_string"
  const FuncCodeTokensKey := "func_code_tokens"
  const DocKey := "func_documentation_string"
  const DocTokensKey := "func_documentation_string_tokens"
  const UrlKey := "func_code_url"
  const TestSplit := "test"

  /** A string slot accepts a missing key (default "") or a string value. */
  predicate StringSlotOk(item: Item, key: string) {
    key !in item || item[key].Str?
  }

  /** A token slot accepts a missing key (default []) or a list of strings. */
  predicate TokenSlotOk(item: Item, key: string) {
    key !in item || item[key].StrList?
  }

  /** The item can be turned into a DataPoint: no slot holds a value of the
      wrong kind. */
  predicate Constructible(item: Item) {
    && StringSlotOk(item, RepositoryNameKey)
    && StringSlotOk(item, FuncPathKey)
    && StringSlotOk(item, FuncNameKey)
    && StringSlotOk(item, WholeFuncKey)
    && StringSlotOk(item, LanguageKey)
    && StringSlotOk(item, FuncCodeKey)
    && TokenSlotOk(item, FuncCodeTokensKey)
    && StringSlotOk(item, DocKey)
    && TokenSlotOk(item, DocTokensKey)
    && StringSlotOk(item, UrlKey)
  }

  /** The field `s` holds the item's string under `key`, or "" if absent. */
  predicate CarriesString(item: Item, key: string, s: string) {
    if key in item then item[key] == Str(s) else s == ""
  }

  /** The field `ts` holds the item's token list under `key`, or [] if absent. */
  predicate CarriesTokens(item: Item, key: string, ts: seq<string>) {
    if key in item then item[key] == StrList(ts) else ts == []
  }

  /** `item.get(key, "")` checked against a string slot. */
  function StringField(item: Item, key: string): (r: Option<string>)
    ensures r.Some? <==> StringSlotOk(item, key)
    ensures r.Some? ==> CarriesString(item, key, r.value)
  {
    if key !in item then Some("")
    else match item[key]
      case Str(s) => Some(s)
      case _ => None
  }

  /** `item.get(key, [])` checked against a token-list slot. */
  function TokensField(item: Item, key: string): (r: Option<seq<string>>)
    ensures r.Some? <==> TokenSlotOk(item, key)
    ensures r.Some? ==> CarriesTokens(item, key, r.value)
  {
    if key !in item then Some([])
    else match item[key]
      case StrList(ts) => Some(ts)
      case _ => None
  }

  /** `dp` is the record built from `item` at position `idx`: its id is the
      position, its split is "test", and each field carries the item's value
      or the default when the key is absent. */
  predicate Describes(idx: nat, item: Item, dp: DataPoint) {
    && dp.id == idx
    && dp.splitName == TestSplit
    && CarriesString(item, RepositoryNameKey, dp.repositoryName)
    && CarriesString(item, FuncPathKey, dp.funcPathInRepository)
    && CarriesString(item, FuncNameKey, dp.funcName)
    && CarriesString(item, WholeFuncKey, dp.wholeFuncString)
    && CarriesString(item, LanguageKey, dp.language)
    && CarriesString(item, FuncCodeKey, dp.funcCodeString)
    && CarriesTokens(item, FuncCodeTokensKey, dp.funcCodeTokens)
    && CarriesString(item, DocKey, dp.funcDocumentationString)
    && CarriesTokens(item, DocTokensKey, dp.funcDocumentationStringTokens)
    && CarriesString(item, UrlKey, dp.funcCodeUrl)
  }

  /** The DataPoint constructor call inside the `try`: `None` when it raises. */
  function MakeDataPoint(idx: nat, item: Item): (r: Option<DataPoint>)
    ensures r.Some? <==> Constructible(item)
    ensures r.Some? ==> Describes(idx, item, r.value)
  {
    var repositoryName :- StringField(item, RepositoryNameKey);
    var funcPath :- StringField(item, FuncPathKey);
    var funcName :- StringField(item, FuncNameKey);
    var wholeFunc :- StringField(item, WholeFuncKey);
    var language :- StringField(item, LanguageKey);
    var funcCode :- StringField(item, FuncCodeKey);
    var funcCodeTokens :- TokensField(item, FuncCodeTokensKey);
    var doc :- StringField(item, DocKey);
    var docTokens :- TokensField(item, DocTokensKey);
    var url :- StringField(item, UrlKey);
    Some(DataPoint(idx, repositoryName, funcPath, funcName, wholeFunc, language, funcCode,
                   funcCodeTokens, doc, docTokens, TestSplit, url))
  }

  /** `dp` is what the loop builds from the item at position `dp.id`. */
  predicate BuiltFrom(items: seq<Item>, dp: DataPoint) {
    dp.id < |items| && MakeDataPoint(dp.id, items[dp.id]) == Some(dp)
  }

  /** Some record in `r` has id `i`. */
  predicate HasId(r: seq<DataPoint>, i: nat) {
    exists k :: 0 <= k < |r| && r[k].id == i
  }

  /** The enumerate loop: one DataPoint per constructible item, with the
      item's position as its id, in source order. */
  function Build(items: seq<Item>): (r: seq<DataPoint>)
    ensures |r| <= |items|
    ensures forall k :: 0 <= k < |r| ==> BuiltFrom(items, r[k])
    ensures forall k, l :: 0 <= k < l < |r| ==> r[k].id < r[l].id
    ensures forall i :: 0 <= i < |items| && Constructible(items[i]) ==> HasId(r, i)
  {
    BuildFromFacts(items, 0);
    BuildFrom(items, 0)
  }

  /** The loop from position `start` on. */
  function BuildFrom(items: seq<Item>, start: nat): seq<DataPoint>
    requires start <= |items|
    decreases |items| - start
  {
    if start == |items| then []
    else
      var head := MakeDataPoint(start, items[start]);
      (if head.Some? then [head.value] else []) + BuildFrom(items, start + 1)
  }

  /** The loop from `start` on emits records with ids at or after `start`, in
      increasing order, each built from the item at its id, and one for every
      constructible item from there on. */
  lemma {:induction false} BuildFromFacts(items: seq<Item>, start: nat)
    requires start <= |items|
    ensures var r := BuildFrom(items, start);
      && |r| <= |items| - start
      && (forall k :: 0 <= k < |r| ==> start <= r[k].id && BuiltFrom(items, r[k]))
      && (forall k, l :: 0 <= k < l < |r| ==> r[k].id < r[l].id)
      && (forall i :: start <= i < |items| && Constructible(items[i]) ==> HasId(r, i))
    decreases |items| - start
  {
    if start < |items| {
      BuildFromFacts(items, start + 1);
      BuildFromStepSound(items, start, BuildFrom(items, start + 1), BuildFrom(items, start));
      BuildFromStepComplete(items, start, BuildFrom(items, start + 1), BuildFrom(items, start));
    }
  }

  /** Records of one loop step: the head item's record (if any) in front of
      the records of the rest. */
  lemma BuildFromStepSound(items: seq<Item>, start: nat, rest: seq<DataPoint>, r: seq<DataPoint>)
    requires start < |items|
    requires |rest| <= |items| - (start + 1)
    requires forall k :: 0 <= k < |rest| ==> start + 1 <= rest[k].id && BuiltFrom(items, rest[k])
    requires forall k, l :: 0 <= k < l < |rest| ==> rest[k].id < rest[l].id
    requires var head := MakeDataPoint(start, items[start]);
             r == (if head.Some? then [head.value] else []) + rest
    ensures |r| <= |items| - start
    ensures forall k :: 0 <= k < |r| ==> start <= r[k].id && BuiltFrom(items, r[k])
    ensures forall k, l :: 0 <= k < l < |r| ==> r[k].id < r[l].id
  {
    var head := MakeDataPoint(start, items[start]);
    if head.Some? {
      assert forall k :: 1 <= k < |r| ==> r[k] == rest[k - 1];
      assert Describes(start, items[start], head.value);
      assert BuiltFrom(items, r[0]);
    }
  }

  lemma BuildFromStepComplete(items: seq<Item>, start: nat, rest: seq<DataPoint>, r: seq<DataPoint>)
    requires start < |items|
    requires forall i :: start + 1 <= i < |items| && Constructible(items[i]) ==> HasId(rest, i)
    requires var head := MakeDataPoint(start, items[start]);
             r == (if head.Some? then [head.value] else []) + rest
    ensures forall i :: start <= i < |items| && Constructible(items[i]) ==> HasId(r, i)
  {
    var head := MakeDataPoint(start, items[start]);
    var shift := if head.Some? then 1 else 0;
    forall i | start <= i < |items| && Constructible(items[i])
      ensures HasId(r, i)
    {
      if i == start {
        assert r[0].id == start;
      } else {
        var k :| 0 <= k < |rest| && rest[k].id == i;
        assert r[k + shift] == rest[k];
      }
    }
  }
}

module RecordsSlicing {
  import opened Models
  import opened Records

  /** Building from a prefix of the items and then from the rest gives the
      same records as building from all items at once. */
  lemma {:induction false} BuildFromSplit(items: seq<Item>, start: nat, m: nat)
    requires start <= m <= |items|
    ensures BuildFrom(items, start) == BuildFrom(items[..m], start) + BuildFrom(items, m)
    decreases m - start
  {
    if start < m {
      assert items[..m][start] == items[start];
      BuildFromSplit(items, start + 1, m);
    }
  }
}
