# Code-search index and top-ten search, modelled in Dafny

This project models the pure logic of a small semantic code-search prototype
over the CodeSearchNet (Python, test split) corpus:

- **Corpus record construction** (`create_code_search_net_dataset`, in two
  revisions): every raw dataset item becomes a `DataPoint` whose `id` is the
  item's position; missing fields default to `""` or `[]`; `split_name` is
  always `"test"`; an item whose construction raises is skipped. One revision
  first selects the first `slice_size` items (default 20).
- **Index-file assembly** (`process_data_point`, `process_data`, in two
  revisions): the documentation-side revision stores the whole function,
  embeds its documentation string, keeps input order and writes the dumps as a
  hand-framed JSON array; the code-side revision embeds the whole function,
  drops failed embeddings, keeps completion order and writes the dumps back to
  back.
- **Search** (`get_processed_data`, `get_top_ten`): a missing or undecodable
  index file gives an empty list; every stored pair is scored by the dot
  product of its comment embedding with the query vector; the scores are
  sorted descending with a stable sort and the first ten are kept. The web
  route's projection of each returned index to its code string is applied
  to this search result (the route itself imports its search functions from
  the draft `search.py`; see "Left out").

The encoder, `json.dump` and the dataset loader are parameters of the model:
`embed: string -> seq<real>` (or `string -> Option<seq<real>>` where the
code-side revision may fail), `dump: Pair -> string`, and raw items given as
`map<string, Value>`. Scores and vectors are `real`.

Modules: `Wrappers` (Option, Result), `Models` (DataPoint, Value, Item, Pair,
CodePair), `Multisets` (removing one element from a multiset of a sequence), `Ranking` (stable descending sort and the ranking order), `Text`
(join and concatenation), `Records` and `RecordsSlicing` (per-item
construction and the enumerate-and-skip loop, shared by both revisions),
`SearchProcessing` and `SearchScenarios`, `DataProcessing`,
`UnixcoderUsecase`, `App`.

The ranking order is `Precedes(a, b)`: higher score first, and on equal
scores the lower index first. Python's `sorted(..., reverse=True)` is stable,
and the score dictionary lists its items in index order, so the sorted list
is strictly ordered by `Precedes`; `Ranking.RankingUnique` shows that this
order determines the list completely.

## Model

| member | source | states |
|---|---|---|
| SearchProcessing.GetProcessedData | CodeSearch/search_processing.py:14-31 | a missing or undecodable file yields the empty list, never an error; a decoded file yields one validated pair per item, in order, exactly when every item validates |
| SearchProcessing.ValidateAll | CodeSearch/search_processing.py:21-25 | all items validate iff the result is the list of pairs (same length, item i gives pair i); otherwise the error comes from the first item that fails validation, all earlier ones having validated |
| SearchProcessing.TopTen | CodeSearch/search_processing.py:44-51 | the result has min(10, n) entries; each has an index below n and its score is exactly the dot product of that pair's comment embedding with the query; no index repeats; scores never increase; equal scores appear in ascending index order; every returned entry precedes (higher score, or equal score and lower index) every pair that was left out |
| SearchProcessing.SortedIsRanking | CodeSearch/search_processing.py:51 | for entries listed in ascending index order, any rearrangement of them by descending score with ties broken by ascending index is exactly what the stable sort returns |
| SearchProcessing.TopTenIsRankingPrefix | CodeSearch/search_processing.py:51 | for any ordering of the (index, score) items by descending score with ties broken by ascending index, the top ten are exactly its first min(10, n) entries |
| SearchScenarios.ThreeVectorScenario | CodeSearch/search_processing.py:44-51 | stored vectors [1,0], [0,1], [0.7071,0.7071] and query [1,0] give index 0 (score 1), then 2 (score 0.7071), then 1 (score 0) |
| SearchScenarios.TiedScenario | CodeSearch/search_processing.py:51 | three pairs with equal scores come back in stored order 0, 1, 2 |
| Ranking.SortByScoreDesc | CodeSearch/search_processing.py:51 | the sort returns a permutation of its input with non-increasing scores, and for input in index order it is strictly ranked (equal scores keep their input order) |
| Ranking.InsertKeepsOrder | CodeSearch/search_processing.py:51 | inserting an entry into a list with non-increasing scores keeps the scores non-increasing |
| Ranking.InsertKeepsRanking | CodeSearch/search_processing.py:51 | inserting an entry whose index is below every index of a strictly ranked list keeps it strictly ranked, so the earlier entry stays ahead of later ones of equal score, as a stable sort does |
| Ranking.RankingUnique | CodeSearch/search_processing.py:51 | two strictly ranked permutations of the same entries are equal |
| App.TopTenSnippets | CodeSearch/app.py:16 | the projection of the search result onto code strings is always in range: it has min(10, n) entries, each the code string of a stored pair |
| Records.MakeDataPoint | CodeSearch/data_processing.py:45-60 | construction succeeds iff no present field holds a value of the wrong kind; the record's id is the position, its split is "test", and each field holds the item's value or "" / [] when the key is absent |
| Records.Build | CodeSearch/data_processing.py:41-63 | at most one record per item; each record is the one built from the item at position id; ids strictly increase; every constructible item yields a record (a failing item is skipped, the loop continues) |
| Records.BuildFromFacts | CodeSearch/data_processing.py:41-63 | the loop from a start position emits records with ids at or after the start, in increasing order, one for every constructible item from there on |
| RecordsSlicing.BuildFromSplit | CodeSearch/data_processing.py:38-41 | building from a prefix of the items and then from the rest gives the records of the whole split |
| DataProcessing.Select | CodeSearch/data_processing.py:38 | selecting `range(slice_size)` fails iff the split is non-empty and slice_size exceeds it; otherwise the result is a prefix of the split, of slice_size items (none for slice_size <= 0) unless the split is empty, which comes back unchanged |
| DataProcessing.CreateCodeSearchNetDataset | CodeSearch/data_processing.py:33-65 | the selection fails iff the split is non-empty and slice_size exceeds it; otherwise there are at most slice_size records, each with id below slice_size and equal to its source position, ids strictly increase, every constructible item below slice_size yields one, and the result is a prefix of the unsliced records |
| DataProcessing.CreateDefaultDataset | CodeSearch/data_processing.py:33 | with the default slice_size of 20: fails iff the split is non-empty and shorter than 20; otherwise at most 20 records, each built from its own position below 20, and one for every constructible item among the first 20 |
| DataProcessing.GenerateEmbedding | CodeSearch/data_processing.py:19-30 | the pair stores the second argument as code string and the first as comment string, and carries the embedding of the first |
| DataProcessing.ProcessDataPoint | CodeSearch/data_processing.py:68-72 | the pair stores the whole function as code string, records the documentation string, and carries the embedding of that documentation string |
| DataProcessing.WriteJsonArray | CodeSearch/data_processing.py:89-96 | no pairs give "[\n\n]"; otherwise the file is "[\n", the dumps joined by ",\n" in order, then "\n\n]", so there is no trailing comma |
| DataProcessing.ProcessData | CodeSearch/data_processing.py:75-96 | one pair per data point, in data-point order, each storing the whole function and embedding its documentation string; the file frames the pairs' dumps as above |
| Text.JoinLength | CodeSearch/data_processing.py:91-95 | a join of n items adds exactly n - 1 separators to the items' text |
| UnixcoderUsecase.CreateCodeSearchNetDataset | CodeSearch/usecases/unixcoder.py:37-66 | over the whole split: each record is built from the item at its id, ids strictly increase (source order is kept), and an item yields a record iff it is constructible |
| UnixcoderUsecase.GenerateEmbeddings | CodeSearch/usecases/unixcoder.py:26-34 | a pair exists iff embedding the snippet succeeds; it stores the snippet as code string with the snippet's embedding as vector |
| UnixcoderUsecase.ProcessDataPoint | CodeSearch/usecases/unixcoder.py:70-71 | the result exists iff embedding the whole function succeeds, and its code string is the whole function with that embedding |
| UnixcoderUsecase.SucceededSource | CodeSearch/usecases/unixcoder.py:89-95 | every kept result is the successful result of some data point |
| UnixcoderUsecase.SucceededPermutation | CodeSearch/usecases/unixcoder.py:84-95 | processing the data points in another order keeps the same results as a multiset |
| UnixcoderUsecase.CollectResults | CodeSearch/usecases/unixcoder.py:89-95 | collecting the futures in completion order keeps, in that order, the result of each one that succeeded and nothing for one that raised |
| UnixcoderUsecase.WriteDumps | CodeSearch/usecases/unixcoder.py:100-103 | the file is the dumps concatenated in pairs order, with no separators or brackets |
| UnixcoderUsecase.ProcessData | CodeSearch/usecases/unixcoder.py:74-103 | whatever order the futures complete in, the kept pairs are a permutation of the successful results in input order (one per succeeded data point, failures dropped); each comes from a data point whose whole function it stores with its embedding; the file is their dumps concatenated |
| Text.ConcatLength | CodeSearch/usecases/unixcoder.py:101-102 | the concatenated file is exactly as long as the dumps together |
| Text.ConcatPrefix | CodeSearch/usecases/unixcoder.py:101-102 | the first k dumps make up a prefix of the file and the rest follow, so dumps appear in pairs order |

## Left out

- The UniXcoder encoder (tokenising, the forward pass), torch tensors and device selection: embedding is the parameter `embed`; `process_user_code_segment` is therefore not modelled.
- L2 normalisation and float32 rounding: vectors and scores are reals; nothing is claimed about unit length or NaN.
- The dataset loader, file opening and writing, and `json.load`/`json.dump`: the loaded file is a `DataFile` (not found, undecodable, or a sequence of decoded items); "undecodable" means `json.JSONDecodeError` only, and the other errors of opening or reading the file that `get_processed_data` does not catch (for example `PermissionError`, or `UnicodeDecodeError` raised while `json.load` reads) are not modelled and a dump is the parameter `dump`. The swallowed write errors (data_processing.py:97-98, usecases/unixcoder.py:104-105) are not modelled.
- SearchProcessing.GetProcessedData: assumes a decoded file is a sequence of items; iterating a decoded JSON object or scalar is not modelled.
- SearchProcessing.TopTen: requires every stored comment embedding to have the query's length; `np.dot` raises otherwise and the source does not catch it.
- DataProcessing.ProcessData: `embed` is total, so an exception raised by a worker of the order-preserving map (which would abort `process_data`) is not modelled.
- DataProcessing.CreateCodeSearchNetDataset: `select(range(k))` is modelled as the first k items, no items for k <= 0, the split itself when it is empty, and an uncaught index error when k exceeds a non-empty split; the library's `select` is not part of this model, so this behaviour is taken from its documented semantics.
- Pydantic validation is reduced to "a present field of the wrong kind makes construction fail" (a string slot needs a string, a token slot a list of strings); type coercions are not modelled.
- The declared `Pair`/`Embedding` shapes (models/unix_coder.py:10-16) do not match how either revision builds a pair; the model follows the fields the code passes (code string, flat comment embedding, comment string; and code string plus vector in the code-side revision). With the declared class, the code-side construction would raise for every data point; that is the instance of `embed` that always fails.
- Thread and process pools, `as_completed`, tqdm progress bars and printed diagnostics: the pools are a sequential map, and completion order is the parameter `completed`, any rearrangement of the data points.
- App.TopTenSnippets: app.py imports `get_processed_data`, `get_top_ten` and `rank_snippets` from the draft `search.py`, whose `get_top_ten` takes one argument, whose `get_processed_data` returns nothing and which defines no `rank_snippets`, so the route as written fails at import or at app.py:15; the model applies the app.py:16 projection to the result of search_processing.py's `get_top_ten` instead.
- The LLM re-ranker `rank_snippets`, the Flask route beyond its index projection, `search.py` (an unfinished draft), `create_data.py`, and the top-level encoder wrapper.
