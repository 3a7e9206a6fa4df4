# nested-fuzzy-search, modelled in Dafny

This is a model of the matcher at the core of `nested-fuzzy-search`. The
matcher flattens a nested JSON-like value into `(path, string)` leaves,
scores each leaf against a query with a normalised Levenshtein similarity,
keeps the leaves that pass, and ranks them by descending score. There are
three entry points:

- a flat object search, giving one ranked batch;
- an array search, giving one ranked group per root element;
- the generator twins of both, plus the stand-alone `search` of `src/index.js`.

Modules, in dependency order:

| file | module | models |
|---|---|---|
| `metric.dfy` | `Metric` | `calculateLevenshtein` (the dynamic-programming table as a method over a 2-D array, proved equal to the recursive edit distance), `similarityScore`, and scores as exact reals with a `NaN` case |
| `tree.dfy` | `Tree` | the searched `Value`s; segment paths, their resolution back into a value, and their rendering to the `[i]` / `.key` strings the source builds |
| `flatten.dfy` | `Flatten` | `extractText` with `excludeKeys`: soundness, completeness and depth-first order of its output |
| `selection.dfy` | `Selection` | scoring, the threshold and equality filters, and the stable descending sort |
| `search.dfy` | `Search` | `searchInObject` and `searchInArray` |
| `streams.dfy` | `Streams` | `extractTextStream`, `searchInArrayStream` and `searchInObjectStream`, each modelled as the sequence it yields |
| `index_search.dfy` | `IndexSearch` | the stand-alone `search(data, query, threshold = 0.6)` of `src/index.js` |
| `scenarios.dfy` | `Scenarios` | the concrete expectations of `test/search.test.js`, and a worked example of each mode |

Modelling choices:

- **Scores.** A score is `Num(r)` for an exact real `r`, or `NaN`. `NaN` is
  what `0 / 0` gives when both strings are empty. `score >= threshold` is
  false for `NaN`.
- **Sort comparator.** The comparator `b.score - a.score` yields `NaN` when a
  score is `NaN`. Section 23.1.3.30 of ECMA-262 treats a `NaN` comparator
  result as `+0`, so a `NaN` score ties with everything. A comparator that
  ties `NaN` with every number is not consistent, and for such a comparator
  ECMA-262 leaves the order implementation-defined. That case never reaches
  the sort, though. The fuzzy filter drops every `NaN` score
  (`Selection.KeepAtLeastMembers`). In exact mode every kept entry has the
  same value, so every kept score is the same (`Search.ObjectExactOrder`).
- **Stable sort.** `Array.prototype.sort` is stable. It is modelled as an
  insertion sort in which earlier entries win ties.
- **Objects.** An object is the sequence of its own entries, in the order
  `Object.entries` reports them (OrdinaryOwnPropertyKeys, section 10.1.11.1
  of ECMA-262). `WellFormed` demands distinct keys.
- **Non-string leaves.** Numbers, booleans, `null` and `undefined` are all
  `Other`, and none of them is ever matched.
- **Paths.** A path is a sequence of `Idx(i)` / `Key(k)` segments. `Render`
  turns it into the string the source builds.
- **The source's `typeof` guard.** `similarityScore` in `src/utils/index.js`
  returns `0` for a non-string argument. Here both arguments are strings, so
  the guard never fires and is not modelled.
- **The two copies of the metric.** `src/index.js` carries its own copies of
  `calculateLevenshtein` and `similarityScore`. Their text is the same as the
  ones in `src/utils/index.js` apart from that guard, so one `Metric` module
  models both.

Where the code departs from its own evident intent or from its tests, the
model follows the code:

- **Streaming object search.** `searchInObjectStream` yields the kept entries
  unsorted, in traversal order (src/utils/index.js:163-174). Its two siblings
  both sort what they keep: `searchInObject` at src/utils/index.js:97-99, and
  its array twin `searchInArrayStream` for each batch at
  src/utils/index.js:139-147. `Streams.SearchInObjectStream` models what the
  code does. The Findings section records the difference.
- **The test's options object.** The tests call `search` with an options
  object `{ threshold, outputMode }`. `search` in `src/index.js` takes a
  numeric threshold, and no routing code exists in the source. As written,
  that object becomes the threshold. At src/index.js:53, `score >= {…}`
  turns the object into NaN and compares false, so both calls in
  test/search.test.js:47-50 and :64-66 return `[]`. The tests'
  `results.length > 0` expectations therefore do not hold for `search`. For
  this reason the test expectations are stated against `SearchInArray` and
  `SearchInObject` directly.

## Model

| member | source | states |
|---|---|---|
| Metric.Levenshtein | src/utils/index.js:2-21 | the table's bottom-right cell is the recursive edit distance of the two strings |
| Metric.FillRow | src/utils/index.js:9-18 | after one row is filled, every cell `(i, j)` of it holds the edit distance of the prefixes `a[..i]` and `b[..j]`, and the other rows are unchanged |
| Metric.DistanceStep | src/utils/index.js:11-16 | on the prefixes the table indexes, a cell is the minimum of deletion, insertion and substitution-or-match from its three neighbours |
| Metric.CellStep | src/utils/index.js:11-16 | the value the loop stores from its up, left and diagonal neighbours is the distance of the two prefixes |
| Metric.DistanceBounds | src/utils/index.js:2-21 | the distance from or to the empty string is the other length (the table's first row and column); otherwise it is at most the longer length and at least the difference of the lengths |
| Metric.DistanceZeroIff | src/utils/index.js:2-21 | the distance is zero exactly when the strings are equal |
| Metric.DistanceSymmetric | src/utils/index.js:2-21 | the distance is the same in both directions |
| Metric.PrefixDeletion | src/utils/index.js:2-21 | prepending a string `x` to `y` costs at most as many edits as `x` has characters |
| Metric.Similarity | src/utils/index.js:23-30 | the score is NaN exactly when both strings are empty; otherwise it lies in [0, 1] and equals 1 exactly when the strings are equal |
| Metric.SimilarityScore | src/utils/index.js:28-29 | running the table and dividing by the longer length gives `Similarity` |
| Metric.SimilaritySymmetric | src/utils/index.js:23-30 | scoring `a` against `b` gives the same as `b` against `a` |
| Metric.SimilarityDistance | src/utils/index.js:29 | a score of at least `t` bounds the distance, as a fraction of the longer length, by `1 - t` |
| Metric.DistanceUnmatched | src/utils/index.js:2-21 | the edit distance is at least the number of characters of `a` that occur nowhere in `b`, since each needs a deletion or a substitution |
| Metric.DeletionCase | src/utils/index.js:13 | the deletion neighbour plus one covers every unmatched character of `a` |
| Metric.InsertionCase | src/utils/index.js:14 | the insertion neighbour plus one covers every unmatched character of `a` |
| Metric.SubstitutionCase | src/utils/index.js:11-15 | the diagonal neighbour plus the cost covers every unmatched character of `a`, since a last character missing from `b` differs from its last character |
| Metric.BelowThreshold | src/utils/index.js:29 | when more than seven tenths of the longer length is unmatched, the score is below 0.3 |
| Tree.KeyIndex | src/utils/index.js:39 | the index found is the first entry carrying the key, or the end when no entry carries it |
| Tree.RenderAppend | src/utils/index.js:36-41 | rendering a path extended by segments appends their rendering, as the source builds the string one level at a time |
| Flatten.ExtractSound | src/utils/index.js:32-48 | every emitted entry's path extends the starting path, resolves back to a string leaf with the emitted value, and never passes an excluded key |
| Flatten.ItemsSound | src/utils/index.js:34-37 | the same for the entries emitted by the array loop from position `i` on |
| Flatten.FieldsSound | src/utils/index.js:38-43 | the same for the entries emitted by the object-entry loop from position `i` on |
| Flatten.StepDown | src/utils/index.js:36-41 | a leaf reached from a non-excluded child under the extended path is a leaf reached from the parent |
| Flatten.ExtractComplete | src/utils/index.js:32-48 | every string leaf whose segment path avoids the excluded keys is emitted, with its full path |
| Flatten.ItemsInclude | src/utils/index.js:34-37 | the leaves of every array element from position `i` on appear in the array loop's output |
| Flatten.FieldsInclude | src/utils/index.js:39-43 | the leaves of every non-excluded entry from position `i` on appear in the entry loop's output |
| Flatten.ItemsFirstSegment | src/utils/index.js:34-37 | every entry of the array loop from `k` on leaves through an index of the array that is at least `k` |
| Flatten.FieldsFirstSegment | src/utils/index.js:39-43 | every entry of the entry loop from `k` on leaves through a key of the object whose entry position is at least `k` |
| Flatten.WithinChild | src/utils/index.js:36-41 | depth-first order inside one child is depth-first order in the parent |
| Flatten.EarlierChild | src/utils/index.js:35-39 | a path that leaves through an earlier child comes first in depth-first order |
| Flatten.FieldsCross | src/utils/index.js:39-43 | every leaf of entry `k` precedes every leaf of the later entries |
| Flatten.ExtractOrdered | src/utils/index.js:32-48 | the output is in depth-first document order: arrays by index, objects by entry order |
| Flatten.ItemsOrdered | src/utils/index.js:34-37 | the array loop's output is in depth-first order |
| Flatten.FieldsOrdered | src/utils/index.js:39-43 | the entry loop's output is in depth-first order |
| Selection.ScoreAll | src/utils/index.js:86-89 | each flattened entry is scored, in order, keeping its path and value |
| Selection.KeepAtLeastMembers | src/utils/index.js:98 | the threshold filter keeps exactly the entries scoring at least the threshold, never a NaN score, each as often as it occurs |
| Selection.KeepEqualMembers | src/utils/index.js:93 | the equality filter keeps exactly the entries whose value is the query, each as often as it occurs |
| Selection.InsertDesc | src/utils/index.js:99 | one insertion step of the sort adds exactly the inserted entry |
| Selection.SortDesc | src/utils/index.js:99 | the sort is a permutation of its input |
| Selection.InsertDescSorted | src/utils/index.js:99 | inserting a numeric score into a non-increasing sequence keeps it non-increasing |
| Selection.SortDescSorted | src/utils/index.js:99 | with numeric scores, the sorted output never increases in score |
| Selection.InsertDescTies | src/utils/index.js:99 | insertion puts the new entry ahead of every entry with its score |
| Selection.SortDescStable | src/utils/index.js:99 | the sort is stable: entries sharing any one score keep their input order |
| Selection.SortDescAllTied | src/utils/index.js:94 | when every score is the same, the sort leaves the sequence unchanged |
| Selection.InsertDescKeep | src/utils/index.js:97-99 | filtering by threshold commutes with one insertion into a sorted sequence |
| Selection.SortDescKeep | src/utils/index.js:97-99 | filtering by threshold after the sort equals sorting after the filter |
| Selection.KeepAtLeastTwice | src/utils/index.js:98 | filtering at `t1` and then at `t2 >= t1` is filtering at `t2` |
| Selection.KeepAtLeastAppend | src/utils/index.js:98 | the threshold filter distributes over concatenation |
| Selection.KeepEqualAppend | src/utils/index.js:93 | the equality filter distributes over concatenation |
| Search.DropNullsDrawn | src/utils/index.js:78 | every group left after dropping nulls sits at the position its index names |
| Search.DropNullsIncreasing | src/utils/index.js:78 | dropping nulls keeps group indices strictly increasing |
| Search.DropNullsKeeps | src/utils/index.js:78 | dropping nulls keeps every group |
| Search.DropNullsAppend | src/utils/index.js:78 | dropping nulls distributes over concatenation |
| Search.ArrayGroups | src/utils/index.js:51-79 | groups come in strictly increasing index order, each holds the unmodified root element and its non-empty ranked matches, and every element with a match has its group |
| Search.ArrayExactOrder | src/utils/index.js:62-69 | in exact mode each group's matches are its element's leaves equal to the query, scored, in traversal order: the sort changes nothing |
| Search.ArrayFuzzyRanked | src/utils/index.js:72-76 | in fuzzy mode each group's matches never increase in score, and matches with equal scores stay in traversal order |
| Search.KeepAppend | src/utils/index.js:62-74 | either filter distributes over concatenation |
| Search.ScoredLeaf | src/utils/index.js:86-89 | a match is among the scored entries exactly when its path and value are an entry and its score is the value's similarity to the query |
| Search.ObjectFuzzyKeeps | src/utils/index.js:97-99 | in fuzzy mode a match is returned exactly when it is a flattened leaf, scored against the query, reaching the threshold, and the result is a permutation of the filtered entries |
| Search.ObjectFuzzyRanked | src/utils/index.js:97-99 | in fuzzy mode the result never increases in score, and entries with equal scores stay in traversal order |
| Search.SelectFuzzyRanked | src/utils/index.js:97-99 | for any leaves, the fuzzy-mode selection never increases in score and keeps equal scores in traversal order |
| Search.ObjectThresholdMonotone | src/utils/index.js:97-99 | the result at `t2 >= t1` is the result at `t1` filtered to score `>= t2` |
| Search.ObjectExactOrder | src/utils/index.js:91-95 | in exact mode the sort changes nothing: the result is the equality-filtered leaves in traversal order |
| Search.SelectExactOrder | src/utils/index.js:91-95 | for any leaves, the exact-mode selection is the equality-filtered scoring in traversal order, since every kept score is the query's self-similarity |
| Search.ObjectExact | src/utils/index.js:91-95 | in exact mode a match is returned exactly when it is a flattened leaf whose value is the query, and its score is the query's self-similarity: 1, or NaN for the empty query |
| Search.SelectedLeaf | src/utils/index.js:62-76 | every selected match comes from a flattened entry, carries that entry's similarity, and passes the mode's filter |
| Search.SelectIncludes | src/utils/index.js:62-76 | every entry that passes the mode's filter is selected |
| Search.ArrayMatchPaths | src/utils/index.js:55 | every match path of a group starts with `[index]`, resolves back to its string in the data, and avoids the excluded keys |
| Search.ElementLeavesConcat | src/utils/index.js:55 | concatenating the flattenings of each root element under `[i]` gives the flattening of the whole array |
| Search.AllMatchesAppend | src/utils/index.js:78 | the matches of a concatenation of groups are the matches of each part |
| Search.ElementContribution | src/utils/index.js:54-76 | one root element contributes, as a multiset, exactly its filtered leaves |
| Search.DropNullsAgree | src/utils/index.js:78 | if each position contributes the same multiset as its part, the whole result contributes the concatenation of the parts |
| Search.KeptAppend | src/utils/index.js:57-74 | scoring and filtering distribute over concatenation |
| Search.ConcatKept | src/utils/index.js:55-74 | the per-element filtered leaves, concatenated, are the filtered leaves of the whole array |
| Search.TreeFlatAgree | src/utils/index.js:51-100 | the matches of all groups of the array search are, as a multiset, the matches of the object search on the same array |
| Streams.ExtractTextStream | src/utils/index.js:104-118 | the generator yields exactly the sequence `extractText` returns |
| Streams.ElementGroupAt | src/utils/index.js:122-123 | a root element's group depends only on that element and its index |
| Streams.ResultsPrefixStep | src/utils/index.js:122-152 | processing one more root element appends that element's group or nothing |
| Streams.ArrayPrefixStep | src/utils/index.js:149-151 | the array search over one more element appends that element's group when it has matches |
| Streams.SearchInArrayStream | src/utils/index.js:120-153 | collecting the generator gives the array search's result, same groups in the same order |
| Streams.KeepStep | src/utils/index.js:163-174 | one more flattened entry appends that entry's match when it passes the filter, and nothing otherwise |
| Streams.SearchInObjectStream | src/utils/index.js:155-175 | the generator yields the filtered entries unsorted, in traversal order, and the object search's result is exactly their stable descending sort |
| Streams.ObjectStreamUnsorted | src/utils/index.js:155-175 | for any object with two string entries that both reach the threshold, where the second outranks the first, the generator yields the first entry first while the object search yields the second first |
| Streams.TwoLeaves | src/utils/index.js:38-45 | an object with two string entries flattens to its two leaves under their keys, in entry order |
| Streams.TwoRanked | src/utils/index.js:97-99 | two matches reaching the threshold survive the filter in order, and the sort swaps them when the second outranks the first |
| Streams.ObjectStreamUnsortedExample | src/utils/index.js:164-171 | `{a: "", b: "abc"}` searched for `"abc"` at threshold 0 scores its leaves 0 and 1, which meets the conditions above |
| Streams.SearchInObjectStreamSorted | src/utils/index.js:155-175 | the corrected generator yields the object search's result, non-increasing in score in fuzzy mode |
| IndexSearch.StandaloneExtractUnexcluded | src/index.js:29-43 | the `extractText` of `src/index.js` produces the same sequence as the one in `src/utils/index.js` with no excluded keys |
| IndexSearch.StandaloneItemsUnexcluded | src/index.js:31-34 | the array loop of `src/index.js` agrees with the one in `src/utils/index.js` when no key is excluded |
| IndexSearch.StandaloneFieldsUnexcluded | src/index.js:35-38 | the entry loop of `src/index.js` agrees with the one in `src/utils/index.js` when no key is excluded |
| IndexSearch.StandaloneAgrees | src/index.js:45-55 | the stand-alone `search` is the object search of `src/utils/index.js` in fuzzy mode with no excluded keys |
| IndexSearch.StandaloneKeeps | src/index.js:45-55 | `search` returns exactly the leaves whose score is at least the threshold, never increasing in score, with equal scores in traversal order |
| IndexSearch.StandaloneThresholdMonotone | src/index.js:45-55 | the result at `t2 >= t1` is the result at `t1` filtered to score `>= t2` |
| IndexSearch.StandaloneScalarRoot | src/index.js:39-42 | a non-container, non-string root yields nothing; a string root yields at most one match, with path `""` |
| IndexSearch.StandaloneEmptyLeafDropped | src/index.js:53 | searching for `""` never returns a `""` leaf, whose score is NaN |
| IndexSearch.StandaloneDefaultCloseness | src/index.js:45 | at the default threshold 0.6, every returned value is within two fifths of the longer length in edits from the query |
| Scenarios.LevelThreeScore | test/search.test.js:45-50 | `"Data at level 3"` scores at least 0.3 against `"level 3"` |
| Scenarios.RenderOne | src/utils/index.js:36-41 | a one-segment path renders as that segment |
| Scenarios.RenderFour | src/utils/index.js:36-41 | a four-segment path renders as its segments in order |
| Scenarios.RenderSix | src/utils/index.js:36-41 | a six-segment path renders as its segments in order |
| Scenarios.RenderZero | src/utils/index.js:36 | the index segment 0 renders as `[0]` |
| Scenarios.ArrayLeafRendered | test/search.test.js:57-59 | the level-three leaf of the nested array renders as `[0].children[0].children[0].value` |
| Scenarios.ArrayLookups | test/search.test.js:4-22 | the nested array's record names `"Parent 1"` and leads through `children` to the level-three value |
| Scenarios.ArrayLeafResolves | test/search.test.js:4-22 | the level-three path resolves to `"Data at level 3"` |
| Scenarios.NameScores | test/search.test.js:7-15 | `"Parent 1"`, `"Child 1.1"` and `"Sub-Child 1.1.1"` each score below 0.3 against `"level 3"` |
| Scenarios.ParentUnmatched | test/search.test.js:7 | 6 of the 8 characters of `"Parent 1"` occur nowhere in `"level 3"` |
| Scenarios.ChildUnmatched | test/search.test.js:11 | 7 of the 9 characters of `"Child 1.1"` occur nowhere in `"level 3"` |
| Scenarios.SubChildUnmatched | test/search.test.js:15 | 13 of the 15 characters of `"Sub-Child 1.1.1"` occur nowhere in `"level 3"` |
| Scenarios.SubChildFirstHalf | test/search.test.js:15 | 7 of the first 8 characters of `"Sub-Child 1.1.1"` occur nowhere in `"level 3"` |
| Scenarios.SelectsOnlyLast | src/utils/index.js:97-99 | in fuzzy mode, when only the last leaf reaches the threshold, the result is that leaf alone |
| Scenarios.KeepsNone | src/utils/index.js:98 | the threshold filter keeps nothing when no score reaches the threshold |
| Scenarios.SkipsId | src/utils/index.js:39-45 | a record whose first entry is a number flattens as its remaining entries |
| Scenarios.SubChildLeaves | test/search.test.js:13-17 | the innermost record flattens to its `name` and `value` leaves, in that order |
| Scenarios.ArrayChildLeaves | test/search.test.js:9-19 | the nested array's child record flattens to its name, then the innermost record under `children[0]` |
| Scenarios.ArrayElementLeaves | test/search.test.js:4-22 | root element 0 flattens to its three names and the level-three value, outermost first |
| Scenarios.ArrayElementMatches | test/search.test.js:45-59 | at threshold 0.3, root element 0's only match is the level-three leaf |
| Scenarios.NestedArrayScenario | test/search.test.js:45-60 | the array search returns exactly one group: root element 0, named `"Parent 1"`, whose only match is the level-three leaf, so it is `matches[0]` |
| Scenarios.ObjectLeafRendered | test/search.test.js:72-74 | the level-three leaf of the nested object renders as `.parent.children.child1.children.subChild1.value` |
| Scenarios.ObjectLookups | test/search.test.js:24-42 | the nested object's keys lead down to the level-three value |
| Scenarios.ObjectLeafResolves | test/search.test.js:24-42 | the level-three path resolves to `"Data at level 3"` |
| Scenarios.ObjectChildLeaves | test/search.test.js:29-39 | the nested object's child record flattens to its name, then the innermost record under `children.subChild1` |
| Scenarios.ObjectLeaves | test/search.test.js:24-42 | the nested object flattens to its three names and the level-three value, outermost first |
| Scenarios.NestedObjectScenario | test/search.test.js:62-76 | the object search at threshold 0.3 returns exactly the level-three leaf, so it is `results[0]`, with value `"Data at level 3"` |
| Scenarios.LevelTwoLeaves | src/utils/index.js:39-43 | the worked example's second level flattens to its leaves, losing `child.name` when `"child"` is excluded |
| Scenarios.RootDocLeaves | src/utils/index.js:32-48 | the worked example flattens to its three leaves in document order, or two with `"child"` excluded |
| Scenarios.JohnSelected | src/utils/index.js:97-99 | the exact name is among the matches at threshold 0.2 |
| Scenarios.RootDocTopScore | src/utils/index.js:97-99 | the best match scores 1 |
| Scenarios.RootDocOnlyExact | src/utils/index.js:97-99 | the only match scoring 1 is the exact name |
| Scenarios.RootDocTopMatch | src/utils/index.js:97-99 | the first match is the exact name, with path `.children[0].child.name` |
| Scenarios.JohnPathRendered | src/utils/index.js:36-41 | the exact name's path renders as `.children[0].child.name` |
| Scenarios.RootDocExcluded | src/utils/index.js:39-43 | with `"child"` excluded, the name below it is never returned, at any threshold |
| Scenarios.FarFromJohn | src/utils/index.js:23-30 | `"x"` scores below 0.9 against `"John Doe"` |
| Scenarios.PersonLeaves | src/utils/index.js:55 | each record of the two-person array flattens to its name under `[k].name` |
| Scenarios.PersonMatches | src/utils/index.js:57-74 | at threshold 0.9 only the second record matches |
| Scenarios.TwoPeopleTree | src/utils/index.js:51-79 | the array search yields a single group, for index 1, with the exact name as its one match |

## Left out

- Generators: the `async function*` machinery is left out. That covers
  suspension, `for await`, and stopping early. Each generator is modelled as
  the finite sequence it yields in full.
- IEEE-754 doubles: `1 - d / m` and threshold literals such as 0.6 are exact
  reals. A score that rounds across a threshold in binary floating point may
  be kept here and dropped by the source, or the other way round.
- Rendered paths are not unique. Keys are interpolated raw, so `{"a.b": s}`
  and `{a: {b: s}}` both render as `.a.b`. Resolution is stated only for
  segment paths.
- Options dispatch: no code routes the options object the tests pass
  (`outputMode`) to the searches, and none is invented. That code is not part
  of this model.
- The `typeof` guard in `similarityScore` (src/utils/index.js:25-27): both
  arguments are strings here, so the guard never fires.
- A query that is not a string, and an options object without a threshold
  (`undefined` compares false, so fuzzy mode would drop every leaf), are not
  modelled.
- `Object.entries` ordering rules (integer-like keys first) are not modelled.
  An object's entry sequence is taken as given. Cyclic values cannot be built
  from a well-founded datatype.
- Scenarios: they state each test's expected result exactly. Of the scores
  in the test data, they compute only bounds: at least 0.3 for the level-three
  value, and below 0.3 for every `name`. They do not compute exact values.
- Search.SearchInArray: the root is modelled as an array only. `searchInArray`
  calls `data.map` (src/utils/index.js:53), which throws a `TypeError` on any
  other root. That error path is not modelled.
- Streams.SearchInArrayStream: it is modelled on array roots only, where it
  agrees with `Search.SearchInArray`. The source reads only `data.length` and
  `data[index]` (src/utils/index.js:122-123), so it also accepts array-likes
  on which the eager search throws. The string root `"ab"`, searched for
  `"a"` at threshold 0.5, yields the group `{index: 0, originalData: "a"}`
  with the one match `{path: "[0]", value: "a", score: 1}`, while
  `searchInArray` throws.
- Metric.Similarity: a string is a sequence of Unicode scalar values, while
  JavaScript's `length` and indexing (src/utils/index.js:3-11, 29) count
  UTF-16 code units. The two agree on text without astral characters. They
  differ otherwise: `"😀"` against `"😁"` is length 2 each, distance 1 and
  score 0.5 in the source, so the leaf is kept at threshold 0.3. Here the
  score is 0, and the leaf is dropped. Lone surrogates cannot be represented.
- Metric.Levenshtein: the table is indexed by Unicode scalar values rather
  than UTF-16 code units, for the reason just given. It differs in size from
  the source's table whenever a string holds an astral character, and so can
  the distance. `"😀"` against `"a"` is distance 2 in the source (two code
  units against one) and distance 1 here.
- `types/nested-fuzzy-search.d.ts` and the jest test runner hold no logic and are
  not part of this model.

## Findings

| source | as written | input that shows it | evidently intended | confidence | as-written member | corrected member |
|---|---|---|---|---|---|---|
| src/utils/index.js:155-175 | `searchInObjectStream` yields the kept entries in traversal order, with no sort | `{a: "", b: "abc"}`, query `"abc"`, threshold 0: it yields `.a` (score 0) before `.b` (score 1), while `searchInObject` returns `.b` first | to yield the same descending-score batch as `searchInObject` (src/utils/index.js:97-99), sorting as its array twin `searchInArrayStream` does per element (src/utils/index.js:139-147) | not executed; medium | Streams.ObjectStreamUnsorted | Streams.SearchInObjectStreamSorted |
