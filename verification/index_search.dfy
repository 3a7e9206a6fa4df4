/** The stand-alone `search(data, query, threshold = 0.6)` exported by
    `src/index.js`: flatten without key exclusion, score every leaf, keep the
    ones at or above the threshold, and sort by descending score. Its edit distance and
    score are the ones in `Metric`, which it defines identically. */
module IndexSearch {
  import opened Metric
  import opened Tree
  import opened Flatten
  import opened Selection
  import opened Search

  /** The threshold `search` uses when the caller passes none. */
  const DefaultThreshold: real := 0.6

  /** The `extractText(data, path = "")` of `src/index.js`: arrays by index, object
      entries in order (no key is ever skipped), strings as themselves. */
  function StandaloneExtract(v: Value, path: Path): seq<FlatEntry>
    decreases v, 1
  {
    match v
    case Arr(_) => StandaloneItems(v, 0, path)
    case Obj(_) => StandaloneFields(v, 0, path)
    case Str(s) => [FlatEntry(path, s)]
    case Other => []
  }

  function StandaloneItems(v: Value, i: nat, path: Path): seq<FlatEntry>
    requires v.Arr? && i <= |v.items|
    decreases v, 0, |v.items| - i
  {
    if i == |v.items| then []
    else StandaloneExtract(v.items[i], path + [Idx(i)]) + StandaloneItems(v, i + 1, path)
  }

  function StandaloneFields(v: Value, i: nat, path: Path): seq<FlatEntry>
    requires v.Obj? && i <= |v.fields|
    decreases v, 0, |v.fields| - i
  {
    if i == |v.fields| then []
    else
      var (key, child) := v.fields[i];
      StandaloneExtract(child, path + [Key(key)]) + StandaloneFields(v, i + 1, path)
  }

  /** This flattening is `Flatten.ExtractText` with nothing excluded. */
  lemma {:induction false} StandaloneExtractUnexcluded(v: Value, path: Path)
    ensures StandaloneExtract(v, path) == ExtractText(v, path, [])
    decreases v, 1
  {
    match v
    case Arr(_) => StandaloneItemsUnexcluded(v, 0, path);
    case Obj(_) => StandaloneFieldsUnexcluded(v, 0, path);
    case Str(_) =>
    case Other =>
  }

  lemma {:induction false} StandaloneItemsUnexcluded(v: Value, i: nat, path: Path)
    requires v.Arr? && i <= |v.items|
    ensures StandaloneItems(v, i, path) == ExtractItems(v, i, path, [])
    decreases v, 0, |v.items| - i
  {
    if i < |v.items| {
      StandaloneExtractUnexcluded(v.items[i], path + [Idx(i)]);
      StandaloneItemsUnexcluded(v, i + 1, path);
    }
  }

  lemma {:induction false} StandaloneFieldsUnexcluded(v: Value, i: nat, path: Path)
    requires v.Obj? && i <= |v.fields|
    ensures StandaloneFields(v, i, path) == ExtractFields(v, i, path, [])
    decreases v, 0, |v.fields| - i
  {
    if i < |v.fields| {
      var (key, child) := v.fields[i];
      assert key !in [];
      StandaloneExtractUnexcluded(child, path + [Key(key)]);
      StandaloneFieldsUnexcluded(v, i + 1, path);
    }
  }

  /** `search(data, query, threshold)`. */
  function StandaloneSearch(data: Value, query: string, threshold: real := DefaultThreshold): seq<Match> {
    SortDesc(KeepAtLeast(ScoreAll(StandaloneExtract(data, []), query), threshold))
  }

  /** The stand-alone search is the object search in fuzzy mode with no
      excluded keys. */
  lemma StandaloneAgrees(data: Value, query: string, threshold: real)
    ensures StandaloneSearch(data, query, threshold) == SearchInObject(data, query, Options(threshold, [], false))
  {
    StandaloneExtractUnexcluded(data, []);
  }

  /** A result is exactly a string leaf of `data`, with its own score, whose
      score reaches the threshold; results never increase in score, and leaves
      with equal scores stay in traversal order. */
  lemma StandaloneKeeps(data: Value, query: string, threshold: real, m: Match, score: Score)
    ensures m in StandaloneSearch(data, query, threshold)
        <==> && FlatEntry(m.path, m.value) in StandaloneExtract(data, [])
             && m.score == Similarity(m.value, query)
             && AtLeast(m.score, threshold)
    ensures NonIncreasing(StandaloneSearch(data, query, threshold))
    ensures Ties(StandaloneSearch(data, query, threshold), score)
         == Ties(KeepAtLeast(ScoreAll(StandaloneExtract(data, []), query), threshold), score)
  {
    var opts := Options(threshold, [], false);
    StandaloneAgrees(data, query, threshold);
    StandaloneExtractUnexcluded(data, []);
    ObjectFuzzyKeeps(data, query, opts, m);
    ObjectFuzzyRanked(data, query, opts, score);
  }

  /** Raising the threshold removes the results below the new one and keeps
      the order of the rest. */
  lemma StandaloneThresholdMonotone(data: Value, query: string, t1: real, t2: real)
    requires t1 <= t2
    ensures StandaloneSearch(data, query, t2) == KeepAtLeast(StandaloneSearch(data, query, t1), t2)
  {
    StandaloneAgrees(data, query, t1);
    StandaloneAgrees(data, query, t2);
    ObjectThresholdMonotone(data, query, Options(t1, [], false), t2);
  }

  /** A scalar root: a string is its own single leaf at the empty path (which
      renders as `""`), anything else that is not an array or object yields
      nothing. */
  lemma StandaloneScalarRoot(s: string, query: string, threshold: real)
    ensures StandaloneSearch(Other, query, threshold) == []
    ensures StandaloneSearch(Str(s), query, threshold)
         == if AtLeast(Similarity(s, query), threshold) then [Match([], s, Similarity(s, query))] else []
    ensures Render([]) == ""
  {
    var m := Match([], s, Similarity(s, query));
    assert ScoreAll([FlatEntry([], s)], query) == [m];
    assert [m][1..] == [];
  }

  /** With the empty query, an empty leaf scores NaN (`0 / 0`), so it is
      never returned whatever the threshold. */
  lemma StandaloneEmptyLeafDropped(data: Value, threshold: real, m: Match)
    requires m in StandaloneSearch(data, "", threshold)
    ensures m.value != ""
  {
    StandaloneKeeps(data, "", threshold, m, NaN);
  }

  /** At the default threshold a result is within 40% edits of the query:
      its distance is at most two fifths of the longer length. */
  lemma StandaloneDefaultCloseness(data: Value, query: string, m: Match)
    requires m in StandaloneSearch(data, query)
    ensures 5 * Distance(m.value, query) <= 2 * Max(|m.value|, |query|)
  {
    StandaloneKeeps(data, query, DefaultThreshold, m, NaN);
    SimilarityDistance(m.value, query, DefaultThreshold);
    TwoFifths(Distance(m.value, query), Max(|m.value|, |query|));
  }
}
