/** The generator twins `extractTextStream`, `searchInArrayStream` and
    `searchInObjectStream`, each modelled as a method returning the finite
    sequence the generator yields, in yield order. */
module Streams {
  import opened Metric
  import opened Tree
  import opened Flatten
  import opened Selection
  import opened Search

  /** `extractTextStream`: the recursive generator, one `yield*` per child in
      index or entry order, and one `yield` per string leaf. */
  method ExtractTextStream(v: Value, path: Path, excludeKeys: seq<string>) returns (out: seq<FlatEntry>)
    ensures out == ExtractText(v, path, excludeKeys)
    decreases v
  {
    out := [];
    match v {
      case Arr(items) =>
        var index := 0;
        while index < |items|
          invariant 0 <= index <= |items|
          invariant out + ExtractItems(v, index, path, excludeKeys) == ExtractItems(v, 0, path, excludeKeys)
        {
          var sub := ExtractTextStream(items[index], path + [Idx(index)], excludeKeys);
          assert out + ExtractItems(v, index, path, excludeKeys)
              == (out + sub) + ExtractItems(v, index + 1, path, excludeKeys);
          out := out + sub;
          index := index + 1;
        }
        assert out + [] == out;
      case Obj(fields) =>
        var n := 0;
        while n < |fields|
          invariant 0 <= n <= |fields|
          invariant out + ExtractFields(v, n, path, excludeKeys) == ExtractFields(v, 0, path, excludeKeys)
        {
          var (key, value) := fields[n];
          if key !in excludeKeys {
            var sub := ExtractTextStream(value, path + [Key(key)], excludeKeys);
            assert out + ExtractFields(v, n, path, excludeKeys)
                == (out + sub) + ExtractFields(v, n + 1, path, excludeKeys);
            out := out + sub;
          }
          n := n + 1;
        }
        assert out + [] == out;
      case Str(s) =>
        out := [FlatEntry(path, s)];
      case Other =>
    }
  }

  /** An element's group depends on its index and the element only. */
  lemma ElementGroupAt(xs: seq<Value>, ys: seq<Value>, k: nat, query: string, opts: Options)
    requires k < |xs| && k < |ys| && xs[k] == ys[k]
    ensures ElementGroup(xs, k, query, opts) == ElementGroup(ys, k, query, opts)
  {
    assert ElementMatches(xs, k, query, opts) == ElementMatches(ys, k, query, opts);
  }

  /** The optional groups of the first `n + 1` elements extend those of the
      first `n` by the group of element `n`. */
  lemma ResultsPrefixStep(items: seq<Value>, n: nat, query: string, opts: Options)
    requires n < |items|
    ensures ElementResults(items[..n + 1], query, opts)
         == ElementResults(items[..n], query, opts) + [ElementGroup(items, n, query, opts)]
  {
    var short, long := items[..n], items[..n + 1];
    var os, os' := ElementResults(short, query, opts), ElementResults(long, query, opts);
    var extended := os + [ElementGroup(items, n, query, opts)];
    forall k | 0 <= k < n + 1
      ensures os'[k] == extended[k]
    {
      if k < n {
        ElementGroupAt(long, short, k, query, opts);
      } else {
        ElementGroupAt(long, items, n, query, opts);
      }
    }
  }

  /** The groups for the first `n` root elements depend on those elements
      only: the next element adds its own group, if any, at the end. */
  lemma ArrayPrefixStep(items: seq<Value>, n: nat, query: string, opts: Options)
    requires n < |items|
    ensures SearchInArray(items[..n + 1], query, opts)
         == SearchInArray(items[..n], query, opts) + DropNulls([ElementGroup(items, n, query, opts)])
  {
    ResultsPrefixStep(items, n, query, opts);
    DropNullsAppend(ElementResults(items[..n], query, opts), [ElementGroup(items, n, query, opts)]);
  }

  /** `searchInArrayStream`: for each root element in index order, collect
      its leaves from the stream, score, filter and sort them, and yield its
      group when it has a match. After `index` elements the yielded groups
      are exactly the eager result on those elements, so a consumer sees
      each group before any later element is traversed. */
  method SearchInArrayStream(items: seq<Value>, query: string, opts: Options) returns (out: seq<Group>)
    ensures out == SearchInArray(items, query, opts)
  {
    out := [];
    var index := 0;
    while index < |items|
      invariant 0 <= index <= |items|
      invariant out == SearchInArray(items[..index], query, opts)
    {
      var item := items[index];
      var flatData := ExtractTextStream(item, [Idx(index)], opts.excludeKeys);
      var matches := SortDesc(Keep(ScoreAll(flatData, query), query, opts));
      ArrayPrefixStep(items, index, query, opts);
      assert [ElementGroup(items, index, query, opts)][1..] == [];
      if |matches| > 0 {
        out := out + [Group(index, item, matches)];
      }
      index := index + 1;
    }
    assert items[..|items|] == items;
  }

  /** Scoring and filtering one more leaf appends its match when it passes. */
  lemma KeepStep(entries: seq<FlatEntry>, i: nat, query: string, opts: Options)
    requires i < |entries|
    ensures Keep(ScoreAll(entries[..i + 1], query), query, opts)
         == Keep(ScoreAll(entries[..i], query), query, opts)
            + (if Passes(ScoreOne(entries[i], query), query, opts) then [ScoreOne(entries[i], query)] else [])
  {
    var m := ScoreOne(entries[i], query);
    assert entries[..i + 1] == entries[..i] + [entries[i]];
    ScoreAllAppend(entries[..i], [entries[i]], query);
    assert ScoreAll([entries[i]], query) == [m];
    KeepAppend(ScoreAll(entries[..i], query), [m], query, opts);
    assert [m][1..] == [];
  }

  /** `searchInObjectStream` as written: collect every leaf from the stream,
      then yield each one that passes the filter, scored, in traversal order.
      It does not sort; `searchInObject` is exactly its stable descending
      sort. */
  method SearchInObjectStream(data: Value, query: string, opts: Options) returns (out: seq<Match>)
    ensures out == Keep(ScoreAll(ExtractText(data, [], opts.excludeKeys), query), query, opts)
    ensures SortDesc(out) == SearchInObject(data, query, opts)
  {
    var flatData := ExtractTextStream(data, [], opts.excludeKeys);
    out := [];
    var i := 0;
    while i < |flatData|
      invariant 0 <= i <= |flatData|
      invariant out == Keep(ScoreAll(flatData[..i], query), query, opts)
    {
      var e := flatData[i];
      var score := SimilarityScore(e.value, query);
      var m := Match(e.path, e.value, score);
      KeepStep(flatData, i, query, opts);
      var pass := if opts.exact then e.value == query else AtLeast(score, opts.threshold);
      if pass {
        out := out + [m];
      }
      i := i + 1;
    }
    assert flatData[..|flatData|] == flatData;
  }

  /** The order the flat stream yields can differ from the eager result: for
      an object with two string entries whose second value outranks the
      first and both reach the threshold, the stream yields the first entry
      first, while the eager search puts the second first. */
  lemma ObjectStreamUnsorted(a: string, x: string, b: string, y: string, query: string, threshold: real)
    requires AtLeast(Similarity(x, query), threshold)
    requires Outranks(Similarity(y, query), Similarity(x, query))
    ensures Keep(ScoreAll(ExtractText(Obj([(a, Str(x)), (b, Str(y))]), [], []), query), query, Options(threshold, [], false))
         == [Match([Key(a)], x, Similarity(x, query)), Match([Key(b)], y, Similarity(y, query))]
    ensures SearchInObject(Obj([(a, Str(x)), (b, Str(y))]), query, Options(threshold, [], false))
         == [Match([Key(b)], y, Similarity(y, query)), Match([Key(a)], x, Similarity(x, query))]
  {
    TwoLeaves(a, x, b, y);
    var entries := [FlatEntry([Key(a)], x), FlatEntry([Key(b)], y)];
    var low := Match([Key(a)], x, Similarity(x, query));
    var high := Match([Key(b)], y, Similarity(y, query));
    assert ScoreAll(entries, query) == [low, high];
    TwoRanked(low, high, threshold);
  }

  /** An object with two string entries flattens to its two leaves, in entry
      order. */
  lemma TwoLeaves(a: string, x: string, b: string, y: string)
    ensures ExtractText(Obj([(a, Str(x)), (b, Str(y))]), [], [])
         == [FlatEntry([Key(a)], x), FlatEntry([Key(b)], y)]
  {
    var data := Obj([(a, Str(x)), (b, Str(y))]);
    assert ExtractFields(data, 2, [], []) == [];
    assert [] + [Key(a)] == [Key(a)] && [] + [Key(b)] == [Key(b)];
    assert ExtractText(Str(y), [Key(b)], []) == [FlatEntry([Key(b)], y)];
    assert ExtractText(Str(x), [Key(a)], []) == [FlatEntry([Key(a)], x)];
    assert ExtractFields(data, 1, [], []) == [FlatEntry([Key(b)], y)];
  }

  /** Two matches that both reach the threshold survive the filter in order,
      and the sort swaps them when the second outranks the first. */
  lemma TwoRanked(low: Match, high: Match, threshold: real)
    requires AtLeast(low.score, threshold)
    requires Outranks(high.score, low.score)
    ensures KeepAtLeast([low, high], threshold) == [low, high]
    ensures SortDesc([low, high]) == [high, low]
  {
    assert [low, high][1..] == [high];
    assert KeepAtLeast([high], threshold) == [high];
    assert SortDesc([high]) == [high];
    assert SortDesc([low, high]) == InsertDesc(low, [high]);
    assert InsertDesc(low, [high]) == [high] + InsertDesc(low, []);
  }

  /** The input that shows it: `{a: "", b: "abc"}` searched for `"abc"` at
      threshold 0 scores the leaves 0 and 1, so the stream yields `.a` before
      `.b`. */
  lemma ObjectStreamUnsortedExample()
    ensures AtLeast(Similarity("", "abc"), 0.0)
    ensures Outranks(Similarity("abc", "abc"), Similarity("", "abc"))
    ensures Similarity("", "abc") == Num(0.0) && Similarity("abc", "abc") == Num(1.0)
  {
    assert Distance("", "abc") == 3;
  }

  /** `searchInObjectStream` sorting its batch, as `searchInObject`
      (src/utils/index.js:97-99) and, per element, `searchInArrayStream`
      (src/utils/index.js:139-147) both do: the whole batch is collected and
      sorted before the first yield, so the yielded sequence is the eager
      result. */
  method SearchInObjectStreamSorted(data: Value, query: string, opts: Options) returns (out: seq<Match>)
    ensures out == SearchInObject(data, query, opts)
    ensures !opts.exact ==> NonIncreasing(out)
  {
    var batch := SearchInObjectStream(data, query, opts);
    out := SortDesc(batch);
    if !opts.exact {
      ObjectFuzzyRanked(data, query, opts, NaN);
    }
  }
}
