/** `searchInObject` (one flat ranked batch) and `searchInArray` (one ranked
    group per root array element). */
module Search {
  import opened Metric
  import opened Tree
  import opened Flatten
  import opened Selection

  /** The options both searches destructure: `{ threshold, excludeKeys, exact }`. */
  datatype Options = Options(threshold: real, excludeKeys: seq<string>, exact: bool)

  /** One element of `searchInArray`'s result. */
  datatype Group = Group(index: nat, originalData: Value, matches: seq<Match>)

  /** The filter test: string equality in exact mode, the threshold otherwise. */
  predicate Passes(m: Match, query: string, opts: Options) {
    if opts.exact then m.value == query else AtLeast(m.score, opts.threshold)
  }

  /** The filter step: string equality in exact mode, the threshold otherwise. */
  function Keep(ms: seq<Match>, query: string, opts: Options): seq<Match> {
    if opts.exact then KeepEqual(ms, query) else KeepAtLeast(ms, opts.threshold)
  }

  /** Score, filter, then stable-sort by descending score. */
  function Select(entries: seq<FlatEntry>, query: string, opts: Options): seq<Match> {
    SortDesc(Keep(ScoreAll(entries, query), query, opts))
  }

  /** `searchInObject`: flatten the whole value from the empty path. */
  function SearchInObject(data: Value, query: string, opts: Options): seq<Match> {
    Select(ExtractText(data, [], opts.excludeKeys), query, opts)
  }

  /** The ranked matches among the leaves of root element `k`, under `[k]`. */
  function ElementMatches(items: seq<Value>, k: nat, query: string, opts: Options): seq<Match>
    requires k < |items|
  {
    Select(ExtractText(items[k], [Idx(k)], opts.excludeKeys), query, opts)
  }

  /** The `data.map` callback: a group for element `k` when it has a match,
      `null` otherwise. */
  function ElementGroup(items: seq<Value>, k: nat, query: string, opts: Options): Option<Group>
    requires k < |items|
  {
    var ms := ElementMatches(items, k, query, opts);
    if |ms| > 0 then Some(Group(k, items[k], ms)) else None
  }

  /** `data.map(...)`: one optional group per root element. */
  function ElementResults(items: seq<Value>, query: string, opts: Options): seq<Option<Group>> {
    seq(|items|, k requires 0 <= k < |items| => ElementGroup(items, k, query, opts))
  }

  /** `.filter((result) => result !== null)`. */
  function DropNulls(os: seq<Option<Group>>): seq<Group> {
    if |os| == 0 then []
    else (if os[0].Some? then [os[0].value] else []) + DropNulls(os[1..])
  }

  /** `searchInArray`. */
  function SearchInArray(items: seq<Value>, query: string, opts: Options): seq<Group> {
    DropNulls(ElementResults(items, query, opts))
  }

  // ---------------------------------------------------------------------
  // Dropping nulls

  /** Position `k` of `os` holds, if anything, the group for index `offset + k`. */
  predicate IndexedFrom(os: seq<Option<Group>>, offset: nat) {
    forall k :: 0 <= k < |os| && os[k].Some? ==> os[k].value.index == offset + k
  }

  /** Every group in `gs` sits in `os` at the position its index names. */
  predicate DrawnFrom(gs: seq<Group>, os: seq<Option<Group>>, offset: nat) {
    forall g :: g in gs ==> offset <= g.index < offset + |os| && os[g.index - offset] == Some(g)
  }

  /** Group indices strictly increase along the sequence. */
  predicate IncreasingIndex(gs: seq<Group>) {
    forall a, b :: 0 <= a < b < |gs| ==> gs[a].index < gs[b].index
  }

  /** The tail of an indexed sequence is indexed from the next position. */
  lemma IndexedTail(os: seq<Option<Group>>, offset: nat)
    requires IndexedFrom(os, offset) && |os| > 0
    ensures IndexedFrom(os[1..], offset + 1)
  {
    forall k | 0 <= k < |os[1..]| && os[1..][k].Some?
      ensures os[1..][k].value.index == offset + 1 + k
    {
      assert os[1..][k] == os[k + 1];
    }
  }

  /** Dropping the nulls keeps nothing but present groups, each found at the
      position its index names. */
  lemma {:induction false} DropNullsDrawn(os: seq<Option<Group>>, offset: nat)
    requires IndexedFrom(os, offset)
    ensures DrawnFrom(DropNulls(os), os, offset)
  {
    if |os| > 0 {
      var tail := os[1..];
      IndexedTail(os, offset);
      DropNullsDrawn(tail, offset + 1);
      var head := if os[0].Some? then [os[0].value] else [];
      assert DropNulls(os) == head + DropNulls(tail);
      forall g | g in DropNulls(os)
        ensures offset <= g.index < offset + |os| && os[g.index - offset] == Some(g)
      {
        if g !in head {
          assert tail[g.index - offset - 1] == os[g.index - offset];
        }
      }
    }
  }

  /** Dropping the nulls keeps the present groups in position order, so the
      indices strictly increase. */
  lemma {:induction false} DropNullsIncreasing(os: seq<Option<Group>>, offset: nat)
    requires IndexedFrom(os, offset)
    ensures IncreasingIndex(DropNulls(os))
  {
    if |os| > 0 {
      IndexedTail(os, offset);
      DropNullsIncreasing(os[1..], offset + 1);
      DropNullsDrawn(os[1..], offset + 1);
      if os[0].Some? {
        IncreasingCons(os[0].value, DropNulls(os[1..]));
      }
    }
  }

  /** Dropping the nulls loses no present group. */
  lemma {:induction false} DropNullsKeeps(os: seq<Option<Group>>)
    ensures forall k :: 0 <= k < |os| && os[k].Some? ==> os[k].value in DropNulls(os)
  {
    if |os| > 0 {
      var tail := os[1..];
      DropNullsKeeps(tail);
      var head := if os[0].Some? then [os[0].value] else [];
      assert DropNulls(os) == head + DropNulls(tail);
      forall k | 0 < k < |os| && os[k].Some?
        ensures os[k].value in DropNulls(os)
      {
        assert tail[k - 1] == os[k];
      }
    }
  }

  lemma IncreasingCons(x: Group, rest: seq<Group>)
    requires IncreasingIndex(rest)
    requires forall g :: g in rest ==> x.index < g.index
    ensures IncreasingIndex([x] + rest)
  {
    var r := [x] + rest;
    forall a, b | 0 <= a < b < |r|
      ensures r[a].index < r[b].index
    {
      assert r[b] == rest[b - 1];
      if a > 0 {
        assert r[a] == rest[a - 1];
      }
    }
  }

  lemma {:induction false} DropNullsAppend(a: seq<Option<Group>>, b: seq<Option<Group>>)
    ensures DropNulls(a + b) == DropNulls(a) + DropNulls(b)
  {
    if |a| > 0 {
      assert (a + b)[1..] == a[1..] + b;
      DropNullsAppend(a[1..], b);
    } else {
      assert a + b == b;
    }
  }

  // ---------------------------------------------------------------------
  // searchInArray

  /** `g` is the group `searchInArray` builds for a root element: the
      unmodified element at its index and that element's non-empty ranked
      matches. */
  predicate GroupFor(items: seq<Value>, query: string, opts: Options, g: Group) {
    && g.index < |items|
    && g.originalData == items[g.index]
    && g.matches == ElementMatches(items, g.index, query, opts)
    && |g.matches| > 0
  }

  /** Groups come in strictly increasing index order, each is the group of
      its root element, and every element with a match has its group. */
  lemma ArrayGroups(items: seq<Value>, query: string, opts: Options)
    ensures forall g :: g in SearchInArray(items, query, opts) ==> GroupFor(items, query, opts, g)
    ensures IncreasingIndex(SearchInArray(items, query, opts))
    ensures forall k :: 0 <= k < |items| && |ElementMatches(items, k, query, opts)| > 0 ==>
      Group(k, items[k], ElementMatches(items, k, query, opts)) in SearchInArray(items, query, opts)
  {
    var os := ElementResults(items, query, opts);
    DropNullsDrawn(os, 0);
    DropNullsIncreasing(os, 0);
    DropNullsKeeps(os);
    forall k | 0 <= k < |items| && |ElementMatches(items, k, query, opts)| > 0
      ensures Group(k, items[k], ElementMatches(items, k, query, opts)) in DropNulls(os)
    {
      assert os[k] == ElementGroup(items, k, query, opts);
    }
    forall g | g in DropNulls(os)
      ensures GroupFor(items, query, opts, g)
    {
      assert os[g.index] == ElementGroup(items, g.index, query, opts);
    }
  }

  /** In exact mode each group's matches are its element's leaves equal to
      the query, in traversal order. */
  lemma ArrayExactOrder(items: seq<Value>, query: string, opts: Options, g: Group)
    requires opts.exact && g in SearchInArray(items, query, opts)
    ensures g.index < |items|
    ensures g.matches
         == KeepEqual(ScoreAll(ExtractText(items[g.index], [Idx(g.index)], opts.excludeKeys), query), query)
  {
    ArrayGroups(items, query, opts);
    SelectExactOrder(ExtractText(items[g.index], [Idx(g.index)], opts.excludeKeys), query, opts);
  }

  /** In fuzzy mode each group's matches never increase in score, and equal
      scores stay in traversal order. */
  lemma ArrayFuzzyRanked(items: seq<Value>, query: string, opts: Options, g: Group, score: Score)
    requires !opts.exact && g in SearchInArray(items, query, opts)
    ensures g.index < |items|
    ensures NonIncreasing(g.matches)
    ensures Ties(g.matches, score)
         == Ties(KeepAtLeast(ScoreAll(ExtractText(items[g.index], [Idx(g.index)], opts.excludeKeys), query),
                             opts.threshold), score)
  {
    ArrayGroups(items, query, opts);
    SelectFuzzyRanked(ExtractText(items[g.index], [Idx(g.index)], opts.excludeKeys), query, opts, score);
  }

  // ---------------------------------------------------------------------
  // Scoring and filtering facts

  lemma {:induction false} ScoreAllAppend(a: seq<FlatEntry>, b: seq<FlatEntry>, query: string)
    ensures ScoreAll(a + b, query) == ScoreAll(a, query) + ScoreAll(b, query)
  {
  }

  lemma {:induction false} KeepAppend(a: seq<Match>, b: seq<Match>, query: string, opts: Options)
    ensures Keep(a + b, query, opts) == Keep(a, query, opts) + Keep(b, query, opts)
  {
    if opts.exact {
      KeepEqualAppend(a, b, query);
    } else {
      KeepAtLeastAppend(a, b, opts.threshold);
    }
  }

  /** A scored entry is a leaf with its own similarity to the query. */
  lemma ScoredLeaf(entries: seq<FlatEntry>, query: string, m: Match)
    ensures m in ScoreAll(entries, query)
        <==> FlatEntry(m.path, m.value) in entries && m.score == Similarity(m.value, query)
  {
    var r := ScoreAll(entries, query);
    if FlatEntry(m.path, m.value) in entries && m.score == Similarity(m.value, query) {
      var i :| 0 <= i < |entries| && entries[i] == FlatEntry(m.path, m.value);
      assert r[i] == m;
    }
  }

  // ---------------------------------------------------------------------
  // searchInObject, fuzzy mode

  /** Fuzzy mode keeps exactly the leaves scoring at least the threshold,
      each with its own score, and nothing twice that was not there twice. */
  lemma ObjectFuzzyKeeps(data: Value, query: string, opts: Options, m: Match)
    requires !opts.exact
    ensures m in SearchInObject(data, query, opts)
        <==> && FlatEntry(m.path, m.value) in ExtractText(data, [], opts.excludeKeys)
             && m.score == Similarity(m.value, query)
             && AtLeast(m.score, opts.threshold)
    ensures multiset(SearchInObject(data, query, opts))
         == multiset(KeepAtLeast(ScoreAll(ExtractText(data, [], opts.excludeKeys), query), opts.threshold))
  {
    var scored := ScoreAll(ExtractText(data, [], opts.excludeKeys), query);
    var kept := KeepAtLeast(scored, opts.threshold);
    KeepAtLeastMembers(scored, opts.threshold);
    ScoredLeaf(ExtractText(data, [], opts.excludeKeys), query, m);
    assert m in SearchInObject(data, query, opts) <==> m in multiset(kept);
  }

  /** Fuzzy mode ranks by descending score and leaves equal scores in
      traversal order. */
  lemma ObjectFuzzyRanked(data: Value, query: string, opts: Options, score: Score)
    requires !opts.exact
    ensures NonIncreasing(SearchInObject(data, query, opts))
    ensures Ties(SearchInObject(data, query, opts), score)
         == Ties(KeepAtLeast(ScoreAll(ExtractText(data, [], opts.excludeKeys), query), opts.threshold), score)
  {
    SelectFuzzyRanked(ExtractText(data, [], opts.excludeKeys), query, opts, score);
  }

  /** The fuzzy selection of any leaves ranks by descending score and leaves
      equal scores in traversal order. */
  lemma SelectFuzzyRanked(entries: seq<FlatEntry>, query: string, opts: Options, score: Score)
    requires !opts.exact
    ensures NonIncreasing(Select(entries, query, opts))
    ensures Ties(Select(entries, query, opts), score)
         == Ties(KeepAtLeast(ScoreAll(entries, query), opts.threshold), score)
  {
    var kept := KeepAtLeast(ScoreAll(entries, query), opts.threshold);
    KeepAtLeastMembers(ScoreAll(entries, query), opts.threshold);
    SortDescSorted(kept);
    SortDescStable(kept, score);
  }

  /** Raising the threshold to `t2` gives the lower-threshold result with the
      entries below `t2` removed; order is unchanged. */
  lemma ObjectThresholdMonotone(data: Value, query: string, opts: Options, t2: real)
    requires !opts.exact && opts.threshold <= t2
    ensures SearchInObject(data, query, opts.(threshold := t2))
         == KeepAtLeast(SearchInObject(data, query, opts), t2)
  {
    var scored := ScoreAll(ExtractText(data, [], opts.excludeKeys), query);
    var kept := KeepAtLeast(scored, opts.threshold);
    KeepAtLeastMembers(scored, opts.threshold);
    SortDescKeep(kept, t2);
    KeepAtLeastTwice(scored, opts.threshold, t2);
  }

  // ---------------------------------------------------------------------
  // searchInObject, exact mode

  /** In exact mode every kept score is the query's self-similarity, so the
      sort leaves the kept leaves in traversal order. */
  lemma ObjectExactOrder(data: Value, query: string, opts: Options)
    requires opts.exact
    ensures SearchInObject(data, query, opts)
         == KeepEqual(ScoreAll(ExtractText(data, [], opts.excludeKeys), query), query)
  {
    SelectExactOrder(ExtractText(data, [], opts.excludeKeys), query, opts);
  }

  /** The exact selection of any leaves is their equality-filtered scoring in
      traversal order: every kept score is the query's self-similarity, so
      the sort ties them all. */
  lemma SelectExactOrder(entries: seq<FlatEntry>, query: string, opts: Options)
    requires opts.exact
    ensures Select(entries, query, opts) == KeepEqual(ScoreAll(entries, query), query)
  {
    var kept := KeepEqual(ScoreAll(entries, query), query);
    KeepEqualMembers(ScoreAll(entries, query), query);
    forall i | 0 <= i < |kept|
      ensures kept[i].score == Similarity(query, query)
    {
      ScoredLeaf(entries, query, kept[i]);
    }
    SortDescAllTied(kept, Similarity(query, query));
  }

  /** Exact mode returns exactly the leaves equal to the query, each with the
      query's self-similarity: 1, or NaN for `""`. */
  lemma ObjectExact(data: Value, query: string, opts: Options, m: Match)
    requires opts.exact
    ensures m in SearchInObject(data, query, opts)
        <==> && FlatEntry(m.path, m.value) in ExtractText(data, [], opts.excludeKeys)
             && m.value == query
             && m.score == Similarity(query, query)
    ensures Similarity(query, query) == if query == [] then NaN else Num(1.0)
  {
    ObjectExactOrder(data, query, opts);
    var entries := ExtractText(data, [], opts.excludeKeys);
    KeepEqualMembers(ScoreAll(entries, query), query);
    ScoredLeaf(entries, query, m);
  }

  // ---------------------------------------------------------------------
  // searchInArray, paths and agreement with flat mode

  /** A kept match is a scored leaf of the entries it was selected from. */
  lemma SelectedLeaf(entries: seq<FlatEntry>, query: string, opts: Options, m: Match)
    requires m in Select(entries, query, opts)
    ensures FlatEntry(m.path, m.value) in entries
    ensures m.score == Similarity(m.value, query)
    ensures if opts.exact then m.value == query else AtLeast(m.score, opts.threshold)
  {
    var scored := ScoreAll(entries, query);
    var kept := Keep(scored, query, opts);
    assert m in multiset(kept);
    if opts.exact {
      KeepEqualMembers(scored, query);
    } else {
      KeepAtLeastMembers(scored, opts.threshold);
    }
    ScoredLeaf(entries, query, m);
  }

  /** Conversely, every entry whose scored match passes the filter is kept. */
  lemma SelectIncludes(entries: seq<FlatEntry>, query: string, opts: Options, e: FlatEntry)
    requires e in entries && Passes(ScoreOne(e, query), query, opts)
    ensures ScoreOne(e, query) in Select(entries, query, opts)
  {
    var scored := ScoreAll(entries, query);
    var m := ScoreOne(e, query);
    ScoredLeaf(entries, query, m);
    if opts.exact {
      KeepEqualMembers(scored, query);
    } else {
      KeepAtLeastMembers(scored, opts.threshold);
    }
    assert m in multiset(Keep(scored, query, opts));
  }

  /** Each match of a group is a string leaf of that group's element: its path
      starts with `[index]` and resolves, from the root array, to its value,
      through no excluded key. */
  lemma ArrayMatchPaths(items: seq<Value>, query: string, opts: Options, g: Group, m: Match)
    requires WellFormed(Arr(items))
    requires g in SearchInArray(items, query, opts)
    requires m in g.matches
    ensures |m.path| > 0 && m.path[0] == Idx(g.index)
    ensures Resolve(Arr(items), m.path) == Some(Str(m.value))
    ensures AvoidsKeys(m.path, opts.excludeKeys)
  {
    ArrayGroups(items, query, opts);
    var k := g.index;
    var entries := ExtractText(items[k], [Idx(k)], opts.excludeKeys);
    SelectedLeaf(entries, query, opts, m);
    ExtractSound(items[k], [Idx(k)], opts.excludeKeys, FlatEntry(m.path, m.value));
    assert m.path[..1] == [Idx(k)];
    assert m.path == [Idx(k)] + m.path[1..];
  }

  /** The leaves of root elements `i..`, each flattened under `[k]`, concatenated. */
  function ElementLeaves(items: seq<Value>, i: nat, excludeKeys: seq<string>): seq<FlatEntry>
    requires i <= |items|
    decreases |items| - i
  {
    if i == |items| then []
    else ExtractText(items[i], [Idx(i)], excludeKeys) + ElementLeaves(items, i + 1, excludeKeys)
  }

  /** Flattening each root element under `[k]` and concatenating gives the
      flattening of the whole array from the empty path. */
  lemma {:induction false} ElementLeavesConcat(items: seq<Value>, i: nat, excludeKeys: seq<string>)
    requires i <= |items|
    ensures ElementLeaves(items, i, excludeKeys) == ExtractItems(Arr(items), i, [], excludeKeys)
    decreases |items| - i
  {
    if i < |items| {
      assert [] + [Idx(i)] == [Idx(i)];
      ElementLeavesConcat(items, i + 1, excludeKeys);
    }
  }

  /** All matches of all groups, in group order. */
  function AllMatches(groups: seq<Group>): seq<Match> {
    if |groups| == 0 then [] else groups[0].matches + AllMatches(groups[1..])
  }

  lemma {:induction false} AllMatchesAppend(a: seq<Group>, b: seq<Group>)
    ensures AllMatches(a + b) == AllMatches(a) + AllMatches(b)
  {
    if |a| > 0 {
      assert (a + b)[1..] == a[1..] + b;
      AllMatchesAppend(a[1..], b);
    } else {
      assert a + b == b;
    }
  }

  /** One root element contributes, through its optional group, exactly the
      kept scored leaves of that element. */
  lemma ElementContribution(items: seq<Value>, k: nat, query: string, opts: Options)
    requires k < |items|
    ensures multiset(AllMatches(DropNulls([ElementGroup(items, k, query, opts)])))
         == multiset(Keep(ScoreAll(ExtractText(items[k], [Idx(k)], opts.excludeKeys), query), query, opts))
  {
    var ms := ElementMatches(items, k, query, opts);
    var kept := Keep(ScoreAll(ExtractText(items[k], [Idx(k)], opts.excludeKeys), query), query, opts);
    assert multiset(ms) == multiset(kept);
    var o := ElementGroup(items, k, query, opts);
    assert [o][1..] == [];
    if |ms| > 0 {
      assert DropNulls([o]) == [o.value];
      assert [o.value][1..] == [];
      assert AllMatches([o.value]) == ms + AllMatches([]);
    } else {
      assert DropNulls([o]) == [];
    }
  }

  /** The kept scored leaves of each root element, flattened under `[k]`,
      before sorting. */
  function ElementKept(items: seq<Value>, query: string, opts: Options): (r: seq<seq<Match>>)
    ensures |r| == |items|
    ensures forall k :: 0 <= k < |r| ==>
      r[k] == Keep(ScoreAll(ExtractText(items[k], [Idx(k)], opts.excludeKeys), query), query, opts)
  {
    seq(|items|, k requires 0 <= k < |items| =>
      Keep(ScoreAll(ExtractText(items[k], [Idx(k)], opts.excludeKeys), query), query, opts))
  }

  function Concat(parts: seq<seq<Match>>): seq<Match> {
    if |parts| == 0 then [] else parts[0] + Concat(parts[1..])
  }

  /** If each optional group carries a rearrangement of its part, the groups
      left after dropping nulls carry a rearrangement of all parts together. */
  lemma {:induction false} DropNullsAgree(os: seq<Option<Group>>, parts: seq<seq<Match>>)
    requires |os| == |parts|
    requires forall k :: 0 <= k < |os| ==> multiset(AllMatches(DropNulls([os[k]]))) == multiset(parts[k])
    ensures multiset(AllMatches(DropNulls(os))) == multiset(Concat(parts))
  {
    if |os| > 0 {
      var os', parts' := os[1..], parts[1..];
      var head := DropNulls([os[0]]);
      assert multiset(AllMatches(DropNulls(os'))) == multiset(Concat(parts')) by {
        forall k | 0 <= k < |os'|
          ensures multiset(AllMatches(DropNulls([os'[k]]))) == multiset(parts'[k])
        {
          assert os'[k] == os[k + 1] && parts'[k] == parts[k + 1];
        }
        DropNullsAgree(os', parts');
      }
      assert AllMatches(DropNulls(os)) == AllMatches(head) + AllMatches(DropNulls(os')) by {
        var first := if os[0].Some? then [os[0].value] else [];
        assert [os[0]][1..] == [];
        assert head == first + DropNulls([os[0]][1..]) == first;
        assert DropNulls(os) == first + DropNulls(os');
        AllMatchesAppend(head, DropNulls(os'));
      }
      assert multiset(AllMatches(head)) == multiset(parts[0]);
      assert Concat(parts) == parts[0] + Concat(parts');
    }
  }

  lemma {:induction false} KeptAppend(a: seq<FlatEntry>, b: seq<FlatEntry>, query: string, opts: Options)
    ensures Keep(ScoreAll(a + b, query), query, opts)
         == Keep(ScoreAll(a, query), query, opts) + Keep(ScoreAll(b, query), query, opts)
  {
    ScoreAllAppend(a, b, query);
    KeepAppend(ScoreAll(a, query), ScoreAll(b, query), query, opts);
  }

  /** The per-element kept leaves, concatenated, are the kept leaves of the
      concatenated per-element flattenings. */
  lemma {:induction false} ConcatKept(items: seq<Value>, i: nat, query: string, opts: Options)
    requires i <= |items|
    ensures Concat(ElementKept(items, query, opts)[i..])
         == Keep(ScoreAll(ElementLeaves(items, i, opts.excludeKeys), query), query, opts)
    decreases |items| - i
  {
    var parts := ElementKept(items, query, opts);
    if i < |items| {
      ConcatKept(items, i + 1, query, opts);
      assert parts[i..][1..] == parts[i + 1..];
      KeptAppend(ExtractText(items[i], [Idx(i)], opts.excludeKeys), ElementLeaves(items, i + 1, opts.excludeKeys), query, opts);
    } else {
      assert parts[i..] == [];
    }
  }

  /** Tree mode and flat mode find the same matches on an array root: the
      groups' matches together are a rearrangement of the flat result. */
  lemma {:induction false} TreeFlatAgree(items: seq<Value>, query: string, opts: Options)
    ensures multiset(AllMatches(SearchInArray(items, query, opts)))
         == multiset(SearchInObject(Arr(items), query, opts))
  {
    var os := ElementResults(items, query, opts);
    var parts := ElementKept(items, query, opts);
    forall k | 0 <= k < |os|
      ensures multiset(AllMatches(DropNulls([os[k]]))) == multiset(parts[k])
    {
      ElementContribution(items, k, query, opts);
    }
    DropNullsAgree(os, parts);
    ConcatKept(items, 0, query, opts);
    assert parts[0..] == parts;
    ElementLeavesConcat(items, 0, opts.excludeKeys);
  }
}
