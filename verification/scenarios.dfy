/** The concrete documents of the repository's tests, and the paths the tests
    expect for the query `"level 3"` at threshold 0.3. */
module Scenarios {
  import opened Metric
  import opened Tree
  import opened Flatten
  import opened Selection
  import opened Search

  /** The innermost record shared by both test documents. */
  const SubChild: Value :=
    Obj([("id", Other), ("name", Str("Sub-Child 1.1.1")), ("value", Str("Data at level 3"))])

  /** The child record of `simpleNestedArray`. */
  const ArrayChild: Value :=
    Obj([("id", Other), ("name", Str("Child 1.1")), ("children", Arr([SubChild]))])

  /** The parent record of `simpleNestedArray`, nested through `children`
      arrays. */
  const ArrayParentFields: seq<(string, Value)> :=
    [("id", Other), ("name", Str("Parent 1")), ("children", Arr([ArrayChild]))]

  /** `simpleNestedArray`. */
  const NestedArray: seq<Value> := [Obj(ArrayParentFields)]

  /** The `child1` record of `simpleNestedObject`. */
  const ObjectChild: Value :=
    Obj([("id", Other), ("name", Str("Child 1.1")), ("children", Obj([("subChild1", SubChild)]))])

  /** The `parent` record of `simpleNestedObject`. */
  const ObjectParent: Value :=
    Obj([("id", Other), ("name", Str("Parent 1")), ("children", Obj([("child1", ObjectChild)]))])

  /** `simpleNestedObject`: the same records, nested through keyed objects. */
  const NestedObject: Value := Obj([("parent", ObjectParent)])

  const LevelThree: string := "Data at level 3"

  /** `"Data at level 3"` is at most the 8 deletions of `"Data at "` away
      from `"level 3"`, so it scores at least 7/15, above 0.3. */
  lemma LevelThreeScore()
    ensures AtLeast(Similarity(LevelThree, "level 3"), 0.3)
  {
    PrefixDeletion("Data at ", "level 3");
    assert "Data at " + "level 3" == LevelThree;
    assert Max(|LevelThree|, |"level 3"|) == 15;
  }

  /** A one-segment path renders as that segment. */
  lemma RenderOne(x: Segment)
    ensures Render([x]) == RenderSegment(x)
  {
    assert [x][1..] == [];
    assert RenderSegment(x) + "" == RenderSegment(x);
  }

  /** A four-segment path renders as its four segments, in order. */
  lemma RenderFour(a: Segment, b: Segment, c: Segment, d: Segment)
    ensures Render([a, b, c, d]) == RenderSegment(a) + RenderSegment(b) + RenderSegment(c) + RenderSegment(d)
  {
    RenderOne(a);
    RenderOne(b);
    RenderOne(c);
    RenderOne(d);
    RenderAppend([a], [b]);
    RenderAppend([a, b], [c]);
    RenderAppend([a, b, c], [d]);
    assert [a] + [b] == [a, b] && [a, b] + [c] == [a, b, c] && [a, b, c] + [d] == [a, b, c, d];
  }

  /** A six-segment path renders as its six segments, in order. */
  lemma RenderSix(a: Segment, b: Segment, c: Segment, d: Segment, e: Segment, f: Segment)
    ensures Render([a, b, c, d, e, f])
         == RenderSegment(a) + RenderSegment(b) + RenderSegment(c)
            + RenderSegment(d) + RenderSegment(e) + RenderSegment(f)
  {
    RenderFour(a, b, c, d);
    RenderOne(e);
    RenderOne(f);
    RenderAppend([a, b, c, d], [e]);
    RenderAppend([a, b, c, d, e], [f]);
    assert [a, b, c, d] + [e] == [a, b, c, d, e] && [a, b, c, d, e] + [f] == [a, b, c, d, e, f];
  }

  /** An array index renders as `[i]`; the only index here is 0. */
  lemma RenderZero()
    ensures RenderSegment(Idx(0)) == "[0]"
  {
    assert Decimal(0) == "0";
  }

  /** The segment path of the level-3 leaf below element 0 of the array. */
  const ArrayLeafPath: Path := [Idx(0), Key("children"), Idx(0), Key("children"), Idx(0), Key("value")]

  /** The tree-mode path the array test expects,
      `"[0].children[0].children[0].value"`, one rendered segment at a time. */
  lemma ArrayLeafRendered()
    ensures Render(ArrayLeafPath) == "[0]" + ".children" + "[0]" + ".children" + "[0]" + ".value"
  {
    RenderZero();
    assert RenderSegment(Key("children")) == ".children";
    assert RenderSegment(Key("value")) == ".value";
    RenderSix(Idx(0), Key("children"), Idx(0), Key("children"), Idx(0), Key("value"));
  }

  /** The parent record's `name` property, and the keyed lookups on the way
      down to the level-3 leaf. */
  lemma ArrayLookups()
    ensures Lookup(ArrayParentFields, "name") == Some(Str("Parent 1"))
    ensures Lookup(ArrayParentFields, "children") == Some(Arr([ArrayChild]))
    ensures Lookup(ArrayChild.fields, "children") == Some(Arr([SubChild]))
    ensures Lookup(SubChild.fields, "value") == Some(Str(LevelThree))
  {
    assert ArrayParentFields[1..][0].0 == "name";
    assert ArrayParentFields[1..][1..][0].0 == "children";
    assert ArrayChild.fields[1..][1..][0].0 == "children";
    assert SubChild.fields[1..][1..][0].0 == "value";
  }

  /** Below element 0, the level-3 leaf is at `.children[0].children[0].value`. */
  lemma ArrayLeafResolves()
    ensures Resolve(NestedArray[0], ArrayLeafPath[1..]) == Some(Str(LevelThree))
  {
    ArrayLookups();
    var p := ArrayLeafPath[1..];
    assert |p[1..][1..][1..][1..][1..]| == 0;
    ResolveKey(SubChild.fields, p[1..][1..][1..][1..], Str(LevelThree));
    ResolveIdx([SubChild], p[1..][1..][1..]);
    ResolveKey(ArrayChild.fields, p[1..][1..], Arr([SubChild]));
    ResolveIdx([ArrayChild], p[1..]);
    ResolveKey(ArrayParentFields, p, Arr([ArrayChild]));
  }

  /** The three `name` leaves are too far from `"level 3"`: their characters
      missing from the query alone (6 of 8, 7 of 9 and 13 of 15) keep each
      score below 0.3. */
  lemma NameScores()
    ensures !AtLeast(Similarity("Parent 1", "level 3"), 0.3)
    ensures !AtLeast(Similarity("Child 1.1", "level 3"), 0.3)
    ensures !AtLeast(Similarity("Sub-Child 1.1.1", "level 3"), 0.3)
  {
    ParentUnmatched();
    BelowThreshold("Parent 1", "level 3");
    ChildUnmatched();
    BelowThreshold("Child 1.1", "level 3");
    SubChildUnmatched();
    BelowThreshold("Sub-Child 1.1.1", "level 3");
  }

  /** All of `"Parent 1"` but `e` and the space is missing from `"level 3"`. */
  lemma ParentUnmatched()
    ensures Unmatched("Parent 1", "level 3", |"Parent 1"|) == 6
  {
    assert |"Parent 1"| == 8;
    assert Unmatched("Parent 1", "level 3", 4) == 3;
  }

  /** All of `"Child 1.1"` but `l` and the space is missing from `"level 3"`. */
  lemma ChildUnmatched()
    ensures Unmatched("Child 1.1", "level 3", |"Child 1.1"|) == 7
  {
    assert |"Child 1.1"| == 9;
    assert Unmatched("Child 1.1", "level 3", 4) == 3;
  }

  /** All of `"Sub-Child 1.1.1"` but `l` and the space is missing from
      `"level 3"`, counted four characters at a time. */
  lemma SubChildUnmatched()
    ensures Unmatched("Sub-Child 1.1.1", "level 3", |"Sub-Child 1.1.1"|) == 13
  {
    assert |"Sub-Child 1.1.1"| == 15;
    SubChildFirstHalf();
    assert Unmatched("Sub-Child 1.1.1", "level 3", 12) == 10;
  }

  /** `"Sub-Chil"`: all but the `l` is missing from `"level 3"`. */
  lemma SubChildFirstHalf()
    ensures Unmatched("Sub-Child 1.1.1", "level 3", 8) == 7
  {
    assert Unmatched("Sub-Child 1.1.1", "level 3", 4) == 4;
  }

  /** When every entry but the last falls below the threshold and the last
      reaches it, the fuzzy selection is the last entry alone. */
  lemma SelectsOnlyLast(names: seq<FlatEntry>, leaf: FlatEntry, query: string, opts: Options)
    requires !opts.exact
    requires forall i :: 0 <= i < |names| ==> !AtLeast(Similarity(names[i].value, query), opts.threshold)
    requires AtLeast(Similarity(leaf.value, query), opts.threshold)
    ensures Select(names + [leaf], query, opts) == [ScoreOne(leaf, query)]
  {
    var x := ScoreOne(leaf, query);
    var ms := ScoreAll(names, query);
    assert ScoreAll(names + [leaf], query) == ms + [x];
    KeepAtLeastAppend(ms, [x], opts.threshold);
    KeepsNone(ms, opts.threshold);
    assert KeepAtLeast([x], opts.threshold) == [x];
    assert SortDesc([x]) == [x];
  }

  /** A record whose first entry is a number (the `id` of every record
      here) flattens as its remaining entries. */
  lemma SkipsId(v: Value, p: Path)
    requires v.Obj? && |v.fields| > 0 && v.fields[0].1 == Other
    ensures ExtractText(v, p, []) == ExtractFields(v, 1, p, [])
  {
    assert ExtractText(v.fields[0].1, p + [Key(v.fields[0].0)], []) == [];
  }

  /** Nothing is kept when nothing reaches the threshold. */
  lemma {:induction false} KeepsNone(ms: seq<Match>, threshold: real)
    requires forall i :: 0 <= i < |ms| ==> !AtLeast(ms[i].score, threshold)
    ensures KeepAtLeast(ms, threshold) == []
  {
    if |ms| > 0 {
      KeepsNone(ms[1..], threshold);
    }
  }

  /** The two string leaves of the innermost record, below `p`. */
  lemma SubChildLeaves(p: Path)
    ensures ExtractText(SubChild, p, [])
         == [FlatEntry(p + [Key("name")], "Sub-Child 1.1.1"), FlatEntry(p + [Key("value")], LevelThree)]
  {
    assert ExtractFields(SubChild, 3, p, []) == [];
    assert ExtractFields(SubChild, 2, p, []) == [FlatEntry(p + [Key("value")], LevelThree)];
    assert ExtractFields(SubChild, 1, p, [])
        == [FlatEntry(p + [Key("name")], "Sub-Child 1.1.1"), FlatEntry(p + [Key("value")], LevelThree)];
  }

  /** The array document's child record below `q`: its name, then the
      innermost record under `children[0]`. */
  lemma ArrayChildLeaves(q: Path)
    ensures ExtractText(ArrayChild, q, [])
         == [FlatEntry(q + [Key("name")], "Child 1.1")]
            + ExtractText(SubChild, q + [Key("children"), Idx(0)], [])
  {
    var below := q + [Key("children")];
    assert below + [Idx(0)] == q + [Key("children"), Idx(0)];
    assert ExtractItems(Arr([SubChild]), 1, below, []) == [];
    assert ExtractText(Arr([SubChild]), below, []) == ExtractText(SubChild, below + [Idx(0)], []);
    assert ExtractFields(ArrayChild, 3, q, []) == [];
    assert ExtractFields(ArrayChild, 2, q, []) == ExtractText(SubChild, below + [Idx(0)], []);
    assert ExtractFields(ArrayChild, 1, q, [])
        == [FlatEntry(q + [Key("name")], "Child 1.1")] + ExtractFields(ArrayChild, 2, q, []);
    SkipsId(ArrayChild, q);
  }

  /** Root element 0 of the array document flattens to its three names and
      the level-3 value, outermost first. */
  lemma ArrayElementLeaves()
    ensures ExtractText(NestedArray[0], [Idx(0)], [])
         == [FlatEntry([Idx(0), Key("name")], "Parent 1"),
             FlatEntry([Idx(0), Key("children"), Idx(0), Key("name")], "Child 1.1"),
             FlatEntry([Idx(0), Key("children"), Idx(0), Key("children"), Idx(0), Key("name")], "Sub-Child 1.1.1")]
            + [FlatEntry(ArrayLeafPath, LevelThree)]
  {
    var p := [Idx(0)];
    var q := p + [Key("children"), Idx(0)];
    var r := q + [Key("children"), Idx(0)];
    SubChildLeaves(r);
    ArrayChildLeaves(q);
    var below := p + [Key("children")];
    assert below + [Idx(0)] == q;
    assert ExtractItems(Arr([ArrayChild]), 1, below, []) == [];
    assert ExtractText(Arr([ArrayChild]), below, []) == ExtractText(ArrayChild, q, []);
    var v := NestedArray[0];
    assert ExtractFields(v, 3, p, []) == [];
    assert ExtractFields(v, 2, p, []) == ExtractText(ArrayChild, q, []);
    assert ExtractFields(v, 1, p, [])
        == [FlatEntry(p + [Key("name")], "Parent 1")] + ExtractText(ArrayChild, q, []);
    SkipsId(v, p);
    assert p + [Key("name")] == [Idx(0), Key("name")];
    assert q + [Key("name")] == [Idx(0), Key("children"), Idx(0), Key("name")];
    assert r + [Key("name")] == [Idx(0), Key("children"), Idx(0), Key("children"), Idx(0), Key("name")];
    assert r + [Key("value")] == ArrayLeafPath;
    assert ExtractText(v, p, [])
        == [FlatEntry(p + [Key("name")], "Parent 1")]
           + [FlatEntry(q + [Key("name")], "Child 1.1")]
           + [FlatEntry(r + [Key("name")], "Sub-Child 1.1.1"), FlatEntry(r + [Key("value")], LevelThree)];
  }

  /** The level-3 leaf of element 0, scored against `"level 3"`. */
  const ArrayLeafMatch: Match := Match(ArrayLeafPath, LevelThree, Similarity(LevelThree, "level 3"))

  /** Element 0 of the array document matches `"level 3"` at threshold 0.3 in
      its level-3 leaf alone: every `name` leaf scores below 0.3. */
  lemma ArrayElementMatches()
    ensures ElementMatches(NestedArray, 0, "level 3", Options(0.3, [], false)) == [ArrayLeafMatch]
  {
    ArrayElementLeaves();
    NameScores();
    LevelThreeScore();
    SelectsOnlyLast(
      [FlatEntry([Idx(0), Key("name")], "Parent 1"),
       FlatEntry([Idx(0), Key("children"), Idx(0), Key("name")], "Child 1.1"),
       FlatEntry([Idx(0), Key("children"), Idx(0), Key("children"), Idx(0), Key("name")], "Sub-Child 1.1.1")],
      FlatEntry(ArrayLeafPath, LevelThree), "level 3", Options(0.3, [], false));
  }

  /** Tree mode over `simpleNestedArray`: one group, for element 0, whose name
      is `"Parent 1"` and whose only match is the level-3 leaf. */
  lemma NestedArrayScenario()
    ensures Lookup(ArrayParentFields, "name") == Some(Str("Parent 1"))
    ensures SearchInArray(NestedArray, "level 3", Options(0.3, [], false))
         == [Group(0, NestedArray[0], [ArrayLeafMatch])]
  {
    ArrayLookups();
    ArrayElementMatches();
    var os := ElementResults(NestedArray, "level 3", Options(0.3, [], false));
    assert |os| == 1 && os[0] == Some(Group(0, NestedArray[0], [ArrayLeafMatch]));
    assert DropNulls(os) == [os[0].value] + DropNulls(os[1..]);
  }

  /** The segment path of the level-3 leaf of the object document. */
  const ObjectLeafPath: Path :=
    [Key("parent"), Key("children"), Key("child1"), Key("children"), Key("subChild1"), Key("value")]

  /** The flat-mode path the object test expects,
      `".parent.children.child1.children.subChild1.value"`. */
  lemma ObjectLeafRendered()
    ensures Render(ObjectLeafPath)
         == ".parent" + ".children" + ".child1" + ".children" + ".subChild1" + ".value"
  {
    assert RenderSegment(Key("parent")) == ".parent";
    assert RenderSegment(Key("children")) == ".children";
    assert RenderSegment(Key("child1")) == ".child1";
    assert RenderSegment(Key("subChild1")) == ".subChild1";
    assert RenderSegment(Key("value")) == ".value";
    RenderSix(Key("parent"), Key("children"), Key("child1"), Key("children"), Key("subChild1"), Key("value"));
  }

  /** A key step of a path: follow the entry the key looks up. */
  lemma ResolveKey(fields: seq<(string, Value)>, p: Path, c: Value)
    requires |p| > 0 && p[0].Key? && Lookup(fields, p[0].k) == Some(c)
    ensures Resolve(Obj(fields), p) == Resolve(c, p[1..])
  {
  }

  /** An index step of a path: follow the element at that position. */
  lemma ResolveIdx(items: seq<Value>, p: Path)
    requires |p| > 0 && p[0].Idx? && p[0].i < |items|
    ensures Resolve(Arr(items), p) == Resolve(items[p[0].i], p[1..])
  {
  }

  /** The three lookups by key among several entries on the way down. */
  lemma ObjectLookups()
    ensures Lookup(SubChild.fields, "value") == Some(Str(LevelThree))
    ensures Lookup(ObjectChild.fields, "children") == Some(Obj([("subChild1", SubChild)]))
    ensures Lookup(ObjectParent.fields, "children") == Some(Obj([("child1", ObjectChild)]))
  {
    assert SubChild.fields[1..][1..][0].0 == "value";
    assert ObjectChild.fields[1..][1..][0].0 == "children";
    assert ObjectParent.fields[1..][1..][0].0 == "children";
  }

  /** The level-3 leaf is where its path leads, one lookup per level. */
  lemma ObjectLeafResolves()
    ensures Resolve(NestedObject, ObjectLeafPath) == Some(Str(LevelThree))
  {
    ObjectLookups();
    var p := ObjectLeafPath;
    assert |p[1..][1..][1..][1..][1..][1..]| == 0;
    ResolveKey(SubChild.fields, p[1..][1..][1..][1..][1..], Str(LevelThree));
    ResolveKey([("subChild1", SubChild)], p[1..][1..][1..][1..], SubChild);
    ResolveKey(ObjectChild.fields, p[1..][1..][1..], Obj([("subChild1", SubChild)]));
    ResolveKey([("child1", ObjectChild)], p[1..][1..], ObjectChild);
    ResolveKey(ObjectParent.fields, p[1..], Obj([("child1", ObjectChild)]));
    ResolveKey(NestedObject.fields, p, ObjectParent);
  }

  /** The object document's child record below `q`: its name, then the
      innermost record under `children.subChild1`. */
  lemma ObjectChildLeaves(q: Path)
    ensures ExtractText(ObjectChild, q, [])
         == [FlatEntry(q + [Key("name")], "Child 1.1")]
            + ExtractText(SubChild, q + [Key("children"), Key("subChild1")], [])
  {
    var below := q + [Key("children")];
    var inner := Obj([("subChild1", SubChild)]);
    assert below + [Key("subChild1")] == q + [Key("children"), Key("subChild1")];
    assert ExtractFields(inner, 1, below, []) == [];
    assert ExtractText(inner, below, []) == ExtractText(SubChild, below + [Key("subChild1")], []);
    assert ExtractFields(ObjectChild, 3, q, []) == [];
    assert ExtractFields(ObjectChild, 2, q, []) == ExtractText(SubChild, below + [Key("subChild1")], []);
    assert ExtractFields(ObjectChild, 1, q, [])
        == [FlatEntry(q + [Key("name")], "Child 1.1")] + ExtractFields(ObjectChild, 2, q, []);
    SkipsId(ObjectChild, q);
  }

  /** The object document flattens to its three names and the level-3 value,
      outermost first. */
  lemma ObjectLeaves()
    ensures ExtractText(NestedObject, [], [])
         == [FlatEntry([Key("parent"), Key("name")], "Parent 1"),
             FlatEntry([Key("parent"), Key("children"), Key("child1"), Key("name")], "Child 1.1"),
             FlatEntry([Key("parent"), Key("children"), Key("child1"), Key("children"), Key("subChild1"), Key("name")],
                       "Sub-Child 1.1.1")]
            + [FlatEntry(ObjectLeafPath, LevelThree)]
  {
    var p := [Key("parent")];
    var q := p + [Key("children"), Key("child1")];
    var r := q + [Key("children"), Key("subChild1")];
    SubChildLeaves(r);
    ObjectChildLeaves(q);
    var below := p + [Key("children")];
    var inner := Obj([("child1", ObjectChild)]);
    assert below + [Key("child1")] == q;
    assert ExtractFields(inner, 1, below, []) == [];
    assert ExtractText(inner, below, []) == ExtractText(ObjectChild, q, []);
    assert ExtractFields(ObjectParent, 3, p, []) == [];
    assert ExtractFields(ObjectParent, 2, p, []) == ExtractText(ObjectChild, q, []);
    assert ExtractFields(ObjectParent, 1, p, [])
        == [FlatEntry(p + [Key("name")], "Parent 1")] + ExtractText(ObjectChild, q, []);
    SkipsId(ObjectParent, p);
    assert [] + [Key("parent")] == p;
    assert ExtractFields(NestedObject, 1, [], []) == [];
    assert ExtractFields(NestedObject, 0, [], [])
        == ExtractText(ObjectParent, p, []) + ExtractFields(NestedObject, 1, [], []);
    assert p + [Key("name")] == [Key("parent"), Key("name")];
    assert q + [Key("name")] == [Key("parent"), Key("children"), Key("child1"), Key("name")];
    assert r + [Key("name")]
        == [Key("parent"), Key("children"), Key("child1"), Key("children"), Key("subChild1"), Key("name")];
    assert r + [Key("value")] == ObjectLeafPath;
    assert ExtractText(ObjectParent, p, [])
        == [FlatEntry(p + [Key("name")], "Parent 1")]
           + [FlatEntry(q + [Key("name")], "Child 1.1")]
           + [FlatEntry(r + [Key("name")], "Sub-Child 1.1.1"), FlatEntry(r + [Key("value")], LevelThree)];
  }

  /** Flat mode over `simpleNestedObject`: the level-3 leaf, with its own
      score, is the whole result; every `name` leaf scores below 0.3. */
  lemma NestedObjectScenario()
    ensures SearchInObject(NestedObject, "level 3", Options(0.3, [], false))
         == [Match(ObjectLeafPath, LevelThree, Similarity(LevelThree, "level 3"))]
  {
    ObjectLeaves();
    NameScores();
    LevelThreeScore();
    SelectsOnlyLast(
      [FlatEntry([Key("parent"), Key("name")], "Parent 1"),
       FlatEntry([Key("parent"), Key("children"), Key("child1"), Key("name")], "Child 1.1"),
       FlatEntry([Key("parent"), Key("children"), Key("child1"), Key("children"), Key("subChild1"), Key("name")],
                 "Sub-Child 1.1.1")],
      FlatEntry(ObjectLeafPath, LevelThree), "level 3", Options(0.3, [], false));
  }

  // ---------------------------------------------------------------------
  // A worked example: `John Doe` two levels down

  const JohnRecord: Value := Obj([("name", Str("John Doe"))])
  const LevelTwo: Value := Obj([("name", Str("Level 2 - A")), ("child", JohnRecord)])

  /** `{name: "Root Level", children: [{name: "Level 2 - A", child: {name: "John Doe"}}]}`. */
  const RootDoc: Value := Obj([("name", Str("Root Level")), ("children", Arr([LevelTwo]))])

  /** `.children[0].child.name`. */
  const JohnPath: Path := [Key("children"), Idx(0), Key("child"), Key("name")]

  const RootEntry: FlatEntry := FlatEntry([Key("name")], "Root Level")
  const LevelTwoEntry: FlatEntry := FlatEntry([Key("children"), Idx(0), Key("name")], "Level 2 - A")
  const JohnEntry: FlatEntry := FlatEntry(JohnPath, "John Doe")

  /** The leaves below `children[0]`, with and without `child` excluded. */
  lemma LevelTwoLeaves(excludeKeys: seq<string>)
    requires excludeKeys == [] || excludeKeys == ["child"]
    ensures ExtractText(LevelTwo, [Key("children"), Idx(0)], excludeKeys)
         == [LevelTwoEntry] + (if excludeKeys == [] then [JohnEntry] else [])
  {
    var here := [Key("children"), Idx(0)];
    assert here + [Key("child")] + [Key("name")] == JohnPath;
    assert here + [Key("name")] == LevelTwoEntry.path;
    assert "name" !in excludeKeys;
    assert ExtractFields(JohnRecord, 1, here + [Key("child")], excludeKeys) == [];
    assert ExtractText(Str("John Doe"), here + [Key("child")] + [Key("name")], excludeKeys) == [JohnEntry];
    assert ExtractText(JohnRecord, here + [Key("child")], excludeKeys) == [JohnEntry];
    assert ExtractFields(LevelTwo, 2, here, excludeKeys) == [];
    assert ExtractFields(LevelTwo, 1, here, excludeKeys) == if excludeKeys == [] then [JohnEntry] else [];
    assert ExtractText(Str("Level 2 - A"), here + [Key("name")], excludeKeys) == [LevelTwoEntry];
  }

  /** The whole document flattens to its three leaves in document order, or to
      the first two when `child` is excluded. */
  lemma RootDocLeaves(excludeKeys: seq<string>)
    requires excludeKeys == [] || excludeKeys == ["child"]
    ensures ExtractText(RootDoc, [], excludeKeys)
         == [RootEntry, LevelTwoEntry] + (if excludeKeys == [] then [JohnEntry] else [])
  {
    LevelTwoLeaves(excludeKeys);
    assert "name" !in excludeKeys && "children" !in excludeKeys;
    var below := ExtractText(LevelTwo, [Key("children"), Idx(0)], excludeKeys);
    assert [] + [Key("children")] == [Key("children")] && [] + [Key("name")] == [Key("name")];
    assert ExtractItems(Arr([LevelTwo]), 1, [Key("children")], excludeKeys) == [];
    assert [Key("children")] + [Idx(0)] == [Key("children"), Idx(0)];
    assert ExtractText(Arr([LevelTwo]), [Key("children")], excludeKeys) == below;
    assert ExtractFields(RootDoc, 2, [], excludeKeys) == [];
    assert ExtractFields(RootDoc, 1, [], excludeKeys) == below;
    assert ExtractText(Str("Root Level"), [Key("name")], excludeKeys) == [RootEntry];
  }

  /** The exact leaf scores 1 and passes threshold 0.2. */
  lemma JohnSelected()
    ensures Match(JohnPath, "John Doe", Num(1.0)) in SearchInObject(RootDoc, "John Doe", Options(0.2, [], false))
  {
    RootDocLeaves([]);
    var entries := ExtractText(RootDoc, [], []);
    assert JohnEntry in entries;
    SelectIncludes(entries, "John Doe", Options(0.2, [], false), JohnEntry);
  }

  /** The result is non-empty and, being ranked, starts with a score of at
      least the exact leaf's 1. */
  lemma RootDocTopScore()
    ensures |SearchInObject(RootDoc, "John Doe", Options(0.2, [], false))| > 0
    ensures AtLeast(SearchInObject(RootDoc, "John Doe", Options(0.2, [], false))[0].score, 1.0)
  {
    var opts := Options(0.2, [], false);
    var r := SearchInObject(RootDoc, "John Doe", opts);
    JohnSelected();
    ObjectFuzzyRanked(RootDoc, "John Doe", opts, NaN);
    var k :| 0 <= k < |r| && r[k] == Match(JohnPath, "John Doe", Num(1.0));
    if k > 0 {
      assert r[k].score.v <= r[0].score.v;
    }
  }

  /** Only the exact leaf can score 1. */
  lemma RootDocOnlyExact(m: Match)
    requires m in SearchInObject(RootDoc, "John Doe", Options(0.2, [], false))
    requires AtLeast(m.score, 1.0)
    ensures m == Match(JohnPath, "John Doe", Num(1.0))
  {
    RootDocLeaves([]);
    SelectedLeaf(ExtractText(RootDoc, [], []), "John Doe", Options(0.2, [], false), m);
    assert m.value == "John Doe";
  }

  /** Searching for `"John Doe"` at threshold 0.2 ranks the exact leaf first,
      with score 1, at `.children[0].child.name`. */
  lemma RootDocTopMatch()
    ensures |SearchInObject(RootDoc, "John Doe", Options(0.2, [], false))| > 0
    ensures SearchInObject(RootDoc, "John Doe", Options(0.2, [], false))[0] == Match(JohnPath, "John Doe", Num(1.0))
    ensures Render(JohnPath) == ".children" + "[0]" + ".child" + ".name"
  {
    RootDocTopScore();
    RootDocOnlyExact(SearchInObject(RootDoc, "John Doe", Options(0.2, [], false))[0]);
    JohnPathRendered();
  }

  lemma JohnPathRendered()
    ensures Render(JohnPath) == ".children" + "[0]" + ".child" + ".name"
  {
    RenderZero();
    assert RenderSegment(Key("children")) == ".children";
    assert RenderSegment(Key("child")) == ".child";
    assert RenderSegment(Key("name")) == ".name";
    RenderFour(Key("children"), Idx(0), Key("child"), Key("name"));
  }

  /** Excluding `child` removes the `John Doe` leaf whatever the threshold:
      no result has its path or its value. */
  lemma RootDocExcluded(threshold: real, m: Match)
    requires m in SearchInObject(RootDoc, "John Doe", Options(threshold, ["child"], false))
    ensures m.path != JohnPath && m.value != "John Doe"
  {
    RootDocLeaves(["child"]);
    SelectedLeaf(ExtractText(RootDoc, [], ["child"]), "John Doe", Options(threshold, ["child"], false), m);
  }

  // ---------------------------------------------------------------------
  // A worked tree-mode example: an element with no match

  /** `[{name: "x"}, {name: "John Doe"}]`. */
  const TwoPeople: seq<Value> := [Obj([("name", Str("x"))]), Obj([("name", Str("John Doe"))])]

  const HighThreshold: Options := Options(0.9, [], false)

  /** `"x"` is at least 7 edits from `"John Doe"`, so it scores at most 1/8. */
  lemma FarFromJohn()
    ensures !AtLeast(Similarity("x", "John Doe"), 0.9)
  {
    DistanceBounds("x", "John Doe");
    assert Max(|"x"|, |"John Doe"|) == 8;
  }

  /** The one leaf of element `k`, `[k].name`. */
  lemma PersonLeaves(k: nat)
    requires k < |TwoPeople|
    ensures ExtractText(TwoPeople[k], [Idx(k)], [])
         == [FlatEntry([Idx(k), Key("name")], TwoPeople[k].fields[0].1.s)]
  {
    var v := TwoPeople[k];
    assert v.fields[0].0 == "name" && "name" !in [];
    assert [Idx(k)] + [Key("name")] == [Idx(k), Key("name")];
    assert ExtractFields(v, 1, [Idx(k)], []) == [];
    assert ExtractFields(v, 0, [Idx(k)], []) == ExtractText(v.fields[0].1, [Idx(k), Key("name")], []);
  }

  /** Element 0 has no match at threshold 0.9; element 1 matches itself with
      score 1. */
  lemma PersonMatches()
    ensures ElementMatches(TwoPeople, 0, "John Doe", HighThreshold) == []
    ensures ElementMatches(TwoPeople, 1, "John Doe", HighThreshold)
         == [Match([Idx(1), Key("name")], "John Doe", Num(1.0))]
  {
    PersonLeaves(0);
    PersonLeaves(1);
    FarFromJohn();
    var x := Match([Idx(0), Key("name")], "x", Similarity("x", "John Doe"));
    var john := Match([Idx(1), Key("name")], "John Doe", Num(1.0));
    assert ScoreAll([FlatEntry([Idx(0), Key("name")], "x")], "John Doe") == [x];
    assert KeepAtLeast([x], 0.9) == [];
    assert ScoreAll([FlatEntry([Idx(1), Key("name")], "John Doe")], "John Doe") == [john];
    assert KeepAtLeast([john], 0.9) == [john];
    assert SortDesc([john]) == [john];
  }

  /** Tree mode returns only the group for index 1; index 0 contributes
      nothing. */
  lemma TwoPeopleTree()
    ensures SearchInArray(TwoPeople, "John Doe", HighThreshold)
         == [Group(1, TwoPeople[1], [Match([Idx(1), Key("name")], "John Doe", Num(1.0))])]
  {
    PersonMatches();
    var os := ElementResults(TwoPeople, "John Doe", HighThreshold);
    assert os[0] == None;
    assert os[1] == Some(Group(1, TwoPeople[1], [Match([Idx(1), Key("name")], "John Doe", Num(1.0))]));
    assert os[1..][1..] == [];
  }
}
