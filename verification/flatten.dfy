/** `extractText`: the depth-first flattening of a value into (path, string)
    pairs, skipping excluded object keys together with their subtrees. */
module Flatten {
  import opened Tree

  /** One string leaf found by the traversal, with its full path. */
  datatype FlatEntry = FlatEntry(path: Path, value: string)

  /** The leaves under `v`, whose own path is `path`: array elements in index
      order, object entries in entry order with excluded keys skipped, a string
      as itself, anything else as nothing. */
  function ExtractText(v: Value, path: Path, excludeKeys: seq<string>): seq<FlatEntry>
    decreases v, 1
  {
    match v
    case Arr(_) => ExtractItems(v, 0, path, excludeKeys)
    case Obj(_) => ExtractFields(v, 0, path, excludeKeys)
    case Str(s) => [FlatEntry(path, s)]
    case Other => []
  }

  /** The leaves of array elements `i..` of `v`, each under `path[i]`. */
  function ExtractItems(v: Value, i: nat, path: Path, excludeKeys: seq<string>): seq<FlatEntry>
    requires v.Arr? && i <= |v.items|
    decreases v, 0, |v.items| - i
  {
    if i == |v.items| then []
    else ExtractText(v.items[i], path + [Idx(i)], excludeKeys) + ExtractItems(v, i + 1, path, excludeKeys)
  }

  /** The leaves of object entries `i..` of `v`, each under `path.key`, with
      the entries whose key is excluded left out entirely. */
  function ExtractFields(v: Value, i: nat, path: Path, excludeKeys: seq<string>): seq<FlatEntry>
    requires v.Obj? && i <= |v.fields|
    decreases v, 0, |v.fields| - i
  {
    if i == |v.fields| then []
    else
      var (key, child) := v.fields[i];
      (if key in excludeKeys then [] else ExtractText(child, path + [Key(key)], excludeKeys))
      + ExtractFields(v, i + 1, path, excludeKeys)
  }

  /** `e` is a string leaf of `v` seen from `path`: its path extends `path`,
      the remainder leads to the string `e.value`, and never through an
      excluded key. */
  predicate Reaches(v: Value, path: Path, excludeKeys: seq<string>, e: FlatEntry) {
    && |path| <= |e.path|
    && e.path[..|path|] == path
    && Resolve(v, e.path[|path|..]) == Some(Str(e.value))
    && AvoidsKeys(e.path[|path|..], excludeKeys)
  }

  /** Every emitted entry is a string leaf reached without crossing an
      excluded key, and its path resolves back to it. */
  lemma {:induction false} ExtractSound(v: Value, path: Path, excludeKeys: seq<string>, e: FlatEntry)
    requires WellFormed(v)
    requires e in ExtractText(v, path, excludeKeys)
    ensures Reaches(v, path, excludeKeys, e)
    decreases v, 1
  {
    match v
    case Arr(_) => ItemsSound(v, 0, path, excludeKeys, e);
    case Obj(_) => FieldsSound(v, 0, path, excludeKeys, e);
    case Str(s) =>
      assert e.path[|path|..] == [];
    case Other =>
  }

  lemma {:induction false} ItemsSound(v: Value, i: nat, path: Path, excludeKeys: seq<string>, e: FlatEntry)
    requires v.Arr? && i <= |v.items| && WellFormed(v)
    requires e in ExtractItems(v, i, path, excludeKeys)
    ensures Reaches(v, path, excludeKeys, e)
    decreases v, 0, |v.items| - i
  {
    var here := ExtractText(v.items[i], path + [Idx(i)], excludeKeys);
    if e in here {
      ExtractSound(v.items[i], path + [Idx(i)], excludeKeys, e);
      StepDown(v, path, Idx(i), v.items[i], excludeKeys, e);
    } else {
      ItemsSound(v, i + 1, path, excludeKeys, e);
    }
  }

  lemma {:induction false} FieldsSound(v: Value, i: nat, path: Path, excludeKeys: seq<string>, e: FlatEntry)
    requires v.Obj? && i <= |v.fields| && WellFormed(v)
    requires e in ExtractFields(v, i, path, excludeKeys)
    ensures Reaches(v, path, excludeKeys, e)
    decreases v, 0, |v.fields| - i
  {
    var (key, child) := v.fields[i];
    if key !in excludeKeys && e in ExtractText(child, path + [Key(key)], excludeKeys) {
      ExtractSound(child, path + [Key(key)], excludeKeys, e);
      KeyIndexDistinct(v.fields, i);
      StepDown(v, path, Key(key), child, excludeKeys, e);
    } else {
      FieldsSound(v, i + 1, path, excludeKeys, e);
    }
  }

  /** A leaf reached from the child at segment `seg` is reached from the parent. */
  lemma StepDown(v: Value, path: Path, seg: Segment, child: Value, excludeKeys: seq<string>, e: FlatEntry)
    requires Resolve(v, [seg]) == Some(child)
    requires !(seg.Key? && seg.k in excludeKeys)
    requires Reaches(child, path + [seg], excludeKeys, e)
    ensures Reaches(v, path, excludeKeys, e)
  {
    var rel := e.path[|path|..];
    assert e.path[..|path| + 1] == path + [seg];
    assert e.path[..|path|] == path;
    assert rel[0] == seg;
    assert rel[1..] == e.path[|path| + 1..];
    assert [seg][1..] == [];
    assert Resolve(v, rel) == Resolve(child, rel[1..]);
    forall n | 0 <= n < |rel|
      ensures !(rel[n].Key? && rel[n].k in excludeKeys)
    {
      if n > 0 {
        assert rel[n] == e.path[|path| + 1..][n - 1];
      }
    }
  }

  /** Every string leaf reached without crossing an excluded key is emitted,
      with its full path. */
  lemma {:induction false} ExtractComplete(v: Value, path: Path, excludeKeys: seq<string>, rel: Path, s: string)
    requires Resolve(v, rel) == Some(Str(s))
    requires AvoidsKeys(rel, excludeKeys)
    ensures FlatEntry(path + rel, s) in ExtractText(v, path, excludeKeys)
    decreases |rel|
  {
    if |rel| == 0 {
      assert path + rel == path;
    } else {
      assert AvoidsKeys(rel[1..], excludeKeys) by {
        forall n | 0 <= n < |rel| - 1
          ensures !(rel[1..][n].Key? && rel[1..][n].k in excludeKeys)
        {
          assert rel[1..][n] == rel[n + 1];
        }
      }
      assert path + rel == (path + [rel[0]]) + rel[1..];
      match (rel[0], v)
      case (Idx(i), Arr(items)) =>
        ExtractComplete(items[i], path + [Idx(i)], excludeKeys, rel[1..], s);
        ItemsInclude(v, 0, i, path, excludeKeys, FlatEntry(path + rel, s));
      case (Key(k), Obj(fields)) =>
        var j := KeyIndex(fields, k);
        ExtractComplete(fields[j].1, path + [Key(k)], excludeKeys, rel[1..], s);
        FieldsInclude(v, 0, j, path, excludeKeys, FlatEntry(path + rel, s));
    }
  }

  lemma {:induction false} ItemsInclude(v: Value, i: nat, k: nat, path: Path, excludeKeys: seq<string>, e: FlatEntry)
    requires v.Arr? && i <= k < |v.items|
    requires e in ExtractText(v.items[k], path + [Idx(k)], excludeKeys)
    ensures e in ExtractItems(v, i, path, excludeKeys)
    decreases k - i
  {
    if i < k {
      ItemsInclude(v, i + 1, k, path, excludeKeys, e);
    }
  }

  lemma {:induction false} FieldsInclude(v: Value, i: nat, k: nat, path: Path, excludeKeys: seq<string>, e: FlatEntry)
    requires v.Obj? && i <= k < |v.fields|
    requires v.fields[k].0 !in excludeKeys
    requires e in ExtractText(v.fields[k].1, path + [Key(v.fields[k].0)], excludeKeys)
    ensures e in ExtractFields(v, i, path, excludeKeys)
    decreases k - i
  {
    if i < k {
      FieldsInclude(v, i + 1, k, path, excludeKeys, e);
    }
  }

  /** Every leaf of elements `k..` leaves `path` through an index `>= k`. */
  lemma {:induction false} ItemsFirstSegment(v: Value, k: nat, path: Path, excludeKeys: seq<string>, e: FlatEntry)
    requires v.Arr? && k <= |v.items| && WellFormed(v)
    requires e in ExtractItems(v, k, path, excludeKeys)
    ensures |path| < |e.path| && e.path[|path|].Idx? && k <= e.path[|path|].i < |v.items|
    decreases |v.items| - k
  {
    if e in ExtractText(v.items[k], path + [Idx(k)], excludeKeys) {
      ExtractSound(v.items[k], path + [Idx(k)], excludeKeys, e);
      assert e.path[..|path| + 1][|path|] == Idx(k);
    } else {
      ItemsFirstSegment(v, k + 1, path, excludeKeys, e);
    }
  }

  /** Every leaf of entries `k..` leaves `path` through an entry at position `>= k`. */
  lemma {:induction false} FieldsFirstSegment(v: Value, k: nat, path: Path, excludeKeys: seq<string>, e: FlatEntry)
    requires v.Obj? && k <= |v.fields| && WellFormed(v)
    requires e in ExtractFields(v, k, path, excludeKeys)
    ensures |path| < |e.path| && e.path[|path|].Key?
    ensures k <= ChildRank(v, e.path[|path|]) < |v.fields|
    decreases |v.fields| - k
  {
    var (key, child) := v.fields[k];
    if key !in excludeKeys && e in ExtractText(child, path + [Key(key)], excludeKeys) {
      ExtractSound(child, path + [Key(key)], excludeKeys, e);
      assert e.path[..|path| + 1][|path|] == Key(key);
      KeyIndexDistinct(v.fields, k);
    } else {
      FieldsFirstSegment(v, k + 1, path, excludeKeys, e);
    }
  }

  /** Entries from the same child keep the child's document order. */
  lemma WithinChild(v: Value, path: Path, seg: Segment, child: Value, excludeKeys: seq<string>, x: FlatEntry, y: FlatEntry)
    requires Resolve(v, [seg]) == Some(child)
    requires Reaches(child, path + [seg], excludeKeys, x) && Reaches(child, path + [seg], excludeKeys, y)
    requires Precedes(child, x.path[|path| + 1..], y.path[|path| + 1..])
    ensures |path| < |x.path| && |path| < |y.path|
    ensures Precedes(v, x.path[|path|..], y.path[|path|..])
  {
    assert x.path[..|path| + 1][|path|] == seg && y.path[..|path| + 1][|path|] == seg;
    assert x.path[|path|..][1..] == x.path[|path| + 1..];
    assert y.path[|path|..][1..] == y.path[|path| + 1..];
  }

  /** Two paths that leave position `n` through children of different rank
      are ordered by that rank. */
  lemma EarlierChild(v: Value, n: nat, x: Path, y: Path)
    requires n < |x| && n < |y|
    requires ChildRank(v, x[n]) < ChildRank(v, y[n])
    ensures Precedes(v, x[n..], y[n..])
  {
    assert x[n..][0] == x[n] && y[n..][0] == y[n];
  }

  /** A leaf of entry `k` precedes every leaf of the later entries. */
  lemma FieldsCross(v: Value, k: nat, path: Path, excludeKeys: seq<string>, x: FlatEntry, y: FlatEntry)
    requires v.Obj? && k < |v.fields| && WellFormed(v)
    requires v.fields[k].0 !in excludeKeys
    requires x in ExtractText(v.fields[k].1, path + [Key(v.fields[k].0)], excludeKeys)
    requires y in ExtractFields(v, k + 1, path, excludeKeys)
    ensures |path| < |x.path| && |path| < |y.path|
    ensures Precedes(v, x.path[|path|..], y.path[|path|..])
  {
    var key := v.fields[k].0;
    KeyIndexDistinct(v.fields, k);
    ExtractSound(v.fields[k].1, path + [Key(key)], excludeKeys, x);
    assert x.path[..|path| + 1][|path|] == Key(key);
    FieldsFirstSegment(v, k + 1, path, excludeKeys, y);
    EarlierChild(v, |path|, x.path, y.path);
  }

  /** The traversal is depth-first: of any two emitted entries, the earlier
      one lies earlier in document order (array index order, then entry
      order, below their common ancestor). */
  lemma {:induction false} ExtractOrdered(v: Value, path: Path, excludeKeys: seq<string>, a: nat, b: nat)
    requires WellFormed(v)
    requires a < b < |ExtractText(v, path, excludeKeys)|
    ensures |path| <= |ExtractText(v, path, excludeKeys)[a].path|
    ensures |path| <= |ExtractText(v, path, excludeKeys)[b].path|
    ensures Precedes(v, ExtractText(v, path, excludeKeys)[a].path[|path|..],
                        ExtractText(v, path, excludeKeys)[b].path[|path|..])
    decreases v, 1
  {
    match v
    case Arr(_) => ItemsOrdered(v, 0, path, excludeKeys, a, b);
    case Obj(_) => FieldsOrdered(v, 0, path, excludeKeys, a, b);
  }

  lemma {:induction false} ItemsOrdered(v: Value, k: nat, path: Path, excludeKeys: seq<string>, a: nat, b: nat)
    requires v.Arr? && k <= |v.items| && WellFormed(v)
    requires a < b < |ExtractItems(v, k, path, excludeKeys)|
    ensures |path| <= |ExtractItems(v, k, path, excludeKeys)[a].path|
    ensures |path| <= |ExtractItems(v, k, path, excludeKeys)[b].path|
    ensures Precedes(v, ExtractItems(v, k, path, excludeKeys)[a].path[|path|..],
                        ExtractItems(v, k, path, excludeKeys)[b].path[|path|..])
    decreases v, 0, |v.items| - k
  {
    var r := ExtractItems(v, k, path, excludeKeys);
    var child := v.items[k];
    var head := ExtractText(child, path + [Idx(k)], excludeKeys);
    var tail := ExtractItems(v, k + 1, path, excludeKeys);
    assert r == head + tail;
    if b < |head| {
      ExtractOrdered(child, path + [Idx(k)], excludeKeys, a, b);
      ExtractSound(child, path + [Idx(k)], excludeKeys, head[a]);
      ExtractSound(child, path + [Idx(k)], excludeKeys, head[b]);
      WithinChild(v, path, Idx(k), child, excludeKeys, head[a], head[b]);
    } else if a >= |head| {
      ItemsOrdered(v, k + 1, path, excludeKeys, a - |head|, b - |head|);
    } else {
      var x, y := head[a], tail[b - |head|];
      assert r[a] == x && r[b] == y;
      ExtractSound(child, path + [Idx(k)], excludeKeys, x);
      assert x.path[..|path| + 1][|path|] == Idx(k);
      ItemsFirstSegment(v, k + 1, path, excludeKeys, y);
      EarlierChild(v, |path|, x.path, y.path);
    }
  }

  lemma {:induction false} FieldsOrdered(v: Value, k: nat, path: Path, excludeKeys: seq<string>, a: nat, b: nat)
    requires v.Obj? && k <= |v.fields| && WellFormed(v)
    requires a < b < |ExtractFields(v, k, path, excludeKeys)|
    ensures |path| <= |ExtractFields(v, k, path, excludeKeys)[a].path|
    ensures |path| <= |ExtractFields(v, k, path, excludeKeys)[b].path|
    ensures Precedes(v, ExtractFields(v, k, path, excludeKeys)[a].path[|path|..],
                        ExtractFields(v, k, path, excludeKeys)[b].path[|path|..])
    decreases v, 0, |v.fields| - k
  {
    var r := ExtractFields(v, k, path, excludeKeys);
    var (key, child) := v.fields[k];
    var tail := ExtractFields(v, k + 1, path, excludeKeys);
    if key in excludeKeys {
      assert r == tail;
      FieldsOrdered(v, k + 1, path, excludeKeys, a, b);
    } else {
      var head := ExtractText(child, path + [Key(key)], excludeKeys);
      assert r == head + tail;
      KeyIndexDistinct(v.fields, k);
      if b < |head| {
        assert r[a] == head[a] && r[b] == head[b];
        ExtractOrdered(child, path + [Key(key)], excludeKeys, a, b);
        ExtractSound(child, path + [Key(key)], excludeKeys, head[a]);
        ExtractSound(child, path + [Key(key)], excludeKeys, head[b]);
        WithinChild(v, path, Key(key), child, excludeKeys, head[a], head[b]);
      } else if a >= |head| {
        assert r[a] == tail[a - |head|] && r[b] == tail[b - |head|];
        FieldsOrdered(v, k + 1, path, excludeKeys, a - |head|, b - |head|);
      } else {
        assert r[a] == head[a] && r[b] == tail[b - |head|];
        FieldsCross(v, k, path, excludeKeys, head[a], tail[b - |head|]);
      }
    }
  }
}
