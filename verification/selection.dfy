/** Match selection: score every flattened leaf against the query, keep the
    ones that pass (threshold or exact equality), and stable-sort them by
    descending score. */
module Selection {
  import opened Metric
  import opened Tree
  import opened Flatten

  /** A scored leaf: `{ path, value, score }`. */
  datatype Match = Match(path: Path, value: string, score: Score)

  /** `{ path, value, score: similarityScore(value, query) }`. */
  function ScoreOne(e: FlatEntry, query: string): Match {
    Match(e.path, e.value, Similarity(e.value, query))
  }

  /** Attaches the score to every entry, in order. */
  function ScoreAll(entries: seq<FlatEntry>, query: string): (r: seq<Match>)
    ensures |r| == |entries|
    ensures forall i :: 0 <= i < |r| ==> r[i] == ScoreOne(entries[i], query)
  {
    if |entries| == 0 then []
    else [ScoreOne(entries[0], query)] + ScoreAll(entries[1..], query)
  }

  /** `.filter((result) => result.score >= threshold)`. */
  function KeepAtLeast(ms: seq<Match>, threshold: real): (r: seq<Match>)
    ensures |r| <= |ms|
  {
    if |ms| == 0 then []
    else if AtLeast(ms[0].score, threshold) then [ms[0]] + KeepAtLeast(ms[1..], threshold)
    else KeepAtLeast(ms[1..], threshold)
  }

  /** `.filter((result) => result.value === query)`. */
  function KeepEqual(ms: seq<Match>, query: string): (r: seq<Match>)
    ensures |r| <= |ms|
  {
    if |ms| == 0 then []
    else if ms[0].value == query then [ms[0]] + KeepEqual(ms[1..], query)
    else KeepEqual(ms[1..], query)
  }

  /** The threshold filter keeps exactly the entries scoring at least the
      threshold (so never a NaN score), each as many times as it occurs. */
  lemma {:induction false} KeepAtLeastMembers(ms: seq<Match>, threshold: real)
    ensures forall m :: m in KeepAtLeast(ms, threshold) <==> m in ms && AtLeast(m.score, threshold)
    ensures forall m: Match :: AtLeast(m.score, threshold) ==>
      multiset(KeepAtLeast(ms, threshold))[m] == multiset(ms)[m]
    ensures AllNum(KeepAtLeast(ms, threshold))
  {
    if |ms| > 0 {
      KeepAtLeastMembers(ms[1..], threshold);
      assert ms == [ms[0]] + ms[1..];
    }
  }

  /** The equality filter keeps exactly the entries whose value is the query,
      each as many times as it occurs. */
  lemma {:induction false} KeepEqualMembers(ms: seq<Match>, query: string)
    ensures forall m :: m in KeepEqual(ms, query) <==> m in ms && m.value == query
    ensures forall m: Match :: m.value == query ==> multiset(KeepEqual(ms, query))[m] == multiset(ms)[m]
  {
    if |ms| > 0 {
      KeepEqualMembers(ms[1..], query);
      assert ms == [ms[0]] + ms[1..];
    }
  }

  /** The entries of `ms` with score exactly `score`, in their order in `ms`. */
  function Ties(ms: seq<Match>, score: Score): seq<Match> {
    if |ms| == 0 then []
    else if ms[0].score == score then [ms[0]] + Ties(ms[1..], score)
    else Ties(ms[1..], score)
  }

  predicate AllNum(ms: seq<Match>) {
    forall i :: 0 <= i < |ms| ==> ms[i].score.Num?
  }

  /** Scores never increase along the sequence (and are all numbers). */
  predicate NonIncreasing(ms: seq<Match>) {
    && AllNum(ms)
    && forall i, j :: 0 <= i < j < |ms| ==> ms[j].score.v <= ms[i].score.v
  }

  /** Places `x`, which came before every entry of `t`, ahead of the first
      entry that does not outrank it. */
  function InsertDesc(x: Match, t: seq<Match>): (r: seq<Match>)
    ensures multiset(r) == multiset(t) + multiset{x}
    ensures |r| == |t| + 1
  {
    if |t| == 0 || !Outranks(t[0].score, x.score) then [x] + t
    else
      assert t == [t[0]] + t[1..];
      [t[0]] + InsertDesc(x, t[1..])
  }

  /** `.sort((a, b) => b.score - a.score)` with a stable sort: an insertion
      sort whose earlier entries win ties. */
  function SortDesc(ms: seq<Match>): (r: seq<Match>)
    ensures multiset(r) == multiset(ms)
    ensures |r| == |ms|
  {
    if |ms| == 0 then []
    else
      assert ms == [ms[0]] + ms[1..];
      InsertDesc(ms[0], SortDesc(ms[1..]))
  }

  lemma {:induction false} InsertDescSorted(x: Match, t: seq<Match>)
    requires x.score.Num? && AllNum(t) && NonIncreasing(t)
    ensures NonIncreasing(InsertDesc(x, t))
  {
    var r := InsertDesc(x, t);
    if |t| == 0 || !Outranks(t[0].score, x.score) {
      assert r == [x] + t;
    } else {
      InsertDescSorted(x, t[1..]);
      var r' := InsertDesc(x, t[1..]);
      assert r == [t[0]] + r';
      assert multiset(r') == multiset(t[1..]) + multiset{x};
      forall j | 0 < j < |r|
        ensures r[j].score.v <= t[0].score.v
      {
        assert r[j] in multiset(r');
        if r[j] == x {
        } else {
          assert r[j] in multiset(t[1..]);
          var k :| 0 <= k < |t[1..]| && t[1..][k] == r[j];
          assert t[k + 1] == r[j];
        }
      }
    }
  }

  /** With numeric scores the sort's output never increases in score. */
  lemma {:induction false} SortDescSorted(ms: seq<Match>)
    requires AllNum(ms)
    ensures NonIncreasing(SortDesc(ms))
  {
    if |ms| > 0 {
      SortDescSorted(ms[1..]);
      var t := SortDesc(ms[1..]);
      assert AllNum(t) by {
        forall i | 0 <= i < |t| ensures t[i].score.Num? {
          assert t[i] in multiset(ms[1..]);
        }
      }
      InsertDescSorted(ms[0], t);
    }
  }

  lemma {:induction false} InsertDescTies(x: Match, t: seq<Match>, score: Score)
    ensures Ties(InsertDesc(x, t), score) == (if x.score == score then [x] else []) + Ties(t, score)
  {
    if |t| == 0 || !Outranks(t[0].score, x.score) {
    } else {
      InsertDescTies(x, t[1..], score);
      if x.score == score {
        assert t[0].score != score;
      }
    }
  }

  /** Stability: the entries sharing any one score keep their input order. */
  lemma {:induction false} SortDescStable(ms: seq<Match>, score: Score)
    ensures Ties(SortDesc(ms), score) == Ties(ms, score)
  {
    if |ms| > 0 {
      SortDescStable(ms[1..], score);
      InsertDescTies(ms[0], SortDesc(ms[1..]), score);
    }
  }

  /** When every score is the same, the sort leaves the sequence as it is. */
  lemma {:induction false} SortDescAllTied(ms: seq<Match>, score: Score)
    requires forall i :: 0 <= i < |ms| ==> ms[i].score == score
    ensures SortDesc(ms) == ms
  {
    if |ms| > 0 {
      var t := ms[1..];
      assert forall i :: 0 <= i < |t| ==> t[i] == ms[i + 1];
      SortDescAllTied(t, score);
      assert |t| == 0 || t[0].score == ms[0].score;
      assert InsertDesc(ms[0], t) == [ms[0]] + t;
      assert ms == [ms[0]] + t;
    }
  }

  /** Filtering a sorted sequence by a threshold commutes with insertion. */
  lemma {:induction false} InsertDescKeep(x: Match, t: seq<Match>, threshold: real)
    requires x.score.Num? && NonIncreasing(t)
    ensures KeepAtLeast(InsertDesc(x, t), threshold)
         == if AtLeast(x.score, threshold) then InsertDesc(x, KeepAtLeast(t, threshold))
            else KeepAtLeast(t, threshold)
  {
    if |t| == 0 {
    } else if !Outranks(t[0].score, x.score) {
      var kept := KeepAtLeast(t, threshold);
      if AtLeast(x.score, threshold) && |kept| > 0 {
        KeepAtLeastMembers(t, threshold);
        assert kept[0] in t;
        var k :| 0 <= k < |t| && t[k] == kept[0];
        assert t[k].score.v <= t[0].score.v;
      }
    } else {
      assert NonIncreasing(t[1..]) by {
        forall i, j | 0 <= i < j < |t[1..]|
          ensures t[1..][j].score.v <= t[1..][i].score.v
        {
          assert t[1..][i] == t[i + 1] && t[1..][j] == t[j + 1];
        }
      }
      InsertDescKeep(x, t[1..], threshold);
    }
  }

  /** Raising the threshold after sorting gives the sorted result of raising
      it before: filtering and the stable sort commute. */
  lemma {:induction false} SortDescKeep(ms: seq<Match>, threshold: real)
    requires AllNum(ms)
    ensures KeepAtLeast(SortDesc(ms), threshold) == SortDesc(KeepAtLeast(ms, threshold))
  {
    if |ms| > 0 {
      SortDescKeep(ms[1..], threshold);
      assert AllNum(ms[1..]) by {
        forall i | 0 <= i < |ms[1..]| ensures ms[1..][i].score.Num? {
          assert ms[1..][i] == ms[i + 1];
        }
      }
      SortDescSorted(ms[1..]);
      InsertDescKeep(ms[0], SortDesc(ms[1..]), threshold);
    }
  }

  /** Keeping score `>= t1` and then `>= t2` keeps score `>= t2` when `t2 >= t1`. */
  lemma {:induction false} KeepAtLeastTwice(ms: seq<Match>, t1: real, t2: real)
    requires t1 <= t2
    ensures KeepAtLeast(KeepAtLeast(ms, t1), t2) == KeepAtLeast(ms, t2)
  {
    if |ms| > 0 {
      KeepAtLeastTwice(ms[1..], t1, t2);
    }
  }

  lemma {:induction false} KeepAtLeastAppend(a: seq<Match>, b: seq<Match>, threshold: real)
    ensures KeepAtLeast(a + b, threshold) == KeepAtLeast(a, threshold) + KeepAtLeast(b, threshold)
  {
    if |a| > 0 {
      assert (a + b)[1..] == a[1..] + b;
      KeepAtLeastAppend(a[1..], b, threshold);
    } else {
      assert a + b == b;
    }
  }

  lemma {:induction false} KeepEqualAppend(a: seq<Match>, b: seq<Match>, query: string)
    ensures KeepEqual(a + b, query) == KeepEqual(a, query) + KeepEqual(b, query)
  {
    if |a| > 0 {
      assert (a + b)[1..] == a[1..] + b;
      KeepEqualAppend(a[1..], b, query);
    } else {
      assert a + b == b;
    }
  }
}
