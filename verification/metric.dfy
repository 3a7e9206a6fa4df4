/** Edit distance and normalised similarity between two strings.

    Scores are exact reals. JavaScript's `0 / 0` (two empty strings) is the
    one non-finite score the matcher can produce; it is kept as `NaN`.
 */
module Metric {

  /** A similarity score: an exact real, or the IEEE not-a-number value. */
  datatype Score = Num(v: real) | NaN

  /** `score >= threshold` as JavaScript evaluates it: false for NaN. */
  predicate AtLeast(s: Score, t: real) {
    s.Num? && s.v >= t
  }

  /** The comparator `(a, b) => b.score - a.score` is negative, so `a` sorts
      first. A NaN difference counts as +0 (a tie) under Array.prototype.sort. */
  predicate Outranks(a: Score, b: Score) {
    a.Num? && b.Num? && a.v > b.v
  }

  /** `Math.min` of three naturals. */
  function Min3(x: nat, y: nat, z: nat): nat {
    if x <= y && x <= z then x else if y <= z then y else z
  }

  function Max(x: nat, y: nat): nat {
    if x >= y then x else y
  }

  /** Unit cost of matching the last characters of two prefixes. */
  function Cost(c: char, d: char): nat {
    if c == d then 0 else 1
  }

  /** The Levenshtein recurrence: the empty string is as far from another
      string as that one is long; otherwise take the cheapest of deleting the
      last character of `a`, inserting the last character of `b`, or
      substituting (or keeping) the last character. */
  function Distance(a: string, b: string): nat
    decreases |a| + |b|
  {
    if |a| == 0 then |b|
    else if |b| == 0 then |a|
    else
      Min3(Distance(a[..|a| - 1], b) + 1,
           Distance(a, b[..|b| - 1]) + 1,
           Distance(a[..|a| - 1], b[..|b| - 1]) + Cost(a[|a| - 1], b[|b| - 1]))
  }

  /** The distance from or to the empty string is the other string's length;
      otherwise it is at most the longer length and at least the difference
      of the lengths. */
  lemma {:induction false} DistanceBounds(a: string, b: string)
    ensures |a| == 0 ==> Distance(a, b) == |b|
    ensures |b| == 0 ==> Distance(a, b) == |a|
    ensures Distance(a, b) <= Max(|a|, |b|)
    ensures |a| <= |b| + Distance(a, b) && |b| <= |a| + Distance(a, b)
    decreases |a| + |b|
  {
    if |a| == 0 || |b| == 0 {
    } else {
      DistanceBounds(a[..|a| - 1], b);
      DistanceBounds(a, b[..|b| - 1]);
      DistanceBounds(a[..|a| - 1], b[..|b| - 1]);
    }
  }

  /** The recurrence, stated on the prefixes `a[..i]` and `b[..j]` that the
      dynamic-programming table indexes. */
  lemma DistanceStep(a: string, b: string, i: nat, j: nat)
    requires 1 <= i <= |a| && 1 <= j <= |b|
    ensures Distance(a[..i], b[..j])
         == Min3(Distance(a[..i - 1], b[..j]) + 1,
                 Distance(a[..i], b[..j - 1]) + 1,
                 Distance(a[..i - 1], b[..j - 1]) + Cost(a[i - 1], b[j - 1]))
  {
    assert a[..i][..i - 1] == a[..i - 1];
    assert b[..j][..j - 1] == b[..j - 1];
  }

  /** One cell of the table from its three filled neighbours. */
  lemma CellStep(a: string, b: string, p: nat, i: nat, j: nat, up: nat, left: nat, diag: nat)
    requires i == p + 1 && i <= |a| && 1 <= j <= |b|
    requires up == Distance(a[..p], b[..j])
    requires left == Distance(a[..i], b[..j - 1])
    requires diag == Distance(a[..p], b[..j - 1])
    ensures Min3(up + 1, left + 1, diag + (if a[p] == b[j - 1] then 0 else 1)) == Distance(a[..i], b[..j])
  {
    DistanceStep(a, b, i, j);
  }

  /** Fills row `i` of the table from the row `p` above it, left to right. */
  method FillRow(m: array2<nat>, a: string, b: string, p: nat, i: nat)
    requires m.Length0 == |a| + 1 && m.Length1 == |b| + 1
    requires i == p + 1 && i <= |a|
    requires m[i, 0] == i
    requires forall c {:trigger m[p, c]} :: 0 <= c <= |b| ==> m[p, c] == Distance(a[..p], b[..c])
    modifies m
    ensures forall c {:trigger m[i, c]} :: 0 <= c <= |b| ==> m[i, c] == Distance(a[..i], b[..c])
    ensures forall r, c :: 0 <= r < m.Length0 && r != i && 0 <= c < m.Length1 ==> m[r, c] == old(m[r, c])
  {
    assert m[i, 0] == Distance(a[..i], b[..0]);
    var j := 1;
    while j <= |b|
      invariant 1 <= j <= |b| + 1
      invariant forall c {:trigger m[i, c]} :: 0 <= c < j ==> m[i, c] == Distance(a[..i], b[..c])
      invariant forall r, c :: 0 <= r < m.Length0 && r != i && 0 <= c < m.Length1 ==> m[r, c] == old(m[r, c])
    {
      var cost := if a[p] == b[j - 1] then 0 else 1;
      var up, left, diag := m[p, j], m[i, j - 1], m[p, j - 1];
      CellStep(a, b, p, i, j, up, left, diag);
      m[i, j] := Min3(up + 1, left + 1, diag + cost);
      j := j + 1;
    }
  }

  /** `calculateLevenshtein`: initialise row 0 and column 0, fill the rows in
      order, and read the bottom-right cell. */
  method Levenshtein(a: string, b: string) returns (d: nat)
    ensures d == Distance(a, b)
  {
    var m := new nat[|a| + 1, |b| + 1];
    var i := 0;
    while i <= |a|
      invariant 0 <= i <= |a| + 1
      invariant forall r :: 0 <= r < i ==> m[r, 0] == r
    {
      m[i, 0] := i;
      i := i + 1;
    }
    var j := 0;
    while j <= |b|
      invariant 0 <= j <= |b| + 1
      invariant forall r :: 0 <= r <= |a| ==> m[r, 0] == r
      invariant forall c {:trigger m[0, c]} :: 0 <= c < j ==> m[0, c] == Distance(a[..0], b[..c])
    {
      m[0, j] := j;
      j := j + 1;
    }
    i := 0;
    while i < |a|
      invariant 0 <= i <= |a|
      invariant forall c {:trigger m[i, c]} :: 0 <= c <= |b| ==> m[i, c] == Distance(a[..i], b[..c])
      invariant forall r :: i < r <= |a| ==> m[r, 0] == r
    {
      FillRow(m, a, b, i, i + 1);
      i := i + 1;
    }
    assert a[..|a|] == a && b[..|b|] == b;
    d := m[|a|, |b|];
  }

  /** Distance zero means the strings are equal, and only then. */
  lemma {:induction false} DistanceZeroIff(a: string, b: string)
    ensures Distance(a, b) == 0 <==> a == b
    decreases |a| + |b|
  {
    if |a| == 0 || |b| == 0 {
    } else {
      var a', b' := a[..|a| - 1], b[..|b| - 1];
      DistanceZeroIff(a', b');
      if a == b {
        assert a' == b';
      }
      if Distance(a, b) == 0 {
        assert Distance(a', b') + Cost(a[|a| - 1], b[|b| - 1]) == 0;
        assert a == a' + [a[|a| - 1]] && b == b' + [b[|b| - 1]];
      }
    }
  }

  /** Edit distance does not depend on which string is the source. */
  lemma {:induction false} DistanceSymmetric(a: string, b: string)
    ensures Distance(a, b) == Distance(b, a)
    decreases |a| + |b|
  {
    if |a| == 0 || |b| == 0 {
    } else {
      DistanceSymmetric(a[..|a| - 1], b);
      DistanceSymmetric(a, b[..|b| - 1]);
      DistanceSymmetric(a[..|a| - 1], b[..|b| - 1]);
    }
  }

  /** Deleting a prefix `x` costs at most its length: `x + y` is at most
      `|x|` edits from `y`. */
  lemma {:induction false} PrefixDeletion(x: string, y: string)
    ensures Distance(x + y, y) <= |x|
    decreases |y|
  {
    if |y| == 0 {
      assert x + y == x;
    } else if |x| > 0 {
      var y' := y[..|y| - 1];
      PrefixDeletion(x, y');
      assert (x + y)[..|x + y| - 1] == x + y';
      assert (x + y)[|x + y| - 1] == y[|y| - 1];
    } else {
      assert x + y == y;
      DistanceZeroIff(y, y);
    }
  }

  /** The number of the first `n` characters of `a` that occur nowhere in
      `b`. */
  function Unmatched(a: string, b: string, n: nat): nat
    requires n <= |a|
  {
    if n == 0 then 0
    else Unmatched(a, b, n - 1) + (if a[n - 1] in b then 0 else 1)
  }

  /** The count over the first `n` characters depends on those characters
      only. */
  lemma {:induction false} UnmatchedPrefix(a: string, b: string, m: nat, n: nat)
    requires n <= m <= |a|
    ensures Unmatched(a[..m], b, n) == Unmatched(a, b, n)
  {
    if n > 0 {
      UnmatchedPrefix(a, b, m, n - 1);
      assert a[..m][n - 1] == a[n - 1];
    }
  }

  /** Dropping characters from `b` can only leave more of `a` unmatched. */
  lemma {:induction false} UnmatchedShrink(a: string, b: string, n: nat)
    requires n <= |a| && |b| > 0
    ensures Unmatched(a, b[..|b| - 1], n) >= Unmatched(a, b, n)
  {
    if n > 0 {
      UnmatchedShrink(a, b, n - 1);
      if a[n - 1] !in b[..|b| - 1] {
      } else {
        assert a[n - 1] in b;
      }
    }
  }

  /** At most every character counted is unmatched. */
  lemma {:induction false} UnmatchedAtMost(a: string, b: string, n: nat)
    requires n <= |a|
    ensures Unmatched(a, b, n) <= n
  {
    if n > 0 {
      UnmatchedAtMost(a, b, n - 1);
    }
  }

  /** Every character of `a` that occurs nowhere in `b` costs at least one
      edit: it must be deleted or substituted. */
  lemma {:induction false} DistanceUnmatched(a: string, b: string)
    ensures Distance(a, b) >= Unmatched(a, b, |a|)
    decreases |a| + |b|
  {
    if |a| == 0 {
    } else if |b| == 0 {
      UnmatchedAtMost(a, b, |a|);
    } else {
      var a', b' := a[..|a| - 1], b[..|b| - 1];
      DistanceUnmatched(a', b);
      DeletionCase(a, b, Distance(a', b));
      DistanceUnmatched(a, b');
      InsertionCase(a, b, Distance(a, b'));
      DistanceUnmatched(a', b');
      SubstitutionCase(a, b, Distance(a', b'));
    }
  }

  /** Deleting the last character of `a`: a neighbour distance `d` covering
      the unmatched characters of `a` without it covers, plus one, those of
      `a`. */
  lemma DeletionCase(a: string, b: string, d: nat)
    requires |a| > 0
    requires d >= Unmatched(a[..|a| - 1], b, |a| - 1)
    ensures d + 1 >= Unmatched(a, b, |a|)
  {
    UnmatchedPrefix(a, b, |a| - 1, |a| - 1);
  }

  /** Inserting the last character of `b`: against `b` without it, at least
      as many characters of `a` are unmatched. */
  lemma InsertionCase(a: string, b: string, d: nat)
    requires |b| > 0
    requires d >= Unmatched(a, b[..|b| - 1], |a|)
    ensures d + 1 >= Unmatched(a, b, |a|)
  {
    UnmatchedShrink(a, b, |a|);
  }

  /** Substituting the last character costs one exactly when it differs from
      the last of `b`, which it does when it occurs nowhere in `b`. */
  lemma SubstitutionCase(a: string, b: string, d: nat)
    requires |a| > 0 && |b| > 0
    requires d >= Unmatched(a[..|a| - 1], b[..|b| - 1], |a| - 1)
    ensures d + Cost(a[|a| - 1], b[|b| - 1]) >= Unmatched(a, b, |a|)
  {
    var b' := b[..|b| - 1];
    UnmatchedPrefix(a, b', |a| - 1, |a| - 1);
    UnmatchedShrink(a, b, |a| - 1);
    if a[|a| - 1] == b[|b| - 1] {
      assert a[|a| - 1] in b;
    }
  }

  /** A score reaching 0.3 needs fewer unmatched characters than seven
      tenths of the longer length. */
  lemma BelowThreshold(a: string, b: string)
    requires 10 * Unmatched(a, b, |a|) > 7 * Max(|a|, |b|)
    ensures !AtLeast(Similarity(a, b), 0.3)
  {
    DistanceUnmatched(a, b);
    if AtLeast(Similarity(a, b), 0.3) {
      SevenTenths(Distance(a, b), Max(|a|, |b|));
    }
  }

  /** A distance at most seven tenths of a positive length, as a ratio, is at
      most seven tenths of it in whole numbers. */
  lemma SevenTenths(d: nat, n: nat)
    requires 0 < n && (d as real) / (n as real) <= 0.7
    ensures 10 * d <= 7 * n
  {
    var q := (d as real) / (n as real);
    assert q * (n as real) == d as real;
    assert (0.7 - q) * (n as real) >= 0.0;
  }

  /** A distance over a positive length is a ratio in [0, 1], zero only for
      distance zero. */
  lemma RatioBounds(d: nat, m: nat)
    requires 0 < m && d <= m
    ensures 0.0 <= (d as real) / (m as real) <= 1.0
    ensures (d as real) / (m as real) == 0.0 <==> d == 0
  {
    var q := (d as real) / (m as real);
    assert q * (m as real) == d as real;
  }

  /** `similarityScore`: `1 - distance / max(|a|, |b|)`, NaN when both strings
      are empty. */
  function Similarity(a: string, b: string): (r: Score)
    ensures r.NaN? <==> |a| == 0 && |b| == 0
    ensures r.Num? ==> 0.0 <= r.v <= 1.0
    ensures r.Num? ==> (r.v == 1.0 <==> a == b)
  {
    var m := Max(|a|, |b|);
    if m == 0 then NaN
    else
      DistanceZeroIff(a, b);
      DistanceBounds(a, b);
      var d := Distance(a, b);
      RatioBounds(d, m);
      Num(1.0 - (d as real) / (m as real))
  }

  /** `similarityScore` as the source computes it: run the table, then
      divide by the longer length (`0 / 0` for two empty strings). */
  method SimilarityScore(a: string, b: string) returns (s: Score)
    ensures s == Similarity(a, b)
  {
    var d := Levenshtein(a, b);
    var m := Max(|a|, |b|);
    if m == 0 {
      s := NaN;
    } else {
      s := Num(1.0 - (d as real) / (m as real));
    }
  }

  /** Reaching threshold `t` bounds the edit distance, as a fraction of the
      longer length, by `1 - t`. */
  lemma SimilarityDistance(a: string, b: string, t: real)
    requires AtLeast(Similarity(a, b), t)
    ensures Max(|a|, |b|) > 0
    ensures (Distance(a, b) as real) / (Max(|a|, |b|) as real) <= 1.0 - t
  {
    assert Max(|a|, |b|) > 0;
  }

  /** A distance at most two fifths of a positive length, as a ratio, is at
      most two fifths of it in whole numbers. */
  lemma TwoFifths(d: nat, n: nat)
    requires 0 < n && (d as real) / (n as real) <= 0.4
    ensures 5 * d <= 2 * n
  {
    var q := (d as real) / (n as real);
    assert q * (n as real) == d as real;
    assert (0.4 - q) * (n as real) >= 0.0;
  }

  /** The score of `a` against `b` is the score of `b` against `a`. */
  lemma SimilaritySymmetric(a: string, b: string)
    ensures Similarity(a, b) == Similarity(b, a)
  {
    DistanceSymmetric(a, b);
  }
}
