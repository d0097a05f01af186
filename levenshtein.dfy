/**
 * `levenshteinDistance` of src/plugin/vragechat/cef/Chat.tsx: the edit
 * distance of two strings, computed by filling a (|s|+1) x (|t|+1) table row
 * by row. `Dist` is the recurrence the table follows, stated on prefixes; the
 * method is proved to return it, and the metric properties are proved about
 * `Dist`.
 */
module EditDistance {

  function Min3(a: nat, b: nat, c: nat): (r: nat)
    ensures r <= a && r <= b && r <= c
    ensures r == a || r == b || r == c
  {
    if a <= b && a <= c then a else if b <= c then b else c
  }

  /** The substitution cost: 0 for equal characters, 1 otherwise. */
  function Cost(x: char, y: char): nat
  {
    if x == y then 0 else 1
  }

  /**
   * The edit distance: the number of single-character insertions, deletions
   * and substitutions that turn `s` into `t`, by the min-of-three recurrence
   * on the last characters.
   */
  function Dist(s: string, t: string): nat
    decreases |s| + |t|
  {
    if |s| == 0 then |t|
    else if |t| == 0 then |s|
    else
      var s', t' := s[..|s| - 1], t[..|t| - 1];
      Min3(Dist(s', t') + Cost(s[|s| - 1], t[|t| - 1]), Dist(s', t) + 1, Dist(s, t') + 1)
  }

  /** An inner cell of the table: the min-of-three recurrence on the prefixes. */
  lemma DistStep(s: string, t: string, i: nat, j: nat)
    requires 0 < i <= |s| && 0 < j <= |t|
    ensures Dist(s[..i], t[..j]) == Min3(Dist(s[..i - 1], t[..j - 1]) + Cost(s[i - 1], t[j - 1]),
                                         Dist(s[..i - 1], t[..j]) + 1,
                                         Dist(s[..i], t[..j - 1]) + 1)
  {
    assert s[..i][..i - 1] == s[..i - 1];
    assert t[..j][..j - 1] == t[..j - 1];
  }

  /** The first row and the first column of the table. */
  lemma DistEdge(s: string, t: string, i: nat, j: nat)
    requires i <= |s| && j <= |t| && (i == 0 || j == 0)
    ensures Dist(s[..i], t[..j]) == i + j
  {
  }

  /** `row` holds the distances of `s[..r]` to the successive prefixes of `t`. */
  ghost predicate RowOf(row: seq<nat>, s: string, t: string, r: nat)
    requires r <= |s| && |row| <= |t| + 1
  {
    forall b :: 0 <= b < |row| ==> RowCell(row, s, t, r, b)
  }

  /** Cell `b` of `row` is the distance of `s[..r]` to `t[..b]`. */
  ghost predicate RowCell(row: seq<nat>, s: string, t: string, r: nat, b: nat)
    requires r <= |s| && b < |row| <= |t| + 1
  {
    row[b] == Dist(s[..r], t[..b])
  }

  lemma RowSnoc(row: seq<nat>, s: string, t: string, r: nat, v: nat)
    requires r <= |s| && |row| <= |t| && RowOf(row, s, t, r)
    requires v == Dist(s[..r], t[..|row|])
    ensures RowOf(row + [v], s, t, r)
  {
    forall b | 0 <= b < |row| + 1 ensures RowCell(row + [v], s, t, r, b) {
      if b < |row| {
        assert RowCell(row, s, t, r, b);
        assert (row + [v])[b] == row[b];
      }
    }
  }

  /** `levenshteinDistance(s, t)`: fill `dp` row by row and return `dp[m][n]`. */
  method LevenshteinDistance(s: string, t: string) returns (d: nat)
    ensures d == Dist(s, t)
  {
    var m, n := |s|, |t|;
    var dp := new nat[m + 1, n + 1];
    ghost var prev: seq<nat> := [];
    var i := 0;
    while i <= m
      invariant 0 <= i <= m + 1
      invariant i > 0 ==> |prev| == n + 1 && RowOf(prev, s, t, i - 1)
      invariant i > 0 ==> forall b :: 0 <= b <= n ==> dp[i - 1, b] == prev[b]
    {
      ghost var row: seq<nat> := [];
      var j := 0;
      while j <= n
        invariant 0 <= j <= n + 1 && |row| == j
        invariant i > 0 ==> |prev| == n + 1 && RowOf(prev, s, t, i - 1)
        invariant i > 0 ==> forall b :: 0 <= b <= n ==> dp[i - 1, b] == prev[b]
        invariant RowOf(row, s, t, i)
        invariant forall b :: 0 <= b < j ==> dp[i, b] == row[b]
      {
        if i == 0 {
          dp[i, j] := j;
          DistEdge(s, t, i, j);
        } else if j == 0 {
          dp[i, j] := i;
          DistEdge(s, t, i, j);
        } else {
          var diag, up, left := dp[i - 1, j - 1], dp[i - 1, j], dp[i, j - 1];
          assert diag == prev[j - 1] && up == prev[j] && left == row[j - 1];
          assert RowCell(prev, s, t, i - 1, j - 1) && RowCell(prev, s, t, i - 1, j) && RowCell(row, s, t, i, j - 1);
          dp[i, j] := Min3(diag + Cost(s[i - 1], t[j - 1]), up + 1, left + 1);
          DistStep(s, t, i, j);
        }
        RowSnoc(row, s, t, i, dp[i, j]);
        row := row + [dp[i, j]];
        j := j + 1;
      }
      prev := row;
      i := i + 1;
    }
    d := dp[m, n];
    assert d == prev[n] && RowCell(prev, s, t, m, n);
    assert s[..m] == s && t[..n] == t;
  }

  /**
   * The distance lies between the difference of the lengths and the longer
   * length; in particular the distance to the empty string is the other
   * string's length.
   */
  lemma {:induction false} DistBounds(s: string, t: string)
    ensures (if |s| >= |t| then |s| - |t| else |t| - |s|) <= Dist(s, t)
    ensures Dist(s, t) <= (if |s| >= |t| then |s| else |t|)
    ensures |t| == 0 ==> Dist(s, t) == |s|
    ensures |s| == 0 ==> Dist(s, t) == |t|
    decreases |s| + |t|
  {
    if |s| > 0 && |t| > 0 {
      var s', t' := s[..|s| - 1], t[..|t| - 1];
      DistBounds(s', t');
      DistBounds(s', t);
      DistBounds(s, t');
    }
  }

  /** A string is at distance 0 from exactly itself. */
  lemma {:induction false} DistZeroIff(s: string, t: string)
    ensures Dist(s, t) == 0 <==> s == t
    decreases |s| + |t|
  {
    if |s| > 0 && |t| > 0 {
      var s', t' := s[..|s| - 1], t[..|t| - 1];
      DistZeroIff(s', t');
      if s == t {
        assert s' == t';
      }
      if Dist(s, t) == 0 {
        assert s == s' + [s[|s| - 1]] && t == t' + [t[|t| - 1]];
      }
    } else {
      DistBounds(s, t);
    }
  }

  /** Turning `s` into `t` costs as much as turning `t` into `s`. */
  lemma {:induction false} DistSymmetric(s: string, t: string)
    ensures Dist(s, t) == Dist(t, s)
    decreases |s| + |t|
  {
    if |s| > 0 && |t| > 0 {
      var s', t' := s[..|s| - 1], t[..|t| - 1];
      DistSymmetric(s', t');
      DistSymmetric(s', t);
      DistSymmetric(s, t');
    }
  }
}
