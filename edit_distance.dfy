// Levenshtein distance as the application computes it: a row-compressed
// Wagner–Fischer loop (services/openaiService.backup.ts, `levenshteinDistance`)
// and a full-matrix loop that appears three times, textually identical, as the
// inner `levenshtein` of `calculateSimilarity` (services/openaiService.ts,
// src/services/geminiService.ts, services/openaiService.clean.ts). Both are
// proved equal to the recursive unit-cost edit distance below, and therefore
// to each other.
module EditDistance {
  import opened Strings

  function Min3(x: nat, y: nat, z: nat): (m: nat)
    ensures m <= x && m <= y && m <= z
    ensures m == x || m == y || m == z
  {
    if x <= y && x <= z then x else if y <= z then y else z
  }

  /**
   * The least number of single-character insertions, deletions and
   * substitutions turning a[..i] into b[..j].
   */
  function Dist(a: string, b: string, i: nat, j: nat): nat
    requires i <= |a| && j <= |b|
    decreases i + j
  {
    if i == 0 then j
    else if j == 0 then i
    else Min3(Dist(a, b, i - 1, j) + 1,
              Dist(a, b, i, j - 1) + 1,
              Dist(a, b, i - 1, j - 1) + (if a[i - 1] == b[j - 1] then 0 else 1))
  }

  function Levenshtein(a: string, b: string): nat {
    Dist(a, b, |a|, |b|)
  }

  lemma {:induction false} DistUpperBound(a: string, b: string, i: nat, j: nat)
    requires i <= |a| && j <= |b|
    ensures Dist(a, b, i, j) <= if i < j then j else i
    decreases i + j
  {
    if i > 0 && j > 0 {
      DistUpperBound(a, b, i - 1, j - 1);
    }
  }

  lemma {:induction false} DistLowerBound(a: string, b: string, i: nat, j: nat)
    requires i <= |a| && j <= |b|
    ensures Dist(a, b, i, j) >= if i < j then j - i else i - j
    decreases i + j
  {
    if i > 0 && j > 0 {
      DistLowerBound(a, b, i - 1, j);
      DistLowerBound(a, b, i, j - 1);
      DistLowerBound(a, b, i - 1, j - 1);
    }
  }

  lemma {:induction false} DistSymmetric(a: string, b: string, i: nat, j: nat)
    requires i <= |a| && j <= |b|
    ensures Dist(a, b, i, j) == Dist(b, a, j, i)
    decreases i + j
  {
    if i > 0 && j > 0 {
      DistSymmetric(a, b, i - 1, j);
      DistSymmetric(a, b, i, j - 1);
      DistSymmetric(a, b, i - 1, j - 1);
      SymmetricStep(a, b, i, j);
    }
  }

  /** The recurrence is symmetric once the three smaller distances are. */
  lemma SymmetricStep(a: string, b: string, i: nat, j: nat)
    requires 0 < i <= |a| && 0 < j <= |b|
    requires Dist(a, b, i - 1, j) == Dist(b, a, j, i - 1)
    requires Dist(a, b, i, j - 1) == Dist(b, a, j - 1, i)
    requires Dist(a, b, i - 1, j - 1) == Dist(b, a, j - 1, i - 1)
    ensures Dist(a, b, i, j) == Dist(b, a, j, i)
  {
    var c := if a[i - 1] == b[j - 1] then 0 else 1;
    var x, y, z := Dist(a, b, i - 1, j) + 1, Dist(a, b, i, j - 1) + 1, Dist(a, b, i - 1, j - 1) + c;
    DistStep(a, b, i, j);
    DistStep(b, a, j, i);
    Min3Swap(x, y, z);
  }

  /** One unfolding of the recurrence. */
  lemma DistStep(a: string, b: string, i: nat, j: nat)
    requires 0 < i <= |a| && 0 < j <= |b|
    ensures Dist(a, b, i, j) == Min3(Dist(a, b, i - 1, j) + 1, Dist(a, b, i, j - 1) + 1,
                                     Dist(a, b, i - 1, j - 1) + (if a[i - 1] == b[j - 1] then 0 else 1))
  {
  }

  lemma Min3Swap(x: nat, y: nat, z: nat)
    ensures Min3(x, y, z) == Min3(y, x, z)
  {
  }

  lemma {:induction false} DistSelf(a: string, i: nat)
    requires i <= |a|
    ensures Dist(a, a, i, i) == 0
    decreases i
  {
    if i > 0 {
      DistSelf(a, i - 1);
    }
  }

  /** Distance zero means the prefixes are equal. */
  lemma {:induction false} DistZero(a: string, b: string, i: nat, j: nat)
    requires i <= |a| && j <= |b| && Dist(a, b, i, j) == 0
    ensures a[..i] == b[..j]
    decreases i + j
  {
    if i > 0 && j > 0 {
      assert a[i - 1] == b[j - 1] && Dist(a, b, i - 1, j - 1) == 0;
      DistZero(a, b, i - 1, j - 1);
      assert a[..i] == a[..i - 1] + [a[i - 1]];
      assert b[..j] == b[..j - 1] + [b[j - 1]];
    }
  }

  /** Dropping the last character of b changes the distance by at most one. */
  lemma {:induction false} DistColumnStep(a: string, b: string, i: nat, j: nat)
    requires i <= |a| && 0 < j <= |b|
    ensures Dist(a, b, i, j - 1) <= Dist(a, b, i, j) + 1
    decreases i
  {
    if i > 0 && j > 1 {
      var d := Dist(a, b, i, j);
      if d == Dist(a, b, i - 1, j) + 1 {
        DistColumnStep(a, b, i - 1, j);
      }
    } else if i > 0 {
      DistLowerBound(a, b, i, j);
    }
  }

  /** Dropping the last character of a changes the distance by at most one. */
  lemma DistRowStep(a: string, b: string, i: nat, j: nat)
    requires 0 < i <= |a| && j <= |b|
    ensures Dist(a, b, i - 1, j) <= Dist(a, b, i, j) + 1
  {
    DistSymmetric(a, b, i - 1, j);
    DistSymmetric(a, b, i, j);
    DistColumnStep(b, a, j, i);
  }

  /** When the last characters agree the distance is the diagonal one (the loops' shortcut). */
  lemma DistMatch(a: string, b: string, i: nat, j: nat)
    requires 0 < i <= |a| && 0 < j <= |b| && a[i - 1] == b[j - 1]
    ensures Dist(a, b, i, j) == Dist(a, b, i - 1, j - 1)
  {
    DistColumnStep(a, b, i - 1, j);
    DistRowStep(a, b, i, j - 1);
  }

  /** distance(s, s) = 0, and no distance exceeds the longer length or undercuts the length difference. */
  lemma LevenshteinBounds(a: string, b: string)
    ensures Levenshtein(a, a) == 0
    ensures Levenshtein(a, b) <= if |a| < |b| then |b| else |a|
    ensures Levenshtein(a, b) >= if |a| < |b| then |b| - |a| else |a| - |b|
    ensures Levenshtein(a, b) == Levenshtein(b, a)
    ensures Levenshtein(a, b) == 0 <==> a == b
  {
    DistSelf(a, |a|);
    DistUpperBound(a, b, |a|, |b|);
    DistLowerBound(a, b, |a|, |b|);
    DistSymmetric(a, b, |a|, |b|);
    if Levenshtein(a, b) == 0 {
      DistZero(a, b, |a|, |b|);
      assert a == a[..|a|] && b == b[..|b|];
    }
    if a == b {
      DistSelf(a, |a|);
    }
  }

  /** Cells lo..hi-1 of a cost row hold the distances from s1[..row]. */
  ghost predicate RowIs(costs: seq<nat>, s1: string, s2: string, row: nat, lo: nat, hi: nat)
    requires row <= |s1| && hi <= |costs| && hi <= |s2| + 1
  {
    forall k :: lo <= k < hi ==> costs[k] == Dist(s1, s2, row, k)
  }

  /**
   * `levenshteinDistance(s1, s2)`: one row of costs, overwritten row by row;
   * `lastValue` carries the entry just left of the current cell.
   */
  method RowLevenshtein(s1: string, s2: string) returns (d: nat)
    ensures d == Levenshtein(s1, s2)
  {
    var costs := new nat[|s2| + 1];
    var i := 0;
    while i <= |s1|
      invariant 0 <= i <= |s1| + 1
      invariant i > 0 ==> RowIs(costs[..], s1, s2, i - 1, 0, |s2| + 1)
    {
      OverwriteRow(costs, s1, s2, i);
      i := i + 1;
    }
    d := costs[|s2|];
  }

  /** Writing the distance of cell j - 1 of row i over row i - 1 moves the boundary between the two rows one cell on. */
  lemma RowShift(c: seq<nat>, s1: string, s2: string, i: nat, j: nat, v: nat)
    requires 0 < i <= |s1| && 0 < j <= |s2| && |c| == |s2| + 1
    requires RowIs(c, s1, s2, i, 0, j - 1) && RowIs(c, s1, s2, i - 1, j - 1, |s2| + 1)
    requires v == Dist(s1, s2, i, j - 1)
    ensures RowIs(c[j - 1 := v], s1, s2, i, 0, j) && RowIs(c[j - 1 := v], s1, s2, i - 1, j, |s2| + 1)
  {
  }

  /**
   * The inner loop's step for cell j of row i (i, j > 0): the diagonal
   * `costs[j - 1]` when the characters agree, else one more than the least
   * of the three neighbours; the old `lastValue` is written over cell j - 1.
   */
  method StepCell(costs: array<nat>, s1: string, s2: string, i: nat, j: nat, lastValue: nat) returns (newValue: nat)
    requires 0 < i <= |s1| && 0 < j <= |s2| && costs.Length == |s2| + 1
    requires lastValue == Dist(s1, s2, i, j - 1)
    requires RowIs(costs[..], s1, s2, i, 0, j - 1) && RowIs(costs[..], s1, s2, i - 1, j - 1, |s2| + 1)
    modifies costs
    ensures newValue == Dist(s1, s2, i, j)
    ensures RowIs(costs[..], s1, s2, i, 0, j) && RowIs(costs[..], s1, s2, i - 1, j, |s2| + 1)
  {
    ghost var cell := Dist(s1, s2, i, j);
    newValue := costs[j - 1];
    if s1[i - 1] != s2[j - 1] {
      assert costs[j - 1] == Dist(s1, s2, i - 1, j - 1);
      assert costs[j] == Dist(s1, s2, i - 1, j);
      newValue := Min3(newValue, lastValue, costs[j]) + 1;
    } else {
      DistMatch(s1, s2, i, j);
    }
    assert newValue == cell;
    RowShift(costs[..], s1, s2, i, j, lastValue);
    costs[j - 1] := lastValue;
  }

  /** One pass of the inner loop: the row of s1[..i] replaces the row of s1[..i - 1] (row 0 is 0, 1, 2, ...). */
  method OverwriteRow(costs: array<nat>, s1: string, s2: string, i: nat)
    requires i <= |s1| && costs.Length == |s2| + 1
    requires i > 0 ==> RowIs(costs[..], s1, s2, i - 1, 0, |s2| + 1)
    modifies costs
    ensures RowIs(costs[..], s1, s2, i, 0, |s2| + 1)
  {
    var lastValue: nat := i;
    var j := 0;
    while j <= |s2|
      invariant 0 <= j <= |s2| + 1
      invariant i == 0 ==> forall k :: 0 <= k < j ==> costs[k] == k
      invariant i > 0 && j == 0 ==> lastValue == i && RowIs(costs[..], s1, s2, i - 1, 0, |s2| + 1)
      invariant i > 0 && j > 0 ==> lastValue == Dist(s1, s2, i, j - 1)
      invariant i > 0 && j > 0 ==> RowIs(costs[..], s1, s2, i, 0, j - 1)
      invariant i > 0 && j > 0 ==> RowIs(costs[..], s1, s2, i - 1, j - 1, |s2| + 1)
    {
      if i == 0 {
        costs[j] := j;
      } else if j > 0 {
        lastValue := StepCell(costs, s1, s2, i, j, lastValue);
      }
      j := j + 1;
    }
    if i > 0 {
      costs[|s2|] := lastValue;
    }
  }

  /** The first `rows` rows of the matrix hold the distances between prefixes of b and of a. */
  ghost predicate RowsDone(matrix: array2<nat>, b: string, a: string, rows: nat)
    requires matrix.Length0 == |b| + 1 && matrix.Length1 == |a| + 1 && rows <= |b| + 1
    reads matrix
  {
    forall r, c :: 0 <= r < rows && 0 <= c <= |a| ==> matrix[r, c] == Dist(b, a, r, c)
  }

  /**
   * The inner `levenshtein(a, b)` of `calculateSimilarity`: matrix[i][j]
   * holds the distance between b[..i] and a[..j].
   */
  method MatrixLevenshtein(a: string, b: string) returns (d: nat)
    ensures d == Levenshtein(a, b)
    ensures a == [] ==> d == |b|
    ensures b == [] ==> d == |a|
  {
    DistSymmetric(a, b, |a|, |b|);
    if |a| == 0 {
      return |b|;
    }
    if |b| == 0 {
      return |a|;
    }
    var matrix := new nat[|b| + 1, |a| + 1];
    for i := 0 to |b| + 1
      invariant forall r :: 0 <= r < i ==> matrix[r, 0] == r
    {
      matrix[i, 0] := i;
    }
    for j := 0 to |a| + 1
      invariant forall r :: 0 <= r <= |b| ==> matrix[r, 0] == r
      invariant forall c :: 0 <= c < j ==> matrix[0, c] == c
    {
      matrix[0, j] := j;
    }
    for i := 1 to |b| + 1
      invariant RowsDone(matrix, b, a, i)
      invariant forall r :: i <= r <= |b| ==> matrix[r, 0] == r
    {
      FillRow(matrix, a, b, i);
    }
    d := matrix[|b|, |a|];
  }

  /** Row i of the matrix holds the right distances in columns 0..cols-1. */
  ghost predicate CellsDone(matrix: array2<nat>, b: string, a: string, i: nat, cols: nat)
    requires matrix.Length0 == |b| + 1 && matrix.Length1 == |a| + 1 && i <= |b| && cols <= |a| + 1
    reads matrix
  {
    forall c :: 0 <= c < cols ==> matrix[i, c] == Dist(b, a, i, c)
  }

  /** One pass of the inner `j` loop of `levenshtein(a, b)`: row i from rows i - 1 and column 0. */
  method FillRow(matrix: array2<nat>, a: string, b: string, i: nat)
    requires matrix.Length0 == |b| + 1 && matrix.Length1 == |a| + 1 && 0 < i <= |b|
    requires RowsDone(matrix, b, a, i)
    requires forall r :: i <= r <= |b| ==> matrix[r, 0] == r
    modifies matrix
    ensures RowsDone(matrix, b, a, i + 1)
    ensures forall r :: i < r <= |b| ==> matrix[r, 0] == r
  {
    for j := 1 to |a| + 1
      invariant RowsDone(matrix, b, a, i)
      invariant forall r :: i <= r <= |b| ==> matrix[r, 0] == r
      invariant CellsDone(matrix, b, a, i, j)
    {
      ghost var cell := Dist(b, a, i, j);
      if b[i - 1] == a[j - 1] {
        DistMatch(b, a, i, j);
        matrix[i, j] := matrix[i - 1, j - 1];
      } else {
        assert matrix[i - 1, j - 1] == Dist(b, a, i - 1, j - 1);
        assert matrix[i - 1, j] == Dist(b, a, i - 1, j);
        matrix[i, j] := Min3(matrix[i - 1, j - 1] + 1, matrix[i, j - 1] + 1, matrix[i - 1, j] + 1);
      }
      assert matrix[i, j] == cell;
    }
    assert CellsDone(matrix, b, a, i, |a| + 1);
  }

  /** The two loop shapes in the application compute the same number. */
  method CopiesAgree(a: string, b: string) returns (row: nat, full: nat)
    ensures row == full == Levenshtein(a, b)
  {
    row := RowLevenshtein(a, b);
    full := MatrixLevenshtein(a, b);
  }

  /** `simpleStringSimilarity`, with the ratio kept as an exact fraction. */
  datatype Similarity = Contained | Identical | Ratio(numerator: int, denominator: nat)

  method SimpleStringSimilarity(s1: string, s2: string) returns (r: Similarity)
    ensures r == Contained <==> Contains(s1, s2) || Contains(s2, s1)
    ensures r != Identical
    ensures r.Ratio? ==> r.denominator == (if |s1| > |s2| then |s1| else |s2|)
    ensures r.Ratio? ==> 0 <= r.numerator < r.denominator
    ensures r.Ratio? ==> r.numerator == r.denominator - Levenshtein(s1, s2)
  {
    if Contains(s1, s2) || Contains(s2, s1) {
      return Contained;
    }
    var longer := if |s1| > |s2| then s1 else s2;
    var shorter := if |s1| > |s2| then s2 else s1;
    if |longer| == 0 {
      assert false;
      return Identical;
    }
    var distance := RowLevenshtein(longer, shorter);
    LevenshteinBounds(longer, shorter);
    LevenshteinBounds(s1, s2);
    r := Ratio(|longer| - distance, |longer|);
  }
}
