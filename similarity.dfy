/** Edit distance and string similarity of the subscription organizer
    (`levenshteinDistance` and `calculateStringSimilarity` in analytics.js). */
module Similarity {

  function Min3(x: nat, y: nat, z: nat): (m: nat)
    ensures m <= x && m <= y && m <= z
    ensures m == x || m == y || m == z
  {
    if x <= y && x <= z then x else if y <= z then y else z
  }

  /** Cell `matrix[i][j]` of the table that `levenshteinDistance(str1, str2)`
      fills, with `a` = str2 indexing the rows and `b` = str1 the columns: an
      equal pair of characters copies the diagonal cell, otherwise the cell is
      one more than the least of its three neighbours. */
  function Lev(a: string, b: string, i: nat, j: nat): nat
    requires i <= |a| && j <= |b|
    decreases i + j
  {
    if i == 0 then j
    else if j == 0 then i
    else if a[i - 1] == b[j - 1] then Lev(a, b, i - 1, j - 1)
    else 1 + Min3(Lev(a, b, i - 1, j - 1), Lev(a, b, i, j - 1), Lev(a, b, i - 1, j))
  }

  /** `levenshteinDistance(str1, str2)`: the bottom-right cell. */
  function Distance(str1: string, str2: string): nat {
    Lev(str2, str1, |str2|, |str1|)
  }

  /** The textbook Levenshtein recurrence (unit cost for insertion, deletion
      and substitution, no shortcut for equal characters), used as the
      independent reference for the table above. */
  function EditDistance(a: string, b: string, i: nat, j: nat): nat
    requires i <= |a| && j <= |b|
    decreases i + j
  {
    if i == 0 then j
    else if j == 0 then i
    else Min3(EditDistance(a, b, i - 1, j - 1) + (if a[i - 1] == b[j - 1] then 0 else 1),
              EditDistance(a, b, i - 1, j) + 1,
              EditDistance(a, b, i, j - 1) + 1)
  }

  /** A cell is at most one more than the cell on its right. */
  lemma {:induction false} EditLeftBound(a: string, b: string, x: nat, y: nat)
    requires x <= |a| && 1 <= y <= |b|
    ensures EditDistance(a, b, x, y - 1) <= EditDistance(a, b, x, y) + 1
    decreases x + y
  {
    if x > 0 {
      if y - 1 > 0 {
        assert EditDistance(a, b, x, y - 1) <= EditDistance(a, b, x - 1, y - 1) + 1;
      }
      EditLeftBound(a, b, x - 1, y);
    }
  }

  /** A cell is at most one more than the cell below it. */
  lemma {:induction false} EditUpBound(a: string, b: string, x: nat, y: nat)
    requires 1 <= x <= |a| && y <= |b|
    ensures EditDistance(a, b, x - 1, y) <= EditDistance(a, b, x, y) + 1
    decreases x + y
  {
    if y > 0 {
      if x - 1 > 0 {
        assert EditDistance(a, b, x - 1, y) <= EditDistance(a, b, x - 1, y - 1) + 1;
      }
      EditUpBound(a, b, x, y - 1);
    }
  }

  /** The diagonal shortcut the source takes for equal characters loses
      nothing: every cell of its table is the Levenshtein distance of the two
      prefixes. */
  lemma {:induction false} LevIsEditDistance(a: string, b: string, i: nat, j: nat)
    requires i <= |a| && j <= |b|
    ensures Lev(a, b, i, j) == EditDistance(a, b, i, j)
    decreases i + j
  {
    if i > 0 && j > 0 {
      LevIsEditDistance(a, b, i - 1, j - 1);
      if a[i - 1] == b[j - 1] {
        EditEqualStep(a, b, i, j);
      } else {
        LevIsEditDistance(a, b, i, j - 1);
        LevIsEditDistance(a, b, i - 1, j);
        LevUnequalStep(a, b, i, j);
      }
    }
  }

  /** With different last characters, agreement on the three neighbours
      carries over to the cell. */
  lemma LevUnequalStep(a: string, b: string, i: nat, j: nat)
    requires 0 < i <= |a| && 0 < j <= |b| && a[i - 1] != b[j - 1]
    requires Lev(a, b, i - 1, j - 1) == EditDistance(a, b, i - 1, j - 1)
    requires Lev(a, b, i, j - 1) == EditDistance(a, b, i, j - 1)
    requires Lev(a, b, i - 1, j) == EditDistance(a, b, i - 1, j)
    ensures Lev(a, b, i, j) == EditDistance(a, b, i, j)
  {
  }

  /** With equal last characters the recurrence takes the diagonal, as the
      table does. */
  lemma EditEqualStep(a: string, b: string, i: nat, j: nat)
    requires 0 < i <= |a| && 0 < j <= |b| && a[i - 1] == b[j - 1]
    requires Lev(a, b, i - 1, j - 1) == EditDistance(a, b, i - 1, j - 1)
    ensures Lev(a, b, i, j) == EditDistance(a, b, i, j)
  {
    EditLeftBound(a, b, i - 1, j);
    EditUpBound(a, b, i, j - 1);
  }

  lemma {:induction false} LevSymmetric(a: string, b: string, i: nat, j: nat)
    requires i <= |a| && j <= |b|
    ensures Lev(a, b, i, j) == Lev(b, a, j, i)
    decreases i + j
  {
    if i > 0 && j > 0 {
      LevSymmetric(a, b, i - 1, j - 1);
      if a[i - 1] != b[j - 1] {
        LevSymmetric(a, b, i, j - 1);
        LevSymmetric(a, b, i - 1, j);
      }
    }
  }

  /** The distance is at most the longer prefix and at least the difference
      of the two lengths. */
  lemma {:induction false} LevBounds(a: string, b: string, i: nat, j: nat)
    requires i <= |a| && j <= |b|
    ensures Lev(a, b, i, j) <= if i < j then j else i
    ensures Lev(a, b, i, j) >= if i < j then j - i else i - j
    decreases i + j
  {
    if i > 0 && j > 0 {
      LevBounds(a, b, i - 1, j - 1);
      if a[i - 1] != b[j - 1] {
        LevBounds(a, b, i, j - 1);
        LevBounds(a, b, i - 1, j);
      }
    }
  }

  /** The distance is zero exactly when the two prefixes are equal. */
  lemma {:induction false} LevZeroIffEqual(a: string, b: string, i: nat, j: nat)
    requires i <= |a| && j <= |b|
    ensures Lev(a, b, i, j) == 0 <==> a[..i] == b[..j]
    decreases i + j
  {
    if i > 0 && j > 0 {
      LevZeroIffEqual(a, b, i - 1, j - 1);
      assert a[..i] == a[..i - 1] + [a[i - 1]];
      assert b[..j] == b[..j - 1] + [b[j - 1]];
      if a[i - 1] != b[j - 1] {
        assert a[..i][i - 1] != b[..j][j - 1];
      }
    } else if i == 0 && j > 0 {
      assert |b[..j]| > 0;
    } else if i > 0 {
      assert |a[..i]| > 0;
    }
  }

  /** One cell of the table from its three neighbours. */
  lemma LevStep(a: string, b: string, i0: nat, i: nat, j0: nat, j: nat, diagonal: nat, left: nat, up: nat)
    requires i == i0 + 1 <= |a| && j == j0 + 1 <= |b|
    requires diagonal == Lev(a, b, i0, j0) && left == Lev(a, b, i, j0) && up == Lev(a, b, i0, j)
    ensures Lev(a, b, i, j) == if a[i0] == b[j0] then diagonal else 1 + Min3(diagonal, left, up)
  {
  }

  /** Row `i` of the table: column 0 holds `i`, every other cell is computed
      from the row above and the cell to its left. */
  method FillRow(matrix: array2<nat>, str1: string, str2: string, above: nat, i: nat)
    requires matrix.Length0 == |str2| + 1 && matrix.Length1 == |str1| + 1
    requires i == above + 1 <= |str2|
    requires forall c {:trigger matrix[above, c]} :: 0 <= c <= |str1| ==> matrix[above, c] == Lev(str2, str1, above, c)
    requires matrix[i, 0] == i
    modifies matrix
    ensures forall c {:trigger matrix[i, c]} :: 0 <= c <= |str1| ==> matrix[i, c] == Lev(str2, str1, i, c)
    ensures forall r :: i < r < matrix.Length0 ==> matrix[r, 0] == old(matrix[r, 0])
  {
    var j := 1;
    while j <= |str1|
      invariant 1 <= j <= |str1| + 1
      invariant forall c {:trigger matrix[i, c]} :: 0 <= c < j ==> matrix[i, c] == Lev(str2, str1, i, c)
      invariant forall c {:trigger matrix[above, c]} :: 0 <= c <= |str1| ==> matrix[above, c] == Lev(str2, str1, above, c)
      invariant forall r :: i < r < matrix.Length0 ==> matrix[r, 0] == old(matrix[r, 0])
    {
      var diagonal, left, up := matrix[above, j - 1], matrix[i, j - 1], matrix[above, j];
      var cell := if str2[above] == str1[j - 1] then diagonal else 1 + Min3(diagonal, left, up);
      LevStep(str2, str1, above, i, j - 1, j, diagonal, left, up);
      matrix[i, j] := cell;
      j := j + 1;
    }
  }

  /** `levenshteinDistance(str1, str2)` filling the (|str2|+1) x (|str1|+1)
      table row by row. */
  method LevenshteinDistance(str1: string, str2: string) returns (d: nat)
    ensures d == Distance(str1, str2)
    ensures d == EditDistance(str2, str1, |str2|, |str1|)
  {
    var matrix := new nat[|str2| + 1, |str1| + 1];
    var i := 0;
    while i <= |str2|
      invariant 0 <= i <= |str2| + 1
      invariant forall r :: 0 <= r < i ==> matrix[r, 0] == r
    {
      matrix[i, 0] := i;
      i := i + 1;
    }
    var j := 0;
    while j <= |str1|
      invariant 0 <= j <= |str1| + 1
      invariant forall c :: 0 <= c < j ==> matrix[0, c] == c
      invariant forall r :: 1 <= r <= |str2| ==> matrix[r, 0] == r
    {
      matrix[0, j] := j;
      j := j + 1;
    }
    i := 0;
    while i < |str2|
      invariant 0 <= i <= |str2|
      invariant forall c {:trigger matrix[i, c]} :: 0 <= c <= |str1| ==> matrix[i, c] == Lev(str2, str1, i, c)
      invariant forall r :: i < r <= |str2| ==> matrix[r, 0] == r
    {
      FillRow(matrix, str1, str2, i, i + 1);
      i := i + 1;
    }
    d := matrix[|str2|, |str1|];
    LevIsEditDistance(str2, str1, |str2|, |str1|);
  }

  /** `calculateStringSimilarity(str1, str2)`: one minus the edit distance
      relative to the longer string, 1 for two empty strings. When the lengths
      are equal the source takes str2 as the longer one. */
  function StringSimilarity(str1: string, str2: string): real {
    var longer := if |str1| > |str2| then str1 else str2;
    var shorter := if |str1| > |str2| then str2 else str1;
    if |longer| == 0 then 1.0
    else (|longer| - Distance(longer, shorter)) as real / |longer| as real
  }

  lemma RatioInUnitRange(x: real, n: real)
    requires 0.0 < n && 0.0 <= x <= n
    ensures 0.0 <= x / n <= 1.0
  {
    assert x / n * n == x;
  }

  lemma SimilarityInUnitRange(str1: string, str2: string)
    ensures 0.0 <= StringSimilarity(str1, str2) <= 1.0
  {
    var longer := if |str1| > |str2| then str1 else str2;
    var shorter := if |str1| > |str2| then str2 else str1;
    LevBounds(shorter, longer, |shorter|, |longer|);
    if |longer| > 0 {
      RatioInUnitRange((|longer| - Distance(longer, shorter)) as real, |longer| as real);
    }
  }

  lemma SimilaritySymmetric(str1: string, str2: string)
    ensures StringSimilarity(str1, str2) == StringSimilarity(str2, str1)
  {
    if |str1| == |str2| {
      LevSymmetric(str1, str2, |str1|, |str2|);
    }
  }

  /** Similarity 1 means the strings are identical, and only then. */
  lemma SimilarityOneIffEqual(str1: string, str2: string)
    ensures StringSimilarity(str1, str2) == 1.0 <==> str1 == str2
  {
    var longer := if |str1| > |str2| then str1 else str2;
    var shorter := if |str1| > |str2| then str2 else str1;
    LevZeroIffEqual(shorter, longer, |shorter|, |longer|);
    assert shorter[..|shorter|] == shorter && longer[..|longer|] == longer;
    if |longer| > 0 && StringSimilarity(str1, str2) == 1.0 {
      var d := Distance(longer, shorter) as real;
      var n := |longer| as real;
      assert (n - d) / n == 1.0;
      assert d == 0.0;
    }
  }

  /** `calculateStringSimilarity(str1, str2)` running the table method on
      the longer and the shorter string. */
  method CalculateStringSimilarity(str1: string, str2: string) returns (similarity: real)
    ensures similarity == StringSimilarity(str1, str2)
    ensures 0.0 <= similarity <= 1.0
    ensures similarity == 1.0 <==> str1 == str2
  {
    var longer := if |str1| > |str2| then str1 else str2;
    var shorter := if |str1| > |str2| then str2 else str1;
    if |longer| == 0 {
      similarity := 1.0;
    } else {
      var editDistance := LevenshteinDistance(longer, shorter);
      similarity := (|longer| - editDistance) as real / |longer| as real;
    }
    SimilarityInUnitRange(str1, str2);
    SimilarityOneIffEqual(str1, str2);
  }
}
