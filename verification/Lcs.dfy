/** common_lcs (common/common.cpp): the longest common contiguous run of two token lists, with two rolling rows. */
module Lcs {

  type Token = int

  /** The length of the longest common run that ends just before `a[i]` and `b[j]`. */
  function EndingAt(a: seq<Token>, b: seq<Token>, i: nat, j: nat): nat
    requires i <= |a| && j <= |b|
  {
    if i == 0 || j == 0 || a[i - 1] != b[j - 1] then 0 else EndingAt(a, b, i - 1, j - 1) + 1
  }

  /** A run of `n` tokens of `a` that starts at `i` is found in `b` at `j`. */
  predicate CommonRun(a: seq<Token>, b: seq<Token>, i: nat, j: nat, n: nat) {
    i + n <= |a| && j + n <= |b| && a[i..i + n] == b[j..j + n]
  }

  lemma {:induction false} EndingAtIsRun(a: seq<Token>, b: seq<Token>, i: nat, j: nat)
    requires i <= |a| && j <= |b|
    ensures var n := EndingAt(a, b, i, j); n <= i && n <= j && CommonRun(a, b, i - n, j - n, n)
  {
    if i > 0 && j > 0 && a[i - 1] == b[j - 1] {
      EndingAtIsRun(a, b, i - 1, j - 1);
      var n := EndingAt(a, b, i, j);
      assert a[i - n..i] == a[i - n..i - 1] + [a[i - 1]] && b[j - n..j] == b[j - n..j - 1] + [b[j - 1]];
    }
  }

  lemma {:induction false} EndingAtIsLongest(a: seq<Token>, b: seq<Token>, i: nat, j: nat, n: nat)
    requires CommonRun(a, b, i, j, n)
    ensures n <= EndingAt(a, b, i + n, j + n)
  {
    if n > 0 {
      assert a[i..i + n][n - 1] == a[i + n - 1] && b[j..j + n][n - 1] == b[j + n - 1];
      assert a[i..i + n - 1] == a[i..i + n][..n - 1] && b[j..j + n - 1] == b[j..j + n][..n - 1];
      EndingAtIsLongest(a, b, i, j, n - 1);
    }
  }

  /** The borders of the table, and one of its inner cells. */
  lemma Cell(a: seq<Token>, b: seq<Token>, i: nat, j: nat)
    requires i <= |a| && j <= |b|
    ensures i == 0 || j == 0 ==> EndingAt(a, b, i, j) == 0
    ensures i > 0 && j > 0 ==>
              EndingAt(a, b, i, j) == if a[i - 1] == b[j - 1] then EndingAt(a, b, i - 1, j - 1) + 1 else 0
  {
  }

  /** A bound on the table is a bound on the common runs. */
  lemma RunsBounded(a: seq<Token>, b: seq<Token>, bound: nat)
    requires forall x: nat, y: nat :: x <= |a| && y <= |b| ==> EndingAt(a, b, x, y) <= bound
    ensures forall i: nat, j: nat, n: nat :: CommonRun(a, b, i, j, n) ==> n <= bound
  {
    forall i: nat, j: nat, n: nat | CommonRun(a, b, i, j, n)
      ensures n <= bound
    {
      EndingAtIsLongest(a, b, i, j, n);
    }
  }

  lemma NoRuns(a: seq<Token>, b: seq<Token>)
    requires a == [] || b == []
    ensures forall x: nat, y: nat :: x <= |a| && y <= |b| ==> EndingAt(a, b, x, y) == 0
  {
  }

  lemma Borders(a: seq<Token>, b: seq<Token>)
    ensures forall y: nat :: y <= |b| ==> EndingAt(a, b, 0, y) == 0
  {
  }

  method CommonLcs(a: seq<Token>, b: seq<Token>) returns (maxLength: nat)
    ensures exists i: nat, j: nat :: CommonRun(a, b, i, j, maxLength)
    ensures forall i: nat, j: nat, n: nat :: CommonRun(a, b, i, j, n) ==> n <= maxLength
  {
    hide EndingAt, CommonRun;
    maxLength := 0;
    ghost var bestI, bestJ := 0, 0;
    Borders(a, b);
    if a != [] && b != [] {
      var prevRow := new nat[|b| + 1](_ => 0);
      var currRow := new nat[|b| + 1](_ => 0);
      for i := 1 to |a| + 1
        invariant prevRow.Length == currRow.Length == |b| + 1
        invariant currRow[0] == 0
        invariant forall j :: 0 <= j <= |b| ==> prevRow[j] == EndingAt(a, b, i - 1, j)
        invariant bestI <= |a| && bestJ <= |b| && maxLength == EndingAt(a, b, bestI, bestJ)
        invariant forall x: nat, y: nat :: x < i && y <= |b| ==> EndingAt(a, b, x, y) <= maxLength
      {
        Cell(a, b, i, 0);
        for j := 1 to |b| + 1
          invariant currRow[0] == 0
          invariant forall y :: 0 <= y < j ==> currRow[y] == EndingAt(a, b, i, y)
          invariant forall y :: 0 <= y <= |b| ==> prevRow[y] == EndingAt(a, b, i - 1, y)
          invariant bestI <= |a| && bestJ <= |b| && maxLength == EndingAt(a, b, bestI, bestJ)
          invariant forall x: nat, y: nat :: x < i && y <= |b| ==> EndingAt(a, b, x, y) <= maxLength
          invariant forall y: nat :: y < j ==> EndingAt(a, b, i, y) <= maxLength
        {
          Cell(a, b, i, j);
          Cell(a, b, i - 1, j - 1);
          if a[i - 1] == b[j - 1] {
            if i == 1 || j == 1 {
              currRow[j] := 1;
            } else {
              currRow[j] := prevRow[j - 1] + 1;
            }
            if currRow[j] > maxLength {
              maxLength := currRow[j];
              bestI, bestJ := i, j;
            }
          } else {
            currRow[j] := 0;
          }
        }
        forall y | 0 <= y <= |b| {
          prevRow[y] := currRow[y];
        }
      }
    } else {
      NoRuns(a, b);
    }
    EndingAtIsRun(a, b, bestI, bestJ);
    assert CommonRun(a, b, bestI - maxLength, bestJ - maxLength, maxLength);
    RunsBounded(a, b, maxLength);
  }
}
