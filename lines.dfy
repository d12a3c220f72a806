/**
 The index arithmetic of win detection on an n-by-n board stored row-major
 in a flat array: the rows, the columns and the two diagonals as lists of
 flat indices, in the order the game pushes them.
 */
module WinLines {

  /** Flat index of the cell at row r, column c (row-major layout). */
  function CellIndex(n: nat, r: int, c: int): int {
    r * n + c
  }

  /** Row i: the indices x + i*n for x in 0..n-1. */
  function Row(n: nat, i: int): seq<int> {
    seq(n, x => x + i * n)
  }

  /** Column i: the indices x*n + i for x in 0..n-1. */
  function Column(n: nat, i: int): seq<int> {
    seq(n, x => x * n + i)
  }

  /** The main diagonal as the game writes it: x*(n+1). */
  function MainDiagonal(n: nat): seq<int> {
    seq(n, x => x * (n + 1))
  }

  /** The anti-diagonal as the game writes it: (x+1)*(n-1). */
  function AntiDiagonal(n: nat): seq<int> {
    seq(n, x => (x + 1) * (n - 1))
  }

  /** The first k rows, in the order they are pushed. */
  function Rows(n: nat, k: nat): (ps: seq<seq<int>>)
    ensures |ps| == k
    ensures forall i :: 0 <= i < k ==> ps[i] == Row(n, i)
  {
    if k == 0 then [] else Rows(n, k - 1) + [Row(n, k - 1)]
  }

  /** The first k columns, in the order they are pushed. */
  function Columns(n: nat, k: nat): (ps: seq<seq<int>>)
    ensures |ps| == k
    ensures forall i :: 0 <= i < k ==> ps[i] == Column(n, i)
  {
    if k == 0 then [] else Columns(n, k - 1) + [Column(n, k - 1)]
  }

  /** All win patterns: n rows, then n columns, then the two diagonals. */
  function WinPatterns(n: nat): seq<seq<int>> {
    Rows(n, n) + Columns(n, n) + [MainDiagonal(n), AntiDiagonal(n)]
  }

  /** Pattern j is row j, column j-n, the main or the anti-diagonal. */
  lemma WinPatternAt(n: nat, j: nat)
    requires j < 2 * n + 2
    ensures |WinPatterns(n)| == 2 * n + 2
    ensures WinPatterns(n)[j] ==
      if j < n then Row(n, j)
      else if j < 2 * n then Column(n, j - n)
      else if j == 2 * n then MainDiagonal(n)
      else AntiDiagonal(n)
  {
  }

  /** A row and a column inside the board give a flat index inside the board. */
  lemma CellIndexInRange(n: nat, r: int, c: int)
    requires 0 <= r < n && 0 <= c < n
    ensures 0 <= CellIndex(n, r, c) < n * n
  {
    assert 0 <= r * n by {
      assert 0 <= r && 0 <= n;
    }
    assert r * n <= (n - 1) * n by {
      assert (n - 1 - r) * n >= 0;
    }
  }

  /**
   Both diagonal formulas land on the right cells: element x of the main
   diagonal is row x, column x, and element x of the anti-diagonal is
   row x, column n-1-x.
   */
  lemma DiagonalsHitTheirCells(n: nat, x: int)
    requires 0 <= x < n
    ensures MainDiagonal(n)[x] == CellIndex(n, x, x)
    ensures AntiDiagonal(n)[x] == CellIndex(n, x, n - 1 - x)
  {
  }

  /**
   There are exactly 2n+2 patterns, each with exactly n indices, and every
   index lies on the board.
   */
  lemma WinPatternsWellFormed(n: nat)
    ensures |WinPatterns(n)| == 2 * n + 2
    ensures forall j :: 0 <= j < 2 * n + 2 ==> |WinPatterns(n)[j]| == n
    ensures forall j, k :: 0 <= j < 2 * n + 2 && 0 <= k < n ==>
              0 <= WinPatterns(n)[j][k] < n * n
  {
    forall j, k | 0 <= j < 2 * n + 2 && 0 <= k < n
      ensures |WinPatterns(n)[j]| == n && 0 <= WinPatterns(n)[j][k] < n * n
    {
      WinPatternAt(n, j);
      if j < n {
        CellIndexInRange(n, j, k);
      } else if j < 2 * n {
        CellIndexInRange(n, k, j - n);
      } else if j == 2 * n {
        DiagonalsHitTheirCells(n, k);
        CellIndexInRange(n, k, k);
      } else {
        DiagonalsHitTheirCells(n, k);
        CellIndexInRange(n, k, n - 1 - k);
      }
    }
    WinPatternAt(n, 0);
  }

  /** Builds the win patterns with two counting loops and four kinds of push. */
  method BuildWinPatterns(n: nat) returns (patterns: seq<seq<int>>)
    ensures patterns == WinPatterns(n)
  {
    patterns := [];
    for i := 0 to n
      invariant patterns == Rows(n, i)
    {
      patterns := patterns + [Row(n, i)];
    }
    for i := 0 to n
      invariant patterns == Rows(n, n) + Columns(n, i)
    {
      patterns := patterns + [Column(n, i)];
    }
    patterns := patterns + [MainDiagonal(n)];
    patterns := patterns + [AntiDiagonal(n)];
  }
}
