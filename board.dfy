/**
 The board's contents and the pure tests the game runs on it: whether a
 player has completed a win pattern, whether the board is full, and which
 cells are still free.
 */
module Board {
  import opened WinLines

  datatype Player = X | O

  /** A cell is empty ("") or holds a player's marker ("X" or "O"). */
  datatype Cell = Empty | Marked(player: Player)

  /** The player whose turn follows p's. */
  function Opponent(p: Player): (q: Player)
    ensures q != p
  {
    if p == X then O else X
  }

  /**
   Index i holds p's marker. An index off the board reads as `undefined`,
   which equals no marker.
   */
  predicate Holds(board: seq<Cell>, i: int, p: Player) {
    0 <= i < |board| && board[i] == Marked(p)
  }

  /** Every index of the line holds p's marker (the inner `every`). */
  predicate LineComplete(board: seq<Cell>, line: seq<int>, p: Player) {
    forall k :: 0 <= k < |line| ==> Holds(board, line[k], p)
  }

  /** Some pattern is complete for p (the outer `some`). */
  predicate AnyLineComplete(board: seq<Cell>, patterns: seq<seq<int>>, p: Player) {
    exists j :: 0 <= j < |patterns| && LineComplete(board, patterns[j], p)
  }

  /** The game's win test: some generated pattern is entirely p's. */
  predicate Wins(board: seq<Cell>, n: nat, p: Player) {
    AnyLineComplete(board, WinPatterns(n), p)
  }

  // An independent, geometric statement of a win on an n-by-n board.

  ghost predicate Owns(board: seq<Cell>, n: nat, p: Player, r: int, c: int) {
    Holds(board, CellIndex(n, r, c), p)
  }

  ghost predicate RowOwned(board: seq<Cell>, n: nat, p: Player, r: int) {
    forall c :: 0 <= c < n ==> Owns(board, n, p, r, c)
  }

  ghost predicate ColumnOwned(board: seq<Cell>, n: nat, p: Player, c: int) {
    forall r :: 0 <= r < n ==> Owns(board, n, p, r, c)
  }

  ghost predicate MainDiagonalOwned(board: seq<Cell>, n: nat, p: Player) {
    forall x :: 0 <= x < n ==> Owns(board, n, p, x, x)
  }

  /** p owns the cell of the anti-diagonal in row x: column n-1-x. */
  ghost predicate OwnsAntiDiagonalCell(board: seq<Cell>, n: nat, p: Player, x: int) {
    Owns(board, n, p, x, n - 1 - x)
  }

  ghost predicate AntiDiagonalOwned(board: seq<Cell>, n: nat, p: Player) {
    forall x :: 0 <= x < n ==> OwnsAntiDiagonalCell(board, n, p, x)
  }

  /** p owns a whole row, a whole column, or one of the two diagonals. */
  ghost predicate HasWinningLine(board: seq<Cell>, n: nat, p: Player) {
    || (exists r :: 0 <= r < n && RowOwned(board, n, p, r))
    || (exists c :: 0 <= c < n && ColumnOwned(board, n, p, c))
    || MainDiagonalOwned(board, n, p)
    || AntiDiagonalOwned(board, n, p)
  }

  /** Row pattern i is complete exactly when p owns row i. */
  lemma RowPatternIff(board: seq<Cell>, n: nat, p: Player, i: int)
    ensures LineComplete(board, Row(n, i), p) <==> RowOwned(board, n, p, i)
  {
    var line := Row(n, i);
    forall c | 0 <= c < n ensures line[c] == CellIndex(n, i, c) {}
    assert forall c :: 0 <= c < n ==> (Holds(board, line[c], p) <==> Owns(board, n, p, i, c));
  }

  /** Column pattern i is complete exactly when p owns column i. */
  lemma ColumnPatternIff(board: seq<Cell>, n: nat, p: Player, i: int)
    ensures LineComplete(board, Column(n, i), p) <==> ColumnOwned(board, n, p, i)
  {
    var line := Column(n, i);
    forall r | 0 <= r < n ensures line[r] == CellIndex(n, r, i) {}
    assert forall r :: 0 <= r < n ==> (Holds(board, line[r], p) <==> Owns(board, n, p, r, i));
  }

  /** The main-diagonal pattern is complete exactly when p owns cells (x, x). */
  lemma MainDiagonalPatternIff(board: seq<Cell>, n: nat, p: Player)
    ensures LineComplete(board, MainDiagonal(n), p) <==> MainDiagonalOwned(board, n, p)
  {
    var line := MainDiagonal(n);
    forall x | 0 <= x < n ensures line[x] == CellIndex(n, x, x) {
      DiagonalsHitTheirCells(n, x);
    }
    assert forall x :: 0 <= x < n ==> (Holds(board, line[x], p) <==> Owns(board, n, p, x, x));
  }

  /** The anti-diagonal pattern is complete exactly when p owns cells (x, n-1-x). */
  lemma AntiDiagonalPatternIff(board: seq<Cell>, n: nat, p: Player)
    ensures LineComplete(board, AntiDiagonal(n), p) <==> AntiDiagonalOwned(board, n, p)
  {
    var line := AntiDiagonal(n);
    forall x | 0 <= x < n ensures line[x] == CellIndex(n, x, n - 1 - x) {
      DiagonalsHitTheirCells(n, x);
    }
    assert forall x :: 0 <= x < n ==>
      (Holds(board, line[x], p) <==> OwnsAntiDiagonalCell(board, n, p, x));
  }

  /** Pattern j is complete exactly when its geometric line is owned. */
  lemma PatternCompleteIffOwned(board: seq<Cell>, n: nat, p: Player, j: nat)
    requires j < 2 * n + 2
    ensures |WinPatterns(n)| == 2 * n + 2
    ensures LineComplete(board, WinPatterns(n)[j], p) <==>
      if j < n then RowOwned(board, n, p, j)
      else if j < 2 * n then ColumnOwned(board, n, p, j - n)
      else if j == 2 * n then MainDiagonalOwned(board, n, p)
      else AntiDiagonalOwned(board, n, p)
  {
    WinPatternAt(n, j);
    if j < n {
      RowPatternIff(board, n, p, j);
    } else if j < 2 * n {
      ColumnPatternIff(board, n, p, j - n);
    } else if j == 2 * n {
      MainDiagonalPatternIff(board, n, p);
    } else {
      AntiDiagonalPatternIff(board, n, p);
    }
  }

  /**
   The pattern-based test the game runs agrees with the geometric
   definition of a win, for every board and every size.
   */
  lemma WinsIffWinningLine(board: seq<Cell>, n: nat, p: Player)
    ensures Wins(board, n, p) <==> HasWinningLine(board, n, p)
  {
    WinPatternAt(n, 0);
    if Wins(board, n, p) {
      var j :| 0 <= j < 2 * n + 2 && LineComplete(board, WinPatterns(n)[j], p);
      PatternCompleteIffOwned(board, n, p, j);
      if j < n {
        assert RowOwned(board, n, p, j);
      } else if j < 2 * n {
        assert ColumnOwned(board, n, p, j - n);
      }
    }
    if HasWinningLine(board, n, p) {
      var j: nat;
      if r :| 0 <= r < n && RowOwned(board, n, p, r) {
        j := r;
      } else if c :| 0 <= c < n && ColumnOwned(board, n, p, c) {
        j := n + c;
      } else if MainDiagonalOwned(board, n, p) {
        j := 2 * n;
      } else {
        j := 2 * n + 1;
      }
      PatternCompleteIffOwned(board, n, p, j);
      assert LineComplete(board, WinPatterns(n)[j], p);
    }
  }

  /** No cell is empty. */
  predicate IsFull(board: seq<Cell>) {
    forall i :: 0 <= i < |board| ==> board[i] != Empty
  }

  /**
   The indices i >= from of the empty cells, in increasing order: the
   map-to-index-or-null followed by the filter that drops the nulls.
   */
  function EmptyIndicesFrom(board: seq<Cell>, from: nat): (r: seq<nat>)
    requires from <= |board|
    ensures forall k :: 0 <= k < |r| ==> from <= r[k] < |board| && board[r[k]] == Empty
    ensures forall i :: from <= i < |board| && board[i] == Empty ==> i in r
    ensures forall k, l :: 0 <= k < l < |r| ==> r[k] < r[l]
    decreases |board| - from
  {
    if from == |board| then []
    else if board[from] == Empty then [from] + EmptyIndicesFrom(board, from + 1)
    else EmptyIndicesFrom(board, from + 1)
  }

  /** The candidate moves: the indices of all empty cells, in increasing order. */
  function AvailableMoves(board: seq<Cell>): (r: seq<nat>)
    ensures forall i :: i in r <==> 0 <= i < |board| && board[i] == Empty
    ensures forall k, l :: 0 <= k < l < |r| ==> r[k] < r[l]
  {
    EmptyIndicesFrom(board, 0)
  }

  /** The board is full exactly when there is no candidate move. */
  lemma FullIffNoMoves(board: seq<Cell>)
    ensures IsFull(board) <==> AvailableMoves(board) == []
  {
    if !IsFull(board) {
      var i :| 0 <= i < |board| && board[i] == Empty;
      assert i in AvailableMoves(board);
    }
    if AvailableMoves(board) != [] {
      var k := AvailableMoves(board)[0];
      assert board[k] == Empty;
    }
  }
}
