/**
 Two short games on a 2-by-2 board, played through the handlers, that show
 what the click guard does once the turn has left X or a game has been won.
 */
module Scenarios {
  import opened WinLines
  import opened Board
  import opened Game

  /** After X's opening in cell 0 nobody owns a line and cells remain. */
  lemma AfterOpening(b: seq<Cell>)
    requires b == [Marked(X), Empty, Empty, Empty]
    ensures !HasWinningLine(b, 2, X) && !HasWinningLine(b, 2, O) && !IsFull(b)
  {
    forall r | 0 <= r < 2 ensures !RowOwned(b, 2, X, r) {
      assert !Owns(b, 2, X, r, 1);
    }
    forall c | 0 <= c < 2 ensures !ColumnOwned(b, 2, X, c) {
      assert !Owns(b, 2, X, 1, c);
    }
    assert !Owns(b, 2, X, 1, 1);
    assert !OwnsAntiDiagonalCell(b, 2, X, 0);
    assert !Owns(b, 2, O, 0, 0);
    assert !Owns(b, 2, O, 1, 1);
    assert !OwnsAntiDiagonalCell(b, 2, O, 0);
    assert b[1] == Empty;
  }

  /** The computer's candidates after X's opening are cells 1, 2 and 3. */
  lemma MovesAfterOpening(b: seq<Cell>)
    requires b == [Marked(X), Empty, Empty, Empty]
    ensures AvailableMoves(b) == [1, 2, 3]
  {
    assert EmptyIndicesFrom(b, 4) == [];
    assert EmptyIndicesFrom(b, 3) == [3];
    assert EmptyIndicesFrom(b, 2) == [2, 3];
    assert EmptyIndicesFrom(b, 1) == [1, 2, 3];
  }

  /** After the computer's reply in cell 1, O owns no line and cells remain. */
  lemma AfterReply(b: seq<Cell>)
    requires b == [Marked(X), Marked(O), Empty, Empty]
    ensures !HasWinningLine(b, 2, O) && !IsFull(b)
  {
    forall r | 0 <= r < 2 ensures !RowOwned(b, 2, O, r) {
      assert !Owns(b, 2, O, r, 0);
    }
    forall c | 0 <= c < 2 ensures !ColumnOwned(b, 2, O, c) {
      assert !Owns(b, 2, O, 1, c);
    }
    assert !Owns(b, 2, O, 0, 0);
    assert !OwnsAntiDiagonalCell(b, 2, O, 1);
    assert b[2] == Empty;
  }

  /** X's cells 0 and 2 fill column 0. */
  lemma AfterSecondMove(b: seq<Cell>)
    requires b == [Marked(X), Marked(O), Marked(X), Empty]
    ensures HasWinningLine(b, 2, X)
  {
    assert Owns(b, 2, X, 0, 0) && Owns(b, 2, X, 1, 0);
    assert ColumnOwned(b, 2, X, 0);
  }

  /**
   In two-player mode, after X's first move that neither wins nor fills the
   board the turn is O's, and the click guard refuses every click from then on.
   */
  method TwoPlayerStallsAfterOpening() returns (second: ClickResult)
    ensures second == Ignored
  {
    var g := new TicTacToe(2, TwoPlayer, 0, 0);
    assert g.board == [Empty, Empty, Empty, Empty];

    var r1 := g.HandleCellClick(0);
    assert g.board == [Marked(X), Empty, Empty, Empty];
    AfterOpening(g.board);
    assert r1 == Played(Continue, false) && g.current == O;

    second := g.HandleCellClick(1);
  }

  /** Solo mode: X opens in cell 0; the computer's reply is scheduled. */
  method SoloOpening() returns (g: TicTacToe)
    ensures fresh(g) && g.Valid() && g.size == 2 && g.mode == Solo
    ensures g.board == [Marked(X), Empty, Empty, Empty]
    ensures g.current == O && g.score1 == 0 && g.score2 == 0
  {
    g := new TicTacToe(2, Solo, 0, 0);
    assert g.board == [Empty, Empty, Empty, Empty];
    var r1 := g.HandleCellClick(0);
    assert r1.Played?;
    assert g.board == [Marked(X), Empty, Empty, Empty];
    AfterOpening(g.board);
    assert r1.outcome == Continue;
    assert r1.computerScheduled;
  }

  /** Solo mode: after the opening, the computer given choice 0 answers in cell 1. */
  method SoloOpeningAndReply() returns (g: TicTacToe)
    ensures fresh(g) && g.Valid() && g.size == 2 && g.mode == Solo
    ensures g.board == [Marked(X), Marked(O), Empty, Empty]
    ensures g.current == X && g.score1 == 0 && g.score2 == 0
  {
    g := SoloOpening();
    AfterOpening(g.board);
    MovesAfterOpening(g.board);
    var r2 := g.ComputerMove(0);
    assert r2.Moved? && r2.index == 1;
    assert g.board == [Marked(X), Marked(O), Empty, Empty];
    AfterReply(g.board);
    assert r2.outcome == Continue;
  }

  /** X's cells 0, 2 and 3 still fill column 0, and no cell is empty. */
  lemma AfterThirdMove(b: seq<Cell>)
    requires b == [Marked(X), Marked(O), Marked(X), Marked(X)]
    ensures HasWinningLine(b, 2, X) && IsFull(b)
  {
    assert Owns(b, 2, X, 0, 0) && Owns(b, 2, X, 1, 0);
    assert ColumnOwned(b, 2, X, 0);
  }

  /**
   In solo mode, after the opening and the reply, X completes column 0 with
   cell 2 and wins. There is no game-over state: the turn stays with X, so
   X's click on the last empty cell is still played before the delayed
   reset runs, and the column, still complete, scores X a second point.
   */
  method XKeepsPlayingAfterWinning() returns (afterWin: ClickResult, xScore: nat)
    ensures afterWin == Played(Won, false)
    ensures xScore == 2
  {
    var g := SoloOpeningAndReply();

    var r3 := g.HandleCellClick(2);
    assert g.board == [Marked(X), Marked(O), Marked(X), Empty];
    AfterSecondMove(g.board);
    assert r3 == Played(Won, false) && g.score1 == 1 && g.current == X;

    afterWin := g.HandleCellClick(3);
    assert g.board == [Marked(X), Marked(O), Marked(X), Marked(X)];
    AfterThirdMove(g.board);
    xScore := g.score1;
  }
}
