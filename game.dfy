/**
 The game as a state machine over mutable state: the board, whose turn it
 is, the two score counters, the board size and the game mode. Each event
 handler of the page is a method; rendering, storage and timers are not
 part of this model, and the delayed computer move and the delayed reset
 are methods the caller invokes.
 */
module Game {
  import opened WinLines
  import opened Board

  /** Two players at one screen, or one player against the computer. */
  datatype Mode = TwoPlayer | Solo

  /** What a move led to: a win for the mover, a draw, or play goes on. */
  datatype Outcome = Won | Draw | Continue

  /** A click is ignored, or plays X's move and may schedule the computer's reply. */
  datatype ClickResult = Ignored | Played(outcome: Outcome, computerScheduled: bool)

  /** The computer finds no empty cell, or plays at `index`. */
  datatype ComputerResult = NoMove | Moved(index: nat, outcome: Outcome)

  class TicTacToe {
    var size: nat
    var board: seq<Cell>
    var current: Player
    var score1: nat  // X's wins
    var score2: nat  // O's wins
    var mode: Mode

    /** The board always has size * size cells. */
    ghost predicate Valid()
      reads this
    {
      |board| == size * size
    }

    /**
     The effect of one move at index i by `mover`: the cell is written and
     nothing else on the board changes; then exactly one of a win (the
     mover's counter goes up by one), a draw (nothing else changes) or a
     turn change (the marker flips).
     */
    twostate predicate MoveApplied(i: nat, mover: Player, outcome: Outcome)
      reads this
    {
      && size == old(size)
      && mode == old(mode)
      && i < |old(board)|
      && board == old(board)[i := Marked(mover)]
      && outcome == (if HasWinningLine(board, size, mover) then Won
                     else if IsFull(board) then Draw
                     else Continue)
      && (outcome == Won ==>
            && current == mover
            && score1 == old(score1) + (if mover == X then 1 else 0)
            && score2 == old(score2) + (if mover == O then 1 else 0))
      && (outcome == Draw ==>
            current == mover && score1 == old(score1) && score2 == old(score2))
      && (outcome == Continue ==>
            current == Opponent(mover) && score1 == old(score1) && score2 == old(score2))
    }

    /** The page's start-up state: an empty board, X to move, the saved scores. */
    constructor (n: nat, m: Mode, savedScore1: nat, savedScore2: nat)
      ensures Valid()
      ensures size == n && mode == m && current == X
      ensures score1 == savedScore1 && score2 == savedScore2
      ensures forall k :: 0 <= k < |board| ==> board[k] == Empty
    {
      size := n;
      board := seq(n * n, _ => Empty);
      current := X;
      score1, score2 := savedScore1, savedScore2;
      mode := m;
    }

    /** Whether the player to move owns a whole row, column or diagonal. */
    method CheckWin() returns (win: bool)
      ensures win <==> HasWinningLine(board, size, current)
    {
      var patterns := BuildWinPatterns(size);
      win := AnyLineComplete(board, patterns, current);
      WinsIffWinningLine(board, size, current);
    }

    /** Writes the current marker at i, then scores a win, stops on a draw, or passes the turn. */
    method MakeMove(i: nat) returns (outcome: Outcome)
      requires Valid() && i < |board|
      modifies this
      ensures Valid()
      ensures MoveApplied(i, old(current), outcome)
    {
      board := board[i := Marked(current)];
      var win := CheckWin();
      if win {
        if current == X {
          score1 := score1 + 1;
        } else {
          score2 := score2 + 1;
        }
        outcome := Won;
      } else if IsFull(board) {
        outcome := Draw;
      } else {
        current := Opponent(current);
        outcome := Continue;
      }
    }

    /**
     A click on cell i is played only when that cell is empty and it is X's
     turn; otherwise nothing changes. In solo mode, a played click that
     leaves the player now to move without a line and the board not full
     schedules the computer's reply.
     */
    method HandleCellClick(i: nat) returns (result: ClickResult)
      requires Valid()
      modifies this
      ensures Valid()
      ensures result.Played? <==> i < |old(board)| && old(board)[i] == Empty && old(current) == X
      ensures result.Ignored? ==> unchanged(this)
      ensures result.Played? ==> MoveApplied(i, X, result.outcome)
      ensures result.Played? ==>
        (result.computerScheduled <==>
           mode == Solo && !HasWinningLine(board, size, current) && !IsFull(board))
    {
      if i < |board| && board[i] == Empty && current == X {
        var outcome := MakeMove(i);
        var win := CheckWin();
        result := Played(outcome, mode == Solo && !win && !IsFull(board));
      } else {
        result := Ignored;
      }
    }

    /**
     The computer's move: among the indices of the empty cells, in
     increasing order, it plays the one at position choice mod their count
     (choice stands for the random draw). With no empty cell nothing changes.
     */
    method ComputerMove(choice: nat) returns (result: ComputerResult)
      requires Valid()
      modifies this
      ensures Valid()
      ensures result.NoMove? <==> old(IsFull(board))
      ensures result.NoMove? ==> unchanged(this)
      ensures result.Moved? ==>
        && MoveApplied(result.index, old(current), result.outcome)
        && old(board)[result.index] == Empty
        && var moves := old(AvailableMoves(board));
           |moves| > 0 && result.index == moves[choice % |moves|]
    {
      var moves := AvailableMoves(board);
      FullIffNoMoves(board);
      if |moves| == 0 {
        result := NoMove;
      } else {
        var index := moves[choice % |moves|];
        var outcome := MakeMove(index);
        result := Moved(index, outcome);
      }
    }

    /** A fresh game of the current size: every cell empty, X to move, scores kept. */
    method ResetGame()
      modifies this
      ensures Valid()
      ensures |board| == size * size
      ensures forall k :: 0 <= k < |board| ==> board[k] == Empty
      ensures current == X
      ensures size == old(size) && mode == old(mode)
      ensures score1 == old(score1) && score2 == old(score2)
    {
      board := seq(size * size, _ => Empty);
      current := X;
    }

    /** Both counters drop to zero; the board and the turn are untouched. */
    method ResetScores()
      requires Valid()
      modifies this
      ensures Valid()
      ensures score1 == 0 && score2 == 0
      ensures board == old(board) && current == old(current)
      ensures size == old(size) && mode == old(mode)
    {
      score1 := 0;
      score2 := 0;
    }

    /** A new board size starts a fresh game of that size. */
    method ChangeBoardSize(n: nat)
      modifies this
      ensures Valid()
      ensures size == n && |board| == n * n
      ensures forall k :: 0 <= k < |board| ==> board[k] == Empty
      ensures current == X && mode == old(mode)
      ensures score1 == old(score1) && score2 == old(score2)
    {
      size := n;
      ResetGame();
    }

    /** A new game mode starts a fresh game of the same size. */
    method ChangeMode(m: Mode)
      modifies this
      ensures Valid()
      ensures mode == m && size == old(size)
      ensures forall k :: 0 <= k < |board| ==> board[k] == Empty
      ensures current == X
      ensures score1 == old(score1) && score2 == old(score2)
    {
      mode := m;
      ResetGame();
    }
  }
}
