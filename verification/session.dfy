/** The per-conversation game state and the three handlers that touch it:
    `start`, `game` and `end`. The board lives in a 3x3 array that `game`
    updates cell by cell. */
module Bot {
  import opened Board
  import opened Keyboard
  import opened Rules

  /** The contents of a 3x3 board array as a grid value. */
  function GridOf(a: array2<char>): (g: Grid)
    requires a.Length0 == 3 && a.Length1 == 3
    reads a
    ensures IsGrid(g) && forall p: Pos :: At(g, p) == a[p.0, p.1]
  {
    [[a[0, 0], a[0, 1], a[0, 2]],
     [a[1, 0], a[1, 1], a[1, 2]],
     [a[2, 0], a[2, 1], a[2, 2]]]
  }

  /** Writing a mark into one cell of the array: that cell is overwritten and
      every other keeps its mark. */
  method WriteCell(a: array2<char>, p: Pos, m: char)
    requires a.Length0 == 3 && a.Length1 == 3
    modifies a
    ensures GridOf(a) == Place(old(GridOf(a)), p, m)
  {
    ghost var g := GridOf(a);
    a[p.0, p.1] := m;
    SameCells(GridOf(a), Place(g, p, m));
  }

  /** `get_default_state`: a fresh copy of DEFAULT_STATE, so that writing to
      it changes no other board. */
  method GetDefaultState() returns (a: array2<char>)
    ensures fresh(a) && a.Length0 == 3 && a.Length1 == 3
    ensures GridOf(a) == DefaultState()
  {
    a := new char[3, 3]((_, _) => FreeSpace);
    SameCells(GridOf(a), DefaultState());
  }

  /** One conversation and the board its user data stores. */
  class Session {
    var board: array2<char>

    ghost predicate Valid()
      reads this
    {
      board.Length0 == 3 && board.Length1 == 3
    }

    /** The stored board as a grid value. */
    function Cells(): (g: Grid)
      requires Valid()
      reads this, board
      ensures IsGrid(g)
    {
      GridOf(board)
    }

    /** A conversation whose storage holds the default board. */
    constructor ()
      ensures Valid() && fresh(board) && Cells() == DefaultState()
    {
      var a := GetDefaultState();
      board := a;
    }

    /** `start`: store a fresh default board, show its keyboard and answer
        CONTINUE_GAME. */
    method Start() returns (state: State, keyboard: seq<seq<Button>>)
      modifies this
      ensures Valid() && fresh(board) && Cells() == DefaultState()
      ensures state == ContinueGame && keyboard == GenerateKeyboard(DefaultState())
    {
      board := GetDefaultState();
      keyboard := GenerateKeyboard(Cells());
      state := ContinueGame;
    }

    /** The board logic of `game` for a press on `cell`: the player's cross,
        then, unless that ended the game, the bot's nought. The stored board
        and the reply are those of the turn function. */
    method Move(cell: Pos, pick: nat) returns (outcome: Outcome)
      requires Valid()
      modifies board
      ensures Valid()
      ensures TurnResult(outcome, Cells()) == Turn(old(Cells()), cell, pick)
    {
      ghost var g := Cells();
      if board[cell.0, cell.1] != FreeSpace {
        OccupiedCellRejected(g, cell, pick);
        return SpaceTaken;
      }
      WriteCell(board, cell, Cross);
      var afterCross := Cells();
      if Won(afterCross) {
        PlayerBranch(g, cell, pick);
        return PlayerWon;
      } else if Full(afterCross) {
        PlayerBranch(g, cell, pick);
        return PlayerTie;
      }
      var emptyCells := EmptyCells(afterCross);
      if |emptyCells| > 0 {
        var q := Choice(emptyCells, pick);
        WriteCell(board, q, Zero);
        var afterZero := Cells();
        ghost var q' := OpponentBranch(g, cell, pick);
        if Won(afterZero) {
          return OpponentWon;
        } else if Full(afterZero) {
          return OpponentTie;
        }
      }
      return NextTurn;
    }

    /** `game`: handle a press of the button with callback data `data`, the
        bot's random choice being made by `pick`. The stored board and the
        reply are those of the turn function; when the game goes on to the
        next turn, the reply carries the keyboard of the new board. */
    method Game(data: string, pick: nat) returns (outcome: Outcome, state: State, keyboard: seq<seq<Button>>)
      requires Valid() && IsCallbackData(data)
      modifies board
      ensures Valid()
      ensures TurnResult(outcome, Cells()) == Turn(old(Cells()), ParseCallback(data), pick)
      ensures state == StateOf(outcome)
      ensures keyboard == if outcome == NextTurn then GenerateKeyboard(Cells()) else []
    {
      outcome := Move(ParseCallback(data), pick);
      state := StateOf(outcome);
      keyboard := if outcome == NextTurn then GenerateKeyboard(Cells()) else [];
    }

    /** `end`: replace the stored board by a fresh default board and end the
        conversation. */
    method End() returns (state: State)
      modifies this
      ensures Valid() && fresh(board) && Cells() == DefaultState()
      ensures state == Ended
    {
      board := GetDefaultState();
      state := Ended;
    }
  }
}
