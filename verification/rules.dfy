/** One turn of the game handler: the player's cross, then, unless that ended
    the game, one nought on a free cell picked by the random source. */
module Rules {
  import opened Board

  /** The handler's return value: CONTINUE_GAME, FINISH_GAME, or
      ConversationHandler.END returned by the reset handler. */
  datatype State = ContinueGame | FinishGame | Ended

  /** Which reply the handler sends; the reply text itself is not modelled. */
  datatype Outcome =
    | SpaceTaken   // "Space is already taken, choose another one."
    | PlayerWon    // "Congratulations! You have won!"
    | PlayerTie    // "It's a tie!" after the player's cross
    | OpponentWon  // "Sorry, you lost!"
    | OpponentTie  // "It's a tie!" after the bot's nought
    | NextTurn     // "Your turn! ..." with the new keyboard

  /** The state the handler answers with: the move handler never ends the
      conversation itself. */
  function StateOf(o: Outcome): (s: State)
    ensures s != Ended
  {
    match o
    case SpaceTaken | NextTurn => ContinueGame
    case PlayerWon | PlayerTie | OpponentWon | OpponentTie => FinishGame
  }

  /** `random.choice(s)` with the random source as an injected number. */
  function Choice(s: seq<Pos>, pick: nat): (p: Pos)
    requires |s| > 0
    ensures p in s
  {
    s[pick % |s|]
  }

  /** Any element of the list can be the one chosen. */
  lemma EveryCandidateCanBeChosen(s: seq<Pos>, p: Pos)
    requires p in s
    ensures exists pick: nat :: Choice(s, pick) == p
  {
    var k :| 0 <= k < |s| && s[k] == p;
    assert k % |s| == k;
    assert Choice(s, k) == p;
  }

  datatype TurnResult = TurnResult(outcome: Outcome, board: Grid)

  /** The reply after the bot's nought: win checked first, then a full board. */
  function ReplyOutcome(b: Grid): (o: Outcome)
    requires IsGrid(b)
    ensures o in {OpponentWon, OpponentTie, NextTurn}
    ensures o == OpponentWon <==> Won(b)
    ensures StateOf(o) == ContinueGame <==> !Won(b) && !Full(b)
  {
    if Won(b) then OpponentWon else if Full(b) then OpponentTie else NextTurn
  }

  /** The board logic of `game` for a move to `cell`, with `pick` standing for
      the random source. */
  function Turn(g: Grid, cell: Pos, pick: nat): (t: TurnResult)
    requires IsGrid(g)
    ensures IsGrid(t.board)
  {
    if At(g, cell) != FreeSpace then TurnResult(SpaceTaken, g)
    else
      var g1 := Place(g, cell, Cross);
      if Won(g1) then TurnResult(PlayerWon, g1)
      else if Full(g1) then TurnResult(PlayerTie, g1)
      else
        var empty := EmptyCells(g1);
        if |empty| == 0 then TurnResult(NextTurn, g1)
        else
          var g2 := Place(g1, Choice(empty, pick), Zero);
          TurnResult(ReplyOutcome(g2), g2)
  }

  /** The player's branch of a turn: a cross that completes a line or fills
      the board ends the turn, the win reported first. */
  lemma PlayerBranch(g: Grid, cell: Pos, pick: nat)
    requires IsGrid(g) && At(g, cell) == FreeSpace
    requires Won(Place(g, cell, Cross)) || Full(Place(g, cell, Cross))
    ensures Turn(g, cell, pick)
         == TurnResult(if Won(Place(g, cell, Cross)) then PlayerWon else PlayerTie, Place(g, cell, Cross))
  {
  }

  /** The bot's branch of a turn: its nought goes on the chosen free cell. */
  lemma {:induction false} OpponentBranch(g: Grid, cell: Pos, pick: nat) returns (q: Pos)
    requires IsGrid(g) && At(g, cell) == FreeSpace
    requires !Won(Place(g, cell, Cross)) && !Full(Place(g, cell, Cross))
    ensures |EmptyCells(Place(g, cell, Cross))| > 0
    ensures q == Choice(EmptyCells(Place(g, cell, Cross)), pick)
    ensures q != cell && At(g, q) == FreeSpace
    ensures var b := Place(Place(g, cell, Cross), q, Zero);
      Turn(g, cell, pick) == TurnResult(ReplyOutcome(b), b)
  {
    var g1 := Place(g, cell, Cross);
    EmptyCellsExactlyFree(g1);
    q := Choice(EmptyCells(g1), pick);
    assert At(g1, q) == FreeSpace;
  }


  /** A move to an occupied cell is rejected: the reply is "space taken", the
      game goes on and the board is unchanged; no move to a free cell is
      rejected. */
  lemma OccupiedCellRejected(g: Grid, cell: Pos, pick: nat)
    requires IsGrid(g)
    ensures Turn(g, cell, pick).outcome == SpaceTaken <==> At(g, cell) != FreeSpace
    ensures At(g, cell) != FreeSpace ==>
              Turn(g, cell, pick).board == g && StateOf(Turn(g, cell, pick).outcome) == ContinueGame
  {
  }

  /** A move to a free cell writes a cross there. The player's move ends the
      game exactly when the board is then won or full, with the win reported
      first; in that case the bot places nothing. */
  lemma PlayerMoveOnFreeCell(g: Grid, cell: Pos, pick: nat)
    requires IsGrid(g) && At(g, cell) == FreeSpace
    ensures var t := Turn(g, cell, pick); var g1 := Place(g, cell, Cross);
      && At(t.board, cell) == Cross
      && (t.outcome in {PlayerWon, PlayerTie} <==> Won(g1) || Full(g1))
      && (t.outcome == PlayerWon <==> Won(g1))
      && (t.outcome in {PlayerWon, PlayerTie} ==>
            t.board == g1 && Count(t.board, Zero) == Count(g, Zero)
            && StateOf(t.outcome) == FinishGame)
  {
    var g1 := Place(g, cell, Cross);
    CountAfterPlace(g, cell, Cross, Zero);
    if Won(g1) || Full(g1) {
      PlayerBranch(g, cell, pick);
    } else {
      var q := OpponentBranch(g, cell, pick);
    }
  }

  /** When the player's move does not end the game, the free-cell list is
      never empty, so the bot's `if empty_cells` guard always holds. */
  lemma OpponentAlwaysHasCell(g: Grid, cell: Pos)
    requires IsGrid(g) && At(g, cell) == FreeSpace
    requires !Full(Place(g, cell, Cross))
    ensures |EmptyCells(Place(g, cell, Cross))| > 0
  {
    EmptyCellsExactlyFree(Place(g, cell, Cross));
  }

  /** When the player's move does not end the game, the bot writes a nought
      on exactly one cell that was free and is not the player's, every other
      cell keeps its mark, and the game ends exactly when the board is then
      won or full, with the win reported first. */
  lemma OpponentMovesOnce(g: Grid, cell: Pos, pick: nat)
    requires IsGrid(g) && At(g, cell) == FreeSpace
    requires !Won(Place(g, cell, Cross)) && !Full(Place(g, cell, Cross))
    ensures var t := Turn(g, cell, pick);
      exists q: Pos ::
        && q != cell && At(g, q) == FreeSpace
        && t.board == Place(Place(g, cell, Cross), q, Zero)
        && (forall p: Pos :: p != q && p != cell ==> At(t.board, p) == At(g, p))
    ensures var t := Turn(g, cell, pick);
      && (t.outcome == OpponentWon <==> Won(t.board))
      && (t.outcome == OpponentTie <==> !Won(t.board) && Full(t.board))
      && (t.outcome == NextTurn <==> !Won(t.board) && !Full(t.board))
  {
    var q := OpponentBranch(g, cell, pick);
  }

  /** Every free cell left after the player's move may receive the bot's
      nought, for some value of the random source. */
  lemma AnyFreeCellMayBeAnswered(g: Grid, cell: Pos, q: Pos)
    requires IsGrid(g) && At(g, cell) == FreeSpace
    requires !Won(Place(g, cell, Cross)) && !Full(Place(g, cell, Cross))
    requires q != cell && At(g, q) == FreeSpace
    ensures exists pick: nat :: Turn(g, cell, pick).board == Place(Place(g, cell, Cross), q, Zero)
  {
    var g1 := Place(g, cell, Cross);
    EmptyCellsExactlyFree(g1);
    var empty := EmptyCells(g1);
    assert At(g1, q) == FreeSpace;
    EveryCandidateCanBeChosen(empty, q);
    var k: nat :| Choice(empty, k) == q;
    var q' := OpponentBranch(g, cell, k);
  }

  /** A board on which no mark but the free one occurs three times holds
      no winning line. */
  lemma NoWinBelowThree(g: Grid)
    requires IsGrid(g)
    requires forall m :: m != FreeSpace ==> Count(g, m) < 3
    ensures !Won(g)
  {
    if Won(g) { WinNeedsThreeMarks(g); }
  }

  /** The first cross on a fresh board neither wins nor fills it. */
  lemma FirstCross(cell: Pos)
    ensures var g1 := Place(DefaultState(), cell, Cross);
      && !Won(g1) && !Full(g1)
      && (forall m :: m != FreeSpace ==> Count(g1, m) == if m == Cross then 1 else 0)
      && Count(g1, FreeSpace) == 8
  {
    var d := DefaultState();
    var g1 := Place(d, cell, Cross);
    forall m | m != FreeSpace ensures Count(g1, m) == if m == Cross then 1 else 0 {
      CountUniform(d, FreeSpace, m);
      CountAfterPlace(d, cell, Cross, m);
    }
    NoWinBelowThree(g1);
    CountUniform(d, FreeSpace, Cross);
    CountAfterPlace(d, cell, Cross, FreeSpace);
    FullIffNoFreeSpace(g1);
  }

  /** The first move on a fresh board never ends the game: the cross lands
      on the chosen cell and exactly one nought appears elsewhere. */
  lemma FirstMove(cell: Pos, pick: nat)
    ensures var t := Turn(DefaultState(), cell, pick);
      && t.outcome == NextTurn && At(t.board, cell) == Cross
      && Count(t.board, Cross) == 1 && Count(t.board, Zero) == 1
      && Count(t.board, FreeSpace) == 7
  {
    var d := DefaultState();
    var g1 := Place(d, cell, Cross);
    FirstCross(cell);
    var q := OpponentBranch(d, cell, pick);
    var g2 := Place(g1, q, Zero);
    forall m | m != FreeSpace ensures Count(g2, m) == if m == Cross || m == Zero then 1 else 0 {
      CountAfterPlace(g1, q, Zero, m);
    }
    NoWinBelowThree(g2);
    CountAfterPlace(g1, q, Zero, FreeSpace);
    FullIffNoFreeSpace(g2);
  }

  // ---------------------------------------------------------------------------
  // Mark counts over a game

  /** The board between turns of an unfinished game: as many crosses as
      noughts, only the three marks, no line and a free cell. */
  predicate Playing(g: Grid)
    requires IsGrid(g)
  {
    Count(g, Cross) == Count(g, Zero) && WellMarked(g) && !Won(g) && !Full(g)
  }

  /** What a turn from an unfinished game leaves behind: a well-marked board;
      when the handler answers CONTINUE_GAME, an unfinished game again (so as
      many crosses as noughts); when it answers FINISH_GAME, a board that is
      won or full and holds one cross more than noughts, or as many. */
  predicate Balanced(t: TurnResult)
    requires IsGrid(t.board)
  {
    && WellMarked(t.board)
    && (StateOf(t.outcome) == ContinueGame ==> Playing(t.board))
    && (StateOf(t.outcome) == FinishGame ==>
          (Won(t.board) || Full(t.board))
          && 0 <= Count(t.board, Cross) - Count(t.board, Zero) <= 1)
  }

  /** A turn the player's cross ends: FINISH_GAME, one cross more than
      noughts, and the board is won or full. */
  lemma {:induction false} PlayerEndsGame(g: Grid, cell: Pos, pick: nat)
    requires IsGrid(g) && Playing(g) && At(g, cell) == FreeSpace
    requires Won(Place(g, cell, Cross)) || Full(Place(g, cell, Cross))
    ensures Balanced(Turn(g, cell, pick))
    ensures var t := Turn(g, cell, pick);
      StateOf(t.outcome) == FinishGame && Count(t.board, Cross) == Count(t.board, Zero) + 1
  {
    var g1 := Place(g, cell, Cross);
    PlayerBranch(g, cell, pick);
    CountAfterPlace(g, cell, Cross, Cross);
    CountAfterPlace(g, cell, Cross, Zero);
    PlaceKeepsMarks(g, cell, Cross);
    assert Balanced(TurnResult(if Won(g1) then PlayerWon else PlayerTie, g1));
  }

  /** A cross and then a nought on two distinct free cells add one of each. */
  lemma {:induction false} CrossThenZeroCounts(g: Grid, cell: Pos, q: Pos)
    requires IsGrid(g) && WellMarked(g) && At(g, cell) == FreeSpace
    requires q != cell && At(g, q) == FreeSpace
    ensures var b := Place(Place(g, cell, Cross), q, Zero);
      && WellMarked(b)
      && Count(b, Cross) == Count(g, Cross) + 1
      && Count(b, Zero) == Count(g, Zero) + 1
  {
    var g1 := Place(g, cell, Cross);
    CountAfterPlace(g, cell, Cross, Cross);
    CountAfterPlace(g, cell, Cross, Zero);
    PlaceKeepsMarks(g, cell, Cross);
    CountAfterPlace(g1, q, Zero, Cross);
    CountAfterPlace(g1, q, Zero, Zero);
    PlaceKeepsMarks(g1, q, Zero);
  }

  /** After the bot's nought on a board with as many crosses as noughts,
      the reply is balanced. */
  lemma ReplyBalanced(b: Grid)
    requires IsGrid(b) && WellMarked(b) && Count(b, Cross) == Count(b, Zero)
    ensures Balanced(TurnResult(ReplyOutcome(b), b))
  {
  }

  /** A cross and then a nought on two free cells of an unfinished game
      leave as many crosses as noughts, and the reply ends the game exactly
      when the board is won or full. */
  lemma ReplyKeepsBalance(g: Grid, cell: Pos, q: Pos)
    requires IsGrid(g) && Playing(g) && At(g, cell) == FreeSpace
    requires q != cell && At(g, q) == FreeSpace
    ensures var b := Place(Place(g, cell, Cross), q, Zero);
      Balanced(TurnResult(ReplyOutcome(b), b)) && Count(b, Cross) == Count(b, Zero)
  {
    CrossThenZeroCounts(g, cell, q);
    ReplyBalanced(Place(Place(g, cell, Cross), q, Zero));
  }

  /** A turn the bot answers leaves as many crosses as noughts, whether the
      game then goes on or ends. */
  lemma {:induction false} OpponentKeepsBalance(g: Grid, cell: Pos, pick: nat)
    requires IsGrid(g) && Playing(g) && At(g, cell) == FreeSpace
    requires !Won(Place(g, cell, Cross)) && !Full(Place(g, cell, Cross))
    ensures Balanced(Turn(g, cell, pick))
    ensures var t := Turn(g, cell, pick); Count(t.board, Cross) == Count(t.board, Zero)
  {
    var q := OpponentBranch(g, cell, pick);
    ReplyKeepsBalance(g, cell, q);
  }

  /** One turn from an unfinished game keeps the balance of marks. */
  lemma {:induction false} TurnKeepsBalance(g: Grid, cell: Pos, pick: nat)
    requires IsGrid(g) && Playing(g)
    ensures Balanced(Turn(g, cell, pick))
  {
    if At(g, cell) != FreeSpace {
      OccupiedCellRejected(g, cell, pick);
    } else if Won(Place(g, cell, Cross)) || Full(Place(g, cell, Cross)) {
      PlayerEndsGame(g, cell, pick);
    } else {
      OpponentKeepsBalance(g, cell, pick);
    }
  }

  /** The callbacks the conversation routes to `game` while it is in
      CONTINUE_GAME: each is a cell and a value of the random source. */
  datatype Move = Move(cell: Pos, pick: nat)

  /** Handle `moves` one by one until a turn answers FINISH_GAME; from then
      on the conversation routes callbacks to the reset handler instead. */
  function Play(g: Grid, moves: seq<Move>): (r: (State, Grid))
    requires IsGrid(g)
    ensures IsGrid(r.1)
    decreases |moves|
  {
    if moves == [] then (ContinueGame, g)
    else
      var t := Turn(g, moves[0].cell, moves[0].pick);
      if StateOf(t.outcome) == FinishGame then (FinishGame, t.board)
      else Play(t.board, moves[1..])
  }

  /** From any unfinished game, whatever the moves and the random choices:
      while the game goes on the counts of crosses and noughts are equal,
      and once it has finished the crosses outnumber the noughts by 0 or 1. */
  lemma {:induction false} PlayKeepsBalance(g: Grid, moves: seq<Move>)
    requires IsGrid(g) && Playing(g)
    ensures var (s, b) := Play(g, moves);
      && WellMarked(b)
      && (s == ContinueGame ==> Count(b, Cross) == Count(b, Zero) && !Won(b) && !Full(b))
      && (s == FinishGame ==> (Won(b) || Full(b))
                              && 0 <= Count(b, Cross) - Count(b, Zero) <= 1)
    decreases |moves|
  {
    if moves != [] {
      TurnKeepsBalance(g, moves[0].cell, moves[0].pick);
      var t := Turn(g, moves[0].cell, moves[0].pick);
      if StateOf(t.outcome) != FinishGame {
        PlayKeepsBalance(t.board, moves[1..]);
      }
    }
  }

  /** A game started on the default board keeps the balance of marks. */
  lemma GameFromDefaultKeepsBalance(moves: seq<Move>)
    ensures IsGrid(DefaultState())
    ensures var (s, b) := Play(DefaultState(), moves);
      && (s == ContinueGame ==> Count(b, Cross) == Count(b, Zero))
      && (s == FinishGame ==> 0 <= Count(b, Cross) - Count(b, Zero) <= 1)
  {
    DefaultStateIsEmpty();
    PlayKeepsBalance(DefaultState(), moves);
  }
}
