# Tic-tac-toe bot: a Dafny model of its game logic

The bot plays tic-tac-toe with a user of a chat service. It shows the 3x3
board as an inline keyboard. The user's move is a cross (`X`); the bot
answers with a nought (`O`) on a random free cell. A line of three equal
marks ends the game, and so does a full board. The board is kept in the
user data of the chat service's library, which belongs to the user. The `/start` command stores a fresh default
board, whose cells all hold the free space `.`. A button press runs the move
handler. Once a game has finished, the next button press runs the reset
handler, which stores a fresh board again.

The move, start and reset handlers and the win test appear twice in the
repository, with the same logic: in `main.py` (lines 58-144) and in
`tic_tac_toe_bot/game.py` (lines 18-104). The model describes them once, and
the table below cites both copies. `tic_tac_toe_bot/utils.py`, which holds
the constants, the keyboard and the default state for `game.py`, is not part
of this model. The model assumes that its definitions are the ones `main.py`
declares in lines 35-55.

The model has four modules:

- `Board` (board.dfy): the grid as a value.
  - Writing one cell.
  - The default state.
  - The win test `Won`, together with its equivalent form over the eight fixed lines.
  - The full-board test.
  - Counting marks.
  - The row-major list of free cells.
- `Keyboard` (keyboard.dfy): the keyboard.
  - Its buttons and the two-digit callback data each button carries.
  - The parse of that data.
  - The keyboard lists the board column by column, so it displays the board transposed.
- `Rules` (rules.dfy): one press of a button as a function, `Turn`.
  - Its outcome stands for the reply the handler sends.
  - `Play` runs a sequence of presses through the conversation's two states.
  - The lemmas are about these two functions.
- `Bot` (session.dfy): one conversation as a class.
  - The board is a 3x3 `array2<char>` that the move handler updates cell by cell.
  - The methods `Start`, `Game` and `End` are the three handlers.
  - `Move` holds the board logic of `Game`. It is proved to leave the array holding the board `Turn` computes, and to return the outcome `Turn` computes.
  - `Game` also parses the callback data and returns the keyboard sent with the next-turn reply.

The random source is a parameter `pick`. The bot's choice from a list `s`
is `s[pick % |s|]`, and every element of the list can be chosen.

## Model

| member | source | states |
|---|---|---|
| Board.DefaultState | main.py:42 | The default board is 3x3 and every cell holds the free space. |
| Board.DefaultStateIsEmpty | test_game.py:21-25 | The default board holds only the three marks: nine free spaces, no cross, no nought. It is neither won nor full. |
| Board.Place | main.py:82 | Writing a mark into a cell puts that mark there, and every other cell keeps its mark. |
| Board.Won | main.py:117-135 | The win test: a row, then a column, then one of the two diagonals holds three equal marks other than the free space. Its contract-bearing partners are WonIffSomeLine, WonExamples, WinNeedsThreeMarks and DisplayedWinIsBoardWin. |
| Board.Full | main.py:104 | The tie test: no cell is free. FullIffNoFreeSpace states it as a zero count of the free space, and EmptyCellsExactlyFree relates it to the free-cell list. |
| Board.WonIffSomeLine | main.py:117-135 | The win test holds exactly when one of the eight lines holds three equal marks other than the free space. The lines are three rows, three columns and two diagonals. |
| Board.WonExamples | test_game.py:4-19 | These boards are won: the row board, the column board and the diagonal board. The fourth board is not won, and it is full. |
| Board.FullIffNoFreeSpace | main.py:88 | A board is full exactly when the free space occurs nowhere on it. |
| Board.CountAfterPlace | tic_tac_toe_bot/game.py:42 | Writing `m` over a cell removes one occurrence of the old mark and adds one of `m`. Every other mark's count is unchanged. |
| Board.WinNeedsThreeMarks | tic_tac_toe_bot/game.py:77-95 | A won board holds at least three copies of some mark other than the free space. |
| Board.FreeAmong | tic_tac_toe_bot/game.py:53-55 | Filtering a position list keeps exactly the free positions, and the result is no longer than the input. |
| Board.EmptyCells | tic_tac_toe_bot/game.py:53-55 | The free-cell list has at most nine positions. EmptyCellsExactlyFree states what it lists, and in what order. |
| Board.EmptyCellsExactlyFree | main.py:93-95 | The free-cell list holds exactly the free cells, in row-major order, each once. It is non-empty exactly when the board is not full. |
| Keyboard.CallbackData | tic_tac_toe_bot/game.py:34 | A cell's callback data is two characters long. CallbackRoundTrip states that it parses back to the cell. |
| Keyboard.CallbackRoundTrip | main.py:53 | A cell's callback data is one that the move handler accepts, and parsing it gives back the cell. |
| Keyboard.ParseCallback | main.py:74 | Every callback data the handler patterns of lines 161-165 let through is the data of the cell it parses to, possibly followed by a newline. Python's `$` also matches before a final newline. |
| Keyboard.GenerateKeyboard | main.py:50-55 | The keyboard has three rows of three buttons. KeyboardButtonAt and KeyboardCoversBoard state which button shows which cell. |
| Keyboard.KeyboardButtonAt | main.py:52-53 | Button [i][j] shows cell (j, i), and its data parses to (j, i). The cell the move handler then reads holds the button's text. |
| Keyboard.KeyboardCoversBoard | main.py:52-54 | Each cell has exactly one button whose data names it. |
| Keyboard.DisplayedWinIsBoardWin | main.py:109-110 | The grid of labels the user sees holds a winning line exactly when the board does. |
| Rules.StateOf | main.py:80-114 | The move handler answers CONTINUE_GAME or FINISH_GAME, and never ends the conversation itself. |
| Rules.ReplyOutcome | main.py:100-106 | The reply after the bot's nought is a loss, a tie or the next turn. It is a loss exactly when the board is won. The game goes on exactly when the board is neither won nor full. |
| Rules.Turn | tic_tac_toe_bot/game.py:29-74 | The turn function of the move handler, whose result is always a 3x3 board. Its partners are OccupiedCellRejected, PlayerMoveOnFreeCell, OpponentMovesOnce and TurnKeepsBalance, and Bot.Session.Move is proved equal to it. |
| Rules.Choice | main.py:97 | The bot's choice is an element of the list it is given. |
| Rules.EveryCandidateCanBeChosen | tic_tac_toe_bot/game.py:57 | Every element of the list is the choice for some value of the random source. |
| Rules.OccupiedCellRejected | main.py:78-80 | A press is rejected exactly when its cell is occupied. A rejected press leaves the board unchanged and keeps the game going. |
| Rules.PlayerMoveOnFreeCell | main.py:82-90 | A press on a free cell writes a cross there. It ends the game exactly when the board is then won or full, and the win is reported first. When it ends the game, the bot adds no nought. |
| Rules.OpponentAlwaysHasCell | main.py:96 | After a cross that leaves the board not full, the free-cell list is non-empty. |
| Rules.OpponentMovesOnce | main.py:96-106 | After a cross that does not end the game, the bot writes one nought on a free cell other than the player's. Every other cell is unchanged. The reply is a loss, a tie or the next turn, exactly as the board is won, full but not won, or neither. |
| Rules.AnyFreeCellMayBeAnswered | tic_tac_toe_bot/game.py:53-58 | Every cell still free after the player's cross receives the nought for some value of the random source. |
| Rules.FirstMove | main.py:69-114 | The first press on a fresh board never ends the game. It leaves one cross, on the pressed cell, one nought, and seven free cells. |
| Rules.PlayerEndsGame | tic_tac_toe_bot/game.py:44-50 | From an unfinished game, a cross that ends the game answers FINISH_GAME. The board is won or full and holds exactly one cross more than noughts. |
| Rules.OpponentKeepsBalance | tic_tac_toe_bot/game.py:52-74 | From an unfinished game, a turn the bot answers leaves exactly as many crosses as noughts, whether the game goes on or ends. It answers CONTINUE_GAME exactly when the board is neither won nor full. |
| Rules.TurnKeepsBalance | tic_tac_toe_bot/game.py:29-74 | Every turn from an unfinished game keeps the board well-marked. CONTINUE_GAME leaves an unfinished game. FINISH_GAME leaves a won or full board with 0 or 1 more crosses than noughts. |
| Rules.Play | main.py:158-173 | Runs presses one by one while the conversation is in CONTINUE_GAME, and stops at the first FINISH_GAME. The board is always 3x3. PlayKeepsBalance states the invariant it keeps. |
| Rules.PlayKeepsBalance | main.py:160-170 | The same invariant holds over any sequence of presses routed while the conversation is in CONTINUE_GAME, whatever the random choices. |
| Rules.GameFromDefaultKeepsBalance | main.py:58-66 | A game started by `/start` on the default board keeps equal counts while it goes on. It finishes with 0 or 1 more crosses than noughts. |
| Bot.GetDefaultState | main.py:45-47 | Returns a freshly allocated 3x3 board holding the default state, so writing to it changes no other board. |
| Bot.WriteCell | main.py:98 | Writing a mark into one cell of the array changes that cell and no other. |
| Bot.Session.constructor | main.py:60 | A conversation's storage holds a freshly allocated default board. |
| Bot.Session.Start | tic_tac_toe_bot/game.py:18-26 | Stores a fresh default board, returns the keyboard of the default board, and answers CONTINUE_GAME. |
| Bot.Session.Move | main.py:78-106 | Updating the stored array cell by cell leaves the board `Turn` computes from the old board, and returns the outcome `Turn` computes. |
| Bot.Session.Game | main.py:69-114 | The stored board afterwards is the board `Turn` computes from the old board and the parsed cell, and the outcome is the one `Turn` computes. The answer is FINISH_GAME exactly for the ending outcomes. A next-turn reply carries the keyboard of the new board, and the other replies carry none. |
| Bot.Session.End | tic_tac_toe_bot/game.py:98-104 | Replaces the stored board by a fresh default board and ends the conversation. |

## Left out

- Chat I/O is left out: answering the callback query, and sending or editing messages. Each reply is modelled as an `Outcome` value, and its text is not modelled.
- Bot wiring is left out: `main()`, the application builder, the token, `.env` loading and logging. Only the routing of the conversation handler is modelled, by `Play`, and its start fallback is not modelled.
- Concurrency is left out. The handlers are `async`, but the model runs one press at a time for one conversation.
- The random distribution is left out. `random.choice` becomes an injected `pick`; the model shows that every free cell can be chosen, not that each is equally likely.
- Bot.Session.Game requires callback data that the handler patterns route to it: two digits, each 0 to 2, possibly followed by one newline, which Python's `$` also matches. Other data reaches no handler of this conversation state.
- Cells are modelled as `char`. The source stores one-character strings.
- `context.user_data` is modelled as the `board` field of a `Session`. The library keeps user data per user, while the conversation handler keys conversations by chat and user. So one user's games in two chats share, and overwrite, one board. The model has one `Session` per user and does not capture that sharing. Other keys of the user data are not modelled.
- `tic_tac_toe_bot/utils.py` is not part of this model. The model assumes that its definitions are the ones `main.py` declares.
- The win test checks lines of any mark other than the free space, not only lines of the player's own mark. The model follows the code here. From an unfinished game the two readings agree, because a board that a turn starts from has no line.
