/** The inline keyboard the bot shows: one button per cell, labelled with the
    cell's mark and carrying the callback data "rc" that names the cell. */
module Keyboard {
  import opened Board

  /** An inline keyboard button: its text and its callback data. */
  datatype Button = Button(text: char, callbackData: string)

  /** The decimal digit of a coordinate, as string formatting prints it. */
  function DigitChar(n: Coord): (d: char)
    ensures '0' <= d <= '2'
  {
    ('0' as int + n) as char
  }

  /** The callback data of a cell: its row digit followed by its column digit. */
  function CallbackData(p: Pos): (s: string)
    ensures |s| == 2
  {
    [DigitChar(p.0), DigitChar(p.1)]
  }

  /** The data the conversation handler routes to the move handler: a row
      digit and a column digit, each 0, 1 or 2. Each pattern is anchored by
      `$`, which in Python's regular expressions also matches just before a
      final newline, so the two digits may be followed by one '\n'. */
  predicate IsCallbackData(s: string) {
    (|s| == 2 || (|s| == 3 && s[2] == '\n'))
    && '0' <= s[0] <= '2' && '0' <= s[1] <= '2'
  }

  /** The move handler reads the row from the first character and the
      column from the second; whatever follows them is ignored. The data is
      the callback data of the cell read, followed at most by a newline. */
  function ParseCallback(s: string): (p: Pos)
    requires IsCallbackData(s)
    ensures s == CallbackData(p) || s == CallbackData(p) + ['\n']
  {
    (s[0] as int - '0' as int, s[1] as int - '0' as int)
  }

  /** Printing a cell's data and parsing it back gives the cell, and the data
      printed is always one the handler accepts. */
  lemma CallbackRoundTrip(p: Pos)
    ensures IsCallbackData(CallbackData(p))
    ensures ParseCallback(CallbackData(p)) == p
  {
  }

  /** The keyboard for a board: the outer list runs over the columns and the
      inner one over the rows, so button [i][j] is cell (j, i). */
  function GenerateKeyboard(g: Grid): (kb: seq<seq<Button>>)
    requires IsGrid(g)
    ensures |kb| == 3 && forall i :: 0 <= i < 3 ==> |kb[i]| == 3
  {
    seq(3, c requires 0 <= c < 3 =>
      seq(3, r requires 0 <= r < 3 => Button(g[r][c], CallbackData((r, c)))))
  }

  /** The button at `[i][j]` shows the cell (j, i), its data parses back to
      (j, i), and the board cell the move handler reads there is the text. */
  lemma {:induction false} KeyboardButtonAt(g: Grid, i: Coord, j: Coord)
    requires IsGrid(g)
    ensures GenerateKeyboard(g)[i][j].text == g[j][i]
    ensures IsCallbackData(GenerateKeyboard(g)[i][j].callbackData)
    ensures ParseCallback(GenerateKeyboard(g)[i][j].callbackData) == (j, i)
    ensures At(g, ParseCallback(GenerateKeyboard(g)[i][j].callbackData))
         == GenerateKeyboard(g)[i][j].text
  {
    CallbackRoundTrip((j, i));
  }

  /** Every cell of the board has exactly one button, whose data names it. */
  lemma KeyboardCoversBoard(g: Grid, p: Pos)
    requires IsGrid(g)
    ensures exists i: Coord, j: Coord :: GenerateKeyboard(g)[i][j].callbackData == CallbackData(p)
    ensures forall i: Coord, j: Coord :: GenerateKeyboard(g)[i][j].callbackData == CallbackData(p)
              ==> (i, j) == (p.1, p.0)
  {
    var kb: seq<seq<Button>> := GenerateKeyboard(g);
    assert kb[p.1][p.0].callbackData == CallbackData(p);
    forall i: Coord, j: Coord | kb[i][j].callbackData == CallbackData(p)
      ensures (i, j) == (p.1, p.0)
    {
      CallbackRoundTrip((j, i));
      CallbackRoundTrip(p);
    }
  }

  /** The labels as displayed, row by row. */
  function Labels(kb: seq<seq<Button>>): (g: Grid)
    requires |kb| == 3 && forall i :: 0 <= i < 3 ==> |kb[i]| == 3
    ensures IsGrid(g)
  {
    seq(3, i requires 0 <= i < 3 => seq(3, j requires 0 <= j < 3 => kb[i][j].text))
  }

  /** The keyboard shows the board transposed: displayed row i is board column i. */
  lemma {:induction false} DisplayIsTransposed(g: Grid, i: Coord, j: Coord)
    requires IsGrid(g)
    ensures Labels(GenerateKeyboard(g))[i][j] == g[j][i]
  {
    KeyboardButtonAt(g, i, j);
  }

  /** A winning line of `g` is a winning line of any grid holding `g` transposed. */
  lemma WinSurvivesTransposition(g: Grid, d: Grid)
    requires IsGrid(g) && IsGrid(d)
    requires forall i: Coord, j: Coord :: d[i][j] == g[j][i]
    requires Won(g)
    ensures Won(d)
  {
    if r: Coord :| Triple(g[r][0], g[r][1], g[r][2]) {
      assert Triple(d[0][r], d[1][r], d[2][r]);
    } else if c: Coord :| Triple(g[0][c], g[1][c], g[2][c]) {
      assert Triple(d[c][0], d[c][1], d[c][2]);
    } else if Triple(g[0][0], g[1][1], g[2][2]) {
      assert Triple(d[0][0], d[1][1], d[2][2]);
    } else {
      assert Triple(d[0][2], d[1][1], d[2][0]);
    }
  }

  /** The transposition is harmless for the outcome: the grid the player sees
      holds a winning line exactly when the board does. */
  lemma DisplayedWinIsBoardWin(g: Grid)
    requires IsGrid(g)
    ensures Won(Labels(GenerateKeyboard(g))) <==> Won(g)
  {
    var d := Labels(GenerateKeyboard(g));
    forall i: Coord, j: Coord ensures d[i][j] == g[j][i] {
      DisplayIsTransposed(g, i, j);
    }
    if Won(g) {
      WinSurvivesTransposition(g, d);
    }
    if Won(d) {
      WinSurvivesTransposition(d, g);
    }
  }
}
