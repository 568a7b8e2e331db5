/** The tic-tac-toe board as a value: a 3x3 grid of one-character marks,
    '.' for a free cell, 'X' for the player and 'O' for the bot. */
module Board {

  const FreeSpace: char := '.'
  const Cross: char := 'X'
  const Zero: char := 'O'

  /** A row or column index of the board. */
  type Coord = i: nat | i < 3

  /** A cell address (row, column). */
  type Pos = (Coord, Coord)

  type Grid = seq<seq<char>>

  /** The board is always three rows of three cells. */
  predicate IsGrid(g: Grid) {
    |g| == 3 && |g[0]| == 3 && |g[1]| == 3 && |g[2]| == 3
  }

  /** Every cell holds one of the three marks. */
  predicate WellMarked(g: Grid)
    requires IsGrid(g)
  {
    forall r: Coord, c: Coord :: At(g, (r, c)) in {FreeSpace, Cross, Zero}
  }

  function At(g: Grid, p: Pos): (c: char)
    requires IsGrid(g)
  {
    g[p.0][p.1]
  }

  /** The board with cell `p` overwritten by `m`. */
  function Place(g: Grid, p: Pos, m: char): (h: Grid)
    requires IsGrid(g)
    ensures IsGrid(h)
    ensures At(h, p) == m
    ensures forall q: Pos :: q != p ==> At(h, q) == At(g, q)
  {
    g[p.0 := g[p.0][p.1 := m]]
  }

  /** Two boards are equal when they agree on every cell. */
  lemma SameCells(g: Grid, h: Grid)
    requires IsGrid(g) && IsGrid(h)
    requires forall p: Pos :: At(g, p) == At(h, p)
    ensures g == h
  {
    forall r: Coord ensures g[r] == h[r] {
      forall c: Coord ensures g[r][c] == h[r][c] {
        assert At(g, (r, c)) == At(h, (r, c));
      }
    }
  }

  /** Overwriting a cell with one of the three marks keeps the board well marked. */
  lemma PlaceKeepsMarks(g: Grid, p: Pos, m: char)
    requires IsGrid(g) && WellMarked(g) && m in {FreeSpace, Cross, Zero}
    ensures WellMarked(Place(g, p, m))
  {
  }

  /** The value of DEFAULT_STATE: a 3x3 grid with every cell free. */
  function DefaultState(): (g: Grid)
    ensures IsGrid(g) && forall p: Pos :: At(g, p) == FreeSpace
  {
    [[FreeSpace, FreeSpace, FreeSpace],
     [FreeSpace, FreeSpace, FreeSpace],
     [FreeSpace, FreeSpace, FreeSpace]]
  }

  // ---------------------------------------------------------------------------
  // Win detection

  /** Three equal marks that are not the free mark. */
  predicate Triple(a: char, b: char, c: char) {
    a == b && b == c && c != FreeSpace
  }

  /** The win test: some row, then some column, then one of the two diagonals
      holds three equal marks that are not the free space. */
  predicate Won(g: Grid)
    requires IsGrid(g)
  {
    (exists r: Coord :: Triple(g[r][0], g[r][1], g[r][2]))
    || (exists c: Coord :: Triple(g[0][c], g[1][c], g[2][c]))
    || Triple(g[0][0], g[1][1], g[2][2])
    || Triple(g[0][2], g[1][1], g[2][0])
  }

  /** An independent description of a win: the table of the 8 fixed lines. */
  datatype Line = Line(a: Pos, b: Pos, c: Pos)

  const Lines: seq<Line> := [
    Line((0, 0), (0, 1), (0, 2)), Line((1, 0), (1, 1), (1, 2)), Line((2, 0), (2, 1), (2, 2)),
    Line((0, 0), (1, 0), (2, 0)), Line((0, 1), (1, 1), (2, 1)), Line((0, 2), (1, 2), (2, 2)),
    Line((0, 0), (1, 1), (2, 2)), Line((0, 2), (1, 1), (2, 0))
  ]

  predicate LineComplete(g: Grid, l: Line)
    requires IsGrid(g)
  {
    Triple(At(g, l.a), At(g, l.b), At(g, l.c))
  }

  /** `won` holds exactly when one of the 8 fixed lines holds three equal
      marks other than '.'. */
  lemma WonIffSomeLine(g: Grid)
    requires IsGrid(g)
    ensures Won(g) <==> exists k :: 0 <= k < |Lines| && LineComplete(g, Lines[k])
  {
    if Won(g) {
      if r: Coord :| Triple(g[r][0], g[r][1], g[r][2]) {
        assert LineComplete(g, Lines[r]);
      } else if c: Coord :| Triple(g[0][c], g[1][c], g[2][c]) {
        assert LineComplete(g, Lines[3 + c]);
      } else if Triple(g[0][0], g[1][1], g[2][2]) {
        assert LineComplete(g, Lines[6]);
      } else {
        assert LineComplete(g, Lines[7]);
      }
    }
    if k :| 0 <= k < |Lines| && LineComplete(g, Lines[k]) {
      if k < 3 {
        var r: Coord := k;
        assert Triple(g[r][0], g[r][1], g[r][2]);
      } else if k < 6 {
        var c: Coord := k - 3;
        assert Triple(g[0][c], g[1][c], g[2][c]);
      }
    }
  }

  /** The four boards of test_game.py: a row, a column and a diagonal win,
      and a full board with no line. */
  lemma WonExamples()
    ensures Won([['X', 'X', 'X'], ['O', 'O', '.'], ['.', '.', '.']])
    ensures Won([['X', 'O', 'O'], ['X', '.', 'O'], ['X', '.', '.']])
    ensures Won([['X', 'O', 'O'], ['O', 'X', 'O'], ['.', '.', 'X']])
    ensures !Won([['X', 'O', 'X'], ['O', 'X', 'O'], ['O', 'X', 'O']])
    ensures Full([['X', 'O', 'X'], ['O', 'X', 'O'], ['O', 'X', 'O']])
  {
    var row: Coord := 0;
    assert Triple(['X', 'X', 'X'][0], 'X', 'X');
    var g := [['X', 'O', 'O'], ['X', '.', 'O'], ['X', '.', '.']];
    assert Triple(g[0][row], g[1][row], g[2][row]);
  }

  // ---------------------------------------------------------------------------
  // Full board and counting marks

  /** The tie test: no cell of any row is free. */
  predicate Full(g: Grid)
    requires IsGrid(g)
  {
    forall r: Coord, c: Coord :: At(g, (r, c)) != FreeSpace
  }

  /** The nine cells in row-major order. */
  function Flatten(g: Grid): (s: seq<char>)
    requires IsGrid(g)
    ensures |s| == 9
  {
    g[0] + g[1] + g[2]
  }

  /** Row-major index of a cell. */
  function Index(p: Pos): (i: nat)
    ensures i < 9
  {
    3 * p.0 + p.1
  }

  lemma FlattenAt(g: Grid, p: Pos)
    requires IsGrid(g)
    ensures Flatten(g)[Index(p)] == At(g, p)
  {
  }

  /** Number of cells holding mark `m`. */
  function Count(g: Grid, m: char): (n: nat)
    requires IsGrid(g)
  {
    multiset(Flatten(g))[m]
  }

  /** A board is full exactly when no cell holds the free mark. */
  lemma FullIffNoFreeSpace(g: Grid)
    requires IsGrid(g)
    ensures Full(g) <==> Count(g, FreeSpace) == 0
  {
    var s := Flatten(g);
    if Count(g, FreeSpace) != 0 {
      assert FreeSpace in s;
      var i :| 0 <= i < 9 && s[i] == FreeSpace;
      var p: Pos := (i / 3, i % 3);
      FlattenAt(g, p);
    } else {
      forall p: Pos ensures At(g, p) != FreeSpace {
        FlattenAt(g, p);
        assert s[Index(p)] in s;
      }
    }
  }

  /** Overwriting one cell moves one unit of count from its old mark to the new one. */
  lemma {:induction false} CountAfterPlace(g: Grid, p: Pos, m: char, x: char)
    requires IsGrid(g)
    ensures Count(Place(g, p, m), x)
         == Count(g, x) - (if At(g, p) == x then 1 else 0) + (if m == x then 1 else 0)
  {
    var h := Place(g, p, m);
    var s := Flatten(g);
    forall i | 0 <= i < 9 ensures Flatten(h)[i] == s[Index(p) := m][i] {
      var q: Pos := (i / 3, i % 3);
      FlattenAt(g, q);
      FlattenAt(h, q);
    }
    assert Flatten(h) == s[Index(p) := m];
    FlattenAt(g, p);
  }

  /** Three distinct cells holding `m` make `m` count at least three. */
  lemma {:induction false} ThreeCellsCount(g: Grid, a: Pos, b: Pos, c: Pos, m: char)
    requires IsGrid(g) && a != b && b != c && a != c
    requires At(g, a) == m && At(g, b) == m && At(g, c) == m && m != FreeSpace
    ensures Count(g, m) >= 3
  {
    var g1 := Place(g, a, FreeSpace);
    var g2 := Place(g1, b, FreeSpace);
    CountAfterPlace(g, a, FreeSpace, m);
    CountAfterPlace(g1, b, FreeSpace, m);
    CountAfterPlace(g2, c, FreeSpace, m);
  }

  /** A winning line needs three cells holding its mark, so the winner has
      at least three marks on the board. */
  lemma WinNeedsThreeMarks(g: Grid)
    requires IsGrid(g) && Won(g)
    ensures exists m :: m != FreeSpace && Count(g, m) >= 3
  {
    WonIffSomeLine(g);
    var k :| 0 <= k < |Lines| && LineComplete(g, Lines[k]);
    var l := Lines[k];
    ThreeCellsCount(g, l.a, l.b, l.c, At(g, l.a));
  }

  /** On a board whose nine cells all hold `m`, `m` counts nine and every other mark none. */
  lemma CountUniform(g: Grid, m: char, x: char)
    requires IsGrid(g) && forall p: Pos :: At(g, p) == m
    ensures Count(g, m) == 9
    ensures x != m ==> Count(g, x) == 0
  {
    forall i | 0 <= i < 9 ensures Flatten(g)[i] == m {
      var q: Pos := (i / 3, i % 3);
      FlattenAt(g, q);
    }
    assert Flatten(g) == [m, m, m, m, m, m, m, m, m];
  }

  /** The default board holds nine free cells, no other mark, no winning
      line, and is not full. */
  lemma DefaultStateIsEmpty()
    ensures WellMarked(DefaultState())
    ensures Count(DefaultState(), FreeSpace) == 9
    ensures Count(DefaultState(), Cross) == 0 && Count(DefaultState(), Zero) == 0
    ensures !Won(DefaultState()) && !Full(DefaultState())
  {
    var g := DefaultState();
    CountUniform(g, FreeSpace, Cross);
    CountUniform(g, FreeSpace, Zero);
    assert At(g, (0, 0)) == FreeSpace;
  }

  // ---------------------------------------------------------------------------
  // Free cells, as offered to the bot's random choice

  /** Every cell in row-major order: row by row, and left to right within a row. */
  function AllPositions(): (ps: seq<Pos>)
    ensures |ps| == 9
  {
    [(0, 0), (0, 1), (0, 2), (1, 0), (1, 1), (1, 2), (2, 0), (2, 1), (2, 2)]
  }

  /** The positions among `ps` whose cell is free, in the order of `ps`. */
  function FreeAmong(g: Grid, ps: seq<Pos>): (r: seq<Pos>)
    requires IsGrid(g)
    ensures forall p :: p in r <==> p in ps && At(g, p) == FreeSpace
    ensures |r| <= |ps|
  {
    if ps == [] then []
    else (if At(g, ps[0]) == FreeSpace then [ps[0]] else []) + FreeAmong(g, ps[1..])
  }

  /** `empty_cells`: the free positions, row by row. */
  function EmptyCells(g: Grid): (ps: seq<Pos>)
    requires IsGrid(g)
    ensures |ps| <= 9
  {
    FreeAmong(g, AllPositions())
  }

  predicate RowMajor(ps: seq<Pos>) {
    forall i, j :: 0 <= i < j < |ps| ==> Index(ps[i]) < Index(ps[j])
  }

  lemma {:induction false} FreeAmongRowMajor(g: Grid, ps: seq<Pos>)
    requires IsGrid(g) && RowMajor(ps)
    ensures RowMajor(FreeAmong(g, ps))
  {
    if ps != [] {
      FreeAmongRowMajor(g, ps[1..]);
      var rest := FreeAmong(g, ps[1..]);
      forall q | q in rest ensures Index(ps[0]) < Index(q) {
        var j :| 1 <= j < |ps| && ps[j] == q;
      }
    }
  }

  lemma AllPositionsComplete(p: Pos)
    ensures p in AllPositions()
  {
    assert AllPositions()[Index(p)] == p;
  }

  /** `empty_cells` lists exactly the free cells, each once, in row-major
      order; it is non-empty exactly when the board is not full. */
  lemma EmptyCellsExactlyFree(g: Grid)
    requires IsGrid(g)
    ensures forall p: Pos :: p in EmptyCells(g) <==> At(g, p) == FreeSpace
    ensures RowMajor(EmptyCells(g))
    ensures |EmptyCells(g)| > 0 <==> !Full(g)
  {
    forall p: Pos ensures p in EmptyCells(g) <==> At(g, p) == FreeSpace {
      AllPositionsComplete(p);
    }
    FreeAmongRowMajor(g, AllPositions());
    if !Full(g) {
      var p: Pos :| At(g, p) == FreeSpace;
      assert p in EmptyCells(g);
    }
    if |EmptyCells(g)| > 0 {
      var p := EmptyCells(g)[0];
      assert p in EmptyCells(g);
    }
  }
}
