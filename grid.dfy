/** The 4x4 grid of switches: which arrows stay on the grid, how a switch
    rotates, where an arrow leads, and how the arrows are first set. */
module Grid {
  import opened Config

  datatype Pos = Pos(r: int, c: int)

  /** A switch: the arrows that stay on the grid, fixed at creation, and the
      arrow it shows now (which the player may rotate off that list). */
  datatype Cell = Cell(validDirections: seq<Direction>, currentDirection: Direction)

  predicate InBounds(p: Pos) {
    0 <= p.r < GridRows && 0 <= p.c < GridCols
  }

  /** The node one arrow step away (possibly off the grid). */
  function Neighbour(p: Pos, d: Direction): (q: Pos)
    ensures IsAdjacent(p, q)
  {
    Pos(p.r + Delta(d).0, p.c + Delta(d).1)
  }

  function Abs(x: int): nat { if x < 0 then -x else x }

  /** Nodes one edge apart. */
  predicate IsAdjacent(p: Pos, q: Pos) {
    Abs(p.r - q.r) + Abs(p.c - q.c) == 1
  }

  /** Position of an arrow in the rotation order N, E, S, W. */
  function DirIndex(d: Direction): (i: nat)
    ensures i < |Directions| && Directions[i] == d
  {
    match d
    case N => 0
    case E => 1
    case S => 2
    case W => 3
  }

  /** The arrows of a cell that lead to another node of the grid, in the
      order N, E, S, W. */
  function ValidDirections(r: int, c: int): (valid: seq<Direction>)
    ensures InBounds(Pos(r, c)) ==>
      forall d: Direction :: d in valid <==> InBounds(Neighbour(Pos(r, c), d))
    ensures forall i, j :: 0 <= i < j < |valid| ==> DirIndex(valid[i]) < DirIndex(valid[j])
    ensures InBounds(Pos(r, c)) ==> 2 <= |valid| <= 4
  {
    (if r > 0 then [N] else [])
    + (if c < GridCols - 1 then [E] else [])
    + (if r < GridRows - 1 then [S] else [])
    + (if c > 0 then [W] else [])
  }

  /** One press on a switch: the next arrow in the order N, E, S, W, whether
      or not it stays on the grid. */
  function Rotate(d: Direction): (next: Direction)
    ensures DirIndex(next) == (DirIndex(d) + 1) % |Directions|
  {
    Directions[(DirIndex(d) + 1) % |Directions|]
  }

  /** `k` presses on a switch. */
  function RotateTimes(d: Direction, k: nat): Direction {
    if k == 0 then d else Rotate(RotateTimes(d, k - 1))
  }

  /** Pressing a switch k times moves its arrow k places along N, E, S, W. */
  lemma {:induction false} RotateTimesIndex(d: Direction, k: nat)
    ensures DirIndex(RotateTimes(d, k)) == (DirIndex(d) + k) % 4
  {
    if k > 0 {
      RotateTimesIndex(d, k - 1);
    }
  }

  /** Four presses restore the arrow, and fewer never do: the switch cycles
      through all four arrows. */
  lemma RotationPeriod(d: Direction, k: nat)
    ensures RotateTimes(d, k) == d <==> k % 4 == 0
  {
    RotateTimesIndex(d, k);
  }

  /** Where an arrow at node (r, c) sends a token. */
  datatype Move = ToNode(at: Pos) | ToRoom(room: int) | NoMove

  /** The room-exit check comes first: east from column 3 leads to room
      r + 1, south from row 3 to room c + 5; otherwise the arrow leads to the
      neighbouring node when that node is on the grid, and nowhere if not. */
  function NextPosition(r: int, c: int, dir: Direction): (m: Move)
    ensures InBounds(Pos(r, c)) ==>
      (m.ToRoom? <==> (c == GridCols - 1 && dir == E) || (r == GridRows - 1 && dir == S))
    ensures InBounds(Pos(r, c)) && m.ToRoom? ==> 1 <= m.room <= 8
    ensures InBounds(Pos(r, c)) ==> (m.ToNode? <==> dir in ValidDirections(r, c))
    ensures InBounds(Pos(r, c)) && c == GridCols - 1 && dir == E ==> m == ToRoom(r + 1)
    ensures InBounds(Pos(r, c)) && r == GridRows - 1 && dir == S ==> m == ToRoom(c + 5)
    ensures m.ToNode? ==> InBounds(m.at) && m.at == Neighbour(Pos(r, c), dir)
  {
    var next := Neighbour(Pos(r, c), dir);
    if c == 3 && r < 4 && dir == E then ToRoom(1 + r)
    else if r == 3 && c < 4 && dir == S then ToRoom(5 + c)
    else if InBounds(next) then ToNode(next)
    else NoMove
  }

  /** Every room is the exit of exactly one arrow on the grid. */
  lemma RoomExitsAreUnique(p: Pos, dp: Direction, q: Pos, dq: Direction)
    requires InBounds(p) && InBounds(q)
    requires NextPosition(p.r, p.c, dp).ToRoom? && NextPosition(q.r, q.c, dq).ToRoom?
    requires NextPosition(p.r, p.c, dp).room == NextPosition(q.r, q.c, dq).room
    ensures p == q && dp == dq
  {
  }

  lemma EveryRoomHasAnExit(room: int)
    requires 1 <= room <= 8
    ensures exists p: Pos, d: Direction :: InBounds(p) && NextPosition(p.r, p.c, d) == ToRoom(room)
  {
    if room <= 4 {
      assert NextPosition(room - 1, 3, E) == ToRoom(room);
    } else {
      assert NextPosition(3, room - 5, S) == ToRoom(room);
    }
  }

  /** The random draws that set one switch: `bias` decides whether an exit
      cell points out of the grid, `pick` chooses among the valid arrows. */
  datatype ArrowDraw = ArrowDraw(bias: real, pick: real) {
    predicate Valid() {
      0.0 <= bias < 1.0 && 0.0 <= pick < 1.0
    }
  }

  /** `Math.floor(u * n)` for a draw `u` in [0, 1): an index below `n`. */
  function Pick(u: real, n: nat): (k: nat)
    requires 0.0 <= u < 1.0 && 0 < n
    ensures k < n
  {
    ScaleBelow(u, n);
    (u * n as real).Floor
  }

  lemma ScaleBelow(u: real, n: nat)
    requires 0.0 <= u < 1.0 && 0 < n
    ensures 0.0 <= u * n as real < n as real
  {
    var x := n as real;
    assert u * x <= 1.0 * x by {
      assert (1.0 - u) * x >= 0.0;
    }
    assert (1.0 - u) * x > 0.0;
  }

  /** The biased choice: a cell on the east column points east, one on the
      bottom row south (east first at the corner), with probability 0.8;
      otherwise a uniformly drawn valid arrow. */
  function OutletBiasedDirection(r: int, c: int, validDirs: seq<Direction>, draw: ArrowDraw): (dir: Direction)
    requires draw.Valid() && |validDirs| > 0
    ensures draw.bias < 0.8 && c == GridCols - 1 ==> dir == E
    ensures draw.bias < 0.8 && c != GridCols - 1 && r == GridRows - 1 ==> dir == S
    ensures draw.bias < 0.8 && InBounds(Pos(r, c)) && (c == GridCols - 1 || r == GridRows - 1) ==>
      NextPosition(r, c, dir).ToRoom?
  {
    var outletBiased := (if c == GridCols - 1 then [E] else []) + (if r == GridRows - 1 then [S] else []);
    if |outletBiased| > 0 && draw.bias < 0.8 then outletBiased[0]
    else validDirs[Pick(draw.pick, |validDirs|)]
  }

  /** Away from the east column and the bottom row, or when the bias draw
      fails, the biased choice is one of the given valid arrows. */
  lemma BiasedFallbackIsValid(r: int, c: int, validDirs: seq<Direction>, draw: ArrowDraw)
    requires draw.Valid() && |validDirs| > 0
    requires !(draw.bias < 0.8 && (c == GridCols - 1 || r == GridRows - 1))
    ensures OutletBiasedDirection(r, c, validDirs, draw) in validDirs
  {
  }

  /** The arrow a cell starts with under the difficulty's initialisation mode. */
  function InitialDirection(mode: ArrowInit, r: int, c: int, draw: ArrowDraw): (d: Direction)
    requires InBounds(Pos(r, c)) && draw.Valid()
  {
    var validDirs := ValidDirections(r, c);
    if mode == BiasedArrows then OutletBiasedDirection(r, c, validDirs, draw)
    else validDirs[Pick(draw.pick, |validDirs|)]
  }

  /** Random initialisation only ever picks an arrow that stays on the grid;
      biased initialisation may instead point an exit cell out to its room,
      so in both modes no switch starts as a dead end. */
  lemma InitialArrowIsNoDeadEnd(mode: ArrowInit, r: int, c: int, draw: ArrowDraw)
    requires InBounds(Pos(r, c)) && draw.Valid()
    ensures mode == RandomArrows ==> InitialDirection(mode, r, c, draw) in ValidDirections(r, c)
    ensures NextPosition(r, c, InitialDirection(mode, r, c, draw)) != NoMove
  {
    var d := InitialDirection(mode, r, c, draw);
    var validDirs := ValidDirections(r, c);
    if d !in validDirs {
      assert mode == BiasedArrows && draw.bias < 0.8;
      assert (c == GridCols - 1 && d == E) || (r == GridRows - 1 && d == S);
    }
  }

  /** Biased initialisation can leave an arrow that is not on the valid list:
      the east column points east, off the grid, into its room. */
  lemma BiasedArrowMayLeaveValidList()
    ensures InitialDirection(BiasedArrows, 0, 3, ArrowDraw(0.0, 0.0)) !in ValidDirections(0, 3)
  {
  }

  /** Index of cell (r, c) among the 16 draws, row by row. */
  function DrawIndex(r: int, c: int): (k: int)
    requires InBounds(Pos(r, c))
    ensures 0 <= k < GridRows * GridCols
  {
    r * 4 + c
  }

  /** The cell (r, c) starts as, given the draws for the whole grid. */
  function InitialCell(mode: ArrowInit, draws: seq<ArrowDraw>, r: int, c: int): Cell
    requires InBounds(Pos(r, c)) && |draws| == GridRows * GridCols
    requires forall k :: 0 <= k < |draws| ==> draws[k].Valid()
  {
    Cell(ValidDirections(r, c), InitialDirection(mode, r, c, draws[DrawIndex(r, c)]))
  }

  /** Builds the grid row by row; `draws[DrawIndex(r, c)]` drives cell (r, c). */
  method InitializeGrid(mode: ArrowInit, draws: seq<ArrowDraw>) returns (grid: array2<Cell>)
    requires |draws| == GridRows * GridCols
    requires forall k :: 0 <= k < |draws| ==> draws[k].Valid()
    ensures fresh(grid)
    ensures grid.Length0 == GridRows && grid.Length1 == GridCols
    ensures forall r, c :: 0 <= r < GridRows && 0 <= c < GridCols ==>
      grid[r, c] == InitialCell(mode, draws, r, c)
  {
    grid := new Cell[GridRows, GridCols];
    for r := 0 to GridRows
      invariant forall i, j :: 0 <= i < r && 0 <= j < GridCols ==> grid[i, j] == InitialCell(mode, draws, i, j)
    {
      for c := 0 to GridCols
        invariant forall i, j :: 0 <= i < r && 0 <= j < GridCols ==> grid[i, j] == InitialCell(mode, draws, i, j)
        invariant forall j :: 0 <= j < c ==> grid[r, j] == InitialCell(mode, draws, r, j)
      {
        var validDirections := ValidDirections(r, c);
        var draw := draws[DrawIndex(r, c)];
        var currentDir: Direction;
        if mode == BiasedArrows {
          currentDir := OutletBiasedDirection(r, c, validDirections, draw);
        } else {
          currentDir := validDirections[Pick(draw.pick, |validDirections|)];
        }
        grid[r, c] := Cell(validDirections, currentDir);
      }
    }
  }
}
