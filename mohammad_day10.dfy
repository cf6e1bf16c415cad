/**
 * mohammad/day10: `connected`, the cells a pipe at `p` links to.  A pipe
 * opens towards two of the four sides (`S`, the start, towards all four);
 * a neighbour is linked when the current cell opens towards it and it opens
 * back.  Each link is tagged with the way the loop turns on entering it,
 * and `Finish` when the neighbour is the start.
 */
module MohammadDay10 {

  /** A cell: (row, column). */
  type Pos = (nat, nat)

  /** `Direction`. */
  datatype Direction = Left | Right | Up | Down | UpRight | UpLeft | DownLeft | DownRight | Finish

  datatype Side = North | East | South | West

  function Opposite(s: Side): Side
  {
    match s
    case North => South
    case East => West
    case South => North
    case West => East
  }

  /** The sides a tile opens towards; the start opens towards every side. */
  predicate Opens(c: char, s: Side)
  {
    match s
    case North => c == '|' || c == 'L' || c == 'J' || c == 'S'
    case East => c == '-' || c == 'L' || c == 'F' || c == 'S'
    case South => c == '|' || c == '7' || c == 'F' || c == 'S'
    case West => c == '-' || c == '7' || c == 'J' || c == 'S'
  }

  /** `grid[0].len()` is the width of every row. */
  predicate Rectangular(grid: seq<seq<char>>)
  {
    |grid| >= 1 && forall r :: 0 <= r < |grid| ==> |grid[r]| == |grid[0]|
  }

  predicate InGrid(grid: seq<seq<char>>, p: Pos)
  {
    p.0 < |grid| && p.1 < |grid[p.0]|
  }

  /** The tests `p.1 < cols - 1`, `p.1 > 0`, `p.0 < rows - 1` and `p.0 > 0`. */
  predicate HasNeighbor(grid: seq<seq<char>>, p: Pos, s: Side)
    requires Rectangular(grid)
  {
    match s
    case North => p.0 > 0
    case East => p.1 < |grid[0]| - 1
    case South => p.0 < |grid| - 1
    case West => p.1 > 0
  }

  /** The cell one step towards `s`. */
  function Move(p: Pos, s: Side): Pos
    requires s == North ==> p.0 > 0
    requires s == West ==> p.1 > 0
  {
    match s
    case North => (p.0 - 1, p.1)
    case East => (p.0, p.1 + 1)
    case South => (p.0 + 1, p.1)
    case West => (p.0, p.1 - 1)
  }

  /** The tag pushed for a neighbour `c` reached towards `s`. */
  function Tag(s: Side, c: char): Direction
  {
    if c == 'S' then Finish
    else match s
      case East => (if c == '-' then Right else if c == '7' then DownRight else UpRight)
      case West => (if c == '-' then Left else if c == 'L' then UpLeft else DownLeft)
      case South => (if c == '|' then Down else if c == 'L' then DownRight else DownLeft)
      case North => (if c == '|' then Up else if c == '7' then UpLeft else UpRight)
  }

  /** The first `if` of `connected`: the neighbour to the east. */
  function EastLink(p: Pos, grid: seq<seq<char>>): seq<(Pos, Direction)>
    requires Rectangular(grid) && InGrid(grid, p)
  {
    var current := grid[p.0][p.1];
    if (current == '-' || current == 'S' || current == 'L' || current == 'F') && p.1 < |grid[0]| - 1 then
      var q := (p.0, p.1 + 1);
      match grid[q.0][q.1]
      case '-' => [(q, Right)]
      case '7' => [(q, DownRight)]
      case 'J' => [(q, UpRight)]
      case 'S' => [(q, Finish)]
      case _ => []
    else []
  }

  /** The second `if`: the neighbour to the west. */
  function WestLink(p: Pos, grid: seq<seq<char>>): seq<(Pos, Direction)>
    requires Rectangular(grid) && InGrid(grid, p)
  {
    var current := grid[p.0][p.1];
    if (current == '-' || current == 'S' || current == '7' || current == 'J') && p.1 > 0 then
      var q := (p.0, p.1 - 1);
      match grid[q.0][q.1]
      case '-' => [(q, Left)]
      case 'L' => [(q, UpLeft)]
      case 'F' => [(q, DownLeft)]
      case 'S' => [(q, Finish)]
      case _ => []
    else []
  }

  /** The third `if`: the neighbour below. */
  function SouthLink(p: Pos, grid: seq<seq<char>>): seq<(Pos, Direction)>
    requires Rectangular(grid) && InGrid(grid, p)
  {
    var current := grid[p.0][p.1];
    if (current == '|' || current == 'S' || current == 'F' || current == '7') && p.0 < |grid| - 1 then
      var q := (p.0 + 1, p.1);
      match grid[q.0][q.1]
      case '|' => [(q, Down)]
      case 'L' => [(q, DownRight)]
      case 'J' => [(q, DownLeft)]
      case 'S' => [(q, Finish)]
      case _ => []
    else []
  }

  /** The fourth `if`: the neighbour above. */
  function NorthLink(p: Pos, grid: seq<seq<char>>): seq<(Pos, Direction)>
    requires Rectangular(grid) && InGrid(grid, p)
  {
    var current := grid[p.0][p.1];
    if (current == '|' || current == 'S' || current == 'J' || current == 'L') && p.0 > 0 then
      var q := (p.0 - 1, p.1);
      match grid[q.0][q.1]
      case '|' => [(q, Up)]
      case '7' => [(q, UpLeft)]
      case 'F' => [(q, UpRight)]
      case 'S' => [(q, Finish)]
      case _ => []
    else []
  }

  /** `connected`: the links pushed in the order east, west, south, north. */
  function Connected(p: Pos, grid: seq<seq<char>>): (r: seq<(Pos, Direction)>)
    requires Rectangular(grid) && InGrid(grid, p)
    ensures |r| <= 4
  {
    EastLink(p, grid) + WestLink(p, grid) + SouthLink(p, grid) + NorthLink(p, grid)
  }

  /** `p` and its neighbour towards `s` open towards each other. */
  predicate Linked(grid: seq<seq<char>>, p: Pos, s: Side)
    requires Rectangular(grid) && InGrid(grid, p)
  {
    HasNeighbor(grid, p, s) &&
    var q := Move(p, s);
    Opens(grid[p.0][p.1], s) && Opens(grid[q.0][q.1], Opposite(s))
  }

  /** The link pushed towards `s`, if any. */
  function LinkTo(p: Pos, grid: seq<seq<char>>, s: Side): (r: seq<(Pos, Direction)>)
    requires Rectangular(grid) && InGrid(grid, p)
  {
    match s
    case East => EastLink(p, grid)
    case West => WestLink(p, grid)
    case South => SouthLink(p, grid)
    case North => NorthLink(p, grid)
  }

  /**
   * Each test pushes exactly when the two cells open towards each other,
   * and then pushes the neighbour with its tag: `Finish` exactly when the
   * neighbour is the start.
   */
  lemma LinkToMeans(p: Pos, grid: seq<seq<char>>, s: Side)
    requires Rectangular(grid) && InGrid(grid, p)
    ensures LinkTo(p, grid, s) != [] <==> Linked(grid, p, s)
    ensures Linked(grid, p, s) ==>
      var q := Move(p, s);
      LinkTo(p, grid, s) == [(q, Tag(s, grid[q.0][q.1]))]
    ensures Linked(grid, p, s) ==>
      var q := Move(p, s);
      (Tag(s, grid[q.0][q.1]) == Finish <==> grid[q.0][q.1] == 'S')
  {
  }

  /** The links of `connected` are those towards the linked sides, east, west, south, north. */
  lemma ConnectedSides(p: Pos, grid: seq<seq<char>>)
    requires Rectangular(grid) && InGrid(grid, p)
    ensures Connected(p, grid) == LinkTo(p, grid, East) + LinkTo(p, grid, West) + LinkTo(p, grid, South) + LinkTo(p, grid, North)
  {
  }

  /** The cells of a list of links. */
  function Cells(links: seq<(Pos, Direction)>): (r: set<Pos>)
  {
    set i | 0 <= i < |links| :: links[i].0
  }

  lemma CellsAppend(a: seq<(Pos, Direction)>, b: seq<(Pos, Direction)>)
    ensures Cells(a + b) == Cells(a) + Cells(b)
  {
    var ab := a + b;
    forall x | x in Cells(ab) ensures x in Cells(a) + Cells(b) {
      var i :| 0 <= i < |ab| && ab[i].0 == x;
      if i >= |a| {
        assert b[i - |a|].0 == x;
      }
    }
    forall x | x in Cells(b) ensures x in Cells(ab) {
      var i :| 0 <= i < |b| && b[i].0 == x;
      assert ab[|a| + i].0 == x;
    }
    forall x | x in Cells(a) ensures x in Cells(ab) {
      var i :| 0 <= i < |a| && a[i].0 == x;
      assert ab[i].0 == x;
    }
  }

  /** The neighbour towards `s` when the two cells are linked, else nothing. */
  function LinkedCell(p: Pos, grid: seq<seq<char>>, s: Side): set<Pos>
    requires Rectangular(grid) && InGrid(grid, p)
  {
    if Linked(grid, p, s) then {Move(p, s)} else {}
  }

  lemma LinkToCells(p: Pos, grid: seq<seq<char>>, s: Side)
    requires Rectangular(grid) && InGrid(grid, p)
    ensures Cells(LinkTo(p, grid, s)) == LinkedCell(p, grid, s)
  {
    LinkToMeans(p, grid, s);
    if Linked(grid, p, s) {
      assert LinkTo(p, grid, s)[0].0 == Move(p, s);
    }
  }

  /** The cells listed by `connected` are exactly the neighbours on the linked sides. */
  lemma ConnectedExactly(p: Pos, grid: seq<seq<char>>)
    requires Rectangular(grid) && InGrid(grid, p)
    ensures Cells(Connected(p, grid)) ==
      LinkedCell(p, grid, East) + LinkedCell(p, grid, West) + LinkedCell(p, grid, South) + LinkedCell(p, grid, North)
  {
    var e, w, so, n := LinkTo(p, grid, East), LinkTo(p, grid, West), LinkTo(p, grid, South), LinkTo(p, grid, North);
    ConnectedSides(p, grid);
    CellsAppend(e, w);
    CellsAppend(e + w, so);
    CellsAppend(e + w + so, n);
    LinkToCells(p, grid, East);
    LinkToCells(p, grid, West);
    LinkToCells(p, grid, South);
    LinkToCells(p, grid, North);
  }

  /** Being linked is symmetric: the neighbour links back to `p` across the opposite side. */
  lemma LinkedSymmetric(p: Pos, grid: seq<seq<char>>, s: Side)
    requires Rectangular(grid) && InGrid(grid, p) && Linked(grid, p, s)
    ensures var q := Move(p, s);
      InGrid(grid, q) && Linked(grid, q, Opposite(s)) && Move(q, Opposite(s)) == p
  {
  }

  /** A cell that is not a pipe (`.`, say) links to nothing. */
  lemma GroundLinksNothing(p: Pos, grid: seq<seq<char>>)
    requires Rectangular(grid) && InGrid(grid, p)
    requires grid[p.0][p.1] !in {'|', '-', 'L', 'J', '7', 'F', 'S'}
    ensures Connected(p, grid) == []
  {
  }
}
