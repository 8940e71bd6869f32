/** The geometry of the square wumpus world as the agent sees it: cells are
    `(x, y)` pairs with `(0, 0)` at the top left, so "up" decreases `y`. This
    module holds the neighbour listing of `get_directions`, the cell names it
    produces, the clamped step of `calculateNextPosition`, the turns of
    `calculateNextDirection` and the choice of heading in `action`. */
module Grid {

  /** The four headings, in the order of the facing key (0 up, 1 right, 2 down, 3 left). */
  datatype Facing = Up | Right | Down | Left

  type Cell = (int, int)

  /** The cell lies inside a `size` x `size` world. */
  predicate InBounds(c: Cell, size: int)
  {
    0 <= c.0 < size && 0 <= c.1 < size
  }

  function Abs(n: int): nat
  {
    if n < 0 then -n else n
  }

  /** Manhattan distance between two cells. */
  function Distance(a: Cell, b: Cell): nat
  {
    Abs(a.0 - b.0) + Abs(a.1 - b.1)
  }

  // ---------------------------------------------------------------------------
  // get_directions

  /** The offset list `dirs`; candidate `k` is offset by `dirs[k]`, `dirs[k + 1]`. */
  const Offsets: seq<int> := [0, 1, 0, -1, 0]

  /** The `k`-th candidate neighbour: (x, y+1), (x+1, y), (x, y-1), (x-1, y). */
  function Candidate(c: Cell, k: nat): Cell
    requires k < 4
  {
    (c.0 + Offsets[k], c.1 + Offsets[k + 1])
  }

  /** The in-bounds cells among the first `n` candidates, in candidate order. */
  function CandidatesUpTo(c: Cell, size: int, n: nat): (cells: seq<Cell>)
    requires n <= 4
    ensures forall i :: 0 <= i < |cells| ==> InBounds(cells[i], size)
  {
    if n == 0 then []
    else
      var k := n - 1;
      CandidatesUpTo(c, size, k) + (if InBounds(Candidate(c, k), size) then [Candidate(c, k)] else [])
  }

  /** The neighbours `get_directions` lists for position `c`, in its order. */
  function NeighbourCells(c: Cell, size: int): (cells: seq<Cell>)
    ensures forall i :: 0 <= i < |cells| ==> InBounds(cells[i], size)
  {
    CandidatesUpTo(c, size, 4)
  }

  /** The character of a decimal digit. */
  function DigitChar(d: nat): char
    requires d < 10
  {
    "0123456789"[d]
  }

  /** The value `int(ch)` gives for a one-character digit string. */
  function DigitValue(ch: char): int
  {
    ch as int - '0' as int
  }

  /** The decimal spelling of a non-negative integer, as an f-string writes it. */
  function NatToString(n: nat): (s: string)
    ensures |s| >= 1
    ensures forall i :: 0 <= i < |s| ==> '0' <= s[i] <= '9'
  {
    if n < 10 then [DigitChar(n)] else NatToString(n / 10) + [DigitChar(n % 10)]
  }

  /** The name `f"{x}{y}"` of a cell: the two coordinates written one after the other. */
  function Name(c: Cell): string
    requires c.0 >= 0 && c.1 >= 0
  {
    NatToString(c.0) + NatToString(c.1)
  }

  /** `(int(move[0]), int(move[1]))`: the cell `action` reads back from a name. */
  function CellOf(move: string): Cell
    requires |move| >= 2
  {
    (DigitValue(move[0]), DigitValue(move[1]))
  }

  /** The names of the neighbour cells: the list `get_directions` returns. */
  function Directions(c: Cell, size: int): (names: seq<string>)
    ensures forall i :: 0 <= i < |names| ==> |names[i]| >= 2
  {
    var cells := NeighbourCells(c, size);
    seq(|cells|, i requires 0 <= i < |cells| => Name(cells[i]))
  }

  /** The first `n` names of the candidate list, as the loop of `get_directions` has built it. */
  function DirectionsUpTo(c: Cell, size: int, n: nat): seq<string>
    requires n <= 4
  {
    var cells := CandidatesUpTo(c, size, n);
    seq(|cells|, i requires 0 <= i < |cells| => Name(cells[i]))
  }

  /** The neighbours are exactly the in-bounds cells at distance one. */
  lemma NeighbourCellsAreAdjacent(c: Cell, size: int, d: Cell)
    ensures d in NeighbourCells(c, size) <==> InBounds(d, size) && Distance(c, d) == 1
  {
    var steps := [(c.0, c.1 + 1), (c.0 + 1, c.1), (c.0, c.1 - 1), (c.0 - 1, c.1)];
    NeighbourCellsAreCandidates(c, size, d);
    assert [Candidate(c, 0), Candidate(c, 1), Candidate(c, 2), Candidate(c, 3)] == steps;
    if Distance(c, d) == 1 {
      UnitStep(c, d);
    }
    if d in steps {
      assert Distance(c, d) == 1;
    }
  }

  /** A cell at distance one differs from `c` by one in exactly one coordinate. */
  lemma UnitStep(c: Cell, d: Cell)
    requires Distance(c, d) == 1
    ensures d in [(c.0, c.1 + 1), (c.0 + 1, c.1), (c.0, c.1 - 1), (c.0 - 1, c.1)]
  {
    if d.0 == c.0 {
      assert d.1 == c.1 + 1 || d.1 == c.1 - 1;
    } else {
      assert d.1 == c.1;
      assert d.0 == c.0 + 1 || d.0 == c.0 - 1;
    }
  }

  /** The neighbours are the in-bounds ones among the four candidates. */
  lemma NeighbourCellsAreCandidates(c: Cell, size: int, d: Cell)
    ensures d in NeighbourCells(c, size) <==>
      InBounds(d, size) && d in [Candidate(c, 0), Candidate(c, 1), Candidate(c, 2), Candidate(c, 3)]
  {
    var all := [Candidate(c, 0), Candidate(c, 1), Candidate(c, 2), Candidate(c, 3)];
    CandidatesUpToMembers(c, size, 4, d);
    assert all[..4] == all;
  }

  /** The first `n` rounds list exactly the in-bounds ones among the first `n` candidates. */
  lemma {:induction false} CandidatesUpToMembers(c: Cell, size: int, n: nat, d: Cell)
    requires n <= 4
    ensures d in CandidatesUpTo(c, size, n) <==>
      InBounds(d, size) && d in [Candidate(c, 0), Candidate(c, 1), Candidate(c, 2), Candidate(c, 3)][..n]
  {
    if n > 0 {
      var all := [Candidate(c, 0), Candidate(c, 1), Candidate(c, 2), Candidate(c, 3)];
      CandidatesUpToMembers(c, size, n - 1, d);
      assert all[..n] == all[..n - 1] + [Candidate(c, n - 1)];
    }
  }

  /** There are at most four neighbours, and none is listed twice. */
  lemma NeighbourCellsDistinct(c: Cell, size: int)
    ensures |NeighbourCells(c, size)| <= 4
    ensures forall i, j :: 0 <= i < j < |NeighbourCells(c, size)| ==>
              NeighbourCells(c, size)[i] != NeighbourCells(c, size)[j]
  {
    CandidatesDistinct(c, size, 4);
  }

  lemma {:induction false} CandidatesDistinct(c: Cell, size: int, n: nat)
    requires n <= 4
    ensures |CandidatesUpTo(c, size, n)| <= n
    ensures forall i :: 0 <= i < |CandidatesUpTo(c, size, n)| ==>
              exists k :: 0 <= k < n && CandidatesUpTo(c, size, n)[i] == Candidate(c, k)
    ensures forall i, j :: 0 <= i < j < |CandidatesUpTo(c, size, n)| ==>
              CandidatesUpTo(c, size, n)[i] != CandidatesUpTo(c, size, n)[j]
  {
    if n > 0 {
      var k := n - 1;
      CandidatesDistinct(c, size, k);
      var prev := CandidatesUpTo(c, size, k);
      forall i | 0 <= i < |prev|
        ensures prev[i] != Candidate(c, k)
      {
        var k' :| 0 <= k' < k && prev[i] == Candidate(c, k');
      }
      var cells := CandidatesUpTo(c, size, n);
      forall i | 0 <= i < |cells|
        ensures exists k' :: 0 <= k' < n && cells[i] == Candidate(c, k')
      {
        if i < |prev| {
          assert cells[i] == prev[i];
          var k' :| 0 <= k' < k && prev[i] == Candidate(c, k');
        } else {
          assert cells[i] == Candidate(c, k);
        }
      }
    }
  }

  /** In a world at least two cells wide, every in-bounds cell has at least two
      neighbours: one along each axis. */
  lemma AtLeastTwoNeighbours(c: Cell, size: int)
    requires size >= 2 && InBounds(c, size)
    ensures |NeighbourCells(c, size)| >= 2
  {
    var horizontal := if c.0 + 1 < size then Candidate(c, 1) else Candidate(c, 3);
    var vertical := if c.1 + 1 < size then Candidate(c, 0) else Candidate(c, 2);
    NeighbourCellsAreAdjacent(c, size, horizontal);
    NeighbourCellsAreAdjacent(c, size, vertical);
    var cells := NeighbourCells(c, size);
    assert horizontal in cells && vertical in cells && horizontal != vertical;
  }

  /** `DirectionsUpTo` grows by the name of the next candidate when it is in bounds. */
  lemma DirectionsUpToStep(c: Cell, size: int, n: nat)
    requires n < 4
    ensures DirectionsUpTo(c, size, n + 1) == DirectionsUpTo(c, size, n) +
              (if InBounds(Candidate(c, n), size) then [Name(Candidate(c, n))] else [])
  {
  }

  /** Two digits read back what two single-digit coordinates wrote. */
  lemma NameRoundTrip(c: Cell)
    requires 0 <= c.0 < 10 && 0 <= c.1 < 10
    ensures |Name(c)| == 2
    ensures CellOf(Name(c)) == c
  {
  }

  /** In a world at most ten cells wide, each listed direction names the neighbour
      it came from, and reading the name back gives that neighbour. */
  lemma DirectionsNameNeighbours(c: Cell, size: int, i: nat)
    requires size <= 10
    requires i < |Directions(c, size)|
    ensures |NeighbourCells(c, size)| == |Directions(c, size)|
    ensures |Directions(c, size)[i]| == 2
    ensures CellOf(Directions(c, size)[i]) == NeighbourCells(c, size)[i]
  {
    NameRoundTrip(NeighbourCells(c, size)[i]);
  }

  // ---------------------------------------------------------------------------
  // calculateNextPosition and calculateNextDirection

  /** One unclamped step in the heading `f`. */
  function Step(c: Cell, f: Facing): Cell
  {
    match f
    case Up => (c.0, c.1 - 1)
    case Down => (c.0, c.1 + 1)
    case Right => (c.0 + 1, c.1)
    case Left => (c.0 - 1, c.1)
  }

  /** `calculateNextPosition`: the coordinate along the heading moves by one and is
      clamped to `0 .. size - 1`. */
  function NextPosition(c: Cell, f: Facing, size: int): Cell
  {
    match f
    case Up => (c.0, if 0 > c.1 - 1 then 0 else c.1 - 1)
    case Down => (c.0, if size - 1 < c.1 + 1 then size - 1 else c.1 + 1)
    case Right => (if size - 1 < c.0 + 1 then size - 1 else c.0 + 1, c.1)
    case Left => (if 0 > c.0 - 1 then 0 else c.0 - 1, c.1)
  }

  /** From a cell inside the world a move takes the step when it stays inside and
      bumps (stays put) when it would leave; either way the agent remains inside. */
  lemma NextPositionSteps(c: Cell, f: Facing, size: int)
    requires InBounds(c, size)
    ensures NextPosition(c, f, size) == if InBounds(Step(c, f), size) then Step(c, f) else c
    ensures InBounds(NextPosition(c, f, size), size)
  {
  }

  /** `calculateNextDirection`: `"left"` turns counter-clockwise, any other action clockwise. */
  function NextFacing(f: Facing, action: string): Facing
  {
    match f
    case Up => if action == "left" then Left else Right
    case Down => if action == "left" then Right else Left
    case Right => if action == "left" then Up else Down
    case Left => if action == "left" then Down else Up
  }

  /** The facing key. */
  function Index(f: Facing): nat
  {
    match f
    case Up => 0
    case Right => 1
    case Down => 2
    case Left => 3
  }

  /** A left turn steps the facing key back by one, any other action forward by one,
      modulo four. */
  lemma TurnsRotateKey(f: Facing, action: string)
    ensures Index(NextFacing(f, action)) == if action == "left" then (Index(f) + 3) % 4 else (Index(f) + 1) % 4
  {
  }

  /** A right turn undoes a left turn, and four left turns make a full circle. */
  lemma TurnsCancel(f: Facing)
    ensures NextFacing(NextFacing(f, "left"), "right") == f
    ensures NextFacing(NextFacing(NextFacing(NextFacing(f, "left"), "left"), "left"), "left") == f
  {
  }

  /** The facing after `n` left turns. */
  function TurnLeft(f: Facing, n: nat): Facing
    decreases n
  {
    if n == 0 then f else TurnLeft(NextFacing(f, "left"), n - 1)
  }

  /** The number of left turns from `f` to `g`. */
  function LeftTurns(f: Facing, g: Facing): nat
  {
    (Index(f) - Index(g)) % 4
  }

  /** At most three left turns reach any heading. */
  lemma LeftTurnsReach(f: Facing, g: Facing)
    ensures LeftTurns(f, g) <= 3
    ensures TurnLeft(f, LeftTurns(f, g)) == g
  {
    var l1 := NextFacing(f, "left");
    var l2 := NextFacing(l1, "left");
    var l3 := NextFacing(l2, "left");
    assert TurnLeft(l3, 0) == l3;
    assert TurnLeft(l2, 1) == l3;
    assert TurnLeft(l1, 2) == l3;
  }

  // ---------------------------------------------------------------------------
  // Steering in action

  /** The heading `action` wants in order to go from `pos` towards `dest`: vertical
      when the columns agree (up when the destination is higher), horizontal otherwise. */
  function GoalFacing(pos: Cell, dest: Cell): Facing
  {
    if dest.0 == pos.0 then (if dest.1 < pos.1 then Up else Down)
    else if dest.0 > pos.0 then Right
    else Left
  }

  /** For an adjacent destination the goal heading points straight at it. */
  lemma GoalFacingPointsAtNeighbour(pos: Cell, dest: Cell)
    requires Distance(pos, dest) == 1
    ensures Step(pos, GoalFacing(pos, dest)) == dest
  {
  }

  /** One steering decision of `action`: move when facing the goal heading, otherwise turn left. */
  datatype Pose = Pose(position: Cell, facing: Facing)

  function Steer(p: Pose, dest: Cell, size: int): Pose
  {
    if GoalFacing(p.position, dest) == p.facing then Pose(NextPosition(p.position, p.facing, size), p.facing)
    else Pose(p.position, NextFacing(p.facing, "left"))
  }

  /** `n` steering decisions towards the same destination. */
  function SteerTimes(p: Pose, dest: Cell, size: int, n: nat): Pose
    decreases n
  {
    if n == 0 then p else SteerTimes(Steer(p, dest, size), dest, size, n - 1)
  }

  /** Steering towards an in-bounds neighbour reaches it after at most three left
      turns and one move, and stands still until then. */
  lemma {:induction false} SteeringArrives(p: Pose, dest: Cell, size: int)
    requires InBounds(p.position, size) && InBounds(dest, size)
    requires Distance(p.position, dest) == 1
    ensures LeftTurns(p.facing, GoalFacing(p.position, dest)) <= 3
    ensures SteerTimes(p, dest, size, LeftTurns(p.facing, GoalFacing(p.position, dest)) + 1).position == dest
    ensures forall n :: 0 <= n <= LeftTurns(p.facing, GoalFacing(p.position, dest)) ==>
              SteerTimes(p, dest, size, n).position == p.position
    decreases LeftTurns(p.facing, GoalFacing(p.position, dest))
  {
    var goal := GoalFacing(p.position, dest);
    LeftTurnsReach(p.facing, goal);
    GoalFacingPointsAtNeighbour(p.position, dest);
    NextPositionSteps(p.position, goal, size);
    if p.facing != goal {
      var q := Steer(p, dest, size);
      assert q == Pose(p.position, NextFacing(p.facing, "left"));
      TurnsRotateKey(p.facing, "left");
      assert LeftTurns(q.facing, goal) == LeftTurns(p.facing, goal) - 1;
      SteeringArrives(q, dest, size);
      forall n | 0 <= n <= LeftTurns(p.facing, goal)
        ensures SteerTimes(p, dest, size, n).position == p.position
      {
        if n > 0 {
          assert SteerTimes(p, dest, size, n) == SteerTimes(q, dest, size, n - 1);
        }
      }
    } else {
      assert LeftTurns(p.facing, goal) == 0;
      assert SteerTimes(p, dest, size, 1) == Steer(p, dest, size);
    }
  }
}
