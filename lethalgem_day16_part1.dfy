/**
 * lethalgem/day_16/part_1: a beam enters the contraption at the top left
 * corner heading right and bounces off mirrors until it leaves the grid;
 * the answer is the number of cells it passes through.  Positions are
 * (x, y) with y growing downwards.  The mirrors are read into a map from
 * position to encounter, the walls are the largest x and y, and
 * `track_beam` moves a list of beams (always one) a step at a time.
 *
 * Splitters are not handled yet: a beam on one is left as it is, so
 * `track_beam` never returns once its beam reaches a splitter.
 * `TrackBeam` reports that case as `None`.
 */
module LethalgemDay16Part1 {
  import opened Text

  datatype Direction = Up | Right | Left | Down

  datatype EncounterType =
    | LeftTiltMirror      // '\\'
    | RightTiltMirror     // '/'
    | HorizontalSplitter  // '-'
    | VerticalSplitter    // '|'

  /** The outcome of `find_wall_bounds`; `Underflow` is the panic of a `usize` subtraction below zero. */
  datatype Bounds = Found(walls: (nat, nat)) | FailedToFindXBound | Underflow

  type Encounters = map<(nat, nat), EncounterType>

  /** The fields of a `Beam`. */
  datatype BeamState = BeamState(location: (nat, nat), direction: Direction, stopped: bool)

  // ---------------------------------------------------------------------
  // Reading the grid

  /** `find_wall_bounds`: the last column of the first line and the last line. */
  function FindWallBounds(input: string): (r: Bounds)
    ensures r != FailedToFindXBound
    ensures r.Found? <==> |Lines(input)| > 0 && |Lines(input)[0]| > 0
    ensures r.Found? ==> r.walls.0 + 1 == |Lines(input)[0]| && r.walls.1 + 1 == |Lines(input)|
  {
    var lines := Lines(input);
    if |lines| == 0 then Underflow
    else if |lines[0]| == 0 then Underflow
    else Found((|lines[0]| - 1, |lines| - 1))
  }

  /** The encounter a character stands for, if any. */
  function EncounterOf(c: char): Option<EncounterType>
  {
    match c
    case '\\' => Some(LeftTiltMirror)
    case '/' => Some(RightTiltMirror)
    case '|' => Some(VerticalSplitter)
    case '-' => Some(HorizontalSplitter)
    case _ => None
  }

  /** (x, y) is a reading position: a column of row `y`, or the end of its line, or the start after the last row. */
  predicate Position(lines: seq<string>, x: nat, y: nat)
  {
    y <= |lines| && (if y < |lines| then x <= |lines[y]| else x == 0)
  }

  /** `m` with the encounter of character `c` at (x, y) added, if `c` is one. */
  function Add(m: Encounters, x: nat, y: nat, c: char): Encounters
  {
    match EncounterOf(c)
    case Some(e) => m[(x, y) := e]
    case None => m
  }

  /** The encounters of the cells before (x, y) in reading order, read one cell at a time. */
  function EncountersBefore(lines: seq<string>, x: nat, y: nat): Encounters
    requires Position(lines, x, y)
    decreases y, x
  {
    if x > 0 then Add(EncountersBefore(lines, x - 1, y), x - 1, y, lines[y][x - 1])
    else if y == 0 then map[]
    else EncountersBefore(lines, |lines[y - 1]|, y - 1)
  }

  /** Every encounter of the grid. */
  function AllEncounters(lines: seq<string>): Encounters
  {
    EncountersBefore(lines, 0, |lines|)
  }

  /**
   * The cells read before (x, y) are those of the earlier rows and of row
   * `y` left of column `x`; the map holds each of them that is a mirror or
   * splitter, under its own position.
   */
  lemma {:induction false} BeforeAt(lines: seq<string>, x: nat, y: nat, i: nat, j: nat)
    requires Position(lines, x, y)
    ensures (i, j) in EncountersBefore(lines, x, y) <==>
      j < |lines| && i < |lines[j]| && (j < y || (j == y && i < x)) && EncounterOf(lines[j][i]).Some?
    ensures (i, j) in EncountersBefore(lines, x, y) ==> EncountersBefore(lines, x, y)[(i, j)] == EncounterOf(lines[j][i]).value
    decreases y, x
  {
    if x > 0 {
      BeforeAt(lines, x - 1, y, i, j);
    } else if y > 0 {
      BeforeAt(lines, |lines[y - 1]|, y - 1, i, j);
    }
  }

  /** The map holds exactly the mirrors and splitters, each under its own position, with its own type. */
  lemma AllEncountersExactly(lines: seq<string>, x: nat, y: nat)
    ensures (x, y) in AllEncounters(lines) <==> y < |lines| && x < |lines[y]| && lines[y][x] in "\\/|-"
    ensures (x, y) in AllEncounters(lines) ==>
      (AllEncounters(lines)[(x, y)] == LeftTiltMirror <==> lines[y][x] == '\\') &&
      (AllEncounters(lines)[(x, y)] == RightTiltMirror <==> lines[y][x] == '/') &&
      (AllEncounters(lines)[(x, y)] == VerticalSplitter <==> lines[y][x] == '|') &&
      (AllEncounters(lines)[(x, y)] == HorizontalSplitter <==> lines[y][x] == '-')
  {
    BeforeAt(lines, 0, |lines|, x, y);
  }

  /** `locate_all_encounters`: every cell's character, row by row, left to right. */
  method LocateAllEncounters(input: string) returns (encounters: Encounters)
    ensures encounters == AllEncounters(Lines(input))
  {
    var lines := Lines(input);
    encounters := map[];
    for y := 0 to |lines|
      invariant encounters == EncountersBefore(lines, 0, y)
    {
      var line := lines[y];
      for x := 0 to |line|
        invariant encounters == EncountersBefore(lines, x, y)
      {
        var c := line[x];
        match c {
          case '\\' => encounters := encounters[(x, y) := LeftTiltMirror];
          case '/' => encounters := encounters[(x, y) := RightTiltMirror];
          case '|' => encounters := encounters[(x, y) := VerticalSplitter];
          case '-' => encounters := encounters[(x, y) := HorizontalSplitter];
          case _ =>
        }
      }
    }
  }

  // ---------------------------------------------------------------------
  // Moving a beam

  /** The cell one step on from `location`, possibly beyond a wall. */
  function Target(location: (nat, nat), direction: Direction): (int, int)
  {
    var (x, y) := location;
    match direction
    case Up => (x, y - 1)
    case Right => (x + 1, y)
    case Left => (x - 1, y)
    case Down => (x, y + 1)
  }

  /** `move_beam`: one step on, or, where that crosses a wall, no step and the beam stops bouncing. */
  function Moved(s: BeamState, walls: (nat, nat)): BeamState
  {
    var t := Target(s.location, s.direction);
    if t.0 > walls.0 || t.0 < 0 || t.1 > walls.1 || t.1 < 0 then s.(stopped := true)
    else s.(location := (t.0, t.1))
  }

  predicate Within(location: (nat, nat), walls: (nat, nat))
  {
    location.0 <= walls.0 && location.1 <= walls.1
  }

  /** A move keeps the direction; it goes one cell on and stays within the walls, or it stops the beam where it is. */
  lemma MovedOneCell(s: BeamState, walls: (nat, nat))
    ensures Moved(s, walls).direction == s.direction
    ensures !Moved(s, walls).stopped ==>
      !s.stopped && Within(Moved(s, walls).location, walls) &&
      Moved(s, walls).location == Target(s.location, s.direction) &&
      Moved(s, walls).location != s.location
    ensures Moved(s, walls).stopped && !s.stopped ==>
      Moved(s, walls).location == s.location &&
      var t := Target(s.location, s.direction); !(0 <= t.0 <= walls.0 && 0 <= t.1 <= walls.1)
  {
  }

  /** The turn at a '/' mirror (`RightTiltMirror`). */
  function RightTilt(d: Direction): Direction
  {
    match d
    case Up => Right
    case Right => Up
    case Left => Down
    case Down => Left
  }

  /** The turn at a '\\' mirror (`LeftTiltMirror`). */
  function LeftTilt(d: Direction): Direction
  {
    match d
    case Up => Left
    case Right => Down
    case Left => Up
    case Down => Right
  }

  /** Each mirror undoes its own turn, and the two mirrors never agree. */
  lemma MirrorTurns(d: Direction)
    ensures RightTilt(RightTilt(d)) == d && LeftTilt(LeftTilt(d)) == d
    ensures RightTilt(d) != LeftTilt(d) && RightTilt(d) != d && LeftTilt(d) != d
  {
  }

  predicate AtSplitter(encounters: Encounters, s: BeamState)
  {
    s.location in encounters && encounters[s.location] in {HorizontalSplitter, VerticalSplitter}
  }

  /** The direction a beam leaves its cell in. */
  function Turned(encounters: Encounters, s: BeamState): Direction
  {
    if s.location !in encounters then s.direction
    else match encounters[s.location]
      case RightTiltMirror => RightTilt(s.direction)
      case LeftTiltMirror => LeftTilt(s.direction)
      case _ => s.direction
  }

  /** `check_beam_location`: turn at a mirror, then move; a splitter leaves the beam alone. */
  function Checked(encounters: Encounters, s: BeamState, walls: (nat, nat)): BeamState
  {
    if AtSplitter(encounters, s) then s
    else Moved(s.(direction := Turned(encounters, s)), walls)
  }

  /** Off a splitter, a beam moves or stops; on one it stays exactly as it is. */
  lemma CheckedChanges(encounters: Encounters, s: BeamState, walls: (nat, nat))
    requires !s.stopped
    ensures AtSplitter(encounters, s) <==> Checked(encounters, s, walls) == s
  {
    MovedOneCell(s.(direction := Turned(encounters, s)), walls);
  }

  /** Two moving beams off splitters that land in the same state came from the same state. */
  lemma CheckedInjective(encounters: Encounters, a: BeamState, b: BeamState, walls: (nat, nat))
    requires !a.stopped && !b.stopped && !AtSplitter(encounters, a) && !AtSplitter(encounters, b)
    requires Checked(encounters, a, walls) == Checked(encounters, b, walls)
    requires !Checked(encounters, a, walls).stopped
    ensures a == b
  {
    var a', b' := a.(direction := Turned(encounters, a)), b.(direction := Turned(encounters, b));
    MovedOneCell(a', walls);
    MovedOneCell(b', walls);
    assert a'.direction == b'.direction;
    assert a.location == b.location;
    MirrorTurns(a.direction);
    MirrorTurns(b.direction);
  }

  /** No beam that moved can be back in the starting state: it would have come from left of the wall. */
  lemma CheckedNotStart(encounters: Encounters, s: BeamState, walls: (nat, nat))
    requires !s.stopped && !AtSplitter(encounters, s)
    ensures Checked(encounters, s, walls) != Start
  {
    MovedOneCell(s.(direction := Turned(encounters, s)), walls);
  }

  // ---------------------------------------------------------------------
  // The beam object

  /** `Beam`: the fields `track_beam` and `check_beam_location` update in place. */
  class Beam {
    var currentLocation: (nat, nat)
    var direction: Direction
    var hasStoppedBouncing: bool

    function State(): BeamState
      reads this
    {
      BeamState(currentLocation, direction, hasStoppedBouncing)
    }

    /** `Beam::new`: still bouncing. */
    constructor (currentLocation: (nat, nat), direction: Direction)
      ensures State() == BeamState(currentLocation, direction, false)
    {
      this.currentLocation := currentLocation;
      this.direction := direction;
      hasStoppedBouncing := false;
    }

    /** `Clone`. */
    constructor Clone(other: Beam)
      ensures State() == other.State()
    {
      currentLocation := other.currentLocation;
      direction := other.direction;
      hasStoppedBouncing := other.hasStoppedBouncing;
    }

    method UpdateCurrentLocation(location: (nat, nat))
      modifies this
      ensures State() == old(State()).(location := location)
    {
      currentLocation := location;
    }

    method UpdateDirection(direction: Direction)
      modifies this
      ensures State() == old(State()).(direction := direction)
    {
      this.direction := direction;
    }

    method StopBouncing()
      modifies this
      ensures State() == old(State()).(stopped := true)
    {
      hasStoppedBouncing := true;
    }
  }

  /** `update_beam_to_new_location`: stop at a wall, else go there. */
  method UpdateBeamToNewLocation(newLocation: (int, int), walls: (nat, nat), beam: Beam)
    modifies beam
    ensures newLocation.0 > walls.0 || newLocation.0 < 0 || newLocation.1 > walls.1 || newLocation.1 < 0 ==>
      beam.State() == old(beam.State()).(stopped := true)
    ensures !(newLocation.0 > walls.0 || newLocation.0 < 0 || newLocation.1 > walls.1 || newLocation.1 < 0) ==>
      beam.State() == old(beam.State()).(location := (newLocation.0, newLocation.1))
  {
    if newLocation.0 > walls.0 || newLocation.0 < 0 || newLocation.1 > walls.1 || newLocation.1 < 0 {
      beam.StopBouncing();
    } else {
      beam.UpdateCurrentLocation((newLocation.0, newLocation.1));
    }
  }

  /** `move_beam`. */
  method MoveBeam(beam: Beam, walls: (nat, nat))
    modifies beam
    ensures beam.State() == Moved(old(beam.State()), walls)
  {
    var (x, y) := beam.currentLocation;
    match beam.direction {
      case Up => UpdateBeamToNewLocation((x, y - 1), walls, beam);
      case Right => UpdateBeamToNewLocation((x + 1, y), walls, beam);
      case Left => UpdateBeamToNewLocation((x - 1, y), walls, beam);
      case Down => UpdateBeamToNewLocation((x, y + 1), walls, beam);
    }
  }

  /** `check_beam_location`: the beam, updated, as the only beam of the result. */
  method CheckBeamLocation(encounters: Encounters, beam: Beam, walls: (nat, nat)) returns (moved: seq<Beam>)
    modifies beam
    ensures moved == [beam]
    ensures beam.State() == Checked(encounters, old(beam.State()), walls)
  {
    var location := beam.currentLocation;
    if location in encounters {
      match encounters[location] {
        case RightTiltMirror =>
          beam.UpdateDirection(RightTilt(beam.direction));
          MoveBeam(beam, walls);
        case LeftTiltMirror =>
          beam.UpdateDirection(LeftTilt(beam.direction));
          MoveBeam(beam, walls);
        case VerticalSplitter =>
        case HorizontalSplitter =>
      }
    } else {
      MoveBeam(beam, walls);
    }
    moved := [beam];
  }

  // ---------------------------------------------------------------------
  // Tracking the beam

  /** `Beam::new((0, 0), Direction::Right)`. */
  const Start := BeamState((0, 0), Right, false)

  /** The beam after `n` rounds of `track_beam`. */
  function Walk(encounters: Encounters, walls: (nat, nat), n: nat): BeamState
  {
    if n == 0 then Start else Checked(encounters, Walk(encounters, walls, n - 1), walls)
  }

  /** The cells passed through in the first `n` rounds, the top left corner included. */
  function Path(encounters: Encounters, walls: (nat, nat), n: nat): set<(nat, nat)>
  {
    set k | 0 <= k <= n :: Walk(encounters, walls, k).location
  }

  /** The beam never leaves the walls. */
  lemma {:induction false} WalkWithin(encounters: Encounters, walls: (nat, nat), n: nat)
    ensures Within(Walk(encounters, walls, n).location, walls)
  {
    if n > 0 {
      var s := Walk(encounters, walls, n - 1);
      WalkWithin(encounters, walls, n - 1);
      MovedOneCell(s.(direction := Turned(encounters, s)), walls);
    }
  }

  /** Every round up to `n` kept bouncing off mirrors only. */
  predicate Bouncing(encounters: Encounters, walls: (nat, nat), n: nat)
  {
    forall k :: 0 <= k < n ==> !Walk(encounters, walls, k).stopped && !AtSplitter(encounters, Walk(encounters, walls, k))
  }

  /** While it keeps bouncing off mirrors, the beam never repeats a state. */
  lemma {:induction false} WalkDistinct(encounters: Encounters, walls: (nat, nat), i: nat, j: nat)
    requires i < j && Bouncing(encounters, walls, j) && !Walk(encounters, walls, j).stopped
    ensures Walk(encounters, walls, i) != Walk(encounters, walls, j)
  {
    var prev := Walk(encounters, walls, j - 1);
    if i == 0 {
      CheckedNotStart(encounters, prev, walls);
    } else if Walk(encounters, walls, i) == Walk(encounters, walls, j) {
      WalkDistinct(encounters, walls, i - 1, j - 1);
      CheckedInjective(encounters, Walk(encounters, walls, i - 1), prev, walls);
    }
  }

  /** A beam stuck on a splitter stays there for ever: `track_beam` never returns. */
  lemma {:induction false} StuckForever(encounters: Encounters, walls: (nat, nat), n: nat, k: nat)
    requires Checked(encounters, Walk(encounters, walls, n), walls) == Walk(encounters, walls, n)
    ensures Walk(encounters, walls, n + k) == Walk(encounters, walls, n)
  {
    if k > 0 {
      StuckForever(encounters, walls, n, k - 1);
    }
  }

  /** Every bouncing beam within the walls. */
  function States(walls: (nat, nat)): set<BeamState>
  {
    set x: nat, y: nat, d: Direction | x <= walls.0 && y <= walls.1 && d in {Up, Right, Left, Down} :: BeamState((x, y), d, false)
  }

  lemma InStates(s: BeamState, walls: (nat, nat))
    requires !s.stopped && Within(s.location, walls)
    ensures s in States(walls)
  {
    var (x, y) := s.location;
    match s.direction {
      case Up => assert s.direction in {Up, Right, Left, Down};
      case Right => assert s.direction in {Up, Right, Left, Down};
      case Left => assert s.direction in {Up, Right, Left, Down};
      case Down => assert s.direction in {Up, Right, Left, Down};
    }
    assert BeamState((x, y), s.direction, false) == s;
  }

  function Visited(encounters: Encounters, walls: (nat, nat), n: nat): set<BeamState>
  {
    set k | 0 <= k <= n :: Walk(encounters, walls, k)
  }

  /** One more bouncing round reaches a state not seen before, still among `States`. */
  lemma VisitedGrows(encounters: Encounters, walls: (nat, nat), n: nat)
    requires Bouncing(encounters, walls, n + 1) && !Walk(encounters, walls, n + 1).stopped
    ensures Visited(encounters, walls, n + 1) == Visited(encounters, walls, n) + {Walk(encounters, walls, n + 1)}
    ensures Walk(encounters, walls, n + 1) !in Visited(encounters, walls, n)
    ensures Visited(encounters, walls, n + 1) <= States(walls)
  {
    var next := Walk(encounters, walls, n + 1);
    forall k | 0 <= k <= n ensures Walk(encounters, walls, k) != next {
      WalkDistinct(encounters, walls, k, n + 1);
    }
    forall s | s in Visited(encounters, walls, n + 1) ensures s in States(walls) {
      var k :| 0 <= k <= n + 1 && s == Walk(encounters, walls, k);
      WalkWithin(encounters, walls, k);
      InStates(s, walls);
    }
  }

  lemma PathGrows(encounters: Encounters, walls: (nat, nat), n: nat)
    ensures Path(encounters, walls, n + 1) == Path(encounters, walls, n) + {Walk(encounters, walls, n + 1).location}
  {
  }

  lemma {:induction false} DistinctCard<T>(s: seq<T>)
    requires forall i, j :: 0 <= i < j < |s| ==> s[i] != s[j]
    ensures |set x | x in s| == |s|
  {
    if s != [] {
      var init := s[..|s| - 1];
      DistinctCard(init);
      assert (set x | x in s) == (set x | x in init) + {s[|s| - 1]};
    }
  }

  /** One `for moved_beam in moved_beams` pass: add its cell unless the path already has it. */
  method AddToPath(path: seq<(nat, nat)>, location: (nat, nat)) returns (path': seq<(nat, nat)>)
    requires forall i, j :: 0 <= i < j < |path| ==> path[i] != path[j]
    ensures forall i, j :: 0 <= i < j < |path'| ==> path'[i] != path'[j]
    ensures (set x | x in path') == (set x | x in path) + {location}
  {
    if location !in path {
      path' := path + [location];
    } else {
      path' := path;
    }
  }

  /** A round that neither stops the beam nor finds it on a splitter keeps it bouncing. */
  lemma BouncingStep(encounters: Encounters, walls: (nat, nat), n: nat)
    requires Bouncing(encounters, walls, n)
    requires !Walk(encounters, walls, n).stopped && !AtSplitter(encounters, Walk(encounters, walls, n))
    ensures Bouncing(encounters, walls, n + 1)
  {
  }

  /**
   * One round of the `while beams_still_bouncing` loop.  `beams` always
   * holds one beam, so its `for (i, beam)` loop runs once, with `i == 0`.
   * `stuck` where the beam is on a splitter: the round changes nothing,
   * and the source repeats it for ever.
   */
  method Round(encounters: Encounters, walls: (nat, nat), beams: seq<Beam>, path: seq<(nat, nat)>, ghost steps: nat)
    returns (beams': seq<Beam>, path': seq<(nat, nat)>, stuck: bool)
    requires |beams| == 1 && beams[0].State() == Walk(encounters, walls, steps) && !Walk(encounters, walls, steps).stopped
    requires forall i, j :: 0 <= i < j < |path| ==> path[i] != path[j]
    requires (set x | x in path) == Path(encounters, walls, steps)
    ensures stuck <==> AtSplitter(encounters, Walk(encounters, walls, steps))
    ensures !stuck ==> |beams'| == 1 && beams'[0].State() == Walk(encounters, walls, steps + 1)
    ensures !stuck ==> forall i, j :: 0 <= i < j < |path'| ==> path'[i] != path'[j]
    ensures !stuck ==> (set x | x in path') == Path(encounters, walls, steps + 1)
  {
    var beam := new Beam.Clone(beams[0]);
    var movedBeams := CheckBeamLocation(encounters, beam, walls);
    CheckedChanges(encounters, beams[0].State(), walls);
    if beam.State() == beams[0].State() {
      return beams, path, true;
    }
    stuck := false;
    path' := path;
    assert Walk(encounters, walls, steps + 1) == Checked(encounters, Walk(encounters, walls, steps), walls);
    for m := 0 to |movedBeams|
      invariant beam.State() == Walk(encounters, walls, steps + 1)
      invariant forall i, j :: 0 <= i < j < |path'| ==> path'[i] != path'[j]
      invariant (set x | x in path') == Path(encounters, walls, steps) + (if m == 0 then {} else {beam.currentLocation})
    {
      path' := AddToPath(path', movedBeams[m].currentLocation);
    }
    PathGrows(encounters, walls, steps);
    beams' := beams[1..] + movedBeams;
  }

  /**
   * `track_beam`.  `None` where the beam reaches a splitter, which leaves it
   * as it is, so that the source loops for ever; `steps` is the number of
   * rounds run.
   */
  method TrackBeam(encounters: Encounters, walls: (nat, nat)) returns (result: Option<nat>, ghost steps: nat)
    ensures result.Some? ==> Bouncing(encounters, walls, steps) && Walk(encounters, walls, steps).stopped
    ensures result.Some? ==> result.value == |Path(encounters, walls, steps)|
    ensures result.None? ==> Bouncing(encounters, walls, steps) && AtSplitter(encounters, Walk(encounters, walls, steps))
    ensures result.None? ==> forall k: nat :: steps <= k ==> Walk(encounters, walls, k) == Walk(encounters, walls, steps)
  {
    var pathTraveledByAllBeams: seq<(nat, nat)> := [(0, 0)];
    var first := new Beam((0, 0), Right);
    var beams := [first];
    steps := 0;
    var beamsStillBouncing := true;
    while beamsStillBouncing
      invariant |beams| == 1 && beams[0].State() == Walk(encounters, walls, steps)
      invariant Bouncing(encounters, walls, steps)
      invariant beamsStillBouncing <==> !Walk(encounters, walls, steps).stopped
      invariant forall i, j :: 0 <= i < j < |pathTraveledByAllBeams| ==> pathTraveledByAllBeams[i] != pathTraveledByAllBeams[j]
      invariant (set x | x in pathTraveledByAllBeams) == Path(encounters, walls, steps)
      invariant beamsStillBouncing ==> Visited(encounters, walls, steps) <= States(walls)
      decreases if beamsStillBouncing then States(walls) - Visited(encounters, walls, steps) else {},
        if beamsStillBouncing then 1 else 0
    {
      var stuck;
      beams, pathTraveledByAllBeams, stuck := Round(encounters, walls, beams, pathTraveledByAllBeams, steps);
      if stuck {
        CheckedChanges(encounters, Walk(encounters, walls, steps), walls);
        forall k: nat | steps <= k ensures Walk(encounters, walls, k) == Walk(encounters, walls, steps) {
          StuckForever(encounters, walls, steps, k - steps);
        }
        return None, steps;
      }
      BouncingStep(encounters, walls, steps);
      steps := steps + 1;
      if beams[0].hasStoppedBouncing {
        beamsStillBouncing := false;
      } else {
        VisitedGrows(encounters, walls, steps - 1);
      }
    }
    DistinctCard(pathTraveledByAllBeams);
    result := Some(|pathTraveledByAllBeams|);
  }

  // ---------------------------------------------------------------------
  // One-row grids, as in the tests of `track_beam`

  /** Along an empty stretch of a one-row grid the beam goes right one cell per round. */
  lemma {:induction false} RowWalk(encounters: Encounters, w: nat, m: nat, k: nat)
    requires forall x: nat :: x < m ==> (x, 0) !in encounters
    requires k <= m && k <= w
    ensures Walk(encounters, (w, 0), k) == BeamState((k, 0), Right, false)
  {
    if k > 0 {
      RowWalk(encounters, w, m, k - 1);
    }
  }

  function RowPrefix(last: nat): set<(nat, nat)>
  {
    set k: nat | k <= last :: (k, 0)
  }

  lemma {:induction false} RowPrefixCard(last: nat)
    ensures |RowPrefix(last)| == last + 1
  {
    if last == 0 {
      assert RowPrefix(0) == {(0, 0)};
    } else {
      RowPrefixCard(last - 1);
      assert RowPrefix(last) == RowPrefix(last - 1) + {(last, 0)};
    }
  }

  /**
   * On a one-row grid `w + 1` cells wide whose first encounter is a mirror
   * at `m` (or that has none before the wall, `m == w + 1`), the beam
   * stops at the mirror or at the wall: whenever `track_beam` returns, it
   * counts the cells up to there.
   */
  lemma RowCount(encounters: Encounters, w: nat, m: nat, n: nat)
    requires forall x: nat :: x < m ==> (x, 0) !in encounters
    requires m == w + 1 || (m <= w && (m, 0) in encounters && encounters[(m, 0)] in {LeftTiltMirror, RightTiltMirror})
    requires Bouncing(encounters, (w, 0), n) && Walk(encounters, (w, 0), n).stopped
    ensures |Path(encounters, (w, 0), n)| == (if m <= w then m + 1 else w + 1)
  {
    var last := if m <= w then m else w;
    RowEnd(encounters, w, m);
    RowRounds(encounters, w, m, n);
    RowPath(encounters, w, m);
    RowPrefixCard(last);
  }

  /** The round after the last empty cell stops the beam where it is. */
  lemma RowEnd(encounters: Encounters, w: nat, m: nat)
    requires forall x: nat :: x < m ==> (x, 0) !in encounters
    requires m == w + 1 || (m <= w && (m, 0) in encounters && encounters[(m, 0)] in {LeftTiltMirror, RightTiltMirror})
    ensures var last := if m <= w then m else w;
      Walk(encounters, (w, 0), last + 1).stopped && Walk(encounters, (w, 0), last + 1).location == (last, 0)
  {
    var last := if m <= w then m else w;
    RowWalk(encounters, w, m, last);
    assert Walk(encounters, (w, 0), last + 1) == Checked(encounters, Walk(encounters, (w, 0), last), (w, 0));
  }

  /** So the rounds `track_beam` runs are exactly one more than the last cell. */
  lemma RowRounds(encounters: Encounters, w: nat, m: nat, n: nat)
    requires forall x: nat :: x < m ==> (x, 0) !in encounters
    requires m == w + 1 || (m <= w && (m, 0) in encounters && encounters[(m, 0)] in {LeftTiltMirror, RightTiltMirror})
    requires Bouncing(encounters, (w, 0), n) && Walk(encounters, (w, 0), n).stopped
    ensures n == (if m <= w then m else w) + 1
  {
    var last := if m <= w then m else w;
    RowEnd(encounters, w, m);
    if n <= last {
      RowWalk(encounters, w, m, n);
      assert false;
    }
  }

  lemma RowPath(encounters: Encounters, w: nat, m: nat)
    requires forall x: nat :: x < m ==> (x, 0) !in encounters
    requires m == w + 1 || (m <= w && (m, 0) in encounters && encounters[(m, 0)] in {LeftTiltMirror, RightTiltMirror})
    ensures var last := if m <= w then m else w;
      Path(encounters, (w, 0), last + 1) == RowPrefix(last)
  {
    var last := if m <= w then m else w;
    RowEnd(encounters, w, m);
    forall c | c in Path(encounters, (w, 0), last + 1) ensures c in RowPrefix(last) {
      var k :| 0 <= k <= last + 1 && c == Walk(encounters, (w, 0), k).location;
      if k <= last {
        RowWalk(encounters, w, m, k);
      }
    }
    forall c | c in RowPrefix(last) ensures c in Path(encounters, (w, 0), last + 1) {
      var k: nat :| k <= last && c == (k, 0);
      RowWalk(encounters, w, m, k);
    }
  }

  /** The first three tests of `track_beam`: 10, 5 and 8 cells. */
  lemma TrackBeamExamples(n: nat)
    ensures Bouncing(map[], (9, 0), n) && Walk(map[], (9, 0), n).stopped ==>
      |Path(map[], (9, 0), n)| == 10
    ensures var e := map[(4, 0) := RightTiltMirror];
      Bouncing(e, (9, 0), n) && Walk(e, (9, 0), n).stopped ==> |Path(e, (9, 0), n)| == 5
    ensures var e := map[(7, 0) := LeftTiltMirror];
      Bouncing(e, (9, 0), n) && Walk(e, (9, 0), n).stopped ==> |Path(e, (9, 0), n)| == 8
  {
    if Bouncing(map[], (9, 0), n) && Walk(map[], (9, 0), n).stopped {
      RowCount(map[], 9, 10, n);
    }
    var e := map[(4, 0) := RightTiltMirror];
    if Bouncing(e, (9, 0), n) && Walk(e, (9, 0), n).stopped {
      RowCount(e, 9, 4, n);
    }
    var e' := map[(7, 0) := LeftTiltMirror];
    if Bouncing(e', (9, 0), n) && Walk(e', (9, 0), n).stopped {
      RowCount(e', 9, 7, n);
    }
  }
}
