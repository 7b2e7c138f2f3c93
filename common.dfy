/**
 * The shared domain model of a two-player Battleship game: board geometry,
 * ship types and their lengths, ships and the cells they cover, cell states,
 * shot outcomes and the standard fleet.
 */
module Common {

  /** Side length of the square board. */
  const BOARD_SIZE: int := 10

  // ---------------------------------------------------------------------------
  // Ship types and their lengths
  // ---------------------------------------------------------------------------

  /**
   * The five kinds of ship. The C++ enum gives the enumerators numeric tags
   * (Submarine's tag, 30, is not its length); the model never uses a tag:
   * a ship's length comes only from ShipSize.
   */
  datatype ShipType = Destroyer | Cruiser | Battleship | Carrier | Submarine

  /** The length of a ship of type `t`, looked up in a fixed table. */
  function ShipSize(t: ShipType): (n: int)
    ensures 2 <= n <= 5
  {
    match t
    case Carrier => 5
    case Battleship => 4
    case Cruiser => 3
    case Submarine => 3
    case Destroyer => 2
  }

  /** The length table itself, and the fact that only Cruiser and Submarine share a length. */
  lemma ShipSizeTable()
    ensures ShipSize(Carrier) == 5 && ShipSize(Battleship) == 4
    ensures ShipSize(Cruiser) == 3 && ShipSize(Submarine) == 3
    ensures ShipSize(Destroyer) == 2
    ensures forall t, u :: t != u && ShipSize(t) == ShipSize(u) ==>
              (t == Cruiser && u == Submarine) || (t == Submarine && u == Cruiser)
  {
  }

  // ---------------------------------------------------------------------------
  // Vocabulary types (the C++ header gives them no operations)
  // ---------------------------------------------------------------------------

  /** The state of one board cell. */
  datatype CellState = Empty | ShipCell | MissCell | HitCell

  /** The direction in which a ship extends from its start cell. */
  datatype Orientation = Horizontal | Vertical

  /** The outcome of one shot. */
  datatype ShotResult = ShotMiss | ShotHit | ShotSunk | ShotInvalid | ShotWin

  // ---------------------------------------------------------------------------
  // Coordinates
  // ---------------------------------------------------------------------------

  /** A zero-based (row, column) pair; it may lie off the board. */
  datatype Coordinate = Coordinate(row: int, col: int) {

    /**
     * Whether this coordinate lies on the BOARD_SIZE x BOARD_SIZE board, that
     * is, whether it is one of the board's cells numbered row by row.
     */
    predicate IsValid()
      ensures IsValid() <==>
                0 <= col < BOARD_SIZE && 0 <= row * BOARD_SIZE + col < BOARD_SIZE * BOARD_SIZE
    {
      row >= 0 && row < BOARD_SIZE && col >= 0 && col < BOARD_SIZE
    }

    /** The C++ `operator==`: component-wise comparison. */
    function Equals(other: Coordinate): (b: bool)
      ensures b <==> this == other
    {
      row == other.row && col == other.col
    }
  }

  /** The default-constructed coordinate. */
  function DefaultCoordinate(): (c: Coordinate)
    ensures c.row == 0 && c.col == 0 && c.IsValid()
  {
    Coordinate(0, 0)
  }

  /** The corner (9,9) is on the board; one step past an edge is not. */
  lemma IsValidExamples()
    ensures Coordinate(9, 9).IsValid() && Coordinate(0, 0).IsValid()
    ensures !Coordinate(10, 0).IsValid()
    ensures !Coordinate(0, 10).IsValid()
    ensures !Coordinate(-1, 5).IsValid()
    ensures !Coordinate(5, -1).IsValid()
  {
  }

  // ---------------------------------------------------------------------------
  // Ship footprints
  // ---------------------------------------------------------------------------

  /** The i-th cell of a run that starts at `start` and extends along `o`. */
  function CellAt(start: Coordinate, o: Orientation, i: int): Coordinate {
    if o == Horizontal then Coordinate(start.row, start.col + i)
    else Coordinate(start.row + i, start.col)
  }

  /** The first `n` cells of a run, in placement order, built by appending one cell at a time. */
  function Run(start: Coordinate, o: Orientation, n: nat): (r: seq<Coordinate>)
    ensures |r| == n
  {
    if n == 0 then [] else Run(start, o, n - 1) + [CellAt(start, o, n - 1)]
  }

  /** The i-th entry of a run is the cell i steps from the start. */
  lemma {:induction false} RunAt(start: Coordinate, o: Orientation, n: nat, i: int)
    requires 0 <= i < n
    ensures Run(start, o, n)[i] == CellAt(start, o, i)
  {
    if i < n - 1 {
      RunAt(start, o, n - 1, i);
    }
  }

  /** A ship: its type, its length, its first cell, its orientation and the hits it has taken. */
  datatype Ship = Ship(shipType: ShipType, size: int, start: Coordinate, orientation: Orientation, hits: int) {

    /** What the constructors establish: the length agrees with the table and hits lie in [0, size]. */
    predicate Valid() {
      size == ShipSize(shipType) && 0 <= hits <= size
    }

    /**
     * A ship is sunk once it has taken at least as many hits as its length:
     * for a ship of non-negative size, as many hits as the cells it covers.
     */
    predicate IsSunk()
      ensures size >= 0 ==> (IsSunk() <==> hits >= |Footprint()|)
    {
      hits >= size
    }

    /** The number of cells the ship covers: a non-positive size covers none. */
    function Length(): nat {
      if size > 0 then size else 0
    }

    /** The cells the ship covers, in placement order; no bounds check is made. */
    function Footprint(): seq<Coordinate> {
      Run(start, orientation, Length())
    }

    /** Reference description of the covered cells: a straight segment of `size` cells from `start`. */
    predicate Occupies(c: Coordinate) {
      if orientation == Horizontal then
        c.row == start.row && start.col <= c.col < start.col + size
      else
        c.col == start.col && start.row <= c.row < start.row + size
    }

    /** Builds the list of covered cells by pushing one coordinate per step. */
    method GetCoordinates() returns (coords: seq<Coordinate>)
      ensures coords == Footprint()
      ensures |coords| == Length()
    {
      coords := [];
      var i := 0;
      while i < size
        invariant 0 <= i <= Length()
        invariant coords == Run(start, orientation, i)
      {
        if orientation == Horizontal {
          coords := coords + [Coordinate(start.row, start.col + i)];
        } else {
          coords := coords + [Coordinate(start.row + i, start.col)];
        }
        i := i + 1;
      }
    }
  }

  /** The typed constructor: the length comes from the table and no hits are recorded yet. */
  function NewShip(t: ShipType, s: Coordinate, o: Orientation): (r: Ship)
    ensures r.shipType == t && r.start == s && r.orientation == o
    ensures r.Valid() && r.hits == 0
    ensures !r.IsSunk()
    ensures |r.Footprint()| == ShipSize(t)
  {
    Ship(t, ShipSize(t), s, o, 0)
  }

  /** The default constructor: a Destroyer of length 2, horizontal at (0,0), with no hits. */
  function DefaultShip(): (r: Ship)
    ensures r == NewShip(Destroyer, DefaultCoordinate(), Horizontal)
  {
    Ship(Destroyer, 2, DefaultCoordinate(), Horizontal, 0)
  }

  // ---------------------------------------------------------------------------
  // Properties of ships and their footprints
  // ---------------------------------------------------------------------------

  /** A well-formed ship is sunk exactly when its hit count has reached its length. */
  lemma SunkIffFullyHit(s: Ship)
    requires s.Valid()
    ensures s.IsSunk() <==> s.hits == s.size
    ensures s.hits < s.size ==> !s.IsSunk()
  {
  }

  /** The footprint has one entry per unit of length, the i-th being i steps along the orientation. */
  lemma FootprintShape(s: Ship)
    ensures |s.Footprint()| == s.Length()
    ensures s.Valid() ==> |s.Footprint()| == ShipSize(s.shipType)
    ensures forall i :: 0 <= i < s.Length() ==>
              s.Footprint()[i] == (if s.orientation == Horizontal
                                   then Coordinate(s.start.row, s.start.col + i)
                                   else Coordinate(s.start.row + i, s.start.col))
  {
    forall i | 0 <= i < s.Length()
      ensures s.Footprint()[i] == CellAt(s.start, s.orientation, i)
    {
      RunAt(s.start, s.orientation, s.Length(), i);
    }
  }

  /** A cell is in the footprint exactly when it lies on the ship's segment. */
  lemma FootprintMembership(s: Ship, c: Coordinate)
    ensures c in s.Footprint() <==> s.Occupies(c)
  {
    var fp := s.Footprint();
    FootprintShape(s);
    if c in fp {
      var i :| 0 <= i < |fp| && fp[i] == c;
      assert fp[i] == CellAt(s.start, s.orientation, i);
    }
    if s.Occupies(c) {
      var i := if s.orientation == Horizontal then c.col - s.start.col else c.row - s.start.row;
      assert fp[i] == c;
    }
  }

  /** No cell appears twice in a footprint, and every cell shares the start's row or column. */
  lemma FootprintStraightAndDistinct(s: Ship)
    ensures forall i, j :: 0 <= i < j < |s.Footprint()| ==> s.Footprint()[i] != s.Footprint()[j]
    ensures forall c :: c in s.Footprint() ==>
              if s.orientation == Horizontal then c.row == s.start.row else c.col == s.start.col
  {
    FootprintShape(s);
    forall c | c in s.Footprint()
      ensures if s.orientation == Horizontal then c.row == s.start.row else c.col == s.start.col
    {
      FootprintMembership(s, c);
    }
  }

  /**
   * A non-empty footprint starts at `start`, and it lies wholly on the board
   * exactly when its first and last cells do.
   */
  lemma FootprintOnBoard(s: Ship)
    requires s.size > 0
    ensures s.Footprint()[0] == s.start
    ensures (forall c :: c in s.Footprint() ==> c.IsValid()) <==>
              s.start.IsValid() && s.Footprint()[s.size - 1].IsValid()
  {
    var fp := s.Footprint();
    FootprintShape(s);
    assert fp[0] == s.start;
    var last := fp[s.size - 1];
    if s.start.IsValid() && last.IsValid() {
      forall c | c in fp
        ensures c.IsValid()
      {
        FootprintMembership(s, c);
      }
    }
  }

  /** A Cruiser placed horizontally at (2,2) covers (2,2), (2,3), (2,4); two hits leave it afloat, three sink it. */
  lemma CruiserScenario()
    ensures NewShip(Cruiser, Coordinate(2, 2), Horizontal).Footprint()
              == [Coordinate(2, 2), Coordinate(2, 3), Coordinate(2, 4)]
    ensures !NewShip(Cruiser, Coordinate(2, 2), Horizontal).(hits := 2).IsSunk()
    ensures NewShip(Cruiser, Coordinate(2, 2), Horizontal).(hits := 3).IsSunk()
  {
    var s := NewShip(Cruiser, Coordinate(2, 2), Horizontal);
    FootprintShape(s);
  }

  // ---------------------------------------------------------------------------
  // The standard fleet
  // ---------------------------------------------------------------------------

  /** The fleet each player places: one ship of every type, longest first. */
  const STANDARD_FLEET: seq<ShipType> := [Carrier, Battleship, Cruiser, Submarine, Destroyer]

  /** The total length of a fleet. */
  function FleetCells(fleet: seq<ShipType>): (n: int)
    ensures 2 * |fleet| <= n <= 5 * |fleet|
  {
    if fleet == [] then 0 else ShipSize(fleet[0]) + FleetCells(fleet[1..])
  }

  /** The number of cells a sequence of ships covers, counted ship by ship. */
  function CellCount(ships: seq<Ship>): (n: nat)
  {
    if ships == [] then 0 else |ships[0].Footprint()| + CellCount(ships[1..])
  }

  /** Five ships, each type exactly once, 17 cells in all. */
  lemma StandardFleetComposition()
    ensures |STANDARD_FLEET| == 5
    ensures forall t :: multiset(STANDARD_FLEET)[t] == 1
    ensures FleetCells(STANDARD_FLEET) == 17
  {
    assert STANDARD_FLEET[1..] == [Battleship, Cruiser, Submarine, Destroyer];
    assert STANDARD_FLEET[2..] == [Cruiser, Submarine, Destroyer];
    assert STANDARD_FLEET[3..] == [Submarine, Destroyer];
    assert STANDARD_FLEET[4..] == [Destroyer];
    var m := multiset{Carrier} + multiset{Battleship} + multiset{Cruiser} + multiset{Submarine} + multiset{Destroyer};
    assert multiset(STANDARD_FLEET) == m;
    forall t: ShipType
      ensures multiset(STANDARD_FLEET)[t] == 1
    {
      match t
      case Carrier => assert m[t] == 1;
      case Battleship => assert m[t] == 1;
      case Cruiser => assert m[t] == 1;
      case Submarine => assert m[t] == 1;
      case Destroyer => assert m[t] == 1;
    }
  }

  /** `ships` is one ship per entry of `fleet`, of that type, with its size taken from the table. */
  predicate Deploys(ships: seq<Ship>, fleet: seq<ShipType>) {
    |ships| == |fleet| &&
    forall i :: 0 <= i < |ships| ==> ships[i].shipType == fleet[i] && ships[i].size == ShipSize(fleet[i])
  }

  /** Ships of the given types, sized by the table, cover as many cells as the fleet's total length. */
  lemma {:induction false} FleetFootprintCells(fleet: seq<ShipType>, ships: seq<Ship>)
    requires Deploys(ships, fleet)
    ensures CellCount(ships) == FleetCells(fleet)
  {
    if ships != [] {
      FootprintShape(ships[0]);
      FleetFootprintCells(fleet[1..], ships[1..]);
    }
  }

  /** However the standard fleet is placed, and whatever hits it has taken, its ships cover 17 cells. */
  lemma StandardFleetFootprint(ships: seq<Ship>)
    requires Deploys(ships, STANDARD_FLEET)
    ensures CellCount(ships) == 17
  {
    FleetFootprintCells(STANDARD_FLEET, ships);
    StandardFleetComposition();
  }
}
