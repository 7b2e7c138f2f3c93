# Battleship domain model in Dafny

A Dafny model of `common.h`, the shared vocabulary of a two-player Battleship
game. Everything sits in one module, `Common`, in `common.dfy`:

- `BOARD_SIZE` (10) and `Coordinate` with its bounds check `IsValid` and its
  component-wise equality `Equals`.
- `ShipType` and the length table `ShipSize`. Carrier is 5, Battleship 4,
  Cruiser 3, Submarine 3 and Destroyer 2. The C++ enumerators carry numeric
  tags, and Submarine's tag (30) is not its length. The model has no tags:
  lengths come only from the table.
- `Ship`, a record of type, size, start cell, orientation and hit count. A
  C++ struct is copied by value, and nothing in `common.h` updates `hits`, so
  a Dafny datatype is used. The two C++ constructors become `NewShip` (typed)
  and `DefaultShip`. `IsSunk` is the sunk test.
- `Ship.GetCoordinates` keeps the C++ loop: a `while` loop that appends
  one coordinate per step. It is proved equal to `Ship.Footprint`, which is
  defined by the recursive function `Run`. The footprint lemmas state the
  shape of the result: its length, its i-th entry, membership, distinctness,
  straightness and when it lies on the board. They also prove it equal to
  `Ship.Occupies`, a separate segment-based description of the same cells.
- `STANDARD_FLEET` holds one ship of each type. The fleet lemmas show that it
  has 17 cells, and that any placement of it with sizes from the table covers
  17 cells.
- `CellState`, `Orientation` and `ShotResult` are plain datatypes. The C++
  header gives them no operations.

The ship lengths sum to 17, as the comments at common.h:114-118 also give.

## Model

| member | source | states |
|---|---|---|
| `Common.ShipSize` | common.h:19-27 | every ship length lies between 2 and 5 |
| `Common.ShipSizeTable` | common.h:19-27 | the table is Carrier 5, Battleship 4, Cruiser 3, Submarine 3, Destroyer 2; Cruiser and Submarine are the only two types that share a length |
| `Common.Coordinate.Equals` | common.h:56-58 | the equality operator holds exactly when the two coordinates are the same value, i.e. row and column both agree |
| `Common.DefaultCoordinate` | common.h:49 | the default coordinate is (0,0), and it is on the board |
| `Common.Coordinate.IsValid` | common.h:52-54 | a coordinate is valid exactly when 0 <= row < 10 and 0 <= col < 10; equivalently, when it is one of the 100 board cells numbered row by row (column in range and row-major index row * 10 + col in 0..99) |
| `Common.IsValidExamples` | common.h:52-54 | with a board size of 10, (9,9) and (0,0) are on the board; (10,0), (0,10), (-1,5) and (5,-1) are not |
| `Common.Run` | common.h:81-87 | appending one cell per step for n steps yields exactly n cells |
| `Common.RunAt` | common.h:81-87 | the i-th appended cell is i steps from the start along the orientation |
| `Common.Ship.GetCoordinates` | common.h:79-89 | the loop returns exactly the footprint, with one entry per unit of size (none when the size is not positive) |
| `Common.NewShip` | common.h:71-72 | the typed constructor keeps type, start and orientation, takes its size from the table and sets no hits; the ship is well formed, not sunk, and covers ShipSize(type) cells |
| `Common.DefaultShip` | common.h:69 | the default constructor gives the same ship as the typed constructor for a horizontal Destroyer at (0,0): its hard-coded size 2 agrees with the table |
| `Common.Ship.IsSunk` | common.h:74-76 | a ship is sunk exactly when hits >= size; for a ship of non-negative size, exactly when its hits have reached the number of cells it covers |
| `Common.SunkIffFullyHit` | common.h:74-76 | for a well-formed ship, it is sunk exactly when its hits equal its size, and never while hits are below the size |
| `Common.FootprintShape` | common.h:79-89 | the footprint has size entries (ShipSize(type) for a well-formed ship); entry i is (row, col + i) when horizontal and (row + i, col) when vertical |
| `Common.FootprintMembership` | common.h:79-89 | a cell is in the footprint exactly when it lies on the segment of size cells from start along the orientation |
| `Common.FootprintStraightAndDistinct` | common.h:79-89 | the footprint's entries are pairwise distinct and all share the start's row (horizontal) or column (vertical) |
| `Common.FootprintOnBoard` | common.h:79-89 | no bounds check is made: a non-empty footprint begins at start, and all its cells are on the board exactly when the first and last ones are |
| `Common.CruiserScenario` | common.h:71-89 | a horizontal Cruiser at (2,2) covers (2,2), (2,3), (2,4); with 2 hits it is not sunk, with 3 it is |
| `Common.FleetCells` | common.h:113-119 | a fleet's total length lies between 2 and 5 cells per ship |
| `Common.StandardFleetComposition` | common.h:113-119 | the standard fleet has five ships, each type exactly once, and 17 cells in total |
| `Common.FleetFootprintCells` | common.h:113-119 | ships of the fleet's types whose sizes come from the table, placed anywhere and with any hit count, cover as many cells as the fleet's total length |
| `Common.StandardFleetFootprint` | common.h:113-119 | any placement of the standard fleet, with sizes from the table and any hit count, covers 17 cells |

## Left out

- The `Color` namespace (common.h:102-110): ANSI escape strings for the terminal, with no logic.
- The numeric values of the enumerators (for example `SUBMARINE = 30`): lengths come from an explicit table instead.
- The `default: return 2` branch of `getShipSize`: C++ reaches it only through an out-of-range cast, and a Dafny datatype has no such values.
- The C++ constructor `Coordinate(int r, int c)` is the datatype constructor `Coordinate(row, col)` and has no contract of its own.
- `Common.Ship.GetCoordinates`: does not model 32-bit `int` overflow of `start.col + i` or `start.row + i`; coordinates are unbounded integers, and signed overflow is undefined behaviour in C++.
- `hits` is never updated: shot resolution, ship placement, turn logic, AI and I/O are not part of this model.
