# Quoridor rule engine in Dafny

A model of the rule engine of a Java Quoridor game (package
`nl.waterjeloen.quoridor`). Two players move pawns over a square board and
place walls on the edges between cells. The model covers these parts:

- `Directions` (Direction.java): the four constants DOWN, UP, LEFT and RIGHT,
  with their row and column deltas and their orientation flags.
- `Locations` (Location.java): the immutable `(row, column)` value, with its
  `equals` and its 32-bit `hashCode`.
- `Players` (Player.java): a class with a mutable location, a wall-token
  counter that has no lower bound, and a fixed goal test.
- `Boards` (Board.java): a class holding the two `(size-1) × (size-1)` wall
  grids as `array2<bool>`, the turn index and the `finished` flag. It has:
  - wall queries and wall placement;
  - `movePlayer`, with win detection and the freeze after a win;
  - the recursive flood fill `getReachableLocations`/`extend`. It is proved
    to contain its start and to be closed under open steps. It is also proved
    to be exactly the set of coordinates connected to the start.
- `MoveRules` (the board listener in Main.java):
  - the move candidates of `fieldClicked`. They are computed per direction on
    rows and columns, as the listener does it. They are proved equal to a
    direction-generic reference definition, `Candidates`, and properties are
    proved about that definition;
  - the wall offer of `centerClicked`. It is proved to offer a wall exactly
    when the wall would neither overlap a parallel wall nor cross a
    perpendicular one at its centre;
  - the listener's pending-candidate list, with the click that computes the
    list and the click that moves the player and clears it.

Location.java and Direction.java do not define these calls; the model
settles them as follows:

- `Location.go(d)` adds the deltas of `d`.
- `isValid(rowBound, columnBound)` is taken to mean `0 <= row < rowBound &&
  0 <= column < columnBound`, and `isValid(size)` means `isValid(size, size)`.
  This reading is an assumption.
- `Location.wall(side)` is not part of this model. Every member that needs
  it takes it as a parameter `wall: (Location, Direction) -> Location`, so
  each of their proofs holds for any such function.
- `Direction.values()` is taken to be the four constants in declaration
  order: DOWN, UP, LEFT, RIGHT.
- Main.java calls forms that take a `(row, column)` pair, such as
  `hasHorizontalWall(row, column)`, `hasPlayer(row, column)` and
  `movePlayer(row, column)`. It also calls `player.getRow()` and
  `player.getColumn()`. The model reads each pair as a `Location`, and the
  two getters as the fields of the player's location.

Where the code departs from the standard Quoridor rules, the model follows
the code:

- `addHorizontalWall`/`addVerticalWall` never check `hasWalls()`, so a
  player with no tokens left can still place a wall, and the count goes
  negative.
- `addWall` checks neither `finished` nor the tokens, and spends no token.
- The move candidates have no diagonal jump and no edge-of-board check. In
  the opening position the first player is offered `(-1, 4)`, which is off
  the board (`MoveRules.OpeningCandidates`).
- `movePlayer` makes no legality or occupancy check.

## Model

| member | source | states |
|---|---|---|
| `Directions.Deltas` | src/main/java/nl/waterjeloen/quoridor/Direction.java:4-7 | DOWN is (1,0), UP is (-1,0), LEFT is (0,-1), RIGHT is (0,1) |
| `Directions.UnitStep` | src/main/java/nl/waterjeloen/quoridor/Direction.java:4-7 | every direction moves exactly one cell along one axis; exactly one orientation flag is set; the horizontal flag is set exactly when the column changes (LEFT, RIGHT) and the vertical flag exactly when the row changes (UP, DOWN) |
| `Directions.OppositeDeltas` | src/main/java/nl/waterjeloen/quoridor/Direction.java:4-7 | UP has the negated deltas of DOWN, LEFT those of RIGHT |
| `Directions.AllDirectionsComplete` | src/main/java/nl/waterjeloen/quoridor/Board.java:120-122 | the directions the flood fill iterates over include every direction |
| `Locations.Location.Equals` | src/main/java/nl/waterjeloen/quoridor/Location.java:15-20 | two locations are equal exactly when rows and columns are equal; so the relation is reflexive and agrees with value equality |
| `Locations.Location.HashCode` | src/main/java/nl/waterjeloen/quoridor/Location.java:23-25 | the hash, `Objects.hash(row, column)` computed with 32-bit wrap-around at each step, is a Java `int` |
| `Locations.HashCodeCongruent` | src/main/java/nl/waterjeloen/quoridor/Location.java:23-25 | the hash is congruent to 961 + 31·row + column modulo 2^32, whatever wrap-around happened along the way |
| `Locations.HashAgreesWithEquals` | src/main/java/nl/waterjeloen/quoridor/Location.java:15-25 | locations that are `Equals` have equal hash codes |
| `Players.Player.constructor` | src/main/java/nl/waterjeloen/quoridor/Player.java:11-16 | a new player stands on the given location, has 10 wall tokens (so `HasWalls`) and keeps the given goal test |
| `Players.Player.ChangeLocation` | src/main/java/nl/waterjeloen/quoridor/Player.java:26-28 | the location is replaced and the token count is unchanged; afterwards `HasWon` is the goal test applied to the new location |
| `Players.Player.RemoveWall` | src/main/java/nl/waterjeloen/quoridor/Player.java:30-36 | the count drops by exactly one and the location is unchanged; `HasWalls` (count > 0) holds afterwards iff more than one token was left; with no guard, a count of zero or less goes below zero |
| `Players.Player.HasWalls` | src/main/java/nl/waterjeloen/quoridor/Player.java:34-36 | defined as a token count above zero; the constructor makes it true and `RemoveWall` states when it stays true |
| `Players.Player.HasWon` | src/main/java/nl/waterjeloen/quoridor/Player.java:46 | defined as the fixed goal test applied to the current location; `ChangeLocation` and `Boards.Board.MovePlayer` state how it decides the end of the game |
| `Boards.Board.constructor` | src/main/java/nl/waterjeloen/quoridor/Board.java:16-23 | two players in order, turn index 0, not finished, both grids fresh, (size-1)×(size-1) and all false, so no wall query is true |
| `Boards.Board.HasPlayer` | src/main/java/nl/waterjeloen/quoridor/Board.java:41-43 | true exactly when one of the two players stands on the location; in particular always true on the current player's location |
| `Boards.Board.MovePlayer` | src/main/java/nl/waterjeloen/quoridor/Board.java:45-55 | on a finished board nothing changes; otherwise the current player's location becomes the argument with its tokens unchanged, `finished` becomes the goal test of the new location, and the turn advances modulo the player count exactly when the game did not end |
| `Boards.Board.EndGame` | src/main/java/nl/waterjeloen/quoridor/Board.java:57-59 | sets `finished` and keeps the turn with the winner |
| `Boards.Board.HasWall` | src/main/java/nl/waterjeloen/quoridor/Board.java:61-73 | a side is blocked when the `wall` segment of that side, or its neighbour above (LEFT/RIGHT sides, vertical grid) or to its left (UP/DOWN sides, horizontal grid), is in range and set; what this means for movement is stated by `MoveRules.HasWallMatchesProbes` |
| `Boards.Board.AddWall` | src/main/java/nl/waterjeloen/quoridor/Board.java:75-82 | an in-range doubly translated segment is set in the grid chosen by `side` and only there, the other grid is untouched and the turn advances; out of range nothing changes; `finished` never changes; every side blocked before stays blocked |
| `Boards.Board.CurrentPlayer` | src/main/java/nl/waterjeloen/quoridor/Board.java:37-39 | the player whose turn it is is one of the board's players |
| `Boards.Board.IsValidWall` | src/main/java/nl/waterjeloen/quoridor/Board.java:109-111 | defined as `isValid` against the outer lengths of the two wall grids; `ValidWallRange` states what that range is |
| `Boards.Board.ValidWallRange` | src/main/java/nl/waterjeloen/quoridor/Board.java:109-111 | on a board of the constructed shape, a location is a valid wall location exactly when both coordinates lie in 0 .. size-2 |
| `Boards.Board.HasHorizontalWall` | src/main/java/nl/waterjeloen/quoridor/Board.java:84-86 | false for every location outside the (size-1)×(size-1) wall grid |
| `Boards.Board.AddHorizontalWall` | src/main/java/nl/waterjeloen/quoridor/Board.java:88-95 | on a running game and an in-range location: exactly that segment becomes set and every set segment stays set, so every blocked side stays blocked; the current player loses one token and keeps their location, and the turn advances; otherwise nothing changes |
| `Boards.Board.HasVerticalWall` | src/main/java/nl/waterjeloen/quoridor/Board.java:97-99 | false for every location outside the (size-1)×(size-1) wall grid |
| `Boards.Board.AddVerticalWall` | src/main/java/nl/waterjeloen/quoridor/Board.java:101-107 | the vertical counterpart of `AddHorizontalWall` |
| `Boards.Board.NextPlayer` | src/main/java/nl/waterjeloen/quoridor/Board.java:113-115 | the turn index becomes (index + 1) mod player count, stays a valid index, and `finished` is unchanged |
| `Boards.Board.GetReachableLocations` | src/main/java/nl/waterjeloen/quoridor/Board.java:117-124 | the result holds the start, every other member is a board cell, the result is closed under steps not blocked by `HasWall`, and it is exactly the set of coordinates connected to the start by such steps |
| `Boards.Board.Extend` | src/main/java/nl/waterjeloen/quoridor/Board.java:126-136 | the set only grows; every added member is a board cell whose open steps all stay in the grown set; the asked-for step, if open and on the board, lands in the set; everything stays connected to the start; it terminates because each nested call follows the addition of a new board cell |
| `Boards.Board.ExtendAround` | src/main/java/nl/waterjeloen/quoridor/Board.java:130-133 | after the loop over all directions from a newly added cell, the set is closed at that cell; it only grows, and every further member is a board cell at which it is closed and which is connected to the start |
| `Boards.Board.EveryDirectionCovered` | src/main/java/nl/waterjeloen/quoridor/Board.java:120-122 | covering the open step towards each entry of `Direction.values()` makes the set closed at that coordinate, which is what both loops over the directions rely on |
| `Boards.Board.ConnectedToItself` | src/main/java/nl/waterjeloen/quoridor/Board.java:118-119 | every coordinate is connected to itself, which is why the fill starts from a set holding only its start |
| `Boards.Board.ConnectedStep` | src/main/java/nl/waterjeloen/quoridor/Board.java:127-130 | one open step from a connected coordinate reaches a connected coordinate, which is what `extend` adds |
| `Boards.Board.ClosedContainsWalk` | src/main/java/nl/waterjeloen/quoridor/Board.java:117-136 | a set that holds the start of a walk of open steps and is closed under open steps holds its end, which is why the flood fill misses no connected cell |
| `MoveRules.StepBlocked` | src/main/java/nl/waterjeloen/quoridor/Main.java:28-70 | defined as the two wall probes each direction block of the listener makes before stepping; `HasWallMatchesProbes` relates it to `Boards.Board.HasWall` |
| `MoveRules.HasWallMatchesProbes` | src/main/java/nl/waterjeloen/quoridor/Main.java:28-70 | when `Location.wall` gives a cell's own segment for DOWN and RIGHT, the one above for UP and the one to the left for LEFT, the board's `hasWall` and the listener's probes agree on every side of every cell, so the flood fill and the move candidates see the same walls |
| `MoveRules.Landing` | src/main/java/nl/waterjeloen/quoridor/Main.java:28-70 | defined as the direction-generic rule: nothing when the step is blocked, the neighbour when it is free, else the cell beyond unless that step is blocked; `CandidateMembership` states its meaning |
| `MoveRules.Candidates` | src/main/java/nl/waterjeloen/quoridor/Main.java:28-70 | each of the four direction blocks contributes at most one location, so there are at most four candidates |
| `MoveRules.ComputeCandidates` | src/main/java/nl/waterjeloen/quoridor/Main.java:28-70 | the listener's four blocks, in the order down, up, right, left, produce exactly the reference list `Candidates` |
| `MoveRules.MoveDown` | src/main/java/nl/waterjeloen/quoridor/Main.java:28-37 | the down block yields the landing the direction-generic rule gives for DOWN: nothing if horizontal walls (r,c) or (r,c-1) are set; else (r+1,c) if free; else (r+2,c) unless horizontal walls (r+1,c) or (r+1,c-1) are set |
| `MoveRules.MoveUp` | src/main/java/nl/waterjeloen/quoridor/Main.java:39-48 | the up block yields the generic landing for UP, probing horizontal walls in rows r-1 and r-2 |
| `MoveRules.MoveRight` | src/main/java/nl/waterjeloen/quoridor/Main.java:50-59 | the right block yields the generic landing for RIGHT, probing vertical walls (r,c), (r-1,c) and one column further for the jump |
| `MoveRules.MoveLeft` | src/main/java/nl/waterjeloen/quoridor/Main.java:61-70 | the left block yields the generic landing for LEFT, probing vertical walls (r,c-1), (r-1,c-1) and one column further for the jump |
| `MoveRules.CandidateMembership` | src/main/java/nl/waterjeloen/quoridor/Main.java:28-70 | for every direction, the neighbour is a candidate iff the step is open and the neighbour is free; the cell beyond iff the step is open, the neighbour is occupied and the step beyond is open; every candidate is one or two straight steps away |
| `MoveRules.LandingsApart` | src/main/java/nl/waterjeloen/quoridor/Main.java:28-70 | a one- or two-step target of a direction is in the list exactly when that direction's own block produced it |
| `MoveRules.OccupiedNeighbourExcluded` | src/main/java/nl/waterjeloen/quoridor/Main.java:30-36 | an occupied neighbour is never a candidate |
| `MoveRules.OpenBoardCandidates` | src/main/java/nl/waterjeloen/quoridor/Main.java:28-70 | with no walls and four free neighbours, the candidates are exactly the four neighbours in the order down, up, right, left, on the board or not |
| `MoveRules.OpenBoardJump` | src/main/java/nl/waterjeloen/quoridor/Main.java:29-36 | with no walls, an occupied neighbour is jumped over in a straight line and is not itself offered |
| `MoveRules.OpeningPosition` | src/main/java/nl/waterjeloen/quoridor/Main.java:28-70 | on any board without walls, with players at (0,4) and (8,4), the candidates of (0,4) are (1,4), (-1,4), (0,5) and (0,3), in that order |
| `MoveRules.OpeningCandidates` | src/main/java/nl/waterjeloen/quoridor/Main.java:11-13 | the 9×9 opening position built as the entry point builds it offers the first player (1,4), (-1,4), (0,5) and (0,3) |
| `MoveRules.JumpCandidates` | src/main/java/nl/waterjeloen/quoridor/Main.java:29-36 | with the opponent right below on an empty 9×9 board, (2,4) is offered and (1,4) is not |
| `MoveRules.OfferWalls` | src/main/java/nl/waterjeloen/quoridor/Main.java:90-98 | defined as the listener's probes: no offer when the centre carries a segment of either grid, else a horizontal wall when neither horizontal neighbour is set and a vertical wall when neither vertical neighbour is set; `OfferMeansNoOverlap` states its meaning |
| `MoveRules.OfferMeansNoOverlap` | src/main/java/nl/waterjeloen/quoridor/Main.java:90-104 | a horizontal wall is offered at a centre exactly when no vertical segment is set there and no horizontal segment of that row lies within one column; a vertical wall exactly when no horizontal segment is set there and no vertical segment of that column lies within one row |
| `MoveRules.ClickHandler.constructor` | src/main/java/nl/waterjeloen/quoridor/Main.java:16-17 | the listener starts with no pending candidates |
| `MoveRules.ClickHandler.FieldClicked` | src/main/java/nl/waterjeloen/quoridor/Main.java:22-82 | candidates are computed only when none are pending and the click is on the current player's cell, leaving the board unchanged; with candidates pending, a click on one of them clears the list and, on a running game, moves the current player there with their tokens unchanged, ends the game exactly when the goal test holds there, and otherwise passes the turn; on a finished game the board stays unchanged; any other click changes nothing |
| `MoveRules.ClickHandler.CenterClicked` | src/main/java/nl/waterjeloen/quoridor/Main.java:86-108 | returns the offer of `OfferWalls` and clears the pending candidates exactly when the centre carries no segment of either grid |

## Left out

- `Location.wall` is not part of this model. Every member that uses it takes
  it as a parameter, so nothing is proved about its formula.
- Reachability symmetry (B reachable from A implies A reachable from B) is
  not proved. It depends on how `Location.wall` maps the two sides of one
  edge to the same segment.
- `Location.go` and `Location.isValid` are not defined in Location.java. The
  model defines them as stated above.
- Player names, `getName`, `toString` and the direction names are left out,
  because no logic reads them. `getLocation`, `getWalls`, `getSize`,
  `getPlayerCount` and `getPlayer` are plain reads of the corresponding
  fields.
- `Location.equals(Object)` with `null` or with an object of another class is
  left out. In Dafny a `Location` can only be compared with a `Location`.
- The goal test is a total Dafny function value. A Java `Function` that
  throws or has side effects is not modelled.
- Coordinates are unbounded integers. Java `int` wrap-around is modelled only
  inside `hashCode`, where it is part of the result; board coordinates never
  come near the 32-bit limits.
- The flood fill passes its set in and out by value instead of sharing one
  mutable `HashSet`. The loop over the directions inside `extend` is its own
  method, `ExtendAround`, which calls `Extend` back. Java's recursion depth
  (stack overflow on huge boards) is not modelled.
- `Board(size, ...)` with `size < 1` throws in Java, because it allocates
  arrays of negative size. The model requires `size >= 1`.
- The listener's `fieldClicked` checks the four directions inline. The model
  puts each block in its own method (`MoveDown` … `MoveLeft`), calls them in
  the same order and joins their results in that order.
- The listener's GUI calls are left out: highlighting, `clearHighlights`,
  `repaint` and console output. So are `main`'s window setup and the
  `hwalls`/`vwalls` click-to-wall maps. Left out with those maps are
  `horizontalWallClicked` and `verticalWallClicked`, the only callers of
  `addHorizontalWall`/`addVerticalWall`.
- BoardPanel.java, GUI.java and BoardListener.java are presentation only and
  are not part of this model.
