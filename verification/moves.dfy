/** The move and wall choices the board listener offers (the anonymous
    BoardListener in Main.java): where the current player may move, which
    wall placements around a wall centre are offered, and how a click on a
    cell either computes the candidates or performs the chosen move. */
module MoveRules {
  import opened Directions
  import opened Locations
  import opened Players
  import opened Boards

  datatype Option<T> = None | Some(value: T)

  function ToSeq<T>(o: Option<T>): seq<T> {
    match o
    case None => []
    case Some(x) => [x]
  }

  /** Whether one of the two horizontal or vertical wall segments the listener
      probes blocks a one-cell step from `location` towards `d`: a horizontal
      wall at the segment itself or at its left neighbour for DOWN (for UP the
      same one row higher), a vertical wall at the segment itself or at the one
      above it for RIGHT (for LEFT the same one column to the left). */
  function StepBlocked(board: Board, location: Location, d: Direction): bool
    requires board.Shaped()
    reads board.horizontalWalls, board.verticalWalls
  {
    match d
    case Down => board.HasHorizontalWall(location) || board.HasHorizontalWall(location.Go(Left))
    case Up =>
      var above := location.Go(Up);
      board.HasHorizontalWall(above) || board.HasHorizontalWall(above.Go(Left))
    case Right => board.HasVerticalWall(location) || board.HasVerticalWall(location.Go(Up))
    case Left =>
      var left := location.Go(Left);
      board.HasVerticalWall(left) || board.HasVerticalWall(left.Go(Up))
  }

  /** The wall-grid coordinate of each side of a cell that the listener's
      probes assume: a cell's own segment for its DOWN and RIGHT sides, the
      segment one row up for UP and one column left for LEFT. */
  ghost predicate ListenerWallShape(wall: WallOf) {
    forall x: Location ::
      wall(x, Down) == x && wall(x, Right) == x &&
      wall(x, Up) == x.Go(Up) && wall(x, Left) == x.Go(Left)
  }

  /** The board's `hasWall` and the listener's hand-written probes agree on
      every side of every cell, as soon as `Location.wall` has that shape: the
      flood fill and the move candidates then see the same walls. */
  lemma HasWallMatchesProbes(board: Board, wall: WallOf, location: Location, d: Direction)
    requires board.Shaped() && ListenerWallShape(wall)
    ensures board.HasWall(wall, location, d) <==> StepBlocked(board, location, d)
  {
  }

  /** Where one direction lets the player land, if anywhere: the free
      neighbour, or over an occupied neighbour in a straight line when the
      step beyond it is not blocked. There is no edge-of-board check and no
      diagonal jump. */
  function Landing(board: Board, location: Location, d: Direction): Option<Location>
    requires board.Valid()
    reads board, board.horizontalWalls, board.verticalWalls, board.players
  {
    var next := location.Go(d);
    if StepBlocked(board, location, d) then None
    else if !board.HasPlayer(next) then Some(next)
    else if StepBlocked(board, next, d) then None
    else Some(next.Go(d))
  }

  /** The reference definition of the candidate list: the landings of DOWN,
      UP, RIGHT and LEFT in that order, at most one each. */
  function Candidates(board: Board, location: Location): (r: seq<Location>)
    requires board.Valid()
    reads board, board.horizontalWalls, board.verticalWalls, board.players
    ensures |r| <= 4
  {
    ToSeq(Landing(board, location, Down)) + ToSeq(Landing(board, location, Up)) +
    ToSeq(Landing(board, location, Right)) + ToSeq(Landing(board, location, Left))
  }

  /** The candidate computation of `fieldClicked`: the four direction blocks
      in the listener's order, each appending at most one location; it yields
      the reference list. */
  method ComputeCandidates(board: Board, location: Location) returns (fields: seq<Location>)
    requires board.Valid()
    ensures fields == Candidates(board, location)
  {
    var down := MoveDown(board, location);
    var up := MoveUp(board, location);
    var right := MoveRight(board, location);
    var left := MoveLeft(board, location);
    assert down == ToSeq(Landing(board, location, Down)) && up == ToSeq(Landing(board, location, Up));
    assert right == ToSeq(Landing(board, location, Right));
    fields := down + up + right + left;
  }

  /** The "move down?" block: open when neither horizontal segment below the
      cell is set; the free cell below, or the cell two below when the one
      below is occupied and no horizontal segment blocks the step beyond it. */
  method MoveDown(board: Board, location: Location) returns (found: seq<Location>)
    requires board.Valid()
    ensures found == ToSeq(Landing(board, location, Down))
  {
    var row, column := location.row, location.column;
    assert location.Go(Left) == Location(row, column - 1) && location.Go(Down) == Location(row + 1, column);
    assert location.Go(Down).Go(Left) == Location(row + 1, column - 1);
    assert location.Go(Down).Go(Down) == Location(row + 2, column);
    found := [];
    if !board.HasHorizontalWall(Location(row, column)) && !board.HasHorizontalWall(Location(row, column - 1)) {
      if board.HasPlayer(Location(row + 1, column)) {
        if !board.HasHorizontalWall(Location(row + 1, column)) && !board.HasHorizontalWall(Location(row + 1, column - 1)) {
          found := found + [Location(row + 2, column)];
        }
      } else {
        found := found + [Location(row + 1, column)];
      }
    }
  }

  /** The "move up?" block: the mirror image of MoveDown, one and two rows up. */
  method MoveUp(board: Board, location: Location) returns (found: seq<Location>)
    requires board.Valid()
    ensures found == ToSeq(Landing(board, location, Up))
  {
    var row, column := location.row, location.column;
    assert location.Go(Up) == Location(row - 1, column) && location.Go(Up).Go(Left) == Location(row - 1, column - 1);
    assert location.Go(Up).Go(Up) == Location(row - 2, column);
    assert location.Go(Up).Go(Up).Go(Left) == Location(row - 2, column - 1);
    found := [];
    if !board.HasHorizontalWall(Location(row - 1, column)) && !board.HasHorizontalWall(Location(row - 1, column - 1)) {
      if board.HasPlayer(Location(row - 1, column)) {
        if !board.HasHorizontalWall(Location(row - 2, column)) && !board.HasHorizontalWall(Location(row - 2, column - 1)) {
          found := found + [Location(row - 2, column)];
        }
      } else {
        found := found + [Location(row - 1, column)];
      }
    }
  }

  /** The "move right?" block: open when neither vertical segment to the right
      of the cell is set; the jump is checked one column further. */
  method MoveRight(board: Board, location: Location) returns (found: seq<Location>)
    requires board.Valid()
    ensures found == ToSeq(Landing(board, location, Right))
  {
    var row, column := location.row, location.column;
    assert location.Go(Up) == Location(row - 1, column) && location.Go(Right) == Location(row, column + 1);
    assert location.Go(Right).Go(Up) == Location(row - 1, column + 1);
    assert location.Go(Right).Go(Right) == Location(row, column + 2);
    found := [];
    if !board.HasVerticalWall(Location(row, column)) && !board.HasVerticalWall(Location(row - 1, column)) {
      if board.HasPlayer(Location(row, column + 1)) {
        if !board.HasVerticalWall(Location(row, column + 1)) && !board.HasVerticalWall(Location(row - 1, column + 1)) {
          found := found + [Location(row, column + 2)];
        }
      } else {
        found := found + [Location(row, column + 1)];
      }
    }
  }

  /** The "move left?" block: the mirror image of MoveRight. */
  method MoveLeft(board: Board, location: Location) returns (found: seq<Location>)
    requires board.Valid()
    ensures found == ToSeq(Landing(board, location, Left))
  {
    var row, column := location.row, location.column;
    assert location.Go(Left) == Location(row, column - 1) && location.Go(Left).Go(Up) == Location(row - 1, column - 1);
    assert location.Go(Left).Go(Left) == Location(row, column - 2);
    assert location.Go(Left).Go(Left).Go(Up) == Location(row - 1, column - 2);
    found := [];
    if !board.HasVerticalWall(Location(row, column - 1)) && !board.HasVerticalWall(Location(row - 1, column - 1)) {
      if board.HasPlayer(Location(row, column - 1)) {
        if !board.HasVerticalWall(Location(row, column - 2)) && !board.HasVerticalWall(Location(row - 1, column - 2)) {
          found := found + [Location(row, column - 2)];
        }
      } else {
        found := found + [Location(row, column - 1)];
      }
    }
  }

  /** Membership in the candidate list, direction by direction: the
      neighbour is a candidate exactly when the step is open and the neighbour
      is free; the cell beyond it exactly when the step is open, the neighbour
      is occupied and the step beyond is open. Nothing else is a candidate. */
  lemma CandidateMembership(board: Board, location: Location)
    requires board.Valid()
    ensures forall d :: location.Go(d) in Candidates(board, location) <==>
      !StepBlocked(board, location, d) && !board.HasPlayer(location.Go(d))
    ensures forall d :: location.Go(d).Go(d) in Candidates(board, location) <==>
      !StepBlocked(board, location, d) && board.HasPlayer(location.Go(d)) &&
      !StepBlocked(board, location.Go(d), d)
    ensures forall c :: c in Candidates(board, location) ==>
      exists d :: c == location.Go(d) || c == location.Go(d).Go(d)
  {
    var cs := Candidates(board, location);
    forall d
      ensures location.Go(d) in cs <==> !StepBlocked(board, location, d) && !board.HasPlayer(location.Go(d))
      ensures location.Go(d).Go(d) in cs <==>
        !StepBlocked(board, location, d) && board.HasPlayer(location.Go(d)) && !StepBlocked(board, location.Go(d), d)
    {
      LandingsApart(board, location, d);
    }
    forall c | c in cs
      ensures exists d :: c == location.Go(d) || c == location.Go(d).Go(d)
    {
      if c in ToSeq(Landing(board, location, Down)) {
        assert c == location.Go(Down) || c == location.Go(Down).Go(Down);
      } else if c in ToSeq(Landing(board, location, Up)) {
        assert c == location.Go(Up) || c == location.Go(Up).Go(Up);
      } else if c in ToSeq(Landing(board, location, Right)) {
        assert c == location.Go(Right) || c == location.Go(Right).Go(Right);
      } else {
        assert c == location.Go(Left) || c == location.Go(Left).Go(Left);
      }
    }
  }

  /** The landing of a direction is never a possible landing of another
      direction, so a location is in the list only through its own direction. */
  lemma LandingsApart(board: Board, location: Location, d: Direction)
    requires board.Valid()
    ensures location.Go(d) in Candidates(board, location) <==> Landing(board, location, d) == Some(location.Go(d))
    ensures location.Go(d).Go(d) in Candidates(board, location) <==>
      Landing(board, location, d) == Some(location.Go(d).Go(d))
  {
    var near, far := location.Go(d), location.Go(d).Go(d);
    forall e | e != d
      ensures near !in ToSeq(Landing(board, location, e)) && far !in ToSeq(Landing(board, location, e))
    {
      var landing := Landing(board, location, e);
      assert landing == None || landing == Some(location.Go(e)) || landing == Some(location.Go(e).Go(e));
    }
  }

  /** An occupied neighbour is never a candidate; only the cell beyond it can be. */
  lemma OccupiedNeighbourExcluded(board: Board, location: Location, d: Direction)
    requires board.Valid()
    requires board.HasPlayer(location.Go(d))
    ensures location.Go(d) !in Candidates(board, location)
  {
  }

  /** On a board without walls, a player whose four neighbours are free is
      offered exactly those four neighbours, in the order down, up, right,
      left, whether or not they lie on the board. */
  lemma OpenBoardCandidates(board: Board, location: Location)
    requires board.Valid()
    requires forall l :: !board.HasHorizontalWall(l) && !board.HasVerticalWall(l)
    requires forall d :: !board.HasPlayer(location.Go(d))
    ensures Candidates(board, location) ==
      [location.Go(Down), location.Go(Up), location.Go(Right), location.Go(Left)]
  {
  }

  /** On a board without walls, an occupied neighbour is jumped over in a
      straight line and is not itself offered. */
  lemma OpenBoardJump(board: Board, location: Location, d: Direction)
    requires board.Valid()
    requires forall l :: !board.HasHorizontalWall(l) && !board.HasVerticalWall(l)
    requires board.HasPlayer(location.Go(d))
    ensures location.Go(d).Go(d) in Candidates(board, location)
    ensures location.Go(d) !in Candidates(board, location)
  {
    assert !StepBlocked(board, location, d) && !StepBlocked(board, location.Go(d), d);
    assert Landing(board, location, d) == Some(location.Go(d).Go(d));
    LandingsApart(board, location, d);
  }

  /** The opening position of the game's entry point: with no walls, the
      first player on (0, 4) and the second on (8, 4), the first player is
      offered the three cells around it on the board and also (-1, 4), off the
      board, because no block checks the board's edge. */
  lemma OpeningPosition(board: Board)
    requires board.Valid()
    requires forall l :: !board.HasHorizontalWall(l) && !board.HasVerticalWall(l)
    requires board.players[0].location == Location(0, 4)
    requires board.players[1].location == Location(8, 4)
    ensures Candidates(board, Location(0, 4)) ==
      [Location(1, 4), Location(-1, 4), Location(0, 5), Location(0, 3)]
  {
    var start := Location(0, 4);
    assert forall d :: !board.HasPlayer(start.Go(d)) by {
      forall d: Direction
        ensures !board.HasPlayer(start.Go(d))
      {
        assert start.Go(d).row < 8 && start.Go(d) != start;
      }
    }
    OpenBoardCandidates(board, start);
    assert start.Go(Down) == Location(1, 4) && start.Go(Up) == Location(-1, 4);
    assert start.Go(Right) == Location(0, 5) && start.Go(Left) == Location(0, 3);
  }

  /** The opening position as the entry point sets it up: a 9 × 9 board, the
      first player on (0, 4) aiming for row 8, the second on (8, 4) aiming for
      row 0. */
  method OpeningCandidates() returns (fields: seq<Location>)
    ensures fields == [Location(1, 4), Location(-1, 4), Location(0, 5), Location(0, 3)]
  {
    var me := new Player(Location(0, 4), (l: Location) => l.row == 8);
    var you := new Player(Location(8, 4), (l: Location) => l.row == 0);
    var board := new Board(9, me, you);
    fields := ComputeCandidates(board, me.location);
    OpeningPosition(board);
  }

  /** A straight jump: with the second player right below the first and no
      walls, the first player may jump to the cell beyond but not land on
      the occupied one. */
  method JumpCandidates() returns (fields: seq<Location>)
    ensures Location(2, 4) in fields && Location(1, 4) !in fields
  {
    var me := new Player(Location(0, 4), (l: Location) => l.row == 8);
    var you := new Player(Location(1, 4), (l: Location) => l.row == 0);
    var board := new Board(9, me, you);
    fields := ComputeCandidates(board, me.location);
    OpenBoardJump(board, Location(0, 4), Down);
  }

  // ----- Wall offers around a centre -----

  /** Which of the two wall shapes `centerClicked` offers at a wall centre. */
  datatype WallOffer = WallOffer(horizontal: bool, vertical: bool)

  /** The offer of `centerClicked`: nothing when the centre already carries a
      segment of either grid; otherwise a horizontal wall when neither
      horizontal neighbour segment is set, and a vertical wall when neither
      vertical neighbour segment is set. */
  function OfferWalls(board: Board, center: Location): WallOffer
    requires board.Shaped()
    reads board.horizontalWalls, board.verticalWalls
  {
    if !board.HasHorizontalWall(center) && !board.HasVerticalWall(center) then
      WallOffer(
        !board.HasHorizontalWall(center.Go(Left)) && !board.HasHorizontalWall(center.Go(Right)),
        !board.HasVerticalWall(center.Go(Down)) && !board.HasVerticalWall(center.Go(Up)))
    else
      WallOffer(false, false)
  }

  /** A horizontal wall at `center` overlaps no horizontal wall of its row
      (they are two columns wide) and crosses no vertical wall at its centre. */
  ghost predicate HorizontalFits(board: Board, center: Location)
    requires board.Shaped()
    reads board.horizontalWalls, board.verticalWalls
  {
    !board.HasVerticalWall(center) &&
    forall w :: board.HasHorizontalWall(w) && w.row == center.row ==> Abs(w.column - center.column) >= 2
  }

  /** A vertical wall at `center` overlaps no vertical wall of its column
      (they are two rows high) and crosses no horizontal wall at its centre. */
  ghost predicate VerticalFits(board: Board, center: Location)
    requires board.Shaped()
    reads board.horizontalWalls, board.verticalWalls
  {
    !board.HasHorizontalWall(center) &&
    forall w :: board.HasVerticalWall(w) && w.column == center.column ==> Abs(w.row - center.row) >= 2
  }

  /** A wall is offered exactly when it would neither overlap a parallel wall
      nor cross a perpendicular one at the same centre. */
  lemma OfferMeansNoOverlap(board: Board, center: Location)
    requires board.Shaped()
    ensures OfferWalls(board, center).horizontal <==> HorizontalFits(board, center)
    ensures OfferWalls(board, center).vertical <==> VerticalFits(board, center)
  {
  }

  // ----- The listener -----

  /** The listener's own state: the pending move candidates. */
  class ClickHandler {
    const board: Board
    var fields: seq<Location>

    constructor (board: Board)
      ensures this.board == board && fields == []
    {
      this.board := board;
      fields := [];
    }

    /** `fieldClicked`: with no candidates pending, a click on the current
        player's cell computes them; with candidates pending, a click on one
        of them moves the current player there and clears the list; any
        other click changes nothing. */
    method FieldClicked(clicked: Location)
      requires board.Valid()
      modifies this, board, board.players[board.currentPlayer]
      ensures board.Valid()
      ensures old(fields) == [] && clicked == old(board.CurrentPlayer().location) ==>
        fields == Candidates(board, clicked) &&
        unchanged(board) && unchanged(board.players[board.currentPlayer])
      ensures old(fields) != [] && clicked in old(fields) ==>
        fields == [] &&
        (old(board.finished) ==> unchanged(board) && unchanged(board.players[board.currentPlayer])) &&
        (!old(board.finished) ==>
          var mover := board.players[old(board.currentPlayer)];
          mover.location == clicked && mover.walls == old(mover.walls) &&
          board.finished == mover.wins(clicked) &&
          board.currentPlayer == if board.finished then old(board.currentPlayer)
                                 else (old(board.currentPlayer) + 1) % |board.players|)
      ensures !(old(fields) == [] && clicked == old(board.CurrentPlayer().location)) &&
              !(old(fields) != [] && clicked in old(fields)) ==>
        unchanged(this) && unchanged(board) && unchanged(board.players[board.currentPlayer])
    {
      var player := board.CurrentPlayer();
      if fields == [] && clicked == player.location {
        fields := ComputeCandidates(board, clicked);
      } else if fields != [] {
        if clicked in fields {
          board.MovePlayer(clicked);
          fields := [];
        }
      }
    }

    /** `centerClicked`: reports the wall offer at a centre; when the centre
        is free of segments it also drops any pending move candidates. */
    method CenterClicked(center: Location) returns (offer: WallOffer)
      requires board.Shaped()
      modifies this
      ensures offer == OfferWalls(board, center)
      ensures fields == if !board.HasHorizontalWall(center) && !board.HasVerticalWall(center) then []
                        else old(fields)
    {
      offer := OfferWalls(board, center);
      if !board.HasHorizontalWall(center) && !board.HasVerticalWall(center) {
        fields := [];
      }
    }
  }
}
