/** The game state (Board.java): wall grids, turn order, movement, win
    detection and the flood fill over open cell edges. */
module Boards {
  import opened Directions
  import opened Locations
  import opened Players

  /** Every cell of a size × size board. */
  function Cells(size: int): (cells: set<Location>)
    ensures forall l :: l in cells <==> l.IsValidIn(size)
  {
    set r, c | 0 <= r < size && 0 <= c < size :: Location(r, c)
  }

  /** The wall-grid coordinate on a given side of a coordinate:
      `Location.wall`, whose definition is not part of this model, so every
      member that needs it takes it as a parameter and holds for any choice. */
  type WallOf = (Location, Direction) -> Location

  class Board {
    const size: int
    const players: seq<Player>
    var currentPlayer: nat
    /** Horizontal wall segments, (size-1) × (size-1); a set segment blocks
        vertical movement. */
    const horizontalWalls: array2<bool>
    /** Vertical wall segments, (size-1) × (size-1); a set segment blocks
        horizontal movement. */
    const verticalWalls: array2<bool>
    var finished: bool

    /** The shape fixed at construction: two players and two distinct
        (size-1) × (size-1) grids. */
    ghost predicate Shaped() {
      |players| == 2 &&
      horizontalWalls.Length0 == horizontalWalls.Length1 == size - 1 &&
      verticalWalls.Length0 == verticalWalls.Length1 == size - 1 &&
      horizontalWalls != verticalWalls
    }

    /** The turn index always names one of the players. */
    ghost predicate Valid()
      reads this
    {
      Shaped() && currentPlayer < |players|
    }

    /** A fresh game: the first player to move, no walls anywhere. */
    constructor (size: int, player1: Player, player2: Player)
      requires size >= 1
      ensures Valid()
      ensures this.size == size && players == [player1, player2]
      ensures currentPlayer == 0 && !finished
      ensures fresh(horizontalWalls) && fresh(verticalWalls)
      ensures forall i, j :: 0 <= i < size - 1 && 0 <= j < size - 1 ==>
                !horizontalWalls[i, j] && !verticalWalls[i, j]
      ensures forall l :: !HasHorizontalWall(l) && !HasVerticalWall(l)
    {
      this.size := size;
      players := [player1, player2];
      currentPlayer := 0;
      horizontalWalls := new bool[size - 1, size - 1]((i, j) => false);
      verticalWalls := new bool[size - 1, size - 1]((i, j) => false);
      finished := false;
    }

    /** `getCurrentPlayer`: the player whose turn it is, one of the two. */
    function CurrentPlayer(): (p: Player)
      requires Valid()
      reads this
      ensures p in players
    {
      players[currentPlayer]
    }

    /** `isValidWall`: inside the wall grid, bounded by the lengths of the two
        grids' outer dimension. */
    predicate IsValidWall(location: Location) {
      location.IsValid(horizontalWalls.Length0, verticalWalls.Length0)
    }

    /** On a board of the constructed shape the valid wall locations are the
        (size-1) × (size-1) coordinates. */
    lemma ValidWallRange(location: Location)
      requires Shaped()
      ensures IsValidWall(location) <==> 0 <= location.row < size - 1 && 0 <= location.column < size - 1
    {
    }

    /** `hasHorizontalWall`: never true outside the wall grid. */
    function HasHorizontalWall(location: Location): (r: bool)
      requires Shaped()
      reads horizontalWalls
      ensures r ==> location.IsValid(size - 1, size - 1)
    {
      IsValidWall(location) && horizontalWalls[location.row, location.column]
    }

    /** `hasVerticalWall`: never true outside the wall grid. */
    function HasVerticalWall(location: Location): (r: bool)
      requires Shaped()
      reads verticalWalls
      ensures r ==> location.IsValid(size - 1, size - 1)
    {
      IsValidWall(location) && verticalWalls[location.row, location.column]
    }

    /** `hasWall`: a side of a cell is blocked when either of the two segments
        of the perpendicular grid that can cover it is in range and set. */
    function HasWall(wall: WallOf, location: Location, side: Direction): (r: bool)
      requires Shaped()
      reads horizontalWalls, verticalWalls
      ensures var w := wall(location, side);
        r <==> if side.IsHorizontal() then HasVerticalWall(w) || HasVerticalWall(w.Go(Up))
               else HasHorizontalWall(w) || HasHorizontalWall(w.Go(Left))
    {
      var wallLocation := wall(location, side);
      if side.IsHorizontal() then
        var second := wallLocation.Go(Up);
        (IsValidWall(wallLocation) && verticalWalls[wallLocation.row, wallLocation.column]) ||
        (IsValidWall(second) && verticalWalls[second.row, second.column])
      else
        var second := wallLocation.Go(Left);
        (IsValidWall(wallLocation) && horizontalWalls[wallLocation.row, wallLocation.column]) ||
        (IsValidWall(second) && horizontalWalls[second.row, second.column])
    }

    /** `hasPlayer`: some player of the game stands on the location. */
    function HasPlayer(location: Location): (r: bool)
      requires Valid()
      reads this, players
      ensures r <==> players[0].location == location || players[1].location == location
      ensures location == CurrentPlayer().location ==> r
    {
      exists p :: p in players && p.location == location
    }

    /** `nextPlayer`: round-robin turn order over the players. */
    method NextPlayer()
      requires Valid()
      modifies this
      ensures Valid()
      ensures currentPlayer == (old(currentPlayer) + 1) % |players|
      ensures finished == old(finished)
    {
      currentPlayer := (currentPlayer + 1) % |players|;
    }

    /** `endGame`: freezes the game; the winner stays the current player. */
    method EndGame()
      requires Valid()
      modifies this
      ensures Valid()
      ensures finished && currentPlayer == old(currentPlayer)
    {
      finished := true;
    }

    /** `movePlayer`: on a running game relocates the current player, then
        either ends the game (the player now meets their goal) or passes the
        turn; on a finished game changes nothing. No legality check is made. */
    method MovePlayer(location: Location)
      requires Valid()
      modifies this, players[currentPlayer]
      ensures Valid()
      ensures old(finished) ==> unchanged(this) && unchanged(players[currentPlayer])
      ensures !old(finished) ==>
        var mover := players[old(currentPlayer)];
        mover.location == location && mover.walls == old(mover.walls) &&
        finished == mover.wins(location) &&
        currentPlayer == if finished then old(currentPlayer) else (old(currentPlayer) + 1) % |players|
    {
      if !finished {
        var mover := CurrentPlayer();
        mover.ChangeLocation(location);
        if !mover.HasWon() {
          NextPlayer();
        } else {
          EndGame();
        }
      }
    }

    /** `addWall`: sets the segment reached by two `wall` translations, in the
        grid perpendicular to `side`, and passes the turn; out of range it does
        nothing. This older entry point neither checks `finished` nor spends a
        token. */
    method AddWall(wall: WallOf, location: Location, side: Direction, direction: Direction)
      requires Valid()
      modifies this, horizontalWalls, verticalWalls
      ensures Valid() && finished == old(finished)
      ensures forall w, l, d :: old(HasWall(w, l, d)) ==> HasWall(w, l, d)
      ensures var w := wall(wall(location, side), direction);
        if IsValidWall(w) then
          currentPlayer == (old(currentPlayer) + 1) % |players| &&
          (side.IsHorizontal() ==>
            unchanged(horizontalWalls) &&
            forall l :: HasVerticalWall(l) <==> old(HasVerticalWall(l)) || l == w) &&
          (!side.IsHorizontal() ==>
            unchanged(verticalWalls) &&
            forall l :: HasHorizontalWall(l) <==> old(HasHorizontalWall(l)) || l == w)
        else
          unchanged(this) && unchanged(horizontalWalls) && unchanged(verticalWalls)
    {
      var wallLocation := wall(wall(location, side), direction);
      if IsValidWall(wallLocation) {
        var walls := if side.IsHorizontal() then verticalWalls else horizontalWalls;
        walls[wallLocation.row, wallLocation.column] := true;
        NextPlayer();
      }
    }

    /** `addHorizontalWall`: on a running game and an in-range location sets
        exactly that segment, spends one of the current player's tokens (even
        when none is left) and passes the turn; otherwise changes nothing. */
    method AddHorizontalWall(location: Location)
      requires Valid()
      modifies this, horizontalWalls, players[currentPlayer]
      ensures Valid() && finished == old(finished)
      ensures forall w, l, d :: old(HasWall(w, l, d)) ==> HasWall(w, l, d)
      ensures if IsValidWall(location) && !old(finished) then
          var placer := players[old(currentPlayer)];
          (forall l :: HasHorizontalWall(l) <==> old(HasHorizontalWall(l)) || l == location) &&
          placer.walls == old(placer.walls) - 1 && placer.location == old(placer.location) &&
          currentPlayer == (old(currentPlayer) + 1) % |players|
        else
          unchanged(this) && unchanged(horizontalWalls) && unchanged(players[currentPlayer])
    {
      if IsValidWall(location) && !finished {
        horizontalWalls[location.row, location.column] := true;
        CurrentPlayer().RemoveWall();
        NextPlayer();
      }
    }

    /** `addVerticalWall`: the vertical counterpart of AddHorizontalWall. */
    method AddVerticalWall(location: Location)
      requires Valid()
      modifies this, verticalWalls, players[currentPlayer]
      ensures Valid() && finished == old(finished)
      ensures forall w, l, d :: old(HasWall(w, l, d)) ==> HasWall(w, l, d)
      ensures if IsValidWall(location) && !old(finished) then
          var placer := players[old(currentPlayer)];
          (forall l :: HasVerticalWall(l) <==> old(HasVerticalWall(l)) || l == location) &&
          placer.walls == old(placer.walls) - 1 && placer.location == old(placer.location) &&
          currentPlayer == (old(currentPlayer) + 1) % |players|
        else
          unchanged(this) && unchanged(verticalWalls) && unchanged(players[currentPlayer])
    {
      if IsValidWall(location) && !finished {
        verticalWalls[location.row, location.column] := true;
        CurrentPlayer().RemoveWall();
        NextPlayer();
      }
    }

    // ----- Reachability -----

    /** One step of the flood fill: no wall on that side and the neighbour is
        a board cell. */
    ghost predicate CanStep(wall: WallOf, location: Location, d: Direction)
      requires Shaped()
      reads horizontalWalls, verticalWalls
    {
      !HasWall(wall, location, d) && location.Go(d).IsValidIn(size)
    }

    ghost predicate Step(wall: WallOf, from: Location, to: Location)
      requires Shaped()
      reads horizontalWalls, verticalWalls
    {
      exists d :: CanStep(wall, from, d) && from.Go(d) == to
    }

    /** A sequence of coordinates each reached from the previous by one step. */
    ghost predicate IsWalk(wall: WallOf, p: seq<Location>)
      requires Shaped()
      reads horizontalWalls, verticalWalls
    {
      forall i :: 0 <= i < |p| - 1 ==> Step(wall, p[i], p[i + 1])
    }

    /** `to` can be reached from `from` by open steps. */
    ghost predicate Connected(wall: WallOf, from: Location, to: Location)
      requires Shaped()
      reads horizontalWalls, verticalWalls
    {
      exists p :: IsWalk(wall, p) && |p| > 0 && p[0] == from && p[|p| - 1] == to
    }

    /** Every open step out of `location` stays inside `s`. */
    ghost predicate ClosedAt(wall: WallOf, s: set<Location>, location: Location)
      requires Shaped()
      reads horizontalWalls, verticalWalls
    {
      forall d :: CanStep(wall, location, d) ==> location.Go(d) in s
    }

    ghost predicate Closed(wall: WallOf, s: set<Location>)
      requires Shaped()
      reads horizontalWalls, verticalWalls
    {
      forall l :: l in s ==> ClosedAt(wall, s, l)
    }

    /** Covering the open steps towards each of `Direction.values()` closes
        the set at that coordinate. */
    lemma EveryDirectionCovered(wall: WallOf, s: set<Location>, location: Location)
      requires Shaped()
      requires forall j :: 0 <= j < |AllDirections| && CanStep(wall, location, AllDirections[j]) ==>
        location.Go(AllDirections[j]) in s
      ensures ClosedAt(wall, s, location)
    {
      forall d | CanStep(wall, location, d)
        ensures location.Go(d) in s
      {
        AllDirectionsComplete(d);
        var j :| 0 <= j < |AllDirections| && AllDirections[j] == d;
      }
    }

    lemma ConnectedToItself(wall: WallOf, location: Location)
      requires Valid()
      ensures Connected(wall, location, location)
    {
      assert IsWalk(wall, [location]);
    }

    /** Connectivity extends by one open step. */
    lemma {:induction false} ConnectedStep(wall: WallOf, from: Location, location: Location, d: Direction)
      requires Valid()
      requires Connected(wall, from, location) && CanStep(wall, location, d)
      ensures Connected(wall, from, location.Go(d))
    {
      var p :| IsWalk(wall, p) && |p| > 0 && p[0] == from && p[|p| - 1] == location;
      var q := p + [location.Go(d)];
      forall i | 0 <= i < |q| - 1
        ensures Step(wall, q[i], q[i + 1])
      {
        if i < |p| - 1 {
          assert q[i] == p[i] && q[i + 1] == p[i + 1];
        } else {
          assert q[i] == location && q[i + 1] == location.Go(d);
        }
      }
      assert IsWalk(wall, q) && q[0] == from && q[|q| - 1] == location.Go(d);
    }

    /** A set that holds the start of a walk and is closed under open steps
        holds the end of the walk. */
    lemma {:induction false} ClosedContainsWalk(wall: WallOf, s: set<Location>, p: seq<Location>)
      requires Valid()
      requires |p| > 0 && p[0] in s && IsWalk(wall, p) && Closed(wall, s)
      ensures p[|p| - 1] in s
    {
      if |p| > 1 {
        var prefix := p[..|p| - 1];
        assert IsWalk(wall, prefix) by {
          forall i | 0 <= i < |prefix| - 1
            ensures Step(wall, prefix[i], prefix[i + 1])
          {
            assert prefix[i] == p[i] && prefix[i + 1] == p[i + 1];
          }
        }
        ClosedContainsWalk(wall, s, prefix);
        assert Step(wall, p[|p| - 2], p[|p| - 1]);
        var d :| CanStep(wall, p[|p| - 2], d) && p[|p| - 2].Go(d) == p[|p| - 1];
        assert ClosedAt(wall, s, p[|p| - 2]);
      }
    }

    /** `getReachableLocations`: the cells reachable from `location` without
        crossing a wall, ignoring other pawns. The result holds the start, all
        its other members are board cells, it is closed under open steps, and
        it is exactly the set of coordinates connected to the start. */
    method GetReachableLocations(wall: WallOf, location: Location) returns (result: set<Location>)
      requires Valid()
      ensures location in result
      ensures forall l :: l in result && l != location ==> l.IsValidIn(size)
      ensures Closed(wall, result)
      ensures forall l :: l in result <==> Connected(wall, location, l)
    {
      result := {location};
      ConnectedToItself(wall, location);
      var i := 0;
      while i < |AllDirections|
        invariant 0 <= i <= |AllDirections|
        invariant location in result
        invariant forall l :: l in result && l != location ==> l.IsValidIn(size) && ClosedAt(wall, result, l)
        invariant forall j :: 0 <= j < i && CanStep(wall, location, AllDirections[j]) ==> location.Go(AllDirections[j]) in result
        invariant forall l :: l in result ==> Connected(wall, location, l)
      {
        result := Extend(wall, result, location, AllDirections[i], location);
        i := i + 1;
      }
      EveryDirectionCovered(wall, result, location);
      forall l | Connected(wall, location, l)
        ensures l in result
      {
        var p :| IsWalk(wall, p) && |p| > 0 && p[0] == location && p[|p| - 1] == l;
        ClosedContainsWalk(wall, result, p);
      }
    }

    /** `extend`: if the step from `location` towards `direction` is open and
        leads to a board cell not yet in the set, adds that cell and extends
        from it in every direction. Every cell it adds is a board cell whose
        open steps all stay in the grown set; the step it was asked about is
        covered; and everything it adds is connected to the start. It
        terminates because each nested call first adds a new board cell. */
    method Extend(wall: WallOf, result: set<Location>, location: Location, direction: Direction,
                  ghost start: Location)
      returns (grown: set<Location>)
      requires Valid()
      requires location in result
      requires forall l :: l in result ==> Connected(wall, start, l)
      ensures result <= grown
      ensures forall l :: l in grown && l !in result ==> l.IsValidIn(size) && ClosedAt(wall, grown, l)
      ensures CanStep(wall, location, direction) ==> location.Go(direction) in grown
      ensures forall l :: l in grown ==> Connected(wall, start, l)
      decreases Cells(size) - result, 0
    {
      grown := result;
      if !HasWall(wall, location, direction) {
        var next := location.Go(direction);
        if next.IsValidIn(size) && next !in grown {
          ConnectedStep(wall, start, location, direction);
          assert next in Cells(size) - result && next !in Cells(size) - (result + {next});
          grown := ExtendAround(wall, grown + {next}, next, start);
        }
      }
    }

    /** The loop of `extend` over `Direction.values()` from a cell it has just
        added: afterwards the set is closed at that cell, and every further
        cell is a board cell at which the set is closed too. */
    method ExtendAround(wall: WallOf, seen: set<Location>, next: Location, ghost start: Location)
      returns (grown: set<Location>)
      requires Valid()
      requires next in seen && next.IsValidIn(size)
      requires forall l :: l in seen ==> Connected(wall, start, l)
      ensures seen <= grown
      ensures forall l :: l in grown && l !in seen ==> l.IsValidIn(size) && ClosedAt(wall, grown, l)
      ensures ClosedAt(wall, grown, next)
      ensures forall l :: l in grown ==> Connected(wall, start, l)
      decreases Cells(size) - seen, 1
    {
      grown := seen;
      var i := 0;
      while i < |AllDirections|
        invariant 0 <= i <= |AllDirections|
        invariant seen <= grown
        invariant forall l :: l in grown && l !in seen ==> l.IsValidIn(size) && ClosedAt(wall, grown, l)
        invariant forall j :: 0 <= j < i && CanStep(wall, next, AllDirections[j]) ==> next.Go(AllDirections[j]) in grown
        invariant forall l :: l in grown ==> Connected(wall, start, l)
      {
        assert Cells(size) - grown <= Cells(size) - seen;
        grown := Extend(wall, grown, next, AllDirections[i], start);
        i := i + 1;
      }
      EveryDirectionCovered(wall, grown, next);
    }
  }
}
