/** A participant of the game (Player.java). */
module Players {
  import opened Locations

  /** Wall tokens a player starts with. */
  const InitialWalls: int := 10

  class Player {
    /** Where the player's pawn stands; changed by the board on a move. */
    var location: Location
    /** Remaining wall tokens; no lower bound is enforced. */
    var walls: int
    /** The goal test fixed when the player is created (a Java
        `Function<Location, Boolean>`). */
    const wins: Location -> bool

    constructor (location: Location, wins: Location -> bool)
      ensures this.location == location && this.wins == wins
      ensures walls == InitialWalls && HasWalls()
    {
      this.location := location;
      this.walls := InitialWalls;
      this.wins := wins;
    }

    /** `hasWalls()`: at least one token is left. */
    predicate HasWalls()
      reads this
    {
      walls > 0
    }

    /** `hasWon()`: the fixed goal test applied to the current location. */
    predicate HasWon()
      reads this
    {
      wins(location)
    }

    /** Moves the pawn; the token count stays, and whether the player has won
        is now decided by the new location alone. */
    method ChangeLocation(location: Location)
      modifies this
      ensures this.location == location && walls == old(walls)
      ensures HasWon() <==> wins(location)
    {
      this.location := location;
    }

    /** Spends one token. There is no guard: from zero or below the count
        keeps falling. */
    method RemoveWall()
      modifies this
      ensures walls == old(walls) - 1 && location == old(location)
      ensures HasWalls() <==> old(walls) > 1
      ensures old(walls) <= 0 ==> walls < 0
    {
      walls := walls - 1;
    }
  }
}
