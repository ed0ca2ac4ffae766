/** The four movement directions of a Quoridor board (Direction.java). */
module Directions {

  /** One of the four constants DOWN, UP, LEFT and RIGHT. Rows grow downwards,
      columns grow to the right. */
  datatype Direction = Down | Up | Left | Right {

    /** Change of row when stepping one cell in this direction. */
    function RowDelta(): int {
      match this
      case Down => 1
      case Up => -1
      case Left => 0
      case Right => 0
    }

    /** Change of column when stepping one cell in this direction. */
    function ColumnDelta(): int {
      match this
      case Down => 0
      case Up => 0
      case Left => -1
      case Right => 1
    }

    /** `Direction.isHorizontal`: LEFT and RIGHT are horizontal. */
    predicate IsHorizontal() {
      this == Left || this == Right
    }

    /** `Direction.isVertical`: UP and DOWN are vertical. */
    predicate IsVertical() {
      this == Down || this == Up
    }
  }

  /** The constants in declaration order, the order in which the flood fill
      visits them. */
  const AllDirections: seq<Direction> := [Down, Up, Left, Right]

  function Abs(x: int): nat {
    if x < 0 then -x else x
  }

  lemma AllDirectionsComplete(d: Direction)
    ensures d in AllDirections
  {
  }

  /** DOWN is (1, 0), UP is (-1, 0), LEFT is (0, -1) and RIGHT is (0, 1). */
  lemma Deltas()
    ensures Down.RowDelta() == 1 && Down.ColumnDelta() == 0
    ensures Up.RowDelta() == -1 && Up.ColumnDelta() == 0
    ensures Left.RowDelta() == 0 && Left.ColumnDelta() == -1
    ensures Right.RowDelta() == 0 && Right.ColumnDelta() == 1
  {
  }

  /** Every direction moves exactly one cell along exactly one axis, and its
      orientation flags say which axis: exactly one flag is set, and the
      horizontal flag is set exactly when the column changes. */
  lemma UnitStep(d: Direction)
    ensures Abs(d.RowDelta()) + Abs(d.ColumnDelta()) == 1
    ensures d.IsHorizontal() != d.IsVertical()
    ensures d.IsHorizontal() <==> d.ColumnDelta() != 0
    ensures d.IsVertical() <==> d.RowDelta() != 0
  {
  }

  /** UP undoes DOWN and LEFT undoes RIGHT. */
  lemma OppositeDeltas()
    ensures Up.RowDelta() == -Down.RowDelta() && Up.ColumnDelta() == -Down.ColumnDelta()
    ensures Left.RowDelta() == -Right.RowDelta() && Left.ColumnDelta() == -Right.ColumnDelta()
  {
  }
}
