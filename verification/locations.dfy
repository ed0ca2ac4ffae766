/** Immutable grid coordinates (Location.java). */
module Locations {
  import opened Directions

  const Int32Modulus: int := 0x1_0000_0000
  const MinInt32: int := -0x8000_0000
  const MaxInt32: int := 0x7FFF_FFFF

  /** Java `int` arithmetic: the value congruent to x modulo 2^32 in the
      32-bit two's complement range. */
  function ToInt32(x: int): (r: int)
    ensures MinInt32 <= r <= MaxInt32
    ensures x - r == Int32Modulus * ((x - MinInt32) / Int32Modulus)
  {
    (x - MinInt32) % Int32Modulus + MinInt32
  }

  /** A cell, wall-segment or wall-centre coordinate. Being a datatype, a
      Location never changes after it is built. */
  datatype Location = Location(row: int, column: int) {

    /** `go(direction)`: the neighbouring coordinate one step towards d. */
    function Go(d: Direction): Location {
      Location(row + d.RowDelta(), column + d.ColumnDelta())
    }

    /** `isValid(rowBound, columnBound)`: inside a grid of the given size. */
    predicate IsValid(rowBound: int, columnBound: int) {
      0 <= row < rowBound && 0 <= column < columnBound
    }

    /** `isValid(size)`: inside a square grid. */
    predicate IsValidIn(bound: int) {
      IsValid(bound, bound)
    }

    /** `equals`: field-by-field comparison, which is exactly value equality. */
    function Equals(that: Location): (r: bool)
      ensures r <==> this == that
    {
      row == that.row && column == that.column
    }

    /** `hashCode`: `Objects.hash(row, column)`, that is 31 * (31 + row) + column
        evaluated with 32-bit wrap-around. */
    function HashCode(): (h: int)
      ensures MinInt32 <= h <= MaxInt32
    {
      ToInt32(ToInt32(31 * ToInt32(31 + row)) + column)
    }
  }

  /** The wrap-around at each step of `Objects.hash` does not matter: the hash
      is congruent to 961 + 31 * row + column modulo 2^32. */
  lemma HashCodeCongruent(l: Location)
    ensures (961 + 31 * l.row + l.column - l.HashCode()) % Int32Modulus == 0
  {
    var a := ToInt32(31 + l.row);
    var b := ToInt32(31 * a);
    var q1 := (31 + l.row - MinInt32) / Int32Modulus;
    var q2 := (31 * a - MinInt32) / Int32Modulus;
    var q3 := (b + l.column - MinInt32) / Int32Modulus;
    var k := 31 * q1 + q2 + q3;
    assert 961 + 31 * l.row + l.column - l.HashCode() == Int32Modulus * k by {
      assert 31 + l.row - a == Int32Modulus * q1;
      assert 31 * a - b == Int32Modulus * q2;
      assert b + l.column - l.HashCode() == Int32Modulus * q3;
    }
  }

  /** Equal locations hash equally: the hash reads nothing but the two fields
      that `Equals` compares. */
  lemma HashAgreesWithEquals(a: Location, b: Location)
    requires a.Equals(b)
    ensures a.HashCode() == b.HashCode()
  {
  }
}
