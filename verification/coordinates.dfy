/** Cell-to-world coordinate mapping of the map viewer (`drawCell`).

    A map with `mapHeight` rows is drawn in a square of side `Height`
    centred on the origin. Every cell has the same pitch `Height / mapHeight`,
    computed from the number of rows only, and a marker is placed at the
    centre of its cell in the z = 0 plane. Arithmetic is exact (`real`);
    the viewer itself uses IEEE-754 doubles.
 */
module Coordinates {

  /** Side length of the world-space square the map is drawn in (and the
      height of the container element). */
  const Height: real := 850.0

  datatype Vec3 = Vec3(x: real, y: real, z: real)

  /** Edge length of one cell: the plane size and the placement step. */
  function Pitch(mapHeight: nat): (s: real)
    requires mapHeight > 0
    ensures s > 0.0
    ensures s * (mapHeight as real) == Height
  {
    Height / (mapHeight as real)
  }

  /** World x of column `col` (the second argument of `drawCell`). */
  function PosX(col: nat, mapHeight: nat): real
    requires mapHeight > 0
  {
    var s := Pitch(mapHeight);
    ((col as real) - (mapHeight as real) / 2.0) * s + s / 2.0
  }

  /** World y of row `row` (the first argument of `drawCell`); row 0 is at the top. */
  function PosY(row: nat, mapHeight: nat): real
    requires mapHeight > 0
  {
    var s := Pitch(mapHeight);
    ((mapHeight as real) / 2.0 - (row as real) - 1.0) * s + s / 2.0
  }

  /** The position `drawCell(row, col, mapHeight)` gives its plane. */
  function Position(row: nat, col: nat, mapHeight: nat): (p: Vec3)
    requires mapHeight > 0
    ensures p.z == 0.0
    ensures p.x == -Height / 2.0 + ((col as real) + 0.5) * Pitch(mapHeight)
    ensures p.y == Height / 2.0 - ((row as real) + 0.5) * Pitch(mapHeight)
  {
    Vec3(PosX(col, mapHeight), PosY(row, mapHeight), 0.0)
  }

  /** Column 0 and row 0 sit half a pitch inside the left and top edges. */
  lemma FirstCell(mapHeight: nat)
    requires mapHeight > 0
    ensures PosX(0, mapHeight) == -Height / 2.0 + Pitch(mapHeight) / 2.0
    ensures PosY(0, mapHeight) == Height / 2.0 - Pitch(mapHeight) / 2.0
  {
    var s := Pitch(mapHeight);
    assert (mapHeight as real) / 2.0 * s == Height / 2.0;
  }

  /** One column to the right moves x by exactly one pitch; one row down
      moves y by exactly minus one pitch. */
  lemma Step(row: nat, col: nat, mapHeight: nat)
    requires mapHeight > 0
    ensures PosX(col + 1, mapHeight) == PosX(col, mapHeight) + Pitch(mapHeight)
    ensures PosY(row + 1, mapHeight) == PosY(row, mapHeight) - Pitch(mapHeight)
  {
  }

  /** Positions are mirror images about the centre of the square. */
  lemma Symmetric(row: nat, col: nat, mapHeight: nat)
    requires row < mapHeight && col < mapHeight
    ensures PosX(col, mapHeight) == -PosX(mapHeight - 1 - col, mapHeight)
    ensures PosY(row, mapHeight) == -PosY(mapHeight - 1 - row, mapHeight)
  {
  }

  /** Inside the square: a column below `mapHeight` is placed between the
      centres of the first and the last column, and likewise for rows. */
  lemma InsideSquare(row: nat, col: nat, mapHeight: nat)
    requires row < mapHeight && col < mapHeight
    ensures -Height / 2.0 + Pitch(mapHeight) / 2.0 <= PosX(col, mapHeight) <= Height / 2.0 - Pitch(mapHeight) / 2.0
    ensures -Height / 2.0 + Pitch(mapHeight) / 2.0 <= PosY(row, mapHeight) <= Height / 2.0 - Pitch(mapHeight) / 2.0
  {
    var s := Pitch(mapHeight);
    var h := mapHeight as real;
    MulMono(col as real, h - 1.0, s);
    MulMono(row as real, h - 1.0, s);
    assert (h - 1.0) * s == Height - s;
  }

  /** The pitch depends on the row count only: a row longer than the map
      is tall puts its extra columns to the right of the square. */
  lemma OutsideSquare(col: nat, mapHeight: nat)
    requires 0 < mapHeight <= col
    ensures PosX(col, mapHeight) > Height / 2.0
  {
    var s := Pitch(mapHeight);
    MulMono(mapHeight as real, col as real, s);
  }

  /** Every column lies at or right of the centre of column 0. */
  lemma ColumnsMoveRight(col: nat, mapHeight: nat)
    requires mapHeight > 0
    ensures PosX(col, mapHeight) >= -Height / 2.0 + Pitch(mapHeight) / 2.0
  {
    MulMono(0.0, col as real, Pitch(mapHeight));
  }

  /** Multiplication by a positive real preserves order. */
  lemma MulMono(a: real, b: real, s: real)
    requires a <= b && s > 0.0
    ensures a * s <= b * s
  {
    assert b * s - a * s == (b - a) * s;
  }
}
