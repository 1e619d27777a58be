// Grid coordinates of the snake game: a pair of signed integers naming one
// cell, the compile-time grid dimensions, and the two range checks the game
// applies to cells (the range new apples are drawn from, and the bounds check
// that ends the game).
module Geometry {

  /** One grid cell (or a displacement between cells). */
  datatype Vector = Vector(x: int, y: int)

  /** Window size in pixels. */
  const WindowSize: Vector := Vector(800, 600)

  /** Side of one square cell, in pixels. */
  const CellSize: int := 10

  /** Grid size in cells: the window size divided by the cell size. */
  function GridSize(): (g: Vector)
    ensures g == Vector(80, 60)
  {
    Vector(WindowSize.x / CellSize, WindowSize.y / CellSize)
  }

  /** Component-wise sum of two vectors. */
  function Add(a: Vector, b: Vector): (r: Vector)
    ensures r.x - b.x == a.x && r.y - b.y == a.y
  {
    Vector(a.x + b.x, a.y + b.y)
  }

  /** Addition is associative and commutative, with (0, 0) as its identity. */
  lemma AddLaws(a: Vector, b: Vector, c: Vector)
    ensures Add(Add(a, b), c) == Add(a, Add(b, c))
    ensures Add(a, b) == Add(b, a)
    ensures Add(a, Vector(0, 0)) == a
  {
  }

  /** `k` times the displacement `v`. */
  function Scale(v: Vector, k: int): Vector
  {
    Vector(v.x * k, v.y * k)
  }

  /** Manhattan distance 1: the two cells share an edge. */
  predicate Adjacent(a: Vector, b: Vector)
  {
    var dx := if a.x < b.x then b.x - a.x else a.x - b.x;
    var dy := if a.y < b.y then b.y - a.y else a.y - b.y;
    dx + dy == 1
  }

  /**
   * The cells an apple may be placed on: x drawn from [0, width) and y from
   * [0, height), the half-open ranges of the random position generator.
   */
  predicate InGrid(p: Vector)
  {
    0 <= p.x < GridSize().x && 0 <= p.y < GridSize().y
  }

  /**
   * The game's bounds check. The upper comparison is strict (`x > width`
   * fails the check), so the column x == 80 and the row y == 60, one cell
   * beyond the visible grid, still count as in bounds.
   */
  function IsInBounds(v: Vector): (b: bool)
    ensures b <==> 0 <= v.x <= 80 && 0 <= v.y <= 60
    ensures InGrid(v) ==> b
  {
    if v.x < 0 || v.y < 0 || v.x > GridSize().x || v.y > GridSize().y then
      false
    else
      true
  }

  /** The bounds check admits cells that no apple can occupy. */
  lemma BoundsAdmitOuterEdge()
    ensures IsInBounds(Vector(80, 0)) && !InGrid(Vector(80, 0))
    ensures IsInBounds(Vector(0, 60)) && !InGrid(Vector(0, 60))
    ensures !IsInBounds(Vector(81, 0)) && !IsInBounds(Vector(-1, 0))
  {
  }
}
