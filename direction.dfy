// The four movement directions, their unit displacements, their opposites
// and the one-cell step they take from a position.
module Directions {
  import opened Geometry

  datatype Direction = Left | Right | Up | Down

  /**
   * The unit displacement of a direction. The y axis points down the screen,
   * so Up decreases y.
   */
  function Scalar(d: Direction): (r: Vector)
    ensures (r.x == 0) != (r.y == 0)
    ensures r.x == 0 ==> r.y == 1 || r.y == -1
    ensures r.y == 0 ==> r.x == 1 || r.x == -1
  {
    match d
    case Left => Vector(-1, 0)
    case Right => Vector(1, 0)
    case Up => Vector(0, -1)
    case Down => Vector(0, 1)
  }

  /** The opposite direction. */
  function Invert(d: Direction): (r: Direction)
    ensures r != d
  {
    match d
    case Left => Right
    case Right => Left
    case Up => Down
    case Down => Up
  }

  /** The cell one step from `p` in direction `d`: `p` plus the unit displacement. */
  function Step(d: Direction, p: Vector): (r: Vector)
    ensures d == Up ==> r == Vector(p.x, p.y - 1)
    ensures d == Down ==> r == Vector(p.x, p.y + 1)
    ensures d == Left ==> r == Vector(p.x - 1, p.y)
    ensures d == Right ==> r == Vector(p.x + 1, p.y)
    ensures Adjacent(p, r)
  {
    Add(p, Scalar(d))
  }

  /** Inverting twice gives the direction back. */
  lemma InvertInvolution(d: Direction)
    ensures Invert(Invert(d)) == d
  {
    match d
    case Left =>
    case Right =>
    case Up =>
    case Down =>
  }

  /** The unit displacements of opposite directions cancel. */
  lemma ScalarsCancel(d: Direction)
    ensures Add(Scalar(d), Scalar(Invert(d))) == Vector(0, 0)
  {
    match d
    case Left =>
    case Right =>
    case Up =>
    case Down =>
  }

  /** Inversion is a bijection, so the two ways of writing the reversal test agree. */
  lemma InvertSwap(a: Direction, b: Direction)
    ensures (a == Invert(b)) <==> (b == Invert(a))
  {
    if a == Invert(b) {
      InvertInvolution(b);
    }
    if b == Invert(a) {
      InvertInvolution(a);
    }
  }

  /** A step followed by a step in the opposite direction returns to the start. */
  lemma StepUndo(d: Direction, p: Vector)
    ensures Step(Invert(d), Step(d, p)) == p
  {
    AddLaws(p, Scalar(d), Scalar(Invert(d)));
    ScalarsCancel(d);
  }

  /** Different directions lead to different cells. */
  lemma StepInjective(d: Direction, e: Direction, p: Vector)
    requires d != e
    ensures Step(d, p) != Step(e, p)
  {
  }

  /** `k` steps of the unit vector, taken one more time, is `k + 1` steps. */
  lemma ScaleStep(p: Vector, d: Direction, k: int)
    ensures Step(d, Add(p, Scale(Scalar(d), k))) == Add(p, Scale(Scalar(d), k + 1))
  {
    var s := Scalar(d);
    assert s.x * (k + 1) == s.x * k + s.x;
    assert s.y * (k + 1) == s.y * k + s.y;
  }
}
