// The game rules as pure functions on values: how a new snake is laid out,
// which direction change is accepted, how one tick moves the snake, and how
// the tick is judged. The imperative class in module Snakes is proved
// against these definitions.
module Rules {
  import opened Geometry
  import opened Directions

  /** The food. A fresh apple replaces an eaten one; it is never updated in place. */
  datatype Apple = Apple(pos: Vector)

  /** What one tick reports to the game loop. */
  datatype Outcome = Continue | AteApple | OutOfBounds | SelfCollision
  {
    /** The outcomes that end the session. */
    predicate IsTerminal()
    {
      this == OutOfBounds || this == SelfCollision
    }
  }

  /** The cell `i` steps behind `head`, walking in the inverse of `d`. */
  function Behind(head: Vector, d: Direction, i: int): Vector
  {
    Add(head, Scale(Scalar(Invert(d)), i))
  }

  /** One more step backwards from the cell `i` steps behind is the cell `i + 1` steps behind. */
  lemma BehindSucc(head: Vector, d: Direction, i: int)
    ensures Step(Invert(d), Behind(head, d, i)) == Behind(head, d, i + 1)
    ensures Behind(Step(Invert(d), head), d, i) == Behind(head, d, i + 1)
  {
    ScaleStep(head, Invert(d), i);
  }

  /**
   * The segments of a new snake: `n` cells starting at `head` and walking
   * away from it in the inverse of the initial direction `d`.
   */
  function Layout(head: Vector, d: Direction, n: nat): (r: seq<Vector>)
    ensures |r| == n
    ensures forall i {:trigger r[i]} :: 0 <= i < n ==> r[i] == Behind(head, d, i)
    decreases n
  {
    if n == 0 then []
    else
      var rest := Layout(Step(Invert(d), head), d, n - 1);
      assert forall i {:trigger rest[i]} :: 0 <= i < n - 1 ==> rest[i] == Behind(head, d, i + 1) by {
        forall i | 0 <= i < n - 1
          ensures rest[i] == Behind(head, d, i + 1)
        {
          BehindSucc(head, d, i);
        }
      }
      [head] + rest
  }

  /** Segment `i` shares an edge with segment `i + 1`. */
  predicate Linked(segs: seq<Vector>, i: int)
    requires 0 <= i < |segs| - 1
  {
    Adjacent(segs[i], segs[i + 1])
  }

  /** Consecutive segments share an edge. */
  predicate Chain(segs: seq<Vector>)
  {
    forall i :: 0 <= i < |segs| - 1 ==> Linked(segs, i)
  }

  /**
   * The direction guard: the requested direction is taken unless it would
   * reverse the snake, in which case the current direction stays.
   */
  function Steer(current: Direction, requested: Direction): (r: Direction)
    ensures r != Invert(current)
    ensures r == requested || r == current
    ensures r == current <== requested == Invert(current)
    ensures r == requested <== requested != Invert(current)
  {
    InvertSwap(current, requested);
    if current != Invert(requested) then requested else current
  }

  /** True when the cell the head moves to this tick holds the apple. */
  predicate Eats(segs: seq<Vector>, d: Direction, apple: Vector)
    requires |segs| >= 1
  {
    Step(d, segs[0]) == apple
  }

  /**
   * The segments after one move in direction `d`: the new head is prepended;
   * the tail is dropped unless the new head lands on the apple.
   */
  function Advance(segs: seq<Vector>, d: Direction, apple: Vector): (r: seq<Vector>)
    requires |segs| >= 1
    ensures |r| == if Eats(segs, d, apple) then |segs| + 1 else |segs|
    ensures r[0] == Step(d, segs[0])
    ensures forall i :: 1 <= i < |r| ==> r[i] == segs[i - 1]
  {
    var head := Step(d, segs[0]);
    var grown := [head] + segs;
    if head == apple then grown else grown[..|grown| - 1]
  }

  /** The head occupies the same cell as some segment of the body (index 1 on). */
  predicate HeadHitsBody(segs: seq<Vector>)
    requires |segs| >= 1
  {
    exists k :: 1 <= k < |segs| && segs[k] == segs[0]
  }

  /**
   * The verdict on the snake after its move: leaving the bounds is checked
   * first, then the head against the body; otherwise the tick reports whether
   * the apple was eaten.
   */
  function Judge(segs: seq<Vector>, ate: bool): (r: Outcome)
    requires |segs| >= 1
    ensures r == OutOfBounds <==> !IsInBounds(segs[0])
    ensures r.IsTerminal() <==> !IsInBounds(segs[0]) || HeadHitsBody(segs)
    ensures !r.IsTerminal() ==> (r == AteApple <==> ate)
  {
    if !IsInBounds(segs[0]) then OutOfBounds
    else if HeadHitsBody(segs) then SelfCollision
    else if ate then AteApple
    else Continue
  }

  // ---------------------------------------------------------------------
  // Properties of the rules

  /** A freshly laid out snake is a chain whose head was reached by moving in `d`. */
  lemma {:induction false} LayoutIsChain(head: Vector, d: Direction, n: nat)
    ensures Chain(Layout(head, d, n))
    ensures n >= 2 ==> Layout(head, d, n)[0] == Step(d, Layout(head, d, n)[1])
  {
    var r := Layout(head, d, n);
    forall i | 0 <= i < n - 1
      ensures Linked(r, i)
    {
      BehindSucc(head, d, i);
    }
    if n >= 2 {
      assert r[1] == Step(Invert(d), head) by { BehindSucc(head, d, 0); }
      InvertInvolution(d);
      StepUndo(Invert(d), head);
    }
  }

  /** The move keeps the snake a chain. */
  lemma AdvanceKeepsChain(segs: seq<Vector>, d: Direction, apple: Vector)
    requires |segs| >= 1 && Chain(segs)
    ensures Chain(Advance(segs, d, apple))
  {
    var r := Advance(segs, d, apple);
    forall i | 0 <= i < |r| - 1
      ensures Linked(r, i)
    {
      if i > 0 {
        assert r[i] == segs[i - 1] && r[i + 1] == segs[i];
        assert Linked(segs, i - 1);
      }
    }
  }

  /**
   * Which cells the new head may hit: when the apple is not eaten the old
   * tail has already been dropped, so moving onto it is safe; when the apple
   * is eaten every old segment still counts.
   */
  lemma HitsAfterAdvance(segs: seq<Vector>, d: Direction, apple: Vector)
    requires |segs| >= 1
    ensures var n := if Eats(segs, d, apple) then |segs| else |segs| - 1;
      HeadHitsBody(Advance(segs, d, apple)) <==>
      exists k :: 0 <= k < n && segs[k] == Step(d, segs[0])
  {
    var r := Advance(segs, d, apple);
    var n := if Eats(segs, d, apple) then |segs| else |segs| - 1;
    if HeadHitsBody(r) {
      var k :| 1 <= k < |r| && r[k] == r[0];
      assert segs[k - 1] == Step(d, segs[0]);
    }
    if exists k :: 0 <= k < n && segs[k] == Step(d, segs[0]) {
      var k :| 0 <= k < n && segs[k] == Step(d, segs[0]);
      assert r[k + 1] == r[0];
    }
  }

  /**
   * A snake of one segment never hits itself: without eating it has no body,
   * and after eating its only body segment is the cell it just left.
   */
  lemma SingleSegmentNeverHitsItself(segs: seq<Vector>, d: Direction, apple: Vector)
    requires |segs| == 1
    ensures Judge(Advance(segs, d, apple), Eats(segs, d, apple)) != SelfCollision
  {
  }

  /**
   * Because apples lie inside the grid, a head that eats the apple is in
   * bounds: the tick ends either with AteApple or with SelfCollision.
   */
  lemma EatingStaysInBounds(segs: seq<Vector>, d: Direction, apple: Apple)
    requires |segs| >= 1 && InGrid(apple.pos) && Eats(segs, d, apple.pos)
    ensures Judge(Advance(segs, d, apple.pos), true) in {AteApple, SelfCollision}
  {
  }

  /**
   * The guard is what keeps the head out of the neck: after a move in `d`, a
   * single steered move never re-enters the previous head cell.
   */
  lemma {:induction false} SteerAvoidsNeck(segs: seq<Vector>, d: Direction, requested: Direction)
    requires |segs| >= 2 && segs[0] == Step(d, segs[1])
    ensures Step(Steer(d, requested), segs[0]) != segs[1]
  {
    var e := Steer(d, requested);
    StepUndo(d, segs[1]);
    StepInjective(e, Invert(d), segs[0]);
  }

  /** Two accepted changes in one tick could reverse the snake: Right, then Up, then Left. */
  lemma TwoTurnsCanReverse()
    ensures Steer(Steer(Right, Up), Left) == Invert(Right)
  {
  }

  // ---------------------------------------------------------------------
  // The opening of the game: a five-segment snake at (10, 5) heading Right

  /** The initial snake. */
  lemma OpeningLayout()
    ensures Layout(Vector(10, 5), Right, 5)
      == [Vector(10, 5), Vector(9, 5), Vector(8, 5), Vector(7, 5), Vector(6, 5)]
  {
    assert Layout(Vector(6, 5), Right, 1) == [Vector(6, 5)];
    assert Layout(Vector(7, 5), Right, 2) == [Vector(7, 5)] + Layout(Vector(6, 5), Right, 1);
    assert Layout(Vector(8, 5), Right, 3) == [Vector(8, 5)] + Layout(Vector(7, 5), Right, 2);
    assert Layout(Vector(9, 5), Right, 4) == [Vector(9, 5)] + Layout(Vector(8, 5), Right, 3);
    assert Layout(Vector(10, 5), Right, 5) == [Vector(10, 5)] + Layout(Vector(9, 5), Right, 4);
  }

  /** One tick with the apple elsewhere: the head moves and the tail is dropped. */
  lemma OpeningMove(apple: Vector)
    requires apple != Vector(11, 5)
    ensures var s := [Vector(10, 5), Vector(9, 5), Vector(8, 5), Vector(7, 5), Vector(6, 5)];
      && Advance(s, Right, apple) == [Vector(11, 5), Vector(10, 5), Vector(9, 5), Vector(8, 5), Vector(7, 5)]
      && Judge(Advance(s, Right, apple), false) == Continue
  {
    var s := [Vector(10, 5), Vector(9, 5), Vector(8, 5), Vector(7, 5), Vector(6, 5)];
    var r := Advance(s, Right, apple);
    assert r[1] == s[0] && r[2] == s[1] && r[3] == s[2] && r[4] == s[3];
    assert !HeadHitsBody(r);
  }

  /** One tick onto the apple at (11, 5): the snake grows by one and keeps its tail. */
  lemma OpeningEat()
    ensures var s := [Vector(10, 5), Vector(9, 5), Vector(8, 5), Vector(7, 5), Vector(6, 5)];
      && Advance(s, Right, Vector(11, 5)) == [Vector(11, 5)] + s
      && Judge(Advance(s, Right, Vector(11, 5)), true) == AteApple
  {
    var s := [Vector(10, 5), Vector(9, 5), Vector(8, 5), Vector(7, 5), Vector(6, 5)];
    var r := Advance(s, Right, Vector(11, 5));
    assert r[1..] == s;
    assert !HeadHitsBody(r);
  }

  /** A head at the origin moving Left leaves the grid. */
  lemma CornerExit(segs: seq<Vector>, apple: Vector, ate: bool)
    requires |segs| >= 1 && segs[0] == Vector(0, 0)
    ensures Judge(Advance(segs, Left, apple), ate) == OutOfBounds
  {
  }

  /**
   * Eating and biting in the same tick: the apple lies on the body, the head
   * moves onto it, the tail is kept and the head meets the body.
   */
  lemma EatAndBite()
    ensures var s := [Vector(1, 1), Vector(2, 1), Vector(2, 2), Vector(1, 2), Vector(0, 2)];
      && Eats(s, Down, Vector(1, 2))
      && Judge(Advance(s, Down, Vector(1, 2)), true) == SelfCollision
  {
    var s := [Vector(1, 1), Vector(2, 1), Vector(2, 2), Vector(1, 2), Vector(0, 2)];
    var r := Advance(s, Down, Vector(1, 2));
    assert r[4] == r[0];
  }

  /** A reversal request is ignored: moving Right, a Left request keeps Right. */
  lemma ReversalRejected()
    ensures Steer(Right, Left) == Right
    ensures Steer(Right, Up) == Up
  {
  }
}
