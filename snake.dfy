// The snake as the game holds it: a direction and a growable list of
// segment positions, head first, updated in place once per tick.
module Snakes {
  import opened Geometry
  import opened Directions
  import opened Rules
  import opened Input

  class Snake {
    var direction: Direction
    var segments: seq<Vector>

    /** The snake has a head, and its segments form an edge-connected chain. */
    predicate Valid()
      reads this
    {
      |segments| >= 1 && Chain(segments)
    }

    /**
     * Lays out `length` segments from `headPos`, stepping each time in the
     * inverse of `direction`. A snake of length 0 has no head and is not valid.
     */
    constructor (headPos: Vector, direction: Direction, length: nat)
      ensures this.direction == direction
      ensures segments == Layout(headPos, direction, length)
      ensures Valid() <==> length >= 1
    {
      var back := Invert(direction);
      var cur := headPos;
      var built: seq<Vector> := [];
      for i := 0 to length
        invariant |built| == i
        invariant forall j :: 0 <= j < i ==> built[j] == Behind(headPos, direction, j)
        invariant cur == Behind(headPos, direction, i)
      {
        built := built + [cur];
        BehindSucc(headPos, direction, i);
        cur := Step(back, cur);
      }
      this.direction := direction;
      segments := built;
      LayoutIsChain(headPos, direction, length);
    }

    /** The head segment. */
    function Head(): (h: Vector)
      reads this
      requires |segments| >= 1
      ensures h == segments[0]
    {
      segments[0]
    }

    /** Every segment but the head; the head followed by the body is the whole snake. */
    function Body(): (b: seq<Vector>)
      reads this
      requires |segments| >= 1
      ensures [Head()] + b == segments
    {
      segments[1..]
    }

    /** Applies the direction guard to one requested direction. */
    method Turn(requested: Direction)
      modifies this`direction
      ensures direction == Steer(old(direction), requested)
    {
      if direction != Invert(requested) {
        direction := requested;
      }
    }

    /**
     * Scans one tick's events, applying at most one direction change; returns
     * true when the session is to end.
     */
    method HandleEvents(events: seq<Event>) returns (quit: bool)
      modifies this`direction
      ensures quit <==> Scan(events, old(direction)) == Exit
      ensures !quit ==> direction == Scan(events, old(direction)).direction
      ensures quit ==> direction == old(direction)
    {
      var i := 0;
      while i < |events|
        invariant 0 <= i <= |events|
        invariant direction == old(direction)
        invariant Scan(events, direction) == Scan(events[i..], direction)
      {
        assert events[i..][1..] == events[i + 1..];
        match events[i] {
          case Quit =>
            return true;
          case KeyDown(k) =>
            if k == Escape {
              return true;
            }
            match KeyDirection(k) {
              case Some(d) =>
                Turn(d);
                return false;
              case None =>
            }
          case OtherEvent =>
        }
        i := i + 1;
      }
      return false;
    }

    /**
     * Compares the head with each body segment in turn, stopping at the
     * first match.
     */
    method BitesItself() returns (hit: bool)
      requires Valid()
      ensures hit <==> HeadHitsBody(segments)
    {
      var k := 1;
      while k < |segments|
        invariant 1 <= k <= |segments|
        invariant forall j :: 1 <= j < k ==> segments[j] != segments[0]
      {
        if segments[k] == segments[0] {
          return true;
        }
        k := k + 1;
      }
      return false;
    }

    /**
     * One tick: insert the stepped head at the front; if it lands on the
     * apple, keep the tail and replace the apple by one at `respawn`,
     * otherwise pop the tail; then judge the new head.
     */
    method Tick(apple: Apple, respawn: Vector) returns (outcome: Outcome, next: Apple)
      requires Valid() && InGrid(respawn)
      modifies this`segments
      ensures Valid()
      ensures segments == Advance(old(segments), direction, apple.pos)
      ensures next == if Eats(old(segments), direction, apple.pos) then Apple(respawn) else apple
      ensures InGrid(apple.pos) ==> InGrid(next.pos)
      ensures outcome == Judge(segments, Eats(old(segments), direction, apple.pos))
    {
      AdvanceKeepsChain(segments, direction, apple.pos);
      segments := [Step(direction, Head())] + segments;
      var ate := Head() == apple.pos;
      if ate {
        next := Apple(respawn);
      } else {
        next := apple;
        segments := segments[..|segments| - 1];
      }
      if !IsInBounds(Head()) {
        return OutOfBounds, next;
      }
      var bites := BitesItself();
      if bites {
        return SelfCollision, next;
      }
      outcome := if ate then AteApple else Continue;
    }
  }

  /** The snake the session starts with: five segments from (10, 5), heading Right. */
  method NewGameSnake() returns (snake: Snake)
    ensures fresh(snake) && snake.Valid() && snake.direction == Right
    ensures snake.segments == [Vector(10, 5), Vector(9, 5), Vector(8, 5), Vector(7, 5), Vector(6, 5)]
  {
    snake := new Snake(Vector(10, 5), Right, 5);
    OpeningLayout();
  }

  /**
   * The session's first tick: no input, and the apple elsewhere than (11, 5).
   * The head moves to (11, 5), the tail cell (6, 5) is freed and the game goes on.
   */
  method OpeningTick(apple: Apple, respawn: Vector) returns (outcome: Outcome, next: Apple)
    requires apple.pos != Vector(11, 5) && InGrid(respawn)
    ensures outcome == Continue && next == apple
  {
    var snake := NewGameSnake();
    var quit := snake.HandleEvents([]);
    assert Scan([], Right) == Carry(Right);
    OpeningMove(apple.pos);
    outcome, next := snake.Tick(apple, respawn);
  }
}
