# Snake game engine — a Dafny model

This project models the game-state engine of a small grid snake game written in
Rust (`src/main.rs`). The game has a fixed 80 × 60 grid: an 800 × 600 pixel
window split into 10-pixel cells. A snake is a list of segment cells, head
first, plus a heading. An apple sits on one cell. On every tick the game
does three things:

1. It reads the keyboard. The first directional key is applied unless it would
   reverse the snake. Quit and Escape end the session.
2. It moves the snake. The stepped head is inserted at the front. If the head
   lands on the apple, the tail stays and a new apple is drawn; otherwise the
   tail is popped.
3. It ends the session when the head leaves the bounds or meets the body.

Modules:

- `Geometry` (`geometry.dfy`): the `Vector` cell type, the grid constants,
  component-wise addition, the apple range `InGrid` and the bounds check
  `IsInBounds`.
- `Directions` (`direction.dfy`): the four directions, their unit vectors
  (`Scalar`), `Invert`, and the one-cell `Step`.
- `Rules` (`rules.dfy`): the rules as pure functions. `Layout` gives the
  segments of a new snake. `Steer` is the direction guard. `Advance` is the
  move of one tick and `Judge` its verdict. Lemmas about them include the
  concrete opening scenarios of the game.
- `Input` (`input.dfy`): the events of one tick, abstracted to
  quit / key-down / other, and `Scan`, the rule that the first actionable
  event wins.
- `Snakes` (`snake.dfy`): the `Snake` class. It keeps `direction` and
  `segments` as mutable fields. Its constructor lays the segments out with a
  loop. `Turn` and `HandleEvents` update the direction. `BitesItself` is the
  early-exit scan of the body. `Tick` is the tick. It is extracted from the
  main loop and updates `segments` in place. Each method is proved against
  the matching function in `Rules` or `Input`.

The object invariant `Snake.Valid()` says the snake has a head and its
segments form an edge-connected chain. The constructor establishes it for
every length of at least 1, and `Tick` preserves it.

Three behaviours of the code are kept as written:

- The bounds check is inclusive at the top. `x > 80` and `y > 60` are the
  failing comparisons, so the column x = 80 and the row y = 60 still count as
  in bounds, one cell beyond the visible grid. Apples are drawn from
  [0, 80) × [0, 60). `Geometry.BoundsAdmitOuterEdge` shows the gap.
- A tick can eat the apple and end the game in the same step. The apple may
  lie on the body; eating keeps the tail, and the head then meets the body.
  `Tick` reports `SelfCollision` in that case and still hands back the
  respawned apple (`Rules.EatAndBite`).
- The event scan stops at the first directional key, quit event or Escape.
  The model says only that later events of that tick do not affect the
  result. Whether the event queue keeps them for the next tick is not part of
  this model.

## Model

| member | source | states |
|---|---|---|
| `Geometry.GridSize` | src/main.rs:14-22 | the grid is the window size divided by the cell size: 80 by 60 cells |
| `Geometry.Add` | src/main.rs:51-59 | vector addition is component-wise (its contract is the definition; the laws callers rely on are in `Geometry.AddLaws`) |
| `Geometry.AddLaws` | src/main.rs:51-59 | addition is associative and commutative, and (0, 0) is its identity; with `ScalarsCancel` these give `StepUndo` |
| `Geometry.IsInBounds` | src/main.rs:151-161 | a cell passes the bounds check exactly when 0 <= x <= 80 and 0 <= y <= 60 (upper bounds inclusive); every apple cell passes it |
| `Geometry.BoundsAdmitOuterEdge` | src/main.rs:151-161 | (80, 0) and (0, 60) pass the bounds check though no apple can be drawn there; (81, 0) and (-1, 0) fail it |
| `Directions.Scalar` | src/main.rs:124-131 | each direction's displacement has exactly one non-zero component, and it is 1 or -1 |
| `Directions.Invert` | src/main.rs:133-140 | the inverse of a direction is a different direction |
| `Directions.Step` | src/main.rs:143-149 | stepping Up gives (x, y - 1), Down (x, y + 1), Left (x - 1, y), Right (x + 1, y); the new cell shares an edge with the old one |
| `Directions.InvertInvolution` | src/main.rs:133-140 | inverting twice gives the original direction |
| `Directions.ScalarsCancel` | src/main.rs:9-12 | the displacements of a direction and of its inverse sum to (0, 0) |
| `Directions.InvertSwap` | src/main.rs:216 | `current == invert(requested)` holds exactly when `requested == invert(current)` |
| `Directions.StepUndo` | src/main.rs:143-149 | a step followed by a step in the inverse direction returns to the starting cell |
| `Directions.StepInjective` | src/main.rs:143-149 | steps in two different directions from one cell reach different cells |
| `Rules.Layout` | src/main.rs:82-98 | a new snake of length n has exactly n segments, and segment i is the head plus i times the displacement of the inverted direction |
| `Rules.LayoutIsChain` | src/main.rs:83-92 | a new snake's segments form an edge-connected chain, and its head is one step in the initial direction from segment 1 |
| `Rules.Steer` | src/main.rs:216-218 | the guard keeps the current direction when the request is its inverse and takes the request otherwise; the result is never the inverse of the current direction |
| `Rules.Advance` | src/main.rs:262-267 | after a move the head is the stepped old head and the rest is the old segments; the length grows by one when the apple is eaten and is unchanged otherwise (the last old segment is dropped) |
| `Rules.Judge` | src/main.rs:268-275 | the tick is OutOfBounds exactly when the new head fails the bounds check; it ends the game exactly when the head is out of bounds or meets a body segment; otherwise it reports AteApple exactly when the apple was eaten |
| `Rules.AdvanceKeepsChain` | src/main.rs:262-267 | a move keeps the segments an edge-connected chain |
| `Rules.HitsAfterAdvance` | src/main.rs:262-275 | after a move without eating, the head meets the body exactly when it stepped onto an old segment other than the old tail; after eating, onto any old segment |
| `Rules.SingleSegmentNeverHitsItself` | src/main.rs:271-275 | a one-segment snake never ends a tick with SelfCollision, whether it eats or not: the head is not compared with itself, and after eating the only body segment is the cell just left |
| `Rules.EatingStaysInBounds` | src/main.rs:263-270 | since apples lie in [0, 80) x [0, 60), a tick that eats the apple ends as AteApple or SelfCollision, never OutOfBounds |
| `Rules.SteerAvoidsNeck` | src/main.rs:216-218 | after a move in d, one guarded direction change never steps the head back onto the segment behind it |
| `Rules.TwoTurnsCanReverse` | src/main.rs:216-220 | two accepted changes in one tick (Right, then Up, then Left) would reverse the snake, which the stop after one key prevents |
| `Rules.OpeningLayout` | src/main.rs:181-185 | the initial snake (head (10, 5), Right, length 5) is (10,5), (9,5), (8,5), (7,5), (6,5) |
| `Rules.OpeningMove` | src/main.rs:262-275 | with the apple not at (11, 5), the first tick gives (11,5), (10,5), (9,5), (8,5), (7,5) and Continue |
| `Rules.OpeningEat` | src/main.rs:262-275 | with the apple at (11, 5), the first tick gives (11, 5) followed by all five old segments, and AteApple |
| `Rules.CornerExit` | src/main.rs:268-270 | a head at (0, 0) moving Left ends the tick as OutOfBounds |
| `Rules.EatAndBite` | src/main.rs:262-275 | a tick can eat an apple lying on the body and end as SelfCollision |
| `Rules.ReversalRejected` | src/main.rs:222-228 | moving Right, a Left request keeps Right, and an Up request is taken |
| `Input.KeyDirection` | src/main.rs:210-251 | W or the up arrow requests Up, A or the left arrow Left, S or the down arrow Down, D or the right arrow Right; no other key requests a direction |
| `Input.Scan` | src/main.rs:205-260 | the scan of one tick's events never yields the inverse of the current direction, and a changed direction is one that some key event requested |
| `Input.ScanIdle` | src/main.rs:205-260 | when no event is a quit event, Escape or a directional key, the direction is kept |
| `Input.ScanStopsAtFirstKey` | src/main.rs:210-251 | the first directional key, guarded, decides the direction, whatever follows it in the same tick (a later quit event included) |
| `Input.ScanQuits` | src/main.rs:207-209 | a quit event or Escape before any directional key ends the session |
| `Snakes.Snake.constructor` | src/main.rs:82-98 | the constructor's loop builds exactly `Layout(head, direction, length)` and sets the direction; the snake is valid exactly when length >= 1 |
| `Snakes.Snake.Head` | src/main.rs:100-102 | the head is segment 0, the cell the tick steps from; as an accessor its contract is that index |
| `Snakes.Snake.Body` | src/main.rs:104-106 | the head followed by the body is the whole segment list |
| `Snakes.Snake.Turn` | src/main.rs:216-218 | the new direction is `Steer(old direction, requested)` |
| `Snakes.Snake.HandleEvents` | src/main.rs:205-260 | the loop over events returns quit exactly when `Scan` says Exit; otherwise it leaves the direction `Scan` gives; on quit the direction is unchanged |
| `Snakes.Snake.BitesItself` | src/main.rs:271-275 | the early-exit loop reports a hit exactly when the head equals some segment at index 1 or later |
| `Snakes.Snake.Tick` | src/main.rs:262-275 | the tick keeps the snake valid. It sets the segments to `Advance` of the old ones and keeps the direction. It returns the respawned apple if the head landed on the apple and the old apple otherwise, so the apple stays in the grid. Its outcome is `Judge` of the new segments |
| `Snakes.NewGameSnake` | src/main.rs:181-185 | the session starts with a valid snake heading Right at (10,5), (9,5), (8,5), (7,5), (6,5) |
| `Snakes.OpeningTick` | src/main.rs:189-275 | the first tick of a session, with no input and the apple not at (11, 5), reports Continue and keeps the apple |

## Left out

- Rendering (src/main.rs:164-201): the window, the canvas, colours, clearing, filling rectangles and presenting go through a foreign graphics library. The conversion of a cell to a drawing rectangle (src/main.rs:45-49) is left out with it; its top-left pixel is (x * 10, y * 10).
- Frame pacing (src/main.rs:203): the sleep of 1/30 s between frames is timing, not logic.
- Event polling (src/main.rs:205-215): the event pump and key codes are library calls. They are abstracted to a list of `Event` values per tick. The panic of `keycode.unwrap()` on a key event without a key code is not modelled. Nor is what the queue does with events after the scan stops.
- Random apple placement (src/main.rs:35-42): the random generator is replaced by the `respawn` parameter of `Snake.Tick`. Its precondition `InGrid(respawn)` is the range the generator draws from.
- The outer game loop (src/main.rs:189-276): it is not a method of its own. Each iteration is rendering, then `HandleEvents`, then `Tick`, and the session ends on quit or on a terminal outcome.
- Integer widths: coordinates are `i32` and the length is `u32` in the source. The model uses unbounded integers and `nat`, so overflow in `Add` or in the constructor's loop for huge lengths is not modelled. In the game, coordinates stay between -1 and 81.
- `Vector::new`, `Segment::new` and `Apple::new` are plain datatype constructors here. A segment is represented by its cell.
