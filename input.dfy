// The per-tick reading of input events. The events of one tick are scanned
// in order; a quit event or the Escape key ends the session, and the first
// directional key is passed through the direction guard and ends the scan.
// Events after it are not looked at during this tick.
module Input {
  import opened Directions
  import opened Rules

  datatype Option<T> = None | Some(value: T)

  /** The keys the game reacts to; every other key is `OtherKey`. */
  datatype Key = W | A | S | D | ArrowUp | ArrowLeft | ArrowDown | ArrowRight | Escape | OtherKey

  /** One event from the event queue, abstracted to what the game looks at. */
  datatype Event = Quit | KeyDown(key: Key) | OtherEvent

  /** The direction a key requests: W or the up arrow for Up, and so on. */
  function KeyDirection(k: Key): (r: Option<Direction>)
    ensures r == Some(Up) <==> k in {W, ArrowUp}
    ensures r == Some(Left) <==> k in {A, ArrowLeft}
    ensures r == Some(Down) <==> k in {S, ArrowDown}
    ensures r == Some(Right) <==> k in {D, ArrowRight}
  {
    match k
    case W => Some(Up)
    case ArrowUp => Some(Up)
    case A => Some(Left)
    case ArrowLeft => Some(Left)
    case S => Some(Down)
    case ArrowDown => Some(Down)
    case D => Some(Right)
    case ArrowRight => Some(Right)
    case Escape => None
    case OtherKey => None
  }

  /** An event that ends the scan: a quit event, Escape, or a directional key. */
  predicate Actionable(e: Event)
  {
    e.Quit? || (e.KeyDown? && (e.key == Escape || KeyDirection(e.key).Some?))
  }

  /** The result of scanning one tick's events. */
  datatype Poll = Exit | Carry(direction: Direction)

  /**
   * Scans `events` with the snake heading `current`: Exit on a quit event or
   * Escape; on the first directional key, the guarded direction; the current
   * direction when no event is actionable.
   */
  function Scan(events: seq<Event>, current: Direction): (r: Poll)
    ensures r.Carry? ==> r.direction != Invert(current)
    ensures r.Carry? && r.direction != current ==>
      exists i :: 0 <= i < |events| && events[i].KeyDown? &&
        KeyDirection(events[i].key) == Some(r.direction)
  {
    if events == [] then Carry(current)
    else
      match events[0]
      case Quit => Exit
      case KeyDown(k) =>
        if k == Escape then Exit
        else if KeyDirection(k).Some? then Carry(Steer(current, KeyDirection(k).value))
        else Scan(events[1..], current)
      case OtherEvent => Scan(events[1..], current)
  }

  /** Without an actionable event the direction is kept. */
  lemma {:induction false} ScanIdle(events: seq<Event>, current: Direction)
    requires forall i :: 0 <= i < |events| ==> !Actionable(events[i])
    ensures Scan(events, current) == Carry(current)
  {
    if events != [] {
      ScanIdle(events[1..], current);
    }
  }

  /**
   * Only the first actionable event counts: whatever follows a directional
   * key in the same tick, even a quit event, does not change the result.
   */
  lemma {:induction false} ScanStopsAtFirstKey(pre: seq<Event>, k: Key, post: seq<Event>, current: Direction)
    requires forall i :: 0 <= i < |pre| ==> !Actionable(pre[i])
    requires KeyDirection(k).Some?
    ensures Scan(pre + [KeyDown(k)] + post, current) == Carry(Steer(current, KeyDirection(k).value))
  {
    if pre != [] {
      assert (pre + [KeyDown(k)] + post)[1..] == pre[1..] + [KeyDown(k)] + post;
      ScanStopsAtFirstKey(pre[1..], k, post, current);
    }
  }

  /** A quit event or Escape before any directional key ends the session. */
  lemma {:induction false} ScanQuits(pre: seq<Event>, e: Event, post: seq<Event>, current: Direction)
    requires forall i :: 0 <= i < |pre| ==> !Actionable(pre[i])
    requires e == Quit || e == KeyDown(Escape)
    ensures Scan(pre + [e] + post, current) == Exit
  {
    if pre != [] {
      assert (pre + [e] + post)[1..] == pre[1..] + [e] + post;
      ScanQuits(pre[1..], e, post, current);
    }
  }
}
