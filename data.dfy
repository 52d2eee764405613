/** The per-turn board snapshot the move decision reads: the `Move` enumeration, the snakes and
    the move request, as plain values. */
module Data {
  import opened Int32

  /** Java `null` for a lookup or a heuristic that finds nothing. */
  datatype Option<T> = None | Some(value: T)

  /** The four directions; the screen's y axis grows downwards. */
  datatype Move = Up | Down | Left | Right

  /** A grid cell (x, y). */
  type Coord = (i32, i32)

  /** A snake: its id, its display name, its body from head (index 0) to tail, and the size
      the request reports for it (an input in its own right, not derived from the body). */
  datatype Snake = Snake(id: string, name: string, coords: seq<Coord>, size: i32)

  /** One turn's request: board size, the id of our own snake, every snake on the board
      (ours included) and the food cells. */
  datatype MoveRequest = MoveRequest(width: i32, height: i32, you: string, snakes: seq<Snake>, food: seq<Coord>)

  /** The unit offset of a move. */
  function Delta(m: Move): (d: (int, int))
    ensures d.0 * d.0 + d.1 * d.1 == 1
  {
    match m
    case Up => (0, -1)
    case Down => (0, 1)
    case Left => (-1, 0)
    case Right => (1, 0)
  }

  /** The cell a head at `c` moves to, computed in Java `int` arithmetic. */
  function Step(c: Coord, m: Move): Coord
  {
    (Wrap(c.0 as int + Delta(m).0), Wrap(c.1 as int + Delta(m).1))
  }
}
