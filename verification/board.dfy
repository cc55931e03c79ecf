/**
 * The board geometry the move handler works with: body segments, the four
 * compass directions, and the rectangle-membership test `isInBounds`.
 */
module Board {
  import opened JavaInt

  /** One body segment, the `int[] {x, y}` pair read from the request. */
  datatype Cell = Cell(x: Int32, y: Int32)

  /** The four moves; y grows downwards, so `Down` adds one to y. */
  datatype Dir = Right | Down | Left | Up

  function Dx(d: Dir): int
  {
    match d
    case Right => 1
    case Left => -1
    case _ => 0
  }

  function Dy(d: Dir): int
  {
    match d
    case Down => 1
    case Up => -1
    case _ => 0
  }

  /** `isInBounds`: a cell lies on the board exactly when both coordinates are inside the rectangle. */
  function InBounds(x: int, y: int, width: int, height: int): (r: bool)
    ensures r <==> 0 <= x < width && 0 <= y < height
  {
    !(x < 0 || x >= width || y < 0 || y >= height)
  }

  /** The neighbour of `c` in direction `d`, in unbounded arithmetic. */
  function Target(c: Cell, d: Dir): (int, int)
  {
    (c.x + Dx(d), c.y + Dy(d))
  }

  /** The neighbour of `c` as the handler computes it, with Java `int` wrap-around. */
  function JavaTarget(c: Cell, d: Dir): (Int32, Int32)
  {
    (Add(c.x, Dx(d)), Add(c.y, Dy(d)))
  }

  /**
   * The handler's boolean for direction `d`: is the neighbour, computed with
   * wrapping `int` arithmetic, in bounds? Wrap-around never changes the
   * verdict: since width and height are Java `int`s, a neighbour that
   * overflows past MAX or MIN is out of bounds both before and after wrapping.
   */
  function Open(c: Cell, d: Dir, width: Int32, height: Int32): (r: bool)
    ensures r <==> InBounds(Target(c, d).0, Target(c, d).1, width, height)
  {
    InBounds(JavaTarget(c, d).0, JavaTarget(c, d).1, width, height)
  }
}
