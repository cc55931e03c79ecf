/**
 * The per-turn move decision of the `/move` handler: look at the head (the
 * first body segment), test its four neighbours against the board, and take
 * the first one that is on the board in the fixed order right, down, left, up.
 * Nothing else on the board, not even the snake's own body, is consulted.
 */
module Decision {
  import opened Wrappers
  import opened JavaInt
  import opened Board

  /** The order in which the handler tries the directions. */
  const Priority: seq<Dir> := [Right, Down, Left, Up]

  /** True when the neighbour of `c` in direction `d` lies on the board. */
  predicate Fits(c: Cell, d: Dir, width: Int32, height: Int32)
  {
    InBounds(Target(c, d).0, Target(c, d).1, width, height)
  }

  /**
   * Reference definition of "first direction in `ds` whose neighbour lies on
   * the board": the index of that direction, or None when there is none.
   */
  function FirstFit(ds: seq<Dir>, c: Cell, width: Int32, height: Int32): (r: Option<nat>)
    ensures r.Some? ==> r.value < |ds| && Fits(c, ds[r.value], width, height)
    ensures r.Some? ==> forall j :: 0 <= j < r.value ==> !Fits(c, ds[j], width, height)
    ensures r.None? <==> forall j :: 0 <= j < |ds| ==> !Fits(c, ds[j], width, height)
    decreases |ds|
  {
    if |ds| == 0 then None
    else if Fits(c, ds[0], width, height) then Some(0)
    else
      match FirstFit(ds[1..], c, width, height)
      case None => None
      case Some(i) => Some(i + 1)
  }

  /**
   * The decision of `move`: four Java booleans computed with `int`
   * arithmetic, then an if/else-if chain. The head is `body[0]`.
   */
  function ChooseMove(body: seq<Cell>, width: Int32, height: Int32): (r: Option<Dir>)
    requires |body| >= 1
    ensures r.Some? ==> Fits(body[0], r.value, width, height)
    ensures r.None? <==> forall d :: !Fits(body[0], d, width, height)
  {
    var head := body[0];
    var right := Open(head, Right, width, height);
    var down := Open(head, Down, width, height);
    var left := Open(head, Left, width, height);
    var up := Open(head, Up, width, height);
    if right then assert Fits(head, Right, width, height); Some(Right)
    else if down then assert Fits(head, Down, width, height); Some(Down)
    else if left then assert Fits(head, Left, width, height); Some(Left)
    else if up then assert Fits(head, Up, width, height); Some(Up)
    else None
  }

  /** The decision is exactly "the first fitting direction of `Priority`". */
  lemma ChooseMoveIsFirstFit(body: seq<Cell>, width: Int32, height: Int32)
    requires |body| >= 1
    ensures ChooseMove(body, width, height)
         == match FirstFit(Priority, body[0], width, height)
            case None => None
            case Some(i) => Some(Priority[i])
  {
  }

  /**
   * Each direction is chosen exactly when its neighbour is on the board and
   * every direction ahead of it in the order right, down, left, up is not.
   */
  lemma PriorityOrder(body: seq<Cell>, width: Int32, height: Int32)
    requires |body| >= 1
    ensures ChooseMove(body, width, height) == Some(Right)
        <==> Fits(body[0], Right, width, height)
    ensures ChooseMove(body, width, height) == Some(Down)
        <==> !Fits(body[0], Right, width, height) && Fits(body[0], Down, width, height)
    ensures ChooseMove(body, width, height) == Some(Left)
        <==> !Fits(body[0], Right, width, height) && !Fits(body[0], Down, width, height)
             && Fits(body[0], Left, width, height)
    ensures ChooseMove(body, width, height) == Some(Up)
        <==> !Fits(body[0], Right, width, height) && !Fits(body[0], Down, width, height)
             && !Fits(body[0], Left, width, height) && Fits(body[0], Up, width, height)
  {
  }

  /** With room to the right of the head, the move is Right whatever the rest of the input is. */
  lemma RightWhenRoom(body: seq<Cell>, width: Int32, height: Int32)
    requires |body| >= 1
    requires InBounds(body[0].x, body[0].y, width, height)
    requires body[0].x + 1 < width
    ensures ChooseMove(body, width, height) == Some(Right)
  {
  }

  /**
   * For a head on the board, a move is emitted exactly when the board has
   * more than one cell; on a 1x1 board the response has no move.
   */
  lemma EmittedIffRoomToMove(body: seq<Cell>, width: Int32, height: Int32)
    requires |body| >= 1
    requires InBounds(body[0].x, body[0].y, width, height)
    ensures ChooseMove(body, width, height).Some? <==> width >= 2 || height >= 2
  {
  }

  /** Only the head matters: body segments after index 0 are ignored. */
  lemma HeadOnly(body: seq<Cell>, other: seq<Cell>, width: Int32, height: Int32)
    requires |body| >= 1 && |other| >= 1
    requires body[0] == other[0]
    ensures ChooseMove(body, width, height) == ChooseMove(other, width, height)
  {
  }
}
