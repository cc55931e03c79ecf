/**
 * The `/move` handler's response: a string map that holds a "move" entry
 * with the chosen direction's token, or no entry at all when no neighbour of
 * the head is on the board. The body list arrives already extracted from the
 * request, head first.
 */
module Handler {
  import opened Wrappers
  import opened JavaInt
  import opened Board
  import opened Decision

  /** The response map the handler returns. */
  type Response = map<string, string>

  /** Reading `body.get(0)` of an empty body list throws. */
  datatype MoveError = EmptyBody

  const MoveKey: string := "move"

  /** The direction tokens put into the response. */
  function DirName(d: Dir): string
  {
    match d
    case Right => "right"
    case Down => "down"
    case Left => "left"
    case Up => "up"
  }

  /** The inverse of `DirName`: reads a direction token back. */
  function ParseDir(s: string): (r: Option<Dir>)
    ensures r.Some? ==> DirName(r.value) == s
    ensures r.None? <==> s !in {"right", "down", "left", "up"}
  {
    if s == "right" then Some(Right)
    else if s == "down" then Some(Down)
    else if s == "left" then Some(Left)
    else if s == "up" then Some(Up)
    else None
  }

  /** Every direction's token reads back as that direction, so tokens are distinct. */
  lemma ParseDirName(d: Dir)
    ensures ParseDir(DirName(d)) == Some(d)
    ensures DirName(d) in {"right", "down", "left", "up"}
  {
  }

  /**
   * `move` from the extracted body list onwards: the head is the first
   * segment, and the decision fills in the "move" entry if it found a
   * direction.
   */
  function Move(body: seq<Cell>, width: Int32, height: Int32): (r: Result<Response, MoveError>)
    ensures r.Failure? <==> |body| == 0
    ensures r.Success? ==> r.value.Keys <= {MoveKey}
    ensures r.Success? ==> (MoveKey in r.value <==> exists d :: Fits(body[0], d, width, height))
    ensures r.Success? && MoveKey in r.value ==>
              ParseDir(r.value[MoveKey]).Some?
              && Fits(body[0], ParseDir(r.value[MoveKey]).value, width, height)
    ensures r.Success? ==> (MoveKey in r.value <==> FirstFit(Priority, body[0], width, height).Some?)
    ensures r.Success? && FirstFit(Priority, body[0], width, height).Some? ==>
              r.value[MoveKey] == DirName(Priority[FirstFit(Priority, body[0], width, height).value])
  {
    if |body| == 0 then Failure(EmptyBody)
    else
      match ChooseMove(body, width, height)
      case None => Success(map[])
      case Some(d) =>
        ChooseMoveIsFirstFit(body, width, height);
        Success(map[MoveKey := DirName(d)])
  }

  /**
   * The handler's test expectation: for a head on a board of more than one
   * cell, the response carries a move and it is one of the four tokens.
   */
  lemma MoveIsOneOfFour(body: seq<Cell>, width: Int32, height: Int32)
    requires |body| >= 1
    requires InBounds(body[0].x, body[0].y, width, height)
    requires width >= 2 || height >= 2
    ensures Move(body, width, height).Success?
    ensures MoveKey in Move(body, width, height).value
    ensures Move(body, width, height).value[MoveKey] in {"right", "down", "left", "up"}
  {
  }

  /** On a 1x1 board the response map is empty: no "move" entry is put. */
  lemma NoMoveOnSingleCellBoard(body: seq<Cell>, width: Int32, height: Int32)
    requires |body| >= 1
    requires width == 1 && height == 1
    requires InBounds(body[0].x, body[0].y, width, height)
    ensures Move(body, width, height) == Success(map[])
  {
  }
}
