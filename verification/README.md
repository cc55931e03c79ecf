# Battlesnake starter: the `/move` decision

This project models the move decision of a Battlesnake starter bot written in
Java (`Snake.Handler.move` and `Snake.Handler.isInBounds`). On every turn the
handler reads the board width and height and the snake's own body (a list of
`{x, y}` segments, head first). It then looks only at the head. It tests the
four neighbours of the head against the board rectangle, and answers with the
first neighbour that is on the board, trying right, down, left and up in that
order. If none of the four is on the board, the response map has no `"move"`
entry.

The decision does not avoid the snake's own body or any other snake, and it
does no path search. When no neighbour of the head is on the board, it emits
no move at all rather than a default direction.

Modules, one per concept:

- `Wrappers` (`wrappers.dfy`): `Option` and `Result`.
- `JavaInt` (`java_int.dfy`): Java's 32-bit `int` and its wrap-around addition. The head
  coordinates and the board size are `int`s, and `xHead + 1` / `xHead - 1` wrap.
- `Board` (`board.dfy`): body segments (`Cell`), the directions with their deltas
  (Right (+1,0), Down (0,+1), Left (-1,0), Up (0,-1)), `isInBounds`, and the handler's
  per-direction booleans, whose contract shows the wrap-around never changes an in-bounds verdict.
- `Decision` (`decision.dfy`): the if/else-if chain of `move`, a reference definition
  (`FirstFit`, the first fitting direction of a list), and the properties that connect them.
- `Handler` (`handler.dfy`): the response map, the direction tokens, and the
  empty-body error.

Every member is a pure function of its arguments, so the decision is
deterministic: no clock, randomness or state is involved.

## Model

| member | source | states |
|---|---|---|
| JavaInt.Wrap | src/main/java/io/battlesnake/starter/Snake.java:187-190 | the result is a 32-bit int congruent to the input modulo 2^32, and equal to it when it already fits |
| JavaInt.Add | src/main/java/io/battlesnake/starter/Snake.java:187-190 | Java `int` addition: the exact sum when it fits, otherwise the sum minus or plus 2^32 |
| Board.InBounds | src/main/java/io/battlesnake/starter/Snake.java:205-211 | a cell is in bounds if and only if 0 <= x < width and 0 <= y < height |
| Board.Open | src/main/java/io/battlesnake/starter/Snake.java:187-190 | the four booleans `right`, `down`, `left`, `up`, computed with wrapping `int` arithmetic (`xHead + 1`, `xHead - 1`, ...), are each true exactly when the true neighbour cell in that direction is on the board |
| Decision.FirstFit | src/main/java/io/battlesnake/starter/Snake.java:192-199 | reference definition: returns the index of the first direction in a list whose neighbour is on the board, with all earlier ones off the board, or None exactly when no direction of the list fits |
| Decision.ChooseMove | src/main/java/io/battlesnake/starter/Snake.java:184-200 | a chosen direction points to a neighbour of the head that is on the board; no direction is chosen exactly when none of the four neighbours is on the board |
| Decision.ChooseMoveIsFirstFit | src/main/java/io/battlesnake/starter/Snake.java:187-199 | the decision equals the first fitting direction of the priority list right, down, left, up |
| Decision.PriorityOrder | src/main/java/io/battlesnake/starter/Snake.java:187-199 | Right is chosen iff its neighbour fits; Down iff Right does not fit and Down does; Left iff Right and Down do not and Left does; Up iff only the other three do not and Up does |
| Decision.RightWhenRoom | src/main/java/io/battlesnake/starter/Snake.java:187-193 | with the head on the board and x+1 < width, the move is Right regardless of the rest of the input |
| Decision.EmittedIffRoomToMove | src/main/java/io/battlesnake/starter/Snake.java:187-202 | for a head on the board, a move is emitted if and only if width >= 2 or height >= 2 |
| Decision.HeadOnly | src/main/java/io/battlesnake/starter/Snake.java:184-190 | two bodies with the same head get the same decision; segments after index 0 are ignored |
| Handler.DirName | src/main/java/io/battlesnake/starter/Snake.java:192-199 | the tokens "right", "down", "left", "up" put under "move"; its contract is the round-trip stated by `Handler.ParseDirName` |
| Handler.ParseDir | src/main/java/io/battlesnake/starter/Snake.java:192-199 | reading a token back gives a direction whose token it is, and fails exactly on strings other than the four tokens |
| Handler.ParseDirName | src/main/java/io/battlesnake/starter/Snake.java:192-199 | every direction's token reads back as that direction and is one of "right", "down", "left", "up" |
| Handler.Move | src/main/java/io/battlesnake/starter/Snake.java:159-203 | an empty body is an error (reading element 0 throws); otherwise the response has no key but "move", has "move" exactly when some neighbour of the head is on the board (equivalently, when the priority list right, down, left, up has a fitting direction), and the token put there is that of the first fitting direction in that order, whose neighbour is on the board |
| Handler.MoveIsOneOfFour | src/test/java/io/battlesnake/starter/SnakeTest.java:52-53 | for a head on a board of more than one cell, the response holds a "move" that is one of the four tokens |
| Handler.NoMoveOnSingleCellBoard | src/main/java/io/battlesnake/starter/Snake.java:192-202 | on a 1x1 board with the head on it, the response map is empty |

## Left out

- JSON extraction (`Snake.java:161-173`): the body is taken as an already extracted sequence of `(x, y)` Java `int` pairs, head first. Missing fields and Jackson's conversion of out-of-range numbers are not modelled.
- The game id and the `System.out.println` debugging output (`Snake.java:161`, `175-182`): output only, with no effect on the response.
- `process` (`Snake.java:69-92`): URI dispatch, logging, and the handler that turns any exception into a `null` response. The empty-body exception is modelled as `EmptyBody`; what `process` does with it is not.
- `main` (`Snake.java:35-50`): port configuration and HTTP routing.
- `ping`, `start` and `end` (`Snake.java:101-103`, `143-147`, `219-222`): they return constant maps.
- `getJsonData` (`Snake.java:105-115`): it calls `JsonNode.get` as if it were static and has no return statement, so it does not compile and has no behaviour to model.
- `tests/Move.java`: a driver that reads a fixture file and calls `move`; file I/O only.
- The test fixture `fixtures/move.json` is not part of this model. `MoveIsOneOfFour` states the condition under which the test's assertions hold, not the fixture's contents.
