# Battlesnake move decision, modelled in Dafny

This project models the per-turn decision of a Battlesnake agent (`RequestController.move`) and the helpers it uses. Each turn the agent gets a board snapshot: width, height, our snake's id, every snake's body from head to tail, and the food cells. It answers with one of UP, DOWN, LEFT and RIGHT plus a taunt. The decision has four steps:

- **Safety filter.** A target cell is *suicidal* if it hits a wall in the controller's own sense: `x < 0`, `x == width`, `y < 0` or `y == height`. It is also suicidal if it equals a body segment of any snake, ours included, other than that snake's last segment (the tail).
- **Candidate list.** The safe directions are collected in the fixed order UP (0,-1), DOWN (0,+1), LEFT (-1,0), RIGHT (+1,0).
- **Food heuristic.** The agent picks a random direction towards the *first* food cell. There is no pick when the head is already on that cell.
- **Selection.** The food pick is used if it is in the list. Otherwise a random element of the list is used. If nothing is safe, the list becomes `[DOWN]` and the taunt is `"Nooooooo!"`. Otherwise the taunt names the first opponent. With no opponent on the board the code fails at line 63 before it reaches this step (see "## Left out").

Files:

- `int32.dfy` (module `Int32`): Java's 32-bit `int` as a newtype `i32`. `Wrap` gives the wrap-around of `+` and `-`. `Abs` is `Math.abs`, which maps the most negative value to itself. The head ± 1 steps and the distance arithmetic use them, so the model keeps Java's overflow behaviour.
- `data.dfy` (module `Data`): the request classes as values. `Snake` has an id, a name, its body as `seq<(i32, i32)>` and a size. The size is an input field, not derived from the body. The module also has `MoveRequest`, the `Move` enumeration, `Option` for Java `null`, `Delta` and `Step`.
- `controller.dfy` (module `RequestController`): the controller.
  - The loops of the source are methods: the id searches, the size loop, the nested segment loop, the conditional appends, and the final pick. Each method is proved against a specification function: `FirstMatch`, `LastSize`, `Lethal`, `SafeMoves` and `FoodMoves`.
  - Lemmas give the meaning of those functions.
  - Each call to `ThreadLocalRandom.nextInt(n)` is an input `roll: nat` that yields `roll % n`. Every index below `n` is some roll's result, so a contract that holds for every roll holds for every random choice. With the rolls fixed, the decision is fully determined.

The model follows the code, including where it is narrower than the game's rules or than the names suggest:
- Battlesnake's board ends at `x = width - 1` and `y = height - 1`, so any `x >= width` is off the board. The code only tests `x == width`. `OnBoardWallTest` proves that the two tests agree for every neighbour of a head that is on the board.
- Food seeking targets the first food cell in the request, not the nearest one.
- Only one food direction is drawn. If that one is unsafe, the move is a random safe direction, even when another food direction is safe. `UnsafeFoodPickIgnoresOtherFoodDirection` and `UnsafeFoodPickDecision` exhibit such a board, with a distant opponent so that the code reaches the final pick. So `ChooseMove` promises a food direction only when every food direction is safe.
- The taunt names the first opponent whenever there is any, however many snakes are on the board.

## Model

| member | source | states |
|---|---|---|
| `Int32.Wrap` | src/main/java/com/battlesnake/RequestController.java:66-75 | a Java `int` result: the exact value when it fits in 32 bits, and the value shifted by 2^32 when one addition or subtraction overflows or underflows |
| `Int32.Abs` | src/main/java/com/battlesnake/RequestController.java:205-206 | `Math.abs` gives the magnitude of every `int` except the most negative one, which it returns unchanged |
| `Data.Delta` | src/main/java/com/battlesnake/RequestController.java:66-75 | each direction's offset is a unit step along exactly one axis |
| `RequestController.IsPositionSuicidal` | src/main/java/com/battlesnake/RequestController.java:176-202 | true exactly when the cell hits a wall by the `<0`/`==` tests, or equals some snake's segment at an index below its last |
| `RequestController.OnBoardWallTest` | src/main/java/com/battlesnake/RequestController.java:179-184 | for a head on the board, the `== width` / `== height` tests reject exactly the neighbour cells outside the board |
| `RequestController.CandidateMoves` | src/main/java/com/battlesnake/RequestController.java:65-77 | the candidate list is the ordered list of directions whose head+delta cell is not suicidal |
| `RequestController.SafeMovesSpec` | src/main/java/com/battlesnake/RequestController.java:65-77 | a direction is in the candidate list iff its target cell is not suicidal |
| `RequestController.SafeMovesOrdered` | src/main/java/com/battlesnake/RequestController.java:65-77 | the candidate list is strictly in UP, DOWN, LEFT, RIGHT order, so it holds each direction at most once |
| `RequestController.LeftEdgeExcludesLeft` | src/main/java/com/battlesnake/RequestController.java:72-74 | a head in column 0 never has LEFT as a candidate, whatever the snakes |
| `RequestController.SurroundedHasNoSafeMove` | src/main/java/com/battlesnake/RequestController.java:186-200 | a head whose four neighbours are all non-tail segments, of our own snake or of any other, has an empty candidate list; `ChooseMove`'s first ensures then gives DOWN with "Nooooooo!" |
| `RequestController.CoiledSnakeIsSurrounded` | src/main/java/com/battlesnake/RequestController.java:186-200 | a concrete board with a 9-segment snake at (5,5) and a distant opponent, where the four head neighbours are all our own non-tail segments |
| `RequestController.CoiledSnakeDecision` | src/main/java/com/battlesnake/RequestController.java:79-93 | on that board, which has an opponent so the code runs through line 63, the turn is DOWN with "Nooooooo!" for every pair of random draws |
| `RequestController.GetFood` | src/main/java/com/battlesnake/RequestController.java:125-136 | null exactly when the head equals the first food cell; otherwise the direction the random draw selects among those that point towards it |
| `RequestController.FoodPickReachesEveryChoice` | src/main/java/com/battlesnake/RequestController.java:133-135 | every direction the heuristic lists is the pick of some random draw, so modelling the draw as `roll % n` leaves no outcome out |
| `RequestController.FoodMovesSpec` | src/main/java/com/battlesnake/RequestController.java:127-131 | the heuristic's choices are empty iff head = food; LEFT iff head.x > food.x, RIGHT iff head.x < food.x, UP iff head.y > food.y, DOWN iff head.y < food.y; each choice brings the head one cell closer |
| `RequestController.FoodStraightAhead` | src/main/java/com/battlesnake/RequestController.java:125-136 | head (5,5), food (5,2) on a 10x10 board with a distant opponent: UP is the heuristic's only choice and it is safe |
| `RequestController.FoodAheadDecision` | src/main/java/com/battlesnake/RequestController.java:89-90 | on that board the decision is UP for every pair of random draws |
| `RequestController.UnsafeFoodPickIgnoresOtherFoodDirection` | src/main/java/com/battlesnake/RequestController.java:125-135 | a board with a distant opponent where the food directions are LEFT and UP, the first draw picks LEFT, which is unsafe, and the candidates are UP and RIGHT |
| `RequestController.UnsafeFoodPickDecision` | src/main/java/com/battlesnake/RequestController.java:89-93 | on that board, with draws 0 and 1, the move is RIGHT although UP is safe and points at the food, and the taunt names the opponent ("them's mother was a garden hose!") |
| `RequestController.ChooseMove` | src/main/java/com/battlesnake/RequestController.java:48-98 | no safe direction: DOWN with "Nooooooo!" whatever the draws. Otherwise the move is a safe direction whose target is not suicidal, and the taunt names the first opponent. The food pick is taken whenever it is safe; otherwise the move is the safe direction the second draw selects. If every food direction is safe, the move is one of them |
| `RequestController.GetMySnake` | src/main/java/com/battlesnake/RequestController.java:107-114 | returns the first snake whose id is ours, or null |
| `RequestController.GetOtherSnake` | src/main/java/com/battlesnake/RequestController.java:116-123 | returns the first snake whose id is not ours, or null |
| `RequestController.GetTheirSnake` | src/main/java/com/battlesnake/RequestController.java:138-146 | the same search as `getOtherSnake`, over the request |
| `RequestController.TwoPlayerLookups` | src/main/java/com/battlesnake/RequestController.java:107-123 | with our snake first and one opponent second, `getMySnake` finds ours and `getOtherSnake` finds the opponent |
| `RequestController.FirstMatchSpec` | src/main/java/com/battlesnake/RequestController.java:107-123 | the search yields null iff no snake matches, otherwise a matching snake with no match before it |
| `RequestController.AttackOrNot` | src/main/java/com/battlesnake/RequestController.java:148-164 | true iff the size of the last snake with our id exceeds the size of the last snake with another id, each taken as 0 when absent |
| `RequestController.LastSizeNone` | src/main/java/com/battlesnake/RequestController.java:151-159 | the size the loop keeps for one side is 0 when no snake is on that side |
| `RequestController.LastSizeLast` | src/main/java/com/battlesnake/RequestController.java:151-159 | otherwise it is the size of the last snake on that side, since later snakes overwrite earlier ones |
| `RequestController.LastSizeOfOnly` | src/main/java/com/battlesnake/RequestController.java:151-159 | when every snake on one side is the same snake, that side's size is its size |
| `RequestController.TwoPlayerSizes` | src/main/java/com/battlesnake/RequestController.java:148-164 | on a two-player board `attackOrNot` compares exactly our size and the opponent's |
| `RequestController.SumDistance` | src/main/java/com/battlesnake/RequestController.java:205-206 | `Math.abs` of the wrapped sum of the two wrapped offsets; with coordinates far from the `int` limits it is exactly abs(dx+dy) |
| `RequestController.CloserToFood` | src/main/java/com/battlesnake/RequestController.java:204-210 | as written: `!(ours > theirs)` over `SumDistance`, so two heads on the same cell always count as closer |
| `RequestController.CloserToFoodOnBoard` | src/main/java/com/battlesnake/RequestController.java:204-210 | with coordinates far from the `int` limits, `closerToFood` holds iff abs(dx+dy) for our head is at most abs(dx+dy) for the other head |
| `RequestController.CloserToFoodIsNotManhattan` | src/main/java/com/battlesnake/RequestController.java:205-208 | a concrete board where `closerToFood` says we are closer although our head is farther from the food |
| `RequestController.CloserToFoodManhattan` | src/main/java/com/battlesnake/RequestController.java:204-210 | the corrected comparison, `!(ours > theirs)` over the per-axis `Math.abs` sum; two heads on the same cell always count as closer |
| `RequestController.CloserToFoodManhattanOnBoard` | src/main/java/com/battlesnake/RequestController.java:204-210 | the corrected comparison, abs(dx)+abs(dy), is exactly the grid-distance comparison away from the `int` limits |
| `RequestController.AxisDistanceIsManhattan` | src/main/java/com/battlesnake/RequestController.java:205-206 | the corrected per-axis distance computed in Java `int` equals the grid distance when no step wraps |

## Findings

| source | as written | input that shows it | evidently intended | confidence | as-written member | corrected member |
|---|---|---|---|---|---|---|
| src/main/java/com/battlesnake/RequestController.java:205-206 | distance is `Math.abs(dx + dy)` | our head (4,6), other head (5,4), food (5,5): our value is 0 and theirs is 1, so it says we are closer, but we are 2 cells away and they are 1 | `Math.abs(dx) + Math.abs(dy)`, the grid distance | medium, not executed (the method is never called by `move`) | `RequestController.CloserToFoodIsNotManhattan` | `RequestController.CloserToFoodManhattanOnBoard` |

`CloserToFood` itself is modelled as written. `CloserToFoodManhattan` is the corrected comparison. Nothing else in the controller calls either one.

## Left out

- The `/start` and `/end` endpoints, the `StartResponse`/`MoveResponse` builders and the logger (lines 36-45, 95-97, 100-105): they are HTTP and JSON plumbing with no decision logic. `ChooseMove` returns the move and the taunt directly.
- The `com.battlesnake.data` classes (`Snake`, `MoveRequest`, `Move`) are not part of this model. They are represented as datatypes.
  - A coordinate is a pair, so the model assumes each Java `int[]` coordinate has at least two entries.
  - `getSize` is an input field.
- The `attackMove` computation at line 63 is not modelled. It depends on `getHead()`, whose type is not shown, and its result is never used.
- `ChooseMove`: on a board with no opponent, the source fails at line 63, because `getTheirSnake` returns null and `getHead()` is called on it. The model skips that line, so it returns a move with the taunt `"Boo!"` there.
- `ChooseMove`, `GetFood`, `CloserToFood`: the source's null and out-of-range failures become preconditions. These are: our snake missing (line 56), our body empty (line 56), the food list empty (line 127), and an empty head list in `closerToFood`.
- Randomness at lines 92 and 134 is a caller-supplied roll, so it only means "some element of the list". `ThreadLocalRandom`'s uniform distribution and its thread safety are not modelled.
- Snake names: Java may return `null` from `getName()`, which string concatenation prints as `"null"`. The model's name is always a string.
