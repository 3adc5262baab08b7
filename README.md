# Snake on a toroidal board — a verified Dafny model

This project models the game-state core of a terminal Snake game
(`snake_game.py`, class `Game`). A snake moves one cell per tick on a
board that wraps around at every edge. It is steered by moves relative to
its heading (forward, left, right). Eating the pellet makes it grow by one
segment. The game ends on a collision with the snake's own body or when
the snake fills the board.

Files:

- `cells.dfy` (module `Cells`): board coordinates and the counting facts
  the game relies on. A board has exactly width × height cells. So a snake
  of distinct in-bounds segments that is shorter than that leaves a free
  cell, and one that is as long as that covers the whole board.
- `snake_game.dfy` (module `SnakeGame`): the headings `Dir` and relative
  moves `Step`, the heading table `Navigation`, the wrap-around move
  `NextCoord`, the initial layout, the free-cell enumeration behind pellet
  placement, and the class `Game`. `Game` has the fields `width` and
  `height` (immutable after construction), `snake` (head first), `pellet`
  and `prevDirection`, and the methods and queries of the source class.
- `snake_game_tests.dfy` (module `SnakeGameTests`): every scenario of
  `snake_game_tests.py` as a client method. Each scenario's expected
  outcome is asserted and follows from the contracts alone.

`Game.Valid()` is the invariant of a game still in progress:
- the board is at least 3 × 3;
- the snake has at least three segments;
- all segments are on the board and pairwise distinct;
- the pellet is on the board and not on the snake.

`Game.SnakeInvariant()` is the same invariant without the pellet clause.
A won game keeps `SnakeInvariant()` but not `Valid()`, because its final
pellet lies under the head.

Modelling notes:

- Python's `%` and Dafny's `%` agree when the divisor is positive, and the
  board sizes are always positive. So `NextCoord` and the initial layout
  use `%` as the source does. `//` on the positive sizes is Dafny's `/`.
- The deque becomes a `seq<Cell>` field. `appendleft` is `[next] + snake`
  and `pop` drops the last element.
- The `navigation` dictionary that the constructor stores is a constant
  table. It is modelled as the pure function `Navigation`, and its meaning
  is stated against an independent clockwise-rotation reference.
- `random.choice` is a nondeterministic choice (`:|`) among the
  comprehension's list of free cells.
- `sys.exit(1)` in the constructor becomes the outcome `Exit(1)` of
  `NewGame`. The constructor itself requires valid dimensions.
- A collision leaves the snake and the pellet unchanged, so `Valid()` still
  holds afterwards and `Step` may be called again, just as the source
  allows. After a win `Valid()` fails, so `Step` can no longer be called.
- Beyond the invariant, `Step` also preserves contiguity: every segment is
  a torus neighbour of the one behind it.

## Model

| member | source | states |
|---|---|---|
| `SnakeGame.Navigation` | snake_game.py:39-60 | The new heading is the old one turned clockwise by 0 quarter turns for FORWARD, 1 for RIGHT and 3 (one anticlockwise) for LEFT; the table is total over 4 headings × 3 moves |
| `SnakeGame.TurnsCancel` | snake_game.py:39-60 | LEFT followed by RIGHT, and RIGHT followed by LEFT, restore the original heading |
| `SnakeGame.NoReversal` | snake_game.py:39-60 | No single move turns the snake to the opposite heading; two LEFTs or two RIGHTs do |
| `SnakeGame.NextCoord` | snake_game.py:79-87 | Only the axis of the heading changes, and it is reduced into [0, width) or [0, height); a head on the board gives a next head on the board |
| `SnakeGame.NextCoordMovesOneCell` | snake_game.py:79-87 | From a cell on the board, the next head is the cell one unit along the heading (NORTH is y − 1), wrapping to the opposite edge when it leaves the board |
| `SnakeGame.NextCoordUndo` | snake_game.py:79-87 | Moving one cell in a heading and then one cell in the opposite heading returns to the starting cell |
| `SnakeGame.WrapsAtEdges` | snake_game.py:79-87 | WEST from x = 0 gives x = width − 1, EAST from x = width − 1 gives 0, NORTH from y = 0 gives height − 1, SOUTH from y = height − 1 gives 0 |
| `SnakeGame.InitialSnake` | snake_game.py:29-33 | Three segments, head at (width // 2, height // 2), each segment the east neighbour of the next, all on the board and distinct |
| `SnakeGame.NewGame` | snake_game.py:22-38 | Exits with status 1 exactly when width < 3 or height < 3; otherwise it starts a valid game with the initial snake, heading EAST and a free pellet |
| `SnakeGame.Game.constructor` | snake_game.py:22-38 | For width and height ≥ 3: the fields take the given sizes, the snake is the initial layout, heading EAST, the game is valid and the snake contiguous |
| `SnakeGame.FreeInColumn` | snake_game.py:65-70 | Lists exactly the cells of column x from row y down that are not on the snake, in increasing y |
| `SnakeGame.FreeFrom` | snake_game.py:65-70 | Lists exactly the free cells of columns x up to width − 1, in x-major then y order, as the comprehension enumerates them |
| `SnakeGame.AvailablePositions` | snake_game.py:65-70 | Contains exactly the in-bounds cells not on the snake, each once |
| `SnakeGame.AvailableWhenNotFull` | snake_game.py:118-121 | When the snake is shorter than width × height and on the board, the list of free cells is not empty, so the pellet can be placed |
| `SnakeGame.Game.GeneratePellet` | snake_game.py:62-71 | The chosen pellet is on the board and not on the snake |
| `SnakeGame.Game.GetNextCoord` | snake_game.py:73-87 | Sets the heading to the table's entry for the old heading and the move, and returns the head moved one cell in that new heading |
| `SnakeGame.Game.CheckCollision` | snake_game.py:89-94 | A collision means the cell is on a segment other than the tail; for a snake without duplicates this holds in both directions |
| `SnakeGame.CollisionIffOverlap` | snake_game.py:89-94 | In a running game, there is no collision exactly when the new head followed by the snake minus its tail has no repeated cell |
| `SnakeGame.Game.PrintSymbol` | snake_game.py:96-103 | 'o' exactly for the head, 'x' exactly for other snake cells, '@' exactly for the pellet when it is not under the snake, '.' otherwise |
| `SnakeGame.RenderShowsHeadOnce` | snake_game.py:96-103 | In a running game exactly one board cell is drawn 'o', the head |
| `SnakeGame.RenderShowsPelletOnce` | snake_game.py:96-103 | In a running game exactly one board cell is drawn '@', the pellet |
| `SnakeGame.RenderShowsWholeBody` | snake_game.py:96-103 | In a running game the number of board cells drawn 'x' is the snake's length minus one |
| `SnakeGame.Game.Step` | snake_game.py:105-126 | The heading turns even on a collision. A collision returns false and keeps snake and pellet. Eating the pellet prepends the new head and returns false (a win) exactly when the length reaches width × height. Otherwise the head is prepended and the tail dropped. A true result leaves a valid game; contiguity is preserved |
| `SnakeGame.PrependHead` | snake_game.py:116-124 | A free, in-bounds, adjacent new head in front of a well-formed body keeps it in bounds, duplicate-free and contiguous |
| `SnakeGame.ValidLeavesRoom` | snake_game.py:116-121 | In a running game the snake is shorter than width × height, so growth can at most fill the board |
| `SnakeGame.WinFillsBoard` | snake_game.py:116-120 | A snake of width × height distinct in-bounds segments covers every cell of the board |
| `Cells.FreeCellExists` | snake_game.py:65-71 | In-bounds segments fewer than width × height leave an in-bounds cell off the snake |
| `Cells.BoardCells` | snake_game.py:65-68 | The cells enumerated by the two ranges are exactly the in-bounds cells, and there are width × height of them |

## Left out

- Console output: the `print` calls in the constructor and in `step` and
  all of `display` are terminal I/O. Only the per-cell symbol choice
  (`PrintSymbol`) is modelled, returned as a `char`.
- `sys.exit(1)`: modelled as the `Exit(1)` outcome of `NewGame`, not as
  process termination.
- Uniformity of `random.choice`: the model only promises that the chosen
  pellet is a free in-bounds cell.
- Constant-time deque operations: the snake is a sequence value. Aliasing
  of the deque is not modelled.
- `main.py` (argument parsing, the interactive input with a timeout, the
  auto-navigation loops) is driver code and is not part of this model.
