// The Snake game state machine of snake_game.py: a snake that moves one
// cell per tick on a toroidal board, steered relative to its heading, and
// a pellet that makes it grow.
module SnakeGame {
  import opened Cells

  /** Absolute heading of the snake. */
  datatype Dir = North | East | South | West

  /** A move relative to the current heading. */
  datatype Step = Forward | Left | Right

  /** Position of a heading on the compass, clockwise from North. */
  function Clockwise(d: Dir): nat
  {
    match d
    case North => 0
    case East => 1
    case South => 2
    case West => 3
  }

  /** Quarter turns clockwise a relative move makes. */
  function QuarterTurns(s: Step): nat
  {
    match s
    case Forward => 0
    case Right => 1
    case Left => 3
  }

  /**
   * The fixed heading table the game builds once at construction:
   * Forward keeps the heading, Right turns clockwise, Left anticlockwise.
   */
  function Navigation(d: Dir, s: Step): (r: Dir)
    ensures Clockwise(r) == (Clockwise(d) + QuarterTurns(s)) % 4
  {
    match d
    case North => (match s case Forward => North case Left => West case Right => East)
    case East => (match s case Forward => East case Left => North case Right => South)
    case South => (match s case Forward => South case Left => East case Right => West)
    case West => (match s case Forward => West case Left => South case Right => North)
  }

  /** Turning left and then right, or right and then left, restores the heading. */
  lemma TurnsCancel(d: Dir)
    ensures Navigation(Navigation(d, Left), Right) == d
    ensures Navigation(Navigation(d, Right), Left) == d
  {
  }

  /** The heading pointing the other way. */
  function Opposite(d: Dir): (r: Dir)
    ensures Clockwise(r) == (Clockwise(d) + 2) % 4
  {
    match d
    case North => South
    case East => West
    case South => North
    case West => East
  }

  /** No relative move reverses the snake: two quarter turns make the opposite heading. */
  lemma NoReversal(d: Dir, s: Step)
    ensures Navigation(d, s) != Opposite(d)
    ensures Navigation(Navigation(d, Left), Left) == Opposite(d)
    ensures Navigation(Navigation(d, Right), Right) == Opposite(d)
  {
  }

  /** Unit displacement of a heading; y grows downward, so North is -1. */
  function DeltaX(d: Dir): int
  {
    match d
    case East => 1
    case West => -1
    case _ => 0
  }

  function DeltaY(d: Dir): int
  {
    match d
    case South => 1
    case North => -1
    case _ => 0
  }

  /** Position v moved by delta (one of -1, 0, 1) on a cycle of n positions. */
  function Cyclic(v: int, delta: int, n: int): int
  {
    if v + delta == n then 0
    else if v + delta == -1 then n - 1
    else v + delta
  }

  lemma ModStep(v: int, delta: int, n: int)
    requires 0 <= v < n && -1 <= delta <= 1
    ensures (v + delta) % n == Cyclic(v, delta, n)
  {
    if v + delta == n {
      assert n % n == 0;
    } else if v + delta == -1 {
      assert (-1) % n == n - 1;
    } else {
      assert 0 <= v + delta < n;
    }
  }

  /**
   * The cell one step from `head` in heading `d` on the toroidal board.
   * Only the axis the heading moves along is reduced modulo the board's
   * size (Python's % and Dafny's % agree for a positive divisor).
   */
  function NextCoord(head: Cell, d: Dir, width: int, height: int): (r: Cell)
    requires width > 0 && height > 0
    ensures if DeltaX(d) == 0 then r.0 == head.0 else 0 <= r.0 < width
    ensures if DeltaY(d) == 0 then r.1 == head.1 else 0 <= r.1 < height
    ensures InBounds(head, width, height) ==> InBounds(r, width, height)
  {
    match d
    case North => (head.0, (head.1 - 1) % height)
    case East => ((head.0 + 1) % width, head.1)
    case South => (head.0, (head.1 + 1) % height)
    case West => ((head.0 - 1) % width, head.1)
  }

  /**
   * From a cell on the board, the next head is one unit away along the
   * heading, re-entering on the opposite edge when it leaves the board.
   */
  lemma NextCoordMovesOneCell(head: Cell, d: Dir, width: int, height: int)
    requires width > 0 && height > 0 && InBounds(head, width, height)
    ensures NextCoord(head, d, width, height)
         == (Cyclic(head.0, DeltaX(d), width), Cyclic(head.1, DeltaY(d), height))
  {
    ModStep(head.0, DeltaX(d), width);
    ModStep(head.1, DeltaY(d), height);
  }

  /** Moving one cell and then one cell back returns to the start. */
  lemma NextCoordUndo(c: Cell, d: Dir, width: int, height: int)
    requires width > 0 && height > 0 && InBounds(c, width, height)
    ensures NextCoord(NextCoord(c, d, width, height), Opposite(d), width, height) == c
  {
    var n := NextCoord(c, d, width, height);
    NextCoordMovesOneCell(c, d, width, height);
    NextCoordMovesOneCell(n, Opposite(d), width, height);
  }

  /** Leaving the board on one edge re-enters it on the opposite edge. */
  lemma WrapsAtEdges(x: int, y: int, width: int, height: int)
    requires InBounds((x, y), width, height)
    ensures NextCoord((0, y), West, width, height) == (width - 1, y)
    ensures NextCoord((width - 1, y), East, width, height) == (0, y)
    ensures NextCoord((x, 0), North, width, height) == (x, height - 1)
    ensures NextCoord((x, height - 1), South, width, height) == (x, 0)
  {
    NextCoordMovesOneCell((0, y), West, width, height);
    NextCoordMovesOneCell((width - 1, y), East, width, height);
    NextCoordMovesOneCell((x, 0), North, width, height);
    NextCoordMovesOneCell((x, height - 1), South, width, height);
  }

  /** Two cells are neighbours on the torus. */
  ghost predicate Adjacent(a: Cell, b: Cell, width: int, height: int)
    requires width > 0 && height > 0
  {
    exists d :: a == NextCoord(b, d, width, height)
  }

  /** Every segment is a neighbour of the segment behind it. */
  ghost predicate ContiguousBody(s: seq<Cell>, width: int, height: int)
    requires width > 0 && height > 0
  {
    forall i :: 0 <= i < |s| - 1 ==> Adjacent(s[i], s[i + 1], width, height)
  }

  /**
   * The starting snake: head at the centre, then the two cells west of it
   * (wrapping on a board three cells wide), so that it heads East.
   */
  function InitialSnake(height: int, width: int): (r: seq<Cell>)
    requires 3 <= width && 3 <= height
    ensures |r| == 3 && r[0] == (width / 2, height / 2)
    ensures r[0] == NextCoord(r[1], East, width, height)
    ensures r[1] == NextCoord(r[2], East, width, height)
    ensures AllInBounds(r, width, height) && NoDuplicates(r)
  {
    var x, y := width / 2, height / 2;
    assert 1 <= x < width - 1;
    assert (x - 1) % width == x - 1;
    assert (x - 2) % width == if x == 1 then width - 1 else x - 2;
    [(x, y), ((x - 1) % width, y), ((x - 2) % width, y)]
  }

  /** The free cells of column x from row y down, top to bottom. */
  function FreeInColumn(x: int, y: int, height: int, snake: seq<Cell>): (r: seq<Cell>)
    ensures forall c :: c in r <==> c.0 == x && y <= c.1 < height && c !in snake
    ensures forall i, j :: 0 <= i < j < |r| ==> r[i].1 < r[j].1
    decreases height - y
  {
    if y >= height then []
    else (if (x, y) in snake then [] else [(x, y)]) + FreeInColumn(x, y + 1, height, snake)
  }

  /** The free cells of columns x up to width - 1, column by column. */
  function FreeFrom(x: int, width: int, height: int, snake: seq<Cell>): (r: seq<Cell>)
    ensures forall c :: c in r <==> x <= c.0 < width && 0 <= c.1 < height && c !in snake
    ensures forall i, j :: 0 <= i < j < |r| ==> r[i].0 < r[j].0 || (r[i].0 == r[j].0 && r[i].1 < r[j].1)
    decreases width - x
  {
    if x >= width then []
    else
      var column := FreeInColumn(x, 0, height, snake);
      var rest := FreeFrom(x + 1, width, height, snake);
      assert forall i :: 0 <= i < |column| ==> column[i] in column;
      assert forall j :: 0 <= j < |rest| ==> rest[j] in rest;
      column + rest
  }

  /**
   * The candidate pellet positions: every in-bounds cell not on the snake,
   * listed x-major as the comprehension in the source enumerates them.
   */
  function AvailablePositions(snake: seq<Cell>, width: int, height: int): (r: seq<Cell>)
    ensures forall c :: c in r <==> InBounds(c, width, height) && c !in snake
    ensures NoDuplicates(r)
  {
    FreeFrom(0, width, height, snake)
  }

  /** With fewer segments than cells, there is somewhere to put a pellet. */
  lemma AvailableWhenNotFull(snake: seq<Cell>, width: int, height: int)
    requires 0 <= width && 0 <= height
    requires AllInBounds(snake, width, height) && |snake| < width * height
    ensures AvailablePositions(snake, width, height) != []
  {
    var free := FreeCellExists(snake, width, height);
    assert free in AvailablePositions(snake, width, height);
  }

  /** A new free, adjacent head in front of a well-formed body keeps it well-formed. */
  lemma PrependHead(body: seq<Cell>, next: Cell, width: int, height: int)
    requires width > 0 && height > 0
    requires AllInBounds(body, width, height) && NoDuplicates(body)
    requires InBounds(next, width, height) && next !in body
    ensures AllInBounds([next] + body, width, height) && NoDuplicates([next] + body)
    ensures |body| > 0 && Adjacent(next, body[0], width, height) && ContiguousBody(body, width, height)
        ==> ContiguousBody([next] + body, width, height)
  {
    var s := [next] + body;
    assert forall i :: 1 <= i < |s| ==> s[i] == body[i - 1];
  }

  /** The starting snake is contiguous and leaves room for a pellet. */
  lemma InitialSnakeFits(height: int, width: int)
    requires 3 <= width && 3 <= height
    ensures ContiguousBody(InitialSnake(height, width), width, height)
    ensures AvailablePositions(InitialSnake(height, width), width, height) != []
  {
    var s := InitialSnake(height, width);
    assert Adjacent(s[0], s[1], width, height);
    assert Adjacent(s[1], s[2], width, height);
    // The row below the snake is free.
    assert (0, height / 2 + 1) in AvailablePositions(s, width, height);
  }

  /** Outcome of asking for a new game: the process exits, or a game starts. */
  datatype Launch = Exit(status: int) | Started(game: Game)

  /** Game(height, width): refuses boards narrower or lower than three cells. */
  method NewGame(height: int, width: int) returns (r: Launch)
    ensures r.Exit? <==> width < 3 || height < 3
    ensures r.Exit? ==> r.status == 1
    ensures r.Started? ==> fresh(r.game) && r.game.Valid()
    ensures r.Started? ==> r.game.width == width && r.game.height == height
    ensures r.Started? ==> r.game.snake == InitialSnake(height, width) && r.game.prevDirection == East
  {
    if width < 3 || height < 3 {
      return Exit(1);
    }
    var game := new Game(height, width);
    return Started(game);
  }

  class Game {
    const width: int
    const height: int
    /** Segments head first, tail last. */
    var snake: seq<Cell>
    var pellet: Cell
    var prevDirection: Dir

    /** The snake's own invariant: distinct in-bounds segments, at least three. */
    ghost predicate SnakeInvariant()
      reads this
    {
      3 <= width && 3 <= height &&
      3 <= |snake| && AllInBounds(snake, width, height) && NoDuplicates(snake)
    }

    /** The invariant of a game still running: the pellet lies on a free cell. */
    ghost predicate Valid()
      reads this
    {
      SnakeInvariant() && InBounds(pellet, width, height) && pellet !in snake
    }

    ghost predicate Contiguous()
      reads this
      requires SnakeInvariant()
    {
      ContiguousBody(snake, width, height)
    }

    /** A game on a board of at least 3 by 3 cells. */
    constructor (height: int, width: int)
      requires 3 <= width && 3 <= height
      ensures this.width == width && this.height == height
      ensures snake == InitialSnake(height, width) && prevDirection == East
      ensures Valid() && Contiguous()
    {
      this.height := height;
      this.width := width;
      snake := [];
      snake := snake + [(width / 2, height / 2)];
      snake := snake + [((width / 2 - 1) % width, height / 2)];
      snake := snake + [((width / 2 - 2) % width, height / 2)];
      new;
      assert snake == InitialSnake(height, width);
      InitialSnakeFits(height, width);
      pellet := GeneratePellet();
      prevDirection := East;
    }

    /** A pellet on some free cell; which one is chosen is left open. */
    method GeneratePellet() returns (p: Cell)
      requires AvailablePositions(snake, width, height) != []
      ensures InBounds(p, width, height) && p !in snake
    {
      var availablePositions := AvailablePositions(snake, width, height);
      assert availablePositions[0] in availablePositions;
      p :| p in availablePositions;
    }

    /**
     * Turns the heading by `step` and gives the cell the head moves into.
     * The heading is updated whatever happens next.
     */
    method GetNextCoord(step: Step) returns (next: Cell)
      requires |snake| > 0 && width > 0 && height > 0
      modifies this`prevDirection
      ensures prevDirection == Navigation(old(prevDirection), step)
      ensures next == NextCoord(snake[0], prevDirection, width, height)
    {
      var head := snake[0];
      var nextDir := Navigation(prevDirection, step);
      prevDirection := nextDir;
      match nextDir
      case North => next := (head.0, (head.1 - 1) % height);
      case East => next := ((head.0 + 1) % width, head.1);
      case South => next := (head.0, (head.1 + 1) % height);
      case West => next := ((head.0 - 1) % width, head.1);
    }

    /** Whether moving the head to (x, y) hits a segment that stays put this tick. */
    function CheckCollision(x: int, y: int): (r: bool)
      reads this
      ensures r ==> |snake| > 0 && (x, y) in snake[..|snake| - 1]
      ensures NoDuplicates(snake) ==> (r <==> |snake| > 0 && (x, y) in snake[..|snake| - 1])
    {
      (x, y) in snake && (x, y) != snake[|snake| - 1]
    }

    /** The glyph drawn for cell (x, y). */
    function PrintSymbol(x: int, y: int): (r: char)
      reads this
      ensures r in {'o', 'x', '@', '.'}
      ensures r == 'o' <==> |snake| > 0 && (x, y) == snake[0]
      ensures r == 'x' <==> (x, y) in snake && (x, y) != snake[0]
      ensures r == '@' <==> (x, y) !in snake && (x, y) == pellet
    {
      if (x, y) in snake then
        if (x, y) == snake[0] then 'o' else 'x'
      else if (x, y) == pellet then '@'
      else '.'
    }

    /**
     * One tick: turn, then collide, grow (and possibly win) or move.
     * Returns false on a collision or on a win.
     */
    method Step(step: Step := Forward) returns (running: bool)
      requires Valid()
      modifies this
      ensures prevDirection == Navigation(old(prevDirection), step)
      ensures SnakeInvariant()
      ensures var next := NextCoord(old(snake)[0], prevDirection, width, height);
        if old(CheckCollision(next.0, next.1)) then
          !running && snake == old(snake) && pellet == old(pellet)
        else if next == old(pellet) then
          snake == [next] + old(snake) &&
          (running <==> |snake| < width * height) &&
          (!running ==> pellet == old(pellet))
        else
          running && snake == [next] + old(snake)[..|old(snake)| - 1] && pellet == old(pellet)
      ensures running ==> Valid()
      ensures !running ==> Valid() || |snake| == width * height
      ensures old(Contiguous()) ==> Contiguous()
    {
      ghost var before := snake;
      var next := GetNextCoord(step);
      assert Adjacent(next, before[0], width, height);

      if CheckCollision(next.0, next.1) {
        return false;
      }

      if next == pellet {
        LengthBelowBoard(before, pellet, width, height);
        PrependHead(before, next, width, height);
        snake := [next] + snake;
        if |snake| == width * height {
          return false;
        }
        AvailableWhenNotFull(snake, width, height);
        pellet := GeneratePellet();
      } else {
        var body := before[..|before| - 1];
        assert next !in body;
        assert ContiguousBody(before, width, height) ==> ContiguousBody(body, width, height);
        PrependHead(body, next, width, height);
        snake := [next] + snake;
        snake := snake[..|snake| - 1];
        assert snake == [next] + body;
      }
      return true;
    }
  }

  /** On a running game the collision test says exactly whether moving would make the snake overlap itself. */
  lemma CollisionIffOverlap(g: Game, c: Cell)
    requires g.Valid()
    ensures !g.CheckCollision(c.0, c.1) <==> NoDuplicates([c] + g.snake[..|g.snake| - 1])
  {
    var body := g.snake[..|g.snake| - 1];
    var moved := [c] + body;
    assert NoDuplicates(body);
    if c in body {
      var k :| 0 <= k < |body| && body[k] == c;
      assert moved[0] == moved[k + 1];
    } else {
      assert forall i :: 1 <= i < |moved| ==> moved[i] == body[i - 1];
    }
  }

  /** On a running game the snake is shorter than the board has cells. */
  lemma ValidLeavesRoom(g: Game)
    requires g.Valid()
    ensures |g.snake| < g.width * g.height
  {
    LengthBelowBoard(g.snake, g.pellet, g.width, g.height);
  }

  /** A win leaves no cell of the board uncovered. */
  lemma WinFillsBoard(g: Game)
    requires g.SnakeInvariant() && |g.snake| == g.width * g.height
    ensures forall c :: InBounds(c, g.width, g.height) ==> c in g.snake
  {
    FullCoversBoard(g.snake, g.width, g.height);
  }

  /** On a running game exactly one cell of the board is drawn as the head. */
  lemma RenderShowsHeadOnce(g: Game)
    requires g.Valid()
    ensures (set c | c in BoardCells(g.width, g.height) && g.PrintSymbol(c.0, c.1) == 'o') == {g.snake[0]}
  {
    var heads := set c | c in BoardCells(g.width, g.height) && g.PrintSymbol(c.0, c.1) == 'o';
    forall c ensures c in heads <==> c == g.snake[0] {
    }
  }

  /** On a running game exactly one cell of the board is drawn as the pellet. */
  lemma RenderShowsPelletOnce(g: Game)
    requires g.Valid()
    ensures (set c | c in BoardCells(g.width, g.height) && g.PrintSymbol(c.0, c.1) == '@') == {g.pellet}
  {
    var pellets := set c | c in BoardCells(g.width, g.height) && g.PrintSymbol(c.0, c.1) == '@';
    forall c ensures c in pellets <==> c == g.pellet {
    }
  }

  /** Without duplicates, the segments behind the head are the cells other than the head. */
  lemma BehindHead(s: seq<Cell>)
    requires NoDuplicates(s) && |s| > 0
    ensures forall c :: c in s[1..] <==> c in s && c != s[0]
  {
    forall c | c in s[1..] ensures c != s[0] {
      var k :| 0 <= k < |s| - 1 && s[1..][k] == c;
      assert s[k + 1] == c;
    }
  }

  /** On a running game every segment behind the head is drawn as body, once. */
  lemma RenderShowsWholeBody(g: Game)
    requires g.Valid()
    ensures |set c | c in BoardCells(g.width, g.height) && g.PrintSymbol(c.0, c.1) == 'x'| == |g.snake| - 1
  {
    var body := g.snake[1..];
    BehindHead(g.snake);
    var shown := set c | c in BoardCells(g.width, g.height) && g.PrintSymbol(c.0, c.1) == 'x';
    assert NoDuplicates(body);
    assert shown == Elems(body) by {
      forall c ensures c in shown <==> c in Elems(body) {
      }
    }
  }
}
