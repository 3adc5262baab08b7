// The scenarios of snake_game_tests.py, stated as client methods whose
// assertions follow from the contracts of the game alone.
module SnakeGameTests {
  import opened Cells
  import opened SnakeGame

  method TestSmallBoard()
  {
    var r := NewGame(2, 2);
    assert r == Exit(1);
    r := NewGame(2, 3);
    assert r == Exit(1);
    r := NewGame(3, 2);
    assert r == Exit(1);
  }

  method TestGeneratePellet()
  {
    var game := new Game(10, 10);
    AvailableWhenNotFull(game.snake, game.width, game.height);
    var pellet := game.GeneratePellet();
    assert pellet !in game.snake;
    assert pellet.0 <= 9 && pellet.1 <= 9;
  }

  method TestGetNextCoord()
  {
    var game := new Game(10, 10);
    game.snake := [(5, 5), (4, 5), (3, 5)];
    game.prevDirection := East;
    var next := game.GetNextCoord(Forward);
    assert next == (6, 5);

    game.prevDirection := South;
    next := game.GetNextCoord(Forward);
    assert next == (5, 6);

    game.prevDirection := West;
    next := game.GetNextCoord(Forward);
    assert next == (4, 5);

    game.prevDirection := North;
    next := game.GetNextCoord(Forward);
    assert next == (5, 4);

    game.prevDirection := East;
    next := game.GetNextCoord(Left);
    assert next == (5, 4) && game.prevDirection == North;

    game.prevDirection := East;
    next := game.GetNextCoord(Right);
    assert next == (5, 6) && game.prevDirection == South;
  }

  method TestWrapAroundNextCoord()
  {
    var game := new Game(10, 10);
    game.snake := [(0, 5), (1, 5), (2, 5)];
    game.prevDirection := West;
    var next := game.GetNextCoord(Forward);
    assert next == (9, 5);

    game.snake := [(9, 5), (8, 5), (7, 5)];
    game.prevDirection := East;
    next := game.GetNextCoord(Forward);
    assert next == (0, 5);

    game.snake := [(5, 0), (5, 1), (5, 2)];
    game.prevDirection := North;
    next := game.GetNextCoord(Forward);
    assert next == (5, 9);

    game.snake := [(5, 9), (5, 8), (5, 7)];
    game.prevDirection := South;
    next := game.GetNextCoord(Forward);
    assert next == (5, 0);
  }

  method TestCheckCollision()
  {
    var game := new Game(10, 10);
    game.snake := [(5, 5), (4, 5), (3, 5)];
    assert !game.CheckCollision(6, 5);
    assert game.CheckCollision(5, 5);
    assert !game.CheckCollision(3, 5);

    game.snake := [(5, 5), (4, 5), (4, 4), (5, 4)];
    assert !game.CheckCollision(5, 4);
  }

  method TestStepForwardHeadingEast()
  {
    var game := new Game(10, 10);
    game.pellet := (0, 0);
    game.snake := [(5, 5), (4, 5), (3, 5)];
    game.prevDirection := East;
    var running := game.Step(Forward);
    assert running && game.snake == [(6, 5), (5, 5), (4, 5)];
  }

  method TestStepForwardHeadingSouth()
  {
    var game := new Game(10, 10);
    game.pellet := (0, 0);
    game.snake := [(5, 5), (5, 4), (4, 4)];
    game.prevDirection := South;
    var running := game.Step(Forward);
    assert running && game.snake == [(5, 6), (5, 5), (5, 4)];
  }

  method TestStepForwardHeadingWest()
  {
    var game := new Game(10, 10);
    game.pellet := (0, 0);
    game.snake := [(5, 5), (6, 5), (7, 5)];
    game.prevDirection := West;
    var running := game.Step(Forward);
    assert running && game.snake == [(4, 5), (5, 5), (6, 5)];
  }

  method TestStepForwardHeadingNorth()
  {
    var game := new Game(10, 10);
    game.pellet := (0, 0);
    game.snake := [(5, 5), (5, 6), (5, 7)];
    game.prevDirection := North;
    var running := game.Step(Forward);
    assert running && game.snake == [(5, 4), (5, 5), (5, 6)];
  }

  method TestStepLeftHeadingEast()
  {
    var game := new Game(10, 10);
    game.pellet := (0, 0);
    game.snake := [(5, 5), (4, 5), (3, 5)];
    game.prevDirection := East;
    var running := game.Step(Left);
    assert running && game.snake == [(5, 4), (5, 5), (4, 5)];
  }

  method TestStepLeftHeadingSouth()
  {
    var game := new Game(10, 10);
    game.pellet := (0, 0);
    game.snake := [(5, 5), (5, 4), (4, 4)];
    game.prevDirection := South;
    var running := game.Step(Left);
    assert running && game.snake == [(6, 5), (5, 5), (5, 4)];
  }

  method TestStepLeftHeadingWest()
  {
    var game := new Game(10, 10);
    game.pellet := (0, 0);
    game.snake := [(5, 5), (6, 5), (7, 5)];
    game.prevDirection := West;
    var running := game.Step(Left);
    assert running && game.snake == [(5, 6), (5, 5), (6, 5)];
  }

  method TestStepLeftHeadingNorth()
  {
    var game := new Game(10, 10);
    game.pellet := (0, 0);
    game.snake := [(5, 5), (5, 6), (5, 7)];
    game.prevDirection := North;
    var running := game.Step(Left);
    assert running && game.snake == [(4, 5), (5, 5), (5, 6)];
  }

  method TestStepRightHeadingEast()
  {
    var game := new Game(10, 10);
    game.pellet := (0, 0);
    game.snake := [(5, 5), (4, 5), (3, 5)];
    game.prevDirection := East;
    var running := game.Step(Right);
    assert running && game.snake == [(5, 6), (5, 5), (4, 5)];
  }

  method TestStepRightHeadingSouth()
  {
    var game := new Game(10, 10);
    game.pellet := (0, 0);
    game.snake := [(5, 5), (5, 4), (4, 4)];
    game.prevDirection := South;
    var running := game.Step(Right);
    assert running && game.snake == [(4, 5), (5, 5), (5, 4)];
  }

  method TestStepRightHeadingWest()
  {
    var game := new Game(10, 10);
    game.pellet := (0, 0);
    game.snake := [(5, 5), (6, 5), (7, 5)];
    game.prevDirection := West;
    var running := game.Step(Right);
    assert running && game.snake == [(5, 4), (5, 5), (6, 5)];
  }

  method TestStepRightHeadingNorth()
  {
    var game := new Game(10, 10);
    game.pellet := (0, 0);
    game.snake := [(5, 5), (5, 6), (5, 7)];
    game.prevDirection := North;
    var running := game.Step(Right);
    assert running && game.snake == [(6, 5), (5, 5), (5, 6)];
  }

  method TestPelletEaten()
  {
    var game := new Game(10, 10);
    game.pellet := (6, 5);
    game.snake := [(5, 5), (4, 5), (3, 5)];
    game.prevDirection := East;
    var running := game.Step();
    assert running && game.snake == [(6, 5), (5, 5), (4, 5), (3, 5)];
    assert game.pellet !in game.snake;
  }

  method TestGameOver()
  {
    var game := new Game(10, 10);
    game.pellet := (0, 0);
    game.snake := [(5, 5), (4, 5), (4, 4), (5, 4), (6, 4)];
    game.prevDirection := East;
    var running := game.Step(Left);
    assert !running;
    // The heading has turned although the snake did not move.
    assert game.prevDirection == North;
    assert game.snake == [(5, 5), (4, 5), (4, 4), (5, 4), (6, 4)];
  }

  method TestWinGame()
  {
    var game := new Game(3, 3);
    game.pellet := (0, 0);
    game.prevDirection := West;
    game.snake := [(1, 0), (2, 0), (2, 1), (1, 1), (0, 1), (0, 2), (1, 2), (2, 2)];
    var running := game.Step(Forward);
    assert !running && |game.snake| == 9;
  }

  method TestGetPrintSymbol()
  {
    var game := new Game(10, 10);
    game.snake := [(5, 5), (4, 5), (3, 5)];
    game.pellet := (0, 0);
    assert game.PrintSymbol(5, 5) == 'o';
    assert game.PrintSymbol(4, 5) == 'x';
    assert game.PrintSymbol(3, 5) == 'x';
    assert game.PrintSymbol(0, 0) == '@';
    assert game.PrintSymbol(1, 1) == '.';
  }
}
