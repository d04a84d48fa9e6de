/** The `Game` object: the snake, the collectible, the score and the round flags,
    updated in place once per tick and on key presses. Every method is specified
    by the function of `Round` or `Controls` that it carries out on `State()`. */
module Engine {
  import opened Grid
  import opened SnakeBody
  import opened Placement
  import opened Round
  import opened Controls

  class Game {
    const snake: Snake
    const collectibles: Collectibles
    var running: bool
    var paused: bool
    var showHighScores: bool
    var score: int
    /** The scores handed to the high-score store, oldest first. */
    ghost var savedScores: seq<int>

    /** The game as a value. */
    ghost function State(): World
      reads this, snake, collectibles
    {
      World(snake.body, snake.direction, snake.addSeg, collectibles.position,
            score, running, paused, showHighScores, savedScores)
    }

    /** The state of play holds. */
    ghost predicate Valid()
      reads this, snake, collectibles
    {
      Inv(State())
    }

    /** A new snake, a collectible placed off it, a running round with score 0. */
    constructor (draws: seq<(int, int)>)
      requires Placeable(InitialBody, draws)
      ensures State() == Start(draws) && Valid()
      ensures fresh(snake) && fresh(collectibles)
    {
      var s := new Snake();
      var c := new Collectibles(s.body, draws);
      snake := s;
      collectibles := c;
      running := true;
      paused := false;
      showHighScores := false;
      score := 0;
      savedScores := [];
    }

    /** One tick: when running and not paused, move the snake, then check the
        collectible, the edges and the tail, in that order. */
    method Update(foodDraws: seq<(int, int)>, resetDraws: seq<(int, int)>)
      requires TickReady(State(), foodDraws, resetDraws)
      modifies this, snake, collectibles
      ensures State() == Tick(old(State()), foodDraws, resetDraws)
      ensures !old(running) || old(paused) ==> State() == old(State())
      ensures old(savedScores) <= savedScores && |savedScores| <= |old(savedScores)| + 1
      ensures old(Valid()) ==> Valid()
    {
      ghost var w := State();
      if running && !paused {
        TickStages(w, foodDraws, resetDraws);
        snake.Update();
        CheckColCollectibles(foodDraws);
        CheckColEdges(resetDraws);
        CheckColTail(resetDraws);
      }
      TickShape(w, foodDraws, resetDraws);
      if Inv(w) {
        TickPreservesInv(w, foodDraws, resetDraws);
      }
    }

    /** A head on the collectible moves it off the body, flags growth and scores. */
    method CheckColCollectibles(draws: seq<(int, int)>)
      requires |snake.body| > 0
      requires snake.body[0] == collectibles.position ==> Placeable(snake.body, draws)
      modifies this`score, snake`addSeg, collectibles`position
      ensures State() == CollectibleCheck(old(State()), draws)
    {
      if snake.body[0] == collectibles.position {
        collectibles.position := collectibles.GenRandPos(snake.body, draws);
        snake.addSeg := true;
        score := score + 1;
      }
    }

    /** A head on column -1 or `CellCount`, then a head on row -1 or `CellCount`,
        ends the round. */
    method CheckColEdges(draws: seq<(int, int)>)
      requires |snake.body| > 0
      requires OnEdgeX(snake.body[0]) || OnEdgeY(snake.body[0]) ==> Placeable(InitialBody, draws)
      modifies this, snake, collectibles
      ensures State() == EdgeCheck(old(State()), draws)
    {
      if snake.body[0].x == CellCount || snake.body[0].x == -1 {
        GameOver(draws);
      }
      if snake.body[0].y == CellCount || snake.body[0].y == -1 {
        GameOver(draws);
      }
    }

    /** A head on any other body cell ends the round. */
    method CheckColTail(draws: seq<(int, int)>)
      requires |snake.body| > 0
      requires snake.body[0] in snake.body[1..] ==> Placeable(InitialBody, draws)
      modifies this, snake, collectibles
      ensures State() == TailCheck(old(State()), draws)
    {
      var onlyBody := snake.body[1..];
      var hit := ElementInDeque(snake.body[0], onlyBody);
      if hit {
        GameOver(draws);
      }
    }

    /** Resets the snake, places the collectible off it, saves the score, and
        clears the round flags and the score. */
    method GameOver(draws: seq<(int, int)>)
      requires Placeable(InitialBody, draws)
      modifies this, snake, collectibles
      ensures State() == EndRound(old(State()), draws)
      ensures savedScores == old(savedScores) + [old(score)]
      ensures snake.body == InitialBody && snake.direction == InitialDirection
      ensures snake.addSeg == old(snake.addSeg)
      ensures collectibles.position !in snake.body
      ensures score == 0 && !running && !paused && showHighScores == old(showHighScores)
    {
      snake.Reset();
      collectibles.position := collectibles.GenRandPos(snake.body, draws);
      savedScores := savedScores + [score];
      running := false;
      paused := false;
      score := 0;
    }

    /** The P key. */
    method PressPause()
      modifies this`paused
      ensures State() == TogglePause(old(State()))
    {
      paused := !paused;
    }

    /** The H key: the game is paused exactly while the leaderboard is shown. */
    method PressHighScores()
      modifies this`showHighScores, this`paused
      ensures State() == ToggleHighScores(old(State()))
      ensures paused == showHighScores
    {
      showHighScores := !showHighScores;
      paused := showHighScores;
    }

    /** An arrow key: unless it asks for the reverse of the current heading, it
        sets the heading and starts the round. */
    method PressArrow(key: Arrow)
      modifies this`running, snake`direction
      ensures State() == Steer(old(State()), key)
    {
      if Accepts(key, snake.direction) {
        snake.direction := Heading(key);
        running := true;
      }
    }

    /** The key handling of one iteration of the main loop: P, H, up, down,
        right, left, in that order. */
    method HandleKeys(keys: Keys)
      modifies this`paused, this`showHighScores, this`running, snake`direction
      ensures State() == PressKeys(old(State()), keys)
    {
      ghost var w := State();
      if keys.p {
        PressPause();
      }
      ghost var p := State();
      assert p == if keys.p then TogglePause(w) else w;
      if keys.h {
        PressHighScores();
      }
      ghost var h := State();
      assert h == if keys.h then ToggleHighScores(p) else p;
      if keys.up {
        PressArrow(KeyUp);
      }
      ghost var up := State();
      assert up == if keys.up then Steer(h, KeyUp) else h;
      if keys.down {
        PressArrow(KeyDown);
      }
      ghost var down := State();
      assert down == if keys.down then Steer(up, KeyDown) else up;
      if keys.right {
        PressArrow(KeyRight);
      }
      ghost var right := State();
      assert right == if keys.right then Steer(down, KeyRight) else down;
      if keys.left {
        PressArrow(KeyLeft);
      }
    }

    /** One iteration of the main loop, without drawing: a tick when the timer
        fired and the game is not paused, then the keys pressed in this frame. */
    method Frame(tick: bool, keys: Keys, foodDraws: seq<(int, int)>, resetDraws: seq<(int, int)>)
      requires FrameReady(State(), tick, foodDraws, resetDraws)
      modifies this, snake, collectibles
      ensures State() == FrameStep(old(State()), tick, keys, foodDraws, resetDraws)
      ensures old(Valid()) ==> Valid()
    {
      ghost var w := State();
      if tick {
        if !paused {
          Update(foodDraws, resetDraws);
        }
      }
      HandleKeys(keys);
      if Inv(w) {
        FramePreservesInv(w, tick, keys, foodDraws, resetDraws);
      }
    }
  }
}
