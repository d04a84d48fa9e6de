/** The state updates the main loop makes on key presses, and one iteration of
    that loop. Key polling itself is outside the model: each key is a flag. */
module Controls {
  import opened Grid
  import opened SnakeBody
  import opened Placement
  import opened Round

  /** The four arrow keys. */
  datatype Arrow = KeyUp | KeyDown | KeyRight | KeyLeft

  /** The heading an arrow key asks for. */
  function Heading(key: Arrow): (d: Cell)
    ensures IsHeading(d)
  {
    match key
    case KeyUp => Up
    case KeyDown => Down
    case KeyRight => Right
    case KeyLeft => Left
  }

  /** The guard of each arrow key, on one coordinate of the current heading. For a
      unit heading it rejects exactly the reverse of the requested heading. */
  function Accepts(key: Arrow, current: Cell): (ok: bool)
    ensures IsHeading(current) ==> (ok <==> current != Reverse(Heading(key)))
  {
    match key
    case KeyUp => current.y != 1
    case KeyDown => current.y != -1
    case KeyRight => current.x != -1
    case KeyLeft => current.x != 1
  }

  /** An arrow key: when accepted, set the heading and start the round. */
  function Steer(w: World, key: Arrow): (r: World)
    ensures r.direction == w.direction || r.direction == Heading(key)
    ensures r.direction != w.direction ==> Accepts(key, w.direction) && r.running
    ensures r.(direction := w.direction, running := w.running) == w
    ensures Accepts(key, w.direction) ==> r == w.(direction := Heading(key), running := true)
    ensures !Accepts(key, w.direction) ==> r == w
  {
    if Accepts(key, w.direction) then w.(direction := Heading(key), running := true) else w
  }

  /** The P key flips the pause flag. */
  function TogglePause(w: World): (r: World)
    ensures r.paused != w.paused && r.(paused := w.paused) == w
  {
    w.(paused := !w.paused)
  }

  /** The H key flips the leaderboard view and sets the pause flag to match it. */
  function ToggleHighScores(w: World): (r: World)
    ensures r.showHighScores != w.showHighScores
    ensures r.paused == r.showHighScores
    ensures r.(paused := w.paused, showHighScores := w.showHighScores) == w
  {
    var shown := !w.showHighScores;
    w.(showHighScores := shown, paused := shown)
  }

  /** The keys pressed during one frame. */
  datatype Keys = Keys(p: bool, h: bool, up: bool, down: bool, right: bool, left: bool)

  /** What the stream must provide for one frame: only a frame that ticks an
      unpaused game moves the snake. */
  predicate FrameReady(w: World, tick: bool, foodDraws: seq<(int, int)>, resetDraws: seq<(int, int)>)
  {
    tick && !w.paused ==> TickReady(w, foodDraws, resetDraws)
  }

  /** The key handling of one iteration of the main loop: P, H, up, down, right,
      left in that order, each reading the state the previous one left. */
  function PressKeys(w: World, keys: Keys): World
  {
    var p := if keys.p then TogglePause(w) else w;
    var h := if keys.h then ToggleHighScores(p) else p;
    var up := if keys.up then Steer(h, KeyUp) else h;
    var down := if keys.down then Steer(up, KeyDown) else up;
    var right := if keys.right then Steer(down, KeyRight) else down;
    if keys.left then Steer(right, KeyLeft) else right
  }

  /** One iteration of the main loop: a tick when the timer fired and the game is
      not paused, then the keys. */
  function FrameStep(w: World, tick: bool, keys: Keys,
                     foodDraws: seq<(int, int)>, resetDraws: seq<(int, int)>): World
    requires FrameReady(w, tick, foodDraws, resetDraws)
  {
    PressKeys(if tick && !w.paused then Tick(w, foodDraws, resetDraws) else w, keys)
  }

  /** The keys change only the heading and the flags, and only to unit headings. */
  lemma {:induction false} PressKeysChangesFlagsOnly(w: World, keys: Keys)
    ensures var r := PressKeys(w, keys);
            && r.body == w.body && r.collectible == w.collectible
            && r.score == w.score && r.addSeg == w.addSeg && r.saved == w.saved
            && (r.direction == w.direction || IsHeading(r.direction))
  {
    var p := if keys.p then TogglePause(w) else w;
    var h := if keys.h then ToggleHighScores(p) else p;
    var up := if keys.up then Steer(h, KeyUp) else h;
    var down := if keys.down then Steer(up, KeyDown) else up;
    var right := if keys.right then Steer(down, KeyRight) else down;
    assert h.direction == w.direction;
    assert up.direction == w.direction || IsHeading(up.direction);
    assert down.direction == w.direction || IsHeading(down.direction);
    assert right.direction == w.direction || IsHeading(right.direction);
  }

  /** A whole frame keeps the state of play, so the body stays on the board and
      off the collectible from frame to frame. */
  lemma {:induction false} FramePreservesInv(w: World, tick: bool, keys: Keys,
                                             foodDraws: seq<(int, int)>, resetDraws: seq<(int, int)>)
    requires Inv(w) && FrameReady(w, tick, foodDraws, resetDraws)
    ensures Inv(FrameStep(w, tick, keys, foodDraws, resetDraws))
  {
    var ticked := if tick && !w.paused then Tick(w, foodDraws, resetDraws) else w;
    if tick && !w.paused {
      TickPreservesInv(w, foodDraws, resetDraws);
    }
    PressKeysChangesFlagsOnly(ticked, keys);
  }

  /** After a frame in which H was pressed, the game is paused exactly when the
      leaderboard is shown, whatever P did in the same frame. */
  lemma HighScoresKeyDecidesPause(w: World, tick: bool, keys: Keys,
                                                     foodDraws: seq<(int, int)>, resetDraws: seq<(int, int)>)
    requires FrameReady(w, tick, foodDraws, resetDraws) && keys.h
    ensures var r := FrameStep(w, tick, keys, foodDraws, resetDraws);
            r.paused == r.showHighScores
  {
  }

  /** Hiding the leaderboard always unpauses: a game paused with P before the
      leaderboard is opened runs again once it is closed. */
  lemma HidingHighScoresUnpauses(w: World)
    requires !w.showHighScores
    ensures !ToggleHighScores(ToggleHighScores(TogglePause(w))).paused
  {
  }

  /** The guard compares against the heading as it stands when each key is read,
      not the heading of the last move: up and left in one frame, while moving
      right, leave the snake heading left, the reverse of its last move. */
  lemma SameFrameReversal(w: World)
    requires w.direction == Right
    ensures FrameStep(w, false, Keys(false, false, true, false, false, true), [], []).direction
            == Reverse(w.direction)
  {
  }
}
