/** The per-tick round logic as functions on a value of the whole game state.
    The imperative `Game` class is specified by these functions. */
module Round {
  import opened Grid
  import opened SnakeBody
  import opened Placement

  /** Everything `Game` holds that the rules read or write. `saved` is the log of
      scores handed to the high-score store, oldest first. */
  datatype World = World(
    body: seq<Cell>,
    direction: Cell,
    addSeg: bool,
    collectible: Cell,
    score: int,
    running: bool,
    paused: bool,
    showHighScores: bool,
    saved: seq<int>)

  /** The state a new game starts in, given the draws that place the first collectible. */
  function Start(draws: seq<(int, int)>): (w: World)
    requires Placeable(InitialBody, draws)
    ensures w.collectible !in w.body && w.running && !w.paused && w.saved == []
  {
    World(InitialBody, InitialDirection, false, PlaceCollectible(InitialBody, draws),
          0, true, false, false, [])
  }

  /** No two cells of the body coincide. */
  predicate Distinct(s: seq<Cell>)
  {
    forall i, j :: 0 <= i < j < |s| ==> s[i] != s[j]
  }

  /** What holds of every state reached in play: a body of at least three distinct
      cells on the board, a unit heading, the collectible in the inner square and
      off the body, and a non-negative score. */
  predicate Inv(w: World)
  {
    && |w.body| >= 3
    && (forall i :: 0 <= i < |w.body| ==> InGrid(w.body[i]))
    && Distinct(w.body)
    && IsHeading(w.direction)
    && InInner(w.collectible) && w.collectible !in w.body
    && w.score >= 0
  }

  /** `Snake::Update` on the whole state. */
  function MoveSnake(w: World): World
    requires |w.body| > 0
  {
    w.(body := Advance(w.body, w.direction, w.addSeg), addSeg := false)
  }

  /** `CheckColCollectibles`: on a head on the collectible, relocate it off the
      current body, flag growth and score one point. */
  function CollectibleCheck(w: World, draws: seq<(int, int)>): (r: World)
    requires |w.body| > 0
    requires w.body[0] == w.collectible ==> Placeable(w.body, draws)
    ensures r.body == w.body && r.running == w.running && r.saved == w.saved
    ensures w.body[0] == w.collectible ==>
              r.score == w.score + 1 && r.addSeg && r.collectible !in w.body
    ensures w.body[0] == w.collectible ==>
              r == w.(collectible := r.collectible, addSeg := true, score := w.score + 1)
              && InInner(r.collectible)
    ensures w.body[0] != w.collectible ==> r == w
  {
    if w.body[0] == w.collectible then
      w.(collectible := PlaceCollectible(w.body, draws), addSeg := true, score := w.score + 1)
    else
      w
  }

  /** `GameOver`: save the score, reset the snake, relocate the collectible off the
      reset body, stop the round and clear pause and score. */
  function EndRound(w: World, draws: seq<(int, int)>): (r: World)
    requires Placeable(InitialBody, draws)
    ensures r.collectible !in r.body && InInner(r.collectible)
    ensures r.saved == w.saved + [w.score]
  {
    w.(body := InitialBody, direction := InitialDirection,
       collectible := PlaceCollectible(InitialBody, draws),
       saved := w.saved + [w.score],
       running := false, paused := false, score := 0)
  }

  /** `CheckColEdges`: two independent tests on the head, the second one reading
      the state the first one left. */
  function EdgeCheck(w: World, draws: seq<(int, int)>): World
    requires |w.body| > 0
    requires OnEdgeX(w.body[0]) || OnEdgeY(w.body[0]) ==> Placeable(InitialBody, draws)
  {
    var w1 := if OnEdgeX(w.body[0]) then EndRound(w, draws) else w;
    if OnEdgeY(w1.body[0]) then EndRound(w1, draws) else w1
  }

  /** `CheckColTail`: the head against the rest of the body. */
  function TailCheck(w: World, draws: seq<(int, int)>): World
    requires |w.body| > 0
    requires w.body[0] in w.body[1..] ==> Placeable(InitialBody, draws)
  {
    if w.body[0] in w.body[1..] then EndRound(w, draws) else w
  }

  /** The moved body ends the round: its head is on an edge line or on another body cell. */
  predicate Collides(body: seq<Cell>)
    requires |body| > 0
  {
    OnEdgeX(body[0]) || OnEdgeY(body[0]) || body[0] in body[1..]
  }

  /** What the random stream must provide for one tick to return: `foodDraws` must
      hold a free cell when the collectible is eaten, `resetDraws` one off the reset
      body when the round ends. */
  predicate TickReady(w: World, foodDraws: seq<(int, int)>, resetDraws: seq<(int, int)>)
  {
    w.running && !w.paused ==>
      && |w.body| > 0
      && var moved := Advance(w.body, w.direction, w.addSeg);
      && (moved[0] == w.collectible ==> Placeable(moved, foodDraws))
      && (Collides(moved) ==> Placeable(InitialBody, resetDraws))
  }

  /** `Game::Update`: when running and not paused, move, then the collectible,
      edge and tail checks in that order; otherwise nothing. */
  function Tick(w: World, foodDraws: seq<(int, int)>, resetDraws: seq<(int, int)>): World
    requires TickReady(w, foodDraws, resetDraws)
  {
    if w.running && !w.paused then
      var moved := MoveSnake(w);
      var fed := CollectibleCheck(moved, foodDraws);
      TailCheck(EdgeCheck(fed, resetDraws), resetDraws)
    else
      w
  }

  /** A ready tick of a running game meets the precondition of each check in
      turn, and its result is the three checks applied to the moved snake. */
  lemma TickStages(w: World, foodDraws: seq<(int, int)>, resetDraws: seq<(int, int)>)
    requires TickReady(w, foodDraws, resetDraws) && w.running && !w.paused
    ensures var moved := MoveSnake(w);
            && |moved.body| > 0
            && (moved.body[0] == moved.collectible ==> Placeable(moved.body, foodDraws))
            && var fed := CollectibleCheck(moved, foodDraws);
            && (OnEdgeX(fed.body[0]) || OnEdgeY(fed.body[0]) ==> Placeable(InitialBody, resetDraws))
            && var edged := EdgeCheck(fed, resetDraws);
            && |edged.body| > 0
            && (edged.body[0] in edged.body[1..] ==> Placeable(InitialBody, resetDraws))
            && Tick(w, foodDraws, resetDraws) == TailCheck(edged, resetDraws)
  {
  }

  /** A step of one unit from a cell on the board lands on an edge line exactly
      when it leaves the board. */
  lemma StepLeavesGridOnEdge(c: Cell, d: Cell)
    requires InGrid(c) && IsHeading(d)
    ensures OnEdgeX(Add(c, d)) || OnEdgeY(Add(c, d)) <==> !InGrid(Add(c, d))
  {
  }

  /** In a state of play, one tick either ends the round exactly once -- when the
      moved head has left the board or landed on the body -- or is an ordinary
      move, possibly eating, that saves nothing. */
  lemma TickOutcome(w: World, foodDraws: seq<(int, int)>, resetDraws: seq<(int, int)>)
    requires Inv(w) && TickReady(w, foodDraws, resetDraws)
    requires w.running && !w.paused
    ensures var moved := Advance(w.body, w.direction, w.addSeg);
            var r := Tick(w, foodDraws, resetDraws);
            if !InGrid(moved[0]) || moved[0] in moved[1..] then
              r == EndRound(MoveSnake(w), resetDraws) && r.saved == w.saved + [w.score]
            else
              r == CollectibleCheck(MoveSnake(w), foodDraws) && r.saved == w.saved && r.running
  {
  }

  /** A tick saves at most one score and only appends; the body either stays, is
      reset, or moves with its length growing by one exactly when growth was flagged. */
  lemma TickShape(w: World, foodDraws: seq<(int, int)>, resetDraws: seq<(int, int)>)
    requires TickReady(w, foodDraws, resetDraws)
    ensures var r := Tick(w, foodDraws, resetDraws);
            && w.saved <= r.saved && |r.saved| <= |w.saved| + 1
            && (r.body == w.body || r.body == InitialBody
                || |r.body| == |w.body| + (if w.addSeg then 1 else 0))
  {
  }

  /** Ending the round leaves a state of play, whatever came before. */
  lemma EndRoundInv(w: World, draws: seq<(int, int)>)
    requires Placeable(InitialBody, draws)
    ensures Inv(EndRound(w, draws))
  {
  }

  /** Every tick keeps the state of play: in particular the body stays on the board,
      keeps its cells distinct, and never covers the collectible. */
  lemma {:induction false} TickPreservesInv(w: World, foodDraws: seq<(int, int)>, resetDraws: seq<(int, int)>)
    requires Inv(w) && TickReady(w, foodDraws, resetDraws)
    ensures Inv(Tick(w, foodDraws, resetDraws))
  {
    if w.running && !w.paused {
      TickOutcome(w, foodDraws, resetDraws);
      var moved := MoveSnake(w);
      var head := moved.body[0];
      if !InGrid(head) || head in moved.body[1..] {
        EndRoundInv(moved, resetDraws);
      } else {
        var b := moved.body;
        forall i | 1 <= i < |b| ensures InGrid(b[i]) && b[i] != w.collectible {
          assert b[i] == w.body[i - 1];
        }
        forall i, j | 0 <= i < j < |b| ensures b[i] != b[j] {
          if i == 0 {
            assert b[j] in b[1..];
          } else {
            assert b[i] == w.body[i - 1] && b[j] == w.body[j - 1];
          }
        }
      }
    }
  }

  /** Eating: the head moved onto the collectible scores exactly one point, flags
      growth, and moves the collectible to a different cell off the new body. */
  lemma EatingScoresAndGrows(w: World, foodDraws: seq<(int, int)>, resetDraws: seq<(int, int)>)
    requires Inv(w) && TickReady(w, foodDraws, resetDraws)
    requires w.running && !w.paused
    requires Advance(w.body, w.direction, w.addSeg)[0] == w.collectible
    ensures var r := Tick(w, foodDraws, resetDraws);
            && r.running && r.saved == w.saved
            && r.score == w.score + 1 && r.addSeg
            && r.body == Advance(w.body, w.direction, w.addSeg)
            && r.collectible !in r.body && r.collectible != w.collectible
  {
  }

  /** Growth flagged on one tick takes effect on the next: unless that next tick
      ends the round, the body is then one cell longer than before the meal. */
  lemma GrowthTakesEffectNextTick(
    w: World, food1: seq<(int, int)>, reset1: seq<(int, int)>,
    food2: seq<(int, int)>, reset2: seq<(int, int)>)
    requires Inv(w) && TickReady(w, food1, reset1)
    requires w.running && !w.paused
    requires Advance(w.body, w.direction, w.addSeg)[0] == w.collectible
    requires TickReady(Tick(w, food1, reset1), food2, reset2)
    ensures var r2 := Tick(Tick(w, food1, reset1), food2, reset2);
            r2.body == InitialBody
            || |r2.body| == |Advance(w.body, w.direction, w.addSeg)| + 1
  {
  }
}
