/** The snake: an ordered body of cells, head first, a heading, and a one-shot
    growth flag. */
module SnakeBody {
  import opened Grid

  /** The body a new snake starts with and `Reset` restores, head first. */
  const InitialBody: seq<Cell> := [Cell(6, 9), Cell(5, 9), Cell(4, 9)]

  /** The heading a new snake starts with and `Reset` restores. */
  const InitialDirection: Cell := Right

  /** The body after one move: a new head one `direction` step beyond the old
      head is pushed on the front, and the last cell is popped unless `grow`. */
  function Advance(body: seq<Cell>, direction: Cell, grow: bool): (r: seq<Cell>)
    requires |body| > 0
    ensures |r| == if grow then |body| + 1 else |body|
    ensures r[0] == Add(body[0], direction)
    ensures forall i :: 1 <= i < |r| ==> r[i] == body[i - 1]
  {
    var pushed := [Add(body[0], direction)] + body;
    if grow then pushed else pushed[..|pushed| - 1]
  }

  class Snake {
    /** The occupied cells, head first (a deque in the source). */
    var body: seq<Cell>
    /** The step applied to the head on the next `Update`. */
    var direction: Cell
    /** Set when a collectible was eaten; the next `Update` then keeps the tail. */
    var addSeg: bool

    constructor ()
      ensures body == InitialBody && direction == InitialDirection && !addSeg
    {
      body := InitialBody;
      direction := InitialDirection;
      addSeg := false;
    }

    /** Moves one step: push the new head, then pop the tail unless `addSeg`,
        which is consumed. */
    method Update()
      requires |body| > 0
      modifies this`body, this`addSeg
      ensures body == Advance(old(body), direction, old(addSeg))
      ensures body[0] == Add(old(body)[0], direction)
      ensures |body| == |old(body)| + (if old(addSeg) then 1 else 0)
      ensures body[1..] == if old(addSeg) then old(body) else old(body)[..|old(body)| - 1]
      ensures !addSeg
    {
      body := [Add(body[0], direction)] + body;
      if addSeg {
        addSeg := false;
      } else {
        body := body[..|body| - 1];
      }
    }

    /** Restores the starting body and heading, whatever the state before;
        the growth flag is left as it was. */
    method Reset()
      modifies this`body, this`direction
      ensures body == InitialBody && direction == InitialDirection
      ensures addSeg == old(addSeg)
    {
      body := InitialBody;
      direction := InitialDirection;
    }
  }
}
