/** Collectible placement: membership in the snake body and the retry loop that
    draws random cells from the inner square until one is free.

    `GetRandomValue` is outside the model: the values it would return are given
    as a stream `draws`, one pair per `GenRandCell` call (x drawn first, then y). */
module Placement {
  import opened Grid

  /** The linear scan over the body: true exactly when `element` occurs in `deque`. */
  method ElementInDeque(element: Cell, deque: seq<Cell>) returns (found: bool)
    ensures found <==> element in deque
  {
    var i := 0;
    while i < |deque|
      invariant 0 <= i <= |deque|
      invariant element !in deque[..i]
    {
      if deque[i] == element {
        return true;
      }
      i := i + 1;
    }
    assert deque[..i] == deque;
    return false;
  }

  /** A pair of values `GetRandomValue(1, CellCount - 2)` can return. */
  predicate IsDraw(d: (int, int))
  {
    1 <= d.0 <= CellCount - 2 && 1 <= d.1 <= CellCount - 2
  }

  /** The cell built from one pair of random values; it lies in the inner square. */
  function GenRandCell(d: (int, int)): (c: Cell)
    requires IsDraw(d)
    ensures InInner(c)
    ensures c.x == d.0 && c.y == d.1
  {
    Cell(d.0, d.1)
  }

  /** Every inner cell is the outcome of some draw: the random pick can land anywhere
      in the inner square and nowhere else. */
  lemma GenRandCellCoversInner(c: Cell)
    requires InInner(c)
    ensures exists d :: IsDraw(d) && GenRandCell(d) == c
  {
    var d := (c.x, c.y);
    assert IsDraw(d) && GenRandCell(d) == c;
  }

  /** Every value in the stream is in the range of `GetRandomValue`, and from
      index `from` on some draw gives a cell outside `body`, so the retry loop stops. */
  predicate PlaceableFrom(body: seq<Cell>, draws: seq<(int, int)>, from: nat)
  {
    && (forall i :: 0 <= i < |draws| ==> IsDraw(draws[i]))
    && exists k :: from <= k < |draws| && Cell(draws[k].0, draws[k].1) !in body
  }

  /** The draws let `GenRandPos` return for this body. */
  predicate Placeable(body: seq<Cell>, draws: seq<(int, int)>)
  {
    PlaceableFrom(body, draws, 0)
  }

  /** Index of the first draw at or after `from` whose cell is not in `body`. */
  function FirstFreeDraw(body: seq<Cell>, draws: seq<(int, int)>, from: nat): (k: nat)
    requires PlaceableFrom(body, draws, from)
    ensures from <= k < |draws|
    ensures GenRandCell(draws[k]) !in body
    ensures forall j :: from <= j < k ==> GenRandCell(draws[j]) in body
    decreases |draws| - from
  {
    if GenRandCell(draws[from]) !in body then from
    else FirstFreeDraw(body, draws, from + 1)
  }

  /** Where `GenRandPos` puts the collectible: the first drawn cell not in `body`. */
  function PlaceCollectible(body: seq<Cell>, draws: seq<(int, int)>): (c: Cell)
    requires Placeable(body, draws)
    ensures InInner(c) && c !in body
    ensures exists k :: 0 <= k < |draws| && c == GenRandCell(draws[k])
  {
    GenRandCell(draws[FirstFreeDraw(body, draws, 0)])
  }

  class Collectibles {
    /** The collectible's cell. */
    var position: Cell

    /** Places the collectible off the given snake body. */
    constructor (snakeBody: seq<Cell>, draws: seq<(int, int)>)
      requires Placeable(snakeBody, draws)
      ensures position == PlaceCollectible(snakeBody, draws)
    {
      new;
      position := GenRandPos(snakeBody, draws);
    }

    /** Draws cells until one is not in `snakeBody` and returns it; the object is not changed. */
    method GenRandPos(snakeBody: seq<Cell>, draws: seq<(int, int)>) returns (position: Cell)
      requires Placeable(snakeBody, draws)
      ensures InInner(position)
      ensures !(position in snakeBody)
      ensures position == PlaceCollectible(snakeBody, draws)
    {
      ghost var k := FirstFreeDraw(snakeBody, draws, 0);
      position := GenRandCell(draws[0]);
      var next := 1;
      var inBody := ElementInDeque(position, snakeBody);
      while inBody
        invariant 1 <= next <= k + 1
        invariant position == GenRandCell(draws[next - 1])
        invariant inBody <==> position in snakeBody
        decreases k + 1 - next
      {
        position := GenRandCell(draws[next]);
        next := next + 1;
        inBody := ElementInDeque(position, snakeBody);
      }
    }
  }
}
