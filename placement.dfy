/** Where things go at the start of a level: the starting body, the cells kept free
    of obstacles, and rejection sampling of obstacle and food cells from a stream
    of grid draws. */
module Placement {
  import opened Common
  import opened Grid

  /** The middle row (floor division; the divisor is positive, so Dafny's `/` agrees). */
  function StartRow(gridSize: int): int { gridSize / 2 }

  /** Column of the tail cell of the starting body. */
  function StartCol(gridSize: int, length: int): int { gridSize / 2 - length / 2 }

  /** The starting body: `length` cells of the middle row, head first, each later
      segment one column further left. */
  function StartingBody(gridSize: int, length: int): (body: seq<Pos>)
    ensures |body| == Max(length, 0)
  {
    if length <= 0 then [] else
    seq(length, k requires 0 <= k < length => StartCell(gridSize, length, length - 1 - k))
  }

  /** The `i`-th cell of the middle row counting from the tail's column. */
  function StartCell(gridSize: int, length: int, i: int): Pos {
    Pos(StartRow(gridSize), StartCol(gridSize, length) + i)
  }

  /** The start cells kept free of obstacles, collected column by column from the tail's. */
  function ReservedStart(gridSize: int, length: int): set<Pos> {
    set i | 0 <= i < length :: StartCell(gridSize, length, i)
  }

  /** Both endpoints of every portal. */
  function PortalCells(portals: seq<Portal>): set<Pos> {
    (set p | p in portals :: p.a) + (set p | p in portals :: p.b)
  }

  /** Every cell obstacle placement skips. */
  function ReservedCells(gridSize: int, length: int, portals: seq<Portal>): set<Pos> {
    ReservedStart(gridSize, length) + PortalCells(portals)
  }

  /** Obstacle cells accepted from a stream of draws, in order of acceptance: a draw
      is skipped when reserved or already taken; drawing stops once `count` cells are
      held, or when the supplied draws run out. */
  function AcceptObstacles(draws: seq<Pos>, reserved: set<Pos>, count: int, taken: seq<Pos>): seq<Pos>
    decreases |draws|
  {
    if |taken| >= count || draws == [] then taken
    else if draws[0] in reserved || draws[0] in taken then AcceptObstacles(draws[1..], reserved, count, taken)
    else AcceptObstacles(draws[1..], reserved, count, taken + [draws[0]])
  }

  /** The first draw on neither the snake nor an obstacle; none when every supplied
      draw is blocked. */
  function FirstFree(draws: seq<Pos>, snake: seq<Pos>, obstacles: seq<Pos>): (r: Option<Pos>)
    ensures r.Some? ==> r.value in draws && r.value !in snake && r.value !in obstacles
    ensures r.Some? ==>
              exists k :: 0 <= k < |draws| && draws[k] == r.value &&
                (forall j :: 0 <= j < k ==> draws[j] in snake || draws[j] in obstacles)
    ensures r.None? <==> forall j :: 0 <= j < |draws| ==> draws[j] in snake || draws[j] in obstacles
  {
    if draws == [] then None
    else if draws[0] in snake || draws[0] in obstacles then
      var r := FirstFree(draws[1..], snake, obstacles);
      assert forall j :: 1 <= j < |draws| ==> draws[j] == draws[1..][j - 1];
      r
    else Some(draws[0])
  }

  /** The starting body lies on the middle row, head rightmost, each segment the left
      neighbour of the one before it, no cell twice. */
  lemma StartingBodyShape(gridSize: int, length: int)
    requires length >= 1
    ensures var body := StartingBody(gridSize, length);
      |body| == length && body[0] == StartCell(gridSize, length, length - 1) &&
      (forall k :: 0 <= k < |body| ==> body[k].row == StartRow(gridSize)) &&
      (forall k :: 0 <= k < |body| - 1 ==> body[k + 1] == Step(body[k], Left)) &&
      Distinct(body)
  {
    var body := StartingBody(gridSize, length);
    assert forall k :: 0 <= k < |body| ==> body[k] == StartCell(gridSize, length, length - 1 - k);
  }

  /** The cells kept free of obstacles at the start are exactly the starting body's. */
  lemma StartingBodyIsReserved(gridSize: int, length: int)
    ensures forall p :: p in StartingBody(gridSize, length) <==> p in ReservedStart(gridSize, length)
  {
    var body := StartingBody(gridSize, length);
    forall p | p in body ensures p in ReservedStart(gridSize, length) {
      var k :| 0 <= k < |body| && body[k] == p;
      assert p == StartCell(gridSize, length, length - 1 - k);
    }
    forall p | p in ReservedStart(gridSize, length) ensures p in body {
      var i :| 0 <= i < length && p == StartCell(gridSize, length, i);
      assert body[length - 1 - i] == p;
    }
  }

  /** With the built-in 20 by 20 field and length 3 the body is (10,11), (10,10), (10,9). */
  lemma DefaultStartingBody()
    ensures StartingBody(20, 3) == [Pos(10, 11), Pos(10, 10), Pos(10, 9)]
  {
    assert StartRow(20) == 10 && StartCol(20, 3) == 9;
    assert StartCell(20, 3, 2) == Pos(10, 11);
    var body := StartingBody(20, 3);
    assert |body| == 3 && body[0] == StartCell(20, 3, 2);
  }

  /** What obstacle acceptance guarantees, from any sound partial result `taken`: the
      cells are distinct and unreserved, extend `taken` with drawn cells, stay within
      `count`, and fall short of `count` only when every unreserved draw was accepted. */
  lemma {:induction false} AcceptObstaclesFacts(draws: seq<Pos>, reserved: set<Pos>, count: int, taken: seq<Pos>)
    requires Distinct(taken)
    requires forall c :: c in taken ==> c !in reserved
    requires |taken| <= count || taken == []
    ensures var cells := AcceptObstacles(draws, reserved, count, taken);
      Distinct(cells) && taken <= cells &&
      (forall c :: c in cells ==> c !in reserved && (c in taken || c in draws)) &&
      (|cells| <= count || cells == []) &&
      (|cells| < count ==> forall j :: 0 <= j < |draws| ==> draws[j] in reserved || draws[j] in cells)
    decreases |draws|
  {
    if |taken| >= count || draws == [] {
    } else {
      var next := if draws[0] in reserved || draws[0] in taken then taken else taken + [draws[0]];
      AcceptObstaclesFacts(draws[1..], reserved, count, next);
      var cells := AcceptObstacles(draws, reserved, count, taken);
      assert cells == AcceptObstacles(draws[1..], reserved, count, next);
      assert taken <= next <= cells;
      forall j | 0 <= j < |draws| && |cells| < count
        ensures draws[j] in reserved || draws[j] in cells
      {
        if j > 0 {
          assert draws[j] == draws[1..][j - 1];
        } else if draws[0] !in reserved {
          assert draws[0] in next;
        }
      }
    }
  }

  /** Obstacle acceptance from scratch: at most `count` distinct, unreserved, drawn
      cells, and exactly `count` unless the draws ran out first. */
  lemma ObstaclesSound(draws: seq<Pos>, reserved: set<Pos>, count: int)
    ensures var cells := AcceptObstacles(draws, reserved, count, []);
      Distinct(cells) && |cells| <= Max(count, 0) &&
      (forall c :: c in cells ==> c !in reserved && c in draws) &&
      (|cells| < count ==> forall j :: 0 <= j < |draws| ==> draws[j] in reserved || draws[j] in cells)
  {
    AcceptObstaclesFacts(draws, reserved, count, []);
  }
}
