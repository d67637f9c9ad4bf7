/** The square playing field: cells, the four headings and one-cell steps. */
module Grid {

  /** A cell by row and column, 0-indexed. Cells off the field are representable,
      because the head is moved first and only then checked against the walls. */
  datatype Pos = Pos(row: int, col: int)

  datatype Direction = Up | Down | Left | Right

  /** Two linked cells of a level. */
  datatype Portal = Portal(a: Pos, b: Pos)

  /** The heading a snake may not turn into directly. */
  function Opposite(d: Direction): (o: Direction)
    ensures o != d
    ensures (d == Up || d == Down) <==> (o == Up || o == Down)
  {
    match d
    case Up => Down
    case Down => Up
    case Left => Right
    case Right => Left
  }

  /** Cells that share a side. */
  predicate Adjacent(p: Pos, q: Pos) {
    (p.row == q.row && (q.col == p.col + 1 || q.col == p.col - 1)) ||
    (p.col == q.col && (q.row == p.row + 1 || q.row == p.row - 1))
  }

  /** The neighbour of `p` in heading `d`; rows grow downwards, columns to the right. */
  function Step(p: Pos, d: Direction): (q: Pos)
    ensures Adjacent(p, q)
    ensures (d == Up || d == Down) <==> q.col == p.col
  {
    match d
    case Up => Pos(p.row - 1, p.col)
    case Down => Pos(p.row + 1, p.col)
    case Left => Pos(p.row, p.col - 1)
    case Right => Pos(p.row, p.col + 1)
  }

  /** Inside the `n` by `n` field. */
  predicate InGrid(n: int, p: Pos) {
    0 <= p.row < n && 0 <= p.col < n
  }
}
