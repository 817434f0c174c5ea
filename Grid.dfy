/** The board of the snake game: a 400 x 400 canvas divided into 20-unit cells,
    the four headings, the random cell choices of the spawner, and the
    "is this cell part of the body" scan. */
module Grid {

  datatype Option<T> = None | Some(value: T)

  /** Side of one cell, in canvas units. */
  const Box := 20
  const Width := 400
  const Height := 400
  /** Number of cells along one side of the board (400 / 20). */
  const Cols := 20

  /** A grid index as produced by `Math.floor(Math.random() * 20)`. */
  type GridIndex = i: int | 0 <= i < Cols

  /** A cell, addressed by its top-left corner in canvas units. */
  datatype Cell = Cell(x: int, y: int)

  /** The four headings; "no heading yet" is `None` of an `Option<Direction>`. */
  datatype Direction = Up | Down | Left | Right

  /** One random cell choice: a column and a row, each in 0..19. */
  datatype Pick = Pick(col: GridIndex, row: GridIndex)

  function Opposite(d: Direction): (r: Direction)
    ensures r != d
  {
    match d
    case Up => Down
    case Down => Up
    case Left => Right
    case Right => Left
  }

  predicate InBoard(c: Cell) {
    0 <= c.x < Width && 0 <= c.y < Height
  }

  predicate Aligned(c: Cell) {
    c.x % Box == 0 && c.y % Box == 0
  }

  /** A cell the game can draw: inside the canvas and on the 20-unit lattice. */
  predicate OnGrid(c: Cell) {
    InBoard(c) && Aligned(c)
  }

  /** Two cells that share a side. */
  predicate Neighbours(a: Cell, b: Cell) {
    (a.x == b.x && (a.y == b.y + Box || a.y + Box == b.y)) ||
    (a.y == b.y && (a.x == b.x + Box || a.x + Box == b.x))
  }

  /** The head cell after one tick in the stored direction; with no direction
      the head stays where it is. */
  function Move(c: Cell, d: Option<Direction>): (r: Cell)
    ensures d == None ==> r == c
    ensures d.Some? ==> Neighbours(r, c) && Neighbours(c, r)
    ensures Aligned(c) ==> Aligned(r)
  {
    match d
    case None => c
    case Some(Up) => c.(y := c.y - Box)
    case Some(Down) => c.(y := c.y + Box)
    case Some(Left) => c.(x := c.x - Box)
    case Some(Right) => c.(x := c.x + Box)
  }

  /** `spawnFood`: a uniformly chosen cell; the column and row are the two
      random draws. The cell may lie on the snake. */
  function SpawnFood(p: Pick): (c: Cell)
    ensures OnGrid(c)
    ensures 0 <= c.x <= Width - Box && 0 <= c.y <= Height - Box
    ensures c.x / Box == p.col && c.y / Box == p.row
  {
    Cell(p.col * Box, p.row * Box)
  }

  /** `spawnBonus`: with the 10% roll won, a fresh cell drawn as for food,
      otherwise no bonus. */
  function SpawnBonus(lucky: bool, p: Pick): (b: Option<Cell>)
    ensures b.Some? <==> lucky
    ensures b.Some? ==> OnGrid(b.value) && b.value.x / Box == p.col && b.value.y / Box == p.row
  {
    if lucky then Some(SpawnFood(p)) else None
  }

  /** `snake.some(s => s.x === head.x && s.y === head.y)`: a scan of the body
      from the head to the tail. */
  function Occupies(body: seq<Cell>, c: Cell): (r: bool)
    ensures r <==> c in body
    ensures r <==> exists i :: 0 <= i < |body| && body[i] == c
  {
    if body == [] then false
    else body[0] == c || Occupies(body[1..], c)
  }
}
