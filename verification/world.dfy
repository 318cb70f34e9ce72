/**
 * The shared game state of the tank game (examples/tanks/world.js and its
 * twin scenarios/tanks/world.js): the player, the enemies, the bullets in
 * flight, the bricks (as a list and as a grid of cells), and the queue of
 * draw calls deferred to the end of a frame.
 */
module World {
  import opened Common
  import opened Entities

  const BRICK_SIZE := 20
  /** `Math.floor(200 / BRICK_SIZE)` */
  const MAP_ROWS := 200 / BRICK_SIZE
  /** `Math.floor(320 / BRICK_SIZE)` */
  const MAP_COLS := 320 / BRICK_SIZE
  /** Pixels per second. */
  const PLAYER_MOVE_SPEED := 30.0
  const AI_MOVE_SPEED := 10.0

  /** A draw function handed to `drawOnTop`; the only one the game queues is a tank's health bar. */
  datatype DrawCall = HealthBar(tank: Tank)

  /** The grid cell (row or column) a world coordinate falls in. */
  function Cell(coord: real): int
  {
    (coord / BRICK_SIZE as real).Floor
  }

  /** A brick sits exactly on a cell corner inside the map. */
  predicate OnGrid(b: Brick)
  {
    Cell(b.y) as real * BRICK_SIZE as real == b.y && Cell(b.x) as real * BRICK_SIZE as real == b.x &&
    0 <= Cell(b.y) < MAP_ROWS && 0 <= Cell(b.x) < MAP_COLS
  }

  /** The brick placed at the corner of cell (row, col) is on the grid, in that cell. */
  lemma CellOfCorner(row: int, col: int)
    requires 0 <= row < MAP_ROWS && 0 <= col < MAP_COLS
    ensures Cell(row as real * BRICK_SIZE as real) == row
    ensures Cell(col as real * BRICK_SIZE as real) == col
  {
  }

  class World {
    var player: Tank?
    var enemies: seq<Tank>
    var bullets: seq<Bullet>
    /** All bricks. */
    var bricks: seq<Brick>
    /** References to the bricks by cell: `brickMatrix[row][col]`. */
    const brickMatrix: array2<Brick?>
    var drawOnTopQueue: seq<DrawCall>
    /** `Bullet.sprites[o].bbox` for every orientation `o`, shared by every bullet. */
    const bulletBoxes: OrientedBoxes

    /** An empty world: no tanks, no bullets, no bricks, an empty grid. */
    constructor (bulletBoxes: OrientedBoxes)
      ensures player == null && enemies == [] && bullets == [] && bricks == [] && drawOnTopQueue == []
      ensures this.bulletBoxes == bulletBoxes
      ensures fresh(brickMatrix)
      ensures Valid()
    {
      player := null;
      enemies := [];
      bullets := [];
      bricks := [];
      drawOnTopQueue := [];
      this.bulletBoxes := bulletBoxes;
      brickMatrix := new Brick?[MAP_ROWS, MAP_COLS]((i, j) => null);
    }

    /** Every tank in the world: the player (once placed) and the enemies. */
    function Tanks(): set<Tank>
      reads this`player, this`enemies
    {
      (if player == null then {} else {player}) + set t | t in enemies
    }

    function BrickSet(): set<Brick>
      reads this`bricks
    {
      set b | b in bricks
    }

    /** Every listed brick sits on the corner of its own cell and is referenced from it. */
    ghost predicate BricksInCells()
      reads this`bricks, brickMatrix
    {
      brickMatrix.Length0 == MAP_ROWS && brickMatrix.Length1 == MAP_COLS &&
      forall b :: b in bricks ==> OnGrid(b) && brickMatrix[Cell(b.y), Cell(b.x)] == b
    }

    /** Every non-empty cell references a listed brick lying in that cell. */
    ghost predicate CellsHoldBricks()
      reads this`bricks, brickMatrix
    {
      brickMatrix.Length0 == MAP_ROWS && brickMatrix.Length1 == MAP_COLS &&
      forall r, c :: 0 <= r < MAP_ROWS && 0 <= c < MAP_COLS && brickMatrix[r, c] != null ==>
                       brickMatrix[r, c] in bricks && Cell(brickMatrix[r, c].y) == r && Cell(brickMatrix[r, c].x) == c
    }

    /**
     * The brick list and the brick grid describe the same bricks: the grid
     * has MAP_ROWS x MAP_COLS cells, no brick is listed twice, every brick
     * sits on the corner of its own cell and is referenced from it, and
     * every non-empty cell references a listed brick lying in that cell.
     */
    ghost predicate Valid()
      reads this`bricks, brickMatrix
    {
      Distinct(bricks) && BricksInCells() && CellsHoldBricks()
    }

    /** `drawOnTop(fn)`: queues a draw call behind the ones already queued. */
    method DrawOnTop(fn: DrawCall)
      modifies this`drawOnTopQueue
      ensures drawOnTopQueue == old(drawOnTopQueue) + [fn]
    {
      drawOnTopQueue := drawOnTopQueue + [fn];
    }

    /** `drawOnTopExec`: invokes every queued call in queue order, then empties the queue. */
    method DrawOnTopExec() returns (invoked: seq<DrawCall>)
      modifies this`drawOnTopQueue
      ensures invoked == old(drawOnTopQueue)
      ensures drawOnTopQueue == []
    {
      invoked := [];
      for k := 0 to |drawOnTopQueue|
        invariant invoked == drawOnTopQueue[..k]
      {
        invoked := invoked + [drawOnTopQueue[k]];
      }
      drawOnTopQueue := [];
    }
  }

  /** In a valid world, a brick's cell holds that brick and no other brick shares the cell. */
  lemma BricksOwnTheirCells(w: World, b1: Brick, b2: Brick)
    requires w.Valid() && b1 in w.bricks && b2 in w.bricks
    ensures w.brickMatrix[Cell(b1.y), Cell(b1.x)] == b1
    ensures Cell(b1.y) == Cell(b2.y) && Cell(b1.x) == Cell(b2.x) ==> b1 == b2
  {
  }
}
