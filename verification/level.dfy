/**
 * Level set-up of the tank game: `placeEntities` of
 * examples/tanks/tanks-scenario.js and of its twin scenarios/tanks/tanks.mjs.
 * A level map is MAP_ROWS rows of MAP_COLS codes: 0 is an empty cell, 1..4 a
 * brick of that type, 5..8 an enemy using enemy sprite set code - 5, and 9
 * the player. The level is walked row by row, each row left to right; a brick
 * sits on its cell's top-left corner and is referenced from the brick grid,
 * a tank sits on its cell's centre.
 */
module Level {
  import opened Common
  import opened BBox
  import opened Entities
  import opened World

  const CELLS := MAP_ROWS * MAP_COLS
  const PLAYER_CODE := 9

  /** A level map of MAP_ROWS rows of MAP_COLS codes each. */
  predicate IsMap(level: seq<seq<int>>)
  {
    |level| == MAP_ROWS && forall i :: 0 <= i < MAP_ROWS ==> |level[i]| == MAP_COLS
  }

  predicate InGrid(cell: (int, int))
  {
    0 <= cell.0 < MAP_ROWS && 0 <= cell.1 < MAP_COLS
  }

  predicate IsBrickCode(code: int)
  {
    1 <= code <= 4
  }

  predicate IsEnemyCode(code: int)
  {
    5 <= code <= 8
  }

  /** The position of a cell in the order the level is walked: row by row, left to right. */
  function Flat(cell: (int, int)): (n: int)
    ensures InGrid(cell) ==> 0 <= n < CELLS
  {
    assert MAP_COLS == 16 && MAP_ROWS == 10;
    cell.0 * MAP_COLS + cell.1
  }

  /** The position of the first cell of row i in walking order. */
  function RowStart(i: int): (n: nat)
    requires 0 <= i <= MAP_ROWS
    ensures forall j :: Flat((i, j)) == n + j
    ensures i < MAP_ROWS ==> n + MAP_COLS <= CELLS
    ensures i == MAP_ROWS ==> n == CELLS
  {
    assert MAP_COLS == 16 && MAP_ROWS == 10;
    i * MAP_COLS
  }

  /** Rows follow each other in walking order. */
  lemma RowStartStep(i: int)
    requires 0 <= i < MAP_ROWS
    ensures RowStart(i + 1) == RowStart(i) + MAP_COLS
  {
    assert MAP_COLS == 16;
  }

  /** The cell walked in position n. */
  function CellAt(n: nat): (cell: (int, int))
    requires n < CELLS
    ensures InGrid(cell) && Flat(cell) == n
  {
    (n / MAP_COLS, n % MAP_COLS)
  }

  /** Walking the cells in order reaches each cell of the grid exactly at its position. */
  lemma CellAtFlat(cell: (int, int))
    requires InGrid(cell)
    ensures 0 <= Flat(cell) < CELLS && CellAt(Flat(cell)) == cell
  {
    assert MAP_COLS == 16 && MAP_ROWS == 10;
  }

  /**
   * The cells among the first n walked whose code lies in lo..hi, in the
   * order they are walked: where `placeEntities` puts the bricks (1..4) and
   * the enemies (5..8).
   */
  function CellsWhere(level: seq<seq<int>>, n: nat, lo: int, hi: int): (cells: seq<(int, int)>)
    requires IsMap(level) && n <= CELLS
    ensures |cells| <= n
  {
    if n == 0 then []
    else
      var cell := CellAt(n - 1);
      CellsWhere(level, n - 1, lo, hi) + (if lo <= level[cell.0][cell.1] <= hi then [cell] else [])
  }

  /** Every listed cell is in the grid, among the first n, and has a code in lo..hi. */
  lemma {:induction false} CellsWhereSound(level: seq<seq<int>>, n: nat, lo: int, hi: int)
    requires IsMap(level) && n <= CELLS
    ensures forall m :: 0 <= m < |CellsWhere(level, n, lo, hi)| ==>
              var cell := CellsWhere(level, n, lo, hi)[m];
              InGrid(cell) && Flat(cell) < n && lo <= level[cell.0][cell.1] <= hi
  {
    if n > 0 {
      CellsWhereSound(level, n - 1, lo, hi);
    }
  }

  /** The cells are listed in walking order, so none is listed twice. */
  lemma {:induction false} CellsWhereOrdered(level: seq<seq<int>>, n: nat, lo: int, hi: int)
    requires IsMap(level) && n <= CELLS
    ensures forall m, m' :: 0 <= m < m' < |CellsWhere(level, n, lo, hi)| ==>
              Flat(CellsWhere(level, n, lo, hi)[m]) < Flat(CellsWhere(level, n, lo, hi)[m'])
  {
    if n > 0 {
      CellsWhereOrdered(level, n - 1, lo, hi);
      CellsWhereSound(level, n - 1, lo, hi);
    }
  }

  /** Every cell among the first n with a code in lo..hi is listed. */
  lemma {:induction false} CellsWhereComplete(level: seq<seq<int>>, n: nat, lo: int, hi: int)
    requires IsMap(level) && n <= CELLS
    ensures forall cell :: InGrid(cell) && Flat(cell) < n && lo <= level[cell.0][cell.1] <= hi ==>
              cell in CellsWhere(level, n, lo, hi)
  {
    if n > 0 {
      CellsWhereComplete(level, n - 1, lo, hi);
      forall cell | InGrid(cell) && Flat(cell) == n - 1
        ensures cell == CellAt(n - 1)
      {
        CellAtFlat(cell);
      }
    }
  }

  /** The last cell among the first n walked that holds the player code, if any. */
  function LastPlayerCell(level: seq<seq<int>>, n: nat): Option<(int, int)>
    requires IsMap(level) && n <= CELLS
  {
    if n == 0 then None
    else
      var cell := CellAt(n - 1);
      if level[cell.0][cell.1] == PLAYER_CODE then Some(cell) else LastPlayerCell(level, n - 1)
  }

  /**
   * Each player code overwrites `world.player`, so the player placed is the
   * one of the last player cell walked; with no player cell none is placed.
   */
  lemma {:induction false} LastPlayerCellIsLast(level: seq<seq<int>>, n: nat)
    requires IsMap(level) && n <= CELLS
    ensures LastPlayerCell(level, n).Some? ==>
              var cell := LastPlayerCell(level, n).value;
              InGrid(cell) && Flat(cell) < n && level[cell.0][cell.1] == PLAYER_CODE &&
              forall later :: InGrid(later) && Flat(cell) < Flat(later) < n ==> level[later.0][later.1] != PLAYER_CODE
    ensures LastPlayerCell(level, n).None? ==>
              forall cell :: InGrid(cell) && Flat(cell) < n ==> level[cell.0][cell.1] != PLAYER_CODE
  {
    if n > 0 {
      LastPlayerCellIsLast(level, n - 1);
      forall cell | InGrid(cell) && Flat(cell) == n - 1
        ensures cell == CellAt(n - 1)
      {
        CellAtFlat(cell);
      }
    }
  }

  /** The centre of cell `i` along one axis: `i * BRICK_SIZE + BRICK_SIZE / 2`. */
  function Centre(i: int): real
  {
    i as real * BRICK_SIZE as real + BRICK_SIZE as real / 2.0
  }

  /** A tank on a cell's centre lies in that cell. */
  lemma CellOfCentre(i: int)
    ensures Cell(Centre(i)) == i
  {
  }

  /** Every brick code of the level has a brick sprite and every enemy code an enemy sprite set. */
  predicate HasSprites(level: seq<seq<int>>, brickShapes: seq<Box>, enemySprites: seq<TankSprites>)
    requires IsMap(level)
  {
    forall r, c :: 0 <= r < MAP_ROWS && 0 <= c < MAP_COLS ==>
      (IsBrickCode(level[r][c]) ==> level[r][c] <= |brickShapes|) &&
      (IsEnemyCode(level[r][c]) ==> level[r][c] - 5 < |enemySprites|)
  }

  /**
   * `new Brick(code, x, y)` for a brick cell: the brick has the cell's code
   * as its type and that type's sprite box, sits on the cell's top-left
   * corner and is whole.
   */
  predicate BrickFor(b: Brick, cell: (int, int), level: seq<seq<int>>, brickShapes: seq<Box>)
    reads b`isDead
  {
    IsMap(level) && InGrid(cell) &&
    var code := level[cell.0][cell.1];
    1 <= code <= |brickShapes| && b.brickType == code && b.shape == brickShapes[code - 1] &&
    b.x == cell.1 as real * BRICK_SIZE as real && b.y == cell.0 as real * BRICK_SIZE as real && !b.isDead
  }

  /**
   * A tank as `new Tank(sprites, x, y, "up", identity)` leaves it, with
   * `controller` attached: facing up, full health, a loaded gun, nothing planned.
   */
  predicate NewTank(t: Tank, sprites: TankSprites, x: real, y: real, identity: Faction, controller: ControllerKind)
    reads t
  {
    t.sprites == sprites && t.identity == identity && t.x == x && t.y == y && t.orientation == Up &&
    t.health == TANK_HEALTH && t.timeSinceLastFire == TANK_INITIAL_TIME_SINCE_FIRE &&
    t.fireInterval == TANK_FIRE_INTERVAL && t.bulletSpeed == TANK_BULLET_SPEED &&
    t.controller == controller && t.plan == None
  }

  /** The enemy of an enemy cell: sprite set code - 5, on the cell's centre, with an AI controller when controllers are attached. */
  predicate EnemyFor(t: Tank, cell: (int, int), level: seq<seq<int>>, enemySprites: seq<TankSprites>, withControllers: bool)
    reads t
  {
    IsMap(level) && InGrid(cell) &&
    var code := level[cell.0][cell.1];
    5 <= code < |enemySprites| + 5 &&
    NewTank(t, enemySprites[code - 5], Centre(cell.1), Centre(cell.0), EnemyFaction,
            if withControllers then AIControlled else NoController)
  }

  /** The player of a player cell: on the cell's centre, with a human controller when controllers are attached. */
  predicate PlayerFor(t: Tank, cell: (int, int), playerSprites: TankSprites, withControllers: bool)
    reads t
  {
    NewTank(t, playerSprites, Centre(cell.1), Centre(cell.0), PlayerFaction,
            if withControllers then HumanControlled else NoController)
  }

  /**
   * The bricks once the first n cells have been walked: those of the brick
   * cells walked, in walking order, each referenced from its grid cell;
   * every other walked cell of the grid is empty.
   */
  ghost predicate BricksPlaced(w: World, level: seq<seq<int>>, n: nat, brickShapes: seq<Box>)
    requires IsMap(level) && n <= CELLS
    reads w`bricks, w.brickMatrix, w.bricks`isDead
  {
    var bricksAt := CellsWhere(level, n, 1, 4);
    w.brickMatrix.Length0 == MAP_ROWS && w.brickMatrix.Length1 == MAP_COLS &&
    |w.bricks| == |bricksAt| && Distinct(w.bricks) &&
    (forall m :: 0 <= m < |bricksAt| ==>
       BrickFor(w.bricks[m], bricksAt[m], level, brickShapes) && w.brickMatrix[bricksAt[m].0, bricksAt[m].1] == w.bricks[m]) &&
    (forall r, c :: 0 <= r < MAP_ROWS && 0 <= c < MAP_COLS && Flat((r, c)) < n && !IsBrickCode(level[r][c]) ==>
       w.brickMatrix[r, c] == null)
  }

  /** The enemies once the first n cells have been walked: those of the enemy cells walked follow `enemies0`, in walking order. */
  ghost predicate EnemiesPlaced(w: World, level: seq<seq<int>>, n: nat, enemySprites: seq<TankSprites>, withControllers: bool,
                                enemies0: seq<Tank>)
    requires IsMap(level) && n <= CELLS
    reads w`enemies, w.enemies
  {
    var enemiesAt := CellsWhere(level, n, 5, 8);
    |w.enemies| == |enemies0| + |enemiesAt| && w.enemies[..|enemies0|] == enemies0 &&
    forall m :: 0 <= m < |enemiesAt| ==> EnemyFor(w.enemies[|enemies0| + m], enemiesAt[m], level, enemySprites, withControllers)
  }

  /** The player once the first n cells have been walked: that of the last player cell walked, or `player0` if there is none yet. */
  ghost predicate PlayerPlaced(w: World, level: seq<seq<int>>, n: nat, playerSprites: TankSprites, withControllers: bool, player0: Tank?)
    requires IsMap(level) && n <= CELLS
    reads w`player, w.player
  {
    match LastPlayerCell(level, n)
    case None => w.player == player0
    case Some(cell) => w.player != null && PlayerFor(w.player, cell, playerSprites, withControllers)
  }

  /** The bricks, the enemies and the player once the first n cells have been walked. */
  ghost predicate Placed(w: World, level: seq<seq<int>>, n: nat, brickShapes: seq<Box>, enemySprites: seq<TankSprites>,
                         playerSprites: TankSprites, withControllers: bool, enemies0: seq<Tank>, player0: Tank?)
    requires IsMap(level) && n <= CELLS
    reads w`bricks, w`enemies, w`player, w.brickMatrix, w.bricks`isDead, w.enemies, w.player
  {
    BricksPlaced(w, level, n, brickShapes) &&
    EnemiesPlaced(w, level, n, enemySprites, withControllers, enemies0) &&
    PlayerPlaced(w, level, n, playerSprites, withControllers, player0)
  }
}
