/**
 * `placeEntities`: the level is walked cell by cell and each cell gets its
 * brick, its enemy or the player, as the layout in module Level describes.
 */
module Placement {
  import opened Common
  import opened BBox
  import opened Entities
  import opened World
  import opened Level

  /** A brick cell adds a brick referenced from the cell; any other code leaves the cell empty. */
  method PlaceBrick(w: World, level: seq<seq<int>>, i: int, j: int, ghost n: nat, brickShapes: seq<Box>, enemySprites: seq<TankSprites>)
    requires IsMap(level) && HasSprites(level, brickShapes, enemySprites) && InGrid((i, j)) && n == Flat((i, j))
    requires BricksPlaced(w, level, n, brickShapes)
    modifies w`bricks, w.brickMatrix
    ensures BricksPlaced(w, level, n + 1, brickShapes)
    ensures forall b :: b in w.bricks ==> b in old(w.bricks) || fresh(b)
  {
    CellAtFlat((i, j));
    CellsWhereSound(level, n, 1, 4);
    ghost var before := CellsWhere(level, n, 1, 4);
    ghost var after := CellsWhere(level, n + 1, 1, 4);
    ghost var bricks0 := w.bricks;
    var code := level[i][j];
    if IsBrickCode(code) {
      var b := new Brick(code, j as real * BRICK_SIZE as real, i as real * BRICK_SIZE as real, brickShapes[code - 1]);
      w.bricks := w.bricks + [b];
      w.brickMatrix[i, j] := b;
      assert after == before + [(i, j)];
    } else {
      w.brickMatrix[i, j] := null;
      assert after == before;
    }
    forall m | 0 <= m < |before|
      ensures BrickFor(w.bricks[m], after[m], level, brickShapes) && w.brickMatrix[after[m].0, after[m].1] == w.bricks[m]
    {
      assert after[m] == before[m] && w.bricks[m] == bricks0[m];
      assert Flat(before[m]) < n;
    }
    forall r, c | 0 <= r < MAP_ROWS && 0 <= c < MAP_COLS && Flat((r, c)) <= n && !IsBrickCode(level[r][c])
      ensures w.brickMatrix[r, c] == null
    {
      if Flat((r, c)) == n {
        CellAtFlat((r, c));
      }
    }
  }

  /** An enemy cell adds an enemy, with an AI controller when controllers are attached. */
  method PlaceEnemy(w: World, level: seq<seq<int>>, i: int, j: int, ghost n: nat, brickShapes: seq<Box>, enemySprites: seq<TankSprites>,
                    withControllers: bool, ghost enemies0: seq<Tank>)
    requires IsMap(level) && HasSprites(level, brickShapes, enemySprites) && InGrid((i, j)) && n == Flat((i, j))
    requires EnemiesPlaced(w, level, n, enemySprites, withControllers, enemies0)
    modifies w`enemies
    ensures EnemiesPlaced(w, level, n + 1, enemySprites, withControllers, enemies0)
    ensures forall t :: t in w.enemies ==> t in old(w.enemies) || fresh(t)
  {
    CellAtFlat((i, j));
    var code := level[i][j];
    if IsEnemyCode(code) {
      var e := new Tank(enemySprites[code - 5], j as real * BRICK_SIZE as real + BRICK_SIZE as real / 2.0,
                        i as real * BRICK_SIZE as real + BRICK_SIZE as real / 2.0, Up, EnemyFaction);
      if withControllers {
        e.AddController(AIControlled);
      }
      w.enemies := w.enemies + [e];
    }
  }

  /** The player cell replaces the player, with a human controller when controllers are attached. */
  method PlacePlayer(w: World, level: seq<seq<int>>, i: int, j: int, ghost n: nat, playerSprites: TankSprites, withControllers: bool,
                     ghost player0: Tank?)
    requires IsMap(level) && InGrid((i, j)) && n == Flat((i, j))
    requires PlayerPlaced(w, level, n, playerSprites, withControllers, player0)
    modifies w`player
    ensures PlayerPlaced(w, level, n + 1, playerSprites, withControllers, player0)
    ensures w.player == old(w.player) || fresh(w.player)
  {
    CellAtFlat((i, j));
    if level[i][j] == PLAYER_CODE {
      var p := new Tank(playerSprites, j as real * BRICK_SIZE as real + BRICK_SIZE as real / 2.0,
                        i as real * BRICK_SIZE as real + BRICK_SIZE as real / 2.0, Up, PlayerFaction);
      if withControllers {
        p.AddController(HumanControlled);
      }
      w.player := p;
    }
  }

  /** One cell of `placeEntities`: its brick, its enemy or the player, as its code says. */
  method PlaceCell(w: World, level: seq<seq<int>>, i: int, j: int, ghost n: nat, brickShapes: seq<Box>, enemySprites: seq<TankSprites>,
                   playerSprites: TankSprites, withControllers: bool, ghost enemies0: seq<Tank>, ghost player0: Tank?)
    requires IsMap(level) && HasSprites(level, brickShapes, enemySprites) && InGrid((i, j)) && n == Flat((i, j))
    requires Placed(w, level, n, brickShapes, enemySprites, playerSprites, withControllers, enemies0, player0)
    modifies w`bricks, w`enemies, w`player, w.brickMatrix
    ensures Placed(w, level, n + 1, brickShapes, enemySprites, playerSprites, withControllers, enemies0, player0)
    ensures forall b :: b in w.bricks ==> b in old(w.bricks) || fresh(b)
    ensures forall t :: t in w.enemies ==> t in old(w.enemies) || fresh(t)
    ensures w.player == old(w.player) || fresh(w.player)
  {
    PlaceBrick(w, level, i, j, n, brickShapes, enemySprites);
    PlaceEnemy(w, level, i, j, n, brickShapes, enemySprites, withControllers, enemies0);
    PlacePlayer(w, level, i, j, n, playerSprites, withControllers, player0);
  }

  /** Row `i` of `placeEntities`, walked left to right. */
  method PlaceRow(w: World, level: seq<seq<int>>, i: int, ghost n: nat, brickShapes: seq<Box>, enemySprites: seq<TankSprites>,
                  playerSprites: TankSprites, withControllers: bool, ghost enemies0: seq<Tank>, ghost player0: Tank?)
    returns (ghost next: nat)
    requires IsMap(level) && HasSprites(level, brickShapes, enemySprites) && 0 <= i < MAP_ROWS && n == RowStart(i)
    requires Placed(w, level, n, brickShapes, enemySprites, playerSprites, withControllers, enemies0, player0)
    modifies w`bricks, w`enemies, w`player, w.brickMatrix
    ensures next == n + MAP_COLS
    ensures Placed(w, level, next, brickShapes, enemySprites, playerSprites, withControllers, enemies0, player0)
    ensures forall b :: b in w.bricks ==> b in old(w.bricks) || fresh(b)
    ensures forall t :: t in w.enemies ==> t in old(w.enemies) || fresh(t)
    ensures w.player == old(w.player) || fresh(w.player)
  {
    var j := 0;
    ghost var k := n;
    while j < MAP_COLS
      invariant 0 <= j <= MAP_COLS && k == n + j
      invariant Placed(w, level, k, brickShapes, enemySprites, playerSprites, withControllers, enemies0, player0)
      invariant forall b :: b in w.bricks ==> b in old(w.bricks) || fresh(b)
      invariant forall t :: t in w.enemies ==> t in old(w.enemies) || fresh(t)
      invariant w.player == old(w.player) || fresh(w.player)
    {
      PlaceCell(w, level, i, j, k, brickShapes, enemySprites, playerSprites, withControllers, enemies0, player0);
      j, k := j + 1, k + 1;
    }
    next := k;
  }

  /** Walking every cell puts each listed brick on its own cell's corner, referenced from that cell. */
  lemma PlacedBricksInCells(w: World, level: seq<seq<int>>, brickShapes: seq<Box>)
    requires IsMap(level) && BricksPlaced(w, level, CELLS, brickShapes)
    ensures w.BricksInCells()
  {
    var at := CellsWhere(level, CELLS, 1, 4);
    forall m | 0 <= m < |at|
      ensures OnGrid(w.bricks[m]) && w.brickMatrix[Cell(w.bricks[m].y), Cell(w.bricks[m].x)] == w.bricks[m]
    {
      CellOfCorner(at[m].0, at[m].1);
    }
  }

  /**
   * Walking every cell leaves a brick in exactly the cells with a brick
   * code, each a listed brick lying in that cell.
   */
  lemma PlacedCellsHoldBricks(w: World, level: seq<seq<int>>, brickShapes: seq<Box>)
    requires IsMap(level) && BricksPlaced(w, level, CELLS, brickShapes)
    ensures w.CellsHoldBricks()
    ensures forall r, c :: 0 <= r < MAP_ROWS && 0 <= c < MAP_COLS ==> (w.brickMatrix[r, c] != null <==> IsBrickCode(level[r][c]))
  {
    var at := CellsWhere(level, CELLS, 1, 4);
    CellsWhereComplete(level, CELLS, 1, 4);
    forall r, c | 0 <= r < MAP_ROWS && 0 <= c < MAP_COLS && IsBrickCode(level[r][c])
      ensures w.brickMatrix[r, c] != null && w.brickMatrix[r, c] in w.bricks &&
              Cell(w.brickMatrix[r, c].y) == r && Cell(w.brickMatrix[r, c].x) == c
    {
      var m :| 0 <= m < |at| && at[m] == (r, c);
      CellOfCorner(r, c);
      assert w.brickMatrix[r, c] == w.bricks[m];
    }
  }

  /**
   * `placeEntities` on a world with no bricks yet: every cell of the level,
   * row by row and each row left to right, gets its brick, its enemy or the
   * player. Afterwards the bricks and the grid agree, the grid cells
   * holding a brick are exactly the brick cells of the level, the enemies of
   * the level follow the enemies there before, and the player is that of
   * the last player cell (the one before when the level has none). Every
   * brick, enemy and player placed is new. `withControllers` attaches an AI
   * controller to each enemy and a human controller to the player, as
   * examples/tanks/tanks-scenario.js does; scenarios/tanks/tanks.mjs attaches none.
   */
  method PlaceEntities(w: World, level: seq<seq<int>>, brickShapes: seq<Box>, enemySprites: seq<TankSprites>,
                       playerSprites: TankSprites, withControllers: bool)
    requires IsMap(level) && HasSprites(level, brickShapes, enemySprites)
    requires w.bricks == [] && w.brickMatrix.Length0 == MAP_ROWS && w.brickMatrix.Length1 == MAP_COLS
    modifies w`bricks, w`enemies, w`player, w.brickMatrix
    ensures w.Valid()
    ensures BricksPlaced(w, level, CELLS, brickShapes) && forall b :: b in w.bricks ==> fresh(b)
    ensures forall r, c :: 0 <= r < MAP_ROWS && 0 <= c < MAP_COLS ==> (w.brickMatrix[r, c] != null <==> IsBrickCode(level[r][c]))
    ensures EnemiesPlaced(w, level, CELLS, enemySprites, withControllers, old(w.enemies))
    ensures forall t :: t in w.enemies ==> t in old(w.enemies) || fresh(t)
    ensures PlayerPlaced(w, level, CELLS, playerSprites, withControllers, old(w.player))
    ensures w.player == old(w.player) || fresh(w.player)
  {
    ghost var enemies0, player0 := w.enemies, w.player;
    var i := 0;
    ghost var n := 0;
    while i < MAP_ROWS
      invariant 0 <= i <= MAP_ROWS && n == RowStart(i)
      invariant Placed(w, level, n, brickShapes, enemySprites, playerSprites, withControllers, enemies0, player0)
      invariant forall b :: b in w.bricks ==> fresh(b)
      invariant forall t :: t in w.enemies ==> t in enemies0 || fresh(t)
      invariant w.player == player0 || fresh(w.player)
    {
      var next := PlaceRow(w, level, i, n, brickShapes, enemySprites, playerSprites, withControllers, enemies0, player0);
      RowStartStep(i);
      i, n := i + 1, next;
    }
    PlacedBricksInCells(w, level, brickShapes);
    PlacedCellsHoldBricks(w, level, brickShapes);
  }
}
