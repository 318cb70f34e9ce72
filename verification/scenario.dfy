/**
 * The frame update and the level set-up of the tank game: `update(dt)` and
 * `placeEntities` of examples/tanks/tanks-scenario.js, and of its twin
 * scenarios/tanks/tanks.mjs, which also steers the player from the keyboard
 * (`handlePlayerKeys`).
 */
module Scenario {
  import opened Common
  import opened Entities
  import opened World
  import opened Collision
  import opened Game
  import opened AI

  /** Whether each tank of `ts` has health above zero, in their order. */
  function Living(ts: seq<Tank>): (r: seq<bool>)
    reads ts`health
    ensures |r| == |ts| && forall j :: 0 <= j < |ts| ==> r[j] == (ts[j].health > 0)
  {
    if ts == [] then [] else Living(ts[..|ts| - 1]) + [ts[|ts| - 1].health > 0]
  }

  /** Whether each bullet of `bs` is still alive, in their order. */
  function Flying(bs: seq<Bullet>): (r: seq<bool>)
    reads (set b | b in bs)`isDead
    ensures |r| == |bs| && forall j :: 0 <= j < |bs| ==> r[j] == !bs[j].isDead
  {
    if bs == [] then [] else Flying(bs[..|bs| - 1]) + [!bs[|bs| - 1].isDead]
  }

  /** Whether each brick of `ks` is still whole, in their order. */
  function Intact(ks: seq<Brick>): (r: seq<bool>)
    reads (set k | k in ks)`isDead
    ensures |r| == |ks| && forall j :: 0 <= j < |ks| ==> r[j] == !ks[j].isDead
  {
    if ks == [] then [] else Intact(ks[..|ks| - 1]) + [!ks[|ks| - 1].isDead]
  }

  /**
   * One pass of the enemy loop of `update(dt)` on `w.enemies[i]`: the enemy
   * is updated, then spliced out if its health is zero or less. Its update
   * costs no tank any health, so it is removed exactly when it was dead
   * before; no brick breaks and bullets are only appended, fresh.
   */
  method UpdateEnemyAt(w: World, i: int, dt: real, d: Draws) returns (removed: bool)
    requires w.player != null && w.Valid() && Distinct(w.bullets) && d.Valid()
    requires 0 <= i < |w.enemies|
    modifies w`enemies, w`bullets, w.enemies[i], w.Tanks()`health, w.BrickSet()`isDead
    ensures removed == (old(w.enemies[i].health) <= 0)
    ensures w.enemies == if removed then old(w.enemies[..i] + w.enemies[i + 1..]) else old(w.enemies)
    ensures w.player == old(w.player) && w.bricks == old(w.bricks) && w.Valid()
    ensures forall t: Tank :: old(allocated(t)) ==> t.health == old(t.health)
    ensures forall b: Brick :: old(allocated(b)) ==> b.isDead == old(b.isDead)
    ensures |w.bullets| >= |old(w.bullets)| && w.bullets[..|old(w.bullets)|] == old(w.bullets)
    ensures forall j :: |old(w.bullets)| <= j < |w.bullets| ==> fresh(w.bullets[j])
    ensures Distinct(w.bullets)
  {
    var enemy := w.enemies[i];
    var _ := TankUpdate(w, enemy, dt, d);
    removed := enemy.health <= 0;
    if removed {
      w.enemies := w.enemies[..i] + w.enemies[i + 1..];
    }
  }

  /**
   * The body of the enemy loop of `update(dt)`, stated on the loop's own
   * terms: `es` and `alive` are the enemies and whether each was alive when
   * the loop started, the first `i` enemies are the kept ones among the
   * first `k` of `es`, and the rest are the ones not yet updated. After the
   * next enemy is updated the same holds for `k + 1`, and `next` is where the
   * loop goes on.
   */
  method UpdateNextEnemy(w: World, i: int, dt: real, d: Draws, ghost es: seq<Tank>, ghost alive: seq<bool>, ghost k: int)
    returns (next: int)
    requires w.player != null && w.Valid() && Distinct(w.bullets) && d.Valid()
    requires |es| == |alive| && 0 <= k < |es| && 0 <= i < |w.enemies|
    requires w.enemies[..i] == Keep(es[..k], alive[..k]) && w.enemies[i..] == es[k..]
    requires alive[k] == (w.enemies[i].health > 0) && forall t :: t in w.enemies ==> t in es
    modifies w`enemies, w`bullets, w.enemies[i], w.Tanks()`health, w.BrickSet()`isDead
    ensures 0 <= next <= |w.enemies| && next == if alive[k] then i + 1 else i
    ensures w.enemies[..next] == Keep(es[..k + 1], alive[..k + 1]) && w.enemies[next..] == es[k + 1..]
    ensures forall t :: t in w.enemies ==> t in es
    ensures w.player == old(w.player) && w.bricks == old(w.bricks) && w.Valid()
    ensures forall t: Tank :: old(allocated(t)) ==> t.health == old(t.health)
    ensures forall b: Brick :: old(allocated(b)) ==> b.isDead == old(b.isDead)
    ensures |w.bullets| >= |old(w.bullets)| && w.bullets[..|old(w.bullets)|] == old(w.bullets)
    ensures forall b :: b in w.bullets ==> b in old(w.bullets) || fresh(b)
    ensures Distinct(w.bullets)
  {
    ghost var before := w.enemies;
    var removed := UpdateEnemyAt(w, i, dt, d);
    assert alive[..k + 1][..k] == alive[..k];
    KeepSplice(before, w.enemies, i, removed, es, alive[..k + 1], k);
    next := if removed then i else i + 1;
  }

  /**
   * The enemy loop of `update(dt)`: every enemy is updated in list order
   * (with the random draws `draws[k]` for the k-th), and an enemy whose
   * health is zero or less is then spliced out. An enemy's update never
   * costs any tank health, so the enemies that remain are exactly those
   * that were alive before the loop, in their order; no brick breaks,
   * bullets are only appended, and the brick bookkeeping stays valid.
   */
  method UpdateEnemies(w: World, dt: real, draws: seq<Draws>)
    requires w.player != null && w.Valid() && Distinct(w.bullets)
    requires |draws| == |w.enemies| && forall k :: 0 <= k < |draws| ==> draws[k].Valid()
    modifies w`enemies, w`bullets, w.enemies, w.Tanks()`health, w.BrickSet()`isDead
    ensures w.enemies == Keep(old(w.enemies), old(Living(w.enemies)))
    ensures w.player == old(w.player) && w.bricks == old(w.bricks) && w.Valid()
    ensures forall t: Tank :: old(allocated(t)) ==> t.health == old(t.health)
    ensures forall b: Brick :: old(allocated(b)) ==> b.isDead == old(b.isDead)
    ensures |w.bullets| >= |old(w.bullets)| && w.bullets[..|old(w.bullets)|] == old(w.bullets)
    ensures forall b :: b in w.bullets ==> b in old(w.bullets) || fresh(b)
    ensures Distinct(w.bullets)
  {
    ghost var es, alive := w.enemies, Living(w.enemies);
    var i := 0;
    var k := 0;  // how many enemies have been updated
    while i < |w.enemies|
      invariant 0 <= k <= |es| && 0 <= i <= |w.enemies|
      invariant w.enemies[..i] == Keep(es[..k], alive[..k]) && w.enemies[i..] == es[k..]
      invariant forall t :: t in w.enemies ==> t in es
      invariant w.player == old(w.player) && w.bricks == old(w.bricks) && w.Valid()
      invariant forall t: Tank :: old(allocated(t)) ==> t.health == old(t.health)
      invariant forall b: Brick :: old(allocated(b)) ==> b.isDead == old(b.isDead)
      invariant |w.bullets| >= |old(w.bullets)| && w.bullets[..|old(w.bullets)|] == old(w.bullets)
      invariant forall b :: b in w.bullets ==> b in old(w.bullets) || fresh(b)
      invariant Distinct(w.bullets)
      decreases |es| - k
    {
      assert w.enemies[i] == es[k];
      i := UpdateNextEnemy(w, i, dt, draws[k], es, alive, k);
      k := k + 1;
    }
    assert es[..k] == es && alive[..k] == alive;
  }

  /**
   * The body of the bullet loop of `update(dt)`, stated on the loop's own
   * terms: `bs` are the bullets when the loop started, `alive` says for the
   * first `k` of them whether they survived their update, the first `i`
   * bullets of the list are the survivors among those `k` and the rest are
   * the ones not yet updated. The next bullet is updated and spliced out if
   * it is dead; then the same holds for `k + 1`, and `next` is where the loop
   * goes on. A bullet only ever costs health and only ever breaks bricks.
   */
  method UpdateNextBullet(w: World, i: int, dt: real, ghost bs: seq<Bullet>, ghost alive: seq<bool>, ghost k: int)
    returns (next: int)
    requires w.player != null && w.Valid() && Distinct(bs)
    requires |alive| == k && 0 <= k < |bs| && 0 <= i < |w.bullets|
    requires w.bullets[..i] == Keep(bs[..k], alive) && w.bullets[i..] == bs[k..]
    requires forall j :: 0 <= j < k ==> alive[j] == !bs[j].isDead
    modifies w`bullets, w.bullets[i], w.Tanks()`health, w.BrickSet()`isDead
    ensures next == if bs[k].isDead then i else i + 1
    ensures next <= |w.bullets| && w.bullets[..next] == Keep(bs[..k + 1], alive + [!bs[k].isDead])
    ensures w.bullets[next..] == bs[k + 1..]
    ensures forall j :: 0 <= j < k ==> alive[j] == !bs[j].isDead
    ensures w.player == old(w.player) && w.enemies == old(w.enemies) && w.bricks == old(w.bricks) && w.Valid()
    ensures forall t: Tank :: old(allocated(t)) ==> t.health <= old(t.health)
    ensures forall b: Brick :: old(allocated(b)) && old(b.isDead) ==> b.isDead
  {
    var b := w.bullets[i];
    ghost var before := w.bullets;
    var _ := BulletUpdate(w, b, dt);
    if b.isDead {
      w.bullets := w.bullets[..i] + w.bullets[i + 1..];
      next := i;
    } else {
      next := i + 1;
    }
    KeepSplice(before, w.bullets, i, b.isDead, bs, alive + [!b.isDead], k);
  }

  /**
   * When `alive` records, bullet by bullet, that the bullet is not dead, the
   * bullets it keeps are the ones `Flying` keeps: live ones, none twice.
   */
  lemma SurvivingBullets(bs: seq<Bullet>, alive: seq<bool>)
    requires Distinct(bs) && |alive| == |bs| && forall j :: 0 <= j < |bs| ==> alive[j] == !bs[j].isDead
    ensures Keep(bs, alive) == Keep(bs, Flying(bs))
    ensures forall b :: b in Keep(bs, alive) ==> !b.isDead
    ensures Distinct(Keep(bs, alive))
  {
    assert alive == Flying(bs);
    KeptAreFlagged(bs, alive);
    KeepDistinct(bs, alive);
  }

  /**
   * The bullet loop of `update(dt)`: every bullet is updated in list order,
   * and a bullet that is dead afterwards is spliced out. The bullets that
   * remain are exactly those alive after their update, in their order, and
   * none of them is dead; no tank gains health and no brick is mended.
   */
  method UpdateBullets(w: World, dt: real) returns (ghost alive: seq<bool>)
    requires w.player != null && w.Valid() && Distinct(w.bullets)
    modifies w`bullets, (set b | b in w.bullets)
    modifies w.Tanks()`health, w.BrickSet()`isDead
    ensures |alive| == |old(w.bullets)| && forall j :: 0 <= j < |alive| ==> alive[j] == !old(w.bullets)[j].isDead
    ensures w.bullets == Keep(old(w.bullets), alive) && alive == Flying(old(w.bullets))
    ensures forall b :: b in w.bullets ==> !b.isDead
    ensures Distinct(w.bullets)
    ensures w.player == old(w.player) && w.enemies == old(w.enemies) && w.bricks == old(w.bricks) && w.Valid()
    ensures forall t: Tank :: old(allocated(t)) ==> t.health <= old(t.health)
    ensures forall b: Brick :: old(allocated(b)) && old(b.isDead) ==> b.isDead
  {
    ghost var bs := w.bullets;
    alive := [];
    var i := 0;
    var k := 0;  // how many bullets have been updated
    while i < |w.bullets|
      invariant 0 <= k <= |bs| && |alive| == k && 0 <= i <= |w.bullets|
      invariant w.bullets[..i] == Keep(bs[..k], alive) && w.bullets[i..] == bs[k..]
      invariant forall j :: 0 <= j < k ==> alive[j] == !bs[j].isDead
      invariant w.player == old(w.player) && w.enemies == old(w.enemies) && w.bricks == old(w.bricks) && w.Valid()
      invariant forall t: Tank :: old(allocated(t)) ==> t.health <= old(t.health)
      invariant forall b: Brick :: old(allocated(b)) && old(b.isDead) ==> b.isDead
      decreases |bs| - k
    {
      assert w.bullets[i] == bs[k];
      i := UpdateNextBullet(w, i, dt, bs, alive, k);
      alive := alive + [!bs[k].isDead];
      k := k + 1;
    }
    assert bs[..k] == bs;
    SurvivingBullets(bs, alive);
  }

  /**
   * The body of the brick loop of `update(dt)`, stated on the loop's own
   * terms: `ks` and `intact` are the bricks and whether each was whole when
   * the loop started, the first `i` bricks of the list are the whole ones
   * among the first `k` of `ks`, and the rest are the ones not yet visited.
   * A broken brick is cleared from its cell and spliced out of the list;
   * then the same holds for `k + 1`, `next` is where the loop goes on, and
   * no other cell has changed.
   */
  method PruneNextBrick(w: World, i: int, ghost ks: seq<Brick>, ghost intact: seq<bool>, ghost k: int)
    returns (next: int)
    requires w.Valid()
    requires |ks| == |intact| && 0 <= k < |ks| && 0 <= i < |w.bricks|
    requires w.bricks[..i] == Keep(ks[..k], intact[..k]) && w.bricks[i..] == ks[k..]
    requires intact[k] == !w.bricks[i].isDead
    modifies w`bricks, w.brickMatrix
    ensures next == if intact[k] then i + 1 else i
    ensures next <= |w.bricks| && w.bricks[..next] == Keep(ks[..k + 1], intact[..k + 1])
    ensures w.bricks[next..] == ks[k + 1..]
    ensures w.Valid()
    ensures forall r, c :: 0 <= r < MAP_ROWS && 0 <= c < MAP_COLS ==>
              w.brickMatrix[r, c] == if !intact[k] && r == Cell(ks[k].y) && c == Cell(ks[k].x) then null
                                     else old(w.brickMatrix[r, c])
  {
    ghost var before := w.bricks;
    var b := w.bricks[i];
    if b.isDead {
      w.brickMatrix[Cell(b.y), Cell(b.x)] := null;
      w.bricks := w.bricks[..i] + w.bricks[i + 1..];
      next := i;
    } else {
      next := i + 1;
    }
    assert intact[..k + 1][..k] == intact[..k];
    KeepSplice(before, w.bricks, i, !intact[k], ks, intact[..k + 1], k);
  }

  /**
   * The brick loop of `update(dt)`: every broken brick is cleared from its
   * cell of the grid and spliced out of the list. The bricks that remain
   * are exactly the whole ones, in their order; a cell is cleared exactly
   * when the brick it held was broken; the list and the grid still agree.
   */
  method PruneBricks(w: World)
    requires w.Valid()
    modifies w`bricks, w.brickMatrix
    ensures w.bricks == Keep(old(w.bricks), Intact(old(w.bricks)))
    ensures forall b :: b in w.bricks ==> !b.isDead
    ensures w.Valid()
    ensures forall r, c :: 0 <= r < MAP_ROWS && 0 <= c < MAP_COLS ==>
              w.brickMatrix[r, c] == if old(w.brickMatrix[r, c]) != null && old(w.brickMatrix[r, c]).isDead then null
                                     else old(w.brickMatrix[r, c])
  {
    ghost var ks, intact := w.bricks, Intact(w.bricks);
    var i := 0;
    var k := 0;  // how many bricks have been visited
    while i < |w.bricks|
      invariant 0 <= k <= |ks| && 0 <= i <= |w.bricks|
      invariant w.bricks[..i] == Keep(ks[..k], intact[..k]) && w.bricks[i..] == ks[k..]
      invariant w.Valid()
      invariant forall r, c :: 0 <= r < MAP_ROWS && 0 <= c < MAP_COLS ==>
                  w.brickMatrix[r, c] == if old(w.brickMatrix[r, c]) in ks[..k] && old(w.brickMatrix[r, c]).isDead then null
                                         else old(w.brickMatrix[r, c])
      decreases |ks| - k
    {
      assert w.bricks[i] == ks[k];
      i := PruneNextBrick(w, i, ks, intact, k);
      k := k + 1;
    }
    assert ks[..k] == ks && intact[..k] == intact;
    KeptAreFlagged(ks, intact);
  }

  /**
   * The first half of `update(dt)` of examples/tanks/tanks-scenario.js: the
   * enemy loop, then the player's update (the fire timer; its keyboard
   * controller is not part of this model). The enemies left are those alive
   * before; bullets are only appended, fresh; no health or brick changes.
   */
  method UpdateTanks(w: World, dt: real, draws: seq<Draws>)
    requires w.player != null && w.Valid() && Distinct(w.bullets)
    requires |draws| == |w.enemies| && forall k :: 0 <= k < |draws| ==> draws[k].Valid()
    modifies w`enemies, w`bullets, w.player`timeSinceLastFire, (set t | t in w.enemies), w.Tanks()`health, w.BrickSet()`isDead
    ensures w.enemies == Keep(old(w.enemies), old(Living(w.enemies))) && forall t :: t in w.enemies ==> t in old(w.enemies)
    ensures w.player == old(w.player) && w.bricks == old(w.bricks) && w.Valid()
    ensures w.player !in old(w.enemies) ==> w.player.timeSinceLastFire == old(w.player.timeSinceLastFire) + dt
    ensures forall t: Tank :: old(allocated(t)) ==> t.health == old(t.health)
    ensures forall k: Brick :: old(allocated(k)) ==> k.isDead == old(k.isDead)
    ensures |w.bullets| >= |old(w.bullets)| && w.bullets[..|old(w.bullets)|] == old(w.bullets)
    ensures (forall k :: |old(w.bullets)| <= k < |w.bullets| ==> fresh(w.bullets[k])) && Distinct(w.bullets)
  {
    ghost var es, alive := w.enemies, Living(w.enemies);
    UpdateEnemies(w, dt, draws);
    KeptAreFlagged(es, alive);
    forall k | |old(w.bullets)| <= k < |w.bullets|
      ensures fresh(w.bullets[k])
    {
      // a listed bullet past the old ones is not an old one, since none is listed twice
      assert w.bullets[k] !in old(w.bullets);
    }
    w.player.Update(dt);
  }

  /**
   * The second half of `update(dt)`: the bullet loop, then the brick loop.
   * No listed bullet or brick is dead afterwards, the grid has lost exactly
   * the broken bricks, no tank has gained health and no brick is mended.
   */
  method UpdateShots(w: World, dt: real) returns (ghost alive: seq<bool>)
    requires w.player != null && w.Valid() && Distinct(w.bullets)
    modifies w`bullets, w`bricks, w.brickMatrix, (set b | b in w.bullets), w.Tanks()`health, w.BrickSet()`isDead
    ensures w.player == old(w.player) && w.enemies == old(w.enemies)
    ensures |alive| == |old(w.bullets)| && forall j :: 0 <= j < |alive| ==> alive[j] == !old(w.bullets)[j].isDead
    ensures w.bullets == Keep(old(w.bullets), alive)
    ensures (forall b :: b in w.bullets ==> !b.isDead) && Distinct(w.bullets)
    ensures w.bricks == Keep(old(w.bricks), Intact(old(w.bricks))) && (forall k :: k in w.bricks ==> !k.isDead)
    ensures w.Valid()
    ensures forall r, c :: 0 <= r < MAP_ROWS && 0 <= c < MAP_COLS ==>
              w.brickMatrix[r, c] == if old(w.brickMatrix[r, c]) != null && old(w.brickMatrix[r, c]).isDead then null
                                     else old(w.brickMatrix[r, c])
    ensures forall t: Tank :: old(allocated(t)) ==> t.health <= old(t.health)
    ensures forall k: Brick :: old(allocated(k)) && old(k.isDead) ==> k.isDead
  {
    alive := UpdateBullets(w, dt);
    ghost var bs := w.bullets;
    PruneBricks(w);
    assert w.bullets == bs;
  }

  /**
   * `update(dt)` of examples/tanks/tanks-scenario.js, one frame: the enemy
   * loop, the player's update, the bullet loop, then the brick loop. After a
   * frame the enemies are those alive when it began, no listed bullet or
   * brick is dead, the grid has lost exactly the broken bricks, no tank has
   * gained health and no brick is mended. `mid` is the bullet list the
   * bullet loop starts from, the old bullets followed by those the enemies
   * fired; the bullets left are those of `mid` still alive after their
   * update (`alive`), in order.
   */
  method Update(w: World, dt: real, draws: seq<Draws>) returns (ghost mid: seq<Bullet>, ghost alive: seq<bool>)
    requires w.player != null && w.Valid() && Distinct(w.bullets)
    requires |draws| == |w.enemies| && forall k :: 0 <= k < |draws| ==> draws[k].Valid()
    modifies w`enemies, w`bullets, w`bricks, w.brickMatrix, w.player`timeSinceLastFire
    modifies (set t | t in w.enemies), (set b | b in w.bullets), w.Tanks()`health, w.BrickSet()`isDead
    ensures w.enemies == Keep(old(w.enemies), old(Living(w.enemies)))
    ensures w.player == old(w.player)
    ensures w.player !in old(w.enemies) ==> w.player.timeSinceLastFire == old(w.player.timeSinceLastFire) + dt
    ensures |mid| >= |old(w.bullets)| && mid[..|old(w.bullets)|] == old(w.bullets)
    ensures forall k :: |old(w.bullets)| <= k < |mid| ==> fresh(mid[k])
    ensures |alive| == |mid| && forall j :: 0 <= j < |mid| ==> alive[j] == !mid[j].isDead
    ensures w.bullets == Keep(mid, alive)
    ensures (forall b :: b in w.bullets ==> !b.isDead) && Distinct(w.bullets)
    ensures w.bricks == Keep(old(w.bricks), Intact(old(w.bricks))) && (forall k :: k in w.bricks ==> !k.isDead)
    ensures w.Valid()
    ensures forall r, c :: 0 <= r < MAP_ROWS && 0 <= c < MAP_COLS ==>
              w.brickMatrix[r, c] == if old(w.brickMatrix[r, c]) != null && old(w.brickMatrix[r, c]).isDead then null
                                     else old(w.brickMatrix[r, c])
    ensures forall t: Tank :: old(allocated(t)) ==> t.health <= old(t.health)
    ensures forall k: Brick :: old(allocated(k)) && old(k.isDead) ==> k.isDead
  {
    UpdateTanks(w, dt, draws);
    mid := w.bullets;
    alive := UpdateShots(w, dt);
  }

  /** Which of the keys `handlePlayerKeys` polls are held down this frame. */
  datatype Keys = Keys(left: bool, right: bool, up: bool, down: bool, space: bool)

  /**
   * The direction of the last held arrow key in the order the keys are
   * polled (left, right, up, down); `o` when none is held.
   */
  function LastPressed(keys: Keys, o: Orientation): Orientation
  {
    if keys.down then Down else if keys.up then Up else if keys.right then Right else if keys.left then Left else o
  }

  /**
   * The horizontal move the arrow keys ask for when the player faced `o`: a
   * step of `step` toward a held key the player already faces, once no
   * earlier key has turned it away.
   */
  function KeyMoveX(keys: Keys, o: Orientation, step: real): real
  {
    if keys.left && o == Left then -step
    else if keys.right && !keys.left && o == Right then step
    else 0.0
  }

  /** The vertical move the arrow keys ask for, in the same sense; a held left or right key turns the player sideways first. */
  function KeyMoveY(keys: Keys, o: Orientation, step: real): real
  {
    if keys.up && !keys.left && !keys.right && o == Up then -step
    else if keys.down && !keys.left && !keys.right && !keys.up && o == Down then step
    else 0.0
  }

  /**
   * The arrow-key part of `handlePlayerKeys(dt)`: each held arrow key, in
   * the order left, right, up, down, either turns the player toward it or,
   * if the player already faces that way, asks for a move of 30*dt pixels
   * that way. The player ends up facing the last held arrow key, and the
   * move asked for is along one axis only.
   */
  method SteerPlayer(p: Tank, keys: Keys, dt: real) returns (dX: real, dY: real)
    modifies p`orientation
    ensures p.orientation == LastPressed(keys, old(p.orientation))
    ensures dX == KeyMoveX(keys, old(p.orientation), PLAYER_MOVE_SPEED * dt)
    ensures dY == KeyMoveY(keys, old(p.orientation), PLAYER_MOVE_SPEED * dt)
    ensures dX == 0.0 || dY == 0.0
  {
    dX, dY := 0.0, 0.0;
    if keys.left {
      if p.orientation == Left {
        dX := -PLAYER_MOVE_SPEED * dt;
      } else {
        p.orientation := Left;
      }
    }
    if keys.right {
      if p.orientation == Right {
        dX := PLAYER_MOVE_SPEED * dt;
      } else {
        p.orientation := Right;
      }
    }
    if keys.up {
      if p.orientation == Up {
        dY := -PLAYER_MOVE_SPEED * dt;
      } else {
        p.orientation := Up;
      }
    }
    if keys.down {
      if p.orientation == Down {
        dY := PLAYER_MOVE_SPEED * dt;
      } else {
        p.orientation := Down;
      }
    }
  }

  /**
   * The steering half of `handlePlayerKeys(dt)`: the arrow keys turn or
   * steer the player and a non-zero move is carried out as any entity moves.
   * The player runs into tanks and bricks only, so nobody's health and no
   * brick changes.
   */
  method DrivePlayer(w: World, dt: real, keys: Keys) returns (moved: Option<Outcome>)
    requires w.player != null && w.Valid()
    modifies w.player`orientation, w.player`x, w.player`y, w.Tanks()`health, w.BrickSet()`isDead
    ensures w.player.orientation == LastPressed(keys, old(w.player.orientation))
    ensures var dX := KeyMoveX(keys, old(w.player.orientation), PLAYER_MOVE_SPEED * dt);
            var dY := KeyMoveY(keys, old(w.player.orientation), PLAYER_MOVE_SPEED * dt);
            moved.Some? == (dX != 0.0 || dY != 0.0) &&
            (moved.Some? ==> ShortenedMove(moved.value, dX, dY) && WorldCollider(w, TankRef(w.player), moved.value.collider) &&
                             w.player.x == old(w.player.x) + moved.value.travelX &&
                             w.player.y == old(w.player.y) + moved.value.travelY) &&
            (moved.None? ==> w.player.x == old(w.player.x) && w.player.y == old(w.player.y))
    ensures forall t :: t in w.Tanks() ==> t.health == old(t.health)
    ensures forall k :: k in w.bricks ==> k.isDead == old(k.isDead)
    ensures moved.Some? ==>
              forall g, dX, dY :: dX == KeyMoveX(keys, old(w.player.orientation), PLAYER_MOVE_SPEED * dt) &&
                                  dY == KeyMoveY(keys, old(w.player.orientation), PLAYER_MOVE_SPEED * dt) &&
                                  g == old(ChecksBeside(w, w.player, w.player.BoxFacing(LastPressed(keys, w.player.orientation)), dX, dY)) ==>
                                  moved.value == OutcomeFrom(g, dX, dY, AxisNorm(dX, dY))
  {
    var p := w.player;
    ghost var box := p.BoxFacing(LastPressed(keys, p.orientation));
    var dX, dY := SteerPlayer(p, keys, dt);
    if dX != 0.0 || dY != 0.0 {
      AxisMoveNorm(dX, dY);
      // steering turns the player only, and the collision check skips the player
      ghost var checks := old(ChecksBeside(w, p, box, dX, dY));
      assert p.GetBoundingBox() == box;
      assert ChecksBeside(w, p, box, dX, dY) == checks;
      var r := MoveTank(w, p, dX, dY, AxisNorm(dX, dY));
      moved := Some(r);
    } else {
      moved := None;
    }
  }

  /**
   * `handlePlayerKeys(dt)` of scenarios/tanks/tanks.mjs: the player is
   * steered by the arrow keys, then the space bar fires and otherwise the gun
   * reloads.
   */
  method HandlePlayerKeys(w: World, dt: real, keys: Keys) returns (moved: Option<Outcome>)
    requires w.player != null && w.Valid() && Distinct(w.bullets)
    modifies w.player`orientation, w.player`x, w.player`y, w.player`timeSinceLastFire, w`bullets
    modifies w.Tanks()`health, w.BrickSet()`isDead
    ensures w.player == old(w.player) && w.enemies == old(w.enemies) && w.bricks == old(w.bricks) && w.Valid()
    ensures w.player.orientation == LastPressed(keys, old(w.player.orientation))
    ensures var dX := KeyMoveX(keys, old(w.player.orientation), PLAYER_MOVE_SPEED * dt);
            var dY := KeyMoveY(keys, old(w.player.orientation), PLAYER_MOVE_SPEED * dt);
            moved.Some? == (dX != 0.0 || dY != 0.0) &&
            (moved.Some? ==> ShortenedMove(moved.value, dX, dY) && WorldCollider(w, TankRef(w.player), moved.value.collider) &&
                             w.player.x == old(w.player.x) + moved.value.travelX &&
                             w.player.y == old(w.player.y) + moved.value.travelY) &&
            (moved.None? ==> w.player.x == old(w.player.x) && w.player.y == old(w.player.y))
    ensures var fires := keys.space && old(w.player.timeSinceLastFire) >= w.player.fireInterval;
            (fires ==> w.player.timeSinceLastFire == 0.0 &&
                       OneMoreBullet(old(w.bullets), w.bullets, w.player.BulletFiringPosition().0,
                                     w.player.BulletFiringPosition().1, w.player.orientation, w.player, w) &&
                       fresh(w.bullets[|old(w.bullets)|])) &&
            (!fires ==> w.bullets == old(w.bullets)) &&
            (keys.space && !fires ==> w.player.timeSinceLastFire == old(w.player.timeSinceLastFire)) &&
            (!keys.space ==> w.player.timeSinceLastFire == Max(old(w.player.timeSinceLastFire), w.player.fireInterval / 2.0))
    ensures forall t :: t in w.Tanks() ==> t.health == old(t.health)
    ensures forall k :: k in w.bricks ==> k.isDead == old(k.isDead)
    ensures Distinct(w.bullets)
    ensures moved.Some? ==>
              forall g, dX, dY :: dX == KeyMoveX(keys, old(w.player.orientation), PLAYER_MOVE_SPEED * dt) &&
                                  dY == KeyMoveY(keys, old(w.player.orientation), PLAYER_MOVE_SPEED * dt) &&
                                  g == old(ChecksBeside(w, w.player, w.player.BoxFacing(LastPressed(keys, w.player.orientation)), dX, dY)) ==>
                                  moved.value == OutcomeFrom(g, dX, dY, AxisNorm(dX, dY))
  {
    moved := DrivePlayer(w, dt, keys);
    if keys.space {
      Fire(w, w.player);
    } else {
      w.player.Reload();
    }
  }

  /**
   * What the rest of the frame relies on after `handlePlayerKeys(dt)`: the
   * player keeps its place in the world, takes the heading of the keys,
   * makes the keys' move and has its fire timer set by the keys; no tank is
   * hurt, no brick is broken, and the bullets are those there before
   * followed by new ones, none listed twice.
   */
  method PlayerKeys(w: World, dt: real, keys: Keys) returns (moved: Option<Outcome>)
    requires w.player != null && w.Valid() && Distinct(w.bullets)
    modifies w.player`orientation, w.player`x, w.player`y, w.player`timeSinceLastFire, w`bullets
    modifies w.Tanks()`health, w.BrickSet()`isDead
    ensures w.player == old(w.player) && w.enemies == old(w.enemies) && w.bricks == old(w.bricks) && w.Valid()
    ensures w.player.orientation == LastPressed(keys, old(w.player.orientation))
    ensures var dX := KeyMoveX(keys, old(w.player.orientation), PLAYER_MOVE_SPEED * dt);
            var dY := KeyMoveY(keys, old(w.player.orientation), PLAYER_MOVE_SPEED * dt);
            moved.Some? == (dX != 0.0 || dY != 0.0) &&
            (moved.Some? ==> ShortenedMove(moved.value, dX, dY) &&
                             w.player.x == old(w.player.x) + moved.value.travelX &&
                             w.player.y == old(w.player.y) + moved.value.travelY) &&
            (moved.None? ==> w.player.x == old(w.player.x) && w.player.y == old(w.player.y))
    ensures var fires := keys.space && old(w.player.timeSinceLastFire) >= w.player.fireInterval;
            w.player.timeSinceLastFire ==
              if fires then 0.0
              else if keys.space then old(w.player.timeSinceLastFire)
              else Max(old(w.player.timeSinceLastFire), w.player.fireInterval / 2.0)
    ensures forall t :: t in w.Tanks() ==> t.health == old(t.health)
    ensures forall k :: k in w.bricks ==> k.isDead == old(k.isDead)
    ensures |w.bullets| >= |old(w.bullets)| && w.bullets[..|old(w.bullets)|] == old(w.bullets)
    ensures (forall k :: |old(w.bullets)| <= k < |w.bullets| ==> fresh(w.bullets[k])) && Distinct(w.bullets)
    ensures moved.Some? ==>
              forall g, dX, dY :: dX == KeyMoveX(keys, old(w.player.orientation), PLAYER_MOVE_SPEED * dt) &&
                                  dY == KeyMoveY(keys, old(w.player.orientation), PLAYER_MOVE_SPEED * dt) &&
                                  g == old(ChecksBeside(w, w.player, w.player.BoxFacing(LastPressed(keys, w.player.orientation)), dX, dY)) ==>
                                  moved.value == OutcomeFrom(g, dX, dY, AxisNorm(dX, dY))
  {
    moved := HandlePlayerKeys(w, dt, keys);
  }

  /**
   * `update(dt)` of scenarios/tanks/tanks.mjs: the player is steered and
   * fires from the keyboard, then the frame goes on as in the example
   * scenario. Steering hurts nobody, so the enemies left are those alive
   * when the frame began, and the bricks left are those whole then. Unless
   * the player is also listed as an enemy, it ends where the keys' move took
   * it, facing the last held arrow key, with its fire timer set by the keys
   * and then advanced by dt. `mid` and `alive` are as for `Update`.
   */
  method UpdateWithKeys(w: World, dt: real, keys: Keys, draws: seq<Draws>)
    returns (moved: Option<Outcome>, ghost mid: seq<Bullet>, ghost alive: seq<bool>)
    requires w.player != null && w.Valid() && Distinct(w.bullets)
    requires |draws| == |w.enemies| && forall k :: 0 <= k < |draws| ==> draws[k].Valid()
    modifies w`enemies, w`bullets, w`bricks, w.brickMatrix, w.player
    modifies (set t | t in w.enemies), (set b | b in w.bullets), w.Tanks()`health, w.BrickSet()`isDead
    ensures w.enemies == Keep(old(w.enemies), old(Living(w.enemies)))
    ensures w.player == old(w.player)
    ensures w.player !in old(w.enemies) ==> w.player.orientation == LastPressed(keys, old(w.player.orientation))
    ensures var dX := KeyMoveX(keys, old(w.player.orientation), PLAYER_MOVE_SPEED * dt);
            var dY := KeyMoveY(keys, old(w.player.orientation), PLAYER_MOVE_SPEED * dt);
            moved.Some? == (dX != 0.0 || dY != 0.0) && (moved.Some? ==> ShortenedMove(moved.value, dX, dY)) &&
            (w.player !in old(w.enemies) && moved.Some? ==>
               w.player.x == old(w.player.x) + moved.value.travelX && w.player.y == old(w.player.y) + moved.value.travelY) &&
            (w.player !in old(w.enemies) && moved.None? ==> w.player.x == old(w.player.x) && w.player.y == old(w.player.y))
    ensures w.player !in old(w.enemies) ==>
              var fires := keys.space && old(w.player.timeSinceLastFire) >= w.player.fireInterval;
              w.player.timeSinceLastFire ==
                (if fires then 0.0
                 else if keys.space then old(w.player.timeSinceLastFire)
                 else Max(old(w.player.timeSinceLastFire), w.player.fireInterval / 2.0)) + dt
    ensures |mid| >= |old(w.bullets)| && mid[..|old(w.bullets)|] == old(w.bullets)
    ensures forall k :: |old(w.bullets)| <= k < |mid| ==> fresh(mid[k])
    ensures |alive| == |mid| && forall j :: 0 <= j < |mid| ==> alive[j] == !mid[j].isDead
    ensures w.bullets == Keep(mid, alive)
    ensures (forall b :: b in w.bullets ==> !b.isDead) && Distinct(w.bullets)
    ensures w.bricks == Keep(old(w.bricks), Intact(old(w.bricks))) && (forall k :: k in w.bricks ==> !k.isDead)
    ensures w.Valid()
    ensures forall t: Tank :: old(allocated(t)) ==> t.health <= old(t.health)
    ensures moved.Some? ==>
              forall g, dX, dY :: dX == KeyMoveX(keys, old(w.player.orientation), PLAYER_MOVE_SPEED * dt) &&
                                  dY == KeyMoveY(keys, old(w.player.orientation), PLAYER_MOVE_SPEED * dt) &&
                                  g == old(ChecksBeside(w, w.player, w.player.BoxFacing(LastPressed(keys, w.player.orientation)), dX, dY)) ==>
                                  moved.value == OutcomeFrom(g, dX, dY, AxisNorm(dX, dY))
  {
    ghost var es, bricks, shots := w.enemies, w.bricks, w.bullets;
    ghost var living, intact := Living(w.enemies), Intact(w.bricks);
    moved := PlayerKeys(w, dt, keys);
    assert Living(es) == living;
    assert Intact(bricks) == intact;
    ghost var keyed := w.bullets;
    mid, alive := Update(w, dt, draws);
    assert mid[..|shots|] == keyed[..|shots|];
    forall k | |shots| <= k < |mid|
      ensures fresh(mid[k])
    {
      if k < |keyed| {
        assert mid[k] == mid[..|keyed|][k] == keyed[k];
      }
    }
  }
}
