/**
 * The first, single-file version of the tank game, scenarios/tanks.mjs. It
 * uses the same grid, the same map codes and the same keyboard steering as
 * the later versions, but its tanks move through everything (the collision
 * scan only logs what it finds), its bullets only fly until they leave the
 * play field, and nothing ever dies but bullets.
 *
 * Its Tank, Bullet and Brick classes are the fields of Entities.Tank,
 * Entities.Bullet and Entities.Brick that this version has (position,
 * orientation, fire timer and interval, identity, bullet speed; a brick's
 * type and corner); the fields only the later versions have (health,
 * controller, damage, collision sets) are present on the objects but never
 * read here. The level is laid out by Placement.PlaceEntities with
 * `withControllers` false, which is what `placeEntities` of this file does.
 */
module EarlyTanks {
  import opened Common
  import opened Entities
  import opened World
  import opened Game
  import opened Scenario

  /** The distance from a tank's centre to where its bullets appear: 12 plus half the bullet sprite's height. */
  function FiringOffset(bulletHeight: real): real
  {
    12.0 + bulletHeight / 2.0
  }

  /**
   * `getBulletFiringPosition`: the point `FiringOffset` ahead of the tank's
   * centre in its facing direction, on the axis it faces along.
   */
  function EarlyFiringPosition(x: real, y: real, o: Orientation, bulletHeight: real): (p: (real, real))
    ensures Abs(p.0 - x) + Abs(p.1 - y) == Abs(FiringOffset(bulletHeight))
    ensures o == Up || o == Down ==> p.0 == x
    ensures o == Left || o == Right ==> p.1 == y
    ensures o == Up ==> p.1 == y - FiringOffset(bulletHeight)
    ensures o == Down ==> p.1 == y + FiringOffset(bulletHeight)
    ensures o == Left ==> p.0 == x - FiringOffset(bulletHeight)
    ensures o == Right ==> p.0 == x + FiringOffset(bulletHeight)
  {
    FiringPosition(x, y, o, FiringOffset(bulletHeight))
  }

  /**
   * `fire`: once the fire interval has elapsed, one new bullet is appended at
   * the firing position, flying the tank's way at the tank's bullet speed,
   * and the timer restarts; otherwise nothing happens. The shot's sound is
   * not modelled.
   */
  method EarlyFire(w: World, t: Tank, bulletHeight: real)
    modifies w`bullets, t`timeSinceLastFire
    ensures old(t.timeSinceLastFire) >= t.fireInterval ==>
              t.timeSinceLastFire == 0.0 &&
              OneMoreBullet(old(w.bullets), w.bullets, EarlyFiringPosition(t.x, t.y, t.orientation, bulletHeight).0,
                            EarlyFiringPosition(t.x, t.y, t.orientation, bulletHeight).1, t.orientation, t, w) &&
              fresh(w.bullets[|old(w.bullets)|])
    ensures old(t.timeSinceLastFire) < t.fireInterval ==>
              t.timeSinceLastFire == old(t.timeSinceLastFire) && w.bullets == old(w.bullets)
  {
    if t.timeSinceLastFire >= t.fireInterval {
      var p := EarlyFiringPosition(t.x, t.y, t.orientation, bulletHeight);
      var b := new Bullet(p.0, p.1, t.identity, t.orientation, t.bulletSpeed, w.bulletBoxes);
      w.bullets := w.bullets + [b];
      t.timeSinceLastFire := 0.0;
    }
  }

  /** `reload`: the timer is set to exactly the fire interval, so the next `fire` shoots. */
  method EarlyReload(t: Tank)
    modifies t`timeSinceLastFire
    ensures t.timeSinceLastFire == t.fireInterval
  {
    t.timeSinceLastFire := t.fireInterval;
  }

  /**
   * `Tank.move`: the tank is translated by the whole of (dx, dy). The
   * collision scan it runs first only logs what it finds (see
   * Collision.WindowOf for the part of the grid it looks at), so obstacles
   * do not stop it.
   */
  method EarlyMove(t: Tank, dx: real, dy: real)
    modifies t`x, t`y
    ensures t.x == old(t.x) + dx && t.y == old(t.y) + dy
  {
    t.x := t.x + dx;
    t.y := t.y + dy;
  }

  /**
   * `Bullet.update(dt)`: the bullet moves speed*dt along its orientation and
   * dies once it is outside [-10, 330] x [-10, 210]; nothing else stops it.
   */
  method EarlyBulletUpdate(b: Bullet, dt: real)
    modifies b`x, b`y, b`isDead
    ensures b.x == old(b.x) + b.Step(dt).0 && b.y == old(b.y) + b.Step(dt).1
    ensures b.isDead == (old(b.isDead) || OutOfPlayfield(b.x, b.y))
  {
    var d := b.Step(dt);
    b.x := b.x + d.0;
    b.y := b.y + d.1;
    if OutOfPlayfield(b.x, b.y) {
      b.isDead := true;
    }
  }

  /**
   * `handlePlayerKeys(dt)` of this version: the arrow keys turn or steer the
   * player as in Scenario.SteerPlayer, a non-zero move is carried out in
   * full, and the space bar fires while its absence reloads.
   */
  method EarlyHandlePlayerKeys(w: World, keys: Keys, dt: real, bulletHeight: real)
    requires w.player != null
    modifies w.player`orientation, w.player`x, w.player`y, w.player`timeSinceLastFire, w`bullets
    ensures w.player == old(w.player) && w.enemies == old(w.enemies) && w.bricks == old(w.bricks)
    ensures w.player.orientation == LastPressed(keys, old(w.player.orientation))
    ensures w.player.x == old(w.player.x) + KeyMoveX(keys, old(w.player.orientation), PLAYER_MOVE_SPEED * dt)
    ensures w.player.y == old(w.player.y) + KeyMoveY(keys, old(w.player.orientation), PLAYER_MOVE_SPEED * dt)
    ensures keys.space && old(w.player.timeSinceLastFire) >= w.player.fireInterval ==>
              w.player.timeSinceLastFire == 0.0 &&
              OneMoreBullet(old(w.bullets), w.bullets, EarlyFiringPosition(w.player.x, w.player.y, w.player.orientation, bulletHeight).0,
                            EarlyFiringPosition(w.player.x, w.player.y, w.player.orientation, bulletHeight).1,
                            w.player.orientation, w.player, w) &&
              fresh(w.bullets[|old(w.bullets)|])
    ensures keys.space && old(w.player.timeSinceLastFire) < w.player.fireInterval ==>
              w.player.timeSinceLastFire == old(w.player.timeSinceLastFire) && w.bullets == old(w.bullets)
    ensures !keys.space ==> w.player.timeSinceLastFire == w.player.fireInterval && w.bullets == old(w.bullets)
  {
    var p := w.player;
    var dX, dY := SteerPlayer(p, keys, dt);
    if dX != 0.0 || dY != 0.0 {
      EarlyMove(p, dX, dY);
    }
    if keys.space {
      EarlyFire(w, p, bulletHeight);
    } else {
      EarlyReload(p);
    }
  }

  /**
   * The enemy loop of `update(dt)`: every listed enemy's fire timer
   * advances by dt. No enemy is removed, and no other tank's timer moves.
   */
  method TickEnemies(w: World, dt: real)
    modifies (set t | t in w.enemies)`timeSinceLastFire
    ensures Distinct(w.enemies) ==> forall t :: t in w.enemies ==> t.timeSinceLastFire == old(t.timeSinceLastFire) + dt
    ensures forall t: Tank :: old(allocated(t)) && t !in w.enemies ==> t.timeSinceLastFire == old(t.timeSinceLastFire)
  {
    var i := 0;
    while i < |w.enemies|
      invariant 0 <= i <= |w.enemies|
      invariant Distinct(w.enemies) ==>
                  forall j :: 0 <= j < i ==> w.enemies[j].timeSinceLastFire == old(w.enemies[j].timeSinceLastFire) + dt
      invariant Distinct(w.enemies) ==>
                  forall j :: i <= j < |w.enemies| ==> w.enemies[j].timeSinceLastFire == old(w.enemies[j].timeSinceLastFire)
      invariant forall t: Tank :: old(allocated(t)) && t !in w.enemies ==> t.timeSinceLastFire == old(t.timeSinceLastFire)
    {
      w.enemies[i].Update(dt);
      i := i + 1;
    }
  }

  /**
   * The body of the bullet loop of `update(dt)`, on the loop's own terms
   * (as Scenario.UpdateNextBullet): the next bullet is moved, and spliced
   * out if it is dead afterwards.
   */
  method EarlyUpdateNextBullet(w: World, i: int, dt: real, ghost bs: seq<Bullet>, ghost alive: seq<bool>, ghost k: int)
    returns (next: int)
    requires Distinct(bs)
    requires |alive| == k && 0 <= k < |bs| && 0 <= i < |w.bullets|
    requires w.bullets[..i] == Keep(bs[..k], alive) && w.bullets[i..] == bs[k..]
    requires forall j :: 0 <= j < k ==> alive[j] == !bs[j].isDead
    modifies w`bullets, w.bullets[i]
    ensures next == if bs[k].isDead then i else i + 1
    ensures next <= |w.bullets| && w.bullets[..next] == Keep(bs[..k + 1], alive + [!bs[k].isDead])
    ensures w.bullets[next..] == bs[k + 1..]
    ensures forall j :: 0 <= j < k ==> alive[j] == !bs[j].isDead
    ensures w.player == old(w.player) && w.enemies == old(w.enemies) && w.bricks == old(w.bricks)
  {
    var b := w.bullets[i];
    ghost var before := w.bullets;
    EarlyBulletUpdate(b, dt);
    if b.isDead {
      w.bullets := w.bullets[..i] + w.bullets[i + 1..];
      next := i;
    } else {
      next := i + 1;
    }
    KeepSplice(before, w.bullets, i, b.isDead, bs, alive + [!b.isDead], k);
  }

  /**
   * The bullet loop of `update(dt)`: every bullet is moved in list order and
   * a bullet that is dead afterwards is spliced out. The bullets that remain
   * are exactly those alive after their move, in their order.
   */
  method EarlyUpdateBullets(w: World, dt: real)
    requires Distinct(w.bullets)
    modifies w`bullets, (set b | b in w.bullets)
    ensures w.bullets == Keep(old(w.bullets), Flying(old(w.bullets)))
    ensures forall b :: b in w.bullets ==> !b.isDead
    ensures Distinct(w.bullets)
    ensures w.player == old(w.player) && w.enemies == old(w.enemies) && w.bricks == old(w.bricks)
  {
    ghost var bs := w.bullets;
    ghost var alive: seq<bool> := [];
    var i := 0;
    ghost var k := 0;  // how many bullets have been moved
    while i < |w.bullets|
      invariant 0 <= k <= |bs| && |alive| == k && 0 <= i <= |w.bullets|
      invariant w.bullets[..i] == Keep(bs[..k], alive) && w.bullets[i..] == bs[k..]
      invariant forall j :: 0 <= j < k ==> alive[j] == !bs[j].isDead
      invariant w.player == old(w.player) && w.enemies == old(w.enemies) && w.bricks == old(w.bricks)
      decreases |bs| - k
    {
      assert w.bullets[i] == bs[k];
      i := EarlyUpdateNextBullet(w, i, dt, bs, alive, k);
      alive := alive + [!bs[k].isDead];
      k := k + 1;
    }
    assert bs[..k] == bs;
    SurvivingBullets(bs, alive);
  }

  /**
   * What `update(dt)` does after the keys: every enemy's and then the
   * player's fire timer advances, and the bullets move, the dead ones being
   * dropped in order.
   */
  method EarlyAdvance(w: World, dt: real)
    requires w.player != null && Distinct(w.bullets)
    modifies w`bullets, w.player`timeSinceLastFire, (set t | t in w.enemies)`timeSinceLastFire
    modifies (set b | b in w.bullets)
    ensures w.player == old(w.player) && w.enemies == old(w.enemies) && w.bricks == old(w.bricks)
    ensures w.bullets == Keep(old(w.bullets), Flying(old(w.bullets)))
    ensures forall b :: b in w.bullets ==> !b.isDead
    ensures Distinct(w.bullets)
    ensures Distinct(w.enemies) ==>
              forall t :: t in w.enemies && t != w.player ==> t.timeSinceLastFire == old(t.timeSinceLastFire) + dt
    ensures w.player !in w.enemies ==> w.player.timeSinceLastFire == old(w.player.timeSinceLastFire) + dt
  {
    TickEnemies(w, dt);
    w.player.Update(dt);
    EarlyUpdateBullets(w, dt);
  }

  /**
   * `update(dt)` of this version: the keys steer and fire for the player,
   * every enemy's and then the player's fire timer advances, and the bullets
   * move, the dead ones being dropped in order. The enemy list and the brick
   * list never change. `mid` is the bullet list the bullet loop starts from:
   * the old bullets, and the player's new one if the keys fired.
   */
  method EarlyUpdate(w: World, dt: real, keys: Keys, bulletHeight: real) returns (ghost mid: seq<Bullet>)
    requires w.player != null && Distinct(w.bullets)
    modifies w`bullets, w.player`orientation, w.player`x, w.player`y
    modifies w.player`timeSinceLastFire, (set t | t in w.enemies)`timeSinceLastFire
    modifies (set b | b in w.bullets)
    ensures w.player == old(w.player) && w.enemies == old(w.enemies) && w.bricks == old(w.bricks)
    ensures w.player.orientation == LastPressed(keys, old(w.player.orientation))
    ensures w.player.x == old(w.player.x) + KeyMoveX(keys, old(w.player.orientation), PLAYER_MOVE_SPEED * dt)
    ensures w.player.y == old(w.player.y) + KeyMoveY(keys, old(w.player.orientation), PLAYER_MOVE_SPEED * dt)
    ensures mid == old(w.bullets) || (|mid| == |old(w.bullets)| + 1 && mid[..|old(w.bullets)|] == old(w.bullets) && fresh(mid[|old(w.bullets)|]))
    ensures w.bullets == Keep(mid, Flying(mid))
    ensures forall b :: b in w.bullets ==> !b.isDead
    ensures Distinct(w.bullets)
    ensures Distinct(w.enemies) ==>
              forall t :: t in w.enemies && t != w.player ==> t.timeSinceLastFire == old(t.timeSinceLastFire) + dt
    ensures !keys.space && w.player !in w.enemies ==> w.player.timeSinceLastFire == w.player.fireInterval + dt
  {
    ghost var bs := w.bullets;
    EarlyHandlePlayerKeys(w, keys, dt, bulletHeight);
    assert w.bullets == bs || (|w.bullets| == |bs| + 1 && w.bullets[..|bs|] == bs && fresh(w.bullets[|bs|]));
    assert Distinct(w.bullets);
    mid := w.bullets;
    EarlyAdvance(w, dt);
  }
}
