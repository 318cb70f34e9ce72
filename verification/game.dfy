/**
 * The parts of the tank game that act on the world: `Entity.move`
 * (examples/tanks/entity.js), the tank's turning move, `fire` and `update`
 * (examples/tanks/tank-entity.js and its twin scenarios/tanks/tank-entity.mjs),
 * the bullet's `update` (examples/tanks/bullet-entity.js) and the AI
 * controller (examples/tanks/ai-controller.js).
 */
module Game {
  import opened Common
  import opened BBox
  import opened Entities
  import opened World
  import opened Collision

  /** The entity's `x`. */
  function XOf(e: EntityRef): real
    reads e.TankPart()`x, e.BulletPart()`x
  {
    match e
    case TankRef(t) => t.x
    case BulletRef(b) => b.x
    case BrickRef(b) => b.x
  }

  /** The entity's `y`. */
  function YOf(e: EntityRef): real
    reads e.TankPart()`y, e.BulletPart()`y
  {
    match e
    case TankRef(t) => t.y
    case BulletRef(b) => b.y
    case BrickRef(b) => b.y
  }

  /**
   * The health tank `t` loses in a move of `self` that ran into `collider`:
   * the mover's own handler runs on the collider, then the collider's
   * handler runs on the mover if the collider reacts to the mover's type.
   */
  function HealthLoss(self: EntityRef, collider: Option<EntityRef>, t: Tank): int
  {
    if collider.None? then 0
    else if self == TankRef(t) then DamageTaken(t, collider.value)
    else if collider.value == TankRef(t) && IsCollisionEnabled(t.enabled, self.Type()) then DamageTaken(t, self)
    else 0
  }

  /** Whether brick `b` breaks in a move of `self` that ran into `collider`. */
  predicate Breaks(self: EntityRef, collider: Option<EntityRef>, b: Brick)
  {
    collider == Some(BrickRef(b)) && IsCollisionEnabled(b.enabled, self.Type()) &&
    self.Type() == BulletType && b.brickType == BREAKABLE_BRICK
  }

  /**
   * The handler dispatch of `Entity.move` once a collider is known: the
   * mover's `handleCollision(collider)` first, then the collider's
   * `handleCollision(mover)` if the collider reacts to the mover's type.
   */
  method Collide(self: EntityRef, c: EntityRef)
    requires !self.BrickRef? && !c.BulletRef? && c != self
    modifies self.TankPart()`health, self.BulletPart()`isDead, c.TankPart()`health, c.BrickPart()`isDead
    ensures forall t :: t in self.TankPart() + c.TankPart() ==> t.health == old(t.health) - HealthLoss(self, Some(c), t)
    ensures c.BrickRef? ==> c.brick.isDead == (old(c.brick.isDead) || Breaks(self, Some(c), c.brick))
    ensures self.BulletRef? ==> self.bullet.isDead == (old(self.bullet.isDead) || c.Type() in {BrickType, TankType})
  {
    HandleCollision(self, c);
    if IsCollisionEnabled(c.Enabled(), self.Type()) {
      HandleCollision(c, self);
    }
  }

  /** The final step of `Entity.move`: the travel is added to the position. */
  method Translate(self: EntityRef, tX: real, tY: real)
    requires !self.BrickRef?
    modifies self.TankPart()`x, self.TankPart()`y, self.BulletPart()`x, self.BulletPart()`y
    ensures XOf(self) == old(XOf(self)) + tX && YOf(self) == old(YOf(self)) + tY
  {
    match self
    case TankRef(t) =>
      t.x := t.x + tX;
      t.y := t.y + tY;
    case BulletRef(b) =>
      b.x := b.x + tX;
      b.y := b.y + tY;
  }

  /**
   * A collider that `checkCollision` can report in a valid world: a tank or
   * brick of the world other than the mover, which the mover's
   * `filterCollision` accepts.
   */
  predicate WorldCollider(w: World, self: EntityRef, collider: Option<EntityRef>)
    reads w
  {
    collider.Some? ==>
      var c := collider.value;
      c != self && self.FilterCollision(c) && ((c.TankRef? && c.tank in w.Tanks()) || (c.BrickRef? && c.brick in w.bricks))
  }

  /** Every collision check grants the requested move or less of it, and reports a collider of the world. */
  lemma CheckIsGenuine(w: World, self: EntityRef, bbox: Box, dX: real, dY: real, norm: real, r: Outcome)
    requires w.player != null && w.Valid()
    requires r == CollisionOutcome(w, self, bbox, dX, dY, norm)
    ensures ShortenedMove(r, dX, dY) && WorldCollider(w, self, r.collider)
  {
    CollisionIsShortenedMove(w, self, bbox, dX, dY, norm, r);
    ColliderIsGenuine(w, self, bbox, dX, dY, norm);
  }

  /** What `Entity.move` does with the outcome of its collision check: the handlers, then the travel. */
  method ApplyOutcome(w: World, self: EntityRef, r: Outcome)
    requires !self.BrickRef? && WorldCollider(w, self, r.collider)
    modifies self.TankPart()`x, self.TankPart()`y, self.BulletPart()`x, self.BulletPart()`y
    modifies self.TankPart()`health, self.BulletPart()`isDead, w.Tanks()`health, w.BrickSet()`isDead
    ensures XOf(self) == old(XOf(self)) + r.travelX && YOf(self) == old(YOf(self)) + r.travelY
    ensures forall t :: t in w.Tanks() + self.TankPart() ==> t.health == old(t.health) - HealthLoss(self, r.collider, t)
    ensures forall b :: b in w.bricks ==> b.isDead == (old(b.isDead) || Breaks(self, r.collider, b))
    ensures self.BulletRef? ==>
              self.bullet.isDead == (old(self.bullet.isDead) || (r.collider.Some? && r.collider.value.Type() in {BrickType, TankType}))
  {
    if r.collider.Some? {
      Collide(self, r.collider.value);
    }
    Translate(self, r.travelX, r.travelY);
  }

  /**
   * `Entity.move(dx, dy)` for a tank or a bullet (bricks never move):
   * `checkCollision` on the current box (computed here by its specification
   * `CollisionOutcome`, which the loops of `Collision.CheckCollision` are
   * proved to compute), then, with a collider, the
   * mover's handler and the collider's if it reacts to the mover's type;
   * then the travel is added to the position. `norm` is the length of
   * (dx, dy) that `checkCollision` takes the square root for.
   */
  method Move(w: World, self: EntityRef, dX: real, dY: real, norm: real) returns (r: Outcome)
    requires w.player != null && w.Valid() && IsNorm(norm, dX, dY) && !self.BrickRef?
    modifies self.TankPart()`x, self.TankPart()`y, self.BulletPart()`x, self.BulletPart()`y
    modifies self.TankPart()`health, self.BulletPart()`isDead, w.Tanks()`health, w.BrickSet()`isDead
    ensures ShortenedMove(r, dX, dY) && WorldCollider(w, self, r.collider)
    ensures XOf(self) == old(XOf(self)) + r.travelX && YOf(self) == old(YOf(self)) + r.travelY
    ensures forall t :: t in w.Tanks() + self.TankPart() ==> t.health == old(t.health) - HealthLoss(self, r.collider, t)
    ensures forall b :: b in w.bricks ==> b.isDead == (old(b.isDead) || Breaks(self, r.collider, b))
    ensures self.BulletRef? ==>
              self.bullet.isDead == (old(self.bullet.isDead) || (r.collider.Some? && r.collider.value.Type() in {BrickType, TankType}))
    ensures r == old(CollisionOutcome(w, self, self.GetBoundingBox(), dX, dY, norm))
  {
    var bbox := self.GetBoundingBox();
    r := CollisionOutcome(w, self, bbox, dX, dY, norm);
    CheckIsGenuine(w, self, bbox, dX, dY, norm, r);
    ApplyOutcome(w, self, r);
  }

  /** How far a move (dx, dy) goes in the direction `o` faces (screen y grows downwards). */
  function Along(o: Orientation, dX: real, dY: real): real
  {
    match o
    case Up => -dY
    case Down => dY
    case Left => -dX
    case Right => dX
  }

  /** The orientation `Tank.move` gives a tank before moving: the sign of dx decides, then the sign of dy. */
  function Turned(o: Orientation, dX: real, dY: real): Orientation
  {
    if dX < 0.0 then Left
    else if dX > 0.0 then Right
    else if dY < 0.0 then Up
    else if dY > 0.0 then Down
    else o
  }

  /**
   * A tank turns to face its move: for a move along one axis the whole move
   * lies ahead of it, a still tank keeps its orientation, and a horizontal
   * component always wins over a vertical one.
   */
  lemma TurnedFacesMove(o: Orientation, dX: real, dY: real)
    ensures dX == 0.0 || dY == 0.0 ==> Along(Turned(o, dX, dY), dX, dY) == Abs(dX) + Abs(dY)
    ensures dX == 0.0 && dY == 0.0 ==> Turned(o, dX, dY) == o
    ensures dX != 0.0 ==> Turned(o, dX, dY) in {Left, Right}
    ensures dX == 0.0 && dY != 0.0 ==> Turned(o, dX, dY) in {Up, Down}
  {
  }

  /** A tank's move never costs health: the collider is a tank or a brick, and neither deals damage to or takes it from a tank. */
  lemma TankMoveIsHarmless(w: World, t: Tank, collider: Option<EntityRef>)
    requires WorldCollider(w, TankRef(t), collider)
    ensures forall u :: HealthLoss(TankRef(t), collider, u) == 0
    ensures forall b :: !Breaks(TankRef(t), collider, b)
  {
  }

  /**
   * `Entity.move(dx, dy)` with a tank as mover: the outcome is the one
   * determined by what `ChecksBeside` gathers around the tank's box. The
   * move costs no tank health and breaks no brick, since a tank only ever
   * runs into tanks and bricks.
   */
  method MoveTank(w: World, t: Tank, dX: real, dY: real, norm: real) returns (r: Outcome)
    requires w.player != null && w.Valid() && IsNorm(norm, dX, dY)
    modifies t`x, t`y, t`health, w.Tanks()`health, w.BrickSet()`isDead
    ensures ShortenedMove(r, dX, dY) && WorldCollider(w, TankRef(t), r.collider)
    ensures t.x == old(t.x) + r.travelX && t.y == old(t.y) + r.travelY
    ensures forall u :: u in w.Tanks() + {t} ==> u.health == old(u.health)
    ensures forall b :: b in w.bricks ==> b.isDead == old(b.isDead)
    ensures forall g :: g == old(ChecksBeside(w, t, t.GetBoundingBox(), dX, dY)) ==> r == OutcomeFrom(g, dX, dY, norm)
  {
    TankOutcomeIsBeside(w, t, t.GetBoundingBox(), dX, dY, norm);
    ghost var expected := TankOutcome(w, t, t.GetBoundingBox(), dX, dY, norm);
    assert TankRef(t).TankPart() == {t};
    r := Move(w, TankRef(t), dX, dY, norm);
    assert r == expected;
    TankMoveIsHarmless(w, t, r.collider);
  }

  /**
   * `Tank.move(dx, dy)`: the tank turns toward the move (horizontal first,
   * a still tank keeps its orientation), then moves as any entity does.
   * The collision check is made from the turned box; since it skips the
   * mover, what it gathers there is what `ChecksBeside` finds around the
   * turned box in the state before the turn, and the outcome is the one
   * those events determine. No tank loses health and no brick
   * breaks.
   */
  method TankMove(w: World, t: Tank, dX: real, dY: real, norm: real) returns (r: Outcome)
    requires w.player != null && w.Valid() && IsNorm(norm, dX, dY)
    modifies t`orientation, t`x, t`y, t`health, w.Tanks()`health, w.BrickSet()`isDead
    ensures t.orientation == Turned(old(t.orientation), dX, dY)
    ensures ShortenedMove(r, dX, dY) && WorldCollider(w, TankRef(t), r.collider)
    ensures t.x == old(t.x) + r.travelX && t.y == old(t.y) + r.travelY
    ensures forall u :: u in w.Tanks() + {t} ==> u.health == old(u.health)
    ensures forall b :: b in w.bricks ==> b.isDead == old(b.isDead)
    ensures forall g :: g == old(ChecksBeside(w, t, t.BoxFacing(Turned(t.orientation, dX, dY)), dX, dY)) ==> r == OutcomeFrom(g, dX, dY, norm)
  {
    // the check skips the mover, so what it gathers is the same before and after the turn
    ghost var box := t.BoxFacing(Turned(t.orientation, dX, dY));
    ghost var checks := ChecksBeside(w, t, box, dX, dY);
    t.orientation := Turned(t.orientation, dX, dY);
    assert t.GetBoundingBox() == box;
    assert ChecksBeside(w, t, box, dX, dY) == checks;
    r := MoveTank(w, t, dX, dY, norm);
  }

  /**
   * `after` is `before` with one bullet appended: the bullet tank `t` of
   * world `w` fires from (fX, fY) while facing `o`, with its faction and
   * bullet speed.
   */
  predicate OneMoreBullet(before: seq<Bullet>, after: seq<Bullet>, fX: real, fY: real, o: Orientation, t: Tank, w: World)
    reads if |after| > |before| then {after[|before|]} else {}
  {
    |after| == |before| + 1 && after[..|before|] == before &&
    var b := after[|before|];
    b.x == fX && b.y == fY && b.identity == t.identity && b.orientation == o && b.speed == t.bulletSpeed &&
    b.damage == BULLET_DAMAGE && b.boxes == w.bulletBoxes && !b.isDead
  }

  /**
   * `Tank.fire` (both tank variants): once the fire interval has elapsed, one
   * new bullet is appended to the world's bullets and the timer restarts;
   * otherwise nothing happens. The shot's sound is not modelled.
   */
  method Fire(w: World, t: Tank)
    modifies w`bullets, t`timeSinceLastFire
    ensures old(t.timeSinceLastFire) >= t.fireInterval ==>
              t.timeSinceLastFire == 0.0 &&
              OneMoreBullet(old(w.bullets), w.bullets, t.BulletFiringPosition().0, t.BulletFiringPosition().1, t.orientation, t, w) &&
              fresh(w.bullets[|old(w.bullets)|])
    ensures old(t.timeSinceLastFire) < t.fireInterval ==>
              t.timeSinceLastFire == old(t.timeSinceLastFire) && w.bullets == old(w.bullets)
  {
    if t.timeSinceLastFire >= t.fireInterval {
      var p := t.BulletFiringPosition();
      var b := new Bullet(p.0, p.1, t.identity, t.orientation, t.bulletSpeed, w.bulletBoxes);
      w.bullets := w.bullets + [b];
      t.timeSinceLastFire := 0.0;
    }
  }

  /** The length the callers of `move` pass for a move along one axis: the sum of the absolute components. */
  function AxisNorm(dX: real, dY: real): real
  {
    Abs(dX) + Abs(dY)
  }

  /** A move along one axis has `AxisNorm` as its length. */
  lemma AxisMoveNorm(dX: real, dY: real)
    requires dX == 0.0 || dY == 0.0
    ensures IsNorm(AxisNorm(dX, dY), dX, dY)
  {
  }

  /** What a bullet's hit costs: the struck tank loses the bullet's damage if it is of another faction; nobody else loses anything. */
  lemma BulletHitCost(b: Bullet, collider: Option<EntityRef>, t: Tank, k: Brick)
    ensures HealthLoss(BulletRef(b), collider, t) ==
            if collider == Some(TankRef(t)) && t.identity != b.identity then b.damage else 0
    ensures Breaks(BulletRef(b), collider, k) <==> collider == Some(BrickRef(k)) && k.brickType == BREAKABLE_BRICK
  {
  }

  /** The move part of `Bullet.update(dt)`: the bullet travels speed*dt along its orientation, as any entity moves. */
  method BulletMove(w: World, b: Bullet, dt: real) returns (r: Outcome)
    requires w.player != null && w.Valid()
    modifies b`x, b`y, b`isDead, w.Tanks()`health, w.BrickSet()`isDead
    ensures ShortenedMove(r, b.Step(dt).0, b.Step(dt).1) && WorldCollider(w, BulletRef(b), r.collider)
    ensures b.x == old(b.x) + r.travelX && b.y == old(b.y) + r.travelY
    ensures b.isDead == (old(b.isDead) || r.collider.Some?)
    ensures forall t :: t in w.Tanks() ==> t.health == old(t.health) - HealthLoss(BulletRef(b), r.collider, t)
    ensures forall k :: k in w.bricks ==> k.isDead == (old(k.isDead) || Breaks(BulletRef(b), r.collider, k))
    ensures var d := b.Step(dt);
            r == old(CollisionOutcome(w, BulletRef(b), BulletRef(b).GetBoundingBox(), d.0, d.1, AxisNorm(d.0, d.1)))
  {
    var d := b.Step(dt);
    AxisMoveNorm(d.0, d.1);
    assert w.Tanks() + BulletRef(b).TankPart() == w.Tanks();
    ghost var expected := CollisionOutcome(w, BulletRef(b), BulletRef(b).GetBoundingBox(), d.0, d.1, AxisNorm(d.0, d.1));
    r := Move(w, BulletRef(b), d.0, d.1, AxisNorm(d.0, d.1));
    assert r == expected;
    assert ShortenedMove(r, d.0, d.1) && WorldCollider(w, BulletRef(b), r.collider);
    assert r.collider.Some? ==> r.collider.value.Type() in {BrickType, TankType};
  }

  /**
   * `Bullet.update(dt)`: the bullet moves speed*dt along its orientation,
   * then dies if it has left the play field. It also dies when it runs
   * into a tank or a brick.
   */
  method BulletUpdate(w: World, b: Bullet, dt: real) returns (r: Outcome)
    requires w.player != null && w.Valid()
    modifies b`x, b`y, b`isDead, w.Tanks()`health, w.BrickSet()`isDead
    ensures ShortenedMove(r, b.Step(dt).0, b.Step(dt).1) && WorldCollider(w, BulletRef(b), r.collider)
    ensures b.x == old(b.x) + r.travelX && b.y == old(b.y) + r.travelY
    ensures b.isDead == (old(b.isDead) || r.collider.Some? || OutOfPlayfield(b.x, b.y))
    ensures forall t :: t in w.Tanks() ==> t.health == old(t.health) - HealthLoss(BulletRef(b), r.collider, t)
    ensures forall k :: k in w.bricks ==> k.isDead == (old(k.isDead) || Breaks(BulletRef(b), r.collider, k))
    ensures forall g :: g == old(Checks(w, BulletRef(b), BulletRef(b).GetBoundingBox(), b.Step(dt).0, b.Step(dt).1)) ==>
                        r == OutcomeFrom(g, b.Step(dt).0, b.Step(dt).1, AxisNorm(b.Step(dt).0, b.Step(dt).1))
  {
    r := BulletMove(w, b, dt);
    if OutOfPlayfield(b.x, b.y) {
      b.isDead := true;
    }
  }
}
