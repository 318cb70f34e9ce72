/**
 * The entity protocol of the tank game (examples/tanks/entity.js) and its
 * three variants: Tank (examples/tanks/tank-entity.js and its twin
 * scenarios/tanks/tank-entity.mjs), Bullet (examples/tanks/bullet-entity.js)
 * and Brick (examples/tanks/brick-entity.js and its twin
 * scenarios/tanks/brick-entity.mjs).
 *
 * The JavaScript class hierarchy Entity -> Tank | Bullet | Brick is one level
 * deep; here each variant is a class of its own and `EntityRef` is the tagged
 * union through which the collision engine sees "any entity". The parts of
 * the variants that reach into the world (Entity.move, Tank.fire,
 * Tank.update with its controller, Bullet.update) live in module Game.
 */
module Entities {
  import opened Common
  import opened BBox

  /** The strings returned by `getType()`. */
  datatype EntityType = TankType | BulletType | BrickType

  datatype Orientation = Up | Down | Left | Right

  /** A tank's `identity`, copied into the bullets it fires. */
  datatype Faction = PlayerFaction | EnemyFaction

  /** `enableCollision`: insertion into the collision-enabled type set. */
  function EnableCollision(enabled: set<EntityType>, t: EntityType): (r: set<EntityType>)
    ensures forall u :: IsCollisionEnabled(r, u) <==> u == t || IsCollisionEnabled(enabled, u)
  {
    enabled + {t}
  }

  /** `isCollisionEnabled` */
  predicate IsCollisionEnabled(enabled: set<EntityType>, t: EntityType)
  {
    t in enabled
  }

  /** Enabling a type that is already enabled changes nothing. */
  lemma EnableCollisionIdempotent(enabled: set<EntityType>, t: EntityType)
    ensures EnableCollision(EnableCollision(enabled, t), t) == EnableCollision(enabled, t)
    ensures IsCollisionEnabled(enabled, t) ==> EnableCollision(enabled, t) == enabled
  {
  }

  /** One bounding box per orientation: the `bbox` of each of the four rotated sprites. */
  datatype OrientedBoxes = OrientedBoxes(up: Box, down: Box, left: Box, right: Box)
  {
    function For(o: Orientation): Box
    {
      match o
      case Up => up
      case Down => down
      case Left => left
      case Right => right
    }
  }

  /** What a tank needs of its sprite set: the four boxes and the height of the "up" sprite. */
  datatype TankSprites = TankSprites(boxes: OrientedBoxes, upHeight: real)

  /** Which controller a tank has been given with `addController`. */
  datatype ControllerKind = NoController | HumanControlled | AIControlled

  /** The AI controller's `plannedAction.type`. */
  datatype ActionType = MoveUp | MoveDown | MoveLeft | MoveRight | FireAction | Idle

  /** The AI controller's `plannedAction`. */
  datatype PlannedAction = PlannedAction(kind: ActionType, remainingTime: real)

  const TANK_HEALTH := 100
  const TANK_FIRE_INTERVAL := 0.6
  const TANK_BULLET_SPEED := 150.0
  const TANK_INITIAL_TIME_SINCE_FIRE := 100.0
  const BULLET_DAMAGE := 15

  class Tank {
    const sprites: TankSprites
    const identity: Faction
    const fireInterval: real
    const bulletSpeed: real
    var x: real
    var y: real
    var orientation: Orientation
    var timeSinceLastFire: real
    var health: int
    /** `collisionEnabledEntityTypes`: filled by the constructor and never changed afterwards. */
    const enabled: set<EntityType> := EnableCollision(EnableCollision(EnableCollision({}, BulletType), BrickType), TankType)
    var controller: ControllerKind
    /** The state of the AI controller attached to this tank (null when none is planned). */
    var plan: Option<PlannedAction>

    /** A new tank reacts to bullets, bricks and tanks and starts with full health. */
    constructor (sprites: TankSprites, x: real, y: real, orientation: Orientation, identity: Faction)
      ensures this.sprites == sprites && this.identity == identity
      ensures this.x == x && this.y == y && this.orientation == orientation
      ensures health == TANK_HEALTH && timeSinceLastFire == TANK_INITIAL_TIME_SINCE_FIRE
      ensures fireInterval == TANK_FIRE_INTERVAL && bulletSpeed == TANK_BULLET_SPEED
      ensures controller == NoController && plan == None
    {
      this.sprites := sprites;
      this.identity := identity;
      this.fireInterval := TANK_FIRE_INTERVAL;
      this.bulletSpeed := TANK_BULLET_SPEED;
      this.x := x;
      this.y := y;
      this.orientation := orientation;
      this.timeSinceLastFire := TANK_INITIAL_TIME_SINCE_FIRE;
      this.health := TANK_HEALTH;
      this.controller := NoController;
      this.plan := None;
    }

    /** `getBoundingBox`: the box of the sprite for the current orientation, in world space. */
    function GetBoundingBox(): (r: Box)
      reads this`x, this`y, this`orientation
      ensures Width(r) == Width(sprites.boxes.For(orientation))
      ensures Height(r) == Height(sprites.boxes.For(orientation))
      ensures r.left - sprites.boxes.For(orientation).left == x
      ensures r.up - sprites.boxes.For(orientation).up == y
    {
      MoveBoundingBox(sprites.boxes.For(orientation), x, y)
    }

    /** The box the tank would have at its position when facing `o`. */
    function BoxFacing(o: Orientation): Box
      reads this`x, this`y
    {
      MoveBoundingBox(sprites.boxes.For(o), x, y)
    }

    /** `addController`: a newly attached controller has nothing planned yet. */
    method AddController(c: ControllerKind)
      modifies this`controller, this`plan
      ensures controller == c && plan == None
    {
      controller := c;
      plan := None;
    }

    /** `update(dt)` of the controller-less twin: only the fire timer advances. */
    method Update(dt: real)
      modifies this`timeSinceLastFire
      ensures timeSinceLastFire == old(timeSinceLastFire) + dt
    {
      timeSinceLastFire := timeSinceLastFire + dt;
    }

    /** `reload`: the timer is raised to at least half the fire interval. */
    method Reload()
      modifies this`timeSinceLastFire
      ensures timeSinceLastFire == Max(old(timeSinceLastFire), fireInterval / 2.0)
      ensures timeSinceLastFire >= old(timeSinceLastFire)
      ensures timeSinceLastFire >= fireInterval / 2.0
    {
      timeSinceLastFire := Max(timeSinceLastFire, fireInterval / 2.0);
    }

    /** `getBulletFiringPosition`: half the "up" sprite height ahead of (x, y) in the facing direction. */
    function BulletFiringPosition(): (p: (real, real))
      reads this`x, this`y, this`orientation
      ensures Abs(p.0 - x) + Abs(p.1 - y) == Abs(sprites.upHeight / 2.0)
      ensures orientation == Up || orientation == Down ==> p.0 == x
      ensures orientation == Left || orientation == Right ==> p.1 == y
      ensures orientation == Up ==> p.1 == y - sprites.upHeight / 2.0
      ensures orientation == Down ==> p.1 == y + sprites.upHeight / 2.0
      ensures orientation == Left ==> p.0 == x - sprites.upHeight / 2.0
      ensures orientation == Right ==> p.0 == x + sprites.upHeight / 2.0
    {
      FiringPosition(x, y, orientation, sprites.upHeight / 2.0)
    }

    /**
     * `handleCollision`: a bullet of another faction takes its damage off the
     * tank's health. A brick is forwarded to the controller's
     * `handleBrickCollision`, whose body is empty in every controller, and
     * every other collision is ignored.
     */
    method HandleCollision(other: EntityRef)
      modifies this`health
      ensures health == old(health) - DamageTaken(this, other)
    {
      match other
      case BulletRef(b) =>
        if b.identity != identity {
          health := health - b.damage;
        }
      case BrickRef(_) =>
      case TankRef(_) =>
    }
  }

  /** The point `offs` ahead of (x, y) in direction `o`. */
  function FiringPosition(x: real, y: real, o: Orientation, offs: real): (real, real)
  {
    match o
    case Up => (x, y - offs)
    case Down => (x, y + offs)
    case Left => (x - offs, y)
    case Right => (x + offs, y)
  }

  /** How much health `t` loses when `other` runs into it. */
  function DamageTaken(t: Tank, other: EntityRef): int
  {
    if other.BulletRef? && other.bullet.identity != t.identity then other.bullet.damage else 0
  }

  const BULLET_MIN_COORD := -10.0
  const BULLET_MAX_X := 330.0
  const BULLET_MAX_Y := 210.0

  class Bullet {
    const identity: Faction
    const orientation: Orientation
    const speed: real
    const damage: int := BULLET_DAMAGE
    /** `Bullet.sprites[orientation].bbox` for every orientation. */
    const boxes: OrientedBoxes
    var x: real
    var y: real
    var isDead: bool
    const enabled: set<EntityType> := EnableCollision(EnableCollision({}, BrickType), TankType)

    /** A new bullet reacts to bricks and tanks only and carries damage 15. */
    constructor (x: real, y: real, identity: Faction, orientation: Orientation, speed: real, boxes: OrientedBoxes)
      ensures this.x == x && this.y == y && this.identity == identity
      ensures this.orientation == orientation && this.speed == speed && this.boxes == boxes
      ensures damage == BULLET_DAMAGE && !isDead
    {
      this.identity := identity;
      this.orientation := orientation;
      this.speed := speed;
      this.boxes := boxes;
      this.x := x;
      this.y := y;
      this.isDead := false;
    }

    function GetBoundingBox(): (r: Box)
      reads this`x, this`y
      ensures Width(r) == Width(boxes.For(orientation)) && Height(r) == Height(boxes.For(orientation))
      ensures r.left - boxes.For(orientation).left == x && r.up - boxes.For(orientation).up == y
    {
      MoveBoundingBox(boxes.For(orientation), x, y)
    }

    /** The move `update(dt)` requests: speed*dt along the bullet's orientation, nothing across it. */
    function Step(dt: real): (d: (real, real))
      ensures orientation == Up || orientation == Down ==> d.0 == 0.0
      ensures orientation == Left || orientation == Right ==> d.1 == 0.0
      ensures Abs(d.0) + Abs(d.1) == Abs(speed * dt)
      ensures orientation == Down ==> d.1 == speed * dt
      ensures orientation == Right ==> d.0 == speed * dt
    {
      match orientation
      case Up => (0.0, -speed * dt)
      case Down => (0.0, speed * dt)
      case Left => (-speed * dt, 0.0)
      case Right => (speed * dt, 0.0)
    }

    /** `handleCollision`: running into a brick or a tank destroys the bullet. */
    method HandleCollision(other: EntityRef)
      modifies this`isDead
      ensures isDead == (old(isDead) || other.Type() == BrickType || other.Type() == TankType)
    {
      match other
      case BrickRef(_) => isDead := true;
      case TankRef(_) => isDead := true;
      case BulletRef(_) =>
    }
  }

  /** Outside the play field: x < -10, y < -10, x > 330 or y > 210. */
  predicate OutOfPlayfield(x: real, y: real)
  {
    x < BULLET_MIN_COORD || y < BULLET_MIN_COORD || x > BULLET_MAX_X || y > BULLET_MAX_Y
  }

  /** The brick type that a bullet can break. */
  const BREAKABLE_BRICK := 1

  class Brick {
    const brickType: int
    const x: real
    const y: real
    /** `Brick.sprites[type - 1].bbox` */
    const shape: Box
    var isDead: bool
    const enabled: set<EntityType> := EnableCollision({}, BulletType)

    /** A new brick reacts to bullets only. */
    constructor (brickType: int, x: real, y: real, shape: Box)
      ensures this.brickType == brickType && this.x == x && this.y == y && this.shape == shape
      ensures !isDead
    {
      this.brickType := brickType;
      this.x := x;
      this.y := y;
      this.shape := shape;
      this.isDead := false;
    }

    /** `getBoundingBox`: the type's sprite box translated to (x, y). */
    function GetBoundingBox(): (r: Box)
      ensures Width(r) == Width(shape) && Height(r) == Height(shape)
      ensures r.left - shape.left == x && r.up - shape.up == y
    {
      MoveBoundingBox(shape, x, y)
    }

    /** `handleCollision`: only a bullet, and only on a type-1 brick, breaks it. */
    method HandleCollision(other: EntityRef)
      modifies this`isDead
      ensures isDead == (old(isDead) || (other.Type() == BulletType && brickType == BREAKABLE_BRICK))
    {
      if other.Type() == BulletType && brickType == BREAKABLE_BRICK {
        Break();
      }
    }

    /** `break`: marks the brick dead and nothing else. */
    method Break()
      modifies this`isDead
      ensures isDead
    {
      isDead := true;
    }
  }

  /** Any entity, as the collision engine and `Entity.move` see it. */
  datatype EntityRef = TankRef(tank: Tank) | BulletRef(bullet: Bullet) | BrickRef(brick: Brick)
  {
    /** `getType` */
    function Type(): EntityType
    {
      match this
      case TankRef(_) => TankType
      case BulletRef(_) => BulletType
      case BrickRef(_) => BrickType
    }

    function Obj(): object
    {
      match this
      case TankRef(t) => t
      case BulletRef(b) => b
      case BrickRef(b) => b
    }

    /** The entity's `collisionEnabledEntityTypes`. */
    function Enabled(): set<EntityType>
    {
      match this
      case TankRef(t) => t.enabled
      case BulletRef(b) => b.enabled
      case BrickRef(b) => b.enabled
    }

    /** The tank (if this is one), as a frame for its fields. */
    function TankPart(): set<Tank>
    {
      if TankRef? then {tank} else {}
    }

    function BulletPart(): set<Bullet>
    {
      if BulletRef? then {bullet} else {}
    }

    function BrickPart(): set<Brick>
    {
      if BrickRef? then {brick} else {}
    }

    function GetBoundingBox(): Box
      reads TankPart(), BulletPart()
    {
      match this
      case TankRef(t) => t.GetBoundingBox()
      case BulletRef(b) => b.GetBoundingBox()
      case BrickRef(b) => b.GetBoundingBox()
    }

    /**
     * `filterCollision(other)`: the base entity accepts everything; a bullet
     * rejects exactly the tanks of its own faction.
     */
    predicate FilterCollision(other: EntityRef)
    {
      match this
      case BulletRef(b) => !(other.TankRef? && other.tank.identity == b.identity)
      case _ => true
    }
  }

  /** A bullet never collides with a tank of the faction that fired it, whatever their boxes. */
  lemma BulletSparesOwnFaction(b: Bullet, t: Tank)
    ensures BulletRef(b).FilterCollision(TankRef(t)) <==> t.identity != b.identity
    ensures forall o: EntityRef :: !o.TankRef? ==> BulletRef(b).FilterCollision(o)
  {
  }

  /** `handleCollision(other)`, dispatched on the variant of `self`. */
  method HandleCollision(self: EntityRef, other: EntityRef)
    modifies self.TankPart()`health, self.BulletPart()`isDead, self.BrickPart()`isDead
    ensures self.TankRef? ==> self.tank.health == old(self.tank.health) - DamageTaken(self.tank, other)
    ensures self.BulletRef? ==>
              self.bullet.isDead == (old(self.bullet.isDead) || other.Type() == BrickType || other.Type() == TankType)
    ensures self.BrickRef? ==>
              self.brick.isDead == (old(self.brick.isDead) || (other.Type() == BulletType && self.brick.brickType == BREAKABLE_BRICK))
  {
    match self
    case TankRef(t) => t.HandleCollision(other);
    case BulletRef(b) => b.HandleCollision(other);
    case BrickRef(b) => b.HandleCollision(other);
  }
}
