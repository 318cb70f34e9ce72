/**
 * The enemy tanks' controller (examples/tanks/ai-controller.js) and the
 * tank's `update` that drives it (examples/tanks/tank-entity.js). The
 * controller's state, `plannedAction`, lives in the tank's `plan` field;
 * the values `Math.random()` would return are a parameter.
 */
module AI {
  import opened Common
  import opened Entities
  import opened World
  import opened Collision
  import opened Game

  /** The distance within which a tank notices the player. */
  const AWARENESS_RADIUS := 100.0
  const FIRE_PLAN_TIME := 3.0
  const MOVE_PLAN_TIME := 1.0

  /**
   * The values the controller's `Math.random()` calls return in one update,
   * in the order the calls are written; a value whose call is not reached
   * is not used.
   */
  datatype Draws = Draws(fire: real, approach: real, shoot: real, turn: real, direction: real, wander: real)
  {
    /** Every value lies in [0, 1), the range of `Math.random()`. */
    predicate Valid()
    {
      0.0 <= fire < 1.0 && 0.0 <= approach < 1.0 && 0.0 <= shoot < 1.0 &&
      0.0 <= turn < 1.0 && 0.0 <= direction < 1.0 && 0.0 <= wander < 1.0
    }
  }

  /** The plan that moves a tank in direction `o`: `move-${o}`. */
  function MoveKind(o: Orientation): ActionType
  {
    match o
    case Up => MoveUp
    case Down => MoveDown
    case Left => MoveLeft
    case Right => MoveRight
  }

  /**
   * The move `executePlannedAction` asks of the tank for one frame of a plan
   * of this kind: AI_MOVE_SPEED*dt along the plan's direction. A fire plan
   * falls through into the move-down case (the switch has no `break` after
   * it); an idle plan does not move.
   */
  function ActionMove(kind: ActionType, dt: real): (d: (real, real))
    ensures d.0 == 0.0 || d.1 == 0.0
  {
    match kind
    case FireAction => (0.0, AI_MOVE_SPEED * dt)
    case MoveDown => (0.0, AI_MOVE_SPEED * dt)
    case MoveUp => (0.0, -AI_MOVE_SPEED * dt)
    case MoveLeft => (-AI_MOVE_SPEED * dt, 0.0)
    case MoveRight => (AI_MOVE_SPEED * dt, 0.0)
    case Idle => (0.0, 0.0)
  }

  /** A move plan, carried out for a positive time, turns the tank to the plan's direction and moves it that way. */
  lemma MovePlanFacesItsDirection(o: Orientation, before: Orientation, dt: real)
    requires dt > 0.0
    ensures Turned(before, ActionMove(MoveKind(o), dt).0, ActionMove(MoveKind(o), dt).1) == o
    ensures Along(o, ActionMove(MoveKind(o), dt).0, ActionMove(MoveKind(o), dt).1) == AI_MOVE_SPEED * dt
  {
  }

  /** As written, a fire plan also drives the tank downwards and turns it to face down. */
  lemma FirePlanDrivesDown(before: Orientation, dt: real)
    requires dt > 0.0
    ensures ActionMove(FireAction, dt) == ActionMove(MoveDown, dt)
    ensures Turned(before, ActionMove(FireAction, dt).0, ActionMove(FireAction, dt).1) == Down
  {
  }

  /** `isTankInlineWithPlayer`, for the offset (dx, dy) from the tank to the player. */
  predicate IsInline(dX: real, dY: real)
  {
    Abs(dX) < BRICK_SIZE as real || Abs(dY) < BRICK_SIZE as real
  }

  /** `getOrientationTowardPlayer`: along the dominant axis of the offset, horizontal on a tie. */
  function OrientationToward(dX: real, dY: real): Orientation
  {
    if Abs(dX) >= Abs(dY) then (if dX > 0.0 then Right else Left)
    else (if dY > 0.0 then Down else Up)
  }

  /**
   * The orientation toward the player is the best of the four: a step that
   * way covers the larger of |dx| and |dy| of the offset, and no other
   * direction covers more.
   */
  lemma OrientationTowardIsBest(dX: real, dY: real, o: Orientation)
    ensures Along(OrientationToward(dX, dY), dX, dY) == Max(Abs(dX), Abs(dY))
    ensures Along(o, dX, dY) <= Along(OrientationToward(dX, dY), dX, dY)
  {
  }

  /** `directions[Math.floor(draw * 4)]` of `planFoolAround`. */
  function DirectionOf(draw: real): (o: Orientation)
    requires 0.0 <= draw < 1.0
    ensures draw < 0.25 <==> o == Up
    ensures 0.25 <= draw < 0.5 <==> o == Down
    ensures 0.5 <= draw < 0.75 <==> o == Left
    ensures 0.75 <= draw <==> o == Right
  {
    var k := (draw * 4.0).Floor;
    if k == 0 then Up else if k == 1 then Down else if k == 2 then Left else Right
  }

  /** Whether the tank would start a fire plan: near the player, chasing, in line, facing the player, and the shot draw passes. */
  predicate ChoosesFire(o: Orientation, dX: real, dY: real, d: Draws)
  {
    dX * dX + dY * dY <= AWARENESS_RADIUS * AWARENESS_RADIUS && d.approach < 0.5 &&
    IsInline(dX, dY) && o == OrientationToward(dX, dY) && d.shoot < 0.8
  }

  /**
   * What an update without a plan decides, for a tank facing `o` at offset
   * (dx, dy) from the player: its new orientation and its new plan. Near the
   * player (`distance <= awarenessRadius`, compared here on squares) and on
   * a chase draw, it plans a shot or a move toward the player
   * (`planFire`, `planMoveTowardPlayer`); otherwise it fools around
   * (`planFoolAround`): it may turn to a random direction, then plans a
   * move ahead or idling.
   */
  function Decision(o: Orientation, dX: real, dY: real, d: Draws): (Orientation, PlannedAction)
    requires d.Valid()
  {
    if dX * dX + dY * dY <= AWARENESS_RADIUS * AWARENESS_RADIUS && d.approach < 0.5 then
      if IsInline(dX, dY) && o == OrientationToward(dX, dY) && d.shoot < 0.8 then
        (o, PlannedAction(FireAction, FIRE_PLAN_TIME))
      else
        (o, PlannedAction(MoveKind(OrientationToward(dX, dY)), MOVE_PLAN_TIME))
    else
      var turned := if d.turn < 0.5 then DirectionOf(d.direction) else o;
      (turned, PlannedAction(if d.wander < 0.8 then MoveKind(turned) else Idle, MOVE_PLAN_TIME))
  }

  /**
   * What a decision can be: a fire plan exactly when `ChoosesFire` holds,
   * lasting 3 seconds and keeping the orientation; a chase that is not a
   * shot moves toward the player for a second; otherwise a second of moving
   * ahead or idling, with the tank turned only on a turn draw.
   */
  lemma DecisionCases(o: Orientation, dX: real, dY: real, d: Draws)
    requires d.Valid()
    ensures var (o', plan) := Decision(o, dX, dY, d);
            (plan.kind == FireAction <==> ChoosesFire(o, dX, dY, d)) &&
            (plan.kind == FireAction ==> o' == o && plan.remainingTime == FIRE_PLAN_TIME) &&
            (plan.kind != FireAction ==> plan.remainingTime == MOVE_PLAN_TIME) &&
            (dX * dX + dY * dY <= AWARENESS_RADIUS * AWARENESS_RADIUS && d.approach < 0.5 && !ChoosesFire(o, dX, dY, d) ==>
               o' == o && plan.kind == MoveKind(OrientationToward(dX, dY))) &&
            (!(dX * dX + dY * dY <= AWARENESS_RADIUS * AWARENESS_RADIUS && d.approach < 0.5) ==>
               (plan.kind == Idle || plan.kind == MoveKind(o')) && (d.turn >= 0.5 ==> o' == o))
  {
  }

  /** The plan left after a frame of length dt: its time runs down, and it ends once none is left. */
  function Countdown(p: PlannedAction, dt: real): Option<PlannedAction>
  {
    if p.remainingTime - dt <= 0.0 then None else Some(PlannedAction(p.kind, p.remainingTime - dt))
  }

  /** The plan left after n frames of length dt. */
  function CountdownN(p: Option<PlannedAction>, dt: real, n: nat): Option<PlannedAction>
    decreases n
  {
    if n == 0 || p.None? then p else CountdownN(Countdown(p.value, dt), dt, n - 1)
  }

  /**
   * With frames of a fixed positive length, a plan is carried out for
   * exactly as many frames as it takes its time to run out: after n frames
   * it is still there, n*dt shorter, while n*dt is less than its time, and
   * it is gone as soon as n*dt reaches its time.
   */
  lemma {:induction false} PlanLastsItsTime(p: PlannedAction, dt: real, n: nat)
    requires dt > 0.0 && p.remainingTime > 0.0
    ensures n as real * dt < p.remainingTime ==>
              CountdownN(Some(p), dt, n) == Some(PlannedAction(p.kind, p.remainingTime - n as real * dt))
    ensures (n as real - 1.0) * dt < p.remainingTime <= n as real * dt ==> CountdownN(Some(p), dt, n) == None
    decreases n
  {
    if n > 0 {
      var m: nat := n - 1;
      assert m as real * dt == n as real * dt - dt;
      assert (n as real - 1.0) * dt == n as real * dt - dt;
      if p.remainingTime - dt <= 0.0 {
        assert n as real * dt >= dt by {
          assert m as real * dt >= 0.0;
        }
      } else {
        var q := PlannedAction(p.kind, p.remainingTime - dt);
        assert CountdownN(Some(p), dt, n) == CountdownN(Some(q), dt, m);
        PlanLastsItsTime(q, dt, m);
        if n as real * dt < p.remainingTime {
          assert m as real * dt < q.remainingTime;
          assert CountdownN(Some(q), dt, m) == Some(PlannedAction(q.kind, q.remainingTime - m as real * dt));
          assert q.remainingTime - m as real * dt == p.remainingTime - n as real * dt;
        }
        assert (m as real - 1.0) * dt == n as real * dt - dt - dt;
      }
    }
  }

  /** Whether this update fires: a planned fire action, or, without a plan, the 5% fire draw. */
  predicate WantsFire(plan: Option<PlannedAction>, d: Draws)
  {
    if plan.Some? then plan.value.kind == FireAction else d.fire < 0.05
  }

  /**
   * `executePlannedAction(dt)`: a fire plan fires (if the tank is ready)
   * and then moves down; a move plan moves the tank AI_MOVE_SPEED*dt its
   * way, turning it first; an idle plan does nothing. The tank's move never
   * costs health or breaks a brick. `moved` is the outcome of the move, if
   * one was made.
   */
  method ExecutePlannedAction(w: World, t: Tank, dt: real) returns (moved: Option<Outcome>)
    requires w.player != null && w.Valid() && t.plan.Some?
    modifies w`bullets, t`timeSinceLastFire, t`orientation, t`x, t`y, t`health, w.Tanks()`health, w.BrickSet()`isDead
    ensures var fires := t.plan.value.kind == FireAction && old(t.timeSinceLastFire) >= t.fireInterval;
            (fires ==> t.timeSinceLastFire == 0.0 &&
                       OneMoreBullet(old(w.bullets), w.bullets, old(t.BulletFiringPosition().0), old(t.BulletFiringPosition().1),
                                     old(t.orientation), t, w) &&
                       fresh(w.bullets[|old(w.bullets)|])) &&
            (!fires ==> t.timeSinceLastFire == old(t.timeSinceLastFire) && w.bullets == old(w.bullets))
    ensures t.plan.value.kind == Idle ==>
              moved.None? && t.x == old(t.x) && t.y == old(t.y) && t.orientation == old(t.orientation)
    ensures t.plan.value.kind != Idle ==>
              var d := ActionMove(t.plan.value.kind, dt);
              moved.Some? && ShortenedMove(moved.value, d.0, d.1) && WorldCollider(w, TankRef(t), moved.value.collider) &&
              t.x == old(t.x) + moved.value.travelX && t.y == old(t.y) + moved.value.travelY &&
              t.orientation == Turned(old(t.orientation), d.0, d.1)
    ensures forall u :: u in w.Tanks() + {t} ==> u.health == old(u.health)
    ensures forall b :: b in w.bricks ==> b.isDead == old(b.isDead)
  {
    var kind := t.plan.value.kind;
    if kind == FireAction {
      Fire(w, t);
    }
    if kind == Idle {
      moved := None;
    } else {
      var d := ActionMove(kind, dt);
      AxisMoveNorm(d.0, d.1);
      var r := TankMove(w, t, d.0, d.1, AxisNorm(d.0, d.1));
      moved := Some(r);
    }
  }

  /**
   * The first branch of `AIController.update(dt)`: the planned action is
   * carried out for this frame and the plan's time runs down; the plan ends
   * once its time is used up.
   */
  method FollowPlan(w: World, t: Tank, dt: real) returns (moved: Option<Outcome>)
    requires w.player != null && w.Valid() && t.plan.Some?
    modifies w`bullets, t`timeSinceLastFire, t`orientation, t`x, t`y, t`health, t`plan, w.Tanks()`health, w.BrickSet()`isDead
    ensures var fires := old(t.plan).value.kind == FireAction && old(t.timeSinceLastFire) >= t.fireInterval;
            (fires ==> t.timeSinceLastFire == 0.0 &&
                       OneMoreBullet(old(w.bullets), w.bullets, old(t.BulletFiringPosition().0), old(t.BulletFiringPosition().1),
                                     old(t.orientation), t, w) &&
                       fresh(w.bullets[|old(w.bullets)|])) &&
            (!fires ==> t.timeSinceLastFire == old(t.timeSinceLastFire) && w.bullets == old(w.bullets))
    ensures var kind := old(t.plan).value.kind;
            var m := ActionMove(kind, dt);
            t.plan == Countdown(old(t.plan).value, dt) &&
            (kind == Idle ==> moved.None? && t.x == old(t.x) && t.y == old(t.y) && t.orientation == old(t.orientation)) &&
            (kind != Idle ==>
               moved.Some? && ShortenedMove(moved.value, m.0, m.1) && WorldCollider(w, TankRef(t), moved.value.collider) &&
               t.x == old(t.x) + moved.value.travelX && t.y == old(t.y) + moved.value.travelY &&
               t.orientation == Turned(old(t.orientation), m.0, m.1))
    ensures forall u :: u in w.Tanks() + {t} ==> u.health == old(u.health)
    ensures forall b :: b in w.bricks ==> b.isDead == old(b.isDead)
  {
    moved := ExecutePlannedAction(w, t, dt);
    t.plan := Countdown(t.plan.value, dt);
  }

  /**
   * The second branch of `AIController.update(dt)`, taken when nothing is
   * planned: the tank may fire (the 5% draw), then takes the orientation and
   * plan of `Decision` for its offset to the player. It does not move.
   */
  method PlanNext(w: World, t: Tank, d: Draws)
    requires w.player != null && d.Valid()
    modifies w`bullets, t`timeSinceLastFire, t`orientation, t`plan
    ensures var fires := d.fire < 0.05 && old(t.timeSinceLastFire) >= t.fireInterval;
            (fires ==> t.timeSinceLastFire == 0.0 &&
                       OneMoreBullet(old(w.bullets), w.bullets, old(t.BulletFiringPosition().0), old(t.BulletFiringPosition().1),
                                     old(t.orientation), t, w) &&
                       fresh(w.bullets[|old(w.bullets)|])) &&
            (!fires ==> t.timeSinceLastFire == old(t.timeSinceLastFire) && w.bullets == old(w.bullets))
    ensures var decision := Decision(old(t.orientation), old(w.player.x - t.x), old(w.player.y - t.y), d);
            t.orientation == decision.0 && t.plan == Some(decision.1)
  {
    if d.fire < 0.05 {
      Fire(w, t);
    }
    var dX := w.player.x - t.x;
    var dY := w.player.y - t.y;
    if dX * dX + dY * dY <= AWARENESS_RADIUS * AWARENESS_RADIUS && d.approach < 0.5 {
      if IsInline(dX, dY) && t.orientation == OrientationToward(dX, dY) && d.shoot < 0.8 {
        t.plan := Some(PlannedAction(FireAction, FIRE_PLAN_TIME));
      } else {
        t.plan := Some(PlannedAction(MoveKind(OrientationToward(dX, dY)), MOVE_PLAN_TIME));
      }
    } else {
      if d.turn < 0.5 {
        t.orientation := DirectionOf(d.direction);
      }
      if d.wander < 0.8 {
        t.plan := Some(PlannedAction(MoveKind(t.orientation), MOVE_PLAN_TIME));
      } else {
        t.plan := Some(PlannedAction(Idle, MOVE_PLAN_TIME));
      }
    }
  }

  /**
   * `AIController.update(dt)`: with a plan, `FollowPlan`; without one,
   * `PlanNext`. Either way the tank fires only when `WantsFire` and its fire
   * interval has elapsed, and no tank loses health and no brick breaks.
   */
  method AIUpdate(w: World, t: Tank, dt: real, d: Draws) returns (moved: Option<Outcome>)
    requires w.player != null && w.Valid() && d.Valid()
    modifies w`bullets, t`timeSinceLastFire, t`orientation, t`x, t`y, t`health, t`plan, w.Tanks()`health, w.BrickSet()`isDead
    ensures var fires := WantsFire(old(t.plan), d) && old(t.timeSinceLastFire) >= t.fireInterval;
            (fires ==> t.timeSinceLastFire == 0.0 &&
                       OneMoreBullet(old(w.bullets), w.bullets, old(t.BulletFiringPosition().0), old(t.BulletFiringPosition().1),
                                     old(t.orientation), t, w) &&
                       fresh(w.bullets[|old(w.bullets)|])) &&
            (!fires ==> t.timeSinceLastFire == old(t.timeSinceLastFire) && w.bullets == old(w.bullets))
    ensures old(t.plan).Some? ==>
              var kind := old(t.plan).value.kind;
              var m := ActionMove(kind, dt);
              t.plan == Countdown(old(t.plan).value, dt) &&
              (kind == Idle ==> moved.None? && t.x == old(t.x) && t.y == old(t.y) && t.orientation == old(t.orientation)) &&
              (kind != Idle ==>
                 moved.Some? && ShortenedMove(moved.value, m.0, m.1) && WorldCollider(w, TankRef(t), moved.value.collider) &&
                 t.x == old(t.x) + moved.value.travelX && t.y == old(t.y) + moved.value.travelY &&
                 t.orientation == Turned(old(t.orientation), m.0, m.1))
    ensures old(t.plan).None? ==>
              var decision := Decision(old(t.orientation), old(w.player.x - t.x), old(w.player.y - t.y), d);
              moved.None? && t.x == old(t.x) && t.y == old(t.y) &&
              t.orientation == decision.0 && t.plan == Some(decision.1)
    ensures forall u :: u in w.Tanks() + {t} ==> u.health == old(u.health)
    ensures forall b :: b in w.bricks ==> b.isDead == old(b.isDead)
  {
    if t.plan.Some? {
      moved := FollowPlan(w, t, dt);
    } else {
      PlanNext(w, t, d);
      moved := None;
    }
  }

  /**
   * `Tank.update(dt)` of examples/tanks/tank-entity.js: the fire timer
   * advances by dt, then an AI controller, if attached, takes its turn (so
   * it fires when the advanced timer has reached the fire interval). The
   * player's human controller reads the keyboard and is not modelled: for
   * the player, and for a tank without a controller, only the timer moves.
   * Bullets are only ever appended, fresh, to the world's list.
   */
  method TankUpdate(w: World, t: Tank, dt: real, d: Draws) returns (moved: Option<Outcome>)
    requires w.player != null && w.Valid() && d.Valid()
    modifies w`bullets, t`timeSinceLastFire, t`orientation, t`x, t`y, t`health, t`plan, w.Tanks()`health, w.BrickSet()`isDead
    ensures t.controller != AIControlled ==>
              t.timeSinceLastFire == old(t.timeSinceLastFire) + dt && moved.None? && w.bullets == old(w.bullets) &&
              t.x == old(t.x) && t.y == old(t.y) && t.orientation == old(t.orientation) && t.plan == old(t.plan)
    ensures t.controller == AIControlled ==>
              var fires := WantsFire(old(t.plan), d) && old(t.timeSinceLastFire) + dt >= t.fireInterval;
              (fires ==> t.timeSinceLastFire == 0.0 &&
                         OneMoreBullet(old(w.bullets), w.bullets, old(t.BulletFiringPosition().0), old(t.BulletFiringPosition().1),
                                       old(t.orientation), t, w) &&
                         fresh(w.bullets[|old(w.bullets)|])) &&
              (!fires ==> t.timeSinceLastFire == old(t.timeSinceLastFire) + dt && w.bullets == old(w.bullets))
    ensures t.controller == AIControlled && old(t.plan).Some? ==>
              var kind := old(t.plan).value.kind;
              var m := ActionMove(kind, dt);
              t.plan == Countdown(old(t.plan).value, dt) &&
              (kind == Idle ==> moved.None? && t.x == old(t.x) && t.y == old(t.y) && t.orientation == old(t.orientation)) &&
              (kind != Idle ==>
                 moved.Some? && ShortenedMove(moved.value, m.0, m.1) && WorldCollider(w, TankRef(t), moved.value.collider) &&
                 t.x == old(t.x) + moved.value.travelX && t.y == old(t.y) + moved.value.travelY &&
                 t.orientation == Turned(old(t.orientation), m.0, m.1))
    ensures t.controller == AIControlled && old(t.plan).None? ==>
              var decision := Decision(old(t.orientation), old(w.player.x - t.x), old(w.player.y - t.y), d);
              moved.None? && t.x == old(t.x) && t.y == old(t.y) &&
              t.orientation == decision.0 && t.plan == Some(decision.1)
    ensures forall u :: u in w.Tanks() + {t} ==> u.health == old(u.health)
    ensures forall b :: b in w.bricks ==> b.isDead == old(b.isDead)
    ensures |w.bullets| >= |old(w.bullets)| && w.bullets[..|old(w.bullets)|] == old(w.bullets)
    ensures forall i :: |old(w.bullets)| <= i < |w.bullets| ==> fresh(w.bullets[i])
  {
    t.Update(dt);
    if t.controller == AIControlled {
      moved := AIUpdate(w, t, dt, d);
    } else {
      moved := None;
    }
  }
}
