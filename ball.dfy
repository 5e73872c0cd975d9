/** The ball controller of src/game/ball.rs: how contacts change a ball's
    velocity, how held balls follow their paddle, what happens when a ball falls
    out of the playfield, and how queued spawn requests become balls.

    `limit` stands for the source's "normalise, then scale to the magnitude
    clamped to [0, 12]" step, which needs a square root and is not modelled. */
module Ball {
  import opened Geometry
  import opened RunState
  import Transform
  import Brick
  import Paddle
  import Game

  const BallMaxLinearVelocity: real := 12.0
  const BallDefaultForce: real := 5.0

  /** Radius of a ball's collider, in pixels; the engine gets it in world units
      of 32 pixels. */
  const BallColliderRadius: real := 2.75
  const PixelsPerWorldUnit: real := 32.0

  /** Width of the paddle's hit box; a contact half of it from the centre counts
      as an edge hit. */
  const PaddleHitBoxWidth: real := 58.0

  datatype SpawnBallEvent = SpawnBallEvent(position: Vec2, linearVelocity: Vec2, owningPaddleEnt: Option<Entity>)

  datatype BallComponent = BallComponent(lastPos: Vec2, holdingPaddleEnt: Option<Entity>, velocity: Velocity)

  /** `BallComponent::new`: a ball that has not moved yet and does not spin. */
  function NewBall(linearVelocity: Vec2, holdingPaddleEnt: Option<Entity>): (b: BallComponent)
    ensures b.velocity == Velocity(linearVelocity, 0.0)
    ensures b.holdingPaddleEnt == holdingPaddleEnt && b.lastPos == Zero
  {
    BallComponent(Zero, holdingPaddleEnt, Velocity(linearVelocity, 0.0))
  }

  datatype BodyStatus = Dynamic | Static | Kinematic | Disabled

  /** The rigidbody component as this file builds and updates it. */
  datatype RigidbodyComponent = RigidbodyComponent(mass: real, velocity: Velocity, maxLinearVelocity: real, status: BodyStatus)

  // ---------------------------------------------------------------- vectors

  /** Snaps a contact normal (already pointing away from the hit surface) to an
      axis, chosen by the signs of its components against the 0.1 threshold and
      by which component is larger. */
  function Snap(n: Vec2): Vec2
  {
    if n.x > 0.1 && n.y > 0.1 then
      if n.x > n.y then Vec2(1.0, 0.0) else Vec2(0.0, 1.0)
    else if n.x > 0.1 && n.y < 0.1 then
      if n.x > Abs(n.y) then Vec2(1.0, 0.0) else Vec2(0.0, -1.0)
    else if n.x < 0.1 && n.y > 0.1 then
      if Abs(n.x) > n.y then Vec2(-1.0, 0.0) else Vec2(0.0, 1.0)
    else if n.x < 0.1 && n.y < 0.1 then
      if Abs(n.x) > Abs(n.y) then Vec2(-1.0, 0.0) else Vec2(0.0, -1.0)
    else n
  }

  /** Unless a component sits exactly on the 0.1 threshold, the snapped normal is
      an axis unit vector, along the component of larger size, pointing the way
      that component's side of the threshold says. */
  lemma SnapToAxis(n: Vec2)
    requires n.x != 0.1 && n.y != 0.1
    ensures IsAxisUnit(Snap(n))
    ensures Snap(n) == Vec2(1.0, 0.0) ==> n.x > 0.1 && n.x > Abs(n.y)
    ensures Snap(n) == Vec2(-1.0, 0.0) ==> n.x < 0.1 && Abs(n.x) > Abs(n.y)
    ensures Snap(n) == Vec2(0.0, 1.0) ==> n.y > 0.1 && Abs(n.x) <= n.y
    ensures Snap(n) == Vec2(0.0, -1.0) ==> n.y < 0.1 && Abs(n.x) <= Abs(n.y)
  {
  }

  /** A normal with a component exactly on the threshold is passed through
      unsnapped. */
  lemma SnapOnThreshold(n: Vec2)
    requires n.x == 0.1 || n.y == 0.1
    ensures Snap(n) == n
  {
  }

  /** The reflection of `v` about the normal `n`, sped up by 1%. */
  function Reflect(v: Vec2, n: Vec2): Vec2
  {
    Scale(1.01, Sub(v, Scale(2.0 * Dot(v, n), n)))
  }

  /** Reflecting about an axis normal flips exactly the velocity component along
      that axis before the 1% speed-up. */
  lemma ReflectAboutAxis(v: Vec2, n: Vec2)
    requires IsAxisUnit(n)
    ensures n.y == 0.0 ==> Reflect(v, n) == Scale(1.01, Vec2(-v.x, v.y))
    ensures n.x == 0.0 ==> Reflect(v, n) == Scale(1.01, Vec2(v.x, -v.y))
  {
  }

  /** The velocity a paddle hit gives before its magnitude is limited: sideways
      in proportion to how far from the paddle centre the contact was, measured in
      half hit-box widths (not clamped), and upward-flipped with damping. */
  function PaddleDeflect(vel: Vec2, hitX: real, paddleX: real): (r: Vec2)
    ensures r.y == (Abs(vel.x) * 0.25 + vel.y) * -0.97
    ensures hitX == paddleX ==> r.x == 0.0
    ensures hitX == paddleX + PaddleHitBoxWidth / 2.0 ==> r.x == BallDefaultForce
    ensures hitX == paddleX - PaddleHitBoxWidth / 2.0 ==> r.x == -BallDefaultForce
  {
    var hitXRatio := (hitX - paddleX) / (PaddleHitBoxWidth / 2.0);
    Vec2(hitXRatio * BallDefaultForce, (Abs(vel.x) * 0.25 + vel.y) * -0.97)
  }

  /** A ball coming down onto the paddle leaves it going up, and contacts
      further out than the hit box's edges push it sideways harder than an edge
      hit: nothing clamps the offset. */
  lemma PaddleSendsBallUp(vel: Vec2, hitX: real, paddleX: real)
    ensures vel.y >= 0.0 ==> PaddleDeflect(vel, hitX, paddleX).y <= 0.0
    ensures hitX > paddleX + PaddleHitBoxWidth / 2.0 ==> PaddleDeflect(vel, hitX, paddleX).x > BallDefaultForce
    ensures hitX < paddleX - PaddleHitBoxWidth / 2.0 ==> PaddleDeflect(vel, hitX, paddleX).x < -BallDefaultForce
  {
    var r := PaddleDeflect(vel, hitX, paddleX);
    assert r.x == (hitX - paddleX) / 29.0 * 5.0;
  }

  // ---------------------------------------------------------------- contacts

  /** The ball velocities and the balls that bounced off a brick this tick. */
  datatype Bounce = Bounce(balls: map<Entity, BallComponent>, bounced: set<Entity>)

  /** An event the contact pass acts on: both entities present, the first a ball. */
  predicate IsBallEvent(ev: Brick.CollisionEvent, balls: set<Entity>)
  {
    ev.entityA.Some? && ev.entityB.Some? && ev.entityA.value in balls
  }

  /** A paddle hit needs the paddle's transform, and, without a contact point, the
      ball's; the source unwraps both. */
  predicate HasPaddleTransforms(ev: Brick.CollisionEvent, balls: set<Entity>, paddles: set<Entity>,
                                transforms: map<Entity, Transform.TransformComponent>)
  {
    IsBallEvent(ev, balls) && ev.entityB.value in paddles ==>
      ev.entityB.value in transforms && (ev.collisionPoint.None? ==> ev.entityA.value in transforms)
  }

  /** An event that bounces its ball off a brick and marks it as bounced. */
  predicate IsBrickBounce(ev: Brick.CollisionEvent, balls: set<Entity>, paddles: set<Entity>, bricks: set<Entity>)
  {
    IsBallEvent(ev, balls) && ev.entityB.value !in paddles && ev.normal.Some? && ev.entityB.value in bricks
  }

  /** One contact event of `BallSystem::run`. A paddle hit deflects the ball by
      where it hit the paddle; any other hit with a normal reflects the ball about
      the snapped normal, except that a ball bounces off bricks at most once per
      tick. */
  function OnCollision(s: Bounce, ev: Brick.CollisionEvent, paddles: set<Entity>, bricks: set<Entity>,
                       transforms: map<Entity, Transform.TransformComponent>, limit: Vec2 -> Vec2): (r: Bounce)
    requires HasPaddleTransforms(ev, s.balls.Keys, paddles, transforms)
    ensures r.balls.Keys == s.balls.Keys
    ensures forall e :: e in s.balls ==>
      r.balls[e].lastPos == s.balls[e].lastPos && r.balls[e].holdingPaddleEnt == s.balls[e].holdingPaddleEnt
    ensures forall e :: e in s.balls && ev.entityA != Some(e) ==> r.balls[e] == s.balls[e]
    ensures !IsBallEvent(ev, s.balls.Keys) ==> r == s
    ensures IsBallEvent(ev, s.balls.Keys) && ev.entityB.value !in paddles && ev.normal.None? ==> r == s
    ensures IsBallEvent(ev, s.balls.Keys) && ev.entityB.value in paddles ==>
      && r.bounced == s.bounced
      && r.balls[ev.entityA.value].velocity == Velocity(limit(PaddleDeflect(
           s.balls[ev.entityA.value].velocity.linear,
           if ev.collisionPoint.Some? then ev.collisionPoint.value.x else transforms[ev.entityA.value].position.x,
           transforms[ev.entityB.value].position.x)), 0.0)
    ensures IsBallEvent(ev, s.balls.Keys) && ev.entityB.value !in paddles && ev.normal.Some?
            && !(ev.entityB.value in bricks && ev.entityA.value in s.bounced) ==>
      r.balls[ev.entityA.value].velocity == Velocity(
        limit(Reflect(s.balls[ev.entityA.value].velocity.linear, Snap(Neg(ev.normal.value)))),
        s.balls[ev.entityA.value].velocity.angular)
    ensures r.bounced == if IsBrickBounce(ev, s.balls.Keys, paddles, bricks) then s.bounced + {ev.entityA.value} else s.bounced
    ensures IsBrickBounce(ev, s.balls.Keys, paddles, bricks) && ev.entityA.value in s.bounced ==> r == s
  {
    if ev.entityA.None? || ev.entityB.None? then s
    else
      var a, b := ev.entityA.value, ev.entityB.value;
      if a !in s.balls then s
      else if b in paddles then
        var hitX := if ev.collisionPoint.Some? then ev.collisionPoint.value.x else transforms[a].position.x;
        var vel := limit(PaddleDeflect(s.balls[a].velocity.linear, hitX, transforms[b].position.x));
        s.(balls := s.balls[a := s.balls[a].(velocity := Velocity(vel, 0.0))])
      else if ev.normal.None? then s
      else
        var normal := Snap(Neg(ev.normal.value));
        if b in bricks && a in s.bounced then s
        else
          var v := s.balls[a].velocity;
          var reflected := limit(Reflect(v.linear, normal));
          Bounce(s.balls[a := s.balls[a].(velocity := Velocity(reflected, v.angular))],
                 if b in bricks then s.bounced + {a} else s.bounced)
  }

  /** A contact against a wall or a brick, with a normal off the 0.1 threshold,
      flips exactly one component of the ball's velocity before the 1% speed-up
      and the limit: the horizontal one when the surface faces sideways, the
      vertical one when it faces up or down. */
  lemma ContactFlipsOneComponent(s: Bounce, ev: Brick.CollisionEvent, paddles: set<Entity>, bricks: set<Entity>,
                                 transforms: map<Entity, Transform.TransformComponent>, limit: Vec2 -> Vec2)
    requires HasPaddleTransforms(ev, s.balls.Keys, paddles, transforms)
    requires IsBallEvent(ev, s.balls.Keys) && ev.entityB.value !in paddles && ev.normal.Some?
    requires !(ev.entityB.value in bricks && ev.entityA.value in s.bounced)
    requires -ev.normal.value.x != 0.1 && -ev.normal.value.y != 0.1
    ensures var v := s.balls[ev.entityA.value].velocity.linear;
      var v' := OnCollision(s, ev, paddles, bricks, transforms, limit).balls[ev.entityA.value].velocity.linear;
      || (Snap(Neg(ev.normal.value)).y == 0.0 && v' == limit(Scale(1.01, Vec2(-v.x, v.y))))
      || (Snap(Neg(ev.normal.value)).x == 0.0 && v' == limit(Scale(1.01, Vec2(v.x, -v.y))))
  {
    var n := Snap(Neg(ev.normal.value));
    SnapToAxis(Neg(ev.normal.value));
    ReflectAboutAxis(s.balls[ev.entityA.value].velocity.linear, n);
  }

  predicate AllHavePaddleTransforms(events: seq<Brick.CollisionEvent>, balls: set<Entity>, paddles: set<Entity>,
                                    transforms: map<Entity, Transform.TransformComponent>)
  {
    forall i :: 0 <= i < |events| ==> HasPaddleTransforms(events[i], balls, paddles, transforms)
  }

  /** The contact pass over a tick's events, in order. */
  function Bounces(s: Bounce, events: seq<Brick.CollisionEvent>, paddles: set<Entity>, bricks: set<Entity>,
                   transforms: map<Entity, Transform.TransformComponent>, limit: Vec2 -> Vec2): (r: Bounce)
    requires AllHavePaddleTransforms(events, s.balls.Keys, paddles, transforms)
    ensures r.balls.Keys == s.balls.Keys
    decreases |events|
  {
    if events == [] then s
    else
      var n := |events| - 1;
      var before := Bounces(s, events[..n], paddles, bricks, transforms, limit);
      OnCollision(before, events[n], paddles, bricks, transforms, limit)
  }

  /** Some event of `events` bounces ball `e` off a brick. */
  predicate BrickBouncedBy(events: seq<Brick.CollisionEvent>, balls: set<Entity>, paddles: set<Entity>,
                           bricks: set<Entity>, e: Entity)
  {
    exists i :: 0 <= i < |events| && IsBrickBounce(events[i], balls, paddles, bricks) && events[i].entityA.value == e
  }

  lemma BrickBouncedByStep(events: seq<Brick.CollisionEvent>, balls: set<Entity>, paddles: set<Entity>,
                           bricks: set<Entity>, e: Entity)
    requires events != []
    ensures BrickBouncedBy(events, balls, paddles, bricks, e) <==>
      || BrickBouncedBy(events[..|events| - 1], balls, paddles, bricks, e)
      || (IsBrickBounce(events[|events| - 1], balls, paddles, bricks) && events[|events| - 1].entityA.value == e)
  {
    var n := |events| - 1;
    var prefix := events[..n];
    if BrickBouncedBy(prefix, balls, paddles, bricks, e) {
      var i :| 0 <= i < |prefix| && IsBrickBounce(prefix[i], balls, paddles, bricks) && prefix[i].entityA.value == e;
      assert events[i] == prefix[i];
    }
    if BrickBouncedBy(events, balls, paddles, bricks, e) {
      var i :| 0 <= i < |events| && IsBrickBounce(events[i], balls, paddles, bricks) && events[i].entityA.value == e;
      if i < n {
        assert prefix[i] == events[i];
      }
    }
  }

  lemma PaddleTransformsPrefix(events: seq<Brick.CollisionEvent>, n: nat, balls: set<Entity>, paddles: set<Entity>,
                               transforms: map<Entity, Transform.TransformComponent>)
    requires n <= |events| && AllHavePaddleTransforms(events, balls, paddles, transforms)
    ensures AllHavePaddleTransforms(events[..n], balls, paddles, transforms)
  {
    forall i | 0 <= i < n ensures HasPaddleTransforms(events[..n][i], balls, paddles, transforms) {
      assert events[..n][i] == events[i];
    }
  }

  /** After the contact pass, a ball is marked as bounced exactly when it was
      marked before or some event bounced it off a brick; paddle and wall hits
      never mark it. */
  lemma {:induction false} BouncedIff(s: Bounce, events: seq<Brick.CollisionEvent>, paddles: set<Entity>, bricks: set<Entity>,
                                     transforms: map<Entity, Transform.TransformComponent>, limit: Vec2 -> Vec2, e: Entity)
    requires AllHavePaddleTransforms(events, s.balls.Keys, paddles, transforms)
    ensures e in Bounces(s, events, paddles, bricks, transforms, limit).bounced <==>
      e in s.bounced || BrickBouncedBy(events, s.balls.Keys, paddles, bricks, e)
  {
    if events != [] {
      var n := |events| - 1;
      PaddleTransformsPrefix(events, n, s.balls.Keys, paddles, transforms);
      BouncedIff(s, events[..n], paddles, bricks, transforms, limit, e);
      BrickBouncedByStep(events, s.balls.Keys, paddles, bricks, e);
    }
  }

  /** The body of the contact loop of `BallSystem::run`, for one event. */
  method OnCollisionStep(balls: map<Entity, BallComponent>, bounced: set<Entity>, event: Brick.CollisionEvent,
                         paddles: set<Entity>, bricks: set<Entity>,
                         transforms: map<Entity, Transform.TransformComponent>, limit: Vec2 -> Vec2)
    returns (balls': map<Entity, BallComponent>, bounced': set<Entity>)
    requires HasPaddleTransforms(event, balls.Keys, paddles, transforms)
    ensures Bounce(balls', bounced') == OnCollision(Bounce(balls, bounced), event, paddles, bricks, transforms, limit)
  {
    balls', bounced' := balls, bounced;
    if event.entityA.None? || event.entityB.None? {
      return;
    }
    var entityA, entityB := event.entityA.value, event.entityB.value;
    if entityA !in balls {
      return;
    }
    var ball := balls[entityA];
    if entityB in paddles {
      var paddleTransform := transforms[entityB];
      var hitX := if event.collisionPoint.Some? then event.collisionPoint.value.x else transforms[entityA].position.x;
      var vel := limit(PaddleDeflect(ball.velocity.linear, hitX, paddleTransform.position.x));
      balls' := balls[entityA := ball.(velocity := Velocity(vel, 0.0))];
      return;
    }
    if event.normal.Some? {
      var normal := Snap(Neg(event.normal.value));
      var entBIsBrick := entityB in bricks;
      if entBIsBrick {
        if entityA in bounced {
          return;
        }
        bounced' := bounced + {entityA};
      }
      var vel := ball.velocity;
      var reflectedVel := limit(Reflect(vel.linear, normal));
      balls' := balls[entityA := ball.(velocity := Velocity(reflectedVel, vel.angular))];
    }
  }

  /** The contact loop of `BallSystem::run`, with the bounce set starting empty. */
  method ApplyCollisions(events: seq<Brick.CollisionEvent>, balls: map<Entity, BallComponent>, paddles: set<Entity>,
                         bricks: set<Entity>, transforms: map<Entity, Transform.TransformComponent>, limit: Vec2 -> Vec2)
    returns (balls': map<Entity, BallComponent>, ballsBouncedThisTick: set<Entity>)
    requires AllHavePaddleTransforms(events, balls.Keys, paddles, transforms)
    ensures Bounce(balls', ballsBouncedThisTick) == Bounces(Bounce(balls, {}), events, paddles, bricks, transforms, limit)
  {
    balls', ballsBouncedThisTick := balls, {};
    var i := 0;
    while i < |events|
      invariant 0 <= i <= |events|
      invariant AllHavePaddleTransforms(events[..i], balls.Keys, paddles, transforms)
      invariant Bounce(balls', ballsBouncedThisTick) == Bounces(Bounce(balls, {}), events[..i], paddles, bricks, transforms, limit)
    {
      assert events[..i + 1][..i] == events[..i];
      balls', ballsBouncedThisTick := OnCollisionStep(balls', ballsBouncedThisTick, events[i], paddles, bricks, transforms, limit);
      i := i + 1;
    }
    assert events[..i] == events;
  }

  // ---------------------------------------------------------------- ball loop

  /** How many respawns `lost` successive ball losses trigger, starting from
      `lives`: one for each loss after which the lives left are not zero. */
  function Respawns(lives: int, lost: nat): nat
  {
    if lost == 0 then 0
    else Respawns(lives, lost - 1) + (if lives - lost != 0 then 1 else 0)
  }

  /** Every loss triggers a respawn except the one that brings the lives to
      exactly zero. */
  lemma {:induction false} RespawnsCount(lives: int, lost: nat)
    ensures Respawns(lives, lost) == if 1 <= lives <= lost then lost - 1 else lost
  {
    if lost > 0 {
      RespawnsCount(lives, lost - 1);
    }
  }

  /** Every request in `events` asks for a new ball on the paddle `owner`, with no
      position or velocity of its own. */
  predicate AllRespawnsOn(events: seq<SpawnBallEvent>, owner: Option<Entity>)
  {
    forall k :: 0 <= k < |events| ==> events[k] == SpawnBallEvent(Zero, Zero, owner)
  }

  /** Whether a free ball has fallen below the bottom of the playfield. */
  predicate IsLost(t: Transform.TransformComponent, levelHeight: nat)
  {
    t.position.y > levelHeight as real - 5.0
  }

  /** The balls of the join that are free and have fallen out. */
  function LostBalls(join: set<Entity>, transforms: map<Entity, Transform.TransformComponent>,
                     balls: map<Entity, BallComponent>, levelHeight: nat): set<Entity>
    requires join <= transforms.Keys && join <= balls.Keys
  {
    set e | e in join && balls[e].holdingPaddleEnt.None? && IsLost(transforms[e], levelHeight)
  }

  lemma LostStep(done: set<Entity>, ent: Entity, transforms: map<Entity, Transform.TransformComponent>,
                 balls: map<Entity, BallComponent>, levelHeight: nat)
    requires done + {ent} <= transforms.Keys && done + {ent} <= balls.Keys && ent !in done
    ensures ent !in LostBalls(done, transforms, balls, levelHeight)
    ensures LostBalls(done + {ent}, transforms, balls, levelHeight) ==
      LostBalls(done, transforms, balls, levelHeight) +
      (if balls[ent].holdingPaddleEnt.None? && IsLost(transforms[ent], levelHeight) then {ent} else {})
    ensures |LostBalls(done + {ent}, transforms, balls, levelHeight)| ==
      |LostBalls(done, transforms, balls, levelHeight)| +
      (if balls[ent].holdingPaddleEnt.None? && IsLost(transforms[ent], levelHeight) then 1 else 0)
  {
  }

  /** A held ball needs its paddle; the source unwraps it. */
  predicate HoldersExist(join: set<Entity>, balls: map<Entity, BallComponent>, paddles: map<Entity, Paddle.PlayerPaddleComponent>)
    requires join <= balls.Keys
  {
    forall e :: e in join && balls[e].holdingPaddleEnt.Some? ==> balls[e].holdingPaddleEnt.value in paddles
  }

  /** A ball's transform after the per-ball loop: pinned to the held position of
      the paddle holding it, if any. */
  function PinnedTransform(t: Transform.TransformComponent, b: BallComponent,
                           paddles: map<Entity, Paddle.PlayerPaddleComponent>): (r: Transform.TransformComponent)
    requires b.holdingPaddleEnt.Some? ==> b.holdingPaddleEnt.value in paddles
    ensures b.holdingPaddleEnt.None? ==> r == t
    ensures b.holdingPaddleEnt.Some? ==>
      r.position == Paddle.HeldBallPosition(paddles[b.holdingPaddleEnt.value])
    ensures r.lastPosition == t.lastPosition && r.origin == t.origin && r.scale == t.scale
  {
    match b.holdingPaddleEnt
    case Some(p) => t.(position := Paddle.HeldBallPosition(paddles[p]))
    case None => t
  }

  /** A ball's body after the per-ball loop: disabled while held; otherwise
      dynamic and moving at the ball's own velocity, whatever the engine did. */
  function DrivenBody(r: RigidbodyComponent, b: BallComponent): (r': RigidbodyComponent)
    ensures b.holdingPaddleEnt.Some? ==> r'.status == Disabled && r'.velocity == r.velocity
    ensures b.holdingPaddleEnt.None? ==> r'.status == Dynamic && r'.velocity == b.velocity
    ensures r'.mass == r.mass && r'.maxLinearVelocity == r.maxLinearVelocity
  {
    if b.holdingPaddleEnt.Some? then r.(status := Disabled)
    else r.(status := Dynamic, velocity := b.velocity)
  }

  /** The body of the per-ball loop of `BallSystem::run`, for one ball, given the
      lives left: the ball's new transform and body, whether it was lost, the lives
      left after it, and the spawn request it queues. */
  method UpdateBall(levelHeight: nat, lives: int, playerPaddleEnt: Option<Entity>,
                    transform: Transform.TransformComponent, rigidbody: RigidbodyComponent,
                    ball: BallComponent, paddles: map<Entity, Paddle.PlayerPaddleComponent>)
    returns (transform': Transform.TransformComponent, rigidbody': RigidbodyComponent,
             lost: bool, lives': int, spawn: seq<SpawnBallEvent>)
    requires ball.holdingPaddleEnt.Some? ==> ball.holdingPaddleEnt.value in paddles
    ensures transform' == PinnedTransform(transform, ball, paddles)
    ensures rigidbody' == DrivenBody(rigidbody, ball)
    ensures lost <==> ball.holdingPaddleEnt.None? && IsLost(transform, levelHeight)
    ensures lives' == if lost then lives - 1 else lives
    ensures spawn == if lost && lives' != 0 then [SpawnBallEvent(Zero, Zero, playerPaddleEnt)] else []
  {
    transform', rigidbody', lost, lives', spawn := transform, rigidbody, false, lives, [];
    if ball.holdingPaddleEnt.Some? {
      var paddle := paddles[ball.holdingPaddleEnt.value];
      transform' := transform.(position := Paddle.HeldBallPosition(paddle));
      rigidbody' := rigidbody.(status := Disabled);
      return;
    }
    rigidbody' := rigidbody'.(status := Dynamic);
    rigidbody' := rigidbody'.(velocity := ball.velocity);
    if transform.position.y > levelHeight as real - 5.0 {
      lost := true;
      lives' := lives - 1;
      if lives' != 0 {
        spawn := [SpawnBallEvent(Zero, Zero, playerPaddleEnt)];
      }
    }
  }

  /** The transforms once the balls of `done` have been visited. */
  predicate PinnedUpTo(transforms': map<Entity, Transform.TransformComponent>, transforms: map<Entity, Transform.TransformComponent>,
                       balls: map<Entity, BallComponent>, paddles: map<Entity, Paddle.PlayerPaddleComponent>, done: set<Entity>)
    requires done <= balls.Keys && HoldersExist(done, balls, paddles)
  {
    && transforms'.Keys == transforms.Keys
    && forall e :: e in transforms ==>
         transforms'[e] == if e in done then PinnedTransform(transforms[e], balls[e], paddles) else transforms[e]
  }

  /** The bodies once the balls of `done` have been visited. */
  predicate DrivenUpTo(rigidbodies': map<Entity, RigidbodyComponent>, rigidbodies: map<Entity, RigidbodyComponent>,
                       balls: map<Entity, BallComponent>, done: set<Entity>)
    requires done <= balls.Keys
  {
    && rigidbodies'.Keys == rigidbodies.Keys
    && forall e :: e in rigidbodies ==>
         rigidbodies'[e] == if e in done then DrivenBody(rigidbodies[e], balls[e]) else rigidbodies[e]
  }

  lemma VisitStep(transforms': map<Entity, Transform.TransformComponent>, transforms: map<Entity, Transform.TransformComponent>,
                  rigidbodies': map<Entity, RigidbodyComponent>, rigidbodies: map<Entity, RigidbodyComponent>,
                  balls: map<Entity, BallComponent>, paddles: map<Entity, Paddle.PlayerPaddleComponent>,
                  done: set<Entity>, ent: Entity)
    requires done + {ent} <= balls.Keys && HoldersExist(done + {ent}, balls, paddles)
    requires ent in transforms && ent in rigidbodies && ent !in done
    requires PinnedUpTo(transforms', transforms, balls, paddles, done)
    requires DrivenUpTo(rigidbodies', rigidbodies, balls, done)
    ensures transforms'[ent] == transforms[ent] && rigidbodies'[ent] == rigidbodies[ent]
    ensures PinnedUpTo(transforms'[ent := PinnedTransform(transforms'[ent], balls[ent], paddles)], transforms, balls, paddles, done + {ent})
    ensures DrivenUpTo(rigidbodies'[ent := DrivenBody(rigidbodies'[ent], balls[ent])], rigidbodies, balls, done + {ent})
  {
  }

  /** The tallies of the per-ball loop once the balls of `done` are visited,
      starting from `lives` lives: the lost balls, the lives left and the spawn
      requests queued. */
  predicate Tallied(done: set<Entity>, levelHeight: nat, lives: int, playerPaddleEnt: Option<Entity>,
                    transforms: map<Entity, Transform.TransformComponent>, balls: map<Entity, BallComponent>,
                    deleted: set<Entity>, lives': int, spawnBallEvents: seq<SpawnBallEvent>)
  {
    && done <= transforms.Keys && done <= balls.Keys
    && deleted == LostBalls(done, transforms, balls, levelHeight)
    && lives' == lives - |deleted|
    && |spawnBallEvents| == Respawns(lives, |deleted|)
    && AllRespawnsOn(spawnBallEvents, playerPaddleEnt)
  }

  lemma TallyStep(done: set<Entity>, ent: Entity, levelHeight: nat, lives: int, playerPaddleEnt: Option<Entity>,
                  transforms: map<Entity, Transform.TransformComponent>, balls: map<Entity, BallComponent>,
                  deleted: set<Entity>, lives': int, spawnBallEvents: seq<SpawnBallEvent>,
                  lost: bool, lives'': int, spawn: seq<SpawnBallEvent>)
    requires ent in transforms && ent in balls && ent !in done
    requires Tallied(done, levelHeight, lives, playerPaddleEnt, transforms, balls, deleted, lives', spawnBallEvents)
    requires lost <==> balls[ent].holdingPaddleEnt.None? && IsLost(transforms[ent], levelHeight)
    requires lives'' == if lost then lives' - 1 else lives'
    requires spawn == if lost && lives'' != 0 then [SpawnBallEvent(Zero, Zero, playerPaddleEnt)] else []
    ensures Tallied(done + {ent}, levelHeight, lives, playerPaddleEnt, transforms, balls,
                    if lost then deleted + {ent} else deleted, lives'', spawnBallEvents + spawn)
  {
    LostStep(done, ent, transforms, balls, levelHeight);
  }

  /** What the per-ball loop has produced once the balls of `done` are visited. */
  predicate Visited(done: set<Entity>, levelHeight: nat, lives: int, playerPaddleEnt: Option<Entity>,
                    transforms: map<Entity, Transform.TransformComponent>,
                    rigidbodies: map<Entity, RigidbodyComponent>,
                    balls: map<Entity, BallComponent>,
                    paddles: map<Entity, Paddle.PlayerPaddleComponent>,
                    transforms': map<Entity, Transform.TransformComponent>,
                    rigidbodies': map<Entity, RigidbodyComponent>,
                    deleted: set<Entity>, lives': int, spawnBallEvents: seq<SpawnBallEvent>)
  {
    && done <= transforms.Keys && done <= balls.Keys && HoldersExist(done, balls, paddles)
    && PinnedUpTo(transforms', transforms, balls, paddles, done)
    && DrivenUpTo(rigidbodies', rigidbodies, balls, done)
    && Tallied(done, levelHeight, lives, playerPaddleEnt, transforms, balls, deleted, lives', spawnBallEvents)
  }

  /** One turn of the per-ball loop: visiting `ent` extends what was produced for
      `done` to `done + {ent}`. */
  method VisitBall(done: set<Entity>, ent: Entity, levelHeight: nat, lives: int, playerPaddleEnt: Option<Entity>,
                   transforms: map<Entity, Transform.TransformComponent>,
                   rigidbodies: map<Entity, RigidbodyComponent>,
                   balls: map<Entity, BallComponent>,
                   paddles: map<Entity, Paddle.PlayerPaddleComponent>,
                   transforms': map<Entity, Transform.TransformComponent>,
                   rigidbodies': map<Entity, RigidbodyComponent>,
                   deleted: set<Entity>, lives': int, spawnBallEvents: seq<SpawnBallEvent>)
    returns (transforms'': map<Entity, Transform.TransformComponent>,
             rigidbodies'': map<Entity, RigidbodyComponent>,
             deleted': set<Entity>, lives'': int, spawnBallEvents': seq<SpawnBallEvent>)
    requires ent in transforms && ent in rigidbodies && ent in balls && ent !in done
    requires Visited(done, levelHeight, lives, playerPaddleEnt, transforms, rigidbodies, balls, paddles,
                     transforms', rigidbodies', deleted, lives', spawnBallEvents)
    requires HoldersExist(done + {ent}, balls, paddles)
    ensures Visited(done + {ent}, levelHeight, lives, playerPaddleEnt, transforms, rigidbodies, balls, paddles,
                    transforms'', rigidbodies'', deleted', lives'', spawnBallEvents')
  {
    VisitStep(transforms', transforms, rigidbodies', rigidbodies, balls, paddles, done, ent);
    var transform, rigidbody, lost, spawn;
    transform, rigidbody, lost, lives'', spawn :=
      UpdateBall(levelHeight, lives', playerPaddleEnt, transforms'[ent], rigidbodies'[ent], balls[ent], paddles);
    TallyStep(done, ent, levelHeight, lives, playerPaddleEnt, transforms, balls, deleted, lives', spawnBallEvents,
              lost, lives'', spawn);
    transforms'' := transforms'[ent := transform];
    rigidbodies'' := rigidbodies'[ent := rigidbody];
    deleted' := if lost then deleted + {ent} else deleted;
    spawnBallEvents' := spawnBallEvents + spawn;
  }

  /** The per-ball loop of `BallSystem::run` over the balls of `join`, starting
      with `lives` lives left. */
  method VisitBalls(join: set<Entity>, levelHeight: nat, lives: int, playerPaddleEnt: Option<Entity>,
                    transforms: map<Entity, Transform.TransformComponent>,
                    rigidbodies: map<Entity, RigidbodyComponent>,
                    balls: map<Entity, BallComponent>,
                    paddles: map<Entity, Paddle.PlayerPaddleComponent>)
    returns (transforms': map<Entity, Transform.TransformComponent>,
             rigidbodies': map<Entity, RigidbodyComponent>,
             deleted: set<Entity>, lives': int, spawnBallEvents: seq<SpawnBallEvent>)
    requires join <= transforms.Keys && join <= rigidbodies.Keys && join <= balls.Keys
    requires HoldersExist(join, balls, paddles)
    ensures PinnedUpTo(transforms', transforms, balls, paddles, join)
    ensures DrivenUpTo(rigidbodies', rigidbodies, balls, join)
    ensures deleted == LostBalls(join, transforms, balls, levelHeight)
    ensures lives' == lives - |deleted|
    ensures |spawnBallEvents| == Respawns(lives, |deleted|)
    ensures AllRespawnsOn(spawnBallEvents, playerPaddleEnt)
  {
    transforms', rigidbodies', lives' := transforms, rigidbodies, lives;
    deleted, spawnBallEvents := {}, [];
    var todo := join;
    while todo != {}
      invariant todo <= join && join - todo <= join
      invariant Visited(join - todo, levelHeight, lives, playerPaddleEnt, transforms, rigidbodies, balls, paddles,
                        transforms', rigidbodies', deleted, lives', spawnBallEvents)
      decreases todo
    {
      var ent :| ent in todo;
      transforms', rigidbodies', deleted, lives', spawnBallEvents :=
        VisitBall(join - todo, ent, levelHeight, lives, playerPaddleEnt, transforms, rigidbodies, balls, paddles,
                  transforms', rigidbodies', deleted, lives', spawnBallEvents);
      VisitOne(join, todo, ent);
      todo := todo - {ent};
    }
    assert join - todo == join;
  }

  /** `BallSystem::run`'s per-ball loop over the live entities with a transform,
      a rigidbody and a ball. A held ball is pinned to its paddle's held position
      and its body disabled. A free ball's body is made dynamic and given the
      ball's velocity; if it has fallen out it is deleted and a life is lost, and
      while lives remain a new ball is requested on the player's paddle. */
  method UpdateBalls(level: LevelState, alive: set<Entity>,
                     transforms: map<Entity, Transform.TransformComponent>,
                     rigidbodies: map<Entity, RigidbodyComponent>,
                     balls: map<Entity, BallComponent>,
                     paddles: map<Entity, Paddle.PlayerPaddleComponent>)
    returns (transforms': map<Entity, Transform.TransformComponent>,
             rigidbodies': map<Entity, RigidbodyComponent>,
             deleted: set<Entity>, spawnBallEvents: seq<SpawnBallEvent>)
    requires HoldersExist(alive * transforms.Keys * rigidbodies.Keys * balls.Keys, balls, paddles)
    modifies level
    ensures var join := alive * transforms.Keys * rigidbodies.Keys * balls.Keys;
      && PinnedUpTo(transforms', transforms, balls, paddles, join)
      && DrivenUpTo(rigidbodies', rigidbodies, balls, join)
      && deleted == LostBalls(join, transforms, balls, level.levelHeight)
    ensures level.lives == old(level.lives) - |deleted|
    ensures |spawnBallEvents| == Respawns(old(level.lives), |deleted|)
    ensures AllRespawnsOn(spawnBallEvents, level.playerPaddleEnt)
    ensures level.level == old(level.level) && level.score == old(level.score)
    ensures level.playerPaddleEnt == old(level.playerPaddleEnt) && level.loadLevelEvent == old(level.loadLevelEvent)
    ensures level.levelWidth == old(level.levelWidth) && level.levelHeight == old(level.levelHeight)
  {
    var join := alive * transforms.Keys * rigidbodies.Keys * balls.Keys;
    var lives;
    transforms', rigidbodies', deleted, lives, spawnBallEvents :=
      VisitBalls(join, level.levelHeight, level.lives, level.playerPaddleEnt, transforms, rigidbodies, balls, paddles);
    level.lives := lives;
  }

  /** `BallSystem::run`: the contact pass, then the per-ball loop on the updated
      ball components. */
  method BallSystemRun(level: LevelState, alive: set<Entity>, events: seq<Brick.CollisionEvent>,
                       transforms: map<Entity, Transform.TransformComponent>,
                       rigidbodies: map<Entity, RigidbodyComponent>,
                       balls: map<Entity, BallComponent>, bricks: set<Entity>,
                       paddles: map<Entity, Paddle.PlayerPaddleComponent>, limit: Vec2 -> Vec2)
    returns (transforms': map<Entity, Transform.TransformComponent>,
             rigidbodies': map<Entity, RigidbodyComponent>,
             balls': map<Entity, BallComponent>,
             deleted: set<Entity>, spawnBallEvents: seq<SpawnBallEvent>)
    requires AllHavePaddleTransforms(events, balls.Keys, paddles.Keys, transforms)
    requires HoldersExist(alive * transforms.Keys * rigidbodies.Keys * balls.Keys, balls, paddles)
    modifies level
    ensures Bounces(Bounce(balls, {}), events, paddles.Keys, bricks, transforms, limit).balls == balls'
    ensures balls'.Keys == balls.Keys && rigidbodies'.Keys == rigidbodies.Keys
    ensures forall e :: e in balls ==> balls'[e].holdingPaddleEnt == balls[e].holdingPaddleEnt
    ensures var join := alive * transforms.Keys * rigidbodies.Keys * balls.Keys;
      && PinnedUpTo(transforms', transforms, balls', paddles, join)
      && (forall e :: e in join ==> rigidbodies'[e] == DrivenBody(rigidbodies[e], balls'[e]))
      && (forall e :: e in rigidbodies && e !in join ==> rigidbodies'[e] == rigidbodies[e])
      && deleted == LostBalls(join, transforms, balls, level.levelHeight)
    ensures level.lives == old(level.lives) - |deleted|
    ensures |spawnBallEvents| == Respawns(old(level.lives), |deleted|)
    ensures AllRespawnsOn(spawnBallEvents, level.playerPaddleEnt)
    ensures level.level == old(level.level) && level.score == old(level.score)
    ensures level.playerPaddleEnt == old(level.playerPaddleEnt) && level.loadLevelEvent == old(level.loadLevelEvent)
    ensures level.levelWidth == old(level.levelWidth) && level.levelHeight == old(level.levelHeight)
  {
    var bounced;
    balls', bounced := ApplyCollisions(events, balls, paddles.Keys, bricks, transforms, limit);
    ghost var join := alive * transforms.Keys * rigidbodies.Keys * balls.Keys;
    BallsKeepHolders(Bounce(balls, {}), events, paddles.Keys, bricks, transforms, limit);
    assert LostBalls(join, transforms, balls', level.levelHeight) == LostBalls(join, transforms, balls, level.levelHeight);
    transforms', rigidbodies', deleted, spawnBallEvents := UpdateBalls(level, alive, transforms, rigidbodies, balls', paddles);
  }

  /** The contact pass only ever changes velocities. */
  lemma {:induction false} BallsKeepHolders(s: Bounce, events: seq<Brick.CollisionEvent>, paddles: set<Entity>, bricks: set<Entity>,
                                           transforms: map<Entity, Transform.TransformComponent>, limit: Vec2 -> Vec2)
    requires AllHavePaddleTransforms(events, s.balls.Keys, paddles, transforms)
    ensures forall e :: e in s.balls ==>
      && Bounces(s, events, paddles, bricks, transforms, limit).balls[e].holdingPaddleEnt == s.balls[e].holdingPaddleEnt
      && Bounces(s, events, paddles, bricks, transforms, limit).balls[e].lastPos == s.balls[e].lastPos
  {
    if events != [] {
      var n := |events| - 1;
      PaddleTransformsPrefix(events, n, s.balls.Keys, paddles, transforms);
      BallsKeepHolders(s, events[..n], paddles, bricks, transforms, limit);
    }
  }

  // ---------------------------------------------------------------- spawning

  /** The components one spawn request gives its new entity. */
  datatype SpawnedBall = SpawnedBall(
    entity: Entity,
    transform: Transform.TransformComponent,
    ball: BallComponent,
    rigidbody: RigidbodyComponent,
    collider: Game.BallCollider)

  /** Where a requested ball appears: on its owning paddle's held position when it
      has one, at the requested position otherwise. */
  function SpawnPosition(ev: SpawnBallEvent, paddles: map<Entity, Paddle.PlayerPaddleComponent>): (p: Vec2)
    requires ev.owningPaddleEnt.Some? ==> ev.owningPaddleEnt.value in paddles
    ensures ev.owningPaddleEnt.None? ==> p == ev.position
    ensures ev.owningPaddleEnt.Some? ==> p == Paddle.HeldBallPosition(paddles[ev.owningPaddleEnt.value])
  {
    match ev.owningPaddleEnt
    case Some(paddleEnt) => Paddle.HeldBallPosition(paddles[paddleEnt])
    case None => ev.position
  }

  /** The components for one request: a transform at rest at the spawn position, a
      ball held by the owning paddle if there is one, a dynamic body of mass 1
      moving at the requested velocity, and a ball collider of 2.75 pixels'
      radius that other balls pass through. */
  function SpawnedFrom(ev: SpawnBallEvent, ent: Entity, spawnPos: Vec2): (s: SpawnedBall)
    ensures s.entity == ent
    ensures s.transform.position == spawnPos && s.transform.lastPosition == spawnPos
    ensures s.ball.holdingPaddleEnt == ev.owningPaddleEnt
    ensures s.ball.velocity.linear == s.rigidbody.velocity.linear == ev.linearVelocity
    ensures s.rigidbody.status == Dynamic && s.rigidbody.maxLinearVelocity == BallMaxLinearVelocity
    ensures s.rigidbody.mass == 1.0
    ensures s.collider == Game.BallColliderOf(BallColliderRadius / PixelsPerWorldUnit)
  {
    SpawnedBall(
      ent,
      Transform.TransformComponent(spawnPos, spawnPos, Zero, Vec2(1.0, 1.0)),
      NewBall(ev.linearVelocity, ev.owningPaddleEnt),
      RigidbodyComponent(1.0, Velocity(ev.linearVelocity, 0.0), BallMaxLinearVelocity, Dynamic),
      Game.BallColliderOf(BallColliderRadius / PixelsPerWorldUnit))
  }

  /** The index of the last of `events` owned by paddle `p`, or -1. */
  function LastOwned(events: seq<SpawnBallEvent>, p: Entity): (r: int)
    ensures -1 <= r < |events|
  {
    if events == [] then -1
    else if events[|events| - 1].owningPaddleEnt == Some(p) then |events| - 1
    else LastOwned(events[..|events| - 1], p)
  }

  /** `LastOwned` finds the last request naming the paddle: that one names it and
      no later one does. */
  lemma {:induction false} LastOwnedIsLast(events: seq<SpawnBallEvent>, p: Entity)
    ensures var r := LastOwned(events, p);
      && (r >= 0 ==> events[r].owningPaddleEnt == Some(p))
      && (forall j :: r < j < |events| ==> events[j].owningPaddleEnt != Some(p))
  {
    if events != [] && events[|events| - 1].owningPaddleEnt != Some(p) {
      var n := |events| - 1;
      LastOwnedIsLast(events[..n], p);
      var r := LastOwned(events, p);
      assert r == LastOwned(events[..n], p);
      if r >= 0 {
        assert events[r] == events[..n][r];
      }
      forall j | r < j < |events|
        ensures events[j].owningPaddleEnt != Some(p)
      {
        if j < n {
          assert events[j] == events[..n][j];
        }
      }
    }
  }

  lemma LastOwnedStep(events: seq<SpawnBallEvent>, i: nat, p: Entity)
    requires i < |events|
    ensures LastOwned(events[..i + 1], p) ==
      if events[i].owningPaddleEnt == Some(p) then i else LastOwned(events[..i], p)
  {
    assert events[..i + 1][..i] == events[..i];
  }

  predicate OwnersExist(events: seq<SpawnBallEvent>, paddles: map<Entity, Paddle.PlayerPaddleComponent>)
  {
    forall i :: 0 <= i < |events| && events[i].owningPaddleEnt.Some? ==> events[i].owningPaddleEnt.value in paddles
  }

  /** The body of the spawn loop, for one request and its new entity `ent`. */
  method SpawnBall(event: SpawnBallEvent, ent: Entity, paddles: map<Entity, Paddle.PlayerPaddleComponent>)
    returns (spawned: SpawnedBall, paddles': map<Entity, Paddle.PlayerPaddleComponent>)
    requires event.owningPaddleEnt.Some? ==> event.owningPaddleEnt.value in paddles
    ensures spawned == SpawnedFrom(event, ent, SpawnPosition(event, paddles))
    ensures paddles' == match event.owningPaddleEnt
      case Some(p) => paddles[p := paddles[p].(heldBallEnt := Some(ent))]
      case None => paddles
  {
    var spawnPos := match event.owningPaddleEnt
      case Some(paddleEnt) => Paddle.HeldBallPosition(paddles[paddleEnt])
      case None => event.position;
    spawned := SpawnedBall(
      ent,
      Transform.TransformComponent(spawnPos, spawnPos, Zero, Vec2(1.0, 1.0)),
      NewBall(event.linearVelocity, event.owningPaddleEnt),
      RigidbodyComponent(1.0, Velocity(event.linearVelocity, 0.0), BallMaxLinearVelocity, Dynamic),
      Game.BallColliderOf(BallColliderRadius / PixelsPerWorldUnit));
    paddles' := paddles;
    if event.owningPaddleEnt.Some? {
      var paddleEnt := event.owningPaddleEnt.value;
      paddles' := paddles'[paddleEnt := paddles'[paddleEnt].(heldBallEnt := Some(ent))];
    }
  }

  /** The paddles once the first `i` requests have been spawned: each paddle
      holds the ball of the last of them naming it, if any. */
  predicate HeldUpTo(paddles': map<Entity, Paddle.PlayerPaddleComponent>, paddles: map<Entity, Paddle.PlayerPaddleComponent>,
                     events: seq<SpawnBallEvent>, first: Entity, i: nat)
    requires i <= |events|
  {
    && paddles'.Keys == paddles.Keys
    && forall p :: p in paddles ==>
         paddles'[p] == if LastOwned(events[..i], p) < 0 then paddles[p]
                        else paddles[p].(heldBallEnt := Some(first + LastOwned(events[..i], p)))
  }

  lemma HeldStep(paddles': map<Entity, Paddle.PlayerPaddleComponent>, paddles: map<Entity, Paddle.PlayerPaddleComponent>,
                 events: seq<SpawnBallEvent>, first: Entity, i: nat)
    requires i < |events| && HeldUpTo(paddles', paddles, events, first, i)
    requires events[i].owningPaddleEnt.Some? ==> events[i].owningPaddleEnt.value in paddles
    ensures HeldUpTo(match events[i].owningPaddleEnt
                       case Some(q) => paddles'[q := paddles'[q].(heldBallEnt := Some(first + i))]
                       case None => paddles',
                     paddles, events, first, i + 1)
  {
    forall p | p in paddles
      ensures LastOwned(events[..i + 1], p) == if events[i].owningPaddleEnt == Some(p) then i else LastOwned(events[..i], p)
    {
      LastOwnedStep(events, i, p);
    }
  }

  /** `SpawnBallSystem::run`: each request, in order, becomes a new entity
      (`first`, `first + 1`, ...) with a ball placed on its owning paddle or at the
      requested position; each owning paddle ends up holding the ball of the last
      request that names it, and no other paddle changes. A request naming a
      missing paddle panics in the source, so every owner must exist. */
  method SpawnBallSystemRun(events: seq<SpawnBallEvent>, paddles: map<Entity, Paddle.PlayerPaddleComponent>, first: Entity)
    returns (spawned: seq<SpawnedBall>, paddles': map<Entity, Paddle.PlayerPaddleComponent>)
    requires OwnersExist(events, paddles)
    ensures |spawned| == |events|
    ensures forall i :: 0 <= i < |events| ==>
      spawned[i] == SpawnedFrom(events[i], first + i, SpawnPosition(events[i], paddles))
    ensures paddles'.Keys == paddles.Keys
    ensures forall p :: p in paddles ==>
      paddles'[p] == if LastOwned(events, p) < 0 then paddles[p]
                     else paddles[p].(heldBallEnt := Some(first + LastOwned(events, p)))
  {
    spawned, paddles' := [], paddles;
    var i := 0;
    while i < |events|
      invariant 0 <= i <= |events|
      invariant |spawned| == i
      invariant forall k :: 0 <= k < i ==> spawned[k] == SpawnedFrom(events[k], first + k, SpawnPosition(events[k], paddles))
      invariant HeldUpTo(paddles', paddles, events, first, i)
    {
      var event := events[i];
      assert SpawnPosition(event, paddles') == SpawnPosition(event, paddles);
      HeldStep(paddles', paddles, events, first, i);
      var ball;
      ball, paddles' := SpawnBall(event, first + i, paddles');
      spawned := spawned + [ball];
      i := i + 1;
    }
    assert events[..i] == events;
  }
}
