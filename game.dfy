/** The older game module, src/game.rs: its flat transform component (also the one
    src/physics.rs and src/game/render.rs read), its render command buffer, its
    paddle controller with velocity and playfield clamp, and its ball spawner. */
module Game {
  import opened Geometry
  import opened Gfx
  import Input

  /** `TransformComponent` of src/game.rs: position and previous position as
      separate coordinates. */
  datatype TransformComponent = TransformComponent(
    posX: real, posY: real,
    lastPosX: real, lastPosY: real,
    origin: Vec2, scale: Vec2)

  /** Its `Default`: at rest at the origin, unscaled. */
  function DefaultTransform(): (t: TransformComponent)
    ensures t.posX == t.posY == t.lastPosX == t.lastPosY == 0.0
    ensures t.origin == Zero && t.scale == Vec2(1.0, 1.0)
  {
    TransformComponent(0.0, 0.0, 0.0, 0.0, Zero, Vec2(1.0, 1.0))
  }

  /** The render command buffer of src/game.rs: draw state that is bound once and
      stamped onto every sprite command recorded after it. */
  class RenderCommander {
    var commands: seq<RenderCommand>
    var boundTransparency: Transparency
    var boundTextureId: TextureId
    var boundLayer: nat
    var boundColor: Color

    /** `RenderCommander::new`, all fields at their defaults. */
    constructor ()
      ensures commands == []
      ensures boundTransparency == DefaultTransparency && boundTextureId == 0
      ensures boundLayer == 0 && boundColor == DefaultColor
    {
      commands := [];
      boundTransparency := DefaultTransparency;
      boundTextureId := 0;
      boundLayer := 0;
      boundColor := DefaultColor;
    }

    method BindTransparency(val: Transparency)
      modifies this
      ensures boundTransparency == val
      ensures commands == old(commands) && boundTextureId == old(boundTextureId)
      ensures boundLayer == old(boundLayer) && boundColor == old(boundColor)
    {
      boundTransparency := val;
    }

    method BindTexture(val: TextureId)
      modifies this
      ensures boundTextureId == val
      ensures commands == old(commands) && boundTransparency == old(boundTransparency)
      ensures boundLayer == old(boundLayer) && boundColor == old(boundColor)
    {
      boundTextureId := val;
    }

    method BindLayer(val: nat)
      modifies this
      ensures boundLayer == val
      ensures commands == old(commands) && boundTransparency == old(boundTransparency)
      ensures boundTextureId == old(boundTextureId) && boundColor == old(boundColor)
    {
      boundLayer := val;
    }

    method BindColor(val: Color)
      modifies this
      ensures boundColor == val
      ensures commands == old(commands) && boundTransparency == old(boundTransparency)
      ensures boundTextureId == old(boundTextureId) && boundLayer == old(boundLayer)
    {
      boundColor := val;
    }

    /** Records exactly one sprite command carrying the current bindings. */
    method Sprite(x: real, y: real, origin: Vec2, scale: Vec2, region: SpriteRegion)
      modifies this
      ensures commands == old(commands) +
        [SpriteCommand(boundTransparency, boundTextureId, boundLayer, boundColor, x, y, origin, scale, region)]
      ensures boundTransparency == old(boundTransparency) && boundTextureId == old(boundTextureId)
      ensures boundLayer == old(boundLayer) && boundColor == old(boundColor)
    {
      commands := commands +
        [SpriteCommand(boundTransparency, boundTextureId, boundLayer, boundColor, x, y, origin, scale, region)];
    }

    /** Empties the buffer and returns every binding to its default. */
    method ClearCommands()
      modifies this
      ensures commands == []
      ensures boundTransparency == DefaultTransparency && boundTextureId == 0
      ensures boundLayer == 0 && boundColor == DefaultColor
    {
      boundTransparency := DefaultTransparency;
      boundTextureId := 0;
      boundLayer := 0;
      boundColor := DefaultColor;
      commands := [];
    }

    /** A copy of the recorded commands; the buffer is left as it is. */
    method Commands() returns (cs: seq<RenderCommand>)
      ensures cs == commands
    {
      cs := commands;
    }
  }

  /** `PlayerPaddleComponent` of src/game.rs. */
  datatype PlayerPaddleComponent = PlayerPaddleComponent(
    velX: real,
    heldBallEnt: Option<Entity>,
    heldBallPosX: real,
    heldBallPosY: real)

  const PaddleSpriteWidth: real := 64.0

  /** Width of the playfield the paddle is kept inside. */
  const PlayfieldWidth: real := 640.0

  /** Paddle speed per tick: 400 pixels per second over a 0.016 s tick. */
  const PaddleSpeed: real := 400.0 * 0.016

  /** The per-tick paddle velocity: reset to zero, then reduced by the speed when
      moving left and increased by it when moving right. */
  function PaddleVelocity(movingLeft: bool, movingRight: bool): (v: real)
    ensures movingLeft && !movingRight ==> v == -PaddleSpeed
    ensures movingRight && !movingLeft ==> v == PaddleSpeed
    ensures movingLeft == movingRight ==> v == 0.0
  {
    var v := 0.0;
    var v := if movingLeft then v - PaddleSpeed else v;
    if movingRight then v + PaddleSpeed else v
  }

  /** The paddle's x after a move, pushed back inside [32, 608]: half a paddle
      sprite from either edge of the 640-pixel playfield. */
  function ClampPaddleX(x: real): (r: real)
    ensures PaddleSpriteWidth / 2.0 <= r <= PlayfieldWidth - PaddleSpriteWidth / 2.0
    ensures PaddleSpriteWidth / 2.0 <= x <= PlayfieldWidth - PaddleSpriteWidth / 2.0 ==> r == x
    ensures x < PaddleSpriteWidth / 2.0 ==> r == PaddleSpriteWidth / 2.0
    ensures x > PlayfieldWidth - PaddleSpriteWidth / 2.0 ==> r == PlayfieldWidth - PaddleSpriteWidth / 2.0
  {
    if x < PaddleSpriteWidth / 2.0 then PaddleSpriteWidth / 2.0
    else if x > PlayfieldWidth - PaddleSpriteWidth / 2.0 then PlayfieldWidth - PaddleSpriteWidth / 2.0
    else x
  }

  predicate MovingLeft(input: Input.InputState)
    reads input
  {
    input.IsKeyHeld(Input.A) || input.IsKeyHeld(Input.Left)
  }

  predicate MovingRight(input: Input.InputState)
    reads input
  {
    input.IsKeyHeld(Input.D) || input.IsKeyHeld(Input.Right)
  }

  /** `PlayerPaddleSystem::run` of src/game.rs, over every entity with both a
      transform and a paddle: the paddle's velocity is recomputed from the held
      keys, the transform moves by it and is clamped to the playfield; nothing
      else changes. */
  method PlayerPaddleSystemRun(input: Input.InputState,
                               transforms: map<Entity, TransformComponent>,
                               paddles: map<Entity, PlayerPaddleComponent>)
    returns (transforms': map<Entity, TransformComponent>, paddles': map<Entity, PlayerPaddleComponent>)
    ensures transforms'.Keys == transforms.Keys && paddles'.Keys == paddles.Keys
    ensures forall e :: e in transforms && e in paddles ==>
      var v := PaddleVelocity(MovingLeft(input), MovingRight(input));
      && paddles'[e] == paddles[e].(velX := v)
      && transforms'[e] == transforms[e].(posX := ClampPaddleX(transforms[e].posX + v))
    ensures forall e :: e in transforms && e !in paddles ==> transforms'[e] == transforms[e]
    ensures forall e :: e in paddles && e !in transforms ==> paddles'[e] == paddles[e]
  {
    var isMovingLeft := input.IsKeyHeld(Input.A) || input.IsKeyHeld(Input.Left);
    var isMovingRight := input.IsKeyHeld(Input.D) || input.IsKeyHeld(Input.Right);
    transforms', paddles' := transforms, paddles;
    var todo := transforms.Keys * paddles.Keys;
    while todo != {}
      invariant todo <= transforms.Keys * paddles.Keys
      invariant transforms'.Keys == transforms.Keys && paddles'.Keys == paddles.Keys
      invariant forall e :: e in transforms && e in paddles && e !in todo ==>
        var v := PaddleVelocity(isMovingLeft, isMovingRight);
        && paddles'[e] == paddles[e].(velX := v)
        && transforms'[e] == transforms[e].(posX := ClampPaddleX(transforms[e].posX + v))
      invariant forall e :: e in transforms && (e !in paddles || e in todo) ==> transforms'[e] == transforms[e]
      invariant forall e :: e in paddles && (e !in transforms || e in todo) ==> paddles'[e] == paddles[e]
      decreases todo
    {
      var e :| e in todo;
      var paddle := paddles'[e];
      var transform := transforms'[e];
      var speed := PaddleSpeed;
      var velX := 0.0;
      if isMovingLeft {
        velX := velX - speed;
      }
      if isMovingRight {
        velX := velX + speed;
      }
      var posX := transform.posX + velX;
      if posX < PaddleSpriteWidth / 2.0 {
        posX := PaddleSpriteWidth / 2.0;
      } else if posX > PlayfieldWidth - PaddleSpriteWidth / 2.0 {
        posX := PlayfieldWidth - PaddleSpriteWidth / 2.0;
      }
      paddles' := paddles'[e := paddle.(velX := velX)];
      transforms' := transforms'[e := transform.(posX := posX)];
      todo := todo - {e};
    }
  }

  /** `SpawnBallEvent` of src/game.rs. */
  datatype SpawnBallEvent = SpawnBallEvent(posX: real, posY: real, velX: real, velY: real, owningPaddleEnt: Option<Entity>)

  /** `BallComponent` of src/game.rs. */
  datatype BallComponent = BallComponent(lastPos: Vec2, velX: real, velY: real, isHeld: bool, didHitBrickThisTick: bool)

  /** The arguments the older spawner passes to `RigidbodyComponent::new`: a mass,
      a vector it passes as zero, and a linear velocity. The three-argument
      constructor they are written for is not part of this model (the one in
      src/physics.rs takes the velocity alone), so the component is recorded by
      its arguments. */
  datatype RigidbodyArgs = RigidbodyArgs(mass: real, zeroArgument: Vec2, velocity: Vec2)

  /** The collider component a ball spawner attaches: a circle of `radius` world
      units at `offset` from the body, a member of the collision groups in
      `membership` that ignores those in `blacklist`, and the constructor's
      fourth argument, whose meaning lies in a physics module that is not part of
      this model. */
  datatype BallCollider = BallCollider(radius: real, offset: Vec2, membership: set<nat>, blacklist: set<nat>,
                                       fourthArgument: real)

  /** The collider both ball spawners attach around a ball of the given radius:
      centred on the body, in collision group 0 and ignoring group 0, so that
      balls never collide with each other. */
  function BallColliderOf(radius: real): (c: BallCollider)
    ensures c.radius == radius && c.offset == Vec2(0.0, 0.0)
    ensures c.membership == c.blacklist == {0} && c.fourthArgument == 0.0
  {
    BallCollider(radius, Vec2(0.0, 0.0), {0}, {0}, 0.0)
  }

  /** The components a spawn event gives its new entity. */
  datatype SpawnedBall = SpawnedBall(entity: Entity, transform: TransformComponent, ball: BallComponent,
                                     rigidbody: RigidbodyArgs, collider: BallCollider)

  /** Radius of the ball collider the older spawner attaches, in world units. */
  const OldBallColliderRadius: real := 0.125

  /** The components the older spawner inserts for one event: a transform at the
      event position with no motion to interpolate, a ball that is held exactly
      when an owning paddle is given, a rigidbody of mass 1 moving at the event's
      velocity, and a ball collider of radius 0.125 world units. */
  function SpawnedFrom(ev: SpawnBallEvent, ent: Entity): (s: SpawnedBall)
    ensures s.entity == ent
    ensures s.transform.lastPosX == s.transform.posX == ev.posX
    ensures s.transform.lastPosY == s.transform.posY == ev.posY
    ensures s.ball.isHeld <==> ev.owningPaddleEnt.Some?
    ensures s.ball.velX == ev.velX && s.ball.velY == ev.velY && !s.ball.didHitBrickThisTick
    ensures s.rigidbody.mass == 1.0 && s.rigidbody.zeroArgument == Vec2(0.0, 0.0)
    ensures s.rigidbody.velocity == Vec2(s.ball.velX, s.ball.velY)
    ensures s.collider == BallColliderOf(OldBallColliderRadius)
  {
    SpawnedBall(
      ent,
      TransformComponent(ev.posX, ev.posY, ev.posX, ev.posY, Vec2(16.0, 16.0), Vec2(1.0, 1.0)),
      BallComponent(Vec2(0.0, 0.0), ev.velX, ev.velY, ev.owningPaddleEnt.Some?, false),
      RigidbodyArgs(1.0, Vec2(0.0, 0.0), Vec2(ev.velX, ev.velY)),
      BallColliderOf(OldBallColliderRadius))
  }

  /** The paddles after the spawn events have been drained, when the i-th event's
      entity is `first + i`: each owning paddle holds the ball of the last event
      that names it. */
  function HoldSpawned(paddles: map<Entity, PlayerPaddleComponent>, events: seq<SpawnBallEvent>, first: Entity)
    : map<Entity, PlayerPaddleComponent>
  {
    if events == [] then paddles
    else
      var before := HoldSpawned(paddles, events[..|events| - 1], first);
      var ev := events[|events| - 1];
      if ev.owningPaddleEnt.Some? && ev.owningPaddleEnt.value in before then
        var p := ev.owningPaddleEnt.value;
        before[p := before[p].(heldBallEnt := Some(first + |events| - 1))]
      else before
  }

  predicate OwnersExist(events: seq<SpawnBallEvent>, paddles: map<Entity, PlayerPaddleComponent>)
  {
    forall i :: 0 <= i < |events| && events[i].owningPaddleEnt.Some? ==> events[i].owningPaddleEnt.value in paddles
  }

  /** The index of the last event that names paddle `p` as owner, or -1. */
  function LastOwned(events: seq<SpawnBallEvent>, p: Entity): (r: int)
    ensures -1 <= r < |events|
    ensures r >= 0 ==> events[r].owningPaddleEnt == Some(p)
    ensures forall j :: r < j < |events| ==> events[j].owningPaddleEnt != Some(p)
  {
    if events == [] then -1
    else if events[|events| - 1].owningPaddleEnt == Some(p) then |events| - 1
    else LastOwned(events[..|events| - 1], p)
  }

  /** Draining the spawn queue only ever sets `heldBallEnt`: a paddle holds the
      entity of the last event that names it, and a paddle no event names is
      untouched. */
  lemma {:induction false} HoldSpawnedOwner(paddles: map<Entity, PlayerPaddleComponent>,
                                            events: seq<SpawnBallEvent>, first: Entity, p: Entity)
    requires p in paddles && OwnersExist(events, paddles)
    ensures HoldSpawned(paddles, events, first).Keys == paddles.Keys
    ensures HoldSpawned(paddles, events, first)[p] ==
      if LastOwned(events, p) < 0 then paddles[p]
      else paddles[p].(heldBallEnt := Some(first + LastOwned(events, p)))
  {
    HoldSpawnedKeys(paddles, events, first);
    if events != [] {
      var n := |events| - 1;
      assert OwnersExist(events[..n], paddles);
      HoldSpawnedOwner(paddles, events[..n], first, p);
      HoldSpawnedKeys(paddles, events[..n], first);
    }
  }

  lemma {:induction false} HoldSpawnedKeys(paddles: map<Entity, PlayerPaddleComponent>,
                                           events: seq<SpawnBallEvent>, first: Entity)
    ensures HoldSpawned(paddles, events, first).Keys == paddles.Keys
  {
    if events != [] {
      HoldSpawnedKeys(paddles, events[..|events| - 1], first);
    }
  }

  /** `SpawnBallSystem::run` of src/game.rs. Entity creation is modelled as handing
      out `first`, `first + 1`, ... in event order. An event naming a paddle that
      does not exist panics in the source, so every owner must exist. */
  method SpawnBallSystemRun(events: seq<SpawnBallEvent>, paddles: map<Entity, PlayerPaddleComponent>, first: Entity)
    returns (spawned: seq<SpawnedBall>, paddles': map<Entity, PlayerPaddleComponent>)
    requires OwnersExist(events, paddles)
    ensures |spawned| == |events|
    ensures forall i :: 0 <= i < |events| ==> spawned[i] == SpawnedFrom(events[i], first + i)
    ensures paddles' == HoldSpawned(paddles, events, first)
  {
    spawned, paddles' := [], paddles;
    var i := 0;
    while i < |events|
      invariant 0 <= i <= |events|
      invariant |spawned| == i
      invariant forall k :: 0 <= k < i ==> spawned[k] == SpawnedFrom(events[k], first + k)
      invariant paddles' == HoldSpawned(paddles, events[..i], first)
      invariant paddles'.Keys == paddles.Keys
    {
      HoldSpawnedKeys(paddles, events[..i + 1], first);
      var ev := events[i];
      var ent := first + i;
      spawned := spawned + [SpawnedBall(
        ent,
        TransformComponent(ev.posX, ev.posY, ev.posX, ev.posY, Vec2(16.0, 16.0), Vec2(1.0, 1.0)),
        BallComponent(Vec2(0.0, 0.0), ev.velX, ev.velY, ev.owningPaddleEnt.Some?, false),
        RigidbodyArgs(1.0, Vec2(0.0, 0.0), Vec2(ev.velX, ev.velY)),
        BallColliderOf(OldBallColliderRadius))];
      if ev.owningPaddleEnt.Some? {
        var p := ev.owningPaddleEnt.value;
        paddles' := paddles'[p := paddles'[p].(heldBallEnt := Some(ent))];
      }
      assert events[..i + 1][..i] == events[..i];
      i := i + 1;
    }
    assert events[..i] == events;
  }
}
