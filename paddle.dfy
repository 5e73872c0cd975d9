/** The player paddle of src/game/paddle.rs: its component and the system that
    slides it left and right while the movement keys are held. */
module Paddle {
  import opened Geometry
  import Input
  import Game
  import Transform

  datatype PlayerPaddleComponent = PlayerPaddleComponent(
    heldBallEnt: Option<Entity>,
    heldBallPosX: real,
    heldBallPosY: real)

  /** Where a ball held by this paddle sits. */
  function HeldBallPosition(p: PlayerPaddleComponent): Vec2
  {
    Vec2(p.heldBallPosX, p.heldBallPosY)
  }

  /** Horizontal movement per tick, in pixels. */
  const Speed: real := 8.0

  /** The horizontal movement of one tick: starts at zero, loses the speed when
      moving left and gains it when moving right. */
  function Movement(movingLeft: bool, movingRight: bool): (dx: real)
    ensures movingLeft && !movingRight ==> dx == -Speed
    ensures movingRight && !movingLeft ==> dx == Speed
    ensures movingLeft == movingRight ==> dx == 0.0
  {
    var dx := 0.0;
    var dx := if movingLeft then dx - Speed else dx;
    if movingRight then dx + Speed else dx
  }

  /** `PlayerPaddleSystem::run`: every entity with a transform and a paddle moves
      horizontally by the tick's movement, with no bound on where it ends up; its
      height and every other transform are unchanged. The paddle components are
      only read. */
  method PlayerPaddleSystemRun(input: Input.InputState,
                               transforms: map<Entity, Transform.TransformComponent>,
                               paddles: map<Entity, PlayerPaddleComponent>)
    returns (transforms': map<Entity, Transform.TransformComponent>)
    ensures transforms'.Keys == transforms.Keys
    ensures forall e :: e in transforms && e in paddles ==>
      var dx := Movement(Game.MovingLeft(input), Game.MovingRight(input));
      && transforms'[e].position == Vec2(transforms[e].position.x + dx, transforms[e].position.y)
      && transforms'[e].lastPosition == transforms[e].lastPosition
      && transforms'[e].origin == transforms[e].origin && transforms'[e].scale == transforms[e].scale
    ensures forall e :: e in transforms && e !in paddles ==> transforms'[e] == transforms[e]
  {
    transforms' := transforms;
    var todo := transforms.Keys * paddles.Keys;
    while todo != {}
      invariant todo <= transforms.Keys * paddles.Keys
      invariant transforms'.Keys == transforms.Keys
      invariant forall e :: e in transforms && e in paddles && e !in todo ==>
        transforms'[e] == transforms[e].(position := Add(transforms[e].position,
          Vec2(Movement(Game.MovingLeft(input), Game.MovingRight(input)), 0.0)))
      invariant forall e :: e in transforms && (e !in paddles || e in todo) ==> transforms'[e] == transforms[e]
      decreases todo
    {
      var e :| e in todo;
      var transform := transforms'[e];
      var speed := Speed;
      var movementLinearVelocity := Zero;
      if input.IsKeyHeld(Input.A) || input.IsKeyHeld(Input.Left) {
        movementLinearVelocity := movementLinearVelocity.(x := movementLinearVelocity.x - speed);
      }
      if input.IsKeyHeld(Input.D) || input.IsKeyHeld(Input.Right) {
        movementLinearVelocity := movementLinearVelocity.(x := movementLinearVelocity.x + speed);
      }
      transforms' := transforms'[e := transform.(position := Add(transform.position, movementLinearVelocity))];
      todo := todo - {e};
    }
  }
}
