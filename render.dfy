/** The render command buffer of src/game/render.rs and the system that fills it
    with one sprite command per drawable entity. */
module Render {
  import opened Geometry
  import opened Gfx
  import Game

  /** `SpriteComponent` of src/game/render.rs. */
  datatype SpriteComponent = SpriteComponent(color: Color, region: SpriteRegion, spritesheetTexId: TextureId, layer: nat)

  class RenderState {
    var commands: seq<RenderCommand>
    var boundTransparency: Transparency
    var boundTextureId: TextureId
    var boundLayer: nat
    var boundColor: Color

    /** `RenderState::new`: no commands, every binding at its default. */
    constructor ()
      ensures commands == []
      ensures boundTransparency == DefaultTransparency && boundTextureId == 0
      ensures boundLayer == 0 && boundColor == DefaultColor
    {
      commands := [];
      boundTransparency := DefaultTransparency;
      boundTextureId := 0;
      boundLayer := 0;
      boundColor := DefaultColor;
    }

    method BindTransparency(val: Transparency)
      modifies this
      ensures boundTransparency == val
      ensures commands == old(commands) && boundTextureId == old(boundTextureId)
      ensures boundLayer == old(boundLayer) && boundColor == old(boundColor)
    {
      boundTransparency := val;
    }

    method BindTexture(val: TextureId)
      modifies this
      ensures boundTextureId == val
      ensures commands == old(commands) && boundTransparency == old(boundTransparency)
      ensures boundLayer == old(boundLayer) && boundColor == old(boundColor)
    {
      boundTextureId := val;
    }

    method BindLayer(val: nat)
      modifies this
      ensures boundLayer == val
      ensures commands == old(commands) && boundTransparency == old(boundTransparency)
      ensures boundTextureId == old(boundTextureId) && boundColor == old(boundColor)
    {
      boundLayer := val;
    }

    method BindColor(val: Color)
      modifies this
      ensures boundColor == val
      ensures commands == old(commands) && boundTransparency == old(boundTransparency)
      ensures boundTextureId == old(boundTextureId) && boundLayer == old(boundLayer)
    {
      boundColor := val;
    }

    /** `sprite`: records exactly one command, drawn with shader program 1 under
        the current bindings; the bindings stay. */
    method Sprite(x: real, y: real, origin: Vec2, scale: Vec2, region: SpriteRegion)
      modifies this
      ensures commands == old(commands) +
        [SpriteCommand(boundTransparency, boundTextureId, boundLayer, boundColor, x, y, origin, scale, region)]
      ensures boundTransparency == old(boundTransparency) && boundTextureId == old(boundTextureId)
      ensures boundLayer == old(boundLayer) && boundColor == old(boundColor)
    {
      commands := commands +
        [SpriteCommand(boundTransparency, boundTextureId, boundLayer, boundColor, x, y, origin, scale, region)];
    }

    /** `clear_commands`: no commands, texture and layer 0, colour and
        transparency at their defaults. */
    method ClearCommands()
      modifies this
      ensures commands == []
      ensures boundTransparency == DefaultTransparency && boundTextureId == 0
      ensures boundLayer == 0 && boundColor == DefaultColor
    {
      boundTransparency := DefaultTransparency;
      boundTextureId := 0;
      boundLayer := 0;
      boundColor := DefaultColor;
      commands := [];
    }

    /** `commands`: a copy of the buffer, which is left as it is. */
    method Commands() returns (cs: seq<RenderCommand>)
      ensures cs == commands
    {
      cs := commands;
    }
  }

  /** Blend of the previous and current coordinate by the interpolation fraction. */
  function Lerp(current: real, last: real, lerp: real): real
  {
    current * lerp + last * (1.0 - lerp)
  }

  /** Where an entity is drawn: interpolated between its previous and current
      position when it has a rigidbody, its raw position otherwise. */
  function DrawPosition(t: Game.TransformComponent, hasRigidbody: bool, lerp: real): (p: Vec2)
    ensures !hasRigidbody ==> p == Vec2(t.posX, t.posY)
    ensures hasRigidbody && lerp == 1.0 ==> p == Vec2(t.posX, t.posY)
    ensures hasRigidbody && lerp == 0.0 ==> p == Vec2(t.lastPosX, t.lastPosY)
  {
    if hasRigidbody then Vec2(Lerp(t.posX, t.lastPosX, lerp), Lerp(t.posY, t.lastPosY, lerp))
    else Vec2(t.posX, t.posY)
  }

  /** The command drawn for one entity when `transparency` is bound. */
  function DrawCommand(transparency: Transparency, t: Game.TransformComponent, s: SpriteComponent,
                       hasRigidbody: bool, lerp: real): RenderCommand
  {
    var p := DrawPosition(t, hasRigidbody, lerp);
    SpriteCommand(transparency, s.spritesheetTexId, s.layer, s.color, p.x, p.y, t.origin, t.scale, s.region)
  }

  /** The commands for the entities of `order`, in that order. */
  function DrawCommands(transparency: Transparency, order: seq<Entity>,
                        transforms: map<Entity, Game.TransformComponent>, sprites: map<Entity, SpriteComponent>,
                        rigidbodies: set<Entity>, lerp: real): seq<RenderCommand>
    requires forall e :: e in order ==> e in transforms && e in sprites
  {
    if order == [] then []
    else
      var e := order[|order| - 1];
      DrawCommands(transparency, order[..|order| - 1], transforms, sprites, rigidbodies, lerp)
        + [DrawCommand(transparency, transforms[e], sprites[e], e in rigidbodies, lerp)]
  }

  /** One command per drawable entity, the k-th for the k-th entity, carrying that
      entity's texture, layer, colour and region. */
  lemma {:induction false} DrawCommandsAt(transparency: Transparency, order: seq<Entity>,
                                          transforms: map<Entity, Game.TransformComponent>,
                                          sprites: map<Entity, SpriteComponent>,
                                          rigidbodies: set<Entity>, lerp: real, k: nat)
    requires forall e :: e in order ==> e in transforms && e in sprites
    requires k < |order|
    ensures |DrawCommands(transparency, order, transforms, sprites, rigidbodies, lerp)| == |order|
    ensures var c := DrawCommands(transparency, order, transforms, sprites, rigidbodies, lerp)[k];
      var e := order[k];
      && c.transparency == transparency && c.shaderProgramId == SpriteShaderProgram
      && c.texId == sprites[e].spritesheetTexId && c.layer == sprites[e].layer
      && c.data.color == sprites[e].color && c.data.region == sprites[e].region
      && (e !in rigidbodies ==> c.data.x == transforms[e].posX && c.data.y == transforms[e].posY)
  {
    var n := |order| - 1;
    DrawCommandsLength(transparency, order[..n], transforms, sprites, rigidbodies, lerp);
    if k < n {
      DrawCommandsAt(transparency, order[..n], transforms, sprites, rigidbodies, lerp, k);
    }
  }

  lemma {:induction false} DrawCommandsLength(transparency: Transparency, order: seq<Entity>,
                                              transforms: map<Entity, Game.TransformComponent>,
                                              sprites: map<Entity, SpriteComponent>,
                                              rigidbodies: set<Entity>, lerp: real)
    requires forall e :: e in order ==> e in transforms && e in sprites
    ensures |DrawCommands(transparency, order, transforms, sprites, rigidbodies, lerp)| == |order|
  {
    if order != [] {
      DrawCommandsLength(transparency, order[..|order| - 1], transforms, sprites, rigidbodies, lerp);
    }
  }

  /** `SpriteRenderSystem::run`: for each entity with a transform and a sprite, in
      ascending id order (`order`), bind the sprite's texture, colour and layer and
      record one sprite command at its draw position. The transparency binding is
      never touched, so every command carries the one bound before the run; the
      other bindings are left as the last entity drawn set them. */
  method SpriteRenderSystemRun(render: RenderState, order: seq<Entity>,
                               transforms: map<Entity, Game.TransformComponent>,
                               sprites: map<Entity, SpriteComponent>,
                               rigidbodies: set<Entity>, lerp: real)
    requires Increasing(order)
    requires forall e :: e in order <==> e in transforms && e in sprites
    modifies render
    ensures render.commands == old(render.commands) +
      DrawCommands(old(render.boundTransparency), order, transforms, sprites, rigidbodies, lerp)
    ensures render.boundTransparency == old(render.boundTransparency)
    ensures order == [] ==> && render.boundTextureId == old(render.boundTextureId)
                            && render.boundColor == old(render.boundColor) && render.boundLayer == old(render.boundLayer)
    ensures order != [] ==> && render.boundTextureId == sprites[order[|order| - 1]].spritesheetTexId
                            && render.boundColor == sprites[order[|order| - 1]].color
                            && render.boundLayer == sprites[order[|order| - 1]].layer
  {
    var i := 0;
    while i < |order|
      invariant 0 <= i <= |order|
      invariant render.boundTransparency == old(render.boundTransparency)
      invariant i == 0 ==> && render.boundTextureId == old(render.boundTextureId)
                           && render.boundColor == old(render.boundColor) && render.boundLayer == old(render.boundLayer)
      invariant i > 0 ==> && render.boundTextureId == sprites[order[i - 1]].spritesheetTexId
                          && render.boundColor == sprites[order[i - 1]].color
                          && render.boundLayer == sprites[order[i - 1]].layer
      invariant render.commands == old(render.commands) +
        DrawCommands(old(render.boundTransparency), order[..i], transforms, sprites, rigidbodies, lerp)
    {
      var e := order[i];
      var transform := transforms[e];
      var sprite := sprites[e];
      var x, y;
      if e in rigidbodies {
        x := transform.posX * lerp + transform.lastPosX * (1.0 - lerp);
        y := transform.posY * lerp + transform.lastPosY * (1.0 - lerp);
      } else {
        x, y := transform.posX, transform.posY;
      }
      assert Vec2(x, y) == DrawPosition(transform, e in rigidbodies, lerp);
      render.BindTexture(sprite.spritesheetTexId);
      render.BindColor(sprite.color);
      render.BindLayer(sprite.layer);
      render.Sprite(x, y, transform.origin, transform.scale, sprite.region);
      assert order[..i + 1][..i] == order[..i];
      assert DrawCommands(old(render.boundTransparency), order[..i + 1], transforms, sprites, rigidbodies, lerp)
        == DrawCommands(old(render.boundTransparency), order[..i], transforms, sprites, rigidbodies, lerp)
           + [DrawCommand(old(render.boundTransparency), transform, sprite, e in rigidbodies, lerp)];
      i := i + 1;
    }
    assert order[..i] == order;
  }
}
