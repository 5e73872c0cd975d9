/** Record shapes of the graphics library that the render command buffers and the
    sprite batch exchange: colours, transparency, sprite regions and draw commands.
    gfx-lib/src/renderer.rs and gfx-lib/src/color.rs are not part of this model;
    these shapes follow their use in gfx-lib/src/sprite.rs and src/game/render.rs. */
module Gfx {
  import opened Geometry

  datatype Color = Color(r: real, g: real, b: real, a: real)

  /** `Color::default()`, taken to be all channels zero. */
  const DefaultColor: Color := Color(0.0, 0.0, 0.0, 0.0)

  datatype Transparency = Opaque | Transparent

  /** `Transparency::default()`, taken to be `Opaque`. */
  const DefaultTransparency: Transparency := Opaque

  type TextureId = nat

  /** A rectangle of a sprite sheet, in pixels (`SpriteRegion` of gfx-lib/src/sprite.rs). */
  datatype SpriteRegion = SpriteRegion(x: nat, y: nat, w: nat, h: nat)

  datatype Renderable = Sprite(x: real, y: real, origin: Vec2, scale: Vec2, color: Color, region: SpriteRegion)

  datatype RenderCommand = RenderCommand(
    transparency: Transparency,
    shaderProgramId: nat,
    texId: TextureId,
    layer: nat,
    data: Renderable)

  /** The shader program every sprite command is drawn with. */
  const SpriteShaderProgram: nat := 1

  /** The command a sprite call records under the given bindings. */
  function SpriteCommand(transparency: Transparency, texId: TextureId, layer: nat, color: Color,
                         x: real, y: real, origin: Vec2, scale: Vec2, region: SpriteRegion): RenderCommand
  {
    RenderCommand(transparency, SpriteShaderProgram, texId, layer, Sprite(x, y, origin, scale, color, region))
  }
}
