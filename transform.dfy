/** The transform component of src/game/transform.rs: current and previous
    position, visual origin and scale. */
module Transform {
  import opened Geometry

  datatype TransformComponent = TransformComponent(
    position: Vec2,
    lastPosition: Vec2,
    origin: Vec2,
    scale: Vec2)

  /** `TransformComponent::new`: a fresh transform has no motion to interpolate,
      so its previous position is its position. */
  function New(position: Vec2, origin: Vec2, scale: Vec2): (t: TransformComponent)
    ensures t.position == position && t.lastPosition == t.position
    ensures t.origin == origin && t.scale == scale
  {
    TransformComponent(position, position, origin, scale)
  }

  /** `Default`: at rest at the world origin, unscaled. */
  function Default(): (t: TransformComponent)
    ensures t.position == Zero && t.lastPosition == Zero
    ensures t.origin == Zero && t.scale == Vec2(1.0, 1.0)
  {
    TransformComponent(Zero, Zero, Zero, Vec2(1.0, 1.0))
  }

  /** The default transform is the one `new` builds at the origin with unit scale. */
  lemma DefaultIsNewAtOrigin()
    ensures Default() == New(Zero, Zero, Vec2(1.0, 1.0))
  {
  }
}
