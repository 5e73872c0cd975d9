/** The bridge between the component store and the physics engine, src/physics.rs.
    The engine itself is modelled only as the bookkeeping the bridge relies on: a
    set of bodies and a set of colliders keyed by handles that a counter hands out,
    and a source of started/stopped contact notifications. */
module Physics {
  import opened Geometry
  import Game

  type BodyHandle = nat
  type ColliderHandle = nat

  /** Collision shapes and collision groups are passed through untouched; the model
      carries them as opaque ids. */
  type ShapeHandle = nat
  type CollisionGroups = nat

  /** A body of the engine's body set: the ground, or a dynamic rigid body in world
      units whose user data is the entity it was created for. */
  datatype Body =
    | Ground
    | RigidBody(position: Vec2, velocity: Velocity, maxLinearVelocity: real, owner: Entity)

  /** A collider of the engine's collider set, attached to a parent body at an
      offset, with the entity it was created for as user data. */
  datatype Collider = Collider(parent: BodyHandle, translation: Vec2, shape: ShapeHandle,
                               groups: CollisionGroups, owner: Entity)

  /** `RigidbodyComponent`. */
  datatype RigidbodyComponent = RigidbodyComponent(
    velocity: Velocity,
    lastVelocity: Velocity,
    handle: Option<BodyHandle>,
    maxLinearVelocity: real)

  /** `RigidbodyComponent::new`: a velocity with no spin, remembered as the last
      one too, no body yet and a speed cap of 100 world units. */
  function NewRigidbody(velocity: Vec2): (r: RigidbodyComponent)
    ensures r.velocity == r.lastVelocity == Velocity(velocity, 0.0)
    ensures r.handle == None && r.maxLinearVelocity == 100.0
  {
    var v := Velocity(velocity, 0.0);
    RigidbodyComponent(v, v, None, 100.0)
  }

  /** `ColliderComponent`. */
  datatype ColliderComponent = ColliderComponent(shape: ShapeHandle, offset: Vec2, groups: CollisionGroups)

  /** The state `PhysicsState` keeps besides the engine internals. */
  datatype Bridge = Bridge(
    bodies: map<BodyHandle, Body>,
    colliders: map<ColliderHandle, Collider>,
    entBodyHandles: map<Entity, BodyHandle>,
    entColliderHandles: map<Entity, ColliderHandle>,
    ground: BodyHandle,
    nextBody: nat,
    nextCollider: nat)

  predicate OwnedBy(body: Body, e: Entity)
  {
    body.RigidBody? && body.owner == e
  }

  /** The bookkeeping is consistent: the ground body exists; every handle in use
      was handed out by its counter; each entity's body handle names a live rigid
      body created for that entity, and every rigid body is the one its entity's
      handle names; likewise for colliders. So each entity has at most one body and
      at most one collider in the engine, and nothing in the engine is orphaned.
      Nothing ties a collider's parent to a live body: once a body is removed, a
      collider may still name its handle. */
  predicate Valid(b: Bridge)
  {
    && b.ground in b.bodies && b.bodies[b.ground] == Ground
    && (forall h :: h in b.bodies ==> h < b.nextBody)
    && (forall h :: h in b.colliders ==> h < b.nextCollider)
    && (forall e :: e in b.entBodyHandles ==>
          b.entBodyHandles[e] in b.bodies && OwnedBy(b.bodies[b.entBodyHandles[e]], e))
    && (forall h :: h in b.bodies && h != b.ground ==>
          b.bodies[h].RigidBody? && b.bodies[h].owner in b.entBodyHandles
          && b.entBodyHandles[b.bodies[h].owner] == h)
    && (forall e :: e in b.entColliderHandles ==>
          b.entColliderHandles[e] in b.colliders && b.colliders[b.entColliderHandles[e]].owner == e)
    && (forall h :: h in b.colliders ==>
          b.colliders[h].owner in b.entColliderHandles && b.entColliderHandles[b.colliders[h].owner] == h)
  }

  /** `PhysicsState::new`: only the ground body, no entity known. */
  function NewBridge(): (b: Bridge)
    ensures Valid(b)
    ensures b.bodies.Keys == {b.ground} && b.colliders == map[]
    ensures b.entBodyHandles == map[] && b.entColliderHandles == map[]
  {
    Bridge(map[0 := Ground], map[], map[], map[], 0, 1, 0)
  }

  /** In a consistent state an entity owns at most one body. */
  lemma OneBodyPerEntity(b: Bridge, e: Entity, h1: BodyHandle, h2: BodyHandle)
    requires Valid(b)
    requires h1 in b.bodies && OwnedBy(b.bodies[h1], e)
    requires h2 in b.bodies && OwnedBy(b.bodies[h2], e)
    ensures h1 == h2 && e in b.entBodyHandles && b.entBodyHandles[e] == h1
  {
  }

  /** Position of a transform in world units, at 32 pixels per unit. */
  function BodyPosition(t: Game.TransformComponent): Vec2
  {
    Vec2(t.posX / 32.0, t.posY / 32.0)
  }

  /** Inserting a rigid body for `e`: a body it already had is removed first, then
      a body with a fresh handle is created and becomes `e`'s entry. */
  function InsertBody(b: Bridge, e: Entity, position: Vec2, velocity: Velocity, maxLinearVelocity: real): Bridge
  {
    var bodies := if e in b.entBodyHandles then b.bodies - {b.entBodyHandles[e]} else b.bodies;
    var h := b.nextBody;
    b.(bodies := bodies[h := RigidBody(position, velocity, maxLinearVelocity, e)],
       entBodyHandles := b.entBodyHandles[e := h],
       nextBody := h + 1)
  }

  /** `r` is `b` with `e`'s only body a fresh one built from the given values; no
      other entity's entry or body differs, and the colliders are untouched. */
  ghost predicate BodyInserted(b: Bridge, r: Bridge, e: Entity, position: Vec2, velocity: Velocity, maxLinearVelocity: real)
  {
    && e in r.entBodyHandles && r.entBodyHandles[e] !in b.bodies
    && r.entBodyHandles[e] in r.bodies
    && r.bodies[r.entBodyHandles[e]] == RigidBody(position, velocity, maxLinearVelocity, e)
    && (e in b.entBodyHandles ==> b.entBodyHandles[e] !in r.bodies)
    && (forall h :: h in b.bodies && !OwnedBy(b.bodies[h], e) ==> h in r.bodies && r.bodies[h] == b.bodies[h])
    && (forall h :: h in r.bodies ==> h in b.bodies || h == r.entBodyHandles[e])
    && (forall e' :: e' != e ==>
          (e' in r.entBodyHandles <==> e' in b.entBodyHandles)
          && (e' in b.entBodyHandles ==> r.entBodyHandles[e'] == b.entBodyHandles[e']))
    && r.colliders == b.colliders && r.entColliderHandles == b.entColliderHandles
    && r.ground == b.ground && r.nextCollider == b.nextCollider
  }

  /** Inserting a body keeps the bookkeeping consistent and touches only `e`'s
      body. */
  lemma InsertBodyFacts(b: Bridge, e: Entity, position: Vec2, velocity: Velocity, maxLinearVelocity: real)
    requires Valid(b)
    ensures Valid(InsertBody(b, e, position, velocity, maxLinearVelocity))
    ensures BodyInserted(b, InsertBody(b, e, position, velocity, maxLinearVelocity), e, position, velocity, maxLinearVelocity)
  {
  }

  /** Pushing a velocity to `e`'s body: only the body's velocity changes, and only
      when it differs; an entity without a body changes nothing. */
  function PushVelocity(b: Bridge, e: Entity, velocity: Velocity): (r: Bridge)
    requires Valid(b)
    ensures Valid(r)
    ensures e !in b.entBodyHandles ==> r == b
    ensures e in b.entBodyHandles ==>
      var h := b.entBodyHandles[e];
      r == b.(bodies := b.bodies[h := b.bodies[h].(velocity := velocity)])
  {
    if e in b.entBodyHandles then
      var h := b.entBodyHandles[e];
      if b.bodies[h].velocity != velocity then b.(bodies := b.bodies[h := b.bodies[h].(velocity := velocity)])
      else b
    else b
  }

  /** Moving `e`'s body: only its position changes; an entity without a body
      changes nothing. */
  function PushPosition(b: Bridge, e: Entity, position: Vec2): (r: Bridge)
    requires Valid(b)
    ensures Valid(r)
    ensures e !in b.entBodyHandles ==> r == b
    ensures e in b.entBodyHandles ==>
      var h := b.entBodyHandles[e];
      r == b.(bodies := b.bodies[h := b.bodies[h].(position := position)])
  {
    if e in b.entBodyHandles then
      var h := b.entBodyHandles[e];
      b.(bodies := b.bodies[h := b.bodies[h].(position := position)])
    else b
  }

  /** Removing `e`'s rigid body deletes both its entry and the body; an entity
      without one changes nothing. */
  function RemoveBody(b: Bridge, e: Entity): (r: Bridge)
    requires Valid(b)
    ensures Valid(r)
    ensures e !in r.entBodyHandles
    ensures r.entBodyHandles == b.entBodyHandles - {e}
    ensures forall h :: h in r.bodies <==> h in b.bodies && !OwnedBy(b.bodies[h], e)
    ensures forall h :: h in r.bodies ==> r.bodies[h] == b.bodies[h]
    ensures r.colliders == b.colliders && r.entColliderHandles == b.entColliderHandles
    ensures r.ground == b.ground
  {
    if e in b.entBodyHandles then
      b.(bodies := b.bodies - {b.entBodyHandles[e]}, entBodyHandles := b.entBodyHandles - {e})
    else b
  }

  /** The collider created for `e`: attached with no offset to `e`'s own body when
      it has one, otherwise to the ground at the transform's position in world
      units. The component's own offset is not used. */
  function ColliderFor(b: Bridge, e: Entity, t: Game.TransformComponent, c: ColliderComponent): (col: Collider)
    ensures col.owner == e && col.shape == c.shape && col.groups == c.groups
    ensures e in b.entBodyHandles ==> col.parent == b.entBodyHandles[e] && col.translation == Zero
    ensures e !in b.entBodyHandles ==> col.parent == b.ground && col.translation == BodyPosition(t)
  {
    if e in b.entBodyHandles then Collider(b.entBodyHandles[e], Zero, c.shape, c.groups, e)
    else Collider(b.ground, Scale(1.0 / 32.0, Vec2(t.posX, t.posY)), c.shape, c.groups, e)
  }

  /** Inserting a collider for `e`: a collider it already had is removed first,
      then the new one gets a fresh handle and becomes `e`'s entry. */
  function InsertCollider(b: Bridge, e: Entity, t: Game.TransformComponent, c: ColliderComponent): Bridge
  {
    var colliders := if e in b.entColliderHandles then b.colliders - {b.entColliderHandles[e]} else b.colliders;
    var h := b.nextCollider;
    b.(colliders := colliders[h := ColliderFor(b, e, t, c)],
       entColliderHandles := b.entColliderHandles[e := h],
       nextCollider := h + 1)
  }

  /** `r` is `b` with `e`'s only collider a fresh `ColliderFor(b, e, t, c)`; no
      other entity's entry or collider differs, and the bodies are untouched. */
  ghost predicate ColliderInserted(b: Bridge, r: Bridge, e: Entity, t: Game.TransformComponent, c: ColliderComponent)
  {
    && e in r.entColliderHandles && r.entColliderHandles[e] !in b.colliders
    && r.entColliderHandles[e] in r.colliders
    && r.colliders[r.entColliderHandles[e]] == ColliderFor(b, e, t, c)
    && (e in b.entColliderHandles ==> b.entColliderHandles[e] !in r.colliders)
    && (forall h :: h in b.colliders && b.colliders[h].owner != e ==> h in r.colliders && r.colliders[h] == b.colliders[h])
    && (forall h :: h in r.colliders ==> h in b.colliders || h == r.entColliderHandles[e])
    && (forall e' :: e' != e ==>
          (e' in r.entColliderHandles <==> e' in b.entColliderHandles)
          && (e' in b.entColliderHandles ==> r.entColliderHandles[e'] == b.entColliderHandles[e']))
    && r.bodies == b.bodies && r.entBodyHandles == b.entBodyHandles
    && r.ground == b.ground && r.nextBody == b.nextBody
  }

  /** Inserting a collider keeps the bookkeeping consistent and touches only
      `e`'s collider. */
  lemma InsertColliderFacts(b: Bridge, e: Entity, t: Game.TransformComponent, c: ColliderComponent)
    requires Valid(b)
    ensures Valid(InsertCollider(b, e, t, c))
    ensures ColliderInserted(b, InsertCollider(b, e, t, c), e, t, c)
  {
  }

  /** Removing `e`'s collider deletes both its entry and the collider; an entity
      without one changes nothing. */
  function RemoveCollider(b: Bridge, e: Entity): (r: Bridge)
    requires Valid(b)
    ensures Valid(r)
    ensures r.entColliderHandles == b.entColliderHandles - {e}
    ensures forall h :: h in r.colliders <==> h in b.colliders && b.colliders[h].owner != e
    ensures forall h :: h in r.colliders ==> r.colliders[h] == b.colliders[h]
    ensures r.bodies == b.bodies && r.entBodyHandles == b.entBodyHandles
  {
    if e in b.entColliderHandles then
      b.(colliders := b.colliders - {b.entColliderHandles[e]}, entColliderHandles := b.entColliderHandles - {e})
    else b
  }

  /** `PhysicsState`: the interpolation fraction and the bridge bookkeeping. */
  class PhysicsState {
    var lerp: real
    var bodies: map<BodyHandle, Body>
    var colliders: map<ColliderHandle, Collider>
    var entBodyHandles: map<Entity, BodyHandle>
    var entColliderHandles: map<Entity, ColliderHandle>
    var groundBodyHandle: BodyHandle
    var nextBody: nat
    var nextCollider: nat

    function Snapshot(): Bridge
      reads this
    {
      Bridge(bodies, colliders, entBodyHandles, entColliderHandles, groundBodyHandle, nextBody, nextCollider)
    }

    /** `PhysicsState::new`: the ground body only, interpolation fraction 0. */
    constructor ()
      ensures Snapshot() == NewBridge() && lerp == 0.0
    {
      lerp := 0.0;
      bodies := map[0 := Ground];
      colliders := map[];
      entBodyHandles := map[];
      entColliderHandles := map[];
      groundBodyHandle := 0;
      nextBody := 1;
      nextCollider := 0;
    }

    method InsertRigidbody(e: Entity, position: Vec2, velocity: Velocity, maxLinearVelocity: real)
      returns (h: BodyHandle)
      requires Valid(Snapshot())
      modifies this
      ensures Snapshot() == InsertBody(old(Snapshot()), e, position, velocity, maxLinearVelocity)
      ensures e in entBodyHandles && h == entBodyHandles[e]
      ensures lerp == old(lerp)
    {
      if e in entBodyHandles {
        var stale := entBodyHandles[e];
        entBodyHandles := entBodyHandles - {e};
        bodies := bodies - {stale};
      }
      h := nextBody;
      nextBody := nextBody + 1;
      bodies := bodies[h := RigidBody(position, velocity, maxLinearVelocity, e)];
      entBodyHandles := entBodyHandles[e := h];
    }

    method SetVelocity(e: Entity, velocity: Velocity)
      requires Valid(Snapshot())
      modifies this
      ensures Snapshot() == PushVelocity(old(Snapshot()), e, velocity)
      ensures Valid(Snapshot())
      ensures e in entBodyHandles ==>
        bodies == old(bodies)[entBodyHandles[e] := old(bodies)[entBodyHandles[e]].(velocity := velocity)]
      ensures e !in entBodyHandles ==> bodies == old(bodies)
      ensures entBodyHandles == old(entBodyHandles) && groundBodyHandle == old(groundBodyHandle)
      ensures colliders == old(colliders) && entColliderHandles == old(entColliderHandles)
      ensures lerp == old(lerp)
    {
      if e in entBodyHandles {
        var h := entBodyHandles[e];
        var rb := bodies[h];
        if rb.velocity != velocity {
          bodies := bodies[h := rb.(velocity := velocity)];
        }
      }
    }

    method SetPosition(e: Entity, position: Vec2)
      requires Valid(Snapshot())
      modifies this
      ensures Snapshot() == PushPosition(old(Snapshot()), e, position)
      ensures Valid(Snapshot())
      ensures e in entBodyHandles ==>
        bodies == old(bodies)[entBodyHandles[e] := old(bodies)[entBodyHandles[e]].(position := position)]
      ensures e !in entBodyHandles ==> bodies == old(bodies)
      ensures entBodyHandles == old(entBodyHandles) && groundBodyHandle == old(groundBodyHandle)
      ensures colliders == old(colliders) && entColliderHandles == old(entColliderHandles)
      ensures lerp == old(lerp)
    {
      if e in entBodyHandles {
        var h := entBodyHandles[e];
        bodies := bodies[h := bodies[h].(position := position)];
      }
    }

    method RemoveRigidbody(e: Entity)
      requires Valid(Snapshot())
      modifies this
      ensures Snapshot() == RemoveBody(old(Snapshot()), e)
      ensures lerp == old(lerp)
    {
      if e in entBodyHandles {
        var h := entBodyHandles[e];
        entBodyHandles := entBodyHandles - {e};
        bodies := bodies - {h};
      }
    }

    method AddCollider(e: Entity, t: Game.TransformComponent, c: ColliderComponent)
      requires Valid(Snapshot())
      modifies this
      ensures Snapshot() == InsertCollider(old(Snapshot()), e, t, c)
      ensures lerp == old(lerp)
    {
      if e in entColliderHandles {
        var stale := entColliderHandles[e];
        entColliderHandles := entColliderHandles - {e};
        colliders := colliders - {stale};
      }
      var parent, translation;
      if e in entBodyHandles {
        parent, translation := entBodyHandles[e], Zero;
      } else {
        parent, translation := groundBodyHandle, Scale(1.0 / 32.0, Vec2(t.posX, t.posY));
      }
      var h := nextCollider;
      nextCollider := nextCollider + 1;
      colliders := colliders[h := Collider(parent, translation, c.shape, c.groups, e)];
      entColliderHandles := entColliderHandles[e := h];
    }

    method DropCollider(e: Entity)
      requires Valid(Snapshot())
      modifies this
      ensures Snapshot() == RemoveCollider(old(Snapshot()), e)
      ensures lerp == old(lerp)
    {
      if e in entColliderHandles {
        var h := entColliderHandles[e];
        entColliderHandles := entColliderHandles - {e};
        colliders := colliders - {h};
      }
    }
  }

  // ---------------------------------------------------------------------------
  // Component change events

  datatype EventKind = Inserted | Modified | Removed

  /** A storage change notification: what happened to which entity's component. */
  datatype ComponentEvent = ComponentEvent(kind: EventKind, id: Entity)

  /** The ids of the events whose kind is one of `kinds`. */
  function Classified(events: seq<ComponentEvent>, kinds: set<EventKind>): set<Entity>
  {
    if events == [] then {}
    else
      var last := events[|events| - 1];
      Classified(events[..|events| - 1], kinds) + (if last.kind in kinds then {last.id} else {})
  }

  /** An id is classified exactly when some event of one of those kinds names it. */
  lemma {:induction false} ClassifiedMembers(events: seq<ComponentEvent>, kinds: set<EventKind>, e: Entity)
    ensures e in Classified(events, kinds) <==>
      exists i :: 0 <= i < |events| && events[i].id == e && events[i].kind in kinds
  {
    if events != [] {
      var n := |events| - 1;
      var prefix := events[..n];
      ClassifiedMembers(prefix, kinds, e);
      if e in Classified(events, kinds) {
        if e in Classified(prefix, kinds) {
          var i :| 0 <= i < |prefix| && prefix[i].id == e && prefix[i].kind in kinds;
          assert events[i] == prefix[i];
        } else {
          assert events[n].id == e && events[n].kind in kinds;
        }
      }
      if exists i :: 0 <= i < |events| && events[i].id == e && events[i].kind in kinds {
        var i :| 0 <= i < |events| && events[i].id == e && events[i].kind in kinds;
        if i < n {
          assert prefix[i] == events[i];
        }
      }
    }
  }

  // ---------------------------------------------------------------------------
  // The four phases of `RigidbodySendPhysicsSystem::run`, each over a join

  /** `e`'s body is the one created from transform `t` and component `rb`, and
      the component now holds its handle. */
  predicate InsertedFrom(b: Bridge, e: Entity, t: Game.TransformComponent,
                         rb: RigidbodyComponent, rb': RigidbodyComponent)
  {
    && e in b.entBodyHandles && b.entBodyHandles[e] in b.bodies
    && b.bodies[b.entBodyHandles[e]] == RigidBody(BodyPosition(t), rb.velocity, rb.maxLinearVelocity, e)
    && rb' == rb.(handle := Some(b.entBodyHandles[e]))
  }

  /** `e`'s body entry, and the body it names, are the same in both states. */
  predicate SameBody(b1: Bridge, b2: Bridge, e: Entity)
  {
    && (e in b1.entBodyHandles <==> e in b2.entBodyHandles)
    && (e in b1.entBodyHandles ==>
          var h := b1.entBodyHandles[e];
          && b2.entBodyHandles[e] == h
          && (h in b1.bodies <==> h in b2.bodies)
          && (h in b1.bodies ==> b2.bodies[h] == b1.bodies[h]))
  }

  /** Inserted rigidbodies: each entity of the join gets a fresh body at its
      position in world units, with its component's velocity and speed cap, and
      its component records the handle; every other entity's body is untouched. */
  method InsertBodies(physics: PhysicsState, join: set<Entity>,
                      transforms: map<Entity, Game.TransformComponent>,
                      rigidbodies: map<Entity, RigidbodyComponent>)
    returns (rigidbodies': map<Entity, RigidbodyComponent>)
    requires Valid(physics.Snapshot())
    requires forall e :: e in join ==> e in transforms && e in rigidbodies
    modifies physics
    ensures Valid(physics.Snapshot())
    ensures rigidbodies'.Keys == rigidbodies.Keys
    ensures forall e :: e in join ==>
      InsertedFrom(physics.Snapshot(), e, transforms[e], rigidbodies[e], rigidbodies'[e])
    ensures forall e :: e !in join ==> SameBody(old(physics.Snapshot()), physics.Snapshot(), e)
    ensures forall e :: e in rigidbodies && e !in join ==> rigidbodies'[e] == rigidbodies[e]
    ensures physics.colliders == old(physics.colliders)
    ensures physics.entColliderHandles == old(physics.entColliderHandles)
    ensures physics.groundBodyHandle == old(physics.groundBodyHandle) && physics.lerp == old(physics.lerp)
  {
    rigidbodies' := rigidbodies;
    var todo := join;
    while todo != {}
      invariant todo <= join
      invariant BodiesInserted(old(physics.Snapshot()), physics.Snapshot(), join - todo, transforms, rigidbodies, rigidbodies')
      invariant physics.lerp == old(physics.lerp)
      decreases todo
    {
      var e :| e in todo;
      rigidbodies' := InsertOneBody(physics, old(physics.Snapshot()), join - todo, e, transforms, rigidbodies, rigidbodies');
      VisitOne(join, todo, e);
      todo := todo - {e};
    }
    assert join - todo == join;
  }

  /** One turn of the insertion loop: `e` gets a fresh body built from its
      transform and component, and its component records the handle. */
  method InsertOneBody(physics: PhysicsState, ghost b0: Bridge, ghost done: set<Entity>, e: Entity,
                       transforms: map<Entity, Game.TransformComponent>,
                       rigidbodies: map<Entity, RigidbodyComponent>,
                       rigidbodies': map<Entity, RigidbodyComponent>)
    returns (rigidbodies'': map<Entity, RigidbodyComponent>)
    requires e in transforms && e in rigidbodies && e !in done
    requires BodiesInserted(b0, physics.Snapshot(), done, transforms, rigidbodies, rigidbodies')
    modifies physics
    ensures BodiesInserted(b0, physics.Snapshot(), done + {e}, transforms, rigidbodies, rigidbodies'')
    ensures physics.lerp == old(physics.lerp)
  {
    var transform := transforms[e];
    var rigidbody := rigidbodies'[e];
    BodiesInsertedStep(b0, physics.Snapshot(), done, e, transforms, rigidbodies, rigidbodies');
    var h := physics.InsertRigidbody(e, BodyPosition(transform), rigidbody.velocity, rigidbody.maxLinearVelocity);
    rigidbodies'' := rigidbodies'[e := rigidbody.(handle := Some(h))];
  }

  /** What `InsertBodies` has done once the entities of `done` are visited:
      each has a fresh body recorded in its component, every other entity's body
      and component are untouched, and the colliders are unchanged. */
  ghost predicate BodiesInserted(b0: Bridge, b: Bridge, done: set<Entity>,
                                 transforms: map<Entity, Game.TransformComponent>,
                                 rigidbodies: map<Entity, RigidbodyComponent>,
                                 rigidbodies': map<Entity, RigidbodyComponent>)
  {
    && Valid(b)
    && rigidbodies'.Keys == rigidbodies.Keys
    && (forall e :: e in done ==>
          e in transforms && e in rigidbodies && InsertedFrom(b, e, transforms[e], rigidbodies[e], rigidbodies'[e]))
    && (forall e :: e !in done ==> SameBody(b0, b, e))
    && (forall e :: e in rigidbodies && e !in done ==> rigidbodies'[e] == rigidbodies[e])
    && b.colliders == b0.colliders && b.entColliderHandles == b0.entColliderHandles && b.ground == b0.ground
  }

  lemma BodiesInsertedStep(b0: Bridge, b: Bridge, done: set<Entity>, e: Entity,
                           transforms: map<Entity, Game.TransformComponent>,
                           rigidbodies: map<Entity, RigidbodyComponent>,
                           rigidbodies': map<Entity, RigidbodyComponent>)
    requires e in transforms && e in rigidbodies && e !in done
    requires BodiesInserted(b0, b, done, transforms, rigidbodies, rigidbodies')
    ensures var b' := InsertBody(b, e, BodyPosition(transforms[e]), rigidbodies[e].velocity, rigidbodies[e].maxLinearVelocity);
      && e in b'.entBodyHandles
      && BodiesInserted(b0, b', done + {e}, transforms, rigidbodies,
                        rigidbodies'[e := rigidbodies[e].(handle := Some(b'.entBodyHandles[e]))])
  {
    var r := InsertBody(b, e, BodyPosition(transforms[e]), rigidbodies[e].velocity, rigidbodies[e].maxLinearVelocity);
    InsertBodyFacts(b, e, BodyPosition(transforms[e]), rigidbodies[e].velocity, rigidbodies[e].maxLinearVelocity);
    InsertKeepsOtherBodies(b0, b, done, e, BodyPosition(transforms[e]), rigidbodies[e].velocity, rigidbodies[e].maxLinearVelocity);
    BodiesInsertedExtend(b0, b, r, done, e, transforms, rigidbodies, rigidbodies',
                         rigidbodies[e].(handle := Some(r.entBodyHandles[e])));
  }

  /** The loop's bookkeeping extends by one entity once `r` keeps every other
      body of `b` and holds `e`'s new body, recorded in `rb''`. */
  lemma BodiesInsertedExtend(b0: Bridge, b: Bridge, r: Bridge, done: set<Entity>, e: Entity,
                             transforms: map<Entity, Game.TransformComponent>,
                             rigidbodies: map<Entity, RigidbodyComponent>,
                             rigidbodies': map<Entity, RigidbodyComponent>,
                             rb'': RigidbodyComponent)
    requires e in transforms && e in rigidbodies && e !in done
    requires BodiesInserted(b0, b, done, transforms, rigidbodies, rigidbodies')
    requires Valid(r) && InsertedFrom(r, e, transforms[e], rigidbodies[e], rb'')
    requires forall e' :: e' != e ==> SameBody(b, r, e')
    requires forall e' :: e' !in done + {e} ==> SameBody(b0, r, e')
    requires r.colliders == b.colliders && r.entColliderHandles == b.entColliderHandles && r.ground == b.ground
    ensures BodiesInserted(b0, r, done + {e}, transforms, rigidbodies, rigidbodies'[e := rb''])
  {
    var rigidbodies'' := rigidbodies'[e := rb''];
    forall e' | e' in done
      ensures InsertedFrom(r, e', transforms[e'], rigidbodies[e'], rigidbodies''[e'])
    {
      InsertedFromKept(b, r, e', transforms[e'], rigidbodies[e'], rigidbodies'[e']);
    }
  }

  /** A body inserted earlier stays inserted while its entry and body are kept. */
  lemma InsertedFromKept(b: Bridge, r: Bridge, e: Entity, t: Game.TransformComponent,
                         rb: RigidbodyComponent, rb': RigidbodyComponent)
    requires InsertedFrom(b, e, t, rb, rb') && SameBody(b, r, e)
    ensures InsertedFrom(r, e, t, rb, rb')
  {
  }

  /** Inserting `e`'s body leaves every other entity's body as it was. */
  lemma InsertKeepsOtherBody(b: Bridge, e: Entity, position: Vec2, velocity: Velocity, maxLinearVelocity: real, e': Entity)
    requires Valid(b) && e' != e
    ensures SameBody(b, InsertBody(b, e, position, velocity, maxLinearVelocity), e')
  {
  }

  /** Inserting `e`'s body into `b` keeps every other entity's body as it was,
      both since `b` and since `b0`. */
  lemma InsertKeepsOtherBodies(b0: Bridge, b: Bridge, done: set<Entity>, e: Entity,
                                position: Vec2, velocity: Velocity, maxLinearVelocity: real)
    requires Valid(b) && e !in done
    requires forall e' :: e' !in done ==> SameBody(b0, b, e')
    ensures var r := InsertBody(b, e, position, velocity, maxLinearVelocity);
      && (forall e' :: e' != e ==> SameBody(b, r, e'))
      && (forall e' :: e' !in done + {e} ==> SameBody(b0, r, e'))
  {
    var r := InsertBody(b, e, position, velocity, maxLinearVelocity);
    forall e' | e' != e
      ensures SameBody(b, r, e')
    {
      InsertKeepsOtherBody(b, e, position, velocity, maxLinearVelocity, e');
    }
    forall e' | e' !in done + {e}
      ensures SameBody(b0, r, e')
    {
      SameBodyTrans(b0, b, r, e');
    }
  }

  lemma SameBodyTrans(b0: Bridge, b1: Bridge, b2: Bridge, e: Entity)
    requires SameBody(b0, b1, e) && SameBody(b1, b2, e)
    ensures SameBody(b0, b2, e)
  {
  }

  /** A body after the entities of `done` have had their components' velocities
      pushed. */
  function VelocityPushed(body: Body, done: set<Entity>, rigidbodies: map<Entity, RigidbodyComponent>): Body
    requires done <= rigidbodies.Keys
  {
    if body.RigidBody? && body.owner in done then body.(velocity := rigidbodies[body.owner].velocity) else body
  }

  /** One step of `PushVelocities`: pushing `e`'s velocity extends the set of
      entities whose bodies carry their component's velocity by `e`. */
  lemma VelocityPushedStep(original: map<BodyHandle, Body>, before: Bridge, after: map<BodyHandle, Body>,
                           e: Entity, done: set<Entity>, rigidbodies: map<Entity, RigidbodyComponent>)
    requires Valid(before) && done <= rigidbodies.Keys && e in rigidbodies && e !in done
    requires before.bodies.Keys == original.Keys
    requires forall h :: h in before.bodies ==> before.bodies[h] == VelocityPushed(original[h], done, rigidbodies)
    requires e in before.entBodyHandles ==>
      after == before.bodies[before.entBodyHandles[e] :=
                             before.bodies[before.entBodyHandles[e]].(velocity := rigidbodies[e].velocity)]
    requires e !in before.entBodyHandles ==> after == before.bodies
    ensures after.Keys == original.Keys
    ensures forall h :: h in after ==> after[h] == VelocityPushed(original[h], done + {e}, rigidbodies)
  {
    forall h | h in after
      ensures after[h] == VelocityPushed(original[h], done + {e}, rigidbodies)
    {
      assert before.bodies[h] == VelocityPushed(original[h], done, rigidbodies);
      if OwnedBy(original[h], e) {
        assert h != before.ground;
      }
    }
  }

  /** `b` is `b0` with the bodies of the entities of `done` carrying their
      components' velocities. */
  predicate VelocitiesPushed(b0: Bridge, b: Bridge, done: set<Entity>, rigidbodies: map<Entity, RigidbodyComponent>)
    requires done <= rigidbodies.Keys
  {
    && Valid(b)
    && b.entBodyHandles == b0.entBodyHandles && b.bodies.Keys == b0.bodies.Keys
    && (forall h :: h in b.bodies ==> b.bodies[h] == VelocityPushed(b0.bodies[h], done, rigidbodies))
    && b.colliders == b0.colliders && b.entColliderHandles == b0.entColliderHandles && b.ground == b0.ground
  }

  lemma VelocitiesPushedStep(b0: Bridge, b: Bridge, e: Entity, done: set<Entity>, rigidbodies: map<Entity, RigidbodyComponent>)
    requires done <= rigidbodies.Keys && e in rigidbodies && e !in done
    requires VelocitiesPushed(b0, b, done, rigidbodies)
    ensures VelocitiesPushed(b0, PushVelocity(b, e, rigidbodies[e].velocity), done + {e}, rigidbodies)
  {
    VelocityPushedStep(b0.bodies, b, PushVelocity(b, e, rigidbodies[e].velocity).bodies, e, done, rigidbodies);
  }

  /** Modified rigidbodies: each body of an entity of the join takes its
      component's velocity; entities without a body change nothing. */
  method PushVelocities(physics: PhysicsState, join: set<Entity>, rigidbodies: map<Entity, RigidbodyComponent>)
    requires Valid(physics.Snapshot())
    requires join <= rigidbodies.Keys
    modifies physics
    ensures Valid(physics.Snapshot())
    ensures physics.entBodyHandles == old(physics.entBodyHandles)
    ensures physics.bodies.Keys == old(physics.bodies).Keys
    ensures forall h :: h in physics.bodies ==>
      physics.bodies[h] == VelocityPushed(old(physics.bodies)[h], join, rigidbodies)
    ensures physics.colliders == old(physics.colliders)
    ensures physics.entColliderHandles == old(physics.entColliderHandles)
    ensures physics.groundBodyHandle == old(physics.groundBodyHandle) && physics.lerp == old(physics.lerp)
  {
    var todo := join;
    while todo != {}
      invariant todo <= join && join - todo <= rigidbodies.Keys
      invariant VelocitiesPushed(old(physics.Snapshot()), physics.Snapshot(), join - todo, rigidbodies)
      invariant physics.lerp == old(physics.lerp)
      decreases todo
    {
      var e :| e in todo;
      VelocitiesPushedStep(old(physics.Snapshot()), physics.Snapshot(), e, join - todo, rigidbodies);
      physics.SetVelocity(e, rigidbodies[e].velocity);
      VisitOne(join, todo, e);
      todo := todo - {e};
    }
    assert join - todo == join;
  }

  /** `b` is `b0` without the entries and bodies of the entities of `done`. */
  ghost predicate BodiesRemoved(b0: Bridge, b: Bridge, done: set<Entity>)
  {
    && Valid(b)
    && b.entBodyHandles == b0.entBodyHandles - done
    && (forall h :: h in b.bodies <==> h in b0.bodies && !(b0.bodies[h].RigidBody? && b0.bodies[h].owner in done))
    && (forall h :: h in b.bodies ==> b.bodies[h] == b0.bodies[h])
    && b.colliders == b0.colliders && b.entColliderHandles == b0.entColliderHandles && b.ground == b0.ground
  }

  lemma BodiesRemovedStep(b0: Bridge, b: Bridge, e: Entity, done: set<Entity>)
    requires BodiesRemoved(b0, b, done)
    ensures BodiesRemoved(b0, RemoveBody(b, e), done + {e})
  {
  }

  /** Removed rigidbodies: each entity of the join loses its entry and its body;
      every other body stays as it was. */
  method RemoveBodies(physics: PhysicsState, join: set<Entity>)
    requires Valid(physics.Snapshot())
    modifies physics
    ensures Valid(physics.Snapshot())
    ensures physics.entBodyHandles == old(physics.entBodyHandles) - join
    ensures forall h :: h in physics.bodies <==>
      h in old(physics.bodies) && !(old(physics.bodies)[h].RigidBody? && old(physics.bodies)[h].owner in join)
    ensures forall h :: h in physics.bodies ==> physics.bodies[h] == old(physics.bodies)[h]
    ensures physics.colliders == old(physics.colliders)
    ensures physics.entColliderHandles == old(physics.entColliderHandles)
    ensures physics.groundBodyHandle == old(physics.groundBodyHandle) && physics.lerp == old(physics.lerp)
  {
    var todo := join;
    while todo != {}
      invariant todo <= join
      invariant BodiesRemoved(old(physics.Snapshot()), physics.Snapshot(), join - todo)
      invariant physics.lerp == old(physics.lerp)
      decreases todo
    {
      var e :| e in todo;
      BodiesRemovedStep(old(physics.Snapshot()), physics.Snapshot(), e, join - todo);
      physics.RemoveRigidbody(e);
      VisitOne(join, todo, e);
      todo := todo - {e};
    }
    assert join - todo == join;
  }

  /** A body after the entities of `done` have had their transforms pushed. */
  function PositionPushed(body: Body, done: set<Entity>, transforms: map<Entity, Game.TransformComponent>): Body
    requires done <= transforms.Keys
  {
    if body.RigidBody? && body.owner in done then body.(position := BodyPosition(transforms[body.owner])) else body
  }

  /** `b` is `b0` with the bodies of the entities of `done` moved to their
      transforms' positions, and nothing else changed. */
  ghost predicate PositionsPushed(b0: Bridge, b: Bridge, done: set<Entity>, transforms: map<Entity, Game.TransformComponent>)
    requires done <= transforms.Keys
  {
    && Valid(b)
    && b.entBodyHandles == b0.entBodyHandles && b.bodies.Keys == b0.bodies.Keys
    && (forall h :: h in b.bodies ==> b.bodies[h] == PositionPushed(b0.bodies[h], done, transforms))
    && b.colliders == b0.colliders && b.entColliderHandles == b0.entColliderHandles
    && b.ground == b0.ground
  }

  /** One step of `PushPositions`: moving `e`'s body extends the set of entities
      whose bodies sit at their transform's position by `e`. */
  lemma PositionPushedStep(b0: Bridge, before: Bridge, e: Entity, done: set<Entity>,
                           transforms: map<Entity, Game.TransformComponent>)
    requires done <= transforms.Keys && e in transforms && e !in done
    requires Valid(before) && PositionsPushed(b0, before, done, transforms)
    ensures PositionsPushed(b0, PushPosition(before, e, BodyPosition(transforms[e])), done + {e}, transforms)
  {
    var after := PushPosition(before, e, BodyPosition(transforms[e]));
    forall h | h in after.bodies
      ensures after.bodies[h] == PositionPushed(b0.bodies[h], done + {e}, transforms)
    {
      assert before.bodies[h] == PositionPushed(b0.bodies[h], done, transforms);
      if OwnedBy(b0.bodies[h], e) {
        assert h != before.ground;
      }
    }
  }

  /** Modified transforms: each body of an entity of the join is moved to the
      transform's position in world units; entities without a body change nothing. */
  method PushPositions(physics: PhysicsState, join: set<Entity>, transforms: map<Entity, Game.TransformComponent>)
    requires Valid(physics.Snapshot())
    requires join <= transforms.Keys
    modifies physics
    ensures Valid(physics.Snapshot())
    ensures physics.entBodyHandles == old(physics.entBodyHandles)
    ensures physics.bodies.Keys == old(physics.bodies).Keys
    ensures forall h :: h in physics.bodies ==>
      physics.bodies[h] == PositionPushed(old(physics.bodies)[h], join, transforms)
    ensures physics.colliders == old(physics.colliders)
    ensures physics.entColliderHandles == old(physics.entColliderHandles)
    ensures physics.groundBodyHandle == old(physics.groundBodyHandle) && physics.lerp == old(physics.lerp)
  {
    var todo := join;
    while todo != {}
      invariant todo <= join
      invariant Valid(physics.Snapshot())
      invariant PositionsPushed(old(physics.Snapshot()), physics.Snapshot(), join - todo, transforms)
      invariant physics.lerp == old(physics.lerp)
      decreases todo
    {
      var e :| e in todo;
      var transform := transforms[e];
      PositionPushedStep(old(physics.Snapshot()), physics.Snapshot(), e, join - todo, transforms);
      physics.SetPosition(e, BodyPosition(transform));
      VisitOne(join, todo, e);
      todo := todo - {e};
    }
    assert join - todo == join;
  }

  /** `e`'s collider entry, and the collider it names, are the same in both states. */
  predicate SameCollider(b1: Bridge, b2: Bridge, e: Entity)
  {
    && (e in b1.entColliderHandles <==> e in b2.entColliderHandles)
    && (e in b1.entColliderHandles ==>
          var h := b1.entColliderHandles[e];
          && b2.entColliderHandles[e] == h
          && (h in b1.colliders <==> h in b2.colliders)
          && (h in b1.colliders ==> b2.colliders[h] == b1.colliders[h]))
  }

  /** Inserted colliders: each entity of the join gets a fresh collider, parented
      as `ColliderFor` says; every other entity's collider is untouched and no body
      changes. */
  method InsertColliders(physics: PhysicsState, join: set<Entity>,
                         transforms: map<Entity, Game.TransformComponent>,
                         colliders: map<Entity, ColliderComponent>)
    requires Valid(physics.Snapshot())
    requires forall e :: e in join ==> e in transforms && e in colliders
    modifies physics
    ensures Valid(physics.Snapshot())
    ensures forall e :: e in join ==>
      && e in physics.entColliderHandles && physics.entColliderHandles[e] in physics.colliders
      && physics.colliders[physics.entColliderHandles[e]] == ColliderFor(old(physics.Snapshot()), e, transforms[e], colliders[e])
    ensures forall e :: e !in join ==> SameCollider(old(physics.Snapshot()), physics.Snapshot(), e)
    ensures physics.bodies == old(physics.bodies) && physics.entBodyHandles == old(physics.entBodyHandles)
    ensures physics.groundBodyHandle == old(physics.groundBodyHandle) && physics.lerp == old(physics.lerp)
  {
    var todo := join;
    while todo != {}
      invariant todo <= join
      invariant CollidersInserted(old(physics.Snapshot()), physics.Snapshot(), join - todo, transforms, colliders)
      invariant physics.lerp == old(physics.lerp)
      decreases todo
    {
      var e :| e in todo;
      CollidersInsertedStep(old(physics.Snapshot()), physics.Snapshot(), join - todo, e, transforms, colliders);
      physics.AddCollider(e, transforms[e], colliders[e]);
      VisitOne(join, todo, e);
      todo := todo - {e};
    }
    assert join - todo == join;
  }

  /** What `InsertColliders` has done once the entities of `done` are visited:
      each has a fresh collider parented as `ColliderFor` says in the state before
      the pass, every other entity's collider is untouched, and no body changes. */
  ghost predicate CollidersInserted(b0: Bridge, b: Bridge, done: set<Entity>,
                                    transforms: map<Entity, Game.TransformComponent>,
                                    colliders: map<Entity, ColliderComponent>)
  {
    && Valid(b)
    && (forall e :: e in done ==>
          && e in transforms && e in colliders
          && e in b.entColliderHandles && b.entColliderHandles[e] in b.colliders
          && b.colliders[b.entColliderHandles[e]] == ColliderFor(b0, e, transforms[e], colliders[e]))
    && (forall e :: e !in done ==> SameCollider(b0, b, e))
    && b.bodies == b0.bodies && b.entBodyHandles == b0.entBodyHandles && b.ground == b0.ground
  }

  lemma CollidersInsertedStep(b0: Bridge, b: Bridge, done: set<Entity>, e: Entity,
                              transforms: map<Entity, Game.TransformComponent>,
                              colliders: map<Entity, ColliderComponent>)
    requires e in transforms && e in colliders && e !in done
    requires CollidersInserted(b0, b, done, transforms, colliders)
    ensures CollidersInserted(b0, InsertCollider(b, e, transforms[e], colliders[e]), done + {e}, transforms, colliders)
  {
    var r := InsertCollider(b, e, transforms[e], colliders[e]);
    InsertColliderFacts(b, e, transforms[e], colliders[e]);
    assert ColliderFor(b, e, transforms[e], colliders[e]) == ColliderFor(b0, e, transforms[e], colliders[e]);
    forall e' | e' != e
      ensures SameCollider(b, r, e')
    {
      InsertKeepsOtherCollider(b, e, transforms[e], colliders[e], e');
    }
    forall e' | e' !in done + {e}
      ensures SameCollider(b0, r, e')
    {
      SameColliderTrans(b0, b, r, e');
    }
    forall e' | e' in done
      ensures e' in r.entColliderHandles && r.entColliderHandles[e'] in r.colliders
      ensures r.colliders[r.entColliderHandles[e']] == ColliderFor(b0, e', transforms[e'], colliders[e'])
    {
      assert SameCollider(b, r, e');
    }
  }

  /** Inserting `e`'s collider leaves every other entity's collider as it was. */
  lemma InsertKeepsOtherCollider(b: Bridge, e: Entity, t: Game.TransformComponent, c: ColliderComponent, e': Entity)
    requires Valid(b) && e' != e
    ensures SameCollider(b, InsertCollider(b, e, t, c), e')
  {
  }

  lemma SameColliderTrans(b0: Bridge, b1: Bridge, b2: Bridge, e: Entity)
    requires SameCollider(b0, b1, e) && SameCollider(b1, b2, e)
    ensures SameCollider(b0, b2, e)
  {
  }

  /** `b` is `b0` without the entries and colliders of the entities of `done`. */
  ghost predicate CollidersRemoved(b0: Bridge, b: Bridge, done: set<Entity>)
  {
    && Valid(b)
    && b.entColliderHandles == b0.entColliderHandles - done
    && (forall h :: h in b.colliders <==> h in b0.colliders && b0.colliders[h].owner !in done)
    && (forall h :: h in b.colliders ==> b.colliders[h] == b0.colliders[h])
    && b.bodies == b0.bodies && b.entBodyHandles == b0.entBodyHandles && b.ground == b0.ground
  }

  lemma CollidersRemovedStep(b0: Bridge, b: Bridge, e: Entity, done: set<Entity>)
    requires CollidersRemoved(b0, b, done)
    ensures CollidersRemoved(b0, RemoveCollider(b, e), done + {e})
  {
  }

  /** Removed colliders: each entity of the join loses its entry and its
      collider; every other collider stays as it was. */
  method RemoveColliders(physics: PhysicsState, join: set<Entity>)
    requires Valid(physics.Snapshot())
    modifies physics
    ensures Valid(physics.Snapshot())
    ensures physics.entColliderHandles == old(physics.entColliderHandles) - join
    ensures forall h :: h in physics.colliders <==> h in old(physics.colliders) && old(physics.colliders)[h].owner !in join
    ensures forall h :: h in physics.colliders ==> physics.colliders[h] == old(physics.colliders)[h]
    ensures physics.bodies == old(physics.bodies) && physics.entBodyHandles == old(physics.entBodyHandles)
    ensures physics.groundBodyHandle == old(physics.groundBodyHandle) && physics.lerp == old(physics.lerp)
  {
    var todo := join;
    while todo != {}
      invariant todo <= join
      invariant CollidersRemoved(old(physics.Snapshot()), physics.Snapshot(), join - todo)
      invariant physics.lerp == old(physics.lerp)
      decreases todo
    {
      var e :| e in todo;
      CollidersRemovedStep(old(physics.Snapshot()), physics.Snapshot(), e, join - todo);
      physics.DropCollider(e);
      VisitOne(join, todo, e);
      todo := todo - {e};
    }
    assert join - todo == join;
  }

  // ---------------------------------------------------------------------------
  // The send systems

  /** Pushing velocities leaves the body of every entity outside the join as it
      was. */
  lemma PushKeepsOtherBodies(b0: Bridge, b: Bridge, done: set<Entity>, rigidbodies: map<Entity, RigidbodyComponent>)
    requires done <= rigidbodies.Keys && Valid(b0) && VelocitiesPushed(b0, b, done, rigidbodies)
    ensures forall e :: e !in done ==> SameBody(b0, b, e)
  {
    forall e | e !in done
      ensures SameBody(b0, b, e)
    {
      if e in b0.entBodyHandles {
        assert OwnedBy(b0.bodies[b0.entBodyHandles[e]], e);
      }
    }
  }

  /** A freshly inserted body keeps its content when the velocity pushed onto it
      is the one it was created with. */
  lemma PushKeepsInserted(b0: Bridge, b: Bridge, done: set<Entity>, rigidbodies': map<Entity, RigidbodyComponent>,
                          e: Entity, t: Game.TransformComponent, rb: RigidbodyComponent)
    requires done <= rigidbodies'.Keys && VelocitiesPushed(b0, b, done, rigidbodies')
    requires e in rigidbodies' && InsertedFrom(b0, e, t, rb, rigidbodies'[e])
    requires rigidbodies'[e].velocity == rb.velocity
    ensures InsertedFrom(b, e, t, rb, rigidbodies'[e])
  {
  }

  /** Inserting and then pushing velocities: the inserted bodies keep the
      content they were created with, and every entity outside both joins keeps
      its body. */
  lemma InsertPushFrames(b0: Bridge, b1: Bridge, b2: Bridge, insertJoin: set<Entity>, modifyJoin: set<Entity>,
                         transforms: map<Entity, Game.TransformComponent>,
                         rigidbodies: map<Entity, RigidbodyComponent>,
                         rigidbodies': map<Entity, RigidbodyComponent>)
    requires insertJoin <= transforms.Keys * rigidbodies.Keys && modifyJoin <= rigidbodies'.Keys
    requires rigidbodies'.Keys == rigidbodies.Keys
    requires forall e :: e in rigidbodies ==> rigidbodies'[e].(handle := rigidbodies[e].handle) == rigidbodies[e]
    requires Valid(b1)
    requires forall e :: e in insertJoin ==> InsertedFrom(b1, e, transforms[e], rigidbodies[e], rigidbodies'[e])
    requires forall e :: e !in insertJoin ==> SameBody(b0, b1, e)
    requires VelocitiesPushed(b1, b2, modifyJoin, rigidbodies')
    ensures forall e :: e in insertJoin ==> InsertedFrom(b2, e, transforms[e], rigidbodies[e], rigidbodies'[e])
    ensures forall e :: e !in insertJoin + modifyJoin ==> SameBody(b0, b2, e)
  {
    PushKeepsOtherBodies(b1, b2, modifyJoin, rigidbodies');
    forall e | e in insertJoin
      ensures InsertedFrom(b2, e, transforms[e], rigidbodies[e], rigidbodies'[e])
    {
      assert rigidbodies'[e].velocity == rigidbodies'[e].(handle := rigidbodies[e].handle).velocity;
      PushKeepsInserted(b1, b2, modifyJoin, rigidbodies', e, transforms[e], rigidbodies[e]);
    }
    forall e | e !in insertJoin + modifyJoin
      ensures SameBody(b0, b2, e)
    {
      SameBodyTrans(b0, b1, b2, e);
    }
  }

  /** The four phases together: an inserted body that was not removed keeps the
      content it was created with, and every entity outside the four joins keeps
      its body. */
  lemma SendPhasesFrames(b0: Bridge, mid: Bridge, b: Bridge,
                         insertJoin: set<Entity>, modifyJoin: set<Entity>, removeJoin: set<Entity>, moveJoin: set<Entity>,
                         transforms: map<Entity, Game.TransformComponent>,
                         rigidbodies: map<Entity, RigidbodyComponent>,
                         rigidbodies': map<Entity, RigidbodyComponent>)
    requires insertJoin <= transforms.Keys * rigidbodies.Keys && moveJoin <= transforms.Keys
    requires rigidbodies'.Keys == rigidbodies.Keys
    requires forall e :: e in insertJoin ==> InsertedFrom(mid, e, transforms[e], rigidbodies[e], rigidbodies'[e])
    requires forall e :: e !in insertJoin + modifyJoin ==> SameBody(b0, mid, e)
    requires b.entBodyHandles == mid.entBodyHandles - removeJoin
    requires forall e :: e in b.entBodyHandles ==>
      && b.entBodyHandles[e] in b.bodies && b.entBodyHandles[e] in mid.bodies
      && b.bodies[b.entBodyHandles[e]] == PositionPushed(mid.bodies[b.entBodyHandles[e]], moveJoin, transforms)
    requires forall e :: e !in removeJoin + moveJoin ==> SameBody(mid, b, e)
    ensures forall e :: e in insertJoin && e !in removeJoin ==>
      InsertedFrom(b, e, transforms[e], rigidbodies[e], rigidbodies'[e])
    ensures forall e :: e !in insertJoin + modifyJoin + removeJoin + moveJoin ==> SameBody(b0, b, e)
  {
    forall e | e in insertJoin && e !in removeJoin
      ensures InsertedFrom(b, e, transforms[e], rigidbodies[e], rigidbodies'[e])
    {
      assert InsertedFrom(mid, e, transforms[e], rigidbodies[e], rigidbodies'[e]);
      assert e in b.entBodyHandles;
    }
    forall e | e !in insertJoin + modifyJoin + removeJoin + moveJoin
      ensures SameBody(b0, b, e)
    {
      SameBodyTrans(b0, mid, b, e);
    }
  }

  /** After the velocity phase, every entity of the join that has a body carries
      its component's velocity. */
  lemma VelocitiesPushedHold(b0: Bridge, b: Bridge, done: set<Entity>, rigidbodies: map<Entity, RigidbodyComponent>)
    requires done <= rigidbodies.Keys && Valid(b0) && VelocitiesPushed(b0, b, done, rigidbodies)
    ensures forall e :: e in done && e in b.entBodyHandles ==>
      && b.entBodyHandles[e] in b.bodies && b.bodies[b.entBodyHandles[e]].RigidBody?
      && b.bodies[b.entBodyHandles[e]].velocity == rigidbodies[e].velocity
  {
    forall e | e in done && e in b.entBodyHandles
      ensures && b.entBodyHandles[e] in b.bodies && b.bodies[b.entBodyHandles[e]].RigidBody?
              && b.bodies[b.entBodyHandles[e]].velocity == rigidbodies[e].velocity
    {
      assert OwnedBy(b0.bodies[b0.entBodyHandles[e]], e);
    }
  }

  /** Removing bodies and then moving the rest keeps every remaining entity's
      handle and its body's velocity. */
  lemma RemoveMoveKeepsVelocities(before: Bridge, removed: Bridge, moved: Bridge, gone: set<Entity>,
                                  transformed: set<Entity>, transforms: map<Entity, Game.TransformComponent>)
    requires transformed <= transforms.Keys && Valid(before)
    requires removed.entBodyHandles == before.entBodyHandles - gone
    requires forall h :: h in removed.bodies ==> h in before.bodies && removed.bodies[h] == before.bodies[h]
    requires forall h :: h in before.bodies && !(before.bodies[h].RigidBody? && before.bodies[h].owner in gone) ==>
      h in removed.bodies
    requires moved.entBodyHandles == removed.entBodyHandles && moved.bodies.Keys == removed.bodies.Keys
    requires forall h :: h in moved.bodies ==> moved.bodies[h] == PositionPushed(removed.bodies[h], transformed, transforms)
    ensures forall e :: e in moved.entBodyHandles ==>
      && e in before.entBodyHandles && moved.entBodyHandles[e] == before.entBodyHandles[e]
      && moved.entBodyHandles[e] in moved.bodies && moved.bodies[moved.entBodyHandles[e]].RigidBody?
      && moved.bodies[moved.entBodyHandles[e]].velocity == before.bodies[before.entBodyHandles[e]].velocity
      && moved.bodies[moved.entBodyHandles[e]] == PositionPushed(before.bodies[before.entBodyHandles[e]], transformed, transforms)
  {
    forall e | e in moved.entBodyHandles
      ensures && e in before.entBodyHandles && moved.entBodyHandles[e] == before.entBodyHandles[e]
              && moved.entBodyHandles[e] in moved.bodies && moved.bodies[moved.entBodyHandles[e]].RigidBody?
              && moved.bodies[moved.entBodyHandles[e]].velocity == before.bodies[before.entBodyHandles[e]].velocity
              && moved.bodies[moved.entBodyHandles[e]] == PositionPushed(before.bodies[before.entBodyHandles[e]], transformed, transforms)
    {
      var h := before.entBodyHandles[e];
      assert OwnedBy(before.bodies[h], e) && e !in gone;
      assert h in removed.bodies;
    }
  }

  /** Removing bodies and then moving others leaves the body of every entity
      outside both joins as it was. */
  lemma RemoveMoveKeepsOthers(before: Bridge, removed: Bridge, moved: Bridge, gone: set<Entity>,
                              transformed: set<Entity>, transforms: map<Entity, Game.TransformComponent>)
    requires transformed <= transforms.Keys && Valid(before)
    requires removed.entBodyHandles == before.entBodyHandles - gone
    requires forall h :: h in removed.bodies ==> h in before.bodies && removed.bodies[h] == before.bodies[h]
    requires forall h :: h in before.bodies && !(before.bodies[h].RigidBody? && before.bodies[h].owner in gone) ==>
      h in removed.bodies
    requires moved.entBodyHandles == removed.entBodyHandles && moved.bodies.Keys == removed.bodies.Keys
    requires forall h :: h in moved.bodies ==> moved.bodies[h] == PositionPushed(removed.bodies[h], transformed, transforms)
    ensures forall e :: e !in gone + transformed ==> SameBody(before, moved, e)
  {
    forall e | e !in gone + transformed
      ensures SameBody(before, moved, e)
    {
      if e in before.entBodyHandles {
        var h := before.entBodyHandles[e];
        assert OwnedBy(before.bodies[h], e);
        assert h in removed.bodies;
      }
    }
  }

  /** Every moved entity that has a body sits at its transform's position. */
  lemma MovedBodyPositions(removed: Bridge, moved: Bridge, transformed: set<Entity>,
                           transforms: map<Entity, Game.TransformComponent>)
    requires transformed <= transforms.Keys && Valid(removed)
    requires moved.entBodyHandles == removed.entBodyHandles && moved.bodies.Keys == removed.bodies.Keys
    requires forall h :: h in moved.bodies ==> moved.bodies[h] == PositionPushed(removed.bodies[h], transformed, transforms)
    ensures forall e :: e in transformed && e in moved.entBodyHandles ==>
      && moved.entBodyHandles[e] in moved.bodies && moved.bodies[moved.entBodyHandles[e]].RigidBody?
      && moved.bodies[moved.entBodyHandles[e]].position == BodyPosition(transforms[e])
  {
    forall e | e in transformed && e in moved.entBodyHandles
      ensures && moved.entBodyHandles[e] in moved.bodies && moved.bodies[moved.entBodyHandles[e]].RigidBody?
              && moved.bodies[moved.entBodyHandles[e]].position == BodyPosition(transforms[e])
    {
      MovedBodyPosition(removed, moved, transformed, transforms, e);
    }
  }

  /** A moved entity's body sits at its transform's position in world units. */
  lemma MovedBodyPosition(removed: Bridge, moved: Bridge, transformed: set<Entity>,
                          transforms: map<Entity, Game.TransformComponent>, e: Entity)
    requires transformed <= transforms.Keys && Valid(removed)
    requires e in transformed && e in removed.entBodyHandles
    requires moved.entBodyHandles == removed.entBodyHandles && moved.bodies.Keys == removed.bodies.Keys
    requires forall h :: h in moved.bodies ==> moved.bodies[h] == PositionPushed(removed.bodies[h], transformed, transforms)
    ensures moved.entBodyHandles[e] in moved.bodies && moved.bodies[moved.entBodyHandles[e]].RigidBody?
    ensures moved.bodies[moved.entBodyHandles[e]].position == BodyPosition(transforms[e])
  {
    assert OwnedBy(removed.bodies[removed.entBodyHandles[e]], e);
  }

  /** `RigidbodySendPhysicsSystem`: its four bitsets, refilled from the change
      events on every run. */
  class RigidbodySendSystem {
    var insertedBodies: set<Entity>
    var modifiedBodies: set<Entity>
    var removedBodies: set<Entity>
    var modifiedTransforms: set<Entity>

    constructor ()
      ensures insertedBodies == modifiedBodies == removedBodies == modifiedTransforms == {}
    {
      insertedBodies, modifiedBodies, removedBodies, modifiedTransforms := {}, {}, {}, {};
    }

    /** The first half of a run: the bitsets are cleared and refilled from this
        run's events; a removed transform is ignored. */
    method ReadEvents(transformEvents: seq<ComponentEvent>, rigidbodyEvents: seq<ComponentEvent>)
      modifies this
      ensures modifiedTransforms == Classified(transformEvents, {Inserted, Modified})
      ensures insertedBodies == Classified(rigidbodyEvents, {Inserted})
      ensures modifiedBodies == Classified(rigidbodyEvents, {Modified})
      ensures removedBodies == Classified(rigidbodyEvents, {Removed})
    {
      insertedBodies := {};
      modifiedBodies := {};
      removedBodies := {};
      modifiedTransforms := {};

      var i := 0;
      while i < |transformEvents|
        invariant 0 <= i <= |transformEvents|
        invariant modifiedTransforms == Classified(transformEvents[..i], {Inserted, Modified})
        invariant insertedBodies == modifiedBodies == removedBodies == {}
        modifies this
      {
        var event := transformEvents[i];
        if event.kind == Inserted || event.kind == Modified {
          modifiedTransforms := modifiedTransforms + {event.id};
        }
        assert transformEvents[..i + 1][..i] == transformEvents[..i];
        i := i + 1;
      }
      assert transformEvents[..i] == transformEvents;

      i := 0;
      while i < |rigidbodyEvents|
        invariant 0 <= i <= |rigidbodyEvents|
        invariant insertedBodies == Classified(rigidbodyEvents[..i], {Inserted})
        invariant modifiedBodies == Classified(rigidbodyEvents[..i], {Modified})
        invariant removedBodies == Classified(rigidbodyEvents[..i], {Removed})
        invariant modifiedTransforms == Classified(transformEvents, {Inserted, Modified})
        modifies this
      {
        var event := rigidbodyEvents[i];
        match event.kind {
          case Inserted => insertedBodies := insertedBodies + {event.id};
          case Modified => modifiedBodies := modifiedBodies + {event.id};
          case Removed => removedBodies := removedBodies + {event.id};
        }
        assert rigidbodyEvents[..i + 1][..i] == rigidbodyEvents[..i];
        i := i + 1;
      }
      assert rigidbodyEvents[..i] == rigidbodyEvents;
    }

    /** One run: after `ReadEvents`, the four phases are applied in order to the
        live entities: inserted rigidbodies with a transform, modified rigidbodies,
        removed rigidbodies, and modified transforms of entities with a rigidbody.
        Only the handles of the rigidbody components change. */
    method Run(physics: PhysicsState, alive: set<Entity>,
               transformEvents: seq<ComponentEvent>, rigidbodyEvents: seq<ComponentEvent>,
               transforms: map<Entity, Game.TransformComponent>,
               rigidbodies: map<Entity, RigidbodyComponent>)
      returns (rigidbodies': map<Entity, RigidbodyComponent>)
      requires Valid(physics.Snapshot())
      modifies this, physics
      ensures modifiedTransforms == Classified(transformEvents, {Inserted, Modified})
      ensures insertedBodies == Classified(rigidbodyEvents, {Inserted})
      ensures modifiedBodies == Classified(rigidbodyEvents, {Modified})
      ensures removedBodies == Classified(rigidbodyEvents, {Removed})
      ensures Valid(physics.Snapshot())
      ensures rigidbodies'.Keys == rigidbodies.Keys
      ensures forall e :: e in rigidbodies ==> rigidbodies'[e].(handle := rigidbodies[e].handle) == rigidbodies[e]
      ensures forall e :: e in rigidbodies && e !in alive * transforms.Keys * insertedBodies ==>
        rigidbodies'[e] == rigidbodies[e]
      ensures forall e :: e in alive * removedBodies ==> e !in physics.entBodyHandles
      ensures forall e :: e in alive * transforms.Keys * rigidbodies.Keys * insertedBodies && e !in removedBodies ==>
        InsertedFrom(physics.Snapshot(), e, transforms[e], rigidbodies[e], rigidbodies'[e])
      ensures forall e :: e !in (alive * transforms.Keys * rigidbodies.Keys * insertedBodies) + (alive * rigidbodies.Keys * modifiedBodies)
                                + (alive * removedBodies) + (alive * transforms.Keys * rigidbodies.Keys * modifiedTransforms) ==>
        SameBody(old(physics.Snapshot()), physics.Snapshot(), e)
      ensures forall e :: e in alive * rigidbodies.Keys * modifiedBodies && e in physics.entBodyHandles ==>
        physics.bodies[physics.entBodyHandles[e]].velocity == rigidbodies'[e].velocity
      ensures forall e :: e in alive * transforms.Keys * rigidbodies.Keys * modifiedTransforms && e in physics.entBodyHandles ==>
        physics.bodies[physics.entBodyHandles[e]].position == BodyPosition(transforms[e])
      ensures physics.colliders == old(physics.colliders)
      ensures physics.entColliderHandles == old(physics.entColliderHandles)
      ensures physics.lerp == old(physics.lerp)
    {
      ReadEvents(transformEvents, rigidbodyEvents);
      rigidbodies' := SendPhases(physics, alive, insertedBodies, modifiedBodies, removedBodies, modifiedTransforms,
                                 transforms, rigidbodies);
    }
  }

  /** The four phases of a send run, given this run's bitsets. */
  method SendPhases(physics: PhysicsState, alive: set<Entity>,
                    inserted: set<Entity>, modified: set<Entity>, removed: set<Entity>, transformed: set<Entity>,
                    transforms: map<Entity, Game.TransformComponent>,
                    rigidbodies: map<Entity, RigidbodyComponent>)
    returns (rigidbodies': map<Entity, RigidbodyComponent>)
    requires Valid(physics.Snapshot())
    modifies physics
    ensures Valid(physics.Snapshot())
    ensures rigidbodies'.Keys == rigidbodies.Keys
    ensures forall e :: e in rigidbodies ==> rigidbodies'[e].(handle := rigidbodies[e].handle) == rigidbodies[e]
    ensures forall e :: e in rigidbodies && e !in alive * transforms.Keys * inserted ==>
      rigidbodies'[e] == rigidbodies[e]
    ensures forall e :: e in alive * removed ==> e !in physics.entBodyHandles
    ensures forall e :: e in alive * transforms.Keys * rigidbodies.Keys * inserted && e !in removed ==>
      InsertedFrom(physics.Snapshot(), e, transforms[e], rigidbodies[e], rigidbodies'[e])
    ensures forall e :: e !in (alive * transforms.Keys * rigidbodies.Keys * inserted) + (alive * rigidbodies.Keys * modified)
                              + (alive * removed) + (alive * transforms.Keys * rigidbodies.Keys * transformed) ==>
      SameBody(old(physics.Snapshot()), physics.Snapshot(), e)
    ensures forall e :: e in alive * rigidbodies.Keys * modified && e in physics.entBodyHandles ==>
      physics.bodies[physics.entBodyHandles[e]].velocity == rigidbodies'[e].velocity
    ensures forall e :: e in alive * transforms.Keys * rigidbodies.Keys * transformed && e in physics.entBodyHandles ==>
      physics.bodies[physics.entBodyHandles[e]].position == BodyPosition(transforms[e])
    ensures physics.colliders == old(physics.colliders)
    ensures physics.entColliderHandles == old(physics.entColliderHandles)
    ensures physics.lerp == old(physics.lerp)
  {
    ghost var before := physics.Snapshot();
    rigidbodies' := InsertThenPush(physics, alive * transforms.Keys * rigidbodies.Keys * inserted,
                                   alive * rigidbodies.Keys * modified, transforms, rigidbodies);
    ghost var afterPush := physics.Snapshot();
    RemoveThenMove(physics, alive * removed, alive * transforms.Keys * rigidbodies.Keys * transformed, transforms);
    SendPhasesFrames(before, afterPush, physics.Snapshot(), alive * transforms.Keys * rigidbodies.Keys * inserted,
                     alive * rigidbodies.Keys * modified, alive * removed,
                     alive * transforms.Keys * rigidbodies.Keys * transformed, transforms, rigidbodies, rigidbodies');
  }

  /** The first two phases of a send run: bodies are created for the inserted
      join, then the modified join's velocities are pushed. */
  method InsertThenPush(physics: PhysicsState, insertJoin: set<Entity>, modifyJoin: set<Entity>,
                        transforms: map<Entity, Game.TransformComponent>,
                        rigidbodies: map<Entity, RigidbodyComponent>)
    returns (rigidbodies': map<Entity, RigidbodyComponent>)
    requires Valid(physics.Snapshot())
    requires insertJoin <= transforms.Keys * rigidbodies.Keys && modifyJoin <= rigidbodies.Keys
    modifies physics
    ensures Valid(physics.Snapshot())
    ensures rigidbodies'.Keys == rigidbodies.Keys
    ensures forall e :: e in rigidbodies ==> rigidbodies'[e].(handle := rigidbodies[e].handle) == rigidbodies[e]
    ensures forall e :: e in rigidbodies && e !in insertJoin ==> rigidbodies'[e] == rigidbodies[e]
    ensures forall e :: e in insertJoin ==>
      InsertedFrom(physics.Snapshot(), e, transforms[e], rigidbodies[e], rigidbodies'[e])
    ensures forall e :: e !in insertJoin + modifyJoin ==> SameBody(old(physics.Snapshot()), physics.Snapshot(), e)
    ensures forall e :: e in modifyJoin && e in physics.entBodyHandles ==>
      physics.bodies[physics.entBodyHandles[e]].velocity == rigidbodies'[e].velocity
    ensures physics.colliders == old(physics.colliders)
    ensures physics.entColliderHandles == old(physics.entColliderHandles)
    ensures physics.lerp == old(physics.lerp)
  {
    ghost var before := physics.Snapshot();
    rigidbodies' := InsertBodies(physics, insertJoin, transforms, rigidbodies);
    ghost var afterInsert := physics.Snapshot();
    PushVelocities(physics, modifyJoin, rigidbodies');
    VelocitiesPushedHold(afterInsert, physics.Snapshot(), modifyJoin, rigidbodies');
    InsertPushFrames(before, afterInsert, physics.Snapshot(), insertJoin, modifyJoin, transforms, rigidbodies, rigidbodies');
  }

  /** The last two phases of a send run: the removed join loses its bodies, then
      the moved join's bodies go to their transforms' positions. */
  method RemoveThenMove(physics: PhysicsState, removeJoin: set<Entity>, moveJoin: set<Entity>,
                        transforms: map<Entity, Game.TransformComponent>)
    requires Valid(physics.Snapshot()) && moveJoin <= transforms.Keys
    modifies physics
    ensures Valid(physics.Snapshot())
    ensures physics.entBodyHandles == old(physics.entBodyHandles) - removeJoin
    ensures forall e :: e in physics.entBodyHandles ==>
      physics.bodies[physics.entBodyHandles[e]].velocity == old(physics.bodies)[old(physics.entBodyHandles)[e]].velocity
    ensures forall e :: e in moveJoin && e in physics.entBodyHandles ==>
      physics.bodies[physics.entBodyHandles[e]].position == BodyPosition(transforms[e])
    ensures forall e :: e in physics.entBodyHandles ==>
      && physics.entBodyHandles[e] in physics.bodies && physics.entBodyHandles[e] in old(physics.bodies)
      && physics.bodies[physics.entBodyHandles[e]] ==
         PositionPushed(old(physics.bodies)[physics.entBodyHandles[e]], moveJoin, transforms)
    ensures forall e :: e !in removeJoin + moveJoin ==> SameBody(old(physics.Snapshot()), physics.Snapshot(), e)
    ensures physics.colliders == old(physics.colliders)
    ensures physics.entColliderHandles == old(physics.entColliderHandles)
    ensures physics.lerp == old(physics.lerp)
  {
    ghost var before := physics.Snapshot();
    RemoveBodies(physics, removeJoin);
    ghost var afterRemove := physics.Snapshot();
    PushPositions(physics, moveJoin, transforms);
    RemoveMoveKeepsVelocities(before, afterRemove, physics.Snapshot(), removeJoin, moveJoin, transforms);
    MovedBodyPositions(afterRemove, physics.Snapshot(), moveJoin, transforms);
    RemoveMoveKeepsOthers(before, afterRemove, physics.Snapshot(), removeJoin, moveJoin, transforms);
  }

  /** `ColliderSendPhysicsSystem`: the same four bitsets for colliders. */
  class ColliderSendSystem {
    var insertedColliders: set<Entity>
    var modifiedColliders: set<Entity>
    var removedColliders: set<Entity>
    var modifiedTransforms: set<Entity>

    constructor ()
      ensures insertedColliders == modifiedColliders == removedColliders == modifiedTransforms == {}
    {
      insertedColliders, modifiedColliders, removedColliders, modifiedTransforms := {}, {}, {}, {};
    }

    /** The first half of a run: the bitsets are cleared and refilled from this
        run's events; a removed transform is ignored. */
    method ReadEvents(transformEvents: seq<ComponentEvent>, colliderEvents: seq<ComponentEvent>)
      modifies this
      ensures modifiedTransforms == Classified(transformEvents, {Inserted, Modified})
      ensures insertedColliders == Classified(colliderEvents, {Inserted})
      ensures modifiedColliders == Classified(colliderEvents, {Modified})
      ensures removedColliders == Classified(colliderEvents, {Removed})
    {
      insertedColliders := {};
      modifiedColliders := {};
      removedColliders := {};
      modifiedTransforms := {};

      var i := 0;
      while i < |transformEvents|
        invariant 0 <= i <= |transformEvents|
        invariant modifiedTransforms == Classified(transformEvents[..i], {Inserted, Modified})
        invariant insertedColliders == modifiedColliders == removedColliders == {}
        modifies this
      {
        var event := transformEvents[i];
        if event.kind == Inserted || event.kind == Modified {
          modifiedTransforms := modifiedTransforms + {event.id};
        }
        assert transformEvents[..i + 1][..i] == transformEvents[..i];
        i := i + 1;
      }
      assert transformEvents[..i] == transformEvents;

      i := 0;
      while i < |colliderEvents|
        invariant 0 <= i <= |colliderEvents|
        invariant insertedColliders == Classified(colliderEvents[..i], {Inserted})
        invariant modifiedColliders == Classified(colliderEvents[..i], {Modified})
        invariant removedColliders == Classified(colliderEvents[..i], {Removed})
        invariant modifiedTransforms == Classified(transformEvents, {Inserted, Modified})
        modifies this
      {
        var event := colliderEvents[i];
        match event.kind {
          case Inserted => insertedColliders := insertedColliders + {event.id};
          case Modified => modifiedColliders := modifiedColliders + {event.id};
          case Removed => removedColliders := removedColliders + {event.id};
        }
        assert colliderEvents[..i + 1][..i] == colliderEvents[..i];
        i := i + 1;
      }
      assert colliderEvents[..i] == colliderEvents;
    }

    /** One run: after `ReadEvents`, inserted colliders of live entities with a
        transform are created and removed ones dropped. Modified colliders and
        modified transforms change nothing, and no body changes. */
    method Run(physics: PhysicsState, alive: set<Entity>,
               transformEvents: seq<ComponentEvent>, colliderEvents: seq<ComponentEvent>,
               transforms: map<Entity, Game.TransformComponent>,
               colliders: map<Entity, ColliderComponent>)
      requires Valid(physics.Snapshot())
      modifies this, physics
      ensures modifiedTransforms == Classified(transformEvents, {Inserted, Modified})
      ensures insertedColliders == Classified(colliderEvents, {Inserted})
      ensures modifiedColliders == Classified(colliderEvents, {Modified})
      ensures removedColliders == Classified(colliderEvents, {Removed})
      ensures Valid(physics.Snapshot())
      ensures physics.bodies == old(physics.bodies) && physics.entBodyHandles == old(physics.entBodyHandles)
      ensures physics.lerp == old(physics.lerp)
    {
      ReadEvents(transformEvents, colliderEvents);
      InsertColliders(physics, alive * transforms.Keys * colliders.Keys * insertedColliders, transforms, colliders);
      RemoveColliders(physics, alive * removedColliders);
    }
  }

  // ---------------------------------------------------------------------------
  // Contact notifications into collision events (`WorldStepPhysicsSystem::run`)

  datatype CollisionType = Started | Stopped

  /** `CollisionEvent` of src/physics.rs. */
  datatype CollisionEvent = CollisionEvent(
    entityA: Option<Entity>, colliderHandleA: ColliderHandle,
    entityB: Option<Entity>, colliderHandleB: ColliderHandle,
    normal: Vec2, depth: real, ty: CollisionType)

  /** A contact notification of the engine after a step. */
  datatype ContactEvent =
    | ContactStarted(handle1: ColliderHandle, handle2: ColliderHandle)
    | ContactStopped(handle1: ColliderHandle, handle2: ColliderHandle)

  datatype Contact = Contact(depth: real, normal: Vec2)

  /** What the engine reports for a pair of colliders in contact: their handles in
      the engine's order and the deepest contact of the manifold, if it has one. */
  datatype ContactPair = ContactPair(handleA: ColliderHandle, handleB: ColliderHandle, deepest: Option<Contact>)

  type ContactPairs = map<(ColliderHandle, ColliderHandle), ContactPair>

  /** A started notification can be translated only when the engine knows the
      pair and its manifold has a deepest contact (otherwise the source panics). */
  predicate Translatable(note: ContactEvent, pairs: ContactPairs, colliders: map<ColliderHandle, Collider>)
  {
    note.ContactStarted? ==>
      && (note.handle1, note.handle2) in pairs
      && pairs[(note.handle1, note.handle2)].deepest.Some?
      && pairs[(note.handle1, note.handle2)].handleA in colliders
      && pairs[(note.handle1, note.handle2)].handleB in colliders
  }

  /** The collision event a notification gives: a started contact gives one, of
      type Started, naming the entities the two colliders were created for, with
      the deepest contact's normal and depth; a stopped contact gives none. */
  function Translate(note: ContactEvent, pairs: ContactPairs, colliders: map<ColliderHandle, Collider>): (r: Option<CollisionEvent>)
    requires Translatable(note, pairs, colliders)
    ensures r.Some? <==> note.ContactStarted?
    ensures note.ContactStarted? ==>
      var pair := pairs[(note.handle1, note.handle2)];
      && r.value.ty == Started
      && r.value.colliderHandleA == pair.handleA && r.value.colliderHandleB == pair.handleB
      && r.value.entityA == Some(colliders[pair.handleA].owner)
      && r.value.entityB == Some(colliders[pair.handleB].owner)
      && r.value.normal == pair.deepest.value.normal && r.value.depth == pair.deepest.value.depth
  {
    match note
    case ContactStopped(_, _) => None
    case ContactStarted(h1, h2) =>
      var pair := pairs[(h1, h2)];
      var contact := pair.deepest.value;
      Some(CollisionEvent(Some(colliders[pair.handleA].owner), pair.handleA,
                          Some(colliders[pair.handleB].owner), pair.handleB,
                          contact.normal, contact.depth, Started))
  }

  /** In a consistent state, the entities a started contact's event names are
      the ones whose collider entries are the pair's two colliders. */
  lemma TranslatedNamesColliderOwners(note: ContactEvent, pairs: ContactPairs, b: Bridge)
    requires Valid(b) && Translatable(note, pairs, b.colliders) && note.ContactStarted?
    ensures var ev := Translate(note, pairs, b.colliders).value;
      && ev.entityA.value in b.entColliderHandles && b.entColliderHandles[ev.entityA.value] == ev.colliderHandleA
      && ev.entityB.value in b.entColliderHandles && b.entColliderHandles[ev.entityB.value] == ev.colliderHandleB
  {
  }

  function StartedCount(notes: seq<ContactEvent>): nat
  {
    if notes == [] then 0
    else StartedCount(notes[..|notes| - 1]) + (if notes[|notes| - 1].ContactStarted? then 1 else 0)
  }

  lemma TakeOfTake(notes: seq<ContactEvent>, n: nat)
    requires n <= |notes|
    ensures forall i :: 0 <= i < n ==> notes[..n][i] == notes[i] && notes[..n][..i] == notes[..i]
    ensures notes[..|notes|] == notes
  {
  }

  /** The events written for a run's notifications, in order: exactly one per
      started contact, every one of type Started. */
  function TranslateAll(notes: seq<ContactEvent>, pairs: ContactPairs, colliders: map<ColliderHandle, Collider>)
    : (r: seq<CollisionEvent>)
    requires forall i :: 0 <= i < |notes| ==> Translatable(notes[i], pairs, colliders)
    ensures |r| == StartedCount(notes)
    ensures forall k :: 0 <= k < |r| ==> r[k].ty == Started
    ensures forall i :: 0 <= i < |notes| && notes[i].ContactStarted? ==>
      StartedCount(notes[..i]) < |r| && Some(r[StartedCount(notes[..i])]) == Translate(notes[i], pairs, colliders)
  {
    if notes == [] then []
    else
      var n := |notes| - 1;
      var prefix := TranslateAll(notes[..n], pairs, colliders);
      TakeOfTake(notes, n);
      match Translate(notes[n], pairs, colliders)
      case None => prefix
      case Some(ev) => prefix + [ev]
  }

  /** `WorldStepPhysicsSystem::run` after the step: every notification is
      translated and the events are written in order. */
  method WorldStepRun(physics: PhysicsState, notes: seq<ContactEvent>, pairs: ContactPairs)
    returns (events: seq<CollisionEvent>)
    requires forall i :: 0 <= i < |notes| ==> Translatable(notes[i], pairs, physics.colliders)
    ensures events == TranslateAll(notes, pairs, physics.colliders)
  {
    events := [];
    var i := 0;
    while i < |notes|
      invariant 0 <= i <= |notes|
      invariant events == TranslateAll(notes[..i], pairs, physics.colliders)
    {
      var collisionEvent := Translate(notes[i], pairs, physics.colliders);
      if collisionEvent.Some? {
        events := events + [collisionEvent.value];
      }
      assert notes[..i + 1][..i] == notes[..i];
      i := i + 1;
    }
    assert notes[..i] == notes;
  }

  // ---------------------------------------------------------------------------
  // Reading the bodies back (`RigidbodyReceivePhysicsSystem::run`)

  /** The transform and rigidbody after reading back `body`: the current position
      and velocity are first kept as the last ones, then replaced by the body's
      position in pixels and its velocity. */
  function Received(t: Game.TransformComponent, rb: RigidbodyComponent, body: Body)
    : (r: (Game.TransformComponent, RigidbodyComponent))
    requires body.RigidBody?
  {
    var shifted := t.(lastPosX := t.posX, lastPosY := t.posY);
    var rb' := rb.(lastVelocity := rb.velocity);
    (shifted.(posX := body.position.x * 32.0, posY := body.position.y * 32.0), rb'.(velocity := body.velocity))
  }

  /** The previous position and velocity after a read-back are the ones from
      before it, whatever the body holds. */
  lemma ReceivedShiftsLast(t: Game.TransformComponent, rb: RigidbodyComponent, body: Body)
    requires body.RigidBody?
    ensures var (t', rb') := Received(t, rb, body);
      && t'.lastPosX == t.posX && t'.lastPosY == t.posY && rb'.lastVelocity == rb.velocity
      && t'.origin == t.origin && t'.scale == t.scale
      && rb'.handle == rb.handle && rb'.maxLinearVelocity == rb.maxLinearVelocity
  {
  }

  /** Sending and reading back are inverse: a body created from a transform and
      read back before it moves gives the transform its own position again, and
      the component its own velocity. */
  lemma SendThenReceive(t: Game.TransformComponent, rb: RigidbodyComponent, e: Entity)
    ensures var (t', rb') := Received(t, rb, RigidBody(BodyPosition(t), rb.velocity, rb.maxLinearVelocity, e));
      && t'.posX == t.posX && t'.posY == t.posY
      && rb'.velocity == rb.velocity
  {
  }

  /** Every entity with a transform and a rigidbody whose handle names a live
      rigid body is read back from it; the others are left as they are. The handle
      is unwrapped, so each such rigidbody must already have one. */
  method RigidbodyReceiveRun(physics: PhysicsState,
                             transforms: map<Entity, Game.TransformComponent>,
                             rigidbodies: map<Entity, RigidbodyComponent>)
    returns (transforms': map<Entity, Game.TransformComponent>, rigidbodies': map<Entity, RigidbodyComponent>)
    requires forall e :: e in transforms && e in rigidbodies ==> rigidbodies[e].handle.Some?
    ensures transforms'.Keys == transforms.Keys && rigidbodies'.Keys == rigidbodies.Keys
    ensures forall e :: e in transforms && e in rigidbodies ==>
      var h := rigidbodies[e].handle.value;
      if h in physics.bodies && physics.bodies[h].RigidBody?
      then (transforms'[e], rigidbodies'[e]) == Received(transforms[e], rigidbodies[e], physics.bodies[h])
      else transforms'[e] == transforms[e] && rigidbodies'[e] == rigidbodies[e]
    ensures forall e :: e in transforms && e !in rigidbodies ==> transforms'[e] == transforms[e]
    ensures forall e :: e in rigidbodies && e !in transforms ==> rigidbodies'[e] == rigidbodies[e]
  {
    transforms', rigidbodies' := transforms, rigidbodies;
    var todo := transforms.Keys * rigidbodies.Keys;
    while todo != {}
      invariant todo <= transforms.Keys * rigidbodies.Keys
      invariant transforms'.Keys == transforms.Keys && rigidbodies'.Keys == rigidbodies.Keys
      invariant forall e :: e in transforms && e in rigidbodies && e !in todo ==>
        var h := rigidbodies[e].handle.value;
        if h in physics.bodies && physics.bodies[h].RigidBody?
        then (transforms'[e], rigidbodies'[e]) == Received(transforms[e], rigidbodies[e], physics.bodies[h])
        else transforms'[e] == transforms[e] && rigidbodies'[e] == rigidbodies[e]
      invariant forall e :: e in transforms && (e !in rigidbodies || e in todo) ==> transforms'[e] == transforms[e]
      invariant forall e :: e in rigidbodies && (e !in transforms || e in todo) ==> rigidbodies'[e] == rigidbodies[e]
      decreases todo
    {
      var e :| e in todo;
      var rigidbody := rigidbodies'[e];
      var transform := transforms'[e];
      var h := rigidbody.handle.value;
      if h in physics.bodies && physics.bodies[h].RigidBody? {
        var body := physics.bodies[h];
        transform := transform.(lastPosX := transform.posX, lastPosY := transform.posY);
        rigidbody := rigidbody.(lastVelocity := rigidbody.velocity);
        transform := transform.(posX := body.position.x * 32.0, posY := body.position.y * 32.0);
        rigidbody := rigidbody.(velocity := body.velocity);
        transforms' := transforms'[e := transform];
        rigidbodies' := rigidbodies'[e := rigidbody];
      }
      todo := todo - {e};
    }
  }
}
