/** Bricks, src/game/brick.rs: damage from ball contacts, at most once per tick,
    scoring for destroyed bricks and the request for the next level once no
    destructible brick is left.

    Deleting an entity only marks it; it leaves the store at the end of the tick.
    So the completion scan of the tick that destroys the last brick still sees that
    brick, and completion is noticed on the following tick. */
module Brick {
  import opened Geometry
  import opened RunState

  datatype BrickType = Grey | Air | Green | Blue | Red | Purple

  datatype BrickComponent = BrickComponent(hp: int, isIndestructible: bool)

  /** `BrickComponent::new`: a brick is indestructible exactly when it starts with
      no hit points. */
  function NewBrick(hp: int): (b: BrickComponent)
    ensures b.hp == hp
    ensures b.isIndestructible <==> hp <= 0
  {
    BrickComponent(hp, hp <= 0)
  }

  /** A contact between two entities as the gameplay systems read it: either side
      may be missing, and so may the contact normal and contact point. */
  datatype CollisionEvent = CollisionEvent(
    entityA: Option<Entity>,
    entityB: Option<Entity>,
    normal: Option<Vec2>,
    collisionPoint: Option<Vec2>)

  /** Whether an event marks its first entity as a brick hit by a ball. */
  predicate MarksHit(ev: CollisionEvent, bricks: set<Entity>, balls: set<Entity>)
  {
    ev.entityA.Some? && ev.entityB.Some? && ev.entityA.value in bricks && ev.entityB.value in balls
  }

  /** The bricks hit this tick: the first entity of each event with both entities
      present where that entity is a brick and the second is a ball. */
  function HitSet(events: seq<CollisionEvent>, bricks: set<Entity>, balls: set<Entity>): set<Entity>
  {
    if events == [] then {}
    else
      var ev := events[|events| - 1];
      HitSet(events[..|events| - 1], bricks, balls) + (if MarksHit(ev, bricks, balls) then {ev.entityA.value} else {})
  }

  /** A brick is in the hit set exactly when some event has it first and a ball
      second; events with a missing entity, or with the ball first, mark nothing. */
  lemma {:induction false} HitSetMembers(events: seq<CollisionEvent>, bricks: set<Entity>, balls: set<Entity>, e: Entity)
    ensures e in HitSet(events, bricks, balls) <==>
      exists i :: 0 <= i < |events| && MarksHit(events[i], bricks, balls) && events[i].entityA.value == e
  {
    if events != [] {
      var n := |events| - 1;
      var prefix := events[..n];
      HitSetMembers(prefix, bricks, balls, e);
      if e in HitSet(events, bricks, balls) {
        if e in HitSet(prefix, bricks, balls) {
          var i :| 0 <= i < |prefix| && MarksHit(prefix[i], bricks, balls) && prefix[i].entityA.value == e;
          assert events[i] == prefix[i];
        } else {
          assert MarksHit(events[n], bricks, balls) && events[n].entityA.value == e;
        }
      }
      if exists i :: 0 <= i < |events| && MarksHit(events[i], bricks, balls) && events[i].entityA.value == e {
        var i :| 0 <= i < |events| && MarksHit(events[i], bricks, balls) && events[i].entityA.value == e;
        if i < n {
          assert prefix[i] == events[i];
        }
      }
    }
  }

  /** A brick after one hit: indestructible ones are untouched, the rest lose one
      hit point. */
  function Damaged(b: BrickComponent): BrickComponent
  {
    if b.isIndestructible then b else b.(hp := b.hp - 1)
  }

  /** The brick storage after the bricks of `hit` take their hit. */
  function AfterDamage(bricks: map<Entity, BrickComponent>, hit: set<Entity>): (r: map<Entity, BrickComponent>)
  {
    map e | e in bricks :: if e in hit then Damaged(bricks[e]) else bricks[e]
  }

  /** However many contacts a brick had, it loses at most one hit point in a tick;
      an indestructible brick loses none, and no brick changes kind. */
  lemma AtMostOneDamage(bricks: map<Entity, BrickComponent>, hit: set<Entity>, e: Entity)
    requires e in bricks
    ensures e in AfterDamage(bricks, hit)
    ensures bricks[e].hp - 1 <= AfterDamage(bricks, hit)[e].hp <= bricks[e].hp
    ensures bricks[e].isIndestructible ==> AfterDamage(bricks, hit)[e] == bricks[e]
    ensures AfterDamage(bricks, hit)[e].isIndestructible == bricks[e].isIndestructible
    ensures e !in hit ==> AfterDamage(bricks, hit)[e] == bricks[e]
  {
  }

  /** The bricks destroyed this tick: hit, destructible, and out of hit points
      after the hit. */
  function Destroyed(bricks: map<Entity, BrickComponent>, hit: set<Entity>): set<Entity>
  {
    set e | e in hit && e in bricks && !bricks[e].isIndestructible && bricks[e].hp - 1 <= 0
  }

  /** A brick is destroyed exactly when it was hit and its hit points after the
      hit are at most zero; an indestructible brick never is. */
  lemma DestroyedIff(bricks: map<Entity, BrickComponent>, hit: set<Entity>, e: Entity)
    requires e in bricks
    ensures e in Destroyed(bricks, hit) <==>
      e in hit && !bricks[e].isIndestructible && AfterDamage(bricks, hit)[e].hp <= 0
    ensures bricks[e].isIndestructible ==> e !in Destroyed(bricks, hit)
  {
  }

  /** Whether the completion scan finds a destructible brick among the live ones. */
  predicate AnyDestructible(alive: set<Entity>, bricks: map<Entity, BrickComponent>)
  {
    exists e :: e in alive && e in bricks && !bricks[e].isIndestructible
  }

  /** The load request after the completion scan: a pending request is kept; with
      none pending, the next level is requested exactly when no destructible brick
      was found. */
  function NextLoadRequest(pending: Option<LoadLevelEvent>, level: nat, anyDestructible: bool): (r: Option<LoadLevelEvent>)
    ensures pending.Some? ==> r == pending
    ensures pending.None? && !anyDestructible ==> r == Some(LoadLevelEvent(level + 1))
    ensures pending.None? && anyDestructible ==> r == None
  {
    if !anyDestructible && pending.None? then Some(LoadLevelEvent(level + 1)) else pending
  }

  /** The hit-collection pass of `BrickSystem::run`. */
  method CollectHits(events: seq<CollisionEvent>, bricks: set<Entity>, balls: set<Entity>) returns (hit: set<Entity>)
    ensures hit == HitSet(events, bricks, balls)
  {
    hit := {};
    var i := 0;
    while i < |events|
      invariant 0 <= i <= |events|
      invariant hit == HitSet(events[..i], bricks, balls)
    {
      var event := events[i];
      if event.entityA.Some? && event.entityB.Some? {
        var entityA, entityB := event.entityA.value, event.entityB.value;
        if entityA in bricks && entityB in balls {
          hit := hit + {entityA};
        }
      }
      assert events[..i + 1][..i] == events[..i];
      i := i + 1;
    }
    assert events[..i] == events;
  }

  /** The damage pass of `BrickSystem::run` over the live hit bricks: each
      destructible one loses a hit point, and one left with none is deleted and
      scores 100. */
  method DamageBricks(level: LevelState, bricks: map<Entity, BrickComponent>, hit: set<Entity>)
    returns (bricks': map<Entity, BrickComponent>, deleted: set<Entity>)
    modifies level
    ensures bricks' == AfterDamage(bricks, hit)
    ensures deleted == Destroyed(bricks, hit)
    ensures level.score == old(level.score) + 100 * |deleted|
    ensures level.loadLevelEvent == old(level.loadLevelEvent) && level.level == old(level.level)
    ensures level.lives == old(level.lives) && level.playerPaddleEnt == old(level.playerPaddleEnt)
    ensures level.levelWidth == old(level.levelWidth) && level.levelHeight == old(level.levelHeight)
  {
    bricks' := bricks;
    deleted := {};
    var score := level.score;
    var todo := bricks.Keys * hit;
    while todo != {}
      invariant todo <= bricks.Keys * hit
      invariant DamagedUpTo(bricks, bricks.Keys * hit - todo, bricks', deleted)
      invariant score == level.score + 100 * |deleted|
      modifies {}
      decreases todo
    {
      var ent :| ent in todo;
      bricks', deleted, score := DamageBrick(bricks, bricks.Keys * hit - todo, ent, bricks', deleted, score);
      VisitOne(bricks.Keys * hit, todo, ent);
      todo := todo - {ent};
    }
    assert bricks.Keys * hit - todo == bricks.Keys * hit;
    assert Destroyed(bricks, bricks.Keys * hit) == Destroyed(bricks, hit);
    level.score := score;
  }

  /** The bricks and deletions once the bricks of `done` have taken their hit. */
  predicate DamagedUpTo(bricks: map<Entity, BrickComponent>, done: set<Entity>,
                        bricks': map<Entity, BrickComponent>, deleted: set<Entity>)
  {
    && bricks'.Keys == bricks.Keys
    && (forall e :: e in bricks ==> bricks'[e] == if e in done then Damaged(bricks[e]) else bricks[e])
    && deleted == Destroyed(bricks, done)
  }

  /** One turn of the damage loop: a destructible brick loses a hit point, and is
      deleted for 100 points when none are left. */
  method DamageBrick(bricks: map<Entity, BrickComponent>, done: set<Entity>, ent: Entity,
                     bricks': map<Entity, BrickComponent>, deleted: set<Entity>, score: int)
    returns (bricks'': map<Entity, BrickComponent>, deleted': set<Entity>, score': int)
    requires ent in bricks && ent !in done
    requires DamagedUpTo(bricks, done, bricks', deleted)
    ensures DamagedUpTo(bricks, done + {ent}, bricks'', deleted')
    ensures score' - 100 * |deleted'| == score - 100 * |deleted|
  {
    DestroyedStep(bricks, done, ent);
    bricks'', deleted', score' := bricks', deleted, score;
    var brick := bricks'[ent];
    if !brick.isIndestructible {
      brick := brick.(hp := brick.hp - 1);
      bricks'' := bricks''[ent := brick];
      if brick.hp <= 0 {
        deleted' := deleted' + {ent};
        score' := score' + 100;
      }
    }
  }

  /** Adding `ent` to the hit bricks adds it to the destroyed ones exactly when
      it is destructible and has at most one hit point. */
  lemma DestroyedStep(bricks: map<Entity, BrickComponent>, done: set<Entity>, ent: Entity)
    requires ent in bricks && ent !in done
    ensures ent !in Destroyed(bricks, done)
    ensures Destroyed(bricks, done + {ent}) ==
      Destroyed(bricks, done) + (if !bricks[ent].isIndestructible && bricks[ent].hp - 1 <= 0 then {ent} else {})
  {
  }

  /** The completion scan of `BrickSystem::run`: stops at the first destructible
      live brick. */
  method FindDestructible(alive: set<Entity>, bricks: map<Entity, BrickComponent>) returns (found: bool)
    ensures found <==> AnyDestructible(alive, bricks)
  {
    found := false;
    var scan := alive * bricks.Keys;
    while scan != {}
      invariant scan <= alive * bricks.Keys
      invariant found ==> AnyDestructible(alive, bricks)
      invariant !found ==>
        forall e :: e in alive && e in bricks && e !in scan ==> bricks[e].isIndestructible
      decreases scan
    {
      var e :| e in scan;
      if bricks[e].isIndestructible {
        scan := scan - {e};
        continue;
      }
      found := true;
      break;
    }
  }

  /** `BrickSystem::run`: collects the hit set, damages each live hit brick once,
      deletes the destructible ones left with no hit points and scores 100 for
      each, then requests the next level if the scan of the live bricks (deleted
      ones included, as deletion is deferred) finds no destructible brick and no
      request is pending. */
  method BrickSystemRun(level: LevelState, alive: set<Entity>, events: seq<CollisionEvent>,
                        bricks: map<Entity, BrickComponent>, balls: set<Entity>)
    returns (bricks': map<Entity, BrickComponent>, deleted: set<Entity>)
    modifies level
    ensures var hit := alive * HitSet(events, bricks.Keys, balls);
      && bricks' == AfterDamage(bricks, hit)
      && deleted == Destroyed(bricks, hit)
      && level.score == old(level.score) + 100 * |deleted|
    ensures level.loadLevelEvent ==
      NextLoadRequest(old(level.loadLevelEvent), old(level.level), AnyDestructible(alive, bricks'))
    ensures level.level == old(level.level) && level.lives == old(level.lives)
    ensures level.playerPaddleEnt == old(level.playerPaddleEnt)
    ensures level.levelWidth == old(level.levelWidth) && level.levelHeight == old(level.levelHeight)
  {
    var bricksHitThisTick := CollectHits(events, bricks.Keys, balls);
    bricks', deleted := DamageBricks(level, bricks, alive * bricksHitThisTick);
    var isLevelComplete := FindDestructible(alive, bricks');
    if !isLevelComplete && level.loadLevelEvent.None? {
      var currentLevel := level.level;
      level.loadLevelEvent := Some(LoadLevelEvent(currentLevel + 1));
    }
  }

  /** Deferred deletion delays completion by one tick: when a tick destroys every
      remaining destructible brick, that tick's scan still finds one (the bricks are
      only marked), while the next tick's scan, once they are gone, finds none. */
  lemma {:induction false} CompletionSeenNextTick(alive: set<Entity>, bricks: map<Entity, BrickComponent>, hit: set<Entity>)
    requires AnyDestructible(alive, bricks)
    requires forall e :: e in alive && e in bricks && !bricks[e].isIndestructible ==> e in Destroyed(bricks, hit)
    ensures AnyDestructible(alive, AfterDamage(bricks, hit))
    ensures !AnyDestructible(alive - Destroyed(bricks, hit), AfterDamage(bricks, hit))
  {
    var e :| e in alive && e in bricks && !bricks[e].isIndestructible;
    assert e in AfterDamage(bricks, hit) && !AfterDamage(bricks, hit)[e].isIndestructible;
  }
}
