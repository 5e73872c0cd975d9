# brickbonker gameplay core, modelled in Dafny

brickbonker is a brick-breaker game built on an entity-component system: a
paddle, balls, bricks and walls are entities, and systems run once per tick over
the components they join. This project models that game's rule layer:

- how bricks take damage from ball contacts;
- how balls bounce, are lost and are respawned;
- how the paddle moves;
- how a level is decoded from its file text and built on a 16x16 grid;
- the bookkeeping that keeps the game's entities in step with the physics engine's bodies and colliders.

It also models the small stateful structures the game runs on:

- the keyboard state;
- the sprite batch that builds a quad mesh;
- the two render command buffers;
- the transform constructors.

Entities are natural-number ids, and a component storage is a `map` from entity to
component. A system is a method that takes the storages it reads and returns the
ones it writes. A resource whose fields the source updates in place is a `class`:

- `LevelState`
- `InputState`
- `RenderState`
- `RenderCommander`
- `SpriteBatch`
- `PhysicsState`
- the bitsets of the two physics send systems

Every loop of the source is a `while` loop, and each is proved against a
specification function. Properties relating several calls are lemmas.

The files of the repository disagree on some data types:

- `src/physics.rs` and `src/game/render.rs` use the flat transform of `src/game.rs`, which has `pos_x` and `pos_y`;
- `src/game/ball.rs`, `src/game/level.rs` and `src/game/paddle.rs` use the vector transform of `src/game/transform.rs`;
- `src/game/ball.rs` reads a contact normal and a contact point that may be absent.

Each module follows the view of the file it models. `Game.TransformComponent` and
`Transform.TransformComponent` are the two transform views.

Three behaviours of the code are worth naming:

- a paddle hit sets the vertical speed to `(|vx| * 0.25 + vy) * -0.97`, not `-|vy| * 0.97`;
- the paddle hit ratio is not clamped;
- `src/game/paddle.rs` moves the paddle by 8 pixels a tick with no bound on where it ends up.

## Model

| member | source | states |
|---|---|---|
| Transform.New | src/game/transform.rs:16-24 | a new transform starts with no motion to interpolate: its previous position is its position; origin and scale are kept |
| Transform.Default | src/game/transform.rs:27-35 | the default transform is at rest at the world origin with unit scale |
| Transform.DefaultIsNewAtOrigin | src/game/transform.rs:16-35 | the default transform is exactly what `new` builds at the origin with unit scale |
| Game.DefaultTransform | src/game.rs:484-495 | the default flat transform is at rest at (0, 0), with origin zero and unit scale |
| Game.RenderCommander.constructor | src/game.rs:411-415 | a new buffer has no commands and every binding at its default |
| Game.RenderCommander.BindTransparency | src/game.rs:417-419 | changes only the bound transparency, never the commands or another binding |
| Game.RenderCommander.BindTexture | src/game.rs:421-423 | changes only the bound texture |
| Game.RenderCommander.BindLayer | src/game.rs:425-427 | changes only the bound layer |
| Game.RenderCommander.BindColor | src/game.rs:429-431 | changes only the bound colour |
| Game.RenderCommander.Sprite | src/game.rs:433-455 | appends exactly one sprite command, stamped with the current bindings; the bindings stay |
| Game.RenderCommander.ClearCommands | src/game.rs:457-463 | empties the buffer and returns every binding to its default |
| Game.RenderCommander.Commands | src/game.rs:465-467 | returns the buffer's contents and leaves the buffer as it was |
| Game.PaddleVelocity | src/game.rs:559-568 | the velocity is reset each tick: -speed with only left held, +speed with only right held, 0 with both or neither |
| Game.ClampPaddleX | src/game.rs:570-576 | the result always lies in [32, 608]; a position inside is kept, and one outside goes to the nearer bound |
| Game.PlayerPaddleSystemRun | src/game.rs:552-576 | each paddle's velocity is recomputed from the held keys, and its x moves by that velocity and is then clamped into [32, 608]; its y and every other entity stay |
| Game.SpawnedFrom | src/game.rs:879-926 | a spawned ball starts at rest at the requested position with the requested velocity; it is held exactly when an owning paddle is named; its rigidbody has mass 1 and the ball's velocity; its collider is a ball collider of radius 0.125 |
| Game.BallColliderOf | src/game.rs:922-926 | a spawned ball's collider is centred on its body, in collision group 0 and ignoring group 0, so balls pass through each other |
| Game.LastOwned | src/game.rs:928-933 | finds the last request naming a paddle, or -1 when none names it |
| Game.HoldSpawnedOwner | src/game.rs:928-933 | after draining the queue, a paddle holds the ball of the last request that names it; paddles never named are unchanged |
| Game.SpawnBallSystemRun | src/game.rs:875-937 | one new entity per request, in order, with the components of `SpawnedFrom`; the paddles end as `HoldSpawnedOwner` describes |
| Input.LetterIndex | gfx-lib/src/input.rs:75-114 | a letter key's index is its position in the alphabet; any other key gives -1 |
| Input.KeycodeToChar | gfx-lib/src/input.rs:75-114 | letters, Space, Period and Comma give a character, and every other key gives none; Space, Period and Comma give ' ', '.' and ',' |
| Input.LetterTyped | gfx-lib/src/input.rs:75-114 | a letter key types its letter, lower-case or upper-case under shift |
| Input.CharDeterminesKey | gfx-lib/src/input.rs:75-114 | the character typed determines the key that typed it |
| Input.KeycodeToCharInjective | gfx-lib/src/input.rs:75-114 | two different keys never type the same character under the same shift state |
| Input.Lookup | gfx-lib/src/input.rs:60-72 | a key never seen reads as false; a key seen reads as its stored flag |
| Input.EditText | gfx-lib/src/input.rs:43-50 | Back drops the last character, or leaves the empty text empty; a typing key appends its character; any other key changes nothing |
| Input.PressIsFreshOnly | gfx-lib/src/input.rs:36-41 | a press marks the key pressed exactly when it was not already held; the key is then held |
| Input.PressLeavesOtherKeys | gfx-lib/src/input.rs:36-41 | a press changes no other key's pressed or held state |
| Input.RepeatedPressIsNotFresh | gfx-lib/src/input.rs:37-39 | an auto-repeated press, with no release since the last one, is not fresh |
| Input.ReleaseMarksReleased | gfx-lib/src/input.rs:52-55 | a release marks the key released and no longer held |
| Input.PressAfterReleaseIsFresh | gfx-lib/src/input.rs:36-55 | after a release, the next press of the same key is fresh again |
| Input.InputState.constructor | gfx-lib/src/input.rs:14-21 | no key seen and no text typed |
| Input.InputState.ClearPressedAndReleased | gfx-lib/src/input.rs:23-26 | forgets fresh presses and releases; held keys and the typed text stay |
| Input.InputState.ClearInputString | gfx-lib/src/input.rs:28-30 | empties the typed text; key state stays |
| Input.InputState.ProcessInput | gfx-lib/src/input.rs:32-57 | the new keyboard state is the old one after the event, as `Process` describes (the key code is unwrapped) |
| Input.InputState.IsKeyPressed | gfx-lib/src/input.rs:60-62 | unknown keys are not pressed; known keys read their flag |
| Input.InputState.IsKeyReleased | gfx-lib/src/input.rs:65-67 | unknown keys are not released; known keys read their flag |
| Input.InputState.IsKeyHeld | gfx-lib/src/input.rs:70-72 | unknown keys are not held; known keys read their flag |
| Sprite.Quad | gfx-lib/src/sprite.rs:99-124 | a sprite's four corners, clockwise from the top left, span exactly its rectangle at depth 0 in its colour |
| Sprite.MeshSizes | gfx-lib/src/sprite.rs:85-137 | the vertex buffer holds four vertices per sprite |
| Sprite.IndicesLength | gfx-lib/src/sprite.rs:126-133 | the index buffer holds six indices per sprite |
| Sprite.IndicesOfSprite | gfx-lib/src/sprite.rs:126-133 | sprite i's indices sit at 6i..6i+5 and are 4i, 4i+1, 4i+2, 4i+2, 4i+3, 4i |
| Sprite.IndicesInRange | gfx-lib/src/sprite.rs:86-133 | every index names one of the mesh's 4n vertices |
| Sprite.VerticesOfSprite | gfx-lib/src/sprite.rs:99-124 | sprite i's quad occupies vertices 4i..4i+3 |
| Sprite.SpriteBatch.constructor | gfx-lib/src/sprite.rs:32-47 | a new batch is empty and dirty, with an empty mesh |
| Sprite.SpriteBatch.ConstructMesh | gfx-lib/src/sprite.rs:73-138 | a clean batch is left alone; a dirty one gets the mesh of its sprites and becomes clean; the sprites stay |
| Sprite.SpriteBatch.Add | gfx-lib/src/sprite.rs:144-154 | appends exactly one sprite and marks the batch dirty; the mesh waits for the next build |
| Sprite.SpriteBatch.Clear | gfx-lib/src/sprite.rs:156-159 | drops every sprite and marks the batch dirty |
| Render.RenderState.constructor | src/game/render.rs:23-27 | no commands, every binding at its default |
| Render.RenderState.BindTransparency | src/game/render.rs:29-31 | changes only the bound transparency, never the commands |
| Render.RenderState.BindTexture | src/game/render.rs:33-35 | changes only the bound texture |
| Render.RenderState.BindLayer | src/game/render.rs:37-39 | changes only the bound layer |
| Render.RenderState.BindColor | src/game/render.rs:41-43 | changes only the bound colour |
| Render.RenderState.Sprite | src/game/render.rs:45-67 | appends exactly one command, drawn with shader program 1 and the current bindings |
| Render.RenderState.ClearCommands | src/game/render.rs:69-75 | no commands; texture and layer 0; colour and transparency at their defaults |
| Render.RenderState.Commands | src/game/render.rs:77-79 | returns the buffer's contents and leaves the buffer as it was |
| Render.DrawPosition | src/game/render.rs:109-117 | an entity without a rigidbody is drawn where it is; one with a rigidbody is drawn at its previous position at fraction 0 and at its current one at fraction 1 |
| Render.DrawCommandsAt | src/game/render.rs:106-130 | one command per drawable entity, the k-th for the k-th entity, with that entity's texture, layer, colour and region, the bound transparency and shader program 1; an entity without a rigidbody is drawn at its own position |
| Render.SpriteRenderSystemRun | src/game/render.rs:106-130 | every entity with a transform and a sprite gets one command, in entity order; the bound transparency is kept, and texture, colour and layer are left as the last drawn entity's (unchanged when nothing is drawn) |
| Paddle.Movement | src/game/paddle.rs:28-37 | -8 with only left held, +8 with only right held, 0 with both or neither |
| Paddle.PlayerPaddleSystemRun | src/game/paddle.rs:26-46 | each paddle moves sideways by the tick's movement with no bound; its height, the rest of its transform, every other entity and the paddle components stay |
| RunState.LevelState.constructor | src/game/level.rs:33-47 | level 0, score 0, three lives, no paddle, and the given load request pending |
| RunState.LevelState.Setup | src/game/level.rs:49-55 | records the level and paddle, resets the score, gives 99 lives and clears the load request; the playfield size stays |
| Brick.NewBrick | src/game/brick.rs:30-37 | a brick is indestructible exactly when it starts with no hit points |
| Brick.HitSetMembers | src/game/brick.rs:71-86 | a brick is hit exactly when some event has both entities, the brick first and a ball second |
| Brick.AtMostOneDamage | src/game/brick.rs:88-93 | however many contacts it had, a brick loses at most one hit point a tick; indestructible and unhit bricks are untouched |
| Brick.DestroyedIff | src/game/brick.rs:88-98 | a brick is destroyed exactly when it was hit, is destructible and has no hit points left; indestructible bricks never are |
| Brick.NextLoadRequest | src/game/brick.rs:125-131 | a pending request is kept; otherwise the next level is requested exactly when no destructible brick was found |
| Brick.CollectHits | src/game/brick.rs:71-86 | the hit-collection loop computes exactly the hit set |
| Brick.DamageBricks | src/game/brick.rs:88-98 | the damage loop applies one hit to each hit brick, deletes exactly the destroyed ones and adds 100 points for each |
| Brick.FindDestructible | src/game/brick.rs:115-123 | the scan finds a destructible brick exactly when one is live |
| Brick.BrickSystemRun | src/game/brick.rs:67-132 | a tick damages the live hit bricks once each, scores 100 per destroyed brick, and sets the load request as `NextLoadRequest` says for the scan's answer |
| Brick.CompletionSeenNextTick | src/game/brick.rs:93-123 | deletions are deferred, so a tick that destroys the last destructible bricks still finds them in its scan; the next tick's scan does not |
| Ball.NewBall | src/game/ball.rs:35-43 | a new ball has not moved and does not spin; it keeps the given velocity and holder |
| Ball.SnapToAxis | src/game/ball.rs:147-175 | off the 0.1 threshold, the snapped normal is an axis unit vector chosen by the normal's dominant component and its sign |
| Ball.SnapOnThreshold | src/game/ball.rs:147-175 | a normal with a component exactly on the threshold is passed through unchanged |
| Ball.ReflectAboutAxis | src/game/ball.rs:187-193 | reflecting about an axis normal negates exactly the velocity component along it, then speeds up by 1% |
| Ball.PaddleDeflect | src/game/ball.rs:118-123 | vertical speed is `(|vx| * 0.25 + vy) * -0.97`; a centre hit goes straight up, and the hit box edges give a sideways speed of plus or minus 5 |
| Ball.PaddleSendsBallUp | src/game/ball.rs:118-123 | a ball falling onto the paddle leaves it going up; hits beyond an edge, possible because the ratio is not clamped, push harder than 5 |
| Ball.OnCollision | src/game/ball.rs:95-219 | events missing an entity, or not led by a ball, change nothing; a paddle hit gives the limited `PaddleDeflect` of the velocity, measured at the contact point or, without one, at the ball's own x, with no spin, and leaves the bounce set alone; a hit with no normal changes nothing; any other hit gives the limited reflection about the snapped inverted normal, keeping the spin; only brick bounces are recorded, and a second brick bounce in a tick changes nothing; only the ball's velocity ever changes |
| Ball.ContactFlipsOneComponent | src/game/ball.rs:147-193 | a wall or brick contact with a normal off the threshold flips exactly one velocity component, the one along the snapped axis, before the 1% speed-up and the limit |
| Ball.Bounces | src/game/ball.rs:93-221 | the contact pass keeps the set of balls |
| Ball.BouncedIff | src/game/ball.rs:177-185 | after the pass a ball is marked bounced exactly when it was marked before or some event bounced it off a brick |
| Ball.BallsKeepHolders | src/game/ball.rs:93-221 | the contact pass never changes which paddle holds a ball, or its last position |
| Ball.OnCollisionStep | src/game/ball.rs:103-219 | the contact loop's body does exactly what `OnCollision` describes |
| Ball.ApplyCollisions | src/game/ball.rs:92-221 | the contact loop does exactly what `Bounces` describes, starting from an empty bounce set |
| Ball.RespawnsCount | src/game/ball.rs:243-259 | every lost ball brings a respawn request, except the one that takes the lives to zero |
| Ball.PinnedTransform | src/game/ball.rs:226-228 | a held ball is moved to its paddle's held position; a free ball's transform is untouched |
| Ball.DrivenBody | src/game/ball.rs:226-240 | a held ball's body is disabled; a free ball's body is dynamic and takes the ball's velocity |
| Ball.UpdateBall | src/game/ball.rs:226-262 | a free ball below the bottom margin is lost and costs a life; a new ball is requested on the player's paddle exactly when lives remain |
| Ball.VisitBalls | src/game/ball.rs:223-263 | after the per-ball loop, the lost balls are exactly the free fallen ones; lives drop by their number, and the respawn count follows `RespawnsCount` |
| Ball.UpdateBalls | src/game/ball.rs:223-263 | the per-ball loop over the live balls updates the lives and leaves the rest of the run state alone |
| Ball.BallSystemRun | src/game/ball.rs:77-264 | the contact pass, then the per-ball loop on the bounced velocities: holders are kept, held balls are pinned to their paddle, free balls' bodies carry the new velocities, other bodies stay, lost balls cost lives, and the level size is kept |
| Ball.SpawnPosition | src/game/ball.rs:294-300 | a ball with an owner appears at the owner's held position, otherwise at the requested position |
| Ball.SpawnedFrom | src/game/ball.rs:302-351 | a spawned ball rests at its spawn position with the requested velocity and owner, in a dynamic body of mass 1 capped at speed 12, with a ball collider of 2.75 pixels in world units that other balls pass through |
| Ball.LastOwnedIsLast | src/game/ball.rs:354-359 | the index found names the paddle, and no later request names it |
| Ball.SpawnBall | src/game/ball.rs:294-359 | one request: the components of `SpawnedFrom`, and the owning paddle, if any, holding the new ball |
| Ball.SpawnBallSystemRun | src/game/ball.rs:289-363 | requests become entities in order; each paddle holds the ball of the last request naming it; other paddles are unchanged |
| Level.Filter | src/game/level.rs:95-96 | keeps only accepted characters, and never lengthens the text |
| Level.FilterCounts | src/game/level.rs:95-96 | `retain` loses no accepted character: each occurs in the result exactly as often as in the text, and a rejected one not at all |
| Level.NewlinesAreWhitespace | src/game/level.rs:95-96 | dropping newlines before dropping whitespace makes no difference |
| Level.Decode | src/game/level.rs:100-107 | a character gives air exactly when it is not one of '0' to '4' |
| Level.DecodeAll | src/game/level.rs:99-110 | one brick type per character, each the decoding of that character |
| Level.ImportEncoded | src/game/level.rs:95-110 | decoding a written level gives back its bricks, because every type has a non-whitespace character of its own |
| Level.ImportLevelString | src/game/level.rs:94-110 | the decoding loop produces one brick type per non-whitespace character of the file text |
| Level.OnlyGreyIsIndestructible | src/game/level.rs:186-193 | of the types a level places, grey alone is indestructible; the others take one to four hits |
| Level.CellsPlacedFrom | src/game/level.rs:173-226 | every placed brick comes from a non-air cell, stands at that cell's position, has that cell's hit points and the next entity id |
| Level.CellsIncreasing | src/game/level.rs:173-181 | cells are placed in increasing row-major order, so no cell gets two bricks |
| Level.CellsCover | src/game/level.rs:180-184 | every non-air cell gets a brick |
| Level.PlaceAt | src/game/level.rs:175-217 | the brick for column x of row y stands at (20x, 32 + 13y) as cell 16y + x |
| Level.PlaceRow | src/game/level.rs:174-227 | one row of the grid walk places that row's non-air cells in column order |
| Level.BuildLevel | src/game/level.rs:126-289 | the paddle comes first, then one brick per non-air cell, then three walls; one ball is requested on the paddle, and the run state is set up for the level |
| Level.BuiltBricks | src/game/level.rs:173-228 | a built level has a brick at a cell exactly when that cell is not air, never two at one cell, and each brick stands there with its type's hit points |
| Physics.NewRigidbody | src/physics.rs:103-113 | a new rigidbody has no spin and no handle, remembers its velocity as the last one, and is capped at speed 100 |
| Physics.NewBridge | src/physics.rs:49-82 | a new physics state has only the ground body and knows no entity, consistently |
| Physics.OneBodyPerEntity | src/physics.rs:194-222 | in a consistent state an entity owns at most one body, and it is the one its handle names |
| Physics.InsertBodyFacts | src/physics.rs:194-222 | inserting a body removes the entity's old body first, leaves one fresh body that its handle names, keeps the state consistent and touches no other entity |
| Physics.PushVelocity | src/physics.rs:224-239 | a modified rigidbody changes only its own body's velocity; an entity without a body changes nothing |
| Physics.PushPosition | src/physics.rs:254-264 | a modified transform moves only its own body; an entity without a body changes nothing |
| Physics.RemoveBody | src/physics.rs:241-252 | removal deletes both the handle entry and the body, and nothing else; an entity without one changes nothing |
| Physics.ColliderFor | src/physics.rs:342-351 | a new collider sits on its entity's own body with no offset if there is one, else on the ground at the transform's position over 32 |
| Physics.InsertColliderFacts | src/physics.rs:331-367 | inserting a collider replaces the entity's old one, keeps the state consistent and touches no other entity |
| Physics.RemoveCollider | src/physics.rs:379-390 | removal deletes both the handle entry and the collider, and nothing else |
| Physics.PhysicsState.constructor | src/physics.rs:49-82 | the ground body only, interpolation fraction 0 |
| Physics.PhysicsState.InsertRigidbody | src/physics.rs:198-217 | the state becomes `InsertBody` of the old one, and the returned handle is the entity's entry |
| Physics.PhysicsState.SetVelocity | src/physics.rs:226-238 | the state becomes `PushVelocity` of the old one |
| Physics.PhysicsState.SetPosition | src/physics.rs:256-263 | the state becomes `PushPosition` of the old one |
| Physics.PhysicsState.RemoveRigidbody | src/physics.rs:243-251 | the state becomes `RemoveBody` of the old one |
| Physics.PhysicsState.AddCollider | src/physics.rs:335-362 | the state becomes `InsertCollider` of the old one |
| Physics.PhysicsState.DropCollider | src/physics.rs:381-389 | the state becomes `RemoveCollider` of the old one |
| Physics.ClassifiedMembers | src/physics.rs:164-192 | an entity lands in a bitset exactly when some event of a matching kind names it |
| Physics.InsertBodies | src/physics.rs:194-222 | each joined entity gets a fresh body from its transform and rigidbody, and its rigidbody records the handle; other entities' bodies and all colliders stay |
| Physics.PushVelocities | src/physics.rs:224-239 | every body of a joined entity takes its component's velocity; nothing else changes |
| Physics.RemoveBodies | src/physics.rs:241-252 | the joined entities lose their entries and bodies; every other body stays as it was |
| Physics.PushPositions | src/physics.rs:254-264 | every body of a joined entity moves to its transform's position; nothing else changes |
| Physics.InsertThenPush | src/physics.rs:194-239 | after the first two phases every inserted entity has a body at its transform's position with its component's velocity and speed cap, whose handle its component records; every modified entity's body carries its component's velocity; every other entity keeps its body |
| Physics.RemoveThenMove | src/physics.rs:241-264 | after the last two phases the removed entities have no body; every remaining body is the one it had, moved to its transform's position exactly when its entity is in the moved join; every entity outside both joins keeps its body |
| Physics.InsertPushFrames | src/physics.rs:194-239 | pushing velocities after inserting keeps each inserted body's content, and an entity outside both joins keeps its body |
| Physics.RemoveMoveKeepsOthers | src/physics.rs:241-264 | removing and then moving bodies leaves the body of every entity outside both joins as it was |
| Physics.SendPhasesFrames | src/physics.rs:194-264 | over all four phases, a surviving inserted body keeps its content and an entity outside the four joins keeps its body |
| Physics.SendPhases | src/physics.rs:194-264 | the four phases in order: a removal overrides an insertion, an inserted body that survives keeps the position, velocity and speed cap it was created with, the pushed velocity survives the move, and every entity outside the four joins keeps its body |
| Physics.InsertColliders | src/physics.rs:331-367 | each joined entity gets a fresh collider as `ColliderFor` describes; other entities' colliders and all bodies stay |
| Physics.RemoveColliders | src/physics.rs:379-390 | the joined entities lose their entries and colliders; every other collider and all bodies stay |
| Physics.RigidbodySendSystem.constructor | src/physics.rs:139-147 | all four bitsets start empty |
| Physics.RigidbodySendSystem.ReadEvents | src/physics.rs:157-192 | the bitsets are cleared and hold exactly the entities of this tick's events of each kind; a removed transform is ignored |
| Physics.RigidbodySendSystem.Run | src/physics.rs:157-265 | after classifying, the four phases keep the state consistent; a rigidbody only ever gains a handle, and only live inserted ones with a transform do; a live inserted entity with a transform that is not also removed ends with a body built from its transform and component, whose handle its component records; an entity outside the four joins keeps its body, so a run with no events changes no body; a live removed entity has no body; a modified entity's body carries its component's velocity and a modified transform's body sits at its position; the colliders stay |
| Physics.ColliderSendSystem.constructor | src/physics.rs:276-284 | all four bitsets start empty |
| Physics.ColliderSendSystem.ReadEvents | src/physics.rs:294-329 | the bitsets are cleared and hold exactly the entities of this tick's events of each kind |
| Physics.ColliderSendSystem.Run | src/physics.rs:294-404 | after classifying, the phases keep the state consistent and never touch a body |
| Physics.Translate | src/physics.rs:426-474 | a started contact gives exactly one Started event carrying the pair's collider handles, the entities those colliders were created for, and the deepest contact's normal and depth; a stopped one gives none |
| Physics.TranslatedNamesColliderOwners | src/physics.rs:453-467 | in a consistent state, each entity an event names is the one whose collider entry is the event's collider handle |
| Physics.TranslateAll | src/physics.rs:426-478 | the events written are one per started contact, in notification order: the event for a started notification sits at the count of started ones before it and is its translation |
| Physics.WorldStepRun | src/physics.rs:421-485 | the events written after a step are exactly `TranslateAll` of the step's notifications |
| Physics.ReceivedShiftsLast | src/physics.rs:500-508 | a read-back first saves the current position and velocity as the previous ones, then takes the body's |
| Physics.SendThenReceive | src/physics.rs:194-222 | sending a transform and rigidbody to a body and reading it back returns the same position and velocity |
| Physics.RigidbodyReceiveRun | src/physics.rs:497-515 | every entity with a transform and a rigidbody takes its body's state as `Received` describes; every other entity stays |

## Left out

- Engine: the physics engine's step, continuous collision detection and contact-manifold extraction are not modelled. Bodies and colliders are an abstract set with fresh handles. A step's contact notifications and contact pairs are parameters.
- The panic in `WorldStepPhysicsSystem::run`, for a contact whose pair the engine does not know, is a precondition of `Physics.Translate`.
- Unwraps and `expect`s are preconditions. These cover:
  - a paddle transform, a holding paddle, an owning paddle and a key code;
  - the ball's own transform used when a contact has no point (`src/game/ball.rs:112`, `Ball.HasPaddleTransforms`);
  - the deepest contact of a manifold (`src/physics.rs:455-458`, `Physics.Translatable` requires the pair to have one);
  - the rigidbody handle read back after a step (`src/physics.rs:499`, the requires of `Physics.RigidbodyReceiveRun`);
  - the 256-cell index into a level's brick list (`src/game/level.rs:181`, the requires of `Level.BuildLevel`).
- Floating point: the source's `f32` and `f64` arithmetic is modelled over exact reals. Rounding, NaN, infinities and conversions between `f32` and `f64` are not modelled.
- Transform origins: `src/game/level.rs:148`, `src/game/level.rs:204` and `src/game/ball.rs:304` call `TransformComponent::new` with two arguments, a position and a scale, while `src/game/transform.rs:17` takes three. The model gives these transforms the origin `Zero`.
- Magnitude limits: the square-root normalisation and the magnitude clamp of ball velocities are the `limit` parameter. No property of them is assumed.
- Render.DrawPosition: the interpolation is stated only at the fractions 0 and 1.
- Sprite.Quad: it computes the texture coordinates as the region divided by 256, but no contract states them.
- Audio playback and random sound choice are no-ops. Console output is left out.
- Integer widths: scores, lives, hit points and sizes are unbounded integers. `u32` lives going below zero, `i32` hit points and `u32` overflow are not modelled. The source subtracts a life on every lost ball.
- Entity generations, storages and the dispatcher are not modelled. Entity creation is handing out consecutive ids. A deletion takes effect at the end of the tick, so joins in the same tick still see deleted entities (see `Brick.CompletionSeenNextTick`).
- Level files: reading the level folder and parsing a file name as the level id are not modelled. Only the text-to-bricks decoding is.
- Entity parts not modelled:
  - the paddle's scale;
  - the sprite and collider components that the paddle and brick builders attach, and the sprite component each ball spawner attaches;
  - wall colliders;
  - collider shapes and collision groups inside the physics bridge, which pass through untouched;
  - the collider component's offset, which the source never uses;
  - `PlayerPaddleComponent::new(level_width)`, which is not part of this model.
- Colours and transparency: `Transparency` and `Color` are opaque values with fixed defaults. The renderer and colour modules are not part of this model.
- Not modelled:
  - the window event loop and its timing;
  - the program entry point;
  - the library's module declarations;
  - GPU buffers and textures;
  - the older `BallSystem` of `src/game.rs`, which `src/game/ball.rs` supersedes.
- Ball.OnCollision: only the entity-a-is-ball orientation acts, as in the code. A ball named second is ignored.
- Ball.PaddleDeflect: the sideways speed is stated at the centre and at both edges of the hit box, not as its full linear formula. `Ball.PaddleSendsBallUp` adds bounds beyond the edges.
- Ball.Bounces: its own contract states only that the set of balls is kept. What the pass does is stated by `Ball.BouncedIff`, `Ball.BallsKeepHolders` and, event by event, `Ball.OnCollision`.
- Physics.ColliderSendSystem.Run: states only that the run keeps the bookkeeping consistent and touches no body. What it does to colliders is stated phase by phase by `Physics.InsertColliders` and `Physics.RemoveColliders`, which it calls. The source only logs modified colliders and has its modified-transform phase commented out, so neither changes anything.
- Physics.Valid: nothing ties a collider's parent to a live body. After `RemoveBody` a collider may still name the removed body's handle; the engine's own handling of that is not modelled.
- Game.SpawnedFrom: the rigidbody is recorded by the arguments passed to `RigidbodyComponent::new`, since the three-argument constructor called there is not part of this model. The collider's shape is recorded by its radius, and the fourth constructor argument is kept uninterpreted.
- Render.SpriteRenderSystemRun: draws in increasing entity order, standing in for the storage's join order.
- Paddle hit box: `src/game/paddle.rs` does not define `PADDLE_HIT_BOX_WIDTH`. The model uses the paddle bounding-box width of 58 that `src/game.rs` defines.
