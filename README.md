# Brick-breaker collider tags and collision resolution, in Dafny

This project models the gameplay core of a Bevy/Rapier 2D brick-breaking game (`src/main.rs`). It covers two parts.

- **The collider tag codec** (`tags.dfy`, module `Tags`). Every Rapier collider carries a 128-bit `user_data` word. The ball and the bricks store `(entity.to_bits() as u128) << 64 | kind as u128`. Walls and the bat store only `kind as u128`. The resolver reads the kind back as `user_data & 0xFFFFFFFFFFFFFFFF` and the entity as `user_data >> 64`. The model works on `bv128` and `bv64` with the same operators. It proves that packing and unpacking are inverse in both directions. It also proves that distinct (entity, kind) pairs give distinct tags, and that wall and bat tags decode to entity 0 with kinds 0 and 3.
- **The collision resolver** (`collisions.dfy`, module `Collisions`). `check_collision_events` drains the contact-event queue. `HandleContact` and `Drain` state one step and a whole drain on values. `Panic` is the outcome of an `unwrap` on a missing collider. The class `CollisionSystem` holds the shared resources in place:
  - the event queue,
  - the collider set (handle to tag and parent body),
  - the rigid-body set,
  - the live entities,
  - the score.

  Its method `CheckCollisionEvents` pops events in a `while` loop. It is proved to end in the state `Drain` predicts, with an empty queue. The lemmas prove:
  - Wall contacts are inert.
  - A brick contact destroys exactly one brick (collider 0's first), together with its body and that body's colliders, and scores exactly 10.
  - A resolution step keeps the resources consistent.
  - Destruction is complete (entity, body and collider all go).
  - Over a drain, the score rises by exactly 10 for each scoring contact, and by exactly 10 per brick entity despawned.

`CollisionSystem.Publish` stands for the physics step, which appends its contact events to the queue; Rapier's event production is not part of this model.

## Model

| member | source | states |
|---|---|---|
| Tags.Discriminant | src/main.rs:103-108 | The kinds have the default discriminants Wall=0, Ball=1, Brick=2, Bat=3: all below 4, and 0 and 2 identify Wall and Brick exactly |
| Tags.DiscriminantInjective | src/main.rs:103-108 | Distinct kinds have distinct discriminants |
| Tags.Pack | src/main.rs:148 | The packing expression puts the kind bits exactly in the low 64 bits and the entity bits exactly in the high 64 bits, with no overlap |
| Tags.KindBits | src/main.rs:286-287 | The masked low half is the kind half: packed back with the word's high half it rebuilds the whole `user_data` |
| Tags.EntityBits | src/main.rs:291-292 | The shifted high half is the entity half: packed back with the word's low half it rebuilds the whole `user_data` |
| Tags.Encode | src/main.rs:148 | The tag of (entity, kind) decodes, by the mask and the shift, to exactly that kind's discriminant and that entity |
| Tags.UnpackPack | src/main.rs:286-292 | Masking the low 64 bits of the packing of `id` and `kind` gives `kind`, and shifting right by 64 gives `id`, for every 64-bit `id` and `kind` |
| Tags.PackUnpack | src/main.rs:286-292 | Every 128-bit user-data word is the packing of its decoded entity and kind halves, so decoding loses nothing |
| Tags.EncodeInjective | src/main.rs:265 | Tags built from distinct (entity, kind) pairs are distinct |
| Tags.BallTag | src/main.rs:148 | The ball's tag decodes to kind Ball and the ball's entity |
| Tags.BrickTag | src/main.rs:265 | A brick's tag decodes to kind Brick and that brick's entity |
| Tags.WallTag | src/main.rs:193 | A wall's tag is the encoding of (entity 0, Wall) and decodes to kind 0 and entity 0 |
| Tags.BatTag | src/main.rs:169 | The bat's tag is the encoding of (entity 0, Bat) and decodes to kind 3 and entity 0 |
| Collisions.IsWall | src/main.rs:289 | The wall test on the kind half holds exactly when the tag is the wall encoding of the entity it names, and so of every tag `spawn_wall` attaches |
| Collisions.IsBrick | src/main.rs:294 | The brick test on the kind half holds exactly when the tag is the brick tag of the entity it names |
| Collisions.Detached | src/main.rs:296 | Removing a rigid body keeps exactly the colliders attached to other bodies, each unchanged, and no collider of the removed body survives |
| Collisions.DestroyBrick | src/main.rs:295-299 | Destroying a brick despawns exactly the entity its tag names, removes exactly its parent body and exactly the colliders attached to it, leaves every other collider unchanged, and adds 10 to the score |
| Collisions.HandleContact | src/main.rs:280-311 | One event: `Stopped` changes nothing. `Started` panics exactly when a collider is missing. Otherwise the score rises by 10 exactly when the contact has no wall and at least one brick, and by 0 otherwise (never 20). Colliders, bodies and entities only shrink, and surviving colliders keep their tags |
| Collisions.Drain | src/main.rs:279-312 | A drain that does not panic never lowers the score, and only removes colliders, bodies and entities |
| Collisions.WallContactIsInert | src/main.rs:289 | A `Started` contact where either collider has kind bits 0 (Wall) leaves the score, bodies, colliders and entities unchanged |
| Collisions.NoBrickContactIsInert | src/main.rs:294-307 | A `Started` contact where neither collider is a brick changes nothing |
| Collisions.BrickContactDestroysOne | src/main.rs:294-307 | A non-wall contact with a brick destroys collider 0's brick if it is one, else collider 1's. That brick's entity is despawned. Its parent body and exactly the colliders attached to it are removed. The score rises by exactly 10. Nothing else changes |
| Collisions.BrickAgainstBrickDestroysFirst | src/main.rs:301-307 | When both colliders are bricks on different bodies, only collider 0's is destroyed: collider 1, its body and its entity survive, and the score rises by 10, not 20 |
| Collisions.DestroyBrickIsAtomic | src/main.rs:294-303 | In a consistent world, destroying a brick leaves no trace: its entity, body and collider are gone. No surviving collider is attached to that body or names that brick entity |
| Collisions.HandleContactPreservesConsistent | src/main.rs:294-307 | Each resolution step keeps three facts true: every collider's body is live, every brick collider's entity is live, and colliders of one brick entity share one body |
| Collisions.DrainPreservesConsistent | src/main.rs:279-312 | A whole drain keeps the resources consistent |
| Collisions.DrainScoreAgainst | src/main.rs:279-312 | The score change of a drain, counted against any collider map that agrees with the current one |
| Collisions.DrainScore | src/main.rs:279-312 | Across a drain that does not panic, the score rises by exactly 10 × the number of `Started` contacts with no wall and at least one brick |
| Collisions.DrainScoresPerDespawn | src/main.rs:294-307 | In a consistent world, across a drain that does not panic, the score rises by exactly 10 per brick entity despawned: score + 10 × live entities is unchanged |
| Collisions.DrainScoreBounded | src/main.rs:110-112 | A drain raises the score by at most 10 per collider it removes, so the `u32` score never exceeds 10 × the colliders spawned at the start of the session |
| Collisions.SecondContactWithDestroyedBrickPanics | src/main.rs:282-283 | Two contacts with the same brick in one drain: the first destroys it, the second panics on the missing collider, whether the brick is collider 0 or collider 1 of the second contact |
| Collisions.BallHitsBrick | src/main.rs:294-300 | The ball hitting brick entity 7 removes that entity, its body and its collider, and takes the score from 0 to 10 |
| Collisions.CollisionSystem.constructor | src/main.rs:42 | A session starts with the spawned resources and a score of 0 |
| Collisions.CollisionSystem.CheckCollisionEvents | src/main.rs:272-313 | Popping every event in place: afterwards the queue is empty and the resources are exactly what `Drain` predicts. The score has not decreased and rose by 10 per scoring contact. Consistency is preserved. From a consistent start, the score rose by exactly 10 per entity despawned. The score plus 10 × the live colliders has not grown |

## Notes on the behaviour modelled

- The resolver calls `unwrap` on both collider lookups (src/main.rs:282-283). A drain that names a collider already removed earlier in the same drain therefore panics; it is not a no-op. `CheckCollisionEvents` requires that its drain does not panic. `Drain` returns `Panic(handle)` for the failing case. `SecondContactWithDestroyedBrickPanics` shows that two contacts with one brick in a drain reach that case. A resolver that tolerated stale handles would skip the second contact instead; this one does not.
- Only one brick per contact is destroyed, because of the `else if` (src/main.rs:301). A resolver that tested both colliders independently would destroy both bricks of a brick-against-brick contact; this one destroys only collider 0's.
- The kind check compares the raw low 64 bits with `Wall as u64` and `Brick as u64`. A tag whose low half is not a discriminant is therefore simply "not a wall and not a brick".
- Walls and the bat decode to entity bits 0. The resolver never uses that value, because walls suppress all action and the bat is never a brick.

## Left out

- Bevy app wiring, window, cameras, UI text and clear colour (src/main.rs:30-101): declarative setup with no logic.
- `scoring_system` (src/main.rs:354-358): it only formats the score into on-screen text.
- Rapier configuration: gravity, scale and timestep policy (src/main.rs:63-72). These are parameters of a foreign library.
- Entity factory geometry: positions, sizes, brick grid spacing, hsluv colours, restitution, friction and `RAPIER_SCALE` conversions (src/main.rs:124-270). All of this is `f32` data. Only the tags the spawners attach are modelled.
- Spawning into the world: entity ids, body handles and collider handles are allocated by Bevy and Rapier. The model takes the spawned layout as the constructor's input. `Consistent` is the relation the spawners establish between those resources; it is not derived from a model of them.
- Paddle movement and clamping (`player_movement_rapier_system`, src/main.rs:315-352): floating-point vector arithmetic on a Rapier body.
- `commands.despawn` is deferred in Bevy. Here it is an immediate removal from the set of live entities. `RigidBodySet::remove` is modelled abstractly: it removes the body and every collider whose parent is that body. Joints and the rest of Rapier's bookkeeping are not modelled.
- Collisions.CollisionSystem.CheckCollisionEvents: the score is a `nat`, not a wrapping `u32`. Its contract states that the score plus 10 × the live colliders never grows across a call. A session starts at score 0 with the 314 colliders the game spawns (4 walls, 308 bricks, the ball and the bat). So the score stays at or below 3140 across any sequence of calls and cannot overflow.
- The physics step that fills the contact queue is external. `CollisionSystem.Publish` stands for it.
