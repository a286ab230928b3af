/**
 * The collision resolver of the brick-breaking game (`check_collision_events`).
 *
 * Once per frame the resolver drains the physics engine's contact-event queue.
 * For every `Started(c0, c1)` contact it looks both colliders up (a missing
 * collider is an `unwrap` on `None`, i.e. a panic), decodes their kinds from
 * their tags and, unless one of them is a wall, destroys at most one brick:
 * collider 0's if it is a brick, otherwise collider 1's. Destroying a brick
 * despawns its entity, removes its rigid body (which removes every collider
 * attached to that body) and adds 10 to the score. `Stopped` contacts do
 * nothing.
 *
 * The functions below state one resolution step and a whole drain on values;
 * the class `CollisionSystem` is the resolver itself, mutating the shared
 * resources in a loop, and is proved to follow them.
 */
module Collisions {
  import opened Tags

  type ColliderHandle = nat
  type BodyHandle = nat

  /** A live collider: its tag and the rigid body it is attached to. */
  datatype Collider = Collider(userData: bv128, parent: BodyHandle)

  /** A contact event published by the physics step. */
  datatype ContactEvent =
    | Started(c0: ColliderHandle, c1: ColliderHandle)
    | Stopped(c0: ColliderHandle, c1: ColliderHandle)

  /**
   * The resources the resolver reads and writes: the collider set, the rigid
   * body set, the live game entities and the score.
   */
  datatype World = World(
    colliders: map<ColliderHandle, Collider>,
    bodies: set<BodyHandle>,
    entities: set<EntityId>,
    score: nat)

  /** The result of resolving contacts: a new world, or the panic of an `unwrap` on a missing collider. */
  datatype Outcome = Ok(world: World) | Panic(missing: ColliderHandle)

  /** What destroying one brick adds to the score. */
  const BRICK_REWARD: nat := 10

  /**
   * The test `t == PhysicsEntityType::Wall as u64` on a collider's kind half:
   * it holds exactly of a tag that encodes a wall for the entity it names,
   * and so of every tag `spawn_wall` attaches.
   */
  predicate IsWall(c: Collider)
    ensures IsWall(c) <==> c.userData == Encode(EntityBits(c.userData), Wall)
    ensures c.userData == WallTag() ==> IsWall(c)
  {
    PackUnpack(c.userData);
    KindBits(c.userData) == Discriminant(Wall)
  }

  /**
   * The test `t == PhysicsEntityType::Brick as u64` on a collider's kind half:
   * it holds exactly of a tag that is the brick tag of the entity it names.
   */
  predicate IsBrick(c: Collider)
    ensures IsBrick(c) <==> c.userData == BrickTag(EntityBits(c.userData))
  {
    PackUnpack(c.userData);
    KindBits(c.userData) == Discriminant(Brick)
  }

  /** `m2` keeps a subset of the entries of `m1`, each unchanged. */
  ghost predicate SubMap(m2: map<ColliderHandle, Collider>, m1: map<ColliderHandle, Collider>)
  {
    forall h :: h in m2 ==> h in m1 && m2[h] == m1[h]
  }

  /**
   * The contact `ev` scores against the colliders `cs`: it is a `Started`
   * contact between two live colliders, neither of which is a wall, and at
   * least one of which is a brick.
   */
  predicate Scores(cs: map<ColliderHandle, Collider>, ev: ContactEvent)
  {
    && ev.Started?
    && ev.c0 in cs && ev.c1 in cs
    && !IsWall(cs[ev.c0]) && !IsWall(cs[ev.c1])
    && (IsBrick(cs[ev.c0]) || IsBrick(cs[ev.c1]))
  }

  /** The number of contacts in `evs` that score against `cs`. */
  function ScoringContacts(cs: map<ColliderHandle, Collider>, evs: seq<ContactEvent>): nat
  {
    if evs == [] then 0
    else (if Scores(cs, evs[0]) then 1 else 0) + ScoringContacts(cs, evs[1..])
  }

  /**
   * The colliders that survive `RigidBodySet::remove(body, ..)`: exactly those
   * attached to another body, each unchanged.
   */
  function Detached(cs: map<ColliderHandle, Collider>, body: BodyHandle): (r: map<ColliderHandle, Collider>)
    ensures SubMap(r, cs)
    ensures forall h :: h in cs ==> (h in r <==> cs[h].parent != body)
  {
    map h | h in cs && cs[h].parent != body :: cs[h]
  }

  /**
   * Destroy the brick whose collider is `c`: despawn the entity named by its
   * tag, remove its parent body with the colliders attached to it, and score.
   */
  function DestroyBrick(w: World, c: Collider): (r: World)
    ensures r.entities == w.entities - {EntityBits(c.userData)}
    ensures r.bodies == w.bodies - {c.parent}
    ensures SubMap(r.colliders, w.colliders)
    ensures forall h :: h in r.colliders ==> r.colliders[h].parent != c.parent
    ensures forall h :: h in w.colliders && w.colliders[h].parent != c.parent ==> h in r.colliders
    ensures r.score == w.score + BRICK_REWARD
  {
    World(Detached(w.colliders, c.parent),
          w.bodies - {c.parent},
          w.entities - {EntityBits(c.userData)},
          w.score + BRICK_REWARD)
  }

  /** One iteration of the drain loop. */
  function HandleContact(w: World, ev: ContactEvent): (r: Outcome)
    ensures ev.Stopped? ==> r == Ok(w)
    ensures r.Panic? <==> ev.Started? && (ev.c0 !in w.colliders || ev.c1 !in w.colliders)
    ensures r.Ok? ==> r.world.score == w.score + (if Scores(w.colliders, ev) then BRICK_REWARD else 0)
    ensures r.Ok? ==> SubMap(r.world.colliders, w.colliders)
    ensures r.Ok? ==> r.world.bodies <= w.bodies && r.world.entities <= w.entities
  {
    match ev
    case Stopped(_, _) => Ok(w)
    case Started(h0, h1) =>
      if h0 !in w.colliders then Panic(h0)
      else if h1 !in w.colliders then Panic(h1)
      else
        var c0, c1 := w.colliders[h0], w.colliders[h1];
        if !IsWall(c0) && !IsWall(c1) then
          if IsBrick(c0) then Ok(DestroyBrick(w, c0))
          else if IsBrick(c1) then Ok(DestroyBrick(w, c1))
          else Ok(w)
        else Ok(w)
  }

  /** Draining the queue `evs`, front first, stopping at the first panic. */
  function Drain(w: World, evs: seq<ContactEvent>): (r: Outcome)
    ensures r.Ok? ==> w.score <= r.world.score
    ensures r.Ok? ==> SubMap(r.world.colliders, w.colliders)
    ensures r.Ok? ==> r.world.bodies <= w.bodies && r.world.entities <= w.entities
    decreases |evs|
  {
    if evs == [] then Ok(w)
    else
      match HandleContact(w, evs[0])
      case Panic(h) => Panic(h)
      case Ok(w1) => Drain(w1, evs[1..])
  }

  /**
   * The consistency the game's setup establishes between the resources: every
   * collider is attached to a live body, every brick collider names a live
   * entity, and the colliders of one brick entity share one body.
   */
  predicate Consistent(w: World)
  {
    && (forall h :: h in w.colliders ==> w.colliders[h].parent in w.bodies)
    && (forall h :: h in w.colliders && IsBrick(w.colliders[h]) ==>
          EntityBits(w.colliders[h].userData) in w.entities)
    && (forall h, h' ::
          h in w.colliders && h' in w.colliders &&
          IsBrick(w.colliders[h]) && IsBrick(w.colliders[h']) &&
          EntityBits(w.colliders[h].userData) == EntityBits(w.colliders[h'].userData)
          ==> w.colliders[h].parent == w.colliders[h'].parent)
  }

  /** A contact in which either collider is a wall changes nothing. */
  lemma WallContactIsInert(w: World, h0: ColliderHandle, h1: ColliderHandle)
    requires h0 in w.colliders && h1 in w.colliders
    requires KindBits(w.colliders[h0].userData) == 0 || KindBits(w.colliders[h1].userData) == 0
    ensures HandleContact(w, Started(h0, h1)) == Ok(w)
  {
  }

  /** A contact between two non-brick, non-wall colliders changes nothing. */
  lemma NoBrickContactIsInert(w: World, h0: ColliderHandle, h1: ColliderHandle)
    requires h0 in w.colliders && h1 in w.colliders
    requires !IsBrick(w.colliders[h0]) && !IsBrick(w.colliders[h1])
    ensures HandleContact(w, Started(h0, h1)) == Ok(w)
  {
  }

  /**
   * The brick destroyed by a non-wall contact is collider 0's when that is a
   * brick, and otherwise collider 1's: its entity is despawned, its body and
   * exactly the colliders attached to that body are removed, and the score
   * rises by exactly 10. Nothing else changes.
   */
  lemma BrickContactDestroysOne(w: World, h0: ColliderHandle, h1: ColliderHandle)
    requires h0 in w.colliders && h1 in w.colliders
    requires !IsWall(w.colliders[h0]) && !IsWall(w.colliders[h1])
    requires IsBrick(w.colliders[h0]) || IsBrick(w.colliders[h1])
    ensures var victim := if IsBrick(w.colliders[h0]) then w.colliders[h0] else w.colliders[h1];
      var r := HandleContact(w, Started(h0, h1));
      && r.Ok?
      && r.world.score == w.score + 10
      && r.world.entities == w.entities - {EntityBits(victim.userData)}
      && r.world.bodies == w.bodies - {victim.parent}
      && (forall h :: h in r.world.colliders <==> h in w.colliders && w.colliders[h].parent != victim.parent)
      && SubMap(r.world.colliders, w.colliders)
  {
  }

  /**
   * When both colliders are bricks of different bodies only collider 0's is
   * destroyed: collider 1, its body and (when it is another entity) its
   * entity all survive.
   */
  lemma BrickAgainstBrickDestroysFirst(w: World, h0: ColliderHandle, h1: ColliderHandle)
    requires h0 in w.colliders && h1 in w.colliders
    requires IsBrick(w.colliders[h0]) && IsBrick(w.colliders[h1])
    requires w.colliders[h0].parent != w.colliders[h1].parent
    ensures var r := HandleContact(w, Started(h0, h1));
      && r.Ok?
      && r.world.score == w.score + 10
      && h0 !in r.world.colliders
      && h1 in r.world.colliders
      && (w.colliders[h1].parent in w.bodies ==> w.colliders[h1].parent in r.world.bodies)
      && (EntityBits(w.colliders[h1].userData) != EntityBits(w.colliders[h0].userData) &&
          EntityBits(w.colliders[h1].userData) in w.entities
          ==> EntityBits(w.colliders[h1].userData) in r.world.entities)
  {
  }

  /**
   * Destroying a brick of a consistent world is complete: afterwards its
   * entity is gone, its body is gone, its collider is gone, and no surviving
   * collider is attached to that body or is a brick tagged with that entity.
   */
  lemma DestroyBrickIsAtomic(w: World, h: ColliderHandle)
    requires Consistent(w)
    requires h in w.colliders && IsBrick(w.colliders[h])
    ensures var c := w.colliders[h];
      var w' := DestroyBrick(w, c);
      && EntityBits(c.userData) !in w'.entities
      && c.parent !in w'.bodies
      && h !in w'.colliders
      && (forall h' :: h' in w'.colliders ==> w'.colliders[h'].parent != c.parent)
      && (forall h' :: h' in w'.colliders && IsBrick(w'.colliders[h']) ==>
            EntityBits(w'.colliders[h'].userData) != EntityBits(c.userData))
  {
  }

  /** Every resolution step keeps the world consistent. */
  lemma HandleContactPreservesConsistent(w: World, ev: ContactEvent)
    requires Consistent(w)
    requires HandleContact(w, ev).Ok?
    ensures Consistent(HandleContact(w, ev).world)
  {
  }

  /** A whole drain keeps the world consistent. */
  lemma {:induction false} DrainPreservesConsistent(w: World, evs: seq<ContactEvent>)
    requires Consistent(w)
    requires Drain(w, evs).Ok?
    ensures Consistent(Drain(w, evs).world)
    decreases |evs|
  {
    if evs != [] {
      HandleContactPreservesConsistent(w, evs[0]);
      DrainPreservesConsistent(HandleContact(w, evs[0]).world, evs[1..]);
    }
  }

  /**
   * The score after a drain, counted against any collider map `cs` that
   * agrees with the world's colliders: tags are never rewritten, and a drain
   * that does not panic finds every collider it looks up.
   */
  lemma {:induction false} DrainScoreAgainst(w: World, evs: seq<ContactEvent>, cs: map<ColliderHandle, Collider>)
    requires SubMap(w.colliders, cs)
    requires Drain(w, evs).Ok?
    ensures Drain(w, evs).world.score == w.score + BRICK_REWARD * ScoringContacts(cs, evs)
    decreases |evs|
  {
    if evs != [] {
      var ev := evs[0];
      var w1 := HandleContact(w, ev).world;
      assert Scores(cs, ev) == Scores(w.colliders, ev);
      DrainScoreAgainst(w1, evs[1..], cs);
    }
  }

  /**
   * Over one drain that does not panic the score rises by exactly 10 for each
   * `Started` contact with no wall and at least one brick, judged by the tags
   * the colliders had when the drain began.
   */
  lemma DrainScore(w: World, evs: seq<ContactEvent>)
    requires Drain(w, evs).Ok?
    ensures Drain(w, evs).world.score == w.score + BRICK_REWARD * ScoringContacts(w.colliders, evs)
  {
    DrainScoreAgainst(w, evs, w.colliders);
  }

  /**
   * In a consistent world the score of a drain rises by exactly 10 per brick
   * entity despawned: every scoring contact despawns one entity that was
   * live, and no other contact despawns any.
   */
  lemma {:induction false} DrainScoresPerDespawn(w: World, evs: seq<ContactEvent>)
    requires Consistent(w)
    requires Drain(w, evs).Ok?
    ensures Drain(w, evs).world.score + BRICK_REWARD * |Drain(w, evs).world.entities|
      == w.score + BRICK_REWARD * |w.entities|
    decreases |evs|
  {
    if evs != [] {
      var ev := evs[0];
      var w1 := HandleContact(w, ev).world;
      HandleContactPreservesConsistent(w, ev);
      if Scores(w.colliders, ev) {
        var c := if IsBrick(w.colliders[ev.c0]) then w.colliders[ev.c0] else w.colliders[ev.c1];
        assert w1 == DestroyBrick(w, c);
        assert EntityBits(c.userData) in w.entities;
        assert |w1.entities| == |w.entities| - 1;
      } else {
        assert w1 == w;
      }
      DrainScoresPerDespawn(w1, evs[1..]);
    }
  }

  /** A subset of a finite set is no larger. */
  lemma {:induction false} SubsetCard(a: set<ColliderHandle>, b: set<ColliderHandle>)
    requires a <= b
    ensures |a| <= |b|
    decreases |b|
  {
    if a != {} {
      var x :| x in a;
      SubsetCard(a - {x}, b - {x});
    }
  }

  /**
   * Every destroyed brick takes at least its own collider with it, so a drain
   * raises the score by at most 10 per collider it removes. With the game's
   * 314 colliders the `u32` score of a session never exceeds 3140.
   */
  lemma {:induction false} DrainScoreBounded(w: World, evs: seq<ContactEvent>)
    requires Drain(w, evs).Ok?
    ensures Drain(w, evs).world.score + BRICK_REWARD * |Drain(w, evs).world.colliders.Keys|
      <= w.score + BRICK_REWARD * |w.colliders.Keys|
    decreases |evs|
  {
    if evs != [] {
      var ev := evs[0];
      var w1 := HandleContact(w, ev).world;
      assert w1.colliders.Keys <= w.colliders.Keys;
      if Scores(w.colliders, ev) {
        var gone := if IsBrick(w.colliders[ev.c0]) then ev.c0 else ev.c1;
        assert w1.colliders.Keys <= w.colliders.Keys - {gone};
        SubsetCard(w1.colliders.Keys, w.colliders.Keys - {gone});
      } else {
        SubsetCard(w1.colliders.Keys, w.colliders.Keys);
      }
      DrainScoreBounded(w1, evs[1..]);
    }
  }

  /**
   * Two contacts with one brick in a single drain do not score twice: the
   * first destroys the brick and removes its collider, and the second panics
   * on the `unwrap` of the missing collider, whichever side of the second
   * contact the brick is on (when it is collider 1, collider 0 must have
   * survived, or the panic names that one instead).
   */
  lemma SecondContactWithDestroyedBrickPanics(w: World, brick: ColliderHandle, a: ColliderHandle, b: ColliderHandle)
    requires brick in w.colliders && a in w.colliders
    requires IsBrick(w.colliders[brick])
    requires !IsWall(w.colliders[a])
    ensures Drain(w, [Started(brick, a), Started(brick, b)]) == Panic(brick)
    ensures b in DestroyBrick(w, w.colliders[brick]).colliders ==>
      Drain(w, [Started(brick, a), Started(b, brick)]) == Panic(brick)
  {
  }

  /**
   * One brick of entity 7 hit by the ball: the brick's entity, body and
   * collider disappear and the score goes from 0 to 10.
   */
  lemma BallHitsBrick()
    ensures var w := World(map[1 := Collider(BrickTag(7), 20), 2 := Collider(BallTag(8), 21)],
                           {20, 21}, {7, 8}, 0);
      Drain(w, [Started(2, 1), Stopped(2, 1)])
        == Ok(World(map[2 := Collider(BallTag(8), 21)], {21}, {8}, 10))
  {
  }

  /** The resolver acting on the game's shared resources in place. */
  class CollisionSystem {
    var events: seq<ContactEvent>
    var colliders: map<ColliderHandle, Collider>
    var bodies: set<BodyHandle>
    var entities: set<EntityId>
    var score: nat

    /** The resources as a value. */
    function State(): World
      reads this
    {
      World(colliders, bodies, entities, score)
    }

    /** A session starts with the spawned layout, no pending contacts and a score of 0. */
    constructor (colliders: map<ColliderHandle, Collider>, bodies: set<BodyHandle>, entities: set<EntityId>)
      ensures State() == World(colliders, bodies, entities, 0)
      ensures events == []
    {
      this.events := [];
      this.colliders := colliders;
      this.bodies := bodies;
      this.entities := entities;
      this.score := 0;
    }

    /** The physics step publishes its contact events at the back of the queue. */
    method Publish(evs: seq<ContactEvent>)
      modifies this
      ensures events == old(events) + evs
      ensures State() == old(State())
    {
      events := events + evs;
    }

    /**
     * `check_collision_events`: pop contacts until the queue is empty. The
     * precondition is that no `unwrap` in the drain fails.
     */
    method CheckCollisionEvents()
      requires Drain(State(), events).Ok?
      modifies this
      ensures events == []
      ensures State() == Drain(old(State()), old(events)).world
      ensures old(score) <= score
      ensures score == old(score) + BRICK_REWARD * ScoringContacts(old(colliders), old(events))
      ensures Consistent(old(State())) ==> Consistent(State())
      ensures score + BRICK_REWARD * |colliders.Keys| <= old(score) + BRICK_REWARD * |old(colliders).Keys|
      ensures Consistent(old(State())) ==> score + BRICK_REWARD * |entities| == old(score) + BRICK_REWARD * |old(entities)|
    {
      while events != []
        invariant Drain(State(), events) == Drain(old(State()), old(events))
        decreases |events|
      {
        var ev := events[0];
        events := events[1..];
        match ev
        case Stopped(_, _) =>
        case Started(h0, h1) =>
          var collider0 := colliders[h0];
          var collider1 := colliders[h1];
          var t0 := KindBits(collider0.userData);
          var t1 := KindBits(collider1.userData);
          if t0 != Discriminant(Wall) && t1 != Discriminant(Wall) {
            var e0 := EntityBits(collider0.userData);
            var e1 := EntityBits(collider1.userData);
            if t0 == Discriminant(Brick) {
              entities := entities - {e0};
              bodies := bodies - {collider0.parent};
              colliders := Detached(colliders, collider0.parent);
              score := score + BRICK_REWARD;
            } else if t1 == Discriminant(Brick) {
              entities := entities - {e1};
              bodies := bodies - {collider1.parent};
              colliders := Detached(colliders, collider1.parent);
              score := score + BRICK_REWARD;
            }
          }
      }
      DrainScore(old(State()), old(events));
      DrainScoreBounded(old(State()), old(events));
      if Consistent(old(State())) {
        DrainPreservesConsistent(old(State()), old(events));
        DrainScoresPerDespawn(old(State()), old(events));
      }
    }
  }
}
