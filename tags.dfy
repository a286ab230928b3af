/**
 * The collider tag codec of the brick-breaking game.
 *
 * Every physics collider carries a 128-bit `user_data` word. The high 64 bits
 * hold the owning game entity's identifier (`Entity::to_bits`), the low 64
 * bits the `PhysicsEntityType` discriminant. Walls and the bat store only the
 * discriminant, so their high half is zero.
 */
module Tags {

  /** The kinds of physics object, with Rust's default discriminants 0..3. */
  datatype PhysicsEntityType = Wall | Ball | Brick | Bat

  /** A game entity identifier as its 64-bit `to_bits` form. */
  type EntityId = bv64

  /** The mask `0xFFFFFFFFFFFFFFFF` that selects the kind half of a tag. */
  const LOW_MASK: bv128 := 0xFFFF_FFFF_FFFF_FFFF

  /** `kind as u64` (and `kind as u128`, which has the same value). */
  function Discriminant(kind: PhysicsEntityType): (d: bv64)
    ensures d < 4
    ensures d == 0 <==> kind == Wall
    ensures d == 2 <==> kind == Brick
  {
    match kind
    case Wall => 0
    case Ball => 1
    case Brick => 2
    case Bat => 3
  }

  /** Distinct kinds have distinct discriminants. */
  lemma DiscriminantInjective(a: PhysicsEntityType, b: PhysicsEntityType)
    requires Discriminant(a) == Discriminant(b)
    ensures a == b
  {
    match a
    case Wall =>
    case Ball =>
    case Brick =>
    case Bat =>
  }

  /**
   * `(entity as u128) << 64 | kindBits as u128`: the raw packing of a tag.
   * The two halves do not overlap: the low half is exactly `kindBits` and
   * the high half exactly `entity`.
   */
  function Pack(entity: EntityId, kindBits: bv64): (userData: bv128)
    ensures userData & LOW_MASK == kindBits as bv128
    ensures userData >> 64 == entity as bv128
  {
    ((entity as bv128) << 64) | (kindBits as bv128)
  }

  /**
   * `(user_data & 0xFFFFFFFFFFFFFFFF) as u64`: the kind half of a tag.
   * Packing it back with the high half rebuilds the whole word.
   */
  function KindBits(userData: bv128): (kindBits: bv64)
    ensures Pack((userData >> 64) as bv64, kindBits) == userData
  {
    (userData & LOW_MASK) as bv64
  }

  /**
   * `(user_data >> 64) as u64`: the entity half of a tag.
   * Packing it back with the low half rebuilds the whole word.
   */
  function EntityBits(userData: bv128): (entity: EntityId)
    ensures Pack(entity, (userData & LOW_MASK) as bv64) == userData
  {
    (userData >> 64) as bv64
  }

  /** Unpacking a packed tag gives back both halves. */
  lemma UnpackPack(entity: EntityId, kindBits: bv64)
    ensures KindBits(Pack(entity, kindBits)) == kindBits
    ensures EntityBits(Pack(entity, kindBits)) == entity
  {
  }

  /** Every 128-bit word is the packing of its two halves. */
  lemma PackUnpack(userData: bv128)
    ensures Pack(EntityBits(userData), KindBits(userData)) == userData
  {
  }

  /** The tag of a collider owned by `entity` whose kind is `kind`. */
  function Encode(entity: EntityId, kind: PhysicsEntityType): (userData: bv128)
    ensures KindBits(userData) == Discriminant(kind)
    ensures EntityBits(userData) == entity
  {
    UnpackPack(entity, Discriminant(kind));
    Pack(entity, Discriminant(kind))
  }

  /** Tags built from distinct (entity, kind) pairs are distinct. */
  lemma EncodeInjective(e1: EntityId, k1: PhysicsEntityType, e2: EntityId, k2: PhysicsEntityType)
    requires Encode(e1, k1) == Encode(e2, k2)
    ensures e1 == e2 && k1 == k2
  {
    DiscriminantInjective(k1, k2);
  }

  /** The tag `spawn_ball` gives the ball's collider. */
  function BallTag(entity: EntityId): (userData: bv128)
    ensures KindBits(userData) == Discriminant(Ball)
    ensures EntityBits(userData) == entity
  {
    Encode(entity, Ball)
  }

  /** The tag `spawn_bricks` gives each brick's collider. */
  function BrickTag(entity: EntityId): (userData: bv128)
    ensures KindBits(userData) == Discriminant(Brick)
    ensures EntityBits(userData) == entity
  {
    Encode(entity, Brick)
  }

  /** The tag `spawn_wall` gives every wall: the bare discriminant. */
  function WallTag(): (userData: bv128)
    ensures userData == Encode(0, Wall)
    ensures KindBits(userData) == 0 && EntityBits(userData) == 0
  {
    Discriminant(Wall) as bv128
  }

  /** The tag `spawn_bat` gives the bat: the bare discriminant. */
  function BatTag(): (userData: bv128)
    ensures userData == Encode(0, Bat)
    ensures KindBits(userData) == 3 && EntityBits(userData) == 0
  {
    Discriminant(Bat) as bv128
  }
}
