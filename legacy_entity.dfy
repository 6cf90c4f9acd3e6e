/**
 * Model of src/gameplay/entity.ts, the older entity base class that `Hitbox` extends. It
 * differs from src/gameplay/entities/entity.ts in its `direction` option, typed `0 | 1`,
 * and its sprite handling (not modelled).
 */
module LegacyEntity {
  import opened Wrappers
  import opened Geometry

  /** The `0 | 1` type of the `direction` option. */
  type DirectionBit = d: int | 0 <= d <= 1

  datatype EntityOptions = EntityOptions(
    id: string,
    entityType: Option<string>,
    position: Option<Vec>,
    size: Option<Size>,
    velocity: Option<Vec>,
    acceleration: Option<Vec>,
    direction: Option<DirectionBit>)

  datatype EntityFields = EntityFields(
    id: string,
    entityType: string,
    position: Vec,
    size: Size,
    velocity: Vec,
    acceleration: Vec,
    direction: int)

  datatype ConstructError = MissingPosition | MissingSize

  /**
   * The constructor, with the same checks and defaults as the newer entity; since the
   * option is `0 | 1` and `direction || 1` maps 0 to 1, every entity faces direction 1.
   */
  function Construct(o: EntityOptions, freshId: string): (r: Result<EntityFields, ConstructError>)
    ensures o.position.None? <==> r == Failure(MissingPosition)
    ensures o.position.Some? && o.size.None? <==> r == Failure(MissingSize)
    ensures r.Success? ==>
      && r.value.position == o.position.value
      && r.value.size == o.size.value
      && (o.id != "" ==> r.value.id == o.id)
      && (o.id == "" ==> r.value.id == freshId)
      && r.value.velocity == o.velocity.GetOr(Zero)
      && r.value.acceleration == o.acceleration.GetOr(Zero)
      && (o.entityType.Some? && o.entityType.value != "" ==> r.value.entityType == o.entityType.value)
      && (o.entityType == Some("") || o.entityType.None? ==> r.value.entityType == "UNKNOWN")
      && r.value.direction == 1
  {
    if o.position.None? then Failure(MissingPosition)
    else if o.size.None? then Failure(MissingSize)
    else
      var dir := o.direction.GetOr(0);
      Success(EntityFields(
        id := if o.id != "" then o.id else freshId,
        entityType := if o.entityType.Some? && o.entityType.value != "" then o.entityType.value else "UNKNOWN",
        position := o.position.value,
        size := o.size.value,
        velocity := o.velocity.GetOr(Zero),
        acceleration := o.acceleration.GetOr(Zero),
        direction := if dir != 0 then dir else 1))
  }

  class Entity {
    const id: string
    const entityType: string
    var position: Vec
    var size: Size
    var velocity: Vec
    var acceleration: Vec
    var direction: int

    constructor (f: EntityFields)
      ensures id == f.id && entityType == f.entityType
      ensures position == f.position && size == f.size
      ensures velocity == f.velocity && acceleration == f.acceleration
      ensures direction == f.direction
    {
      id := f.id;
      entityType := f.entityType;
      position := f.position;
      size := f.size;
      velocity := f.velocity;
      acceleration := f.acceleration;
      direction := f.direction;
    }

    /** `update`: moves the position by one velocity step and changes nothing else. */
    method Update()
      modifies this`position
      ensures position == old(position).Plus(velocity)
    {
      position := Vec(position.x, position.y + velocity.y);
      position := Vec(position.x + velocity.x, position.y);
    }
  }
}
