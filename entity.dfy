/**
 * Model of src/gameplay/entities/entity.ts: the entity base class. The constructor's
 * validation and `||` defaults are the function `Construct`; the class keeps the fields
 * that `update` changes. Drawing is not modelled.
 */
module Entity {
  import opened Wrappers
  import opened Geometry

  /** The options object handed to the constructor; absent keys are `None`. */
  datatype EntityOptions = EntityOptions(
    id: string,
    entityType: Option<string>,
    position: Option<Vec>,
    size: Option<Size>,
    velocity: Option<Vec>,
    acceleration: Option<Vec>,
    direction: Option<real>,
    fillStyle: Option<string>,
    strokeStyle: Option<string>)

  /** The fields a constructed entity starts with. */
  datatype EntityFields = EntityFields(
    id: string,
    entityType: string,
    position: Vec,
    size: Size,
    velocity: Vec,
    acceleration: Vec,
    direction: real,
    fillStyle: Option<string>,
    strokeStyle: Option<string>)

  /** The two errors the constructor throws. */
  datatype ConstructError = MissingPosition | MissingSize

  /** JavaScript `s || fallback` on a string that may be absent: the empty string is falsy. */
  function OrString(s: Option<string>, fallback: string): string {
    if s.Some? && s.value != "" then s.value else fallback
  }

  /** JavaScript `s || undefined` on an optional string. */
  function NonEmpty(s: Option<string>): (r: Option<string>)
    ensures r.Some? ==> r.value != ""
    ensures s.Some? && s.value != "" ==> r == s
  {
    if s.Some? && s.value != "" then s else None
  }

  /**
   * The constructor: throws without a position, then without a size; otherwise an empty
   * id is replaced by `freshId` (the uuid the source draws), a missing velocity or
   * acceleration by {0, 0}, an empty or missing type by "UNKNOWN", and a 0 or missing
   * direction by 1.
   */
  function Construct(o: EntityOptions, freshId: string): (r: Result<EntityFields, ConstructError>)
    ensures o.position.None? <==> r == Failure(MissingPosition)
    ensures o.position.Some? && o.size.None? <==> r == Failure(MissingSize)
    ensures r.Success? ==>
      && r.value.position == o.position.value
      && r.value.size == o.size.value
      && (o.id != "" ==> r.value.id == o.id)
      && (o.id == "" ==> r.value.id == freshId)
      && r.value.velocity == o.velocity.GetOr(Zero)
      && r.value.acceleration == o.acceleration.GetOr(Zero)
      && r.value.entityType != ""
      && (o.entityType.Some? && o.entityType.value != "" ==> r.value.entityType == o.entityType.value)
      && (o.entityType == Some("") || o.entityType.None? ==> r.value.entityType == "UNKNOWN")
      && r.value.fillStyle == NonEmpty(o.fillStyle)
      && r.value.strokeStyle == NonEmpty(o.strokeStyle)
      && r.value.direction != 0.0
      && (o.direction.Some? && o.direction.value != 0.0 ==> r.value.direction == o.direction.value)
      && (o.direction.None? || o.direction == Some(0.0) ==> r.value.direction == 1.0)
  {
    if o.position.None? then Failure(MissingPosition)
    else if o.size.None? then Failure(MissingSize)
    else
      Success(EntityFields(
        id := if o.id != "" then o.id else freshId,
        entityType := OrString(o.entityType, "UNKNOWN"),
        position := o.position.value,
        size := o.size.value,
        velocity := o.velocity.GetOr(Zero),
        acceleration := o.acceleration.GetOr(Zero),
        direction := if o.direction.Some? && o.direction.value != 0.0 then o.direction.value else 1.0,
        fillStyle := NonEmpty(o.fillStyle),
        strokeStyle := NonEmpty(o.strokeStyle)))
  }

  /**
   * A constructed entity. `isEnemy` stands for being an instance of the `Enemy` subclass,
   * which the registry tests with `instanceof`.
   */
  class Entity {
    const id: string
    const entityType: string
    const isEnemy: bool
    var position: Vec
    var size: Size
    var velocity: Vec
    var acceleration: Vec
    var direction: real

    constructor (f: EntityFields, enemy: bool)
      ensures id == f.id && entityType == f.entityType && isEnemy == enemy
      ensures position == f.position && size == f.size
      ensures velocity == f.velocity && acceleration == f.acceleration
      ensures direction == f.direction
    {
      id := f.id;
      entityType := f.entityType;
      isEnemy := enemy;
      position := f.position;
      size := f.size;
      velocity := f.velocity;
      acceleration := f.acceleration;
      direction := f.direction;
    }

    /** What the collision test reads. */
    function Bounds(): Box
      reads this
    {
      Box(position, size)
    }

    /** `update(entities, delta)`: both arguments are ignored; the position moves by one velocity step. */
    method Update(delta: real)
      modifies this`position
      ensures position == old(position).Plus(velocity)
    {
      position := Vec(position.x, position.y + velocity.y);
      position := Vec(position.x + velocity.x, position.y);
    }
  }

  /** With zero velocity an update leaves the position where it was. */
  method UpdateAtRest(e: Entity, delta: real)
    requires e.velocity == Zero
    modifies e
    ensures e.position == old(e.position)
  {
    e.Update(delta);
  }
}
