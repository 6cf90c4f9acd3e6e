/**
 * Model of src/gameplay/HitBox.ts: a short-lived entity that moves like any entity, counts
 * its updates, asks the game to remove it when its duration is up, and hits every entity
 * whose id is not in its pass-through set. The removal request is recorded as ghost state.
 */
module Hitbox {
  import opened Wrappers
  import opened Geometry
  import L = LegacyEntity

  /** The hitbox-specific options; absent keys are `None`. */
  datatype HitboxOptions = HitboxOptions(
    passthroughEntityIds: Option<set<string>>,
    duration: Option<int>,
    hitPower: Option<real>,
    hitDirection: Option<real>,
    hitLift: Option<real>)

  /** What `getHitInfo` returns. */
  datatype HitInfo = HitInfo(power: real, direction: real, lift: real)

  const DefaultDuration: int := 10

  /** JavaScript `n || fallback` on an optional integer: 0 is falsy. */
  function OrInt(n: Option<int>, fallback: int): (r: int)
    ensures n.Some? && n.value != 0 ==> r == n.value
    ensures n.None? || n == Some(0) ==> r == fallback
  {
    if n.Some? && n.value != 0 then n.value else fallback
  }

  /** JavaScript `x || fallback` on an optional number: 0 is falsy. */
  function OrReal(x: Option<real>, fallback: real): (r: real)
    ensures x.Some? && x.value != 0.0 ==> r == x.value
    ensures x.None? || x == Some(0.0) ==> r == fallback
  {
    if x.Some? && x.value != 0.0 then x.value else fallback
  }

  /** A fallback that is not 0 makes the result non-zero, whatever the option. */
  lemma OrRealNeverZero(x: Option<real>, fallback: real)
    requires fallback != 0.0
    ensures OrReal(x, fallback) != 0.0
  {
  }

  class Hitbox {
    const id: string
    const entityType: string
    const size: Size
    const acceleration: Vec
    const direction: int
    const passThroughEntityIds: set<string>
    const duration: int
    const hitPower: real
    const hitDirection: real
    const hitLift: real
    const velocity: Vec
    var position: Vec
    var durationElapsed: int
    /** How many times the hitbox has asked the game to remove it. */
    ghost var removalRequests: nat

    /** The elapsed count never passes the duration while the duration is positive. */
    ghost predicate Valid()
      reads this
    {
      0 <= durationElapsed && (duration >= 0 ==> durationElapsed <= duration)
      && (duration < 0 ==> durationElapsed == 0)
    }

    /**
     * The constructor once `super` has returned `f`: the entity fields as the base class
     * set them, then the `||` defaults of the hitbox options.
     */
    constructor (f: L.EntityFields, o: HitboxOptions)
      ensures id == f.id && entityType == f.entityType && size == f.size
      ensures position == f.position && velocity == f.velocity
      ensures acceleration == f.acceleration && direction == f.direction
      ensures passThroughEntityIds == o.passthroughEntityIds.GetOr({})
      ensures duration == OrInt(o.duration, DefaultDuration) && durationElapsed == 0
      ensures hitPower == OrReal(o.hitPower, 1.0)
      ensures hitDirection == OrReal(o.hitDirection, 1.0)
      ensures hitLift == OrReal(o.hitLift, 1.0)
      ensures removalRequests == 0
      ensures Valid()
    {
      id := f.id;
      entityType := f.entityType;
      size := f.size;
      position := f.position;
      velocity := f.velocity;
      acceleration := f.acceleration;
      direction := f.direction;
      passThroughEntityIds := o.passthroughEntityIds.GetOr({});
      duration := OrInt(o.duration, DefaultDuration);
      durationElapsed := 0;
      hitPower := OrReal(o.hitPower, 1.0);
      hitDirection := OrReal(o.hitDirection, 1.0);
      hitLift := OrReal(o.hitLift, 1.0);
      removalRequests := 0;
    }

    /**
     * `update`: the entity step moves the position by the velocity; then a hitbox whose
     * time is up asks to be removed, and any other counts one more update.
     */
    method Update()
      modifies this`position, this`durationElapsed, this`removalRequests
      ensures position == old(position).Plus(velocity)
      ensures old(durationElapsed) >= duration ==>
        durationElapsed == old(durationElapsed) && removalRequests == old(removalRequests) + 1
      ensures old(durationElapsed) < duration ==>
        durationElapsed == old(durationElapsed) + 1 && removalRequests == old(removalRequests)
      ensures old(Valid()) ==> Valid()
    {
      position := position.Plus(velocity);
      if durationElapsed >= duration {
        removalRequests := removalRequests + 1;
        return;
      }
      durationElapsed := durationElapsed + 1;
    }

    /** `canHit`: every entity except the pass-through ones. */
    predicate CanHit(entityId: string)
      reads this
    {
      entityId !in passThroughEntityIds
    }

    /** `getHitInfo`. */
    function GetHitInfo(): (info: HitInfo)
      reads this
      ensures info.power == hitPower && info.direction == hitDirection && info.lift == hitLift
    {
      HitInfo(hitPower, hitDirection, hitLift)
    }
  }

  /**
   * A hitbox with a positive duration lives for exactly `duration` updates: none of them
   * asks for removal, and the one after them does.
   */
  method Lifetime(h: Hitbox)
    requires h.durationElapsed == 0 && h.duration >= 1 && h.removalRequests == 0
    modifies h
    ensures h.durationElapsed == h.duration
    ensures h.removalRequests == 1
  {
    var updates := 0;
    while updates < h.duration
      invariant 0 <= updates <= h.duration
      invariant h.durationElapsed == updates
      invariant h.removalRequests == 0
    {
      h.Update();
      updates := updates + 1;
    }
    h.Update();
  }

  /**
   * `new Hitbox(options)`: the base constructor runs on the options with the type forced to
   * "hitbox", so it throws without a position or a size; otherwise an empty id is replaced
   * by `freshId`, a missing velocity is {0, 0}, and the hitbox options get their defaults.
   */
  method Create(options: L.EntityOptions, freshId: string, o: HitboxOptions)
    returns (r: Result<Hitbox, L.ConstructError>)
    ensures options.position.None? ==> r == Failure(L.MissingPosition)
    ensures options.position.Some? && options.size.None? ==> r == Failure(L.MissingSize)
    ensures options.position.Some? && options.size.Some? ==> r.Success?
    ensures r.Success? ==>
      && fresh(r.value)
      && r.value.entityType == "hitbox"
      && r.value.id == (if options.id != "" then options.id else freshId)
      && r.value.position == options.position.value && r.value.size == options.size.value
      && r.value.velocity == options.velocity.GetOr(Zero)
      && r.value.acceleration == options.acceleration.GetOr(Zero) && r.value.direction == 1
      && r.value.passThroughEntityIds == o.passthroughEntityIds.GetOr({})
      && (forall e :: r.value.CanHit(e) <==> e !in o.passthroughEntityIds.GetOr({}))
      && r.value.duration == OrInt(o.duration, DefaultDuration) && r.value.durationElapsed == 0
      && r.value.GetHitInfo() == HitInfo(OrReal(o.hitPower, 1.0), OrReal(o.hitDirection, 1.0), OrReal(o.hitLift, 1.0))
      && r.value.Valid()
  {
    var fields := L.Construct(options.(entityType := Some("hitbox")), freshId);
    if fields.Failure? {
      return Failure(fields.error);
    }
    var h := new Hitbox(fields.value, o);
    r := Success(h);
  }

  /**
   * A hitbox built with no hit options hits any entity with power, direction and lift 1,
   * for 10 updates.
   */
  method DefaultHitbox(id: string, position: Vec, size: Size, target: string)
    returns (info: HitInfo, duration: int, hits: bool)
    ensures info == HitInfo(1.0, 1.0, 1.0) && duration == 10 && hits
  {
    var options := L.EntityOptions(id, None, Some(position), Some(size), None, None, None);
    var r := Create(options, "fresh", HitboxOptions(None, None, None, None, None));
    var h := r.value;
    info := h.GetHitInfo();
    duration := h.duration;
    hits := h.CanHit(target);
  }
}
