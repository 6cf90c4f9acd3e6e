/** Model of src/gameplay/utils.ts: `absoluteClamp` and its own copy of `entitiesColliding`. */
module Utils {
  import opened Geometry
  import Lib
  import Entity

  function Abs(x: real): real {
    if x < 0.0 then -x else x
  }

  /** `absoluteClamp(value, clamp)`: limits `value` to the band `[-|clamp|, |clamp|]`. */
  function AbsoluteClamp(value: real, clamp: real): (r: real)
    ensures -Abs(clamp) <= r <= Abs(clamp)
    ensures Abs(value) <= Abs(clamp) ==> r == value
    ensures value < 0.0 ==> r <= 0.0
    ensures value >= 0.0 ==> r >= 0.0
  {
    var c := Abs(clamp);
    if value < 0.0 then
      (if c * -1.0 < value then value else c * -1.0)
    else
      (if c < value then c else value)
  }

  /** The independent reading of the same band: clamp between `-|clamp|` and `|clamp|`. */
  lemma AbsoluteClampIsBandClamp(value: real, clamp: real)
    ensures var lo, hi := -Abs(clamp), Abs(clamp);
      AbsoluteClamp(value, clamp) == (if value < lo then lo else if value > hi then hi else value)
  {
  }

  /** Only the magnitude of the clamp matters. */
  lemma AbsoluteClampSignOfClampIrrelevant(value: real, clamp: real)
    ensures AbsoluteClamp(value, clamp) == AbsoluteClamp(value, -clamp)
  {
  }

  /** Clamping twice is clamping once. */
  lemma AbsoluteClampIdempotent(value: real, clamp: real)
    ensures AbsoluteClamp(AbsoluteClamp(value, clamp), clamp) == AbsoluteClamp(value, clamp)
  {
  }

  /** `entitiesColliding` over two entity objects, compared on their current fields. */
  predicate EntitiesColliding(e1: Entity.Entity, e2: Entity.Entity)
    reads e1, e2
  {
    && e1.position.x <= e2.position.x + e2.size.width
    && e1.position.x + e1.size.width >= e2.position.x
    && e1.position.y <= e2.position.y + e2.size.height
    && e1.position.y + e1.size.height >= e2.position.y
  }

  /** This copy agrees with the one in lib.ts on every pair of entities, and is symmetric. */
  lemma CollidingAgreesWithLib(e1: Entity.Entity, e2: Entity.Entity)
    ensures EntitiesColliding(e1, e2) == Lib.EntitiesColliding(e1.Bounds(), e2.Bounds())
    ensures EntitiesColliding(e1, e2) == EntitiesColliding(e2, e1)
  {
  }
}
