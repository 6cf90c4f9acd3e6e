/**
 * Model of src/gameplay/managers/HealthManager.ts: the heart counter entity with `reset`,
 * `damage` and the heart layout of `draw`. The heart layout is shared with the two other
 * health counters of the game, which import it from here.
 */
module HealthManager {

  /** `HEART_SIZE`: a heart is a 40 by 40 square. */
  const HeartSize: real := 40.0

  /** The gap the layout leaves before each heart besides the offset. */
  const HeartSpacing: real := 20.0

  /** The y coordinate every heart is drawn at. */
  const HeartY: real := 20.0

  const MaxHealth: int := 4

  /** `HealthManager.OFFSET`. */
  const Offset: real := HeartSize

  /** The x coordinate of heart `i`: `base + i * 20 + offset * (i + 1)`. */
  function HeartX(base: real, offset: real, i: int): real {
    base + (i as real) * HeartSpacing + offset * ((i + 1) as real)
  }

  /** The hearts laid out from `base`: one x coordinate per heart. */
  predicate IsHeartRow(xs: seq<real>, count: int, base: real, offset: real) {
    |xs| == (if count < 0 then 0 else count) &&
    forall i :: 0 <= i < |xs| ==> xs[i] == HeartX(base, offset, i)
  }

  /** The `for (let i = 0; i < health; i++)` loop of a `draw`: the x of every heart, in order. */
  method LayOutHearts(count: int, base: real, offset: real) returns (xs: seq<real>)
    ensures IsHeartRow(xs, count, base, offset)
  {
    xs := [];
    var i := 0;
    while i < count
      invariant 0 <= i && |xs| == i
      invariant count >= 0 ==> i <= count
      invariant count < 0 ==> i == 0
      invariant forall k :: 0 <= k < i ==> xs[k] == HeartX(base, offset, k)
    {
      xs := xs + [HeartX(base, offset, i)];
      i := i + 1;
    }
  }

  /**
   * Consecutive hearts are `20 + offset` apart, so with the offset of 40 each heart starts
   * 20 pixels after the previous one ends: the hearts never overlap.
   */
  lemma HeartsDoNotOverlap(xs: seq<real>, count: int, base: real, offset: real, i: int)
    requires IsHeartRow(xs, count, base, offset)
    requires offset >= HeartSize - HeartSpacing
    requires 0 <= i && i + 1 < |xs|
    ensures xs[i + 1] - xs[i] == HeartSpacing + offset
    ensures xs[i] + HeartSize <= xs[i + 1]
  {
    assert ((i + 1) as real) * HeartSpacing == (i as real) * HeartSpacing + HeartSpacing;
    assert offset * ((i + 2) as real) == offset * ((i + 1) as real) + offset;
  }

  /** The first heart sits one offset to the right of the base. */
  lemma FirstHeart(xs: seq<real>, count: int, base: real, offset: real)
    requires IsHeartRow(xs, count, base, offset) && count >= 1
    ensures xs[0] == base + offset
  {
  }

  /** The heart counter of the managers directory. */
  class HealthManager {
    var position: real
    var health: int

    /** A new counter holds `MAX_HEALTH` hearts. */
    constructor (x: real)
      ensures position == x && health == MaxHealth
    {
      position := x;
      health := MaxHealth;
    }

    /** `reset`: back to full health. */
    method Reset()
      modifies this`health
      ensures health == MaxHealth
    {
      health := MaxHealth;
    }

    /** `damage`: one heart less, without a lower bound; says whether any heart is left. */
    method Damage() returns (alive: bool)
      modifies this`health
      ensures health == old(health) - 1
      ensures alive <==> health > 0
    {
      health := health - 1;
      alive := health > 0;
    }

    /**
     * The layout of `draw`: nothing for an inactive entity or before the heart image is
     * loaded; otherwise one heart per health point, laid out from the entity's x.
     */
    method Draw(active: bool, imageLoaded: bool) returns (xs: seq<real>)
      ensures !active || !imageLoaded ==> xs == []
      ensures active && imageLoaded ==> IsHeartRow(xs, health, position, Offset)
    {
      if !active || !imageLoaded {
        return [];
      }
      xs := LayOutHearts(health, position, Offset);
    }
  }

  /** Damage keeps lowering the count below zero; a reset restores it. */
  method DamagePastZero(x: real) returns (afterFive: int, alive: bool, afterReset: int)
    ensures afterFive == -1 && !alive
    ensures afterReset == MaxHealth
  {
    var m := new HealthManager(x);
    var a := m.Damage();
    a := m.Damage();
    a := m.Damage();
    a := m.Damage();
    alive := m.Damage();
    afterFive := m.health;
    m.Reset();
    afterReset := m.health;
  }
}
