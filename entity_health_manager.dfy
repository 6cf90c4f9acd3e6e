/**
 * Model of src/gameplay/entities/healthManager.ts: the heart counter entity with an
 * `offset` field; its `draw` lays hearts out from x = 0, whatever the entity's position.
 */
module EntityHealthManager {
  import H = HealthManager

  class HealthManager {
    var position: real
    var health: int
    var offset: real

    /** A new counter holds 4 hearts with the heart size as offset. */
    constructor (x: real)
      ensures position == x && health == H.MaxHealth && offset == H.HeartSize
    {
      position := x;
      health := H.MaxHealth;
      offset := H.HeartSize;
    }

    /** `damage`: one heart less, without a lower bound; says whether any heart is left. */
    method Damage() returns (alive: bool)
      modifies this`health
      ensures health == old(health) - 1
      ensures alive <==> health > 0
    {
      health := health - 1;
      alive := health > 0;
    }

    /** The layout of `draw`: hearts from x = 0, and nothing when inactive or without the image. */
    method Draw(active: bool, imageLoaded: bool) returns (xs: seq<real>)
      ensures !active || !imageLoaded ==> xs == []
      ensures active && imageLoaded ==> H.IsHeartRow(xs, health, 0.0, offset)
    {
      if !active || !imageLoaded {
        return [];
      }
      xs := H.LayOutHearts(health, 0.0, offset);
    }
  }

  /** Moving the entity does not move its hearts. */
  method HeartsIgnorePosition(x1: real, x2: real) returns (row1: seq<real>, row2: seq<real>)
    ensures row1 == row2 && |row1| == H.MaxHealth
  {
    var a := new HealthManager(x1);
    var b := new HealthManager(x2);
    row1 := a.Draw(true, true);
    row2 := b.Draw(true, true);
  }
}
