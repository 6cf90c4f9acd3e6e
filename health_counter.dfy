/**
 * Model of src/gameplay/healthManager.ts: `createHealthManager`, a closure over a heart
 * count that `damage` lowers by any amount and `draw` shows as red 40 by 40 squares.
 */
module HealthCounter {
  import H = HealthManager

  /** One `fillRect` call of `draw`. */
  datatype Rect = Rect(x: real, y: real, width: real, height: real)

  /** The squares `draw` fills: one heart square per x coordinate of the row. */
  predicate IsSquareRow(rects: seq<Rect>, count: int, offset: real) {
    |rects| == (if count < 0 then 0 else count) &&
    forall i :: 0 <= i < |rects| ==>
      rects[i] == Rect(H.HeartX(0.0, offset, i), H.HeartY, H.HeartSize, H.HeartSize)
  }

  class HealthCounter {
    var numberOfHearts: int
    var offset: real

    /** `createHealthManager`: four hearts, offset 40. */
    constructor ()
      ensures numberOfHearts == 4 && offset == H.HeartSize
    {
      numberOfHearts := 4;
      offset := H.HeartSize;
    }

    /** `damage(amount = 1)`: subtracts `amount` with no clamp. */
    method Damage(amount: int := 1)
      modifies this`numberOfHearts
      ensures numberOfHearts == old(numberOfHearts) - amount
    {
      numberOfHearts := numberOfHearts - amount;
    }

    /** `draw`: one square per heart, none once the count is 0 or below. */
    method Draw() returns (rects: seq<Rect>)
      ensures IsSquareRow(rects, numberOfHearts, offset)
      ensures numberOfHearts <= 0 ==> rects == []
    {
      rects := [];
      var i := 0;
      while i < numberOfHearts
        invariant 0 <= i && |rects| == i
        invariant numberOfHearts >= 0 ==> i <= numberOfHearts
        invariant numberOfHearts < 0 ==> i == 0
        invariant forall k :: 0 <= k < i ==>
          rects[k] == Rect(H.HeartX(0.0, offset, k), H.HeartY, H.HeartSize, H.HeartSize)
      {
        rects := rects + [Rect(H.HeartX(0.0, offset, i), H.HeartY, H.HeartSize, H.HeartSize)];
        i := i + 1;
      }
    }
  }

  /** A hit of 5 takes the count below zero, and then nothing is drawn. */
  method OverkillDrawsNothing() returns (hearts: int, rects: seq<Rect>)
    ensures hearts == -1 && rects == []
  {
    var c := new HealthCounter();
    c.Damage(5);
    hearts := c.numberOfHearts;
    rects := c.Draw();
  }
}
