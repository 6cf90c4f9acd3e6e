/**
 * Model of src/gameplay/entities/animation.ts: the `Animation` entity's constructor
 * defaults and the frame-advance logic of `draw`. Drawing itself is not modelled; whether
 * the sprite sheet image is loaded is a parameter of a draw step, and `console.error` and
 * `onEnd` are recorded as ghost logs.
 */
module Animation {
  import opened Wrappers

  /** One `spritesheetFrames` entry: a source rectangle in the sheet. */
  datatype SheetFrame = SheetFrame(sx: int, sy: int, sWidth: int, sHeight: int)

  /** The frame that follows `frame` in a sheet of `count` frames: the next one, or 0 after the last. */
  function NextFrame(frame: int, count: int): (n: int)
    ensures 0 <= frame < count ==> 0 <= n < count
    ensures 0 <= frame < count ==> (n == 0 <==> frame == count - 1)
    ensures 0 <= frame < count - 1 ==> n == frame + 1
  {
    if frame < count - 1 then frame + 1 else 0
  }

  /** The frame after `k` advances from `frame`. */
  function Advance(frame: int, count: int, k: nat): (f: int)
    ensures 0 <= frame < count ==> 0 <= f < count
  {
    if k == 0 then frame else NextFrame(Advance(frame, count, k - 1), count)
  }

  /**
   * From frame 0 the animation visits every frame in order and comes back to 0 after
   * exactly `count` advances, so a non-looping animation finishes on its `count`-th advance.
   */
  lemma {:induction false} FullCycle(count: int, k: nat)
    requires count >= 1 && k <= count
    ensures k < count ==> Advance(0, count, k) == k
    ensures k == count ==> Advance(0, count, k) == 0
  {
    if k > 0 {
      FullCycle(count, k - 1);
    }
  }

  const FinishedPrefix: string := "An animation finished but wasn't removed from the game: "
  const FinishedSuffix: string := ". This could lead to memory issues!"

  /** The text `draw` logs for a finished animation that is still drawn. */
  function FinishedMessage(id: string): (m: string)
    ensures |m| == |FinishedPrefix| + |id| + |FinishedSuffix|
    ensures m[..|FinishedPrefix|] == FinishedPrefix
    ensures m[|FinishedPrefix|..|FinishedPrefix| + |id|] == id
  {
    FinishedPrefix + id + FinishedSuffix
  }

  class Animation {
    const id: string
    const spritesheetFrames: seq<SheetFrame>
    const frameWaitSize: int
    const loop: bool
    var frame: int
    var frameWait: int
    var finished: bool
    var finishedErrorLogged: bool
    /** The errors `draw` has logged. */
    ghost var errors: seq<string>
    /** How many times `onEnd` has been called. */
    ghost var ends: nat

    /**
     * The frame counter stays on a frame of the sheet and below the wait size, the error is
     * logged at most once and only for a finished animation, and `onEnd` has run exactly
     * when the animation has finished.
     */
    ghost predicate Valid()
      reads this
    {
      && (|spritesheetFrames| >= 1 ==> 0 <= frame < |spritesheetFrames|)
      && (frame == 0 || 0 <= frame < |spritesheetFrames|)
      && (frameWait == 0 || 0 <= frameWait < frameWaitSize)
      && (finishedErrorLogged <==> errors == [FinishedMessage(id)])
      && (!finishedErrorLogged ==> errors == [])
      && (finishedErrorLogged ==> finished)
      && (ends == if finished then 1 else 0)
      && (finished ==> !loop && frame == 0)
    }

    /** The constructor: `frameDelay ?? 0`, `loop ?? false`, everything else at rest. */
    constructor (id: string, frames: seq<SheetFrame>, frameDelay: Option<int>, loopOption: Option<bool>)
      ensures this.id == id && spritesheetFrames == frames
      ensures frameWaitSize == frameDelay.GetOr(0) && loop == loopOption.GetOr(false)
      ensures frame == 0 && frameWait == 0 && !finished && !finishedErrorLogged
      ensures errors == [] && ends == 0
      ensures Valid()
    {
      this.id := id;
      spritesheetFrames := frames;
      frameWaitSize := frameDelay.GetOr(0);
      loop := loopOption.GetOr(false);
      frame := 0;
      frameWait := 0;
      finished := false;
      finishedErrorLogged := false;
      errors := [];
      ends := 0;
    }

    /**
     * The frame-advance part of `draw`. A finished animation logs its error once and
     * otherwise does nothing; without the image nothing advances; otherwise the wait counter
     * ticks, and when it reaches `frameWaitSize` it restarts and the frame moves on. A
     * non-looping animation finishes, and calls `onEnd`, when the frame wraps to 0.
     */
    method Draw(imageLoaded: bool)
      modifies this
      ensures old(finished) ==>
        && frame == old(frame) && frameWait == old(frameWait) && finished && finishedErrorLogged
        && ends == old(ends)
        && errors == if old(finishedErrorLogged) then old(errors) else old(errors) + [FinishedMessage(id)]
      ensures !old(finished) && !imageLoaded ==>
        frame == old(frame) && frameWait == old(frameWait) && !finished && ends == old(ends)
      ensures !old(finished) && imageLoaded && old(frameWait) + 1 < frameWaitSize ==>
        frame == old(frame) && frameWait == old(frameWait) + 1 && !finished && ends == old(ends)
      ensures !old(finished) && imageLoaded && old(frameWait) + 1 >= frameWaitSize ==>
        && frameWait == 0
        && frame == NextFrame(old(frame), |spritesheetFrames|)
        && finished == (frame == 0 && !loop)
        && ends == old(ends) + (if finished then 1 else 0)
      ensures !old(finished) ==> errors == old(errors) && finishedErrorLogged == old(finishedErrorLogged)
      ensures loop ==> finished == old(finished)
      ensures old(Valid()) ==> Valid()
    {
      if finished {
        if !finishedErrorLogged {
          errors := errors + [FinishedMessage(id)];
          finishedErrorLogged := true;
        }
        return;
      }
      if !imageLoaded {
        return;
      }
      frameWait := frameWait + 1;
      if frameWait < frameWaitSize {
        return;
      }
      frameWait := 0;
      frame := if frame < |spritesheetFrames| - 1 then frame + 1 else 0;
      if frame == 0 && !loop {
        finished := true;
        ends := ends + 1;
      }
    }
  }

  /** Drawing a finished animation twice logs its error only once. */
  method ErrorLoggedOnce(a: Animation)
    requires a.Valid() && a.finished
    modifies a
    ensures a.errors == [FinishedMessage(a.id)]
  {
    a.Draw(true);
    a.Draw(true);
  }
}
