/**
 * Model of src/gameplay/entities/player.ts: the player's constants, its health and the
 * health sprite it shows, and the engine animation that follows the ship. The sine wave
 * that drives the ship's vertical velocity is a parameter of `update`.
 */
module Player {
  import opened Wrappers
  import opened Geometry
  import Strings
  import A = Animation
  import E = Entity

  const PlayerScale: real := 2.5
  const ShipSpriteDefaultSize: real := 48.0
  /** `Player.PLAYER_SIZE`: 48 scaled by 2.5. */
  const PlayerSize: real := ShipSpriteDefaultSize * PlayerScale
  const MaxHealth: int := 4
  /** Where the engine animation sits relative to the ship, as `ENGINE_SPRITE_OFFSETS`. */
  const EngineOffset: Vec := Vec(-26.0, -1.0)

  /** `healthMap`: sprite names by the text of the health value. */
  const HealthMap: map<string, string> := map[
    "4" := "playerShipHealth4",
    "3" := "playerShipHealth3",
    "2" := "playerShipHealth2",
    "1" := "playerShipHealth1",
    "0" := "playerShipHealth1",
    "default" := "playerShipHealth4"]

  /**
   * `healthMap[String(health)]`: the sprite of a health from 0 to 4; any other health has
   * no entry (the lookup is `undefined`).
   */
  function HealthSprite(health: int): (sprite: Option<string>)
    ensures 1 <= health <= 4 ==> sprite == Some("playerShipHealth" + Strings.IntToString(health))
    ensures health == 0 ==> sprite == Some("playerShipHealth1")
    ensures sprite.Some? <==> 0 <= health <= 4
  {
    var key := Strings.IntToString(health);
    if key in HealthMap then
      assert 0 <= health <= 4 by { KeyIsSmallHealth(health); }
      HealthMapEntry(health);
      Some(HealthMap[key])
    else
      None
  }

  /** The entry of health `h`: the sprite named after `h`, except that 0 borrows 1's. */
  lemma HealthMapEntry(h: int)
    requires 0 <= h <= 4
    ensures Strings.IntToString(h) in HealthMap
    ensures HealthMap[Strings.IntToString(h)] ==
      "playerShipHealth" + Strings.IntToString(if h == 0 then 1 else h)
  {
    assert Strings.IntToString(h) == [Strings.DigitChar(h)];
    assert Strings.IntToString(if h == 0 then 1 else h) == [Strings.DigitChar(if h == 0 then 1 else h)];
    if h == 0 {
      assert Strings.IntToString(h) == "0";
    } else if h == 1 {
      assert Strings.IntToString(h) == "1";
    } else if h == 2 {
      assert Strings.IntToString(h) == "2";
    } else if h == 3 {
      assert Strings.IntToString(h) == "3";
    } else {
      assert Strings.IntToString(h) == "4";
    }
  }

  /** Only the health values 0 to 4 have a text that is a numeric key of `healthMap`. */
  lemma KeyIsSmallHealth(health: int)
    requires Strings.IntToString(health) in HealthMap
    ensures 0 <= health <= 4
  {
    var key := Strings.IntToString(health);
    var n: int :| 0 <= n <= 4 && key == Strings.IntToString(n) by {
      if key == "default" {
        Strings.IntToStringSign(health);
        assert false;
      }
      assert key == Strings.IntToString(0) || key == Strings.IntToString(1) ||
             key == Strings.IntToString(2) || key == Strings.IntToString(3) ||
             key == Strings.IntToString(4);
    }
    Strings.IntToStringInjective(health, n);
  }

  /** Health 0 and health 1 show the same sprite. */
  lemma LastTwoHealthsLookAlike()
    ensures HealthSprite(0) == HealthSprite(1)
  {
  }

  class Player {
    const id: string
    const entityType: string
    const size: Size
    const acceleration: Vec
    const direction: real
    var position: Vec
    var velocity: Vec
    var health: int
    /** The sprite path the ship shows; `None` is `undefined`. */
    var sprite: Option<string>
    const engineAnimation: A.Animation
    var enginePosition: Vec

    ghost predicate Valid()
      reads this
    {
      0 <= health <= MaxHealth && sprite == HealthSprite(health)
    }

    /**
     * The constructor once `super` has returned `f`: full health with its sprite, and a
     * looping engine animation that waits 4 draws per frame and starts on the ship.
     */
    constructor (f: E.EntityFields, engineFrames: seq<A.SheetFrame>)
      ensures id == f.id && entityType == f.entityType && size == f.size
      ensures position == f.position && velocity == f.velocity
      ensures acceleration == f.acceleration && direction == f.direction
      ensures health == 4 && sprite == Some("playerShipHealth4")
      ensures fresh(engineAnimation)
      ensures engineAnimation.id == "player-engine-animation"
      ensures engineAnimation.loop && engineAnimation.frameWaitSize == 4
      ensures enginePosition == f.position
      ensures Valid()
    {
      id := f.id;
      entityType := f.entityType;
      size := f.size;
      acceleration := f.acceleration;
      direction := f.direction;
      position := f.position;
      velocity := f.velocity;
      health := 4;
      sprite := Some("playerShipHealth4");
      engineAnimation := new A.Animation("player-engine-animation", engineFrames, Some(4), Some(true));
      enginePosition := f.position;
    }

    /**
     * `update`: the vertical velocity becomes 50 times the sine value, the ship moves by its
     * velocity, and the engine is placed 26 left of and 1 below the ship.
     */
    method Update(waveValue: real)
      modifies this`velocity, this`position, this`enginePosition
      ensures velocity == Vec(old(velocity).x, waveValue * 50.0)
      ensures position == old(position).Plus(velocity)
      ensures enginePosition == Vec(position.x - 26.0, position.y + 1.0)
    {
      velocity := Vec(velocity.x, waveValue * 50.0);
      position := position.Plus(velocity);
      enginePosition := Vec(position.x + EngineOffset.x, position.y - EngineOffset.y);
    }

    /** `damage(amount = 1)`: health drops by `amount` but not below 0, and the sprite follows. */
    method Damage(amount: int := 1)
      modifies this`health, this`sprite
      ensures health == if old(health) - amount < 0 then 0 else old(health) - amount
      ensures health >= 0
      ensures sprite == HealthSprite(health)
      ensures old(Valid()) && amount >= 0 ==> Valid()
    {
      SetHealth(if health - amount > 0 then health - amount else 0);
    }

    /** `setHealth`: stores the health and shows its sprite. */
    method SetHealth(h: int)
      modifies this`health, this`sprite
      ensures health == h && sprite == HealthSprite(h)
    {
      health := h;
      sprite := HealthSprite(h);
    }
  }

  /** The options `Player` hands to the base constructor: id and type "player", a 120 by 120 ship. */
  function PlayerOptions(options: E.EntityOptions): (o: E.EntityOptions)
    ensures o.id == "player" && o.entityType == Some("player")
    ensures o.size == Some(Size(PlayerSize, PlayerSize))
    ensures o.position == options.position && o.velocity == options.velocity
  {
    options.(id := "player", entityType := Some("player"), size := Some(Size(PlayerSize, PlayerSize)))
  }

  /**
   * `new Player(options)`: the base constructor throws without a position; the id, type
   * and size the player forces leave no other way to fail. Otherwise the ship keeps the
   * given position, a missing velocity is {0, 0}, and it starts at full health.
   */
  method Create(options: E.EntityOptions, engineFrames: seq<A.SheetFrame>)
    returns (r: Result<Player, E.ConstructError>)
    ensures options.position.None? ==> r == Failure(E.MissingPosition)
    ensures options.position.Some? ==> r.Success?
    ensures r.Success? ==>
      && fresh(r.value) && fresh(r.value.engineAnimation)
      && r.value.id == "player" && r.value.entityType == "player"
      && r.value.size == Size(120.0, 120.0)
      && r.value.position == options.position.value
      && r.value.velocity == options.velocity.GetOr(Zero)
      && r.value.health == 4 && r.value.sprite == Some("playerShipHealth4")
      && r.value.engineAnimation.id == "player-engine-animation"
      && r.value.enginePosition == r.value.position
      && r.value.Valid()
  {
    var fields := E.Construct(PlayerOptions(options), "player");
    if fields.Failure? {
      return Failure(fields.error);
    }
    var p := new Player(fields.value, engineFrames);
    r := Success(p);
  }

  /** Four hits of the default amount take a fresh player to 0 health; a fifth keeps it at 0. */
  method FourHitsEmpty(position: Vec) returns (afterFour: int, afterFive: int, sprite: Option<string>)
    ensures afterFour == 0 && afterFive == 0
    ensures sprite == Some("playerShipHealth1")
  {
    var options := E.EntityOptions("", None, Some(position), None, None, None, None, None, None);
    var r := Create(options, []);
    var p := r.value;
    p.Damage();
    p.Damage();
    p.Damage();
    p.Damage();
    afterFour := p.health;
    p.Damage();
    afterFive := p.health;
    sprite := p.sprite;
  }
}
