/**
 * Model of src/gameplay/levels.ts: the wave trigger rule, `generateLevel`, which turns a
 * level configuration into waves, and `generateLevels`, which builds the 200 levels of the
 * game from piecewise schedules.
 *
 * `Math.random()` is an oracle, as in the word generator: a `generateLevel` call reads its
 * wave count from draw 0, and wave `i` reads its enemies from draw `2i + 1` and its trigger
 * time from draw `2i + 2`.
 */
module Levels {
  import opened Wrappers
  import opened WordGeneration

  /** The only enemy kind. */
  datatype EnemyKind = Enemy1

  /** `EnemyConfig`: a kind and an optional spawn chance. */
  datatype EnemyConfig = EnemyConfig(kind: EnemyKind, chance: Option<real>)

  /** One of a wave's six enemy slots; `None` is `null`. */
  type EnemySlot = Option<EnemyConfig>

  /** The default enemy `de`. */
  const DefaultEnemy: EnemyConfig := EnemyConfig(Enemy1, None)

  /** `number | [number, number]`: a fixed value or a range to draw from. */
  datatype Span = Scalar(value: int) | Range(lo: int, hi: int)

  datatype Trigger = First | Time(time: int) | PrevWaveCleared

  datatype Wave = Wave(trigger: Trigger, characterCount: Span, enemies: seq<EnemySlot>)

  datatype Level = Level(characterCount: Span, waves: seq<Wave>)

  /** `LevelConfig`; `getEnemies` receives the one random value it may use. */
  datatype LevelConfig = LevelConfig(
    wordLength: Span,
    waveCount: Span,
    waveTime: Span,
    getEnemies: (int, int, Unit) -> seq<EnemySlot>)

  /** Number of enemy slots in a wave. */
  const SlotCount: int := 6

  /** `Math.round(x)`: halves round up. */
  function Round(x: real): (n: int)
    ensures x - 0.5 < n as real <= x + 0.5
  {
    (x + 0.5).Floor
  }

  /** `Math.round(randomInRange(lo, hi))`: an integer in `[lo, hi]` when `lo <= hi`. */
  function RoundedDraw(r: Unit, lo: int, hi: int): (n: int)
    ensures lo <= hi ==> lo <= n <= hi
  {
    var x := r * (hi - lo) as real + lo as real;
    assert lo <= hi ==> lo as real <= x <= hi as real by {
      if lo <= hi {
        assert 0.0 <= r * (hi - lo) as real <= (hi - lo) as real;
      }
    }
    Round(x)
  }

  /** The value a `Span` stands for: the scalar, or a rounded draw from the range. */
  function Resolve(s: Span, r: Unit): (n: int)
    ensures s.Scalar? ==> n == s.value
    ensures s.Range? && s.lo <= s.hi ==> s.lo <= n <= s.hi
  {
    match s
    case Scalar(v) => v
    case Range(lo, hi) => RoundedDraw(r, lo, hi)
  }

  /**
   * JavaScript's `w / n < t` on integers `w` and `n`: a division by zero gives +Infinity,
   * -Infinity or NaN, and only -Infinity is below `t`.
   */
  predicate RatioBelow(w: int, n: int, t: real)
    ensures n == 0 ==> (RatioBelow(w, n, t) <==> w < 0)
  {
    if n == 0 then w < 0 else (w as real) / (n as real) < t
  }

  /** For a positive total, the JavaScript comparison is the exact rational one. */
  lemma RatioBelowCrossMultiplied(w: int, n: int, num: int, den: int)
    requires n > 0 && den > 0
    ensures RatioBelow(w, n, num as real / den as real) <==> w * den < num * n
  {
    var a, b := w as real / n as real, num as real / den as real;
    assert a * n as real == w as real;
    assert b * den as real == num as real;
    assert a < b <==> a * (n * den) as real < b * (n * den) as real;
  }

  /** `getTrigger`: the trigger of wave `currentWave` out of `totalWaves`. */
  function GetTrigger(currentWave: int, totalWaves: int, time: Span, r: Unit): (t: Trigger)
    ensures t.First? <==> currentWave == 0
  {
    if currentWave == 0 then First
    else if RatioBelow(currentWave, totalWaves, 3.0 / 5.0) then PrevWaveCleared
    else Time(Resolve(time, r))
  }

  /**
   * For a positive wave out of a positive total, the trigger waits for the previous wave
   * exactly when `5w < 3n`; otherwise it is a time trigger with the scalar time.
   */
  lemma TriggerRule(w: int, n: int, time: Span, r: Unit)
    requires w > 0 && n > 0
    ensures GetTrigger(w, n, time, r) == PrevWaveCleared <==> 5 * w < 3 * n
    ensures !(5 * w < 3 * n) && time.Scalar? ==> GetTrigger(w, n, time, r) == Time(time.value)
  {
    RatioBelowCrossMultiplied(w, n, 3, 5);
  }

  /** `slots` is `returned` padded with `null` up to six slots. */
  predicate PaddedFrom(slots: seq<EnemySlot>, returned: seq<EnemySlot>) {
    |slots| == (if |returned| < SlotCount then SlotCount else |returned|) &&
    slots[..|returned|] == returned &&
    forall k :: |returned| <= k < |slots| ==> slots[k] == None
  }

  /** The `while (enemies.length < 6) enemies.push(null)` loop. */
  method Pad(enemies: seq<EnemySlot>) returns (slots: seq<EnemySlot>)
    ensures PaddedFrom(slots, enemies)
  {
    slots := enemies;
    while |slots| < SlotCount
      invariant |enemies| <= |slots|
      invariant |enemies| < SlotCount ==> |slots| <= SlotCount
      invariant |enemies| >= SlotCount ==> slots == enemies
      invariant slots[..|enemies|] == enemies
      invariant forall k :: |enemies| <= k < |slots| ==> slots[k] == None
      decreases SlotCount - |slots|
    {
      slots := slots + [None];
    }
  }

  /** The wave count `generateLevel` reads (negative counts give no waves). */
  function WaveCount(config: LevelConfig, rnd: Oracle): int {
    Resolve(config.waveCount, rnd(0))
  }

  /** Wave `i` of a level generated from `config` with draws `rnd`. */
  predicate IsWaveOf(wave: Wave, i: int, config: LevelConfig, rnd: Oracle)
    requires 0 <= i
  {
    var count := WaveCount(config, rnd);
    PaddedFrom(wave.enemies, config.getEnemies(i + 1, count, rnd(2 * i + 1))) &&
    wave.trigger == GetTrigger(i + 1, count, config.waveTime, rnd(2 * i + 2)) &&
    wave.characterCount == config.wordLength
  }

  /** What `generateLevel(config)` returns for the draws `rnd`. */
  predicate IsLevelOf(level: Level, config: LevelConfig, rnd: Oracle) {
    var count := WaveCount(config, rnd);
    level.characterCount == Scalar(0) &&
    |level.waves| == (if count < 0 then 0 else count) &&
    forall i :: 0 <= i < |level.waves| ==> IsWaveOf(level.waves[i], i, config, rnd)
  }

  /** `generateLevel`. */
  method GenerateLevel(config: LevelConfig, rnd: Oracle) returns (level: Level)
    ensures IsLevelOf(level, config, rnd)
  {
    var waves: seq<Wave> := [];
    var waveCount := Resolve(config.waveCount, rnd(0));
    var i := 0;
    while i < waveCount
      invariant 0 <= i
      invariant waveCount >= 0 ==> i <= waveCount
      invariant waveCount < 0 ==> i == 0
      invariant |waves| == i
      invariant forall k :: 0 <= k < i ==> IsWaveOf(waves[k], k, config, rnd)
    {
      var enemies := config.getEnemies(i + 1, waveCount, rnd(2 * i + 1));
      enemies := Pad(enemies);
      waves := waves + [Wave(GetTrigger(i + 1, waveCount, config.waveTime, rnd(2 * i + 2)),
                             config.wordLength, enemies)];
      i := i + 1;
    }
    level := Level(Scalar(0), waves);
  }

  /** No generated wave has the "first" trigger, since waves are numbered from 1. */
  lemma NoFirstTrigger(level: Level, config: LevelConfig, rnd: Oracle, i: int)
    requires IsLevelOf(level, config, rnd) && 0 <= i < |level.waves|
    ensures !level.waves[i].trigger.First?
  {
    assert IsWaveOf(level.waves[i], i, config, rnd);
  }

  /**
   * With five waves and a scalar wave time, waves 1 and 2 wait for the previous wave to be
   * cleared and waves 3 to 5 are timed.
   */
  lemma FiveWaveTriggers(level: Level, config: LevelConfig, rnd: Oracle, time: int)
    requires config.waveCount == Scalar(5) && config.waveTime == Scalar(time)
    requires IsLevelOf(level, config, rnd)
    ensures |level.waves| == 5
    ensures level.waves[0].trigger == PrevWaveCleared && level.waves[1].trigger == PrevWaveCleared
    ensures forall i :: 2 <= i < 5 ==> level.waves[i].trigger == Time(time)
  {
    forall i | 0 <= i < 5
      ensures level.waves[i].trigger == if i < 2 then PrevWaveCleared else Time(time)
    {
      assert IsWaveOf(level.waves[i], i, config, rnd);
      TriggerRule(i + 1, 5, config.waveTime, rnd(2 * i + 2));
    }
  }

  // ---- generateLevels ----

  /** Number of levels `generateLevels` builds. */
  const LevelCount: int := 200

  /** Waves per generated level. */
  const WavesPerLevel: int := 5

  /** The wave time of level index `i`. */
  function WaveTimeFor(i: int): (t: int)
    ensures t in {3000, 2700, 2500, 2100}
  {
    if i < 20 then 3000 else if i < 30 then 2700 else if i < 40 then 2500 else 2100
  }

  /** The word length of level index `i`. */
  function WordLengthFor(i: int): (s: Span)
    ensures i < 40 ==> s.Range? && 1 <= s.lo < s.hi <= 7
    ensures i >= 40 ==> s == Scalar(7)
  {
    if i < 3 then Range(1, 2)
    else if i < 6 then Range(2, 3)
    else if i < 12 then Range(3, 4)
    else if i < 20 then Range(3, 5)
    else if i < 30 then Range(4, 6)
    else if i < 40 then Range(5, 7)
    else Scalar(7)
  }

  /** The shortest word length level index `i` may ask for. */
  function ShortestWord(s: Span): int {
    match s
    case Scalar(v) => v
    case Range(lo, _) => lo
  }

  /** The wave time never grows from one level to a later one. */
  lemma WaveTimeNonIncreasing(i: int, j: int)
    requires i <= j
    ensures WaveTimeFor(j) <= WaveTimeFor(i)
  {
  }

  /** Later levels never ask for shorter words. */
  lemma WordLengthNonDecreasing(i: int, j: int)
    requires i <= j
    ensures ShortestWord(WordLengthFor(i)) <= ShortestWord(WordLengthFor(j))
  {
  }

  /** `ratioThreshold` of level index `i`. */
  function RatioThreshold(i: int): (t: real)
    ensures -1.0 <= t <= 3.0 / 5.0
    ensures t < 0.0 <==> i >= 25
  {
    if i < 5 then 3.0 / 5.0 else if i < 15 then 2.0 / 5.0 else if i < 25 then 1.0 / 5.0 else -1.0
  }

  /**
   * From level index 25 on the threshold is -1, so the early-spawn branch of a wave is
   * never taken: a non-negative wave count is never below it.
   */
  lemma LateLevelsNeverSpawnEarly(w: int, n: int, i: int)
    requires w >= 0 && n >= 0 && i >= 25
    ensures !RatioBelow(w, n, RatioThreshold(i))
  {
    if n > 0 {
      assert (w as real) / (n as real) >= 0.0;
    }
  }

  /** `Array(n).fill(de)`. */
  function Defaults(n: int): (s: seq<EnemySlot>)
    ensures |s| == (if n < 0 then 0 else n)
    ensures forall k :: 0 <= k < |s| ==> s[k] == Some(DefaultEnemy)
  {
    if n <= 0 then [] else Defaults(n - 1) + [Some(DefaultEnemy)]
  }

  /** The `getEnemies` closure of level index `i`. */
  function EnemiesFor(i: int, currentWave: int, numWaves: int, r: Unit): (s: seq<EnemySlot>)
    ensures i > 20 ==> s == Defaults(SlotCount)
    ensures 2 <= |s| <= SlotCount
    ensures forall k :: 0 <= k < |s| ==> s[k] == Some(DefaultEnemy)
  {
    if i > 20 then Defaults(6)
    else if RatioBelow(currentWave, numWaves, RatioThreshold(i)) then Defaults(RoundedDraw(r, 2, 5))
    else Defaults(RoundedDraw(r, 4, 6))
  }

  /** The configuration `generateLevels` passes for level index `i`. */
  function ConfigFor(i: int): (c: LevelConfig)
    ensures c.waveCount == Scalar(WavesPerLevel)
    ensures c.waveTime == Scalar(WaveTimeFor(i))
    ensures c.wordLength == WordLengthFor(i)
  {
    LevelConfig(WordLengthFor(i), Scalar(5), Scalar(WaveTimeFor(i)),
                (w: int, n: int, r: Unit) => EnemiesFor(i, w, n, r))
  }

  /** `generateLevels`; level `i` reads its draws from `rnds(i)`. */
  method GenerateLevels(rnds: nat -> Oracle) returns (levels: seq<Level>)
    ensures |levels| == LevelCount
    ensures forall i :: 0 <= i < |levels| ==> IsLevelOf(levels[i], ConfigFor(i), rnds(i))
  {
    levels := [];
    var i := 0;
    while i < LevelCount
      invariant 0 <= i <= LevelCount
      invariant |levels| == i
      invariant forall k :: 0 <= k < i ==> IsLevelOf(levels[k], ConfigFor(k), rnds(k))
    {
      var level := GenerateLevel(ConfigFor(i), rnds(i));
      levels := levels + [level];
      i := i + 1;
    }
  }

  /**
   * Every generated level has five waves with the schedule's word length; waves 1-2 wait
   * for a clear and waves 3-5 come after the schedule's wave time; every wave has six
   * slots holding between two and six default enemies, and all six from level index 21 on.
   */
  lemma GeneratedLevelShape(level: Level, i: int, rnd: Oracle)
    requires IsLevelOf(level, ConfigFor(i), rnd)
    ensures |level.waves| == WavesPerLevel
    ensures level.characterCount == Scalar(0)
    ensures level.waves[0].trigger == PrevWaveCleared && level.waves[1].trigger == PrevWaveCleared
    ensures forall w :: 2 <= w < 5 ==> level.waves[w].trigger == Time(WaveTimeFor(i))
    ensures forall w :: 0 <= w < 5 ==> level.waves[w].characterCount == WordLengthFor(i)
    ensures forall w :: 0 <= w < 5 ==> |level.waves[w].enemies| == SlotCount
    ensures forall w :: 0 <= w < 5 ==> Enemies(level.waves[w]) >= 2
    ensures i > 20 ==> forall w :: 0 <= w < 5 ==> Enemies(level.waves[w]) == SlotCount
  {
    var config := ConfigFor(i);
    FiveWaveTriggers(level, config, rnd, WaveTimeFor(i));
    forall w | 0 <= w < 5
      ensures level.waves[w].characterCount == WordLengthFor(i)
      ensures |level.waves[w].enemies| == SlotCount
      ensures Enemies(level.waves[w]) >= 2
      ensures i > 20 ==> Enemies(level.waves[w]) == SlotCount
    {
      assert IsWaveOf(level.waves[w], w, config, rnd);
      GeneratedWaveShape(level.waves[w], i, w, rnd);
    }
  }

  /** One generated wave: its word length, its six slots and how many of them are filled. */
  lemma GeneratedWaveShape(wave: Wave, i: int, w: int, rnd: Oracle)
    requires 0 <= w < 5
    requires IsWaveOf(wave, w, ConfigFor(i), rnd)
    ensures wave.characterCount == WordLengthFor(i)
    ensures |wave.enemies| == SlotCount
    ensures Enemies(wave) >= 2
    ensures i > 20 ==> Enemies(wave) == SlotCount
  {
    var config := ConfigFor(i);
    assert WaveCount(config, rnd) == 5;
    var returned := EnemiesFor(i, w + 1, 5, rnd(2 * w + 1));
    assert config.getEnemies(w + 1, 5, rnd(2 * w + 1)) == returned;
    var slots := wave.enemies;
    assert PaddedFrom(slots, returned);
    forall k | 0 <= k < |returned|
      ensures slots[k].Some?
    {
      assert slots[k] == slots[..|returned|][k] == returned[k];
    }
    EnemiesCountPrefix(slots, |returned|);
  }

  /** Number of occupied slots of a wave. */
  function Enemies(wave: Wave): int {
    Occupied(wave.enemies)
  }

  function Occupied(s: seq<EnemySlot>): (n: int)
    ensures 0 <= n <= |s|
  {
    if s == [] then 0 else Occupied(s[..|s| - 1]) + (if s[|s| - 1].Some? then 1 else 0)
  }

  /** Slots that start with `n` occupied ones hold at least `n` enemies; all full when `n == |s|`. */
  lemma {:induction false} EnemiesCountPrefix(s: seq<EnemySlot>, n: int)
    requires 0 <= n <= |s|
    requires forall k :: 0 <= k < n ==> s[k].Some?
    ensures Occupied(s) >= n
    ensures n == |s| ==> Occupied(s) == |s|
    decreases |s|
  {
    if s != [] {
      if n == |s| {
        EnemiesCountPrefix(s[..|s| - 1], n - 1);
      } else {
        EnemiesCountPrefix(s[..|s| - 1], n);
      }
    }
  }
}
